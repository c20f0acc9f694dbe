// The executor agent's handlers and its lease reaper (integration/agent/server.go).
module Agent {
  import opened Wrappers
  import opened Receipts
  import opened ChainStores
  import opened Append
  import opened Engine
  import opened Reaping
  import Protocol

  class AgentServer {
    const cfg: Protocol.Config
    const store: ChainStore
    const engine: Engine
    var leases: map<string, Lease>
    var leaseEnvelopes: map<string, Envelope>

    constructor (cfg: Protocol.Config, store: ChainStore, engine: Engine)
      requires store.crypto == cfg.crypto && engine.store == store && engine.key == cfg.key
      ensures this.cfg == cfg && this.store == store && this.engine == engine
      ensures leases == map[] && leaseEnvelopes == map[]
    {
      this.cfg, this.store, this.engine := cfg, store, engine;
      leases, leaseEnvelopes := map[], map[];
    }

    // Reaper phase 1: exactly the leases expired at `now`, by value, each with the envelope
    // registered for its contract; nothing is purged.
    method SnapshotExpiredLeases(now: int) returns (out: seq<ExpiredLease>)
      requires Keyed(leases)
      ensures IsSnapshot(leases, leaseEnvelopes, now, out)
    {
      out := [];
      var left := leases.Keys;
      while left != {}
        invariant left <= leases.Keys
        invariant forall k :: 0 <= k < |out| ==>
          out[k].leaseId in leases && out[k].leaseId !in left && Shows(out[k], leases[out[k].leaseId], leaseEnvelopes)
          && out[k].expiresAt <= now
        invariant forall id :: id in leases && id !in left && leases[id].expiresAt <= now ==> Confirmed(out, leases[id])
        invariant forall i, j :: 0 <= i < j < |out| ==> out[i].leaseId != out[j].leaseId
        decreases left
      {
        var id :| id in left;
        var l := leases[id];
        ghost var before := out;
        if l.expiresAt <= now {
          var env := if l.envelopeId in leaseEnvelopes then Some(leaseEnvelopes[l.envelopeId]) else None;
          out := out + [ExpiredLease(l.leaseId, l.envelopeId, l.expiresAt, env)];
          assert out[|before|].leaseId == l.leaseId && Confirmed(out, l);
        }
        left := left - {id};
        forall other | other in leases && other !in left && leases[other].expiresAt <= now
          ensures Confirmed(out, leases[other])
        {
          if other != id {
            var k :| 0 <= k < |before| && before[k].leaseId == leases[other].leaseId
                     && before[k].expiresAt == leases[other].expiresAt;
            assert out[k] == before[k];
          }
        }
      }
    }

    // The compare-and-delete of one snapshot entry, with the envelope registered for it.
    method ConfirmOne(sn: ExpiredLease) returns (hit: bool)
      modifies this`leases, this`leaseEnvelopes
      ensures hit == (sn.leaseId in old(leases) && old(leases)[sn.leaseId].expiresAt == sn.expiresAt)
      ensures leases == if hit then old(leases) - {sn.leaseId} else old(leases)
      ensures leaseEnvelopes ==
        if hit && sn.envelopeId != "" then old(leaseEnvelopes) - {sn.envelopeId} else old(leaseEnvelopes)
      ensures |leases| == |old(leases)| - if hit then 1 else 0
    {
      hit := sn.leaseId in leases && leases[sn.leaseId].expiresAt == sn.expiresAt;
      if hit {
        LosesOne(leases, sn.leaseId);
        leases := leases - {sn.leaseId};
        if sn.envelopeId != "" {
          leaseEnvelopes := leaseEnvelopes - {sn.envelopeId};
        }
      }
    }

    // Reaper phase 2, the compare-and-delete: a lease goes iff a snapshot entry names it with the expiry it
    // still has; every other lease is untouched. What is to be emitted are the envelopes of the confirmed
    // entries, in the order of the snapshot.
    method ConfirmAndPurge(snaps: seq<ExpiredLease>) returns (confirmed: nat, toEmit: seq<Option<Envelope>>)
      requires Keyed(leases)
      modifies this`leases, this`leaseEnvelopes
      ensures Purged(old(leases), snaps, leases)
      ensures Reaped(leases, leaseEnvelopes, toEmit) == Reap(old(leases), old(leaseEnvelopes), snaps)
      ensures confirmed == |toEmit| && |leases| == |old(leases)| - confirmed
    {
      toEmit := [];
      for i := 0 to |snaps|
        invariant Reaped(leases, leaseEnvelopes, toEmit) == Reap(old(leases), old(leaseEnvelopes), snaps[..i])
        invariant |leases| == |old(leases)| - |toEmit|
      {
        assert snaps[..i + 1][..i] == snaps[..i];
        var hit := ConfirmOne(snaps[i]);
        if hit {
          toEmit := toEmit + [snaps[i].envelope];
        }
      }
      assert snaps[..|snaps|] == snaps;
      ReapPurges(old(leases), old(leaseEnvelopes), snaps);
      confirmed := |toEmit|;
    }

    // One timeout per envelope, in order; a failed one does not stop the next. `ids[k]` and `others[k]` are the
    // ids drawn and the concurrent commits during the k-th.
    method EmitAll(toEmit: seq<Option<Envelope>>, ids: seq<seq<string>>, now: int, others: seq<seq<seq<Act>>>)
      returns (emitted: nat, answers: seq<Option<Receipt>>)
      requires Lawful(store.crypto) && WellChained(store.crypto, store.rows)
      requires |ids| >= |toEmit| && |others| >= |toEmit|
      requires forall k :: 0 <= k < |toEmit| ==> |ids[k]| >= DEFAULT_MAX_ATTEMPTS && |others[k]| >= 2 * DEFAULT_MAX_ATTEMPTS
      modifies store`rows
      ensures WellChained(store.crypto, store.rows) && Evolves(old(store.rows), store.rows)
      ensures |answers| == |toEmit| && emitted == Timeouts(answers)
      ensures AllAnswer(old(store.rows), store.rows, cfg.agent, toEmit, answers, ids)
      ensures toEmit == [] ==> store.rows == old(store.rows)
    {
      emitted, answers := 0, [];
      ExtendedEvolves(store.crypto, store.rows, store.rows);
      for i := 0 to |toEmit|
        invariant WellChained(store.crypto, store.rows) && Evolves(old(store.rows), store.rows)
        invariant |answers| == i && emitted == Timeouts(answers)
        invariant AllAnswer(old(store.rows), store.rows, cfg.agent, toEmit, answers, ids)
        invariant i == 0 ==> store.rows == old(store.rows)
      {
        ghost var before := store.rows;
        var answer, lost := EmitSettlementTimeout(toEmit[i], ids[i], now, others[i]);
        EvolvesTrans(old(store.rows), before, store.rows);
        ExtendedEvolves(store.crypto, store.rows, store.rows);
        OneMoreAnswer(store.crypto, old(store.rows), before, store.rows, cfg.agent, toEmit, answers, ids, answer);
        OneMoreTimeout(answers, answer);
        if answer.Some? && answer.value.verdict == Timeout {
          emitted := emitted + 1;
        }
        answers := answers + [answer];
      }
    }

    method ConfirmAndEmit(snaps: seq<ExpiredLease>, ids: seq<seq<string>>, now: int, others: seq<seq<seq<Act>>>)
      returns (confirmed: nat, emitted: nat, ghost answers: seq<Option<Receipt>>)
      requires Keyed(leases) && Lawful(store.crypto) && WellChained(store.crypto, store.rows)
      requires |ids| >= |snaps| && |others| >= |snaps|
      requires forall k :: 0 <= k < |snaps| ==> |ids[k]| >= DEFAULT_MAX_ATTEMPTS && |others[k]| >= 2 * DEFAULT_MAX_ATTEMPTS
      modifies this`leases, this`leaseEnvelopes, store`rows
      ensures var reaped := Reap(old(leases), old(leaseEnvelopes), snaps);
        leases == reaped.leases && leaseEnvelopes == reaped.envelopes && confirmed == |reaped.toEmit| == |answers|
        && AllAnswer(old(store.rows), store.rows, cfg.agent, reaped.toEmit, answers, ids)
      ensures Purged(old(leases), snaps, leases) && |leases| == |old(leases)| - confirmed
      ensures WellChained(store.crypto, store.rows) && Evolves(old(store.rows), store.rows)
      ensures emitted == Timeouts(answers) && (confirmed == 0 ==> store.rows == old(store.rows))
    {
      var toEmit, all;
      confirmed, toEmit := ConfirmAndPurge(snaps);
      ReapIsShort(old(leases), old(leaseEnvelopes), snaps);
      emitted, all := EmitAll(toEmit, ids, now, others);
      answers := all;
    }

    // Both reaper phases, with whatever other handlers did to leases and envelopes in between (`meanwhile`,
    // `envelopes`). No lease alive at that point is purged; in particular none whose expiry changed after the
    // snapshot. Every purged lease whose envelope was registered at the snapshot gets its timeout, or the append
    // gave up.
    method PurgeExpiredLeases(now: int, meanwhile: map<string, Lease>, envelopes: map<string, Envelope>,
                              ids: seq<seq<string>>, others: seq<seq<seq<Act>>>)
      returns (confirmed: nat, ghost snaps: seq<ExpiredLease>, ghost answers: seq<Option<Receipt>>)
      requires Keyed(leases) && Keyed(meanwhile) && Lawful(store.crypto) && WellChained(store.crypto, store.rows)
      requires |ids| >= |leases| && |others| >= |leases|
      requires forall k :: 0 <= k < |leases| ==> |ids[k]| >= DEFAULT_MAX_ATTEMPTS && |others[k]| >= 2 * DEFAULT_MAX_ATTEMPTS
      modifies this`leases, this`leaseEnvelopes, store`rows
      ensures Keyed(leases) && |leases| == |meanwhile| - confirmed
      ensures forall id :: id in leases ==> id in meanwhile && leases[id] == meanwhile[id]
      ensures forall id :: id in meanwhile ==> (id !in leases <==> StillExpired(old(leases), meanwhile[id], now))
      ensures IsSnapshot(old(leases), old(leaseEnvelopes), now, snaps)
      ensures forall id :: id in meanwhile && id !in leases ==> id in old(leases)
      ensures forall id :: id in meanwhile && id !in leases && id in old(leases) && old(leases)[id].envelopeId in old(leaseEnvelopes) ==>
        Served(old(store.rows), store.rows, cfg.agent, old(leaseEnvelopes)[old(leases)[id].envelopeId],
               Reap(meanwhile, envelopes, snaps).toEmit, answers, ids)
      ensures var reaped := Reap(meanwhile, envelopes, snaps);
        leaseEnvelopes == reaped.envelopes && confirmed == |reaped.toEmit| == |answers|
        && AllAnswer(old(store.rows), store.rows, cfg.agent, reaped.toEmit, answers, ids)
      ensures WellChained(store.crypto, store.rows) && Evolves(old(store.rows), store.rows)
      ensures confirmed == 0 ==> store.rows == old(store.rows)
    {
      var taken := SnapshotExpiredLeases(now);
      snaps := taken;
      ghost var earlier, registered, first := leases, leaseEnvelopes, store.rows;
      DistinctLeasesFit(taken, leases);
      leases, leaseEnvelopes := meanwhile, envelopes;
      var emitted;
      confirmed, emitted, answers := ConfirmAndEmit(taken, ids, now, others);
      forall id | id in meanwhile && id in earlier && meanwhile[id].expiresAt == earlier[id].expiresAt
                  && meanwhile[id].expiresAt <= now
        ensures Confirmed(taken, meanwhile[id])
      {
        assert Confirmed(taken, earlier[id]);
      }
      forall id | id in meanwhile && id !in leases && id in earlier && earlier[id].envelopeId in registered
        ensures Served(first, store.rows, cfg.agent, registered[earlier[id].envelopeId],
                       Reap(meanwhile, envelopes, snaps).toEmit, answers, ids)
      {
        PurgedIsServed(first, store.rows, cfg.agent, earlier, registered, now, taken, meanwhile, envelopes, answers, ids, id);
      }
    }

    // The SETTLEMENT_TIMEOUT receipt of an expired contract: an earlier receipt of any verdict wins, and so does
    // one that another call stores first.
    method EmitSettlementTimeout(env: Option<Envelope>, ids: seq<string>, now: int, others: seq<seq<Act>>)
      returns (answer: Option<Receipt>, lostRace: bool)
      requires Lawful(store.crypto) && WellChained(store.crypto, store.rows)
      requires |ids| >= DEFAULT_MAX_ATTEMPTS && |others| >= 2 * DEFAULT_MAX_ATTEMPTS
      modifies store`rows
      ensures WellChained(store.crypto, store.rows) && Evolves(old(store.rows), store.rows)
      ensures env.None? ==> answer.None? && !lostRace && store.rows == old(store.rows)
      ensures answer.Some? ==> env.Some? && Recorded(store.rows, env.value.envelopeId, answer.value)
      ensures env.Some? && old(ContractTaken(store.rows, env.value.envelopeId)) ==>
        answer.Some? && !lostRace && store.rows == old(store.rows)
      ensures answer.Some? && !lostRace && !old(ContractTaken(store.rows, env.value.envelopeId)) ==>
        Says(answer.value, env.value, cfg.agent, if env.value.hash == "" then env.value.computedHash else env.value.hash, Timeout, "")
        && answer.value.receiptId in ids && answer.value.executorSignedAt == now
        && ExecutorSigned(store.crypto, store.crypto.publicKey(cfg.key), answer.value)
      ensures env.Some? && !old(ContractTaken(store.rows, env.value.envelopeId)) ==>
        WroteOnly(store.crypto, old(store.rows), others, store.rows, if lostRace then None else answer)
      ensures Answers(old(store.rows), store.rows, cfg.agent, env, answer, ids)
    {
      if env.None? {
        return None, false;
      }
      var e := env.value;
      answer, lostRace := RecordOnce(store, cfg.key, e.emitter, cfg.agent, TimeoutDraft(e), ids, now, others);
      if answer.Some? {
        TermsSay(answer.value, e, if e.hash == "" then e.computedHash else e.hash, Timeout, "");
      }
    }

    // A named lease that was not granted.
    predicate Denied(leaseId: string)
      reads this`leases
    {
      leaseId != "" && leaseId in leases && !leases[leaseId].accepted
    }

    // A named, granted lease of this contract whose time is up.
    predicate Late(leaseId: string, envelopeId: string, now: int)
      reads this`leases
    {
      && leaseId != "" && leaseId in leases && leases[leaseId].accepted
      && leases[leaseId].envelopeId == envelopeId && leases[leaseId].expiresAt <= now
    }

    // A settle request. `cleared` tells whether caller identity, envelope signature and capabilities were
    // found in order. A refused request changes nothing; a late one is answered like a timeout, any other by
    // the engine; the answer is always the receipt recorded for the contract.
    method HandleSettle(env: Envelope, cleared: bool, leaseId: string, evaluations: seq<seq<AssertionOutcome>>,
                        encode: seq<AssertionOutcome> -> string, ids: seq<string>, now: int, others: seq<seq<Act>>)
      returns (answer: Option<Receipt>, ghost lostRace: bool)
      requires Lawful(store.crypto) && WellChained(store.crypto, store.rows)
      requires engine.store == store && engine.key == cfg.key
      requires engine.limit >= 1 && |evaluations| == engine.limit + 1
      requires |ids| >= DEFAULT_MAX_ATTEMPTS && |others| >= 2 * DEFAULT_MAX_ATTEMPTS
      modifies store`rows, engine`duplicateRecoveries
      ensures WellChained(store.crypto, store.rows) && Evolves(old(store.rows), store.rows)
      ensures answer.Some? ==> Recorded(store.rows, env.envelopeId, answer.value)
      ensures !env.valid || env.meshId != cfg.meshId || !cleared || Denied(leaseId) ==>
        answer.None? && store.rows == old(store.rows)
      ensures answer.Some? && old(ContractTaken(store.rows, env.envelopeId)) ==> store.rows == old(store.rows)
      ensures answer.Some? && !Late(leaseId, env.envelopeId, now) ==> Admissible(env, env.emitter, cfg.agent)
      ensures answer.Some? && !lostRace && !old(ContractTaken(store.rows, env.envelopeId)) ==>
        answer.value.receiptId in ids && answer.value.executorSignedAt == now
        && ExecutorSigned(store.crypto, store.crypto.publicKey(cfg.key), answer.value)
        && if Late(leaseId, env.envelopeId, now)
           then Says(answer.value, env, cfg.agent, if env.hash == "" then env.computedHash else env.hash, Timeout, "")
           else exists k :: Decides(evaluations, k)
                  && Says(answer.value, env, env.executor, env.computedHash, Outcome(evaluations), encode(evaluations[k]))
      ensures answer.None? ==>
        || !env.valid || env.meshId != cfg.meshId || !cleared || Denied(leaseId)
        || (if Late(leaseId, env.envelopeId, now) then GaveUp(old(store.rows), store.rows, cfg.agent, env, ids)
            else !Admissible(env, env.emitter, cfg.agent)
                 || NoAnswer(old(store.rows), store.rows, env, env.executor, env.computedHash, ids))
      ensures store.rows == old(store.rows)
        || WroteOnly(store.crypto, old(store.rows), others, store.rows, if lostRace then None else answer)
    {
      lostRace := false;
      if !env.valid || env.meshId != cfg.meshId || !cleared {
        return None, false;
      }
      if leaseId != "" && leaseId in leases {
        var l := leases[leaseId];
        if !l.accepted {
          return None, false;
        }
        if l.envelopeId == env.envelopeId && l.expiresAt <= now {
          var lost;
          answer, lost := EmitSettlementTimeout(Some(env), ids, now, others);
          lostRace := lost;
          return;
        }
      }
      var used;
      answer, used := engine.Settle(env, env.emitter, cfg.agent, evaluations, encode, ids, now, others);
      lostRace := engine.duplicateRecoveries != old(engine.duplicateRecoveries);
    }

    ghost predicate Ready()
      reads this, store
    {
      store.crypto == cfg.crypto && Protocol.StoreInv(cfg, store.rows)
    }

    // The other handlers and calls act between this one's read and its write: they leave a sound table in which
    // the rows read are still there.
    ghost predicate MayLeave(meanwhile: seq<Row>)
      reads this, store
    {
      Protocol.StoreInv(cfg, meanwhile) && Evolves(store.rows, meanwhile)
    }

    // The emitter's acceptance is written iff every guard passes on the receipt as it was read; the guards are
    // not checked again on the table that is written. Then the row carries a verifying acceptance.
    method HandleAccept(receiptId: string, signature: string, now: int, meanwhile: seq<Row>) returns (ok: bool)
      requires Ready() && MayLeave(meanwhile)
      modifies store`rows
      ensures Ready()
      ensures store.rows == Protocol.Decision(cfg, old(store.rows), meanwhile, receiptId, Accepted, "", signature, now)
      ensures ok <==> Protocol.Admit(cfg, old(store.rows), receiptId, Accepted, "", signature).Some?
      ensures ok ==> Protocol.DecidedAs(cfg, store.rows, receiptId, Accepted, "", signature, now)
    {
      ghost var before := store.rows;
      Protocol.DecisionTakesEffect(cfg, before, meanwhile, receiptId, Accepted, "", signature, now);
      if signature == "" {
        store.rows := meanwhile;
        return false;
      }
      var found := store.GetReceipt(receiptId);
      store.rows := meanwhile;
      if found.None? {
        return false;
      }
      var stored := found.value;
      if stored.meshId != cfg.meshId {
        return false;
      }
      if !ExecutorSigned(cfg.crypto, cfg.crypto.publicKey(cfg.key), stored) {
        return false;
      }
      var candidate := stored.(emitterAcceptance := Accepted, disputeReason := "", emitterSignature := signature);
      if !EmitterSigned(cfg.crypto, cfg.emitterKey(stored.emitter), candidate) {
        return false;
      }
      stored := Decided(stored, Accepted, "", now, signature);
      UpdateSucceeds(before, meanwhile, receiptId, Accepted, "", signature, now);
      ok := store.UpdateReceipt(stored);
    }

    // As for acceptance; refused when the receipt was read as accepted or disputed.
    method HandleDispute(receiptId: string, reason: string, signature: string, now: int, meanwhile: seq<Row>)
      returns (ok: bool)
      requires Ready() && MayLeave(meanwhile)
      modifies store`rows
      ensures Ready()
      ensures store.rows == Protocol.Decision(cfg, old(store.rows), meanwhile, receiptId, Disputed, reason, signature, now)
      ensures ok <==> Protocol.Admit(cfg, old(store.rows), receiptId, Disputed, reason, signature).Some?
      ensures ok ==> Protocol.DecidedAs(cfg, store.rows, receiptId, Disputed, reason, signature, now)
    {
      ghost var before := store.rows;
      Protocol.DecisionTakesEffect(cfg, before, meanwhile, receiptId, Disputed, reason, signature, now);
      if signature == "" || reason == "" {
        store.rows := meanwhile;
        return false;
      }
      var found := store.GetReceipt(receiptId);
      store.rows := meanwhile;
      if found.None? {
        return false;
      }
      var stored := found.value;
      if stored.meshId != cfg.meshId {
        return false;
      }
      if stored.emitterAcceptance == Accepted || stored.emitterAcceptance == Disputed {
        return false;
      }
      if !ExecutorSigned(cfg.crypto, cfg.crypto.publicKey(cfg.key), stored) {
        return false;
      }
      var candidate := stored.(emitterAcceptance := Disputed, disputeReason := reason, emitterSignature := signature);
      if !EmitterSigned(cfg.crypto, cfg.emitterKey(stored.emitter), candidate) {
        return false;
      }
      stored := Decided(stored, Disputed, reason, now, signature);
      UpdateSucceeds(before, meanwhile, receiptId, Disputed, reason, signature, now);
      ok := store.UpdateReceipt(stored);
    }

    // The receipt read is still in the table, so the update finds a row to write.
    lemma UpdateSucceeds(before: seq<Row>, meanwhile: seq<Row>, receiptId: string, decision: Acceptance, reason: string,
                         signature: string, now: int)
      requires Protocol.StoreInv(cfg, before) && Protocol.StoreInv(cfg, meanwhile) && Evolves(before, meanwhile)
      requires Protocol.Admit(cfg, before, receiptId, decision, reason, signature).Some?
      ensures var p := Protocol.Admit(cfg, before, receiptId, decision, reason, signature).value;
        var decided := Decided(p.stored, p.decision, p.reason, now, p.signature);
        Valid(decided) && exists i :: 0 <= i < |meanwhile| && meanwhile[i].receiptId == decided.receiptId
    {
      Protocol.AdmittedIsOk(cfg, before, receiptId, decision, reason, signature);
      var p := Protocol.Admit(cfg, before, receiptId, decision, reason, signature).value;
      Protocol.PendingIsStable(cfg, before, meanwhile, p);
      var k := Protocol.WriteTouchesOneRow(cfg, meanwhile, p, now);
      assert Protocol.Genuine(cfg, meanwhile[k]) && Faithful(meanwhile[k]);
      Protocol.SnapshotIsSigned(cfg, meanwhile[k], p, now);
    }
  }
}
