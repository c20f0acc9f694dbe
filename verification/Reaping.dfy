// The lease reaper's bookkeeping: snapshots of expired leases, what confirming them purges and hands on, and how
// the timeouts are answered (integration/agent/server.go snapshotExpiredLeases, confirmAndEmit).
module Reaping {
  import opened Wrappers
  import opened Receipts
  import opened ChainStores
  import opened Append
  import opened Engine
  import opened Sequences

  datatype Lease = Lease(leaseId: string, envelopeId: string, expiresAt: int, accepted: bool)

  datatype ExpiredLease = ExpiredLease(leaseId: string, envelopeId: string, expiresAt: int, envelope: Option<Envelope>)

  // The lease table and the envelopes registered for it.
  ghost predicate Keyed(leases: map<string, Lease>) {
    forall id :: id in leases ==> leases[id].leaseId == id
  }

  // Some snapshot entry names this lease with the expiry it has now.
  ghost predicate Confirmed(snaps: seq<ExpiredLease>, lease: Lease) {
    exists k :: 0 <= k < |snaps| && snaps[k].leaseId == lease.leaseId && snaps[k].expiresAt == lease.expiresAt
  }

  lemma ConfirmedBy(snaps: seq<ExpiredLease>, last: ExpiredLease, lease: Lease)
    ensures Confirmed(snaps + [last], lease) <==>
      Confirmed(snaps, lease) || (last.leaseId == lease.leaseId && last.expiresAt == lease.expiresAt)
  {
    var all := snaps + [last];
    assert all[|snaps|] == last;
    if Confirmed(snaps, lease) {
      var k :| 0 <= k < |snaps| && snaps[k].leaseId == lease.leaseId && snaps[k].expiresAt == lease.expiresAt;
      assert all[k] == snaps[k];
    }
  }

  // The compare-and-delete of one snapshot entry.
  predicate Matches(lease: Lease, entry: ExpiredLease) {
    lease.leaseId == entry.leaseId && lease.expiresAt == entry.expiresAt
  }

  // The lease was in the table as `earlier` showed it with the expiry it has now, and that is past.
  ghost predicate StillExpired(earlier: map<string, Lease>, lease: Lease, now: int) {
    lease.leaseId in earlier && earlier[lease.leaseId].expiresAt == lease.expiresAt && lease.expiresAt <= now
  }

  // The table after the first i snapshot entries: the confirmed leases are gone, the rest is as it was.
  ghost predicate Purged(before: map<string, Lease>, snaps: seq<ExpiredLease>, after: map<string, Lease>) {
    && (forall id :: id in after <==> id in before && !Confirmed(snaps, before[id]))
    && (forall id :: id in after ==> after[id] == before[id])
  }

  // Leases, envelopes and what is to be emitted after confirming the snapshot entries one by one.
  datatype Reaped = Reaped(leases: map<string, Lease>, envelopes: map<string, Envelope>, toEmit: seq<Option<Envelope>>)

  function Reap(leases: map<string, Lease>, envelopes: map<string, Envelope>, snaps: seq<ExpiredLease>): Reaped {
    if snaps == [] then Reaped(leases, envelopes, [])
    else
      var mid, sn := Reap(leases, envelopes, snaps[..|snaps| - 1]), snaps[|snaps| - 1];
      if sn.leaseId in mid.leases && mid.leases[sn.leaseId].expiresAt == sn.expiresAt then
        Reaped(mid.leases - {sn.leaseId}, if sn.envelopeId != "" then mid.envelopes - {sn.envelopeId} else mid.envelopes,
               mid.toEmit + [sn.envelope])
      else mid
  }

  lemma {:induction false} ReapPurges(leases: map<string, Lease>, envelopes: map<string, Envelope>, snaps: seq<ExpiredLease>)
    requires Keyed(leases)
    ensures Purged(leases, snaps, Reap(leases, envelopes, snaps).leases)
  {
    if snaps != [] {
      var n := |snaps| - 1;
      ReapPurges(leases, envelopes, snaps[..n]);
      PurgeOne(leases, snaps[..n], snaps[n], Reap(leases, envelopes, snaps[..n]).leases);
      assert snaps == snaps[..n] + [snaps[n]];
    }
  }

  lemma {:induction false} ReapIsShort(leases: map<string, Lease>, envelopes: map<string, Envelope>, snaps: seq<ExpiredLease>)
    ensures |Reap(leases, envelopes, snaps).toEmit| <= |snaps|
  {
    if snaps != [] {
      ReapIsShort(leases, envelopes, snaps[..|snaps| - 1]);
    }
  }

  // A snapshot holds at most one entry per lease.
  lemma DistinctLeasesFit(snaps: seq<ExpiredLease>, leases: map<string, Lease>)
    requires forall k :: 0 <= k < |snaps| ==> snaps[k].leaseId in leases
    requires forall i, j :: 0 <= i < j < |snaps| ==> snaps[i].leaseId != snaps[j].leaseId
    ensures |snaps| <= |leases|
  {
    var ids := seq(|snaps|, k requires 0 <= k < |snaps| => snaps[k].leaseId);
    CountElements(ids);
    assert Elements(ids) <= leases.Keys;
    SubsetCount(Elements(ids), leases.Keys);
  }

  // The receipts that say the contract timed out.
  function Timeouts(answers: seq<Option<Receipt>>): (n: nat)
    ensures n <= |answers|
  {
    if answers == [] then 0
    else
      var n := |answers| - 1;
      Timeouts(answers[..n]) + if answers[n].Some? && answers[n].value.verdict == Timeout then 1 else 0
  }

  // What a timeout receipt is drafted from: the envelope's own hash, or the computed one when it has none.
  function TimeoutDraft(env: Envelope): Receipt {
    DraftOf(env, if env.hash == "" then env.computedHash else env.hash, Timeout, "")
  }

  // The append lost the head ten times to other writers of the pair, or the draft cannot be made valid.
  ghost predicate GaveUp(first: seq<Row>, rows: seq<Row>, agent: string, env: Envelope, drawn: seq<string>) {
    || PairCount(rows, env.emitter, agent) >= PairCount(first, env.emitter, agent) + DEFAULT_MAX_ATTEMPTS
    || exists id :: id in drawn && !Complete(TimeoutDraft(env), env.emitter, agent, id)
  }

  // An answer is the receipt recorded for the envelope's contract. It is missing only without an envelope or
  // when the append gave up, and never for a contract that had its receipt already.
  ghost predicate Answers(first: seq<Row>, rows: seq<Row>, agent: string, env: Option<Envelope>, answer: Option<Receipt>,
                          drawn: seq<string>)
  {
    && (answer.Some? ==> env.Some? && Recorded(rows, env.value.envelopeId, answer.value))
    && (answer.None? && env.Some? ==>
          GaveUp(first, rows, agent, env.value, drawn) && !ContractTaken(first, env.value.envelopeId))
  }

  ghost predicate AllAnswer(first: seq<Row>, rows: seq<Row>, agent: string, envs: seq<Option<Envelope>>,
                            answers: seq<Option<Receipt>>, ids: seq<seq<string>>)
  {
    && |answers| <= |envs| && |answers| <= |ids|
    && forall k :: 0 <= k < |answers| ==> Answers(first, rows, agent, envs[k], answers[k], ids[k])
  }

  // Rows are never deleted, so the pair's count only grows.
  lemma {:induction false} CountNeverFalls(c: Crypto, a: seq<Row>, b: seq<Row>, em: string, ex: string)
    requires Evolves(a, b)
    ensures PairCount(a, em, ex) <= PairCount(b, em, ex)
    decreases |b|
  {
    if |a| == |b| {
      EvolvedCounts(c, a, b, em, ex);
    } else {
      var n := |b| - 1;
      CountNeverFalls(c, a, b[..n], em, ex);
      CountGrows(b[..n], b[n], em, ex);
      assert b == b[..n] + [b[n]];
    }
  }

  // What holds of an answer between two tables holds from an earlier table to a later one.
  lemma AnswerStays(c: Crypto, first: seq<Row>, a: seq<Row>, b: seq<Row>, last: seq<Row>, agent: string, env: Option<Envelope>,
                    answer: Option<Receipt>, drawn: seq<string>)
    requires Evolves(first, a) && Evolves(b, last) && Answers(a, b, agent, env, answer, drawn)
    ensures Answers(first, last, agent, env, answer, drawn)
  {
    if answer.Some? {
      RecordedStays(b, last, env.value.envelopeId, answer.value);
    } else if env.Some? {
      CountNeverFalls(c, first, a, env.value.emitter, agent);
      CountNeverFalls(c, b, last, env.value.emitter, agent);
      StillTaken(first, a, env.value.envelopeId);
    }
  }

  lemma StillTaken(a: seq<Row>, b: seq<Row>, contractId: string)
    requires Evolves(a, b)
    ensures ContractTaken(a, contractId) ==> ContractTaken(b, contractId)
  {
    if ContractTaken(a, contractId) {
      var i :| 0 <= i < |a| && a[i].contractId == contractId;
      assert Preserved(a[i], b[i]);
    }
  }

  lemma RecordedStays(a: seq<Row>, b: seq<Row>, contractId: string, r: Receipt)
    requires Evolves(a, b) && Recorded(a, contractId, r)
    ensures Recorded(b, contractId, r)
  {
    var i :| 0 <= i < |a| && a[i].contractId == contractId && a[i].data.Some?
      && ExecutorContent(a[i].data.value) == ExecutorContent(r) && a[i].data.value.executorSignature == r.executorSignature;
    assert Preserved(a[i], b[i]);
  }

  lemma OneMoreTimeout(answers: seq<Option<Receipt>>, answer: Option<Receipt>)
    ensures Timeouts(answers + [answer]) ==
      Timeouts(answers) + if answer.Some? && answer.value.verdict == Timeout then 1 else 0
  {
    assert (answers + [answer])[..|answers|] == answers;
  }

  lemma OneMoreAnswer(c: Crypto, first: seq<Row>, a: seq<Row>, b: seq<Row>, agent: string, envs: seq<Option<Envelope>>,
                      answers: seq<Option<Receipt>>, ids: seq<seq<string>>, answer: Option<Receipt>)
    requires Evolves(first, first) && Evolves(first, a) && Evolves(a, b) && Evolves(b, b)
    requires AllAnswer(first, a, agent, envs, answers, ids) && |answers| < |envs| && |answers| < |ids|
    requires Answers(a, b, agent, envs[|answers|], answer, ids[|answers|])
    ensures AllAnswer(first, b, agent, envs, answers + [answer], ids)
  {
    var n := |answers|;
    AnswerStays(c, first, a, b, b, agent, envs[n], answer, ids[n]);
    forall k | 0 <= k < n
      ensures Answers(first, b, agent, envs[k], answers[k], ids[k])
    {
      AnswerStays(c, first, first, a, b, agent, envs[k], answers[k], ids[k]);
    }
  }

  lemma LosesOne(leases: map<string, Lease>, id: string)
    requires id in leases
    ensures |leases - {id}| == |leases| - 1
  {
    assert (leases - {id}).Keys == leases.Keys - {id};
  }

  lemma PurgeOne(before: map<string, Lease>, snaps: seq<ExpiredLease>, entry: ExpiredLease, mid: map<string, Lease>)
    requires Keyed(before) && Purged(before, snaps, mid)
    ensures var hit := entry.leaseId in mid && mid[entry.leaseId].expiresAt == entry.expiresAt;
      Purged(before, snaps + [entry], if hit then mid - {entry.leaseId} else mid)
  {
    forall id | id in before
      ensures Confirmed(snaps + [entry], before[id]) <==> Confirmed(snaps, before[id]) || Matches(before[id], entry)
    {
      ConfirmedBy(snaps, entry, before[id]);
    }
  }

  // The entry shows this lease and the envelope registered for its contract, if any.
  predicate Shows(entry: ExpiredLease, lease: Lease, envelopes: map<string, Envelope>) {
    && entry.leaseId == lease.leaseId && entry.envelopeId == lease.envelopeId && entry.expiresAt == lease.expiresAt
    && entry.envelope == if lease.envelopeId in envelopes then Some(envelopes[lease.envelopeId]) else None
  }

  // Exactly the leases expired at `now`, each once.
  ghost predicate IsSnapshot(leases: map<string, Lease>, envelopes: map<string, Envelope>, now: int, out: seq<ExpiredLease>) {
    && (forall k :: 0 <= k < |out| ==>
          out[k].leaseId in leases && Shows(out[k], leases[out[k].leaseId], envelopes) && out[k].expiresAt <= now)
    && (forall id :: id in leases && leases[id].expiresAt <= now ==> Confirmed(out, leases[id]))
    && (forall i, j :: 0 <= i < j < |out| ==> out[i].leaseId != out[j].leaseId)
  }

  // The entry names a lease with the expiry it still has.
  predicate Hits(leases: map<string, Lease>, entry: ExpiredLease) {
    entry.leaseId in leases && leases[entry.leaseId].expiresAt == entry.expiresAt
  }

  // `at` lists, in order, the positions of the entries that hit.
  ghost predicate ListsHits(leases: map<string, Lease>, snaps: seq<ExpiredLease>, at: seq<int>) {
    && (forall i :: 0 <= i < |at| ==> 0 <= at[i] < |snaps| && Hits(leases, snaps[at[i]]))
    && (forall i, j :: 0 <= i < j < |at| ==> at[i] < at[j])
    && (forall k :: 0 <= k < |snaps| && Hits(leases, snaps[k]) ==> k in at)
  }

  ghost predicate Taken(leases: map<string, Lease>, snaps: seq<ExpiredLease>, envelopeId: string) {
    exists k :: 0 <= k < |snaps| && Hits(leases, snaps[k]) && snaps[k].envelopeId == envelopeId
  }

  // A lease that no entry names stays as it is.
  lemma {:induction false} ReapKeeps(leases: map<string, Lease>, envelopes: map<string, Envelope>, snaps: seq<ExpiredLease>, id: string)
    requires forall k :: 0 <= k < |snaps| ==> snaps[k].leaseId != id
    ensures var r := Reap(leases, envelopes, snaps);
      (id in r.leases <==> id in leases) && (id in leases ==> r.leases[id] == leases[id])
  {
    if snaps != [] {
      ReapKeeps(leases, envelopes, snaps[..|snaps| - 1], id);
    }
  }

  // With one entry per lease, what is handed on are the envelopes of the entries that hit, in snapshot order.
  lemma {:induction false} ReapHandsOn(leases: map<string, Lease>, envelopes: map<string, Envelope>, snaps: seq<ExpiredLease>)
    returns (at: seq<int>)
    requires forall i, j :: 0 <= i < j < |snaps| ==> snaps[i].leaseId != snaps[j].leaseId
    ensures var r := Reap(leases, envelopes, snaps);
      ListsHits(leases, snaps, at) && |r.toEmit| == |at| && forall i :: 0 <= i < |at| ==> r.toEmit[i] == snaps[at[i]].envelope
  {
    if snaps == [] {
      at := [];
    } else {
      var n := |snaps| - 1;
      at := ReapHandsOn(leases, envelopes, snaps[..n]);
      ReapKeeps(leases, envelopes, snaps[..n], snaps[n].leaseId);
      OneMoreHit(leases, snaps, n, at);
      if Hits(leases, snaps[n]) {
        at := at + [n];
      }
    }
  }

  // And the envelopes that stay registered are all others.
  lemma {:induction false} ReapKeepsEnvelopes(leases: map<string, Lease>, envelopes: map<string, Envelope>, snaps: seq<ExpiredLease>)
    requires forall i, j :: 0 <= i < j < |snaps| ==> snaps[i].leaseId != snaps[j].leaseId
    ensures var r := Reap(leases, envelopes, snaps);
      && (forall e :: e in r.envelopes <==> e in envelopes && (e == "" || !Taken(leases, snaps, e)))
      && (forall e :: e in r.envelopes ==> r.envelopes[e] == envelopes[e])
  {
    if snaps != [] {
      var n := |snaps| - 1;
      ReapKeepsEnvelopes(leases, envelopes, snaps[..n]);
      ReapKeeps(leases, envelopes, snaps[..n], snaps[n].leaseId);
      OneMoreTaken(leases, snaps, n);
    }
  }

  lemma OneMoreHit(leases: map<string, Lease>, snaps: seq<ExpiredLease>, n: nat, at: seq<int>)
    requires |snaps| == n + 1 && ListsHits(leases, snaps[..n], at)
    ensures ListsHits(leases, snaps, if Hits(leases, snaps[n]) then at + [n] else at)
  {
    var all := if Hits(leases, snaps[n]) then at + [n] else at;
    forall i | 0 <= i < |all|
      ensures 0 <= all[i] < |snaps| && Hits(leases, snaps[all[i]])
    {
      if i < |at| {
        assert snaps[..n][at[i]] == snaps[at[i]] && all[i] == at[i];
      }
    }
    forall k | 0 <= k < |snaps| && Hits(leases, snaps[k])
      ensures k in all
    {
      if k < n {
        AtHits(leases, snaps, n, at, k);
      } else {
        assert all[|at|] == n;
      }
    }
  }

  lemma AtHits(leases: map<string, Lease>, snaps: seq<ExpiredLease>, n: nat, at: seq<int>, k: nat)
    requires n <= |snaps| && ListsHits(leases, snaps[..n], at) && k < n && Hits(leases, snaps[k])
    ensures k in at
  {
    assert snaps[..n][k] == snaps[k];
  }

  lemma OneMoreTaken(leases: map<string, Lease>, snaps: seq<ExpiredLease>, n: nat)
    requires |snaps| == n + 1
    ensures forall e :: Taken(leases, snaps, e) <==>
      Taken(leases, snaps[..n], e) || (Hits(leases, snaps[n]) && snaps[n].envelopeId == e)
  {
    forall e
      ensures Taken(leases, snaps, e) <==> Taken(leases, snaps[..n], e) || (Hits(leases, snaps[n]) && snaps[n].envelopeId == e)
    {
      if Taken(leases, snaps[..n], e) {
        var k :| 0 <= k < n && Hits(leases, snaps[..n][k]) && snaps[..n][k].envelopeId == e;
        assert Hits(leases, snaps[k]);
      }
      if k :| 0 <= k < |snaps| && Hits(leases, snaps[k]) && snaps[k].envelopeId == e {
        assert k < n ==> Hits(leases, snaps[..n][k]);
      }
    }
  }

  // A purged lease's envelope is handed on and answered.
  ghost predicate Served(first: seq<Row>, rows: seq<Row>, agent: string, env: Envelope, toEmit: seq<Option<Envelope>>,
                         answers: seq<Option<Receipt>>, ids: seq<seq<string>>)
  {
    exists k :: 0 <= k < |toEmit| && k < |answers| && k < |ids| && toEmit[k] == Some(env)
      && if answers[k].Some? then Recorded(rows, env.envelopeId, answers[k].value)
         else GaveUp(first, rows, agent, env, ids[k])
  }

  lemma PurgedIsServed(first: seq<Row>, rows: seq<Row>, agent: string, earlier: map<string, Lease>,
                       registered: map<string, Envelope>, now: int, snaps: seq<ExpiredLease>, leases: map<string, Lease>,
                       envelopes: map<string, Envelope>, answers: seq<Option<Receipt>>, ids: seq<seq<string>>, id: string)
    requires IsSnapshot(earlier, registered, now, snaps) && Keyed(earlier) && Keyed(leases)
    requires var toEmit := Reap(leases, envelopes, snaps).toEmit;
      |toEmit| == |answers| && AllAnswer(first, rows, agent, toEmit, answers, ids)
    requires id in leases && id !in Reap(leases, envelopes, snaps).leases
    requires id in earlier && earlier[id].envelopeId in registered
    ensures Served(first, rows, agent, registered[earlier[id].envelopeId], Reap(leases, envelopes, snaps).toEmit, answers, ids)
  {
    var toEmit := Reap(leases, envelopes, snaps).toEmit;
    ReapPurges(leases, envelopes, snaps);
    var at := ReapHandsOn(leases, envelopes, snaps);
    var k :| 0 <= k < |snaps| && snaps[k].leaseId == id && snaps[k].expiresAt == leases[id].expiresAt;
    assert Hits(leases, snaps[k]);
    var i :| 0 <= i < |at| && at[i] == k;
    assert toEmit[i] == Some(registered[earlier[id].envelopeId]);
    assert Answers(first, rows, agent, toEmit[i], answers[i], ids[i]);
  }
}
