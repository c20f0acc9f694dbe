// The hash-chained join log, its verifier and its live subscriptions (pkg/joinlog/joinlog.go, http.go).
module JoinLogs {
  import opened Wrappers

  // A point in time as nanoseconds since the zero time, and the zone offset it is written with.
  datatype Instant = Instant(nanos: int, offset: int)

  predicate IsZero(t: Instant) {
    t.nanos == 0
  }

  datatype Event = Event(
    id: string,
    seqNo: int,
    kind: string,
    actor: string,
    payload: string,
    time: Instant,
    prevHash: string,
    hash: string)

  // What the event hash covers: everything but the hash and the sequence number, the payload in canonical form.
  datatype Content = Content(id: string, kind: string, actor: string, payload: string, time: Instant, prevHash: string)

  // Canonical JSON of a payload (None when it is not JSON) and the digest of a content.
  datatype Codec = Codec(canon: string -> Option<string>, sha: Content -> string)

  ghost predicate Lawful(c: Codec) {
    && (forall x :: c.sha(x) != "")
    && c.canon("{}") == Some("{}")
  }

  ghost predicate Injective(c: Codec) {
    forall x, y :: c.sha(x) == c.sha(y) ==> x == y
  }

  // An absent payload is hashed as the JSON value null.
  function CanonicalPayload(c: Codec, payload: string): Option<string> {
    if payload == "" then Some("null") else c.canon(payload)
  }

  function ContentOf(c: Codec, e: Event): Option<Content> {
    match CanonicalPayload(c, e.payload)
    case None => None
    case Some(p) => Some(Content(e.id, e.kind, e.actor, p, e.time, e.prevHash))
  }

  function ComputeEventHash(c: Codec, e: Event): Option<string> {
    if e.id == "" && e.kind == "" && e.actor == "" then None
    else
      match ContentOf(c, e)
      case None => None
      case Some(content) => Some(c.sha(content))
  }

  // ---- the verifier

  datatype Fault = BrokenLink | Forked | BadContent

  datatype ChainError = ChainError(index: nat, reason: Fault)

  function Predecessor(events: seq<Event>, i: nat): string
    requires i < |events|
  {
    if i == 0 then "" else events[i - 1].hash
  }

  predicate LinkOk(events: seq<Event>, i: nat)
    requires i < |events|
  {
    events[i].prevHash == Predecessor(events, i)
  }

  predicate ForkAt(events: seq<Event>, i: nat)
    requires i < |events|
  {
    events[i].prevHash != "" && exists j :: 0 <= j < i && events[j].prevHash == events[i].prevHash
  }

  predicate ContentOk(c: Codec, events: seq<Event>, i: nat)
    requires i < |events|
  {
    ComputeEventHash(c, events[i]) == Some(events[i].hash)
  }

  predicate EventOk(c: Codec, events: seq<Event>, i: nat)
    requires i < |events|
  {
    LinkOk(events, i) && !ForkAt(events, i) && ContentOk(c, events, i)
  }

  // Links and contents agree; forks are not mentioned.
  ghost predicate Intact(c: Codec, events: seq<Event>) {
    forall i :: 0 <= i < |events| ==> LinkOk(events, i) && ContentOk(c, events, i)
  }

  // The first event that fails is reported, with the first of the three checks it fails.
  method VerifyChain(c: Codec, events: seq<Event>) returns (err: Option<ChainError>)
    ensures err.None? <==> forall i :: 0 <= i < |events| ==> EventOk(c, events, i)
    ensures err.Some? ==>
      var i, reason := err.value.index, err.value.reason;
      && i < |events| && (forall j :: 0 <= j < i ==> EventOk(c, events, j))
      && reason == (if !LinkOk(events, i) then BrokenLink else if ForkAt(events, i) then Forked else BadContent)
      && !EventOk(c, events, i)
    ensures forall i :: 0 <= i < |events| && FaultBy(c, events, i) ==> err.Some? && err.value.index <= i
    ensures Lawful(c) && Injective(c) && err.Some? ==> err.value.reason != Forked
    ensures Lawful(c) && Injective(c) ==> (err.None? <==> Intact(c, events))
  {
    if |events| == 0 {
      return None;
    }
    var seen: map<string, nat> := map[];
    var prev := "";
    for i := 0 to |events|
      invariant forall j :: 0 <= j < i ==> EventOk(c, events, j)
      invariant prev == if i == 0 then "" else events[i - 1].hash
      invariant forall h :: h in seen <==> exists j :: 0 <= j < i && events[j].prevHash == h
    {
      var e := events[i];
      if e.prevHash != prev {
        assert !EventOk(c, events, i);
        return Some(ChainError(i, BrokenLink));
      }
      if e.prevHash in seen && e.prevHash != "" {
        if Lawful(c) && Injective(c) {
          NoFork(c, events, i);
        }
        assert !EventOk(c, events, i);
        return Some(ChainError(i, Forked));
      }
      seen := seen[e.prevHash := i];
      var recomputed := ComputeEventHash(c, e);
      if recomputed != Some(e.hash) {
        assert !EventOk(c, events, i);
        return Some(ChainError(i, BadContent));
      }
      prev := e.hash;
    }
    forall i | 0 <= i < |events|
      ensures LinkOk(events, i) && ContentOk(c, events, i)
    {
      assert EventOk(c, events, i);
    }
    return None;
  }

  // Two events agree in all fields but the number, their payloads up to how the JSON is written: an absent one
  // is the JSON value null.
  predicate SameEvent(c: Codec, a: Event, b: Event) {
    && a.id == b.id && a.kind == b.kind && a.actor == b.actor && a.time == b.time && a.prevHash == b.prevHash
    && (if a.payload == "" then Some("null") else c.canon(a.payload)) == (if b.payload == "" then Some("null") else c.canon(b.payload))
    && a.hash == b.hash
  }

  // The event hash covers every field but itself and the number.
  lemma HashCovers(c: Codec, a: Event, b: Event)
    requires Injective(c) && ComputeEventHash(c, a) == Some(a.hash) && ComputeEventHash(c, b) == Some(b.hash)
    ensures a.hash == b.hash <==> SameEvent(c, a, b)
  {
    if a.hash == b.hash {
      assert ContentOf(c, a) == ContentOf(c, b);
    }
  }

  // An event without id, kind and actor, or whose payload is no JSON, cannot be hashed; every other can.
  lemma HashableIff(c: Codec, e: Event)
    ensures ComputeEventHash(c, e).Some? <==>
      !(e.id == "" && e.kind == "" && e.actor == "") && (e.payload == "" || c.canon(e.payload).Some?)
  {
  }

  // The verifier reports a fault at this event or before it.
  ghost predicate FaultBy(c: Codec, events: seq<Event>, i: nat)
    requires i < |events|
  {
    exists j :: 0 <= j <= i && !EventOk(c, events, j)
  }

  // Tamper evidence: rewriting any field of an event of an intact log but its number, its hash kept, is reported
  // no later than at that event.
  lemma RewriteIsReported(c: Codec, events: seq<Event>, i: nat, e: Event)
    requires Injective(c) && Intact(c, events) && i < |events| && e.hash == events[i].hash
    ensures SameEvent(c, e, events[i]) || FaultBy(c, events[i := e], i)
  {
    assert LinkOk(events, i) && ContentOk(c, events, i);
    if !SameEvent(c, e, events[i]) {
      if ComputeEventHash(c, e) == Some(e.hash) {
        HashCovers(c, e, events[i]);
      }
      assert !ContentOk(c, events[i := e], i);
      assert !EventOk(c, events[i := e], i);
    }
  }

  // Two logs that verify and share one event hash agree on everything up to it: same position, same content.
  lemma {:induction false} SameHashSamePrefix(c: Codec, a: seq<Event>, b: seq<Event>, i: nat, j: nat)
    requires Lawful(c) && Injective(c) && Intact(c, a) && Intact(c, b)
    requires i < |a| && j < |b| && a[i].hash == b[j].hash
    ensures i == j
    ensures forall k :: 0 <= k <= i ==> SameEvent(c, a[k], b[k])
  {
    assert ContentOk(c, a, i) && ContentOk(c, b, j) && LinkOk(a, i) && LinkOk(b, j);
    assert ContentOf(c, a[i]) == ContentOf(c, b[j]);
    HashesAreSet(c, a);
    HashesAreSet(c, b);
    if i > 0 && j > 0 {
      SameHashSamePrefix(c, a, b, i - 1, j - 1);
    }
  }

  lemma HashesAreSet(c: Codec, events: seq<Event>)
    requires Lawful(c) && Intact(c, events)
    ensures forall i :: 0 <= i < |events| ==> events[i].hash != ""
  {
    forall i | 0 <= i < |events|
      ensures events[i].hash != ""
    {
      assert ContentOk(c, events, i);
    }
  }

  // The fork check never fires on an event whose link is right and whose predecessors all passed.
  lemma NoFork(c: Codec, events: seq<Event>, i: nat)
    requires Lawful(c) && Injective(c) && i < |events| && LinkOk(events, i)
    requires forall j :: 0 <= j < i ==> EventOk(c, events, j)
    ensures !ForkAt(events, i)
  {
    var before := events[..i];
    forall j | 0 <= j < i
      ensures LinkOk(before, j) && ContentOk(c, before, j)
    {
      assert EventOk(c, events, j);
    }
    forall j | 0 < j < i && i > 0
      ensures events[j].prevHash != events[i].prevHash
    {
      assert EventOk(c, events, j);
      if before[j - 1].hash == before[i - 1].hash {
        SameHashSamePrefix(c, before, before, j - 1, i - 1);
      }
    }
    assert i > 0 ==> EventOk(c, events, 0);
  }

  // ---- the table and its subscribers

  // What reading the event back from the table gives: an absent payload was stored as {}, the time in UTC.
  function Stored(e: Event): Event {
    e.(payload := if e.payload == "" then "{}" else e.payload, time := Instant(e.time.nanos, 0))
  }

  // A subscriber's channel: `accepted` is all that was ever put in it, of which the first `taken` were read;
  // `missed` are the events dropped because it was full. It joined when the log had `joined` events.
  datatype Subscriber = Subscriber(
    since: int,
    joined: nat,
    capacity: nat,
    accepted: seq<Event>,
    taken: nat,
    missed: seq<Event>)

  // `live` records the events as they were appended and broadcast; the table holds their stored forms.
  datatype State = State(rows: seq<Event>, live: seq<Event>, subscribers: map<nat, Subscriber>)

  function Head(rows: seq<Event>): string {
    if rows == [] then "" else rows[|rows| - 1].hash
  }

  function NextSeq(rows: seq<Event>): int {
    if rows == [] then 1 else rows[|rows| - 1].seqNo + 1
  }

  // The event as it will be broadcast, or None when it cannot be hashed.
  function Linked(c: Codec, rows: seq<Event>, e: Event, freshId: string, now: int): Option<Event> {
    var named := if e.id == "" then e.(id := freshId) else e;
    var timed := if IsZero(named.time) then named.(time := Instant(now, 0)) else named;
    var linked := timed.(prevHash := Head(rows));
    match ComputeEventHash(c, linked)
    case None => None
    case Some(h) => Some(linked.(hash := h, seqNo := NextSeq(rows)))
  }

  // An event keeps what its author gave; a missing id and a zero time are filled in, and the log adds its link,
  // its number and the hash over all of it.
  lemma LinkedMeans(c: Codec, rows: seq<Event>, e: Event, freshId: string, now: int)
    ensures match Linked(c, rows, e, freshId, now)
      case None => true
      case Some(x) =>
        && x.kind == e.kind && x.actor == e.actor && x.payload == e.payload
        && x.id == (if e.id != "" then e.id else freshId)
        && x.time == (if e.time.nanos == 0 then Instant(now, 0) else e.time)
        && x.prevHash == (if rows == [] then "" else rows[|rows| - 1].hash)
        && x.seqNo == (if rows == [] then 1 else rows[|rows| - 1].seqNo + 1)
        && ComputeEventHash(c, x) == Some(x.hash)
  {
    if Linked(c, rows, e, freshId, now).Some? {
      HashIgnoresStamp(c, Linked(c, rows, e, freshId, now).value);
    }
  }

  // The primary key on id and the unique index on prev_hash.
  predicate Insertable(rows: seq<Event>, e: Event) {
    forall i :: 0 <= i < |rows| ==> rows[i].id != e.id && rows[i].prevHash != e.prevHash
  }

  function Offer(s: Subscriber, e: Event): Subscriber {
    if |s.accepted| < s.taken + s.capacity then s.(accepted := s.accepted + [e])
    else s.(missed := s.missed + [e])
  }

  function AppendTo(c: Codec, s: State, e: Event, freshId: string, now: int): State {
    match Linked(c, s.rows, e, freshId, now)
    case None => s
    case Some(live) =>
      if !Insertable(s.rows, live) then s
      else State(s.rows + [Stored(live)], s.live + [live], map k | k in s.subscribers :: Offer(s.subscribers[k], live))
  }

  // SELECT ... WHERE seq > since ORDER BY seq
  function EventsSince(rows: seq<Event>, since: int): seq<Event> {
    if rows == [] then []
    else
      var n := |rows| - 1;
      EventsSince(rows[..n], since) + if rows[n].seqNo > since then [rows[n]] else []
  }

  function SubscribeTo(s: State, k: nat, since: int): State {
    var history := EventsSince(s.rows, since);
    var capacity := if |history| + 64 > 128 then |history| + 64 else 128;
    s.(subscribers := s.subscribers[k := Subscriber(since, |s.rows|, capacity, history, 0, [])])
  }

  class Log {
    const codec: Codec
    var rows: seq<Event>
    var subscribers: map<nat, Subscriber>
    ghost var live: seq<Event>

    constructor (codec: Codec)
      ensures this.codec == codec && View() == State([], [], map[])
    {
      this.codec, rows, subscribers, live := codec, [], map[], [];
    }

    ghost function View(): State
      reads this
    {
      State(rows, live, subscribers)
    }

    method Append(e: Event, freshId: string, now: int) returns (ok: bool)
      modifies this`rows, this`subscribers, this`live
      ensures View() == AppendTo(codec, old(View()), e, freshId, now)
      ensures ok <==> |rows| > |old(rows)|
    {
      var filled := e;
      if filled.id == "" {
        filled := filled.(id := freshId);
      }
      if IsZero(filled.time) {
        filled := filled.(time := Instant(now, 0));
      }
      var head, nextSeq := "", 1;
      if |rows| > 0 {
        head, nextSeq := rows[|rows| - 1].hash, rows[|rows| - 1].seqNo + 1;
      }
      filled := filled.(prevHash := head);
      var hash := ComputeEventHash(codec, filled);
      if hash.None? {
        return false;
      }
      filled := filled.(hash := hash.value);
      var payload := if filled.payload == "" then "{}" else filled.payload;
      if !Insertable(rows, filled) {
        return false;
      }
      rows := rows + [filled.(seqNo := nextSeq, payload := payload, time := Instant(filled.time.nanos, 0))];
      filled := filled.(seqNo := nextSeq);
      live := live + [filled];
      Broadcast(filled);
      return true;
    }

    method Broadcast(e: Event)
      modifies this`subscribers
      ensures subscribers == map k | k in old(subscribers) :: Offer(old(subscribers)[k], e)
    {
      ghost var before := subscribers;
      var left := subscribers.Keys;
      while left != {}
        invariant left <= before.Keys && subscribers.Keys == before.Keys
        invariant forall k :: k in before ==> subscribers[k] == if k in left then before[k] else Offer(before[k], e)
        decreases left
      {
        var k :| k in left;
        var s := subscribers[k];
        if |s.accepted| < s.taken + s.capacity {
          subscribers := subscribers[k := s.(accepted := s.accepted + [e])];
        } else {
          subscribers := subscribers[k := s.(missed := s.missed + [e])];
        }
        left := left - {k};
      }
    }

    // The buffer always takes the whole history.
    method Subscribe(k: nat, since: int)
      modifies this`subscribers
      ensures View() == SubscribeTo(old(View()), k, since)
      ensures var room, history := subscribers[k].capacity, |subscribers[k].accepted|;
        room >= 128 && room >= history + 64 && (room == 128 || room == history + 64)
    {
      var history := EventsSince(rows, since);
      var bufSize := 128;
      if |history| + 64 > bufSize {
        bufSize := |history| + 64;
      }
      subscribers := subscribers[k := Subscriber(since, |rows|, bufSize, history, 0, [])];
    }
  }

  // ---- runs

  datatype Step =
    | Append(event: Event, freshId: string, now: int)
    | Subscribe(k: nat, since: int)
    | Take(k: nat)
    | Unsubscribe(k: nat)

  function Next(c: Codec, s: State, step: Step): State {
    match step
    case Append(e, freshId, now) => AppendTo(c, s, e, freshId, now)
    case Subscribe(k, since) => if k in s.subscribers then s else SubscribeTo(s, k, since)
    case Take(k) =>
      if k in s.subscribers && s.subscribers[k].taken < |s.subscribers[k].accepted| then
        s.(subscribers := s.subscribers[k := s.subscribers[k].(taken := s.subscribers[k].taken + 1)])
      else s
    case Unsubscribe(k) => s.(subscribers := s.subscribers - {k})
  }

  function Run(c: Codec, s: State, steps: seq<Step>): State {
    if steps == [] then s else Next(c, Run(c, s, steps[..|steps| - 1]), steps[|steps| - 1])
  }

  const START := State([], [], map[])

  // The i-th event was numbered i + 1, linked to its predecessor and hashed as given; its stored form is row i.
  ghost predicate Recorded(c: Codec, s: State, i: nat)
    requires i < |s.live| == |s.rows|
  {
    && s.live[i].seqNo == i + 1
    && s.live[i].prevHash == Predecessor(s.live, i)
    && ComputeEventHash(c, s.live[i]) == Some(s.live[i].hash)
    && s.rows[i] == Stored(s.live[i])
    && forall j :: 0 <= j < i ==> s.live[j].id != s.live[i].id
  }

  function Clamp(since: int, n: nat): (r: nat)
    ensures r <= n
  {
    if since < 0 then 0 else if since < n then since else n
  }

  // Position of the first event the subscriber is due: just after its cursor, as far as the log then went.
  function Start(sub: Subscriber): (r: nat)
    ensures r <= sub.joined
  {
    Clamp(sub.since, sub.joined)
  }

  // What a subscriber was offered is what the log has after its start; each event was taken in or missed, and
  // what was taken in is in order.
  ghost predicate InStep(s: State, sub: Subscriber) {
    InOrder(s, sub) && FirstIsTaken(sub)
  }

  ghost predicate InOrder(s: State, sub: Subscriber) {
    && sub.joined <= |s.rows| && sub.taken <= |sub.accepted| <= sub.taken + sub.capacity
    && |sub.accepted| + |sub.missed| == |s.rows| - Start(sub)
    && (forall i :: 0 <= i < |sub.accepted| ==>
          Start(sub) < sub.accepted[i].seqNo <= |s.rows| && Stored(sub.accepted[i]) == s.rows[sub.accepted[i].seqNo - 1])
    && (forall i, j :: 0 <= i < j < |sub.accepted| ==> sub.accepted[i].seqNo < sub.accepted[j].seqNo)
  }

  // A fresh channel has at least 64 free places, so the first event after joining is always taken in.
  ghost predicate FirstIsTaken(sub: Subscriber) {
    var history := sub.joined - Start(sub);
    && history <= |sub.accepted|
    && (|sub.accepted| == history ==> sub.missed == [] && history + 64 <= sub.capacity)
    && (|sub.accepted| > history ==> sub.accepted[history].seqNo == sub.joined + 1)
  }

  ghost predicate Inv(c: Codec, s: State) {
    && |s.live| == |s.rows|
    && (forall i :: 0 <= i < |s.rows| ==> Recorded(c, s, i))
    && (forall k :: k in s.subscribers ==> InStep(s, s.subscribers[k]))
  }

  lemma {:induction false} SinceIsSuffix(rows: seq<Event>, since: int)
    requires forall i :: 0 <= i < |rows| ==> rows[i].seqNo == i + 1
    ensures EventsSince(rows, since) == rows[Clamp(since, |rows|)..]
  {
    if rows != [] {
      var n := |rows| - 1;
      SinceIsSuffix(rows[..n], since);
      if rows[n].seqNo > since {
        assert rows[..n][Clamp(since, n)..] + [rows[n]] == rows[Clamp(since, n)..];
      }
    }
  }

  lemma AppendKeepsInv(c: Codec, s: State, e: Event, freshId: string, now: int)
    requires Inv(c, s)
    ensures Inv(c, AppendTo(c, s, e, freshId, now))
  {
    var t := AppendTo(c, s, e, freshId, now);
    if t != s {
      var n := |s.rows|;
      assert n > 0 ==> Recorded(c, s, n - 1);
      var live := Linked(c, s.rows, e, freshId, now).value;
      HashIgnoresStamp(c, live);
      assert t.live[n] == live && t.rows[n] == Stored(live);
      forall i | 0 <= i <= n
        ensures Recorded(c, t, i)
      {
        if i < n {
          assert Recorded(c, s, i);
        } else {
          IdsDiffer(c, s, live);
        }
      }
      forall k | k in t.subscribers
        ensures InStep(t, t.subscribers[k])
      {
        OfferKeepsStep(s, t, s.subscribers[k], live);
      }
    }
  }

  lemma IdsDiffer(c: Codec, s: State, live: Event)
    requires Inv(c, s) && Insertable(s.rows, live)
    ensures forall j :: 0 <= j < |s.live| ==> s.live[j].id != live.id
  {
    forall j | 0 <= j < |s.live|
      ensures s.live[j].id != live.id
    {
      assert Recorded(c, s, j) && s.rows[j].id != live.id;
    }
  }

  // The hash covers neither itself nor the sequence number.
  lemma HashIgnoresStamp(c: Codec, e: Event)
    ensures forall h, n :: ComputeEventHash(c, e.(hash := h, seqNo := n)) == ComputeEventHash(c, e)
  {
  }

  lemma OfferKeepsStep(s: State, t: State, sub: Subscriber, e: Event)
    requires InStep(s, sub) && t.rows == s.rows + [Stored(e)] && e.seqNo == |s.rows| + 1
    ensures InStep(t, Offer(sub, e))
  {
    OfferKeepsOrder(s, t, sub, e);
    OfferTakesFirst(s, sub, e);
  }

  lemma OfferKeepsOrder(s: State, t: State, sub: Subscriber, e: Event)
    requires InOrder(s, sub) && t.rows == s.rows + [Stored(e)] && e.seqNo == |s.rows| + 1
    ensures InOrder(t, Offer(sub, e))
  {
  }

  lemma OfferTakesFirst(s: State, sub: Subscriber, e: Event)
    requires |sub.accepted| + |sub.missed| == |s.rows| - Start(sub) && FirstIsTaken(sub) && e.seqNo == |s.rows| + 1
    ensures FirstIsTaken(Offer(sub, e))
  {
  }

  lemma JoinedInStep(s: State, sub: Subscriber)
    requires forall i :: 0 <= i < |s.rows| ==> s.rows[i].seqNo == i + 1 && Stored(s.rows[i]) == s.rows[i]
    requires sub.joined == |s.rows| && sub.taken == 0 && sub.missed == [] && |sub.accepted| + 64 <= sub.capacity
    requires |sub.accepted| == |s.rows| - Start(sub)
    requires forall i :: 0 <= i < |sub.accepted| ==> sub.accepted[i] == s.rows[Start(sub) + i]
    ensures InStep(s, sub)
  {
  }

  lemma RowsAreNumbered(c: Codec, s: State)
    requires Inv(c, s)
    ensures forall i :: 0 <= i < |s.rows| ==> s.rows[i].seqNo == i + 1 && Stored(s.rows[i]) == s.rows[i]
  {
    forall i | 0 <= i < |s.rows|
      ensures s.rows[i].seqNo == i + 1 && Stored(s.rows[i]) == s.rows[i]
    {
      assert Recorded(c, s, i);
    }
  }

  lemma NewcomerInStep(s: State, k: nat, since: int)
    requires forall i :: 0 <= i < |s.rows| ==> s.rows[i].seqNo == i + 1 && Stored(s.rows[i]) == s.rows[i]
    ensures InStep(s, SubscribeTo(s, k, since).subscribers[k])
  {
    SinceIsSuffix(s.rows, since);
    JoinedInStep(s, SubscribeTo(s, k, since).subscribers[k]);
  }

  lemma SubscribeKeepsInv(c: Codec, s: State, k: nat, since: int)
    requires Inv(c, s)
    ensures Inv(c, SubscribeTo(s, k, since))
  {
    RowsAreNumbered(c, s);
    NewcomerInStep(s, k, since);
    var t := SubscribeTo(s, k, since);
    SameRows(c, s, t);
    forall o | o in t.subscribers
      ensures InStep(t, t.subscribers[o])
    {
      assert o != k ==> InStep(s, s.subscribers[o]);
      assert o == k ==> InStep(s, t.subscribers[o]);
    }
  }

  lemma SameRows(c: Codec, s: State, t: State)
    requires |s.live| == |s.rows| && t.rows == s.rows && t.live == s.live
    requires forall i :: 0 <= i < |s.rows| ==> Recorded(c, s, i)
    ensures forall i :: 0 <= i < |t.rows| ==> Recorded(c, t, i)
  {
    forall i | 0 <= i < |t.rows|
      ensures Recorded(c, t, i)
    {
      assert Recorded(c, s, i);
    }
  }

  lemma {:induction false} RunKeepsInv(c: Codec, steps: seq<Step>)
    ensures Inv(c, Run(c, START, steps))
  {
    if steps != [] {
      var init, last := steps[..|steps| - 1], steps[|steps| - 1];
      RunKeepsInv(c, init);
      var s := Run(c, START, init);
      match last
      case Append(e, freshId, now) => AppendKeepsInv(c, s, e, freshId, now);
      case Subscribe(k, since) => SubscribeKeepsInv(c, s, k, since);
      case _ => ReadersKeepInv(c, s, last);
    }
  }

  lemma ReadersKeepInv(c: Codec, s: State, step: Step)
    requires Inv(c, s) && (step.Take? || step.Unsubscribe?)
    ensures Inv(c, Next(c, s, step))
  {
    var t := Next(c, s, step);
    SameRows(c, s, t);
    forall k | k in t.subscribers
      ensures InStep(t, t.subscribers[k])
    {
      ReadingKeepsStep(s, t, s.subscribers[k], t.subscribers[k].taken);
    }
  }

  lemma ReadingKeepsStep(s: State, t: State, sub: Subscriber, taken: nat)
    requires InStep(s, sub) && t.rows == s.rows && sub.taken <= taken <= |sub.accepted|
    ensures InStep(t, sub.(taken := taken))
  {
  }

  // ---- what every run gives

  // Read back, the event hashes to what was recorded: it carried a payload, and its time was in UTC.
  predicate Clean(e: Event) {
    e.payload != "" && e.time.offset == 0
  }

  lemma StoredHash(c: Codec, e: Event)
    requires Lawful(c) && Injective(c) && ComputeEventHash(c, e) == Some(e.hash) && c.canon("{}") != Some("null")
    ensures ComputeEventHash(c, Stored(e)) == Some(e.hash) <==> Clean(e)
  {
    if ComputeEventHash(c, Stored(e)) == Some(e.hash) {
      assert ContentOf(c, Stored(e)) == ContentOf(c, e);
    }
  }

  // Every appended log is numbered 1..n and linked; it verifies iff every event carried a payload and a UTC
  // time when it was appended.
  lemma AppendedLogVerifies(c: Codec, steps: seq<Step>)
    requires Lawful(c) && Injective(c)
    ensures var s := Run(c, START, steps);
      && (forall i :: 0 <= i < |s.rows| ==> s.rows[i].seqNo == i + 1 && LinkOk(s.rows, i))
      && |s.live| == |s.rows|
      && (Intact(c, s.rows) <==> forall i :: 0 <= i < |s.live| ==> Clean(s.live[i]))
  {
    RunKeepsInv(c, steps);
    var s := Run(c, START, steps);
    forall i | 0 <= i < |s.rows|
      ensures s.rows[i].seqNo == i + 1 && LinkOk(s.rows, i)
      ensures ContentOk(c, s.rows, i) <==> Clean(s.live[i])
    {
      assert Recorded(c, s, i);
      assert i > 0 ==> Recorded(c, s, i - 1);
      assert "{}"[0] != "null"[0];
      StoredHash(c, s.live[i]);
    }
  }

  function Created(id: string, offset: int): Event {
    Event(id, 0, "task.created", "a", "{}", Instant(1, offset), "", "")
  }

  // A time written with a zone offset is stored in UTC, and the log fails its own verifier.
  lemma LocalTimeBreaksTheLog(c: Codec)
    requires Lawful(c) && Injective(c)
    ensures !Intact(c, Run(c, START, [Append(Created("e", 3600), "", 1)]).rows)
  {
    RunOfOne(c, Append(Created("e", 3600), "", 1));
    AppendedLogVerifies(c, [Append(Created("e", 3600), "", 1)]);
    assert !Clean(AppendTo(c, START, Created("e", 3600), "", 1).live[0]);
  }

  lemma RunOfOne(c: Codec, step: Step)
    ensures Run(c, START, [step]) == Next(c, START, step)
  {
    assert [step][..0] == [];
  }

  // An event appended without a payload makes the log fail its own verifier.
  lemma EmptyPayloadBreaksTheLog(c: Codec)
    requires Lawful(c) && Injective(c)
    ensures !Intact(c, Run(c, START, [Append(Event("e", 0, "task.created", "a", "", Instant(1, 0), "", ""), "", 1)]).rows)
  {
    var e := Event("e", 0, "task.created", "a", "", Instant(1, 0), "", "");
    var steps := [Append(e, "", 1)];
    RunOfOne(c, Append(e, "", 1));
    AppendedLogVerifies(c, steps);
    assert !Clean(Run(c, START, steps).live[0]);
  }

  // The unique index on prev_hash never rejects: an append fails only for a repeated id or an event that
  // cannot be hashed.
  lemma HeadIsUnclaimed(c: Codec, steps: seq<Step>, e: Event, freshId: string, now: int)
    requires Lawful(c) && Injective(c)
    ensures var s := Run(c, START, steps);
      var linked := Linked(c, s.rows, e, freshId, now);
      |AppendTo(c, s, e, freshId, now).rows| == |s.rows| + 1 <==>
      linked.Some? && forall i :: 0 <= i < |s.rows| ==> s.rows[i].id != linked.value.id
  {
    RunKeepsInv(c, steps);
    var s := Run(c, START, steps);
    forall i | 0 <= i < |s.rows|
      ensures s.rows[i].prevHash != Head(s.rows)
    {
      HeadNotClaimedBy(c, s, i);
    }
  }

  lemma HeadNotClaimedBy(c: Codec, s: State, i: nat)
    requires Lawful(c) && Injective(c) && Inv(c, s) && i < |s.rows|
    ensures s.rows[i].prevHash != Head(s.rows)
  {
    var n := |s.rows|;
    assert Recorded(c, s, i) && Recorded(c, s, n - 1);
    if i > 0 {
      assert Recorded(c, s, i - 1);
      SameHashSameId(c, s.live[i - 1], s.live[n - 1]);
    }
  }

  lemma SameHashSameId(c: Codec, a: Event, b: Event)
    requires Injective(c) && ComputeEventHash(c, a) == Some(a.hash) && ComputeEventHash(c, b) == Some(b.hash)
    ensures a.hash == b.hash ==> a.id == b.id
  {
    if a.hash == b.hash {
      assert ContentOf(c, a) == ContentOf(c, b);
    }
  }

  function Reads(sub: Subscriber): seq<Event>
    requires sub.taken <= |sub.accepted|
  {
    sub.accepted[..sub.taken]
  }

  // A subscriber whose buffer never overflowed was given exactly the rows after its start, in order and once
  // each; with drops what it was given is still strictly increasing and part of the log.
  lemma StreamHasNoGaps(c: Codec, steps: seq<Step>, k: nat)
    requires k in Run(c, START, steps).subscribers
    ensures var s := Run(c, START, steps);
      var sub := s.subscribers[k];
      && Start(sub) <= |s.rows| && sub.taken <= |sub.accepted|
      && (sub.missed == [] ==>
            |sub.accepted| == |s.rows| - Start(sub)
            && forall i :: 0 <= i < |sub.accepted| ==>
                 Stored(sub.accepted[i]) == s.rows[Start(sub) + i] && sub.accepted[i].seqNo == Start(sub) + i + 1)
      && (forall i, j :: 0 <= i < j < |Reads(sub)| ==> Reads(sub)[i].seqNo < Reads(sub)[j].seqNo)
      && (forall i :: 0 <= i < |Reads(sub)| ==> 0 < Reads(sub)[i].seqNo <= |s.rows| && Stored(Reads(sub)[i]) == s.rows[Reads(sub)[i].seqNo - 1])
  {
    RunKeepsInv(c, steps);
    var s := Run(c, START, steps);
    var sub := s.subscribers[k];
    assert InStep(s, sub);
    StepHasNoGaps(s, sub);
  }

  lemma StepHasNoGaps(s: State, sub: Subscriber)
    requires InStep(s, sub)
    ensures sub.missed == [] ==>
      forall i :: 0 <= i < |sub.accepted| ==>
        Stored(sub.accepted[i]) == s.rows[Start(sub) + i] && sub.accepted[i].seqNo == Start(sub) + i + 1
    ensures forall i, j :: 0 <= i < j < |Reads(sub)| ==> Reads(sub)[i].seqNo < Reads(sub)[j].seqNo
    ensures forall i :: 0 <= i < |Reads(sub)| ==>
      0 < Reads(sub)[i].seqNo <= |s.rows| && Stored(Reads(sub)[i]) == s.rows[Reads(sub)[i].seqNo - 1]
  {
    if sub.missed == [] {
      IncreasingFills(sub.accepted, Start(sub), |s.rows|);
    }
    assert forall i :: 0 <= i < |Reads(sub)| ==> Reads(sub)[i] == sub.accepted[i];
  }

  // As many increasing numbers as fit between two bounds are all the numbers between them.
  lemma {:induction false} IncreasingFills(events: seq<Event>, lo: int, hi: int)
    requires |events| == hi - lo
    requires forall i :: 0 <= i < |events| ==> lo < events[i].seqNo <= hi
    requires forall i, j :: 0 <= i < j < |events| ==> events[i].seqNo < events[j].seqNo
    ensures forall i :: 0 <= i < |events| ==> events[i].seqNo == lo + i + 1
  {
    if events != [] {
      var n := |events| - 1;
      AtLeast(events, lo, n);
      IncreasingFills(events[..n], lo, hi - 1);
    }
  }

  lemma {:induction false} AtLeast(events: seq<Event>, lo: int, n: nat)
    requires n < |events|
    requires forall i :: 0 <= i < |events| ==> lo < events[i].seqNo
    requires forall i, j :: 0 <= i < j < |events| ==> events[i].seqNo < events[j].seqNo
    ensures events[n].seqNo >= lo + n + 1
  {
    if n > 0 {
      AtLeast(events, lo, n - 1);
    }
  }

  // Every event received lies after the cursor, unless the cursor was beyond the log when the subscriber
  // joined and something was appended since: broadcasts are not filtered by it.
  lemma CursorIsKept(c: Codec, steps: seq<Step>, k: nat)
    requires k in Run(c, START, steps).subscribers
    ensures var s := Run(c, START, steps);
      var sub := s.subscribers[k];
      (forall i :: 0 <= i < |sub.accepted| ==> sub.accepted[i].seqNo > sub.since)
      <==> sub.since <= sub.joined || |s.rows| == sub.joined
  {
    RunKeepsInv(c, steps);
    var s := Run(c, START, steps);
    assert InStep(s, s.subscribers[k]) && FirstIsTaken(s.subscribers[k]);
  }

  // A fresh subscriber asks for what comes after position 5 of an empty log and is sent event 1.
  lemma CursorBeyondTheLog(c: Codec)
    requires Lawful(c)
    ensures var sub := Run(c, START, [Subscribe(0, 5), Append(Created("e", 0), "", 1)]).subscribers;
      0 in sub && sub[0].since == 5 && |sub[0].accepted| == 1 && sub[0].accepted[0].seqNo == 1
  {
    var joined := SubscribeTo(START, 0, 5);
    var steps := [Subscribe(0, 5), Append(Created("e", 0), "", 1)];
    assert steps[..1] == [Subscribe(0, 5)] && [Subscribe(0, 5)][..0] == [];
    assert Run(c, START, steps[..1]) == joined;
    assert Linked(c, [], Created("e", 0), "", 1).Some?;
  }

  // ---- resuming

  function EventBySeq(rows: seq<Event>, n: int): Option<Event> {
    if rows == [] then None
    else if rows[0].seqNo == n then Some(rows[0])
    else EventBySeq(rows[1..], n)
  }

  // The stream handler refuses an anchor only when it has the event and its hash differs.
  predicate AnchorAccepted(rows: seq<Event>, sinceSeq: int, sinceHash: string) {
    !(sinceSeq > 0 && sinceHash != "" && EventBySeq(rows, sinceSeq).Some?
      && EventBySeq(rows, sinceSeq).value.hash != sinceHash)
  }

  lemma {:induction false} FindsBySeq(rows: seq<Event>, n: int, from: int)
    requires forall i :: 0 <= i < |rows| ==> rows[i].seqNo == from + i
    ensures EventBySeq(rows, n) == if from <= n < from + |rows| then Some(rows[n - from]) else None
  {
    if rows != [] {
      FindsBySeq(rows[1..], n, from + 1);
    }
  }

  // An anchor is refused exactly when it names an event of the log by another hash than the log's.
  lemma AnchorRefused(rows: seq<Event>, n: int, hash: string)
    requires forall i :: 0 <= i < |rows| ==> rows[i].seqNo == i + 1
    ensures !AnchorAccepted(rows, n, hash) <==> 1 <= n <= |rows| && hash != "" && rows[n - 1].hash != hash
  {
    FindsBySeq(rows, n, 1);
  }

  // A client that resumes from the end of its own verified log is accepted iff the server's verified log does
  // not reach that far or agrees with all the client has: an anchor on a missing event passes unchecked.
  lemma AnchorMeaning(c: Codec, mine: seq<Event>, rows: seq<Event>)
    requires Lawful(c) && Injective(c) && Intact(c, mine) && Intact(c, rows) && mine != []
    requires forall i :: 0 <= i < |rows| ==> rows[i].seqNo == i + 1
    ensures AnchorAccepted(rows, |mine|, mine[|mine| - 1].hash) <==>
      |rows| < |mine| || forall k :: 0 <= k < |mine| ==> SameEvent(c, mine[k], rows[k])
  {
    FindsBySeq(rows, |mine|, 1);
    HashesAreSet(c, mine);
    var n := |mine|;
    if n <= |rows| && mine[n - 1].hash == rows[n - 1].hash {
      SameHashSamePrefix(c, mine, rows, n - 1, n - 1);
    }
  }

  // A client two events ahead on a different history resumes from its end and is let in: the server has one
  // event, which differs from the client's first, and no event at the anchor to compare.
  lemma AnchorOnMissingEvent(c: Codec)
    requires Lawful(c) && Injective(c)
    ensures var mine := Run(c, START, [Append(Created("x", 0), "", 1), Append(Created("y", 0), "", 1)]).rows;
      var rows := Run(c, START, [Append(Created("z", 0), "", 1)]).rows;
      && |mine| == 2 && |rows| == 1 && Intact(c, mine) && Intact(c, rows) && mine[0].hash != rows[0].hash
      && AnchorAccepted(rows, 2, mine[1].hash)
  {
    var x, y, z := Append(Created("x", 0), "", 1), Append(Created("y", 0), "", 1), Append(Created("z", 0), "", 1);
    RunOfOne(c, x);
    RunOfOne(c, z);
    assert [x, y][..1] == [x];
    var first := AppendTo(c, START, Created("x", 0), "", 1);
    assert Linked(c, first.rows, Created("y", 0), "", 1).Some?;
    assert "x"[0] == 'x' && "y"[0] == 'y' && "z"[0] == 'z';
    SecondIsInsertable(c, first.rows);
    AppendedLogVerifies(c, [x, y]);
    AppendedLogVerifies(c, [z]);
    FindsBySeq(Run(c, START, [z]).rows, 2, 1);
  }

  lemma SecondIsInsertable(c: Codec, rows: seq<Event>)
    requires Lawful(c) && |rows| == 1 && rows[0].id == "x" && rows[0].prevHash == "" && rows[0].hash != ""
    ensures Linked(c, rows, Created("y", 0), "", 1).Some? && Insertable(rows, Linked(c, rows, Created("y", 0), "", 1).value)
  {
    assert "x"[0] == 'x' && "y"[0] == 'y';
  }
}
