// The windowed token bucket (pkg/server/http/middleware.go).
module RateLimiters {

  datatype Client = Client(tokens: int, lastReset: int)

  // One request of a client: the state it leaves and whether it is admitted. `limit` plays no part.
  function Admit(known: bool, c: Client, window: int, burst: int, now: int): (Client, bool) {
    if !known || now - c.lastReset > window then (Client(burst - 1, now), true)
    else if c.tokens > 0 then (c.(tokens := c.tokens - 1), true)
    else (c, false)
  }

  // The table after one request, and whether it is admitted.
  function Serve(clients: map<string, Client>, ip: string, window: int, burst: int, now: int): (map<string, Client>, bool) {
    var known := ip in clients;
    var (after, ok) := Admit(known, if known then clients[ip] else Client(0, 0), window, burst, now);
    (clients[ip := after], ok)
  }

  class RateLimiter {
    var clients: map<string, Client>
    const limit: int
    const window: int
    const burst: int

    constructor (limit: int, window: int, burst: int)
      ensures this.limit == limit && this.window == window && this.burst == burst && clients == map[]
    {
      clients := map[];
      this.limit, this.window, this.burst := limit, window, burst;
    }

    // Decides by this client's own entry and touches no other.
    method Allow(ip: string, now: int) returns (ok: bool)
      modifies this`clients
      ensures (clients, ok) == Serve(old(clients), ip, window, burst, now)
    {
      if ip !in clients {
        clients := clients[ip := Client(burst - 1, now)];
        return true;
      }
      var cl := clients[ip];
      if now - cl.lastReset > window {
        clients := clients[ip := Client(burst - 1, now)];
        return true;
      }
      if cl.tokens > 0 {
        clients := clients[ip := cl.(tokens := cl.tokens - 1)];
        return true;
      }
      assert clients == clients[ip := cl];
      return false;
    }
  }

  // ---- one client over time

  // The entry after the requests at `times`, and how many were admitted; known after the first request.
  function After(times: seq<int>, window: int, burst: int): Client {
    if times == [] then Client(0, 0)
    else Admit(|times| > 1, After(times[..|times| - 1], window, burst), window, burst, times[|times| - 1]).0
  }

  predicate Admitted(times: seq<int>, window: int, burst: int, i: nat)
    requires i < |times|
  {
    Admit(i > 0, After(times[..i], window, burst), window, burst, times[i]).1
  }

  // The requests from i on, up to but excluding j, that were admitted.
  function Passed(times: seq<int>, window: int, burst: int, i: nat, j: nat): (n: nat)
    requires i <= j <= |times|
    ensures n <= j - i
    decreases j - i
  {
    if i == j then 0 else Passed(times, window, burst, i, j - 1) + if Admitted(times, window, burst, j - 1) then 1 else 0
  }

  predicate Resets(times: seq<int>, window: int, burst: int, i: nat)
    requires i < |times|
  {
    i == 0 || times[i] - After(times[..i], window, burst).lastReset > window
  }

  ghost predicate NonDecreasing(times: seq<int>) {
    forall i, j :: 0 <= i < j < |times| ==> times[i] <= times[j]
  }

  lemma StepAt(times: seq<int>, window: int, burst: int, i: nat)
    requires i < |times|
    ensures After(times[..i + 1], window, burst) == Admit(i > 0, After(times[..i], window, burst), window, burst, times[i]).0
  {
    assert times[..i + 1][..i] == times[..i];
  }

  // Between resets the admitted requests and the tokens left add up: at most what there was at the start.
  lemma {:induction false} TokensPay(times: seq<int>, window: int, burst: int, i: nat, j: nat)
    requires i <= j <= |times| && burst >= 1 && i > 0
    requires forall k :: i <= k < j ==> !Resets(times, window, burst, k)
    requires After(times[..i], window, burst).tokens >= 0
    ensures Passed(times, window, burst, i, j) + After(times[..j], window, burst).tokens == After(times[..i], window, burst).tokens
    ensures After(times[..j], window, burst).tokens >= 0
    ensures After(times[..j], window, burst).lastReset == After(times[..i], window, burst).lastReset
    decreases j - i
  {
    if i < j {
      TokensPay(times, window, burst, i, j - 1);
      StepAt(times, window, burst, j - 1);
      assert !Resets(times, window, burst, j - 1);
    }
  }

  lemma {:induction false} TokensInRange(times: seq<int>, window: int, burst: int, i: nat)
    requires 0 < i <= |times| && burst >= 1
    ensures 0 <= After(times[..i], window, burst).tokens <= burst - 1
  {
    if i > 1 {
      TokensInRange(times, window, burst, i - 1);
    }
    StepAt(times, window, burst, i - 1);
  }

  // From one reset up to the next at most `burst` requests pass.
  lemma BurstPerReset(times: seq<int>, window: int, burst: int, i: nat, j: nat)
    requires i < j <= |times| && burst >= 1 && Resets(times, window, burst, i)
    requires forall k :: i < k < j ==> !Resets(times, window, burst, k)
    ensures Passed(times, window, burst, i, j) <= burst
  {
    StepAt(times, window, burst, i);
    TokensPay(times, window, burst, i + 1, j);
    PassedSplits(times, window, burst, i, i + 1, j);
    assert Passed(times, window, burst, i, i) == 0;
  }

  lemma {:induction false} PassedSplits(times: seq<int>, window: int, burst: int, i: nat, m: nat, j: nat)
    requires i <= m <= j <= |times|
    ensures Passed(times, window, burst, i, j) == Passed(times, window, burst, i, m) + Passed(times, window, burst, m, j)
    decreases j - m
  {
    if m < j {
      PassedSplits(times, window, burst, i, m, j - 1);
    }
  }

  // Before the first reset in a stretch only leftover tokens are spent: fewer than `burst`.
  lemma LeftoverOnly(times: seq<int>, window: int, burst: int, i: nat, j: nat)
    requires i <= j <= |times| && burst >= 1
    requires forall k :: i <= k < j ==> !Resets(times, window, burst, k)
    ensures Passed(times, window, burst, i, j) <= burst - 1
  {
    if i < j {
      assert !Resets(times, window, burst, i);
      TokensInRange(times, window, burst, i);
      TokensPay(times, window, burst, i, j);
    }
  }

  lemma LastReset(times: seq<int>, window: int, burst: int, i: nat, j: nat)
    requires i < j <= |times| && Resets(times, window, burst, i) && burst >= 1
    requires forall k :: i < k < j ==> !Resets(times, window, burst, k)
    ensures After(times[..j], window, burst).lastReset == times[i]
  {
    StepAt(times, window, burst, i);
    TokensPay(times, window, burst, i + 1, j);
  }

  // Two resets lie more than a window apart, so a stretch no longer than the window holds at most one.
  lemma OneResetPerWindow(times: seq<int>, window: int, burst: int, i: nat, j: nat)
    requires i < j < |times| && burst >= 1 && NonDecreasing(times)
    requires Resets(times, window, burst, i) && Resets(times, window, burst, j)
    ensures times[j] - times[i] > window
    decreases j - i
  {
    if k :| i < k < j && Resets(times, window, burst, k) {
      OneResetPerWindow(times, window, burst, k, j);
    } else {
      LastReset(times, window, burst, i, j);
    }
  }

  lemma FirstReset(times: seq<int>, window: int, burst: int, i: nat, j: nat) returns (r: nat)
    requires i <= j <= |times|
    ensures i <= r <= j && (r < j ==> Resets(times, window, burst, r))
    ensures forall k :: i <= k < r ==> !Resets(times, window, burst, k)
  {
    r := i;
    while r < j && !Resets(times, window, burst, r)
      invariant i <= r <= j
      invariant forall k :: i <= k < r ==> !Resets(times, window, burst, k)
    {
      r := r + 1;
    }
  }

  // With a clock that never goes back and a burst of at least one, the requests i..j-1 that fall in a closed
  // interval no longer than the window include fewer than 2 * burst admitted ones.
  lemma TwoBurstsPerWindow(times: seq<int>, window: int, burst: int, i: nat, j: nat)
    requires i < j <= |times| && burst >= 1 && NonDecreasing(times)
    requires times[j - 1] - times[i] <= window
    ensures Passed(times, window, burst, i, j) <= 2 * burst - 1
  {
    var r := FirstReset(times, window, burst, i, j);
    LeftoverOnly(times, window, burst, i, r);
    PassedSplits(times, window, burst, i, r, j);
    if r < j {
      forall k | r < k < j
        ensures !Resets(times, window, burst, k)
      {
        if Resets(times, window, burst, k) {
          OneResetPerWindow(times, window, burst, r, k);
        }
      }
      BurstPerReset(times, window, burst, r, j);
    }
  }

  // Refusal is exact: a request is refused iff since the last reset, no longer than a window ago, as many
  // requests as the burst allows have passed.
  lemma RefusedIff(times: seq<int>, window: int, burst: int, i: nat, j: nat)
    requires i < j < |times| && burst >= 1 && Resets(times, window, burst, i)
    requires forall k :: i < k < j ==> !Resets(times, window, burst, k)
    ensures !Admitted(times, window, burst, j) <==>
      times[j] - times[i] <= window && Passed(times, window, burst, i, j) == burst
  {
    StepAt(times, window, burst, i);
    TokensPay(times, window, burst, i + 1, j);
    PassedSplits(times, window, burst, i, i + 1, j);
    assert Passed(times, window, burst, i, i) == 0;
  }

  // ---- many clients

  datatype Request = Request(ip: string, time: int)

  function ServeAll(requests: seq<Request>, window: int, burst: int): map<string, Client> {
    if requests == [] then map[]
    else
      var n := |requests| - 1;
      Serve(ServeAll(requests[..n], window, burst), requests[n].ip, window, burst, requests[n].time).0
  }

  // The times at which one client asked.
  function TimesOf(requests: seq<Request>, ip: string): seq<int> {
    if requests == [] then []
    else
      var n := |requests| - 1;
      TimesOf(requests[..n], ip) + if requests[n].ip == ip then [requests[n].time] else []
  }

  lemma AfterOneMore(times: seq<int>, now: int, window: int, burst: int)
    ensures After(times + [now], window, burst) ==
      Admit(times != [], After(times, window, burst), window, burst, now).0
  {
    assert (times + [now])[..|times + [now]| - 1] == times;
  }

  // A client's entry is what its own requests alone would have left.
  lemma {:induction false} ClientsAreIndependent(requests: seq<Request>, window: int, burst: int, ip: string)
    ensures var clients, times := ServeAll(requests, window, burst), TimesOf(requests, ip);
      && (ip in clients <==> times != [])
      && (ip in clients ==> clients[ip] == After(times, window, burst))
  {
    if requests != [] {
      var n := |requests| - 1;
      var before := TimesOf(requests[..n], ip);
      ClientsAreIndependent(requests[..n], window, burst, ip);
      if requests[n].ip == ip {
        AfterOneMore(before, requests[n].time, window, burst);
      } else {
        assert TimesOf(requests, ip) == before;
      }
    }
  }

  // And its next request is decided by them alone.
  lemma DecidedAlone(requests: seq<Request>, window: int, burst: int, ip: string, now: int)
    ensures var clients, times := ServeAll(requests, window, burst), TimesOf(requests, ip);
      Serve(clients, ip, window, burst, now).1 == Admitted(times + [now], window, burst, |times|)
  {
    ClientsAreIndependent(requests, window, burst, ip);
    var times := TimesOf(requests, ip);
    assert (times + [now])[..|times|] == times;
  }
}
