/**
 The fixed-window limiter per address (ipLimiter in backend/internal/auth/ratelimit.go). Expired entries are deleted whenever
 anyone calls; the decisions are those of a limiter that remembers every call.
 */
module RateLimiter {
  import opened Wrappers

  datatype Visitor = Visitor(count: nat, windowStart: nat)

  /** The current window of an address after all its calls, given their times. */
  function WindowOf(calls: seq<nat>, window: nat): Option<Visitor> {
    if calls == [] then None
    else
      var before, now := WindowOf(calls[..|calls| - 1], window), calls[|calls| - 1];
      if before.None? || now > before.value.windowStart + window then Some(Visitor(1, now))
      else Some(Visitor(before.value.count + 1, before.value.windowStart))
  }

  /** The first call of a window is always allowed, the following ones up to the limit. */
  function Allowed(calls: seq<nat>, window: nat, limit: int): bool
    requires calls != []
  {
    var v := WindowOf(calls, window).value;
    v.count == 1 || v.count <= limit
  }

  class IpLimiter {
    const limit: int
    const window: nat
    var visitors: map<string, Visitor>
    ghost var calls: map<string, seq<nat>>
    ghost var clock: nat

    ghost predicate Valid()
      reads this
    {
      Remembers(visitors, calls, clock, window)
    }

    constructor (limit: int, window: nat)
      ensures Valid() && this.limit == limit && this.window == window && calls == map[] && clock == 0
    {
      this.limit, this.window, visitors, calls, clock := limit, window, map[], map[], 0;
    }

    method DeleteExpired(now: nat)
      modifies this`visitors
      ensures visitors == Unexpired(old(visitors), now, window)
    {
      var rest := visitors.Keys;
      while rest != {}
        invariant rest <= old(visitors).Keys
        invariant visitors == map ip |
                    ip in old(visitors) && (ip in rest || now <= old(visitors)[ip].windowStart + window) :: old(visitors)[ip]
        decreases rest
      {
        var ip := Pick(rest);
        rest := rest - {ip};
        if now > visitors[ip].windowStart + window { visitors := visitors - {ip}; }
      }
    }

    method Allow(ip: string, now: nat) returns (allowed: bool)
      requires Valid() && clock <= now
      modifies this
      ensures Valid() && clock == now
      ensures calls == old(calls)[ip := CallsOf(old(calls), ip) + [now]]
      ensures allowed == Allowed(calls[ip], window, limit)
    {
      hide Remembers, Unexpired, WindowOf;
      CleanupForgetsNothing(visitors, calls, clock, window, now);
      DeleteExpired(now);
      OneCall(visitors, calls, now, window, ip);
      calls, clock := calls[ip := CallsOf(calls, ip) + [now]], now;
      if ip !in visitors || now > visitors[ip].windowStart + window {
        visitors := visitors[ip := Visitor(1, now)];
        return true;
      }
      visitors := visitors[ip := visitors[ip].(count := visitors[ip].count + 1)];
      return visitors[ip].count <= limit;
    }
  }

  ghost function CallsOf(calls: map<string, seq<nat>>, ip: string): seq<nat> { if ip in calls then calls[ip] else [] }

  function Unexpired(visitors: map<string, Visitor>, now: nat, window: nat): map<string, Visitor> {
    map ip | ip in visitors && now <= visitors[ip].windowStart + window :: visitors[ip]
  }

  /** A remembered visitor is the current window of its address; a forgotten window has expired. */
  ghost predicate Remembers(visitors: map<string, Visitor>, calls: map<string, seq<nat>>, clock: nat, window: nat) {
    (forall ip :: ip in visitors ==> ip in calls && WindowOf(calls[ip], window) == Some(visitors[ip]) && visitors[ip].count >= 1) &&
    forall ip :: ip in calls && ip !in visitors ==>
      WindowOf(calls[ip], window).Some? && clock > WindowOf(calls[ip], window).value.windowStart + window
  }

  /** Deleting expired visitors loses nothing that a later call needs. */
  lemma CleanupForgetsNothing(visitors: map<string, Visitor>, calls: map<string, seq<nat>>, clock: nat, window: nat, now: nat)
    requires Remembers(visitors, calls, clock, window) && clock <= now
    ensures Remembers(Unexpired(visitors, now, window), calls, now, window)
  {
    hide WindowOf;
  }

  lemma OneCall(visitors: map<string, Visitor>, calls: map<string, seq<nat>>, now: nat, window: nat, ip: string)
    requires Remembers(visitors, calls, now, window)
    ensures var history := CallsOf(calls, ip) + [now];
            var v := if ip !in visitors || now > visitors[ip].windowStart + window then Visitor(1, now)
                     else visitors[ip].(count := visitors[ip].count + 1);
            WindowOf(history, window) == Some(v) &&
            Remembers(visitors[ip := v], calls[ip := history], now, window) && (ip in visitors ==> visitors[ip].count >= 1)
  {
    hide WindowOf;
    WindowStep(CallsOf(calls, ip), now, window);
    if ip !in calls { NoWindow(window); }
  }

  lemma WindowStep(calls: seq<nat>, now: nat, window: nat)
    ensures WindowOf(calls + [now], window) ==
              var before := WindowOf(calls, window);
              if before.None? || now > before.value.windowStart + window then Some(Visitor(1, now))
              else Some(Visitor(before.value.count + 1, before.value.windowStart))
  {
    assert (calls + [now])[..|calls|] == calls;
  }

  lemma NoWindow(window: nat)
    ensures WindowOf([], window) == None
  {
  }

  // ----- The windows

  predicate InOrder(calls: seq<nat>) { forall i, j :: 0 <= i < j < |calls| ==> calls[i] <= calls[j] }

  /** The window of the last call began with call i, and nothing since then came later than its length allows. */
  ghost predicate BeganWith(calls: seq<nat>, window: nat, i: nat) {
    i < |calls| && WindowOf(calls, window) == Some(Visitor(|calls| - i, calls[i])) &&
    forall j :: i <= j < |calls| ==> calls[j] <= calls[i] + window
  }

  /** A window begins with the first call of all, or with a call that came too late for the window before it; it counts all
      calls from then on. */
  lemma {:induction false} WindowExactly(calls: seq<nat>, window: nat) returns (i: nat)
    requires calls != []
    ensures BeganWith(calls, window, i)
    ensures i > 0 ==> exists h: nat :: BeganWith(calls[..i], window, h) && calls[i] > calls[h] + window
  {
    var n, init := |calls| - 1, calls[..|calls| - 1];
    if n == 0 {
      i := 0;
    } else {
      var h := WindowExactly(init, window);
      assert forall j :: 0 <= j < n ==> calls[j] == init[j];
      if calls[n] > calls[h] + window {
        i := n;
        assert calls[..i] == init;
      } else {
        i := h;
        assert init[..i] == calls[..i];
      }
    }
  }

  /** After a pause longer than a window the next call is allowed, whatever came before. */
  lemma PauseOpensTheWindow(calls: seq<nat>, now: nat, window: nat, limit: int)
    requires InOrder(calls) && (calls != [] ==> now > calls[|calls| - 1] + window)
    ensures Allowed(calls + [now], window, limit)
  {
    WindowStep(calls, now, window);
    if calls != [] {
      var i := WindowExactly(calls, window);
      assert calls[i] <= calls[|calls| - 1];
    } else {
      NoWindow(window);
    }
  }

  // ----- The bound

  /** How many calls of the current window were allowed. */
  function AllowedInWindow(calls: seq<nat>, window: nat, limit: int): nat {
    if calls == [] then 0
    else
      var before := calls[..|calls| - 1];
      (if WindowOf(calls, window).value.count == 1 then 0 else AllowedInWindow(before, window, limit)) +
      if Allowed(calls, window, limit) then 1 else 0
  }

  /** In every window exactly the first calls are allowed, as many as the limit says but at least one: the limit is
      kept exactly if it allows any call. */
  lemma {:induction false} WindowBound(calls: seq<nat>, window: nat, limit: int)
    requires calls != []
    ensures var n, most := WindowOf(calls, window).value.count, if limit < 1 then 1 else limit;
            n >= 1 && AllowedInWindow(calls, window, limit) == if n <= most then n else most
    ensures AllowedInWindow(calls, window, limit) <= limit <==> limit >= 1
  {
    if |calls| > 1 { WindowBound(calls[..|calls| - 1], window, limit); }
  }
}
