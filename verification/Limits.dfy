/**
 The relay's two rate limiters: a sliding one-second window per source address, and a fixed
 one-second window per connection. Instants are clock readings taken in order; the guarantees are
 about the whole history of one limiter.
 */
module Limits {
  import opened Prelude

  const WINDOW: nat := SECOND

  type Ip = nat

  // ---- counting let-through events in a half-open interval of one second ----

  predicate Within(t: Time, from: int) {
    from <= t < from + WINDOW
  }

  function CountIn(times: seq<Time>, from: int): nat {
    if times == [] then 0 else (if Within(times[0], from) then 1 else 0) + CountIn(times[1..], from)
  }

  lemma {:induction false} CountInSum(a: seq<Time>, b: seq<Time>, from: int)
    ensures CountIn(a + b, from) == CountIn(a, from) + CountIn(b, from)
  {
    if a == [] {
      assert a + b == b;
    } else {
      assert (a + b)[1..] == a[1..] + b;
      CountInSum(a[1..], b, from);
    }
  }

  // Among events no later than `t`, the last second before `t` holds at least as many as any
  // interval that still contains `t`.
  lemma {:induction false} LastSecondHoldsMost(times: seq<Time>, t: Time, from: int)
    requires forall k :: 0 <= k < |times| ==> times[k] <= t
    requires from > t - WINDOW
    ensures CountIn(times, from) <= CountIn(times, t - WINDOW + 1)
  {
    if times != [] {
      LastSecondHoldsMost(times[1..], t, from);
    }
  }

  lemma {:induction false} CountInAtMostAll(times: seq<Time>, from: int)
    ensures CountIn(times, from) <= |times|
  {
    if times != [] {
      CountInAtMostAll(times[1..], from);
    }
  }

  lemma {:induction false} CountInAllWithin(times: seq<Time>, from: int)
    requires forall k :: 0 <= k < |times| ==> Within(times[k], from)
    ensures CountIn(times, from) == |times|
  {
    if times != [] {
      CountInAllWithin(times[1..], from);
    }
  }

  lemma {:induction false} CountInNoneWithin(times: seq<Time>, from: int)
    requires forall k :: 0 <= k < |times| ==> !Within(times[k], from)
    ensures CountIn(times, from) == 0
  {
    if times != [] {
      CountInNoneWithin(times[1..], from);
    }
  }

  predicate Ordered(times: seq<Time>) {
    forall i, j :: 0 <= i < j < |times| ==> times[i] <= times[j]
  }

  // ---- the sliding window of one address ----

  // What is left once the readings that are a whole window old are popped off the front.
  function Recent(events: seq<Time>, now: Time): seq<Time> {
    if events == [] || Since(now, events[0]) < WINDOW then events else Recent(events[1..], now)
  }

  function EventsOf(seen: map<Ip, seq<Time>>, ip: Ip): seq<Time> {
    if ip in seen then seen[ip] else []
  }

  predicate Admits(max: nat, seen: map<Ip, seq<Time>>, ip: Ip, now: Time) {
    |Recent(EventsOf(seen, ip), now)| < max
  }

  function AfterAllow(max: nat, seen: map<Ip, seq<Time>>, ip: Ip, now: Time): map<Ip, seq<Time>> {
    var recent := Recent(EventsOf(seen, ip), now);
    seen[ip := if |recent| < max then recent + [now] else recent]
  }

  class IpRateLimiter {
    const maxPerWindow: nat
    var seen: map<Ip, seq<Time>>

    constructor (max: nat)
      ensures maxPerWindow == max && seen == map[]
    {
      maxPerWindow := max;
      seen := map[];
    }

    method Allow(ip: Ip, now: Time) returns (ok: bool)
      modifies this
      ensures ok == Admits(maxPerWindow, old(seen), ip, now)
      ensures seen == AfterAllow(maxPerWindow, old(seen), ip, now)
    {
      var events := EventsOf(seen, ip);
      while events != [] && Since(now, events[0]) >= WINDOW
        invariant Recent(events, now) == Recent(EventsOf(old(seen), ip), now)
        invariant seen == old(seen)
        decreases |events|
      {
        events := events[1..];
      }
      ok := |events| < maxPerWindow;
      if ok {
        events := events + [now];
      }
      seen := seen[ip := events];
    }
  }

  // ---- a whole history of one sliding limiter ----

  datatype Hit = Hit(ip: Ip, at: Time)

  predicate InOrder(hits: seq<Hit>) {
    forall i, j :: 0 <= i < j < |hits| ==> hits[i].at <= hits[j].at
  }

  function SeenAfter(max: nat, hits: seq<Hit>): map<Ip, seq<Time>> {
    if hits == [] then map[]
    else
      var last := |hits| - 1;
      AfterAllow(max, SeenAfter(max, hits[..last]), hits[last].ip, hits[last].at)
  }

  // The answer to the next hit after a history.
  predicate LetThrough(max: nat, hits: seq<Hit>, next: Hit) {
    Admits(max, SeenAfter(max, hits), next.ip, next.at)
  }

  // The times of the hits of `ip` that were let through, none forgotten.
  function Passed(max: nat, hits: seq<Hit>, ip: Ip): seq<Time> {
    if hits == [] then []
    else
      var last := |hits| - 1;
      Passed(max, hits[..last], ip)
      + (if hits[last].ip == ip && LetThrough(max, hits[..last], hits[last]) then [hits[last].at] else [])
  }

  lemma OneMoreHit(max: nat, hits: seq<Hit>, hit: Hit, ip: Ip)
    ensures Passed(max, hits + [hit], ip)
         == Passed(max, hits, ip) + (if hit.ip == ip && LetThrough(max, hits, hit) then [hit.at] else [])
    ensures SeenAfter(max, hits + [hit]) == AfterAllow(max, SeenAfter(max, hits), hit.ip, hit.at)
  {
    assert (hits + [hit])[..|hits|] == hits;
  }

  // Popping early loses nothing that a later reading would still count.
  lemma {:induction false} PoppingIsCumulative(events: seq<Time>, extra: seq<Time>, t: Time, now: Time)
    requires t <= now
    ensures Recent(Recent(events, t) + extra, now) == Recent(events + extra, now)
  {
    if events != [] && Since(t, events[0]) >= WINDOW {
      assert (events + extra)[1..] == events[1..] + extra;
      PoppingIsCumulative(events[1..], extra, t, now);
    }
  }

  // What the limiter keeps decides as if it had kept every event it ever let through.
  lemma {:induction false} KeepsEnough(max: nat, hits: seq<Hit>, ip: Ip, now: Time)
    requires InOrder(hits) && forall i :: 0 <= i < |hits| ==> hits[i].at <= now
    ensures Recent(EventsOf(SeenAfter(max, hits), ip), now) == Recent(Passed(max, hits, ip), now)
  {
    if hits != [] {
      var last := |hits| - 1;
      var before, hit := hits[..last], hits[last];
      if hit.ip == ip {
        KeepsEnough(max, before, ip, hit.at);
        var kept, all := EventsOf(SeenAfter(max, before), ip), Passed(max, before, ip);
        var extra := if LetThrough(max, before, hit) then [hit.at] else [];
        assert EventsOf(SeenAfter(max, hits), ip) == Recent(kept, hit.at) + extra;
        PoppingIsCumulative(all, extra, hit.at, now);
      } else {
        KeepsEnough(max, before, ip, now);
        assert Passed(max, hits, ip) == Passed(max, before, ip);
        assert EventsOf(SeenAfter(max, hits), ip) == EventsOf(SeenAfter(max, before), ip);
      }
    }
  }

  lemma {:induction false} PassedAreOrdered(max: nat, hits: seq<Hit>, ip: Ip, now: Time)
    requires InOrder(hits) && forall i :: 0 <= i < |hits| ==> hits[i].at <= now
    ensures Ordered(Passed(max, hits, ip))
    ensures forall k :: 0 <= k < |Passed(max, hits, ip)| ==> Passed(max, hits, ip)[k] <= now
  {
    if hits != [] {
      PassedAreOrdered(max, hits[..|hits| - 1], ip, hits[|hits| - 1].at);
    }
  }

  // In order, what popping leaves is the content of the last second.
  lemma {:induction false} RecentIsTheLastSecond(times: seq<Time>, now: Time)
    requires Ordered(times) && forall k :: 0 <= k < |times| ==> times[k] <= now
    ensures |Recent(times, now)| == CountIn(times, now - WINDOW + 1)
  {
    if times != [] {
      if Since(now, times[0]) < WINDOW {
        CountInAllWithin(times, now - WINDOW + 1);
      } else {
        RecentIsTheLastSecond(times[1..], now);
      }
    }
  }

  lemma InOrderFront(hits: seq<Hit>, next: Hit)
    requires InOrder(hits + [next])
    ensures InOrder(hits) && forall i :: 0 <= i < |hits| ==> hits[i].at <= next.at
  {
    var all := hits + [next];
    assert all[|hits|] == next;
    assert forall i :: 0 <= i < |hits| ==> hits[i] == all[i];
  }

  // A hit is let through exactly when the second that ends with it holds fewer than `max`
  // let-through events of its own address; other addresses have no say.
  lemma LetThroughIff(max: nat, hits: seq<Hit>, next: Hit)
    requires InOrder(hits + [next])
    ensures LetThrough(max, hits, next)
       <==> CountIn(Passed(max, hits, next.ip), next.at - WINDOW + 1) < max
  {
    InOrderFront(hits, next);
    KeepsEnough(max, hits, next.ip, next.at);
    PassedAreOrdered(max, hits, next.ip, next.at);
    RecentIsTheLastSecond(Passed(max, hits, next.ip), next.at);
  }

  // No half-open one-second interval of the whole history ever holds more than `max` let-through
  // events of one address.
  lemma {:induction false} NoSecondHoldsMore(max: nat, hits: seq<Hit>, ip: Ip, from: int)
    requires InOrder(hits)
    ensures CountIn(Passed(max, hits, ip), from) <= max
  {
    if hits != [] {
      var before, hit := hits[..|hits| - 1], hits[|hits| - 1];
      NoSecondHoldsMore(max, before, ip, from);
      var all := Passed(max, before, ip);
      assert before + [hit] == hits;
      OneMoreHit(max, before, hit, ip);
      if hit.ip == ip && LetThrough(max, before, hit) {
        CountInSum(all, [hit.at], from);
        if Within(hit.at, from) {
          LetThroughIff(max, before, hit);
          PassedAreOrdered(max, before, ip, hit.at);
          LastSecondHoldsMost(all, hit.at, from);
        }
      } else {
        assert Passed(max, hits, ip) == all;
      }
    }
  }

  // A refusal means the address already had its full allowance in the second before it.
  lemma RefusalMeansFull(max: nat, hits: seq<Hit>, next: Hit)
    requires InOrder(hits + [next]) && !LetThrough(max, hits, next)
    ensures CountIn(Passed(max, hits, next.ip), next.at - WINDOW + 1) == max
  {
    LetThroughIff(max, hits, next);
    InOrderFront(hits, next);
    NoSecondHoldsMore(max, hits, next.ip, next.at - WINDOW + 1);
  }

  function Only(hits: seq<Hit>, ip: Ip): seq<Hit> {
    if hits == [] then []
    else
      var last := |hits| - 1;
      Only(hits[..last], ip) + (if hits[last].ip == ip then [hits[last]] else [])
  }

  // Addresses do not interfere: each is treated as if the others had never called.
  lemma {:induction false} AddressesAreIndependent(max: nat, hits: seq<Hit>, ip: Ip)
    ensures Passed(max, hits, ip) == Passed(max, Only(hits, ip), ip)
    ensures EventsOf(SeenAfter(max, hits), ip) == EventsOf(SeenAfter(max, Only(hits, ip)), ip)
  {
    if hits != [] {
      var before, hit := hits[..|hits| - 1], hits[|hits| - 1];
      AddressesAreIndependent(max, before, ip);
      assert before + [hit] == hits;
      OneMoreHit(max, before, hit, ip);
      if hit.ip == ip {
        OneMoreHit(max, Only(before, ip), hit, ip);
      } else {
        assert Only(hits, ip) == Only(before, ip);
      }
    }
  }

  // ---- the fixed window of one connection ----

  datatype FrameWindow = FrameWindow(start: Time, count: nat)

  function CountFrame(w: FrameWindow, now: Time): FrameWindow {
    if Since(now, w.start) >= WINDOW then FrameWindow(now, 1) else w.(count := w.count + 1)
  }

  class FrameRateLimiter {
    const maxPerWindow: nat
    var windowStart: Time
    var count: nat

    function State(): FrameWindow
      reads this
    {
      FrameWindow(windowStart, count)
    }

    constructor (max: nat, now: Time)
      ensures maxPerWindow == max && State() == FrameWindow(now, 0)
    {
      maxPerWindow := max;
      windowStart := now;
      count := 0;
    }

    method Allow(now: Time) returns (ok: bool)
      modifies this
      ensures State() == CountFrame(old(State()), now)
      ensures ok == (State().count <= maxPerWindow)
    {
      if Since(now, windowStart) >= WINDOW {
        windowStart := now;
        count := 0;
      }
      count := count + 1;
      ok := count <= maxPerWindow;
    }
  }

  function WindowAfter(created: Time, readings: seq<Time>): FrameWindow {
    if readings == [] then FrameWindow(created, 0)
    else CountFrame(WindowAfter(created, readings[..|readings| - 1]), readings[|readings| - 1])
  }

  // The frames let through over a whole connection.
  function PassedFrames(max: nat, created: Time, readings: seq<Time>): seq<Time> {
    if readings == [] then []
    else
      PassedFrames(max, created, readings[..|readings| - 1])
      + (if WindowAfter(created, readings).count <= max then [readings[|readings| - 1]] else [])
  }

  // The frames let through fall into those of the current window, at most `max`, and earlier ones,
  // of which any interval reaching into the current window holds at most `max`.
  ghost predicate Splits(max: nat, w: FrameWindow, earlier: seq<Time>, current: seq<Time>) {
    && (forall k :: 0 <= k < |earlier| ==> earlier[k] < w.start)
    && (forall k :: 0 <= k < |current| ==> Within(current[k], w.start))
    && |current| == (if w.count <= max then w.count else max)
    && (forall from: int :: CountIn(earlier, from) <= 2 * max)
    && (forall from: int :: from > w.start - WINDOW ==> CountIn(earlier, from) <= max)
  }

  lemma {:induction false} SplitBounds(max: nat, w: FrameWindow, earlier: seq<Time>, current: seq<Time>, from: int)
    requires Splits(max, w, earlier, current)
    ensures CountIn(earlier + current, from) <= 2 * max
    ensures from >= w.start ==> CountIn(earlier + current, from) <= max
  {
    CountInSum(earlier, current, from);
    CountInAtMostAll(current, from);
    if from + WINDOW <= w.start {
      CountInNoneWithin(current, from);
    }
    if from >= w.start {
      CountInNoneWithin(earlier, from);
    }
  }

  lemma {:induction false} FramesSplit(max: nat, created: Time, readings: seq<Time>)
    returns (earlier: seq<Time>, current: seq<Time>)
    requires Ordered([created] + readings)
    ensures PassedFrames(max, created, readings) == earlier + current
    ensures Splits(max, WindowAfter(created, readings), earlier, current)
    ensures WindowAfter(created, readings).start <= ([created] + readings)[|readings|]
  {
    earlier, current := [], [];
    if readings != [] {
      var last := |readings| - 1;
      var before, now := readings[..last], readings[last];
      assert ([created] + readings)[|readings|] == now;
      assert [created] + before == ([created] + readings)[..last + 1];
      earlier, current := FramesSplit(max, created, before);
      var w := WindowAfter(created, before);
      assert w.start <= ([created] + readings)[last] <= now;
      var passed := if WindowAfter(created, readings).count <= max then [now] else [];
      if Since(now, w.start) >= WINDOW {
        forall from: int
          ensures CountIn(earlier + current, from) <= 2 * max
          ensures from > now - WINDOW ==> CountIn(earlier + current, from) <= max
        {
          SplitBounds(max, w, earlier, current, from);
        }
        earlier, current := earlier + current, passed;
      } else {
        assert (earlier + current) + passed == earlier + (current + passed);
        current := current + passed;
      }
    }
  }

  // A fixed window lets at most twice its allowance through in any second.
  lemma AtMostTwice(max: nat, created: Time, readings: seq<Time>, from: int)
    requires Ordered([created] + readings)
    ensures CountIn(PassedFrames(max, created, readings), from) <= 2 * max
  {
    var earlier, current := FramesSplit(max, created, readings);
    SplitBounds(max, WindowAfter(created, readings), earlier, current, from);
  }

  function Copies(t: Time, n: nat): (r: seq<Time>)
    ensures |r| == n && forall k :: 0 <= k < n ==> r[k] == t
  {
    seq(n, _ => t)
  }

  lemma OneMoreFrame(max: nat, created: Time, readings: seq<Time>, t: Time)
    ensures WindowAfter(created, readings + [t]) == CountFrame(WindowAfter(created, readings), t)
    ensures PassedFrames(max, created, readings + [t])
         == PassedFrames(max, created, readings)
            + (if CountFrame(WindowAfter(created, readings), t).count <= max then [t] else [])
  {
    assert (readings + [t])[..|readings|] == readings;
  }

  lemma OneMoreCopy(t: Time, n: nat)
    ensures Copies(t, n + 1) == Copies(t, n) + [t]
  {
  }

  // A burst that fits what is left of one window passes whole.
  lemma {:induction false} BurstPasses(max: nat, created: Time, readings: seq<Time>, t: Time, n: nat)
    requires 0 < n <= max
    requires t >= WindowAfter(created, readings).start
    requires WindowAfter(created, readings).count == 0 || Since(t, WindowAfter(created, readings).start) >= WINDOW
    ensures PassedFrames(max, created, readings + Copies(t, n)) == PassedFrames(max, created, readings) + Copies(t, n)
    ensures WindowAfter(created, readings + Copies(t, n)).count == n
    ensures WindowAfter(created, readings + Copies(t, n)).start
         == if Since(t, WindowAfter(created, readings).start) >= WINDOW then t else WindowAfter(created, readings).start
    decreases n
  {
    OneMoreCopy(t, n - 1);
    Regroup(readings, Copies(t, n - 1), [t]);
    Regroup(PassedFrames(max, created, readings), Copies(t, n - 1), [t]);
    OneMoreFrame(max, created, readings + Copies(t, n - 1), t);
    if n == 1 {
      assert Copies(t, 0) == [];
      var passed := PassedFrames(max, created, readings);
      assert readings + [] == readings && passed + [] == passed;
    } else {
      BurstPasses(max, created, readings, t, n - 1);
    }
  }

  function TwoBursts(max: nat, created: Time): seq<Time> {
    Copies(created + WINDOW - 1, max) + Copies(created + WINDOW, max)
  }

  // The factor two is exact: a burst just before a window ends and one just after both pass.
  lemma TwiceIsReached(max: nat, created: Time)
    requires max > 0
    ensures Ordered([created] + TwoBursts(max, created))
    ensures CountIn(PassedFrames(max, created, TwoBursts(max, created)), created + WINDOW - 1) == 2 * max
  {
    var early, late := Copies(created + WINDOW - 1, max), Copies(created + WINDOW, max);
    EarlyBurst(max, created);
    BurstPasses(max, created, early, created + WINDOW, max);
    CountInAllWithin(early + late, created + WINDOW - 1);
  }

  lemma EarlyBurst(max: nat, created: Time)
    requires max > 0
    ensures var early := Copies(created + WINDOW - 1, max);
      PassedFrames(max, created, early) == early && WindowAfter(created, early).start == created
  {
    var early := Copies(created + WINDOW - 1, max);
    assert [] + early == early;
    BurstPasses(max, created, [], created + WINDOW - 1, max);
  }
}
