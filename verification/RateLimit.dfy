/** The sliding-window limiter of internal/app/rate.go against the full history of grants. */
module RateLimit {
  import opened Int64
  import opened Wrappers

  /** One minute, in nanoseconds. */
  const MINUTE := 60_000_000_000

  type Times = seq<int>

  predicate Ordered(times: Times) {
    forall i, j | 0 <= i < j < |times| :: times[i] <= times[j]
  }

  /** The times from the cutoff on: the first live one and everything after it. */
  function Live(times: Times, cutoff: int): Times {
    if times == [] || times[0] >= cutoff then times else Live(times[1..], cutoff)
  }

  /** How many grants lie in the closed interval. */
  function InWindow(times: Times, from: int, to: int): nat {
    if times == [] then 0
    else InWindow(times[..|times|-1], from, to) + (if from <= times[|times|-1] <= to then 1 else 0)
  }

  lemma {:induction false} LiveFacts(times: Times, cutoff: int)
    ensures |Live(times, cutoff)| <= |times|
    ensures Live(times, cutoff) == times[|times| - |Live(times, cutoff)|..]
    ensures forall i | 0 <= i < |times| - |Live(times, cutoff)| :: times[i] < cutoff
    ensures Live(times, cutoff) != [] ==> Live(times, cutoff)[0] >= cutoff
  {
    if times != [] && times[0] < cutoff {
      LiveFacts(times[1..], cutoff);
      var n := |Live(times, cutoff)|;
      assert times[1..][|times| - 1 - n..] == times[|times| - n..];
      forall i | 0 <= i < |times| - n ensures times[i] < cutoff {
        if i > 0 {
          assert times[1..][i-1] == times[i];
        }
      }
    }
  }

  lemma {:induction false} AllInWindow(times: Times, from: int, to: int)
    requires forall i | 0 <= i < |times| :: from <= times[i] <= to
    ensures InWindow(times, from, to) == |times|
  {
    if times != [] {
      AllInWindow(times[..|times|-1], from, to);
    }
  }

  lemma {:induction false} NoneInWindow(times: Times, from: int, to: int)
    requires forall i | 0 <= i < |times| :: times[i] < from || times[i] > to
    ensures InWindow(times, from, to) == 0
  {
    if times != [] {
      NoneInWindow(times[..|times|-1], from, to);
    }
  }

  lemma {:induction false} WindowConcat(a: Times, b: Times, from: int, to: int)
    ensures InWindow(a + b, from, to) == InWindow(a, from, to) + InWindow(b, from, to)
  {
    if b == [] {
      assert a + b == a;
    } else {
      assert (a + b)[..|a + b|-1] == a + b[..|b|-1];
      WindowConcat(a, b[..|b|-1], from, to);
    }
  }

  /** For an ordered history up to now, the live suffix is exactly the window from the cutoff to now. */
  lemma LiveIsWindow(times: Times, cutoff: int, now: int)
    requires Ordered(times) && forall i | 0 <= i < |times| :: times[i] <= now
    ensures |Live(times, cutoff)| == InWindow(times, cutoff, now)
  {
    hide Live;
    hide InWindow;
    var live := Live(times, cutoff);
    var k := |times| - |live|;
    LiveFacts(times, cutoff);
    assert times == times[..k] + live;
    WindowConcat(times[..k], live, cutoff, now);
    NoneInWindow(times[..k], cutoff, now);
    forall i | 0 <= i < |live| ensures cutoff <= live[i] <= now {
      assert live[i] == times[k + i] && live[0] == times[k];
    }
    AllInWindow(live, cutoff, now);
  }

  /** Pruning at an earlier cutoff never changes what a later one keeps. */
  lemma {:induction false} PruneTwice(times: Times, early: int, late: int)
    requires early <= late
    ensures Live(Live(times, early), late) == Live(times, late)
  {
    if times != [] && times[0] < early {
      PruneTwice(times[1..], early, late);
    }
  }

  lemma {:induction false} PruneThenPush(times: Times, cutoff: int, now: int)
    requires cutoff <= now
    ensures Live(times + [now], cutoff) == Live(times, cutoff) + [now]
  {
    if times == [] {
      assert times + [now] == [now];
    } else {
      assert (times + [now])[0] == times[0] && (times + [now])[1..] == times[1..] + [now];
      if times[0] < cutoff {
        PruneThenPush(times[1..], cutoff, now);
      }
    }
  }

  // ---------- The specification: decide from the whole history ----------

  datatype Request = Request(key: string, limit: int, now: int)

  type History = map<string, Times>

  function Grants(h: History, key: string): Times {
    if key in h then h[key] else []
  }

  /** A request without a positive limit always passes and is never recorded. */
  function Decision(h: History, r: Request): bool {
    r.limit <= 0 || InWindow(Grants(h, r.key), r.now - MINUTE, r.now) < r.limit
  }

  function Recorded(h: History, r: Request): History {
    if r.limit > 0 && Decision(h, r) then h[r.key := Grants(h, r.key) + [r.now]] else h
  }

  function RunAll(h: History, requests: seq<Request>): History
    decreases |requests|
  {
    if requests == [] then h else RunAll(Recorded(h, requests[0]), requests[1..])
  }

  ghost predicate Past(h: History, now: int) {
    forall k | k in h :: Ordered(h[k]) && forall i | 0 <= i < |h[k]| :: h[k][i] <= now
  }

  /** The clock does not run backwards, and every request for this key has this limit. */
  ghost predicate Steady(requests: seq<Request>, key: string, limit: int) {
    && (forall i, j | 0 <= i < j < |requests| :: requests[i].now <= requests[j].now)
    && (forall i | 0 <= i < |requests| && requests[i].key == key :: requests[i].limit == limit)
  }

  /** No closed minute holds more than limit grants, whichever grant it starts at. */
  ghost predicate Bounded(times: Times, limit: int) {
    forall i, j | 0 <= i <= j < |times| && times[j] <= times[i] + MINUTE :: j - i < limit
  }

  lemma GrantKeepsBounded(times: Times, limit: int, now: int)
    requires Ordered(times) && Bounded(times, limit) && forall i | 0 <= i < |times| :: times[i] <= now
    requires InWindow(times, now - MINUTE, now) < limit
    ensures Ordered(times + [now]) && Bounded(times + [now], limit)
  {
    hide Live;
    hide InWindow;
    LiveIsWindow(times, now - MINUTE, now);
    LiveFacts(times, now - MINUTE);
  }

  lemma StillBounded(h: History, r: Request, key: string, limit: int, now: int)
    requires limit > 0 && Past(h, now) && now <= r.now && Bounded(Grants(h, key), limit)
              && (r.key == key ==> r.limit == limit)
    ensures Past(Recorded(h, r), r.now) && Bounded(Grants(Recorded(h, r), key), limit)
  {
    hide InWindow;
    hide Bounded;
    if Recorded(h, r) != h {
      GrantKeepsOrder(Grants(h, r.key), r.now);
      if r.key == key {
        GrantKeepsBounded(Grants(h, key), limit, r.now);
      }
    }
  }

  lemma {:induction false} RunKeepsBounded(h: History, requests: seq<Request>, key: string, limit: int, now: int)
    requires limit > 0 && Steady(requests, key, limit) && Past(h, now) && Bounded(Grants(h, key), limit)
    requires requests != [] ==> now <= requests[0].now
    ensures Bounded(Grants(RunAll(h, requests), key), limit)
    decreases |requests|
  {
    hide Recorded;
    hide Past;
    hide InWindow;
    hide Bounded;
    if requests != [] {
      var r := requests[0];
      StillBounded(h, r, key, limit, now);
      RunKeepsBounded(Recorded(h, r), requests[1..], key, limit, r.now);
    }
  }

  lemma GrantKeepsOrder(times: Times, now: int)
    requires Ordered(times) && forall i | 0 <= i < |times| :: times[i] <= now
    ensures Ordered(times + [now]) && forall i | 0 <= i < |times + [now]| :: (times + [now])[i] <= now
  {
  }

  /** Over a whole run with a fixed limit, no closed 60 second interval holds more than limit grants. */
  lemma NoWindowOverrun(requests: seq<Request>, key: string, limit: int, from: int)
    requires limit > 0 && Steady(requests, key, limit)
    ensures InWindow(Grants(RunAll(map[], requests), key), from, from + 60_000_000_000) <= limit
  {
    var now := if requests == [] then 0 else requests[0].now;
    RunKeepsBounded(map[], requests, key, limit, now);
    RunStaysOrdered(map[], requests, now);
    BoundedCounts(Grants(RunAll(map[], requests), key), limit, from);
  }

  lemma {:induction false} RunStaysOrdered(h: History, requests: seq<Request>, now: int)
    requires Past(h, now) && (requests != [] ==> now <= requests[0].now)
    requires forall i, j | 0 <= i < j < |requests| :: requests[i].now <= requests[j].now
    ensures forall key :: Ordered(Grants(RunAll(h, requests), key))
    decreases |requests|
  {
    if requests != [] {
      var r := requests[0];
      if Recorded(h, r) != h {
        GrantKeepsOrder(Grants(h, r.key), r.now);
      }
      RunStaysOrdered(Recorded(h, r), requests[1..], r.now);
    }
  }

  lemma {:induction false} BoundedCounts(times: Times, limit: int, from: int)
    requires limit > 0 && Ordered(times) && Bounded(times, limit)
    ensures InWindow(times, from, from + MINUTE) <= limit
  {
    hide Live;
    hide InWindow;
    var live := Live(times, from);
    var k := |times| - |live|;
    LiveFacts(times, from);
    assert times == times[..k] + live;
    WindowConcat(times[..k], live, from, from + MINUTE);
    NoneInWindow(times[..k], from, from + MINUTE);
    CountPrefix(live, from, from + MINUTE);
    var n := InWindow(live, from, from + MINUTE);
    if n > 0 {
      assert live[0] == times[k] && live[n-1] == times[k + n - 1];
    }
  }

  /** In an ordered sequence the counted elements are a prefix, when none lies below the interval. */
  lemma {:induction false} CountPrefix(times: Times, from: int, to: int)
    requires Ordered(times) && (times != [] ==> times[0] >= from)
    ensures InWindow(times, from, to) <= |times|
    ensures forall i | 0 <= i < InWindow(times, from, to) :: times[i] <= to
  {
    if times != [] {
      var rest := times[..|times|-1];
      CountPrefix(rest, from, to);
      var last := times[|times|-1];
      if from <= last <= to {
        forall i | 0 <= i < |times| ensures times[i] <= to {
        }
      } else {
        forall i | 0 <= i < InWindow(rest, from, to) ensures times[i] <= to {
          assert times[i] == rest[i];
        }
      }
    }
  }

  // ---------- The limiter ----------

  /** The pruned lists the process keeps, and the time of the last sweep. */
  datatype Kept = Kept(requests: map<string, Times>, lastSweep: Option<int>)

  const START := Kept(map[], None)

  /** The sweep prunes every list; empty lists go. */
  function Swept(requests: map<string, Times>, cutoff: int): map<string, Times> {
    map k | k in requests && Live(requests[k], cutoff) != [] :: Live(requests[k], cutoff)
  }

  predicate SweepDue(s: Kept, now: int) {
    s.lastSweep.None? || now - s.lastSweep.value >= MINUTE
  }

  /** The state after one request and whether it is granted, whatever its clock reading is. */
  function Serve(s: Kept, r: Request): (Kept, bool) {
    if r.limit <= 0 then (s, true)
    else
      var cutoff := r.now - MINUTE;
      var requests := if SweepDue(s, r.now) then Swept(s.requests, cutoff) else s.requests;
      var live := Live(Grants(requests, r.key), cutoff);
      var granted := |live| < r.limit;
      (Kept(requests[r.key := if granted then live + [r.now] else live],
            if SweepDue(s, r.now) then Some(r.now) else s.lastSweep), granted)
  }

  function ServeAll(s: Kept, requests: seq<Request>): Kept
    decreases |requests|
  {
    if requests == [] then s else ServeAll(Serve(s, requests[0]).0, requests[1..])
  }

  class RateState {
    var requests: map<string, Times>
    var lastSweep: Option<int>

    ghost function Value(): Kept
      reads this
    {
      Kept(requests, lastSweep)
    }

    constructor ()
      ensures Value() == START
    {
      requests, lastSweep := map[], None;
    }

    method AllowRate(key: string, limit: int, now: int) returns (granted: bool)
      modifies this
      ensures (Value(), granted) == Serve(old(Value()), Request(key, limit, now))
    {
      hide Live;
      if limit <= 0 {
        return true;
      }
      var cutoff := now - MINUTE;
      if lastSweep.None? || now - lastSweep.value >= MINUTE {
        requests := Sweep(requests, cutoff);
        lastSweep := Some(now);
      }
      var values := Prune(Grants(requests, key), cutoff);
      if |values| >= limit {
        requests := requests[key := values];
        return false;
      }
      requests := requests[key := values + [now]];
      return true;
    }
  }

  /** The scan for the first live timestamp. */
  method Prune(times: Times, cutoff: int) returns (live: Times)
    ensures live == Live(times, cutoff)
  {
    var first := 0;
    while first < |times| && times[first] < cutoff
      invariant first <= |times|
      invariant Live(times[first..], cutoff) == Live(times, cutoff)
    {
      assert times[first..][1..] == times[first+1..];
      first := first + 1;
    }
    live := times[first..];
  }

  /** The periodic sweep over every key, in any order. */
  method Sweep(requests: map<string, Times>, cutoff: int) returns (swept: map<string, Times>)
    ensures swept == Swept(requests, cutoff)
  {
    hide Live;
    swept := requests;
    var keys := requests.Keys;
    while keys != {}
      invariant keys <= requests.Keys && swept.Keys <= requests.Keys
      invariant forall k | k in keys :: k in swept && swept[k] == requests[k]
      invariant forall k | k in requests && k !in keys :: k in swept <==> Live(requests[k], cutoff) != []
      invariant forall k | k in swept && k !in keys :: swept[k] == Live(requests[k], cutoff)
    {
      var key :| key in keys;
      keys := keys - {key};
      var live := Prune(swept[key], cutoff);
      if live == [] {
        swept := swept - {key};
      } else {
        swept := swept[key := live];
      }
    }
  }

  // ---------- The limiter against the history ----------

  /** The kept list is the history without a part that has left every window by now. */
  ghost predicate Truncated(kept: Times, full: Times, latest: int) {
    exists cut :: cut <= latest && kept == Live(full, cut)
  }

  /** The state and the history after the requests up to clock. */
  ghost predicate Tracks(s: Kept, h: History, clock: int) {
    && Past(h, clock)
    && (forall k :: Truncated(Grants(s.requests, k), Grants(h, k), clock - MINUTE))
  }

  lemma StartTracks(clock: int)
    ensures Tracks(START, map[], clock)
  {
    assert Live([], clock - MINUTE) == [];
  }

  lemma SweptAt(requests: map<string, Times>, cutoff: int, key: string)
    ensures Grants(Swept(requests, cutoff), key) == Live(Grants(requests, key), cutoff)
  {
  }

  /** In clock order: the list a request sees is the window that ends now, swept or not. */
  lemma SeesWindow(s: Kept, h: History, clock: int, now: int, key: string)
    requires Tracks(s, h, clock) && clock <= now
    ensures var requests := if SweepDue(s, now) then Swept(s.requests, now - MINUTE) else s.requests;
            && Live(Grants(requests, key), now - MINUTE) == Live(Grants(h, key), now - MINUTE)
            && Truncated(Grants(requests, key), Grants(h, key), now - MINUTE)
    ensures |Live(Grants(h, key), now - MINUTE)| == InWindow(Grants(h, key), now - MINUTE, now)
  {
    hide Live;
    hide InWindow;
    assert Truncated(Grants(s.requests, key), Grants(h, key), clock - MINUTE);
    var cut :| cut <= clock - MINUTE && Grants(s.requests, key) == Live(Grants(h, key), cut);
    PruneTwice(Grants(h, key), cut, now - MINUTE);
    PruneTwice(Grants(h, key), now - MINUTE, now - MINUTE);
    SweptAt(s.requests, now - MINUTE, key);
    LiveIsWindow(Grants(h, key), now - MINUTE, now);
  }

  /** In clock order: the decision is the one the full history gives, and neither pruning nor the sweep changes any
      later one. */
  lemma ServeFollowsHistory(s: Kept, h: History, clock: int, r: Request)
    requires Tracks(s, h, clock) && (r.limit > 0 ==> clock <= r.now)
    ensures Serve(s, r).1 == Decision(h, r)
    ensures Tracks(Serve(s, r).0, Recorded(h, r), if r.limit > 0 then r.now else clock)
  {
    hide Live;
    hide InWindow;
    if r.limit > 0 {
      var full, cutoff := Grants(h, r.key), r.now - MINUTE;
      var s', h' := Serve(s, r).0, Recorded(h, r);
      SeesWindow(s, h, clock, r.now, r.key);
      PruneThenPush(full, cutoff, r.now);
      GrantKeepsOrder(full, r.now);
      forall k ensures Truncated(Grants(s'.requests, k), Grants(h', k), cutoff) {
        SeesWindow(s, h, clock, r.now, k);
        if k == r.key {
          assert Grants(s'.requests, k) == Live(Grants(h', k), cutoff);
        }
      }
    }
  }

  /** Clock readings never decrease, from clock on. */
  ghost predicate InClockOrder(requests: seq<Request>, clock: int) {
    && (forall i | 0 <= i < |requests| :: clock <= requests[i].now)
    && forall i, j | 0 <= i < j < |requests| :: requests[i].now <= requests[j].now
  }

  /** The latest reading the limiter acted on. */
  function ClockAfter(clock: int, requests: seq<Request>): int
    decreases |requests|
  {
    if requests == [] then clock
    else ClockAfter(if requests[0].limit > 0 then requests[0].now else clock, requests[1..])
  }

  lemma {:induction false} RunFollowsHistory(s: Kept, h: History, clock: int, requests: seq<Request>)
    requires Tracks(s, h, clock) && InClockOrder(requests, clock)
    ensures Tracks(ServeAll(s, requests), RunAll(h, requests), ClockAfter(clock, requests))
    ensures ClockAfter(clock, requests) <= if requests == [] then clock else requests[|requests|-1].now
    decreases |requests|
  {
    hide Tracks;
    hide Serve;
    hide Recorded;
    if requests != [] {
      var r := requests[0];
      ServeFollowsHistory(s, h, clock, r);
      RunFollowsHistory(Serve(s, r).0, Recorded(h, r), if r.limit > 0 then r.now else clock, requests[1..]);
    }
  }

  /** Over every run in clock order, each decision is the one its full history gives. */
  lemma DecisionsFollowHistory(requests: seq<Request>, r: Request)
    requires InClockOrder(requests + [r], (requests + [r])[0].now)
    ensures Serve(ServeAll(START, requests), r).1 == Decision(RunAll(map[], requests), r)
  {
    hide Tracks;
    hide Serve;
    hide Decision;
    var all := requests + [r];
    var clock := all[0].now;
    assert forall i | 0 <= i < |requests| :: all[i] == requests[i];
    assert all[|requests|] == r;
    StartTracks(clock);
    RunFollowsHistory(START, map[], clock, requests);
    assert requests != [] ==> all[|requests|-1] == requests[|requests|-1];
    var last := ClockAfter(clock, requests);
    ServeFollowsHistory(ServeAll(START, requests), RunAll(map[], requests), last, r);
  }

  // ---------- Requests in any order of their clock readings ----------

  /** The log of grants by key, in the order in which they entered. */
  function Logging(h: History, s: Kept, r: Request): History {
    if r.limit > 0 && Serve(s, r).1 then h[r.key := Grants(h, r.key) + [r.now]] else h
  }

  function LogAll(s: Kept, h: History, requests: seq<Request>): History
    decreases |requests|
  {
    if requests == [] then h else LogAll(Serve(s, requests[0]).0, Logging(h, s, requests[0]), requests[1..])
  }

  /** What is kept is the end of the log; what was dropped is more than a minute older than the latest reading. */
  ghost predicate Ends(kept: Times, full: Times, latest: int) {
    |kept| <= |full| && kept == full[|full| - |kept|..] && Before(full[..|full| - |kept|], latest - MINUTE)
  }

  predicate Before(times: Times, cutoff: int) {
    forall i | 0 <= i < |times| :: times[i] < cutoff
  }

  predicate NotAfter(times: Times, latest: int) {
    forall i | 0 <= i < |times| :: times[i] <= latest
  }

  ghost predicate Logged(s: Kept, h: History, latest: int) {
    forall k :: Ends(Grants(s.requests, k), Grants(h, k), latest) && NotAfter(Grants(h, k), latest)
  }

  lemma LiveEnds(kept: Times, full: Times, latest: int, cutoff: int)
    requires Ends(kept, full, latest)
    ensures Ends(Live(kept, cutoff), full, Max(latest, cutoff + MINUTE))
  {
    LiveDrops(kept, cutoff);
    hide Live;
    var n, live := |full| - |kept|, Live(kept, cutoff);
    assert full[..|full| - |live|] == full[..n] + kept[..|kept| - |live|];
  }

  lemma LiveDrops(kept: Times, cutoff: int)
    ensures |Live(kept, cutoff)| <= |kept| && Live(kept, cutoff) == kept[|kept| - |Live(kept, cutoff)|..]
    ensures Before(kept[..|kept| - |Live(kept, cutoff)|], cutoff)
  {
    LiveFacts(kept, cutoff);
  }

  lemma EndsPush(kept: Times, full: Times, latest: int, now: int)
    requires Ends(kept, full, latest)
    ensures Ends(kept + [now], full + [now], latest)
  {
    assert (full + [now])[..|full| - |kept|] == full[..|full| - |kept|];
  }

  lemma EndsLater(kept: Times, full: Times, early: int, late: int)
    requires Ends(kept, full, early) && early <= late
    ensures Ends(kept, full, late)
  {
  }

  lemma ServeLogs(s: Kept, h: History, latest: int, r: Request)
    requires Logged(s, h, latest)
    ensures Logged(Serve(s, r).0, Logging(h, s, r), Max(latest, r.now))
  {
    forall k
      ensures Ends(Grants(Serve(s, r).0.requests, k), Grants(Logging(h, s, r), k), Max(latest, r.now))
      ensures NotAfter(Grants(Logging(h, s, r), k), Max(latest, r.now))
    {
      ServeLogsKey(s, h, latest, r, k);
    }
  }

  lemma ServeLogsKey(s: Kept, h: History, latest: int, r: Request, key: string)
    requires Ends(Grants(s.requests, key), Grants(h, key), latest) && NotAfter(Grants(h, key), latest)
    ensures Ends(Grants(Serve(s, r).0.requests, key), Grants(Logging(h, s, r), key), Max(latest, r.now))
    ensures NotAfter(Grants(Logging(h, s, r), key), Max(latest, r.now))
  {
    hide Live;
    hide Ends;
    var cutoff, later := r.now - MINUTE, Max(latest, r.now);
    var kept, full := Grants(s.requests, key), Grants(h, key);
    EndsLater(kept, full, latest, later);
    SweptAt(s.requests, cutoff, key);
    hide Swept;
    LiveEnds(kept, full, latest, cutoff);
    PruneTwice(kept, cutoff, cutoff);
    EndsPush(Live(kept, cutoff), full, later, r.now);
  }

  /** In every run, whatever the order of the clock readings, only what is a minute older than the latest is dropped. */
  lemma {:induction false} RunLogs(s: Kept, h: History, latest: int, requests: seq<Request>)
    requires Logged(s, h, latest) && forall i | 0 <= i < |requests| :: requests[i].now <= latest
    ensures Logged(ServeAll(s, requests), LogAll(s, h, requests), latest)
    decreases |requests|
  {
    hide Logged;
    hide Serve;
    hide Logging;
    if requests != [] {
      ServeLogs(s, h, latest, requests[0]);
      RunLogs(Serve(s, requests[0]).0, Logging(h, s, requests[0]), latest, requests[1..]);
    }
  }

  function Older(times: Times, cutoff: int): nat {
    if times == [] then 0 else Older(times[..|times|-1], cutoff) + (if times[|times|-1] < cutoff then 1 else 0)
  }

  function Newer(times: Times, now: int): nat {
    if times == [] then 0 else Newer(times[..|times|-1], now) + (if times[|times|-1] > now then 1 else 0)
  }

  lemma {:induction false} Sorts(times: Times, cutoff: int, now: int)
    requires cutoff <= now
    ensures |times| == Older(times, cutoff) + InWindow(times, cutoff, now) + Newer(times, now)
    ensures Before(times, cutoff) ==> InWindow(times, cutoff, now) == Newer(times, now) == 0
    ensures NotAfter(times, now) ==> Newer(times, now) == 0
  {
    if times != [] {
      Sorts(times[..|times|-1], cutoff, now);
    }
  }

  lemma {:induction false} CountsConcat(a: Times, b: Times, cutoff: int, now: int)
    ensures Older(a + b, cutoff) == Older(a, cutoff) + Older(b, cutoff)
    ensures Newer(a + b, now) == Newer(a, now) + Newer(b, now)
  {
    if b == [] {
      assert a + b == a;
    } else {
      assert (a + b)[..|a + b|-1] == a + b[..|b|-1];
      CountsConcat(a, b[..|b|-1], cutoff, now);
    }
  }

  /** Grants that have left the window and stand behind one that has not: the scan stops before it reaches them. */
  function Stuck(kept: Times, cutoff: int): nat {
    Older(Live(kept, cutoff), cutoff)
  }

  /** What a request counts: those of its window that were not forgotten, those ahead of it, and the stuck ones. */
  lemma Seen(full: Times, n: nat, now: int)
    requires n <= |full|
    ensures var cutoff := now - MINUTE;
            |Live(full[n..], cutoff)| == InWindow(full, cutoff, now) - InWindow(full[..n], cutoff, now)
                                         + Newer(full[n..], now) + Stuck(full[n..], cutoff)
  {
    hide Live;
    hide InWindow;
    hide Older;
    hide Newer;
    hide Before;
    var cutoff, kept := now - MINUTE, full[n..];
    var live := Live(kept, cutoff);
    LiveDrops(kept, cutoff);
    var dropped := kept[..|kept| - |live|];
    assert kept == dropped + live && full == full[..n] + kept;
    WindowConcat(full[..n], kept, cutoff, now);
    WindowConcat(dropped, live, cutoff, now);
    CountsConcat(dropped, live, cutoff, now);
    Sorts(dropped, cutoff, now);
    Sorts(live, cutoff, now);
  }

  /** Every request of every run, in or out of clock order (the source reads the clock before it takes the lock): n
      entries of its key's log have been dropped. It is granted, or refused, against its own window exactly when the
      forgotten, the stuck and the ones ahead of it make up the difference to the limit. */
  lemma LateRequest(s: Kept, h: History, r: Request, n: nat)
    requires n <= |Grants(h, r.key)| && Grants(s.requests, r.key) == Grants(h, r.key)[n..] && r.limit > 0
    ensures var full, cutoff := Grants(h, r.key), r.now - MINUTE;
            var window := InWindow(full, cutoff, r.now);
            var seen := window - InWindow(full[..n], cutoff, r.now) + Newer(full[n..], r.now)
                + Stuck(full[n..], cutoff);
            && (Serve(s, r).1 <==> seen < r.limit)
            && (Serve(s, r).1 && !Decision(h, r) <==> seen < r.limit <= window)
            && (!Serve(s, r).1 && Decision(h, r) <==> window < r.limit <= seen)
  {
    hide Live;
    hide InWindow;
    var full, cutoff := Grants(h, r.key), r.now - MINUTE;
    Seen(full, n, r.now);
    SweptAt(s.requests, cutoff, r.key);
    PruneTwice(full[n..], cutoff, cutoff);
  }

  /** A request on time, in any run: nothing of its window is forgotten and nothing is ahead of it, so it is never
      granted
      against its window; it is refused against it exactly when the grants stuck in its log make up the difference. */
  lemma OnTimeRequest(s: Kept, h: History, latest: int, r: Request)
    requires Logged(s, h, latest) && latest <= r.now && r.limit > 0
    ensures var full, cutoff := Grants(h, r.key), r.now - MINUTE;
            var window := InWindow(full, cutoff, r.now);
            && (Serve(s, r).1 ==> Decision(h, r))
            && (!Serve(s, r).1 && Decision(h, r) <==> window < r.limit <= window + Stuck(full, cutoff))
  {
    hide Live;
    hide InWindow;
    hide Serve;
    hide Decision;
    hide Before;
    hide NotAfter;
    hide Stuck;
    var full := Grants(h, r.key);
    assert Ends(Grants(s.requests, r.key), full, latest) && NotAfter(full, latest);
    hide Logged;
    var n := |full| - |Grants(s.requests, r.key)|;
    LateRequest(s, h, r, n);
    OnTimeSees(full, n, latest, r.now);
  }

  lemma OnTimeSees(full: Times, n: nat, latest: int, now: int)
    requires n <= |full| && Before(full[..n], latest - MINUTE) && NotAfter(full, latest) && latest <= now
    ensures InWindow(full[..n], now - MINUTE, now) == 0 && Newer(full[n..], now) == 0
    ensures Stuck(full[n..], now - MINUTE) == Stuck(full, now - MINUTE)
  {
    hide Live;
    hide InWindow;
    var cutoff := now - MINUTE;
    assert Before(full[..n], cutoff);
    Sorts(full[..n], cutoff, now);
    Sorts(full[n..], cutoff, now);
    LiveAfter(full[..n], full[n..], cutoff);
    assert full == full[..n] + full[n..];
  }

  /** So it is from the start: after any requests, in any order of their readings, for one that is not before any. */
  lemma RunThenOnTime(requests: seq<Request>, r: Request)
    requires r.limit > 0 && forall i | 0 <= i < |requests| :: requests[i].now <= r.now
    ensures
      var s, full := ServeAll(START, requests), Grants(LogAll(START, map[], requests), r.key);
      var window := InWindow(full, r.now - 60_000_000_000, r.now);
      && (Serve(s, r).1 ==> window < r.limit)
      && (!Serve(s, r).1 && window < r.limit <==> window < r.limit <= window + Stuck(full, r.now - 60_000_000_000))
  {
    hide Serve;
    hide InWindow;
    hide Stuck;
    StartLogs(r.now);
    RunLogs(START, map[], r.now, requests);
    OnTimeRequest(ServeAll(START, requests), LogAll(START, map[], requests), r.now, r);
  }

  lemma StartLogs(latest: int)
    ensures Logged(START, map[], latest)
  {
  }

  lemma {:induction false} LiveAfter(dropped: Times, rest: Times, cutoff: int)
    requires Before(dropped, cutoff)
    ensures Live(dropped + rest, cutoff) == Live(rest, cutoff)
  {
    if dropped == [] {
      assert dropped + rest == rest;
    } else {
      assert (dropped + rest)[1..] == dropped[1..] + rest;
      LiveAfter(dropped[1..], rest, cutoff);
    }
  }

  /** One late grant behind an ordered log is stuck exactly while it has left the window and one before it has not. */
  lemma OneStuck(xs: Times, t: int, cutoff: int)
    requires Ordered(xs)
    ensures Stuck(xs + [t], cutoff) == if Live(xs, cutoff) != [] && t < cutoff then 1 else 0
  {
    hide Live;
    var live := Live(xs, cutoff);
    LiveFacts(xs, cutoff);
    var dropped := xs[..|xs| - |live|];
    assert xs + [t] == dropped + (live + [t]);
    assert forall i | 0 <= i < |dropped| :: dropped[i] == xs[i];
    LiveAfter(dropped, live + [t], cutoff);
    HeadIsLive(live + [t], cutoff);
    forall i | 0 <= i < |live| ensures live[i] >= cutoff {
      assert live[i] == xs[|xs| - |live| + i] && live[0] == xs[|xs| - |live|];
    }
    NoneOlder(live, cutoff);
    CountsConcat(live, [t], cutoff, t);
    assert Older([t], cutoff) == Older([t][..0], cutoff) + (if t < cutoff then 1 else 0);
    assert Older([], cutoff) == 0;
  }

  lemma HeadIsLive(times: Times, cutoff: int)
    requires times != []
    ensures times[0] >= cutoff ==> Live(times, cutoff) == times
    ensures times[0] < cutoff && |times| == 1 ==> Live(times, cutoff) == []
  {
    if |times| == 1 && times[0] < cutoff {
      assert times[1..] == [];
    }
  }

  lemma {:induction false} NoneOlder(times: Times, cutoff: int)
    requires forall i | 0 <= i < |times| :: times[i] >= cutoff
    ensures Older(times, cutoff) == 0
  {
    if times != [] {
      NoneOlder(times[..|times|-1], cutoff);
    }
  }

  /** So after one late grant t, a request on time is refused against its window exactly when t has left it, a grant
      that
      entered before t has not, and the window is one short of the limit. */
  lemma AfterOneLateGrant(s: Kept, h: History, latest: int, r: Request, xs: Times, t: int)
    requires Logged(s, h, latest) && latest <= r.now && r.limit > 0
    requires Ordered(xs) && Grants(h, r.key) == xs + [t]
    ensures var cutoff := r.now - MINUTE;
            !Serve(s, r).1 && Decision(h, r)
            <==> Live(xs, cutoff) != [] && t < cutoff && InWindow(xs + [t], cutoff, r.now) + 1 == r.limit
  {
    OnTimeRequest(s, h, latest, r);
    OneStuck(xs, t, r.now - MINUTE);
  }

  const SECOND := 1_000_000_000

  /** Both happen. A grant at 0 s is swept away by another key's request at 61 s; a request that read the clock at 59 s
      is then granted beside it, with a limit of one. */
  lemma LateRequestWronglyGranted()
    ensures var k0, x61, k59 := Request("k", 1, 0), Request("x", 1, 61 * SECOND), Request("k", 1, 59 * SECOND);
            Serve(ServeAll(START, [k0, x61]), k59).1 && !Decision(RunAll(map[], [k0, x61]), k59)
  {
    var k0, x61, k59 := Request("k", 1, 0), Request("x", 1, 61 * SECOND), Request("k", 1, 59 * SECOND);
    var s1, h1 := Kept(map["k" := [0]], Some(0)), map["k" := [0]];
    var s2, h2 := Kept(map["x" := [61 * SECOND]], Some(61 * SECOND)), map["k" := [0], "x" := [61 * SECOND]];
    assert [k0, x61][1..] == [x61] && [x61][1..] == [];
    StartServes(k0);
    assert Live([], SECOND) == [] && Live([0], SECOND) == Live([0][1..], SECOND) && [0][1..] == [];
    assert Swept(s1.requests, SECOND) == map[];
    ServedAlone(s1, x61);
    assert ServeAll(START, [k0, x61]) == ServeAll(s1, [x61]) == s2;
    assert InWindow([], SECOND, 61 * SECOND) == 0;
    assert Recorded(h1, x61) == h2;
    assert RunAll(map[], [k0, x61]) == RunAll(h1, [x61]) == h2;
    assert Live([], -SECOND) == [];
    assert InWindow([0], -SECOND, 59 * SECOND) == InWindow([0][..0], -SECOND, 59 * SECOND) + 1;
  }

  lemma StartServes(r: Request)
    requires r.limit == 1
    ensures Serve(START, r).0 == Kept(map[r.key := [r.now]], Some(r.now)) && Recorded(map[], r) == map[r.key := [r.now]]
  {
    assert Swept(map[], r.now - MINUTE) == map[];
    ServedAlone(START, r);
    assert InWindow([], r.now - MINUTE, r.now) == 0;
    assert [] + [r.now] == [r.now] && map[][r.key := [r.now]] == map[r.key := [r.now]];
  }

  /** After a sweep that leaves nothing, the request is granted and its grant is all that is kept. */
  lemma ServedAlone(s: Kept, r: Request)
    requires r.limit > 0 && SweepDue(s, r.now) && Swept(s.requests, r.now - MINUTE) == map[]
    ensures Serve(s, r) == (Kept(map[r.key := [r.now]], Some(r.now)), true)
  {
    assert Live([], r.now - MINUTE) == [];
    assert [] + [r.now] == [r.now] && map[][r.key := [r.now]] == map[r.key := [r.now]];
  }

  /** And a grant at 61 s refuses a request that read the clock at 59 s. */
  lemma LateRequestWronglyRefused()
    ensures var k59, k61 := Request("k", 1, 59 * SECOND), Request("k", 1, 61 * SECOND);
            !Serve(ServeAll(START, [k61]), k59).1 && Decision(RunAll(map[], [k61]), k59)
  {
    var k59, k61 := Request("k", 1, 59 * SECOND), Request("k", 1, 61 * SECOND);
    StartServes(k61);
    assert [k61][1..] == [];
    assert ServeAll(START, [k61]) == Serve(START, k61).0 && RunAll(map[], [k61]) == Recorded(map[], k61);
    assert Live([61 * SECOND], -SECOND) == [61 * SECOND];
    assert InWindow([61 * SECOND], -SECOND, 59 * SECOND) == InWindow([61 * SECOND][..0], -SECOND, 59 * SECOND);
  }

  /** And a late grant at 59 s, itself as the history says, is stuck behind the one at 61 s: a request on time at 120 s
      is
      refused with a limit of two, although its window holds one grant. */
  lemma LateGrantRefusesOnTime()
    ensures var k61, k59, k120 :=
              Request("k", 2, 61 * SECOND), Request("k", 2, 59 * SECOND), Request("k", 2, 120 * SECOND);
            var h := LogAll(START, map[], [k61, k59]);
            && h == map["k" := [61 * SECOND, 59 * SECOND]]
            && !Serve(ServeAll(START, [k61, k59]), k120).1 && Decision(h, k120)
  {
    var k61, k59, k120 := Request("k", 2, 61 * SECOND), Request("k", 2, 59 * SECOND), Request("k", 2, 120 * SECOND);
    var s1, h1 := Kept(map["k" := [61 * SECOND]], Some(61 * SECOND)), map["k" := [61 * SECOND]];
    var h2 := map["k" := [61 * SECOND, 59 * SECOND]];
    var s2 := Kept(h2, Some(61 * SECOND));
    assert [k61, k59][1..] == [k59] && [k59][1..] == [];
    assert Swept(map[], SECOND) == map[];
    ServedAlone(START, k61);
    assert [] + [61 * SECOND] == [61 * SECOND] && map[]["k" := [61 * SECOND]] == h1;
    assert Live([61 * SECOND], -SECOND) == [61 * SECOND];
    assert [61 * SECOND] + [59 * SECOND] == [61 * SECOND, 59 * SECOND];
    assert h1["k" := [61 * SECOND, 59 * SECOND]] == h2;
    assert Serve(s1, k59) == (s2, true) && Logging(h1, s1, k59) == h2;
    assert ServeAll(START, [k61, k59]) == ServeAll(s1, [k59]) == s2;
    assert LogAll(START, map[], [k61, k59]) == LogAll(s1, h1, [k59]) == h2;
    assert Live([61 * SECOND, 59 * SECOND], 60 * SECOND) == [61 * SECOND, 59 * SECOND];
    assert InWindow([61 * SECOND, 59 * SECOND], 60 * SECOND, 120 * SECOND)
        == InWindow([61 * SECOND, 59 * SECOND][..1], 60 * SECOND, 120 * SECOND);
  }

  // ---------- In figures ----------

  /** Without a positive limit every request passes and leaves no trace. */
  lemma NoLimitAlwaysPasses(s: Kept, key: string, limit: int, now: int)
    requires limit <= 0
    ensures Serve(s, Request(key, limit, now)) == (s, true)
  {
  }

  /** With a limit of one, a second request passes exactly when the first is more than 60 seconds old. */
  lemma ExactlyAMinute(key: string, t: int, u: int)
    requires t <= u
    ensures Serve(Serve(START, Request(key, 1, t)).0, Request(key, 1, u)).1 <==> u - t > 60_000_000_000
  {
    var s := Serve(START, Request(key, 1, t)).0;
    StartServes(Request(key, 1, t));
    var cutoff := u - 60_000_000_000;
    SweptAt(s.requests, cutoff, key);
    HeadIsLive([t], cutoff);
    PruneTwice([t], cutoff, cutoff);
  }

  function Repeated(t: int, n: nat): Times {
    seq(n, i => t)
  }

  function Copies(r: Request, n: nat): seq<Request> {
    seq(n, i => r)
  }

  /** A burst at one moment: exactly limit requests pass. */
  lemma BurstIsCut(key: string, limit: int, t: int, n: nat)
    requires 0 < limit && n <= limit
    ensures var r := Request(key, limit, t);
            Serve(ServeAll(START, Copies(r, n)), r).1 <==> n < limit
  {
    var r := Request(key, limit, t);
    if n == 0 {
      assert Copies(r, 0) == [];
      assert Swept(map[], t - MINUTE) == map[];
      ServedAlone(START, r);
    } else {
      assert Copies(r, n)[1..] == Copies(r, n - 1);
      assert Swept(map[], t - MINUTE) == map[];
      ServedAlone(START, r);
      var s := Serve(START, r).0;
      assert Repeated(t, 1) == [t];
      BurstContinues(s, r, 1, n - 1);
      NextOfBurst(ServeAll(s, Copies(r, n - 1)), r, n);
    }
  }

  ghost predicate InBurst(s: Kept, r: Request, n: nat) {
    Grants(s.requests, r.key) == Repeated(r.now, n) && s.lastSweep == Some(r.now)
  }

  lemma NextOfBurst(s: Kept, r: Request, n: nat)
    requires InBurst(s, r, n) && 0 < n && r.limit > 0
    ensures Serve(s, r).1 <==> n < r.limit
    ensures n < r.limit ==> InBurst(Serve(s, r).0, r, n + 1)
  {
    var kept := Repeated(r.now, n);
    HeadIsLive(kept, r.now - MINUTE);
    assert kept + [r.now] == Repeated(r.now, n + 1);
  }

  lemma {:induction false} BurstContinues(s: Kept, r: Request, have: nat, more: nat)
    requires InBurst(s, r, have) && 0 < have && have + more <= r.limit
    ensures InBurst(ServeAll(s, Copies(r, more)), r, have + more)
    decreases more
  {
    if more == 0 {
      assert Copies(r, 0) == [];
    } else {
      assert Copies(r, more)[1..] == Copies(r, more - 1);
      NextOfBurst(s, r, have);
      BurstContinues(Serve(s, r).0, r, have + 1, more - 1);
    }
  }

  /** The grants of other keys make no difference. */
  lemma {:induction false} OtherKeysDoNotCount(s: Kept, requests: seq<Request>, r: Request)
    requires Grants(s.requests, r.key) == [] && r.limit > 0
    requires forall i | 0 <= i < |requests| :: requests[i].key != r.key
    ensures Serve(ServeAll(s, requests), r).1
    decreases |requests|
  {
    if requests == [] {
      SweptAt(s.requests, r.now - MINUTE, r.key);
      assert Live([], r.now - MINUTE) == [];
    } else {
      SweptAt(s.requests, requests[0].now - MINUTE, r.key);
      assert Live([], requests[0].now - MINUTE) == [];
      OtherKeysDoNotCount(Serve(s, requests[0]).0, requests[1..], r);
    }
  }
}
