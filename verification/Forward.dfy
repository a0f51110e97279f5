/** Forwarding events from adapters to the bus, and what failover delivers. */
module Forward {
  import opened Wrappers
  import opened JsonTree
  import opened Event
  import opened HashFeed
  import opened Dedup
  import Stats

  // ----- What the bus receives over a run of arrivals -----

  /** The fingerprints let through among the first `n` arrivals, in order. */
  function Published(p: Params, run: seq<Arrival>, n: nat): seq<nat>
    requires n <= |run|
  {
    if n == 0 then []
    else Published(p, run, n - 1) + (if Dropped(p, run, n - 1) then [] else [run[n - 1].fp])
  }

  predicate SeenBefore(run: seq<Arrival>, n: nat)
    requires n < |run|
  {
    exists i :: 0 <= i < n && run[i].fp == run[n].fp
  }

  /** Each fingerprint at the place of its first arrival. */
  function FirstArrivals(run: seq<Arrival>, n: nat): seq<nat>
    requires n <= |run|
  {
    if n == 0 then []
    else FirstArrivals(run, n - 1) + (if SeenBefore(run, n - 1) then [] else [run[n - 1].fp])
  }

  /** All copies of an event arrive less than `span` after each other. */
  ghost predicate CopiesWithin(run: seq<Arrival>, span: int) {
    forall i, j :: 0 <= i < j < |run| && run[i].fp == run[j].fp ==> run[j].now - run[i].now < span
  }

  lemma {:induction false} FirstIndex(run: seq<Arrival>, n: nat) returns (i: nat)
    requires n < |run| && SeenBefore(run, n)
    ensures i < n && run[i].fp == run[n].fp && !SeenBefore(run, i)
  {
    i :| 0 <= i < n && run[i].fp == run[n].fp;
    if SeenBefore(run, i) { i := FirstIndex(run, i); }
  }

  /** When clock readings fall back by at most `slack`, copies closer than the window less that pass only once. */
  lemma {:induction false} PassesIffFirst(p: Params, run: seq<Arrival>, slack: nat, n: nat)
    requires n < |run| && Slack(run, slack) && CopiesWithin(run, p.window - slack)
    ensures Dropped(p, run, n) <==> SeenBefore(run, n)
  {
    if Dropped(p, run, n) {
      hide Check;
      var i := RememberedPassed(p, run, n, run[n].fp) by { DroppedIsRemembered(p, run, n); }
    } else if SeenBefore(run, n) {
      hide Dropped;
      var i := FirstIndex(run, n);
      PassesIffFirst(p, run, slack, i);
      var l := LatestPassExists(p, run, i, n);
      PassesAreApart(p, run, slack, l, n);
    }
  }

  lemma DroppedIsRemembered(p: Params, run: seq<Arrival>, n: nat)
    requires n < |run| && Dropped(p, run, n)
    ensures run[n].fp in After(p, run[..n]).seen
  {
  }

  /** With copies that close, the bus receives every event once, at its first arrival. */
  lemma {:induction false} PublishedIsFirstArrivals(p: Params, run: seq<Arrival>, slack: nat, n: nat)
    requires n <= |run| && Slack(run, slack) && CopiesWithin(run, p.window - slack)
    ensures Published(p, run, n) == FirstArrivals(run, n)
  {
    hide Dropped, SeenBefore;
    if n == 0 {
    } else {
      PublishedIsFirstArrivals(p, run, slack, n - 1);
      PassesIffFirst(p, run, slack, n - 1);
    }
  }

  /** The first arrivals are exactly the events that arrived, without repeats. */
  lemma {:induction false} FirstArrivalsOnce(run: seq<Arrival>, n: nat)
    requires n <= |run|
    ensures forall fp :: fp in FirstArrivals(run, n) <==> exists i :: 0 <= i < n && run[i].fp == fp
    ensures forall i, j :: 0 <= i < j < |FirstArrivals(run, n)| ==> FirstArrivals(run, n)[i] != FirstArrivals(run, n)[j]
  {
    if n == 0 {
    } else {
      FirstArrivalsOnce(run, n - 1);
      var before, fp := FirstArrivals(run, n - 1), run[n - 1].fp;
      assert fp in before <==> SeenBefore(run, n - 1);
      forall g | g in FirstArrivals(run, n)
        ensures exists i :: 0 <= i < n && run[i].fp == g
      {
        if g in before {
          var i :| 0 <= i < n - 1 && run[i].fp == g;
        }
      }
      forall i | 0 <= i < n
        ensures run[i].fp in FirstArrivals(run, n)
      {
        if i < n - 1 { assert run[i].fp in before; }
      }
    }
  }

  // ----- Two copies of one stream -----

  function CountTrue(bs: seq<bool>, n: nat): (c: nat)
    requires n <= |bs|
    ensures c <= n
  {
    if n == 0 then 0 else CountTrue(bs, n - 1) + if bs[n - 1] then 1 else 0
  }

  /** Position in the stream of arrival `n`, when `primary` says which arrivals came from the primary. */
  function Position(primary: seq<bool>, n: nat): nat
    requires n < |primary|
  {
    if primary[n] then CountTrue(primary, n) else n - CountTrue(primary, n)
  }

  /** The run interleaves the stream from the primary with the same stream from the fallback. */
  ghost predicate TwoCopies(stream: seq<nat>, run: seq<Arrival>, primary: seq<bool>) {
    |primary| == |run| == 2 * |stream|
    && CountTrue(primary, |run|) == |stream|
    && forall n :: 0 <= n < |run| ==> Position(primary, n) < |stream| && run[n].fp == stream[Position(primary, n)]
  }

  ghost predicate Distinct(stream: seq<nat>) {
    forall i, j :: 0 <= i < j < |stream| ==> stream[i] != stream[j]
  }

  /** How far the faster copy has come. */
  function Frontier(primary: seq<bool>, n: nat): nat
    requires n <= |primary|
  {
    var a := CountTrue(primary, n);
    if a < n - a then n - a else a
  }

  lemma InPrefix(stream: seq<nat>, f: nat, k: nat)
    requires Distinct(stream) && f <= |stream| && k < |stream|
    ensures stream[k] in stream[..f] <==> k < f
  {
    if k < f { assert stream[..f][k] == stream[k]; }
  }

  lemma {:induction false} FirstArrivalsFollowStream(stream: seq<nat>, run: seq<Arrival>, primary: seq<bool>, n: nat)
    requires Distinct(stream) && TwoCopies(stream, run, primary) && n <= |run|
    ensures Frontier(primary, n) <= |stream|
    ensures FirstArrivals(run, n) == stream[..Frontier(primary, n)]
  {
    if n == 0 {
    } else {
      FirstArrivalsFollowStream(stream, run, primary, n - 1);
      hide Distinct, Frontier, FirstArrivals;
      FrontierFollows(stream, run, primary, n - 1);
    }
  }

  lemma FrontierFollows(stream: seq<nat>, run: seq<Arrival>, primary: seq<bool>, n: nat)
    requires Distinct(stream) && TwoCopies(stream, run, primary) && n < |run|
    requires Frontier(primary, n) <= |stream| && FirstArrivals(run, n) == stream[..Frontier(primary, n)]
    ensures Frontier(primary, n + 1) <= |stream|
    ensures FirstArrivals(run, n + 1) == stream[..Frontier(primary, n + 1)]
  {
    var f, k := Frontier(primary, n), Position(primary, n);
    assert k < |stream| && run[n].fp == stream[k];
    hide Distinct, TwoCopies, Position, SeenBefore, FirstArrivals;
    FrontierStep(primary, n);
    hide Frontier;
    SeenIsBehind(stream, run, n, f, k);
    FirstArrivalStep(run, n);
    if k == f { assert stream[..f] + [stream[k]] == stream[..f + 1]; }
  }

  lemma FirstArrivalStep(run: seq<Arrival>, n: nat)
    requires n < |run|
    ensures FirstArrivals(run, n + 1) ==
            if SeenBefore(run, n) then FirstArrivals(run, n) else FirstArrivals(run, n) + [run[n].fp]
  {
  }

  /** An arrival is at the frontier and moves it, or behind it. */
  lemma FrontierStep(primary: seq<bool>, n: nat)
    requires n < |primary|
    ensures Position(primary, n) <= Frontier(primary, n)
    ensures Frontier(primary, n + 1) ==
            Frontier(primary, n) + if Position(primary, n) == Frontier(primary, n) then 1 else 0
  {
  }

  lemma SeenIsBehind(stream: seq<nat>, run: seq<Arrival>, n: nat, f: nat, k: nat)
    requires Distinct(stream) && n < |run| && f <= |stream| && k < |stream| && run[n].fp == stream[k]
    requires FirstArrivals(run, n) == stream[..f]
    ensures SeenBefore(run, n) <==> k < f
  {
    FirstArrivalsOnce(run, n);
    InPrefix(stream, f, k);
  }

  /** Exactly once under failover: the bus receives the original stream, in its own order. */
  lemma FailoverExactlyOnce(p: Params, stream: seq<nat>, run: seq<Arrival>, primary: seq<bool>, slack: nat)
    requires Distinct(stream) && TwoCopies(stream, run, primary)
    requires Slack(run, slack) && CopiesWithin(run, p.window - slack)
    ensures Published(p, run, |run|) == stream
  {
    PublishedIsFirstArrivals(p, run, slack, |run|);
    FirstArrivalsFollowStream(stream, run, primary, |run|);
  }

  // ----- The forwarding loop -----

  class EventBus {
    var published: seq<Event>

    method Publish(event: Event)
      modifies this
      ensures published == old(published) + [event]
    {
      published := published + [event];
    }
  }

  /** The events of one channel that the filter lets through, starting from memory `s`. */
  function Kept(p: Params, hash: seq<Byte> -> U64, s: Memory, events: seq<Event>, clock: seq<nat>): seq<Event>
    requires |clock| == |events| && forall i :: 0 <= i < |events| ==> FitsEvent(events[i])
    decreases |events|
  {
    if events == [] then []
    else
      var (s', dropped) := Check(p, s, Fingerprint(hash, events[0]), clock[0]);
      (if dropped then [] else [events[0]]) + Kept(p, hash, s', events[1..], clock[1..])
  }

  function Fingerprints(hash: seq<Byte> -> U64, events: seq<Event>): (fps: seq<nat>)
    requires forall i :: 0 <= i < |events| ==> FitsEvent(events[i])
    ensures |fps| == |events| && forall i :: 0 <= i < |fps| ==> fps[i] == Fingerprint(hash, events[i])
  {
    seq(|events|, i requires 0 <= i < |events| => Fingerprint(hash, events[i]))
  }

  /** The channel's events as the filter sees them. */
  function Arrivals(hash: seq<Byte> -> U64, events: seq<Event>, clock: seq<nat>): (run: seq<Arrival>)
    requires |clock| == |events| && forall i :: 0 <= i < |events| ==> FitsEvent(events[i])
    ensures |run| == |events|
  {
    seq(|events|, i requires 0 <= i < |events| => Arrival(Fingerprint(hash, events[i]), clock[i]))
  }

  lemma KeptFits(p: Params, hash: seq<Byte> -> U64, s: Memory, events: seq<Event>, clock: seq<nat>)
    requires |clock| == |events| && forall i :: 0 <= i < |events| ==> FitsEvent(events[i])
    ensures forall i :: 0 <= i < |Kept(p, hash, s, events, clock)| ==> FitsEvent(Kept(p, hash, s, events, clock)[i])
    decreases |events|
  {
    hide Check, Fingerprint, FitsEvent;
    if events != [] {
      KeptFits(p, hash, Check(p, s, Fingerprint(hash, events[0]), clock[0]).0, events[1..], clock[1..]);
    }
  }

  lemma FingerprintsCons(hash: seq<Byte> -> U64, e: Event, rest: seq<Event>)
    requires FitsEvent(e) && forall i :: 0 <= i < |rest| ==> FitsEvent(rest[i])
    ensures Fingerprints(hash, [e] + rest) == [Fingerprint(hash, e)] + Fingerprints(hash, rest)
  {
    hide Fingerprint, FitsEvent;
  }

  /** One turn of the loop. */
  lemma KeptStep(p: Params, hash: seq<Byte> -> U64, events: seq<Event>, clock: seq<nat>, n: nat)
    requires |clock| == |events| && n < |events| && forall i :: 0 <= i < |events| ==> FitsEvent(events[i])
    ensures var run := Arrivals(hash, events, clock);
            Kept(p, hash, After(p, run[..n]), events[n..], clock[n..])
            == (if Dropped(p, run, n) then [] else [events[n]])
                + Kept(p, hash, After(p, run[..n + 1]), events[n + 1..], clock[n + 1..])
  {
    hide Check, Fingerprint, FitsEvent, After;
    AfterStep(p, Arrivals(hash, events, clock), n);
    assert events[n..][1..] == events[n + 1..] && clock[n..][1..] == clock[n + 1..];
  }

  /** What the loop publishes from event `n` on completes what the run has published so far. */
  lemma {:induction false} KeptFrom(p: Params, hash: seq<Byte> -> U64, events: seq<Event>, clock: seq<nat>, n: nat)
    requires |clock| == |events| && n <= |events| && forall i :: 0 <= i < |events| ==> FitsEvent(events[i])
    ensures var run := Arrivals(hash, events, clock);
            var kept := Kept(p, hash, After(p, run[..n]), events[n..], clock[n..]);
            (forall i :: 0 <= i < |kept| ==> FitsEvent(kept[i]))
            && Published(p, run, n) + Fingerprints(hash, kept) == Published(p, run, |run|)
    decreases |events| - n
  {
    hide Fingerprint, FitsEvent, After, Kept, Dropped, Fingerprints, Published;
    var run := Arrivals(hash, events, clock);
    KeptFits(p, hash, After(p, run[..n]), events[n..], clock[n..]);
    if n == |events| {
      EmptyKept(p, hash, After(p, run[..n]), events[n..], clock[n..]);
    } else {
      KeptFrom(p, hash, events, clock, n + 1);
      KeptStep(p, hash, events, clock, n);
      var rest := Kept(p, hash, After(p, run[..n + 1]), events[n + 1..], clock[n + 1..]);
      PublishedStep(p, run, n);
      if Dropped(p, run, n) {
        assert [] + rest == rest;
      } else {
        assert run[n].fp == Fingerprint(hash, events[n]);
        hide Arrivals;
        FingerprintsCons(hash, events[n], rest);
        JoinOne(Published(p, run, n), run[n].fp, Fingerprints(hash, rest));
      }
    }
  }

  lemma PublishedStep(p: Params, run: seq<Arrival>, n: nat)
    requires n < |run|
    ensures Published(p, run, n + 1) ==
            if Dropped(p, run, n) then Published(p, run, n) else Published(p, run, n) + [run[n].fp]
  {
    hide Dropped;
  }

  lemma JoinOne(a: seq<nat>, x: nat, b: seq<nat>)
    ensures a + [x] + b == a + ([x] + b)
  {
  }

  lemma EmptyKept(p: Params, hash: seq<Byte> -> U64, s: Memory, events: seq<Event>, clock: seq<nat>)
    requires |clock| == |events| == 0
    ensures Kept(p, hash, s, events, clock) == [] && Fingerprints(hash, []) == []
  {
  }

  /** With a filter that starts empty, the loop publishes what the run of its arrivals publishes. */
  lemma KeptIsPublished(p: Params, hash: seq<Byte> -> U64, events: seq<Event>, clock: seq<nat>)
    requires |clock| == |events| && forall i :: 0 <= i < |events| ==> FitsEvent(events[i])
    ensures var run := Arrivals(hash, events, clock);
            var kept := Kept(p, hash, INITIAL, events, clock);
            (forall i :: 0 <= i < |kept| ==> FitsEvent(kept[i]))
            && Fingerprints(hash, kept) == Published(p, run, |run|)
  {
    KeptFrom(p, hash, events, clock, 0);
    var run := Arrivals(hash, events, clock);
    assert run[..0] == [] && events[0..] == events && clock[0..] == clock;
  }

  lemma KeptAreArrived(p: Params, hash: seq<Byte> -> U64, s: Memory, events: seq<Event>, clock: seq<nat>)
    requires |clock| == |events| && forall i :: 0 <= i < |events| ==> FitsEvent(events[i])
    ensures forall e :: e in Kept(p, hash, s, events, clock) ==> e in events
    decreases |events|
  {
    hide Check, Fingerprint, FitsEvent;
    if events != [] {
      KeptAreArrived(p, hash, Check(p, s, Fingerprint(hash, events[0]), clock[0]).0, events[1..], clock[1..]);
    }
  }

  /**
   Failover, end to end: when the channel interleaves two copies of a stream of events with distinct fingerprints,
   copies arriving within the window less what the clock falls back, the forwarding loop publishes exactly that stream.
   */
  lemma ForwarderDeliversStream(p: Params, hash: seq<Byte> -> U64, stream: seq<Event>,
                                events: seq<Event>, clock: seq<nat>, primary: seq<bool>, slack: nat)
    requires |clock| == |events|
    requires (forall i :: 0 <= i < |events| ==> FitsEvent(events[i]))
        && (forall i :: 0 <= i < |stream| ==> FitsEvent(stream[i]))
    requires |primary| == |events| == 2 * |stream| && CountTrue(primary, |events|) == |stream|
    requires forall n :: 0 <= n < |events| ==>
               Position(primary, n) < |stream| && events[n] == stream[Position(primary, n)]
    requires Distinct(Fingerprints(hash, stream))
    requires Slack(Arrivals(hash, events, clock), slack)
    requires CopiesWithin(Arrivals(hash, events, clock), p.window - slack)
    ensures Kept(p, hash, INITIAL, events, clock) == stream
  {
    hide Kept, Fingerprint, FitsEvent, Published, Slack, CopiesWithin;
    var kept, run := Kept(p, hash, INITIAL, events, clock), Arrivals(hash, events, clock);
    KeptIsPublished(p, hash, events, clock);
    KeptAreArrived(p, hash, INITIAL, events, clock);
    FailoverExactlyOnce(p, Fingerprints(hash, stream), run, primary, slack);
    assert Fingerprints(hash, kept) == Fingerprints(hash, stream);
    forall i | 0 <= i < |kept| ensures kept[i] == stream[i] {
      SameFingerprint(hash, stream, events, primary, kept[i], i);
    }
  }

  lemma SameFingerprint(hash: seq<Byte> -> U64, stream: seq<Event>, events: seq<Event>, primary: seq<bool>,
                        e: Event, i: nat)
    requires |primary| == |events| && i < |stream| && e in events && FitsEvent(e)
    requires forall k :: 0 <= k < |stream| ==> FitsEvent(stream[k])
    requires forall n :: 0 <= n < |events| ==>
        Position(primary, n) < |stream| && events[n] == stream[Position(primary, n)]
    requires Distinct(Fingerprints(hash, stream)) && Fingerprint(hash, e) == Fingerprints(hash, stream)[i]
    ensures e == stream[i]
  {
    hide Fingerprint, FitsEvent, Position;
    var n :| 0 <= n < |events| && events[n] == e;
    var j := Position(primary, n);
    assert Fingerprints(hash, stream)[j] == Fingerprint(hash, e);
  }

  /** Drains one adapter's channel; `clock` holds the reading for each event. */
  method ForwardEvents(events: seq<Event>, clock: seq<nat>, bus: EventBus, stats: Stats.RuntimeStats,
                       dedup: DedupFilter?, name: string)
    requires |clock| == |events| && forall i :: 0 <= i < |events| ==> FitsEvent(events[i])
    modifies bus, stats, dedup
    ensures dedup == null ==> bus.published == old(bus.published) + events
    ensures dedup != null ==>
              bus.published == old(bus.published) + Kept(dedup.params, dedup.hash, old(dedup.Abs()), events, clock)
    ensures var forwarded := |bus.published| - |old(bus.published)|;
            stats.eventsTotal == old(stats.eventsTotal) + forwarded
            && stats.EventsOf(name) == old(stats.EventsOf(name)) + forwarded
            && stats.eventsDeduplicated == old(stats.eventsDeduplicated) + |events| - forwarded
  {
    hide Fingerprint, Check, FitsEvent;
    var count := 0;
    for i := 0 to |events|
      invariant |bus.published| == |old(bus.published)| + count
      invariant stats.eventsTotal == old(stats.eventsTotal) + count
      invariant stats.EventsOf(name) == old(stats.EventsOf(name)) + count
      invariant stats.eventsDeduplicated == old(stats.eventsDeduplicated) + i - count
      invariant dedup == null ==> bus.published == old(bus.published) + events[..i]
      invariant dedup != null ==>
                  bus.published + Kept(dedup.params, dedup.hash, dedup.Abs(), events[i..], clock[i..])
                  == old(bus.published) + Kept(dedup.params, dedup.hash, old(dedup.Abs()), events, clock)
    {
      assert events[i..][0] == events[i] && events[i..][1..] == events[i + 1..];
      assert clock[i..][0] == clock[i] && clock[i..][1..] == clock[i + 1..];
      if dedup != null {
        var dropped := dedup.IsDuplicate(events[i], clock[i]);
        if dropped {
          stats.RecordEventDeduplicated();
          continue;
        }
      }
      count := count + 1;
      stats.RecordEventFor(name);
      bus.Publish(events[i]);
    }
    assert events[..|events|] == events;
  }
}
