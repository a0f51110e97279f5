/** The time-windowed duplicate filter. Times are nanoseconds since the filter's start. */
module Dedup {
  import opened Wrappers
  import opened JsonTree
  import opened Event
  import opened HashFeed

  const SECOND: nat := 1_000_000_000
  const WORD: nat := 0x1_0000_0000_0000_0000

  /** The window, and the least time between two sweeps. */
  datatype Params = Params(window: nat, interval: nat)

  function NewParams(windowSecs: nat): (p: Params)
    ensures p.interval >= p.window
  {
    Params(windowSecs * SECOND, (if windowSecs < 10 then 10 else windowSecs) * SECOND)
  }

  /** What the filter remembers: when each fingerprint was let through, and when it last swept (a 64-bit word). */
  datatype Memory = Memory(seen: map<nat, nat>, lastEviction: nat)

  const INITIAL := Memory(map[], 0)

  /** `Instant::duration_since`, which is zero when the clock reading is the earlier one. */
  function Since(now: nat, t: nat): nat {
    if now < t then 0 else now - t
  }

  function Young(p: Params, seen: map<nat, nat>, now: nat): map<nat, nat> {
    map fp | fp in seen && Since(now, seen[fp]) < p.window :: seen[fp]
  }

  function MaybeEvict(p: Params, s: Memory, now: nat): Memory {
    if Since(now % WORD, s.lastEviction) < p.interval % WORD then s
    else Memory(Young(p, s.seen, now), now % WORD)
  }

  /** One critical section: the new memory, and whether the event is dropped. */
  function Check(p: Params, s: Memory, fp: nat, now: nat): (Memory, bool) {
    if fp in s.seen && Since(now, s.seen[fp]) < p.window then (s, true)
    else (MaybeEvict(p, s.(seen := s.seen[fp := now]), now), false)
  }

  /** An event as the lock orders it: its fingerprint and the clock reading taken before the lock. */
  datatype Arrival = Arrival(fp: nat, now: nat)

  // ----- Runs -----

  function After(p: Params, run: seq<Arrival>): Memory {
    if run == [] then INITIAL
    else Check(p, After(p, run[..|run| - 1]), run[|run| - 1].fp, run[|run| - 1].now).0
  }

  predicate Dropped(p: Params, run: seq<Arrival>, i: nat)
    requires i < |run|
  {
    Check(p, After(p, run[..i]), run[i].fp, run[i].now).1
  }

  lemma AfterStep(p: Params, run: seq<Arrival>, n: nat)
    requires n < |run|
    ensures After(p, run[..n + 1]) == Check(p, After(p, run[..n]), run[n].fp, run[n].now).0
  {
    assert run[..n + 1][..n] == run[..n];
  }

  /** Clock readings fall back by at most `slack` from any earlier one. */
  ghost predicate Slack(run: seq<Arrival>, slack: nat) {
    forall i, j :: 0 <= i < j < |run| ==> run[i].now <= run[j].now + slack
  }

  ghost predicate Monotone(run: seq<Arrival>) {
    Slack(run, 0)
  }

  // ----- The filter that never sweeps -----

  function CheckKeep(p: Params, seen: map<nat, nat>, fp: nat, now: nat): (map<nat, nat>, bool) {
    if fp in seen && Since(now, seen[fp]) < p.window then (seen, true) else (seen[fp := now], false)
  }

  function AfterKeep(p: Params, run: seq<Arrival>): map<nat, nat> {
    if run == [] then map[]
    else CheckKeep(p, AfterKeep(p, run[..|run| - 1]), run[|run| - 1].fp, run[|run| - 1].now).0
  }

  predicate DroppedKeep(p: Params, run: seq<Arrival>, i: nat)
    requires i < |run|
  {
    CheckKeep(p, AfterKeep(p, run[..i]), run[i].fp, run[i].now).1
  }

  /** The swept memory is the kept memory without entries that are a window old by now. */
  ghost predicate Agrees(p: Params, lazy: map<nat, nat>, keep: map<nat, nat>, now: nat) {
    (forall fp :: fp in lazy ==> fp in keep && lazy[fp] == keep[fp])
    && (forall fp :: fp in keep && fp !in lazy ==> Since(now, keep[fp]) >= p.window)
  }

  lemma AgreesStep(p: Params, s: Memory, keep: map<nat, nat>, before: nat, fp: nat, now: nat)
    requires Agrees(p, s.seen, keep, before) && before <= now
    ensures Check(p, s, fp, now).1 == CheckKeep(p, keep, fp, now).1
    ensures Agrees(p, Check(p, s, fp, now).0.seen, CheckKeep(p, keep, fp, now).0, now)
  {
    assert Agrees(p, s.seen, keep, now);
    if !Check(p, s, fp, now).1 {
      EvictAgrees(p, s.(seen := s.seen[fp := now]), keep[fp := now], now);
    }
  }

  lemma EvictAgrees(p: Params, s: Memory, keep: map<nat, nat>, now: nat)
    requires Agrees(p, s.seen, keep, now)
    ensures Agrees(p, MaybeEvict(p, s, now).seen, keep, now)
  {
  }

  lemma {:induction false} AgreesAfter(p: Params, run: seq<Arrival>, n: nat)
    requires n <= |run| && Monotone(run)
    ensures Agrees(p, After(p, run[..n]).seen, AfterKeep(p, run[..n]), if n == 0 then 0 else run[n - 1].now)
  {
    if n == 0 {
    } else {
      AgreesAfter(p, run, n - 1);
      AfterStep(p, run, n - 1);
      assert run[..n][..n - 1] == run[..n - 1];
      AgreesStep(p, After(p, run[..n - 1]), AfterKeep(p, run[..n - 1]),
                 if n == 1 then 0 else run[n - 2].now, run[n - 1].fp, run[n - 1].now);
    }
  }

  /** With a monotone clock, sweeping is invisible: every answer of every run is the never-sweeping filter's. */
  lemma SweepingIsInvisible(p: Params, run: seq<Arrival>, i: nat)
    requires i < |run| && Monotone(run)
    ensures Dropped(p, run, i) == DroppedKeep(p, run, i)
  {
    AgreesAfter(p, run, i);
    AgreesStep(p, After(p, run[..i]), AfterKeep(p, run[..i]),
               if i == 0 then 0 else run[i - 1].now, run[i].fp, run[i].now);
  }

  // ----- What the memory says about earlier passes -----

  /** Event `i` passed, and no event with its fingerprint has passed since, up to `n`. */
  ghost predicate LatestPass(p: Params, run: seq<Arrival>, i: nat, n: nat)
    requires n <= |run|
  {
    i < n && !Dropped(p, run, i) && forall k :: i < k < n && run[k].fp == run[i].fp ==> Dropped(p, run, k)
  }

  /** One check only forgets what is a window old, and changes no entry but the one that passes. */
  lemma CheckFrame(p: Params, s: Memory, fp: nat, now: nat, g: nat)
    requires g in s.seen && (g != fp || Check(p, s, fp, now).1)
    ensures var seen := Check(p, s, fp, now).0.seen;
            if g in seen then seen[g] == s.seen[g] else Since(now, s.seen[g]) >= p.window
  {
  }

  lemma CheckAdds(p: Params, s: Memory, fp: nat, now: nat, g: nat)
    requires g in Check(p, s, fp, now).0.seen
    ensures (g in s.seen && Check(p, s, fp, now).0.seen[g] == s.seen[g])
            || (g == fp && !Check(p, s, fp, now).1 && Check(p, s, fp, now).0.seen[g] == now)
  {
  }

  lemma CheckRecords(p: Params, s: Memory, fp: nat, now: nat)
    requires !Check(p, s, fp, now).1
    ensures var seen := Check(p, s, fp, now).0.seen;
            if fp in seen then seen[fp] == now else p.window == 0
  {
  }

  /** A latest pass is still remembered, or some reading since was a full window later. */
  lemma {:induction false} LatestPassRemembered(p: Params, run: seq<Arrival>, i: nat, n: nat) returns (m: nat)
    requires n <= |run| && LatestPass(p, run, i, n)
    ensures var seen, fp := After(p, run[..n]).seen, run[i].fp;
            if fp in seen then seen[fp] == run[i].now
            else i <= m < n && Since(run[m].now, run[i].now) >= p.window
  {
    hide Check, After;
    AfterStep(p, run, n - 1);
    var before, fp, last := After(p, run[..n - 1]), run[i].fp, run[n - 1];
    if i == n - 1 {
      CheckRecords(p, before, fp, last.now);
      m := i;
    } else {
      assert LatestPass(p, run, i, n - 1);
      m := LatestPassRemembered(p, run, i, n - 1);
      assert last.fp == fp ==> Dropped(p, run, n - 1);
      if fp in before.seen {
        CheckFrame(p, before, last.fp, last.now, fp);
        m := n - 1;
      } else if fp in After(p, run[..n]).seen {
        CheckAdds(p, before, last.fp, last.now, fp);
        assert false;
      }
    }
  }

  /** Whatever is remembered was let through at that time. */
  lemma {:induction false} RememberedPassed(p: Params, run: seq<Arrival>, n: nat, fp: nat) returns (i: nat)
    requires n <= |run| && fp in After(p, run[..n]).seen
    ensures i < n && run[i] == Arrival(fp, After(p, run[..n]).seen[fp]) && !Dropped(p, run, i)
  {
    hide Check;
    assert n > 0;
    hide After;
    AfterStep(p, run, n - 1);
    var before := After(p, run[..n - 1]);
    CheckAdds(p, before, run[n - 1].fp, run[n - 1].now, fp);
    if fp in before.seen && After(p, run[..n]).seen[fp] == before.seen[fp] {
      i := RememberedPassed(p, run, n - 1, fp);
    } else {
      i := n - 1;
    }
  }

  /** The latest pass of a fingerprint that has passed at all. */
  lemma {:induction false} LatestPassExists(p: Params, run: seq<Arrival>, i: nat, n: nat) returns (l: nat)
    requires n <= |run| && i < n && !Dropped(p, run, i)
    ensures i <= l && LatestPass(p, run, l, n) && run[l].fp == run[i].fp
    decreases n - i
  {
    if k :| i < k < n && run[k].fp == run[i].fp && !Dropped(p, run, k) {
      l := LatestPassExists(p, run, k, n);
    } else {
      l := i;
    }
  }

  /**
   Two passes of one fingerprint with none between them are at least a window apart,
   less the most the clock readings fall back.
   */
  lemma PassesAreApart(p: Params, run: seq<Arrival>, slack: nat, i: nat, j: nat)
    requires j < |run| && Slack(run, slack)
    requires LatestPass(p, run, i, j) && !Dropped(p, run, j) && run[i].fp == run[j].fp
    ensures run[j].now + slack >= run[i].now + p.window
  {
    var m := LatestPassRemembered(p, run, i, j);
    assert m < j ==> run[m].now <= run[j].now + slack;
  }

  /** The bound is met exactly, for every window: a sweep at one reading, then a reading that has fallen back. */
  lemma PassesApartTight(windowSecs: nat, slack: nat, a: nat, b: nat) returns (run: seq<Arrival>)
    requires slack <= NewParams(windowSecs).interval && a != b
    ensures var p := NewParams(windowSecs);
            Slack(run, slack) && Successive(p, run, 0, 2) && run[2].now + slack == run[0].now + p.window
  {
    var p := NewParams(windowSecs);
    var first, sweep := p.interval - p.window, p.interval;
    run := [Arrival(a, first), Arrival(b, sweep), Arrival(a, sweep - slack)];
    FirstOfThree(p, run);
    AfterStep(p, run, 1);
    hide After;
    assert windowSecs < 10 ==> sweep % WORD == sweep;
    assert windowSecs >= 10 ==> first == 0;
    SweptAway(p, After(p, run[..1]), a, b, first, sweep);
  }

  lemma FirstOfThree(p: Params, run: seq<Arrival>)
    requires |run| > 0
    ensures !Dropped(p, run, 0)
    ensures After(p, run[..1]) == MaybeEvict(p, Memory(map[run[0].fp := run[0].now], 0), run[0].now)
  {
    assert run[..0] == [];
    AfterStep(p, run, 0);
  }

  /** The second check sweeps the first entry away: it is a window old by then. */
  lemma SweptAway(p: Params, s: Memory, a: nat, b: nat, first: nat, sweep: nat)
    requires a != b && p.interval == sweep == first + p.window
    requires s == MaybeEvict(p, Memory(map[a := first], 0), first)
    requires first == 0 || sweep % WORD == sweep
    ensures !Check(p, s, b, sweep).1 && a !in Check(p, s, b, sweep).0.seen
  {
  }

  /** Event `j` passed, and the last pass of its fingerprint before that was event `i`. */
  ghost predicate Successive(p: Params, run: seq<Arrival>, i: nat, j: nat) {
    j < |run| && LatestPass(p, run, i, j) && !Dropped(p, run, j) && run[i].fp == run[j].fp
  }

  /** In every run whose readings fall back by at most `slack`, successive passes are a full window apart. */
  ghost predicate FullWindow(p: Params, slack: nat) {
    forall run: seq<Arrival>, i: nat, j: nat :: Slack(run, slack) && Successive(p, run, i, j) ==>
        run[j].now >= run[i].now + p.window
  }

  /** Any filter with a window keeps it in full exactly when the readings never fall back. */
  lemma FullWindowIff(windowSecs: nat, slack: nat)
    requires windowSecs > 0
    ensures FullWindow(NewParams(windowSecs), slack) <==> slack == 0
  {
    var p := NewParams(windowSecs);
    if slack == 0 {
      forall run: seq<Arrival>, i: nat, j: nat | Slack(run, slack) && Successive(p, run, i, j)
        ensures run[j].now >= run[i].now + p.window
      {
        PassesAreApart(p, run, slack, i, j);
      }
    } else {
      var run := PassesApartTight(windowSecs, 1, 0, 1);
      assert Slack(run, slack) && Successive(p, run, 0, 2);
    }
  }

  /** With a monotone clock, an event is dropped exactly when its fingerprint passed less than a window ago. */
  lemma DroppedMeaning(p: Params, run: seq<Arrival>, n: nat)
    requires n < |run| && Monotone(run)
    ensures Dropped(p, run, n) <==>
            exists i :: 0 <= i < n && run[i].fp == run[n].fp && !Dropped(p, run, i)
                && run[n].now - run[i].now < p.window
  {
    var fp := run[n].fp;
    if Dropped(p, run, n) {
      var i := RememberedPassed(p, run, n, fp);
      assert run[i].now <= run[n].now + 0;
    }
    if i :| 0 <= i < n && run[i].fp == fp && !Dropped(p, run, i) && run[n].now - run[i].now < p.window {
      var l := LatestPassExists(p, run, i, n);
      assert i < l ==> run[i].now <= run[l].now + 0;
      assert run[l].now <= run[n].now + 0;
      var m := LatestPassRemembered(p, run, l, n);
      assert m < n ==> run[m].now <= run[n].now + 0;
    }
  }

  // ----- How much is remembered -----

  /** Every entry is younger than a window, measured at the last sweep. */
  ghost predicate Swept(p: Params, s: Memory) {
    forall fp :: fp in s.seen ==> s.seen[fp] >= s.lastEviction || s.lastEviction - s.seen[fp] < p.window
  }

  ghost predicate ClockFits(run: seq<Arrival>) {
    forall i :: 0 <= i < |run| ==> run[i].now < WORD
  }

  lemma CheckSwept(p: Params, s: Memory, fp: nat, now: nat)
    requires Swept(p, s) && s.lastEviction <= now < WORD
    ensures var s' := Check(p, s, fp, now).0;
            Swept(p, s') && s'.lastEviction <= now
    ensures var (s', dropped) := Check(p, s, fp, now);
            !dropped && p.interval > 0 ==>
              forall g :: g in s'.seen ==> now - s'.seen[g] < p.window + p.interval
  {
    assert now % WORD == now && p.interval % WORD <= p.interval;
  }

  lemma {:induction false} AfterIsSwept(p: Params, run: seq<Arrival>, n: nat)
    requires n <= |run| && Monotone(run) && ClockFits(run)
    ensures Swept(p, After(p, run[..n]))
    ensures n > 0 ==> After(p, run[..n]).lastEviction <= run[n - 1].now
    ensures n == 0 ==> After(p, run[..n]) == INITIAL
  {
    hide Check;
    if n == 0 {
    } else {
      AfterIsSwept(p, run, n - 1);
      AfterStep(p, run, n - 1);
      assert n > 1 ==> run[n - 2].now <= run[n - 1].now + 0;
      CheckSwept(p, After(p, run[..n - 1]), run[n - 1].fp, run[n - 1].now);
    }
  }

  /** Right after an event passes, everything remembered is younger than a window and a sweep interval. */
  lemma RetainedIsYoung(p: Params, run: seq<Arrival>, n: nat, fp: nat)
    requires n < |run| && Monotone(run) && ClockFits(run) && !Dropped(p, run, n)
    requires p.interval > 0
    requires fp in After(p, run[..n + 1]).seen
    ensures run[n].now - After(p, run[..n + 1]).seen[fp] < p.window + p.interval
  {
    hide Check, After;
    AfterIsSwept(p, run, n);
    AfterStep(p, run, n);
    assert n > 0 ==> run[n - 1].now <= run[n].now + 0;
    CheckSwept(p, After(p, run[..n]), run[n].fp, run[n].now);
  }

  /** The fingerprints let through in the last `span`, up to and including event `n`. */
  ghost function RecentlyPassed(p: Params, run: seq<Arrival>, n: nat, span: nat): set<nat>
    requires n < |run|
  {
    set i | 0 <= i <= n && !Dropped(p, run, i) && run[n].now - run[i].now < span :: run[i].fp
  }

  /** So the map holds no more entries than fingerprints that passed in that span. */
  lemma RetainedIsBounded(p: Params, run: seq<Arrival>, n: nat)
    requires n < |run| && Monotone(run) && ClockFits(run) && !Dropped(p, run, n) && p.interval > 0
    ensures |After(p, run[..n + 1]).seen| <= |RecentlyPassed(p, run, n, p.window + p.interval)|
  {
    var seen := After(p, run[..n + 1]).seen;
    forall fp | fp in seen.Keys
      ensures fp in RecentlyPassed(p, run, n, p.window + p.interval)
    {
      var i := RememberedPassed(p, run, n + 1, fp);
      RetainedIsYoung(p, run, n, fp);
    }
    SubsetSize(seen.Keys, RecentlyPassed(p, run, n, p.window + p.interval));
  }

  lemma {:induction false} SubsetSize(a: set<nat>, b: set<nat>)
    requires a <= b
    ensures |a| <= |b|
  {
    if a == {} {
    } else {
      var x :| x in a;
      SubsetSize(a - {x}, b - {x});
    }
  }

  // ----- The filter a gateway configures -----

  /** A filter made for `w` seconds drops an event exactly when its fingerprint passed less than `w` seconds before. */
  lemma ConfiguredWindow(w: nat, run: seq<Arrival>, n: nat)
    requires n < |run| && Monotone(run)
    ensures Dropped(NewParams(w), run, n) <==>
            exists i :: 0 <= i < n && run[i].fp == run[n].fp && !Dropped(NewParams(w), run, i)
                && run[n].now - run[i].now < w * 1_000_000_000
  {
    DroppedMeaning(NewParams(w), run, n);
  }

  /** It remembers nothing older than its window and the longer of its window and ten seconds. */
  lemma ConfiguredMemory(w: nat, run: seq<Arrival>, n: nat, fp: nat)
    requires n < |run| && Monotone(run) && ClockFits(run) && !Dropped(NewParams(w), run, n)
    requires fp in After(NewParams(w), run[..n + 1]).seen
    ensures run[n].now - After(NewParams(w), run[..n + 1]).seen[fp]
         < (w + if w < 10 then 10 else w) * 1_000_000_000
  {
    RetainedIsYoung(NewParams(w), run, n, fp);
  }

  // ----- The filter object -----

  class DedupFilter {
    const params: Params
    const hash: seq<Byte> -> U64
    var seen: map<nat, nat>
    var duplicates: nat
    var checked: nat
    var lastEviction: nat

    function Abs(): Memory
      reads this
    {
      Memory(seen, lastEviction)
    }

    constructor (windowSecs: nat, hash: seq<Byte> -> U64)
      ensures Abs() == INITIAL && duplicates == checked == 0
      ensures params == NewParams(windowSecs) && this.hash == hash
    {
      params, this.hash := NewParams(windowSecs), hash;
      seen, duplicates, checked, lastEviction := map[], 0, 0, 0;
    }

    /** True when the event is to be dropped. */
    method IsDuplicate(event: Event, now: nat) returns (dropped: bool)
      requires FitsEvent(event)
      modifies this
      ensures (Abs(), dropped) == Check(params, old(Abs()), Fingerprint(hash, event), now)
      ensures checked == old(checked) + 1
      ensures duplicates == old(duplicates) + if dropped then 1 else 0
    {
      checked := checked + 1;
      var fp := Fingerprint(hash, event);
      if fp in seen {
        if Since(now, seen[fp]) < params.window {
          duplicates := duplicates + 1;
          return true;
        }
        seen := seen[fp := now];
      } else {
        seen := seen[fp := now];
      }
      Evict(now);
      dropped := false;
    }

    method Evict(now: nat)
      modifies this`seen, this`lastEviction
      ensures Abs() == MaybeEvict(params, old(Abs()), now)
    {
      var nowNs := now % WORD;
      var intervalNs := params.interval % WORD;
      if Since(nowNs, lastEviction) < intervalNs {
        return;
      }
      lastEviction := nowNs;
      seen := map fp | fp in seen && Since(now, seen[fp]) < params.window :: seen[fp];
    }
  }
}
