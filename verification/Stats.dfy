/** Event counters under any interleaving of forwarders, one atomic update at a time. */
module Stats {
  import opened Runs

  /**
   Where a forwarder is between two counter updates: waiting for an event; inside the filter, its check counted;
   told the event is new; the total counted; the adapter's own count done; told the event is a duplicate.
   */
  datatype Phase = Idle | Checking | Passing | TotalCounted | AdapterCounted | Suppressing

  datatype Forwarder = Forwarder(name: string, phase: Phase)

  datatype State = State(
    checked: nat, filterDuplicates: nat, eventsTotal: nat, eventsDeduplicated: nat, published: nat,
    perAdapter: map<string, nat>, forwarders: map<nat, Forwarder>)

  const INITIAL := State(0, 0, 0, 0, 0, map[], map[])

  /**
   A forwarder starts, ends (only while waiting), receives an event, gets the filter's answer,
   or does its next update.
   */
  datatype Step =
    | Spawn(id: nat, name: string) | Abort(id: nat)
    | Receive(id: nat) | Answer(id: nat, dropped: bool) | Proceed(id: nat)

  predicate Has(s: State, id: nat, ph: Phase) {
    id in s.forwarders && s.forwarders[id].phase == ph
  }

  predicate Enabled(s: State, step: Step) {
    match step
    case Spawn(id, _) => id !in s.forwarders
    case Abort(id) => Has(s, id, Idle)
    case Receive(id) => Has(s, id, Idle)
    case Answer(id, _) => Has(s, id, Checking)
    case Proceed(id) => id in s.forwarders && !Has(s, id, Idle) && !Has(s, id, Checking)
  }

  function Move(s: State, id: nat, ph: Phase): State
    requires id in s.forwarders
  {
    s.(forwarders := s.forwarders[id := s.forwarders[id].(phase := ph)])
  }

  function Get(m: map<string, nat>, name: string): nat {
    if name in m then m[name] else 0
  }

  function Next(s: State, step: Step): State
    requires Enabled(s, step)
  {
    match step
    case Spawn(id, name) => s.(forwarders := s.forwarders[id := Forwarder(name, Idle)])
    case Abort(id) => s.(forwarders := s.forwarders - {id})
    case Receive(id) => Move(s, id, Checking).(checked := s.checked + 1)
    case Answer(id, dropped) =>
      if dropped then Move(s, id, Suppressing).(filterDuplicates := s.filterDuplicates + 1)
      else Move(s, id, Passing)
    case Proceed(id) =>
      var name := s.forwarders[id].name;
      match s.forwarders[id].phase
      case Suppressing => Move(s, id, Idle).(eventsDeduplicated := s.eventsDeduplicated + 1)
      case Passing => Move(s, id, TotalCounted).(eventsTotal := s.eventsTotal + 1)
      case TotalCounted => Move(s, id, AdapterCounted).(perAdapter := s.perAdapter[name := Get(s.perAdapter, name) + 1])
      case AdapterCounted => Move(s, id, Idle).(published := s.published + 1)
  }

  ghost predicate IsRun(states: seq<State>, steps: seq<Step>) {
    |states| == |steps| + 1 && states[0] == INITIAL
    && forall i :: 0 <= i < |steps| ==> Enabled(states[i], steps[i]) && states[i + 1] == Next(states[i], steps[i])
  }

  // ----- Sums and counts -----

  ghost function Sum(m: map<string, nat>): nat {
    if m == map[] then 0
    else
      var k :| k in m;
      m[k] + Sum(m - {k})
  }

  lemma {:induction false} SumWithout(m: map<string, nat>, k: string)
    requires k in m
    ensures Sum(m) == m[k] + Sum(m - {k})
    decreases m
  {
    var j :| j in m && Sum(m) == m[j] + Sum(m - {j});
    if j != k {
      SumWithout(m - {j}, k);
      SumWithout(m - {k}, j);
      assert m - {j} - {k} == m - {k} - {j};
    }
  }

  lemma SumIncrement(m: map<string, nat>, k: string)
    ensures Sum(m[k := Get(m, k) + 1]) == Sum(m) + 1
  {
    var m' := m[k := Get(m, k) + 1];
    SumWithout(m', k);
    if k in m {
      SumWithout(m, k);
      assert m' - {k} == m - {k};
    } else {
      assert m' - {k} == m;
    }
  }

  ghost function InPhase(fs: map<nat, Forwarder>, ph: Phase): set<nat> {
    set id | id in fs && fs[id].phase == ph
  }

  ghost function InFlight(s: State, ph: Phase): nat {
    |InPhase(s.forwarders, ph)|
  }

  /** Moving one forwarder changes two counts by one. */
  lemma MoveCounts(s: State, id: nat, ph: Phase, q: Phase)
    requires id in s.forwarders && s.forwarders[id].phase != ph
    ensures InFlight(Move(s, id, ph), q) ==
            InFlight(s, q) + (if q == ph then 1 else 0) - (if q == s.forwarders[id].phase then 1 else 0)
  {
    var a, b := InPhase(s.forwarders, q), InPhase(Move(s, id, ph).forwarders, q);
    MovePhases(s, id, ph, q);
    hide InPhase, Move;
    OneMoved(a, b, id);
  }

  lemma MovePhases(s: State, id: nat, ph: Phase, q: Phase)
    requires id in s.forwarders
    ensures var (a, b) := (InPhase(s.forwarders, q), InPhase(Move(s, id, ph).forwarders, q));
            (forall x :: x != id ==> (x in a <==> x in b))
            && (id in a <==> q == s.forwarders[id].phase) && (id in b <==> q == ph)
  {
  }

  // ----- The books balance -----

  /** Every counter is accounted for by the others and the updates in flight. */
  ghost predicate Balanced(s: State) {
    s.eventsTotal == Sum(s.perAdapter) + InFlight(s, TotalCounted)
    && s.eventsTotal == s.published + InFlight(s, TotalCounted) + InFlight(s, AdapterCounted)
    && s.filterDuplicates == s.eventsDeduplicated + InFlight(s, Suppressing)
    && s.checked == s.eventsTotal + s.eventsDeduplicated + InFlight(s, Checking) + InFlight(s, Passing)
        + InFlight(s, Suppressing)
  }

  lemma StepBalances(s: State, step: Step)
    requires Balanced(s) && Enabled(s, step)
    ensures Balanced(Next(s, step))
  {
    hide Sum, InFlight;
    match step
    case Spawn(id, name) => SameCounts(s, Next(s, step));
    case Abort(id) => SameCounts(s, Next(s, step));
    case Receive(id) =>
      AllCounts(s, id, Checking);
      SameForwarders(Move(s, id, Checking), Next(s, step));
    case Answer(id, dropped) =>
      AllCounts(s, id, if dropped then Suppressing else Passing);
      SameForwarders(Move(s, id, if dropped then Suppressing else Passing), Next(s, step));
    case Proceed(id) => ProceedBalances(s, id);
  }

  lemma ProceedBalances(s: State, id: nat)
    requires Balanced(s) && Enabled(s, Proceed(id))
    ensures Balanced(Next(s, Proceed(id)))
  {
    hide Sum, InFlight;
    var ph := s.forwarders[id].phase;
    var next := if ph == Passing then TotalCounted else if ph == TotalCounted then AdapterCounted else Idle;
    AllCounts(s, id, next);
    SumIncrement(s.perAdapter, s.forwarders[id].name);
    SameForwarders(Move(s, id, next), Next(s, Proceed(id)));
  }

  lemma SameForwarders(s: State, t: State)
    requires s.forwarders == t.forwarders
    ensures forall q :: InFlight(s, q) == InFlight(t, q)
  {
  }

  lemma AllCounts(s: State, id: nat, ph: Phase)
    requires id in s.forwarders && s.forwarders[id].phase != ph
    ensures forall q ::
              InFlight(Move(s, id, ph), q)
              == InFlight(s, q) + (if q == ph then 1 else 0) - (if q == s.forwarders[id].phase then 1 else 0)
  {
    hide InFlight;
    forall q { MoveCounts(s, id, ph, q); }
  }

  lemma SameCounts(s: State, t: State)
    requires forall id, q :: q != Idle ==> (Has(s, id, q) <==> Has(t, id, q))
    ensures forall q :: q != Idle ==> InFlight(s, q) == InFlight(t, q)
  {
    forall q | q != Idle ensures InFlight(s, q) == InFlight(t, q) {
      assert forall id :: id in InPhase(s.forwarders, q) <==> Has(s, id, q);
      assert forall id :: id in InPhase(t.forwarders, q) <==> Has(t, id, q);
      assert InPhase(s.forwarders, q) == InPhase(t.forwarders, q);
    }
  }

  lemma {:induction false} AlwaysBalanced(states: seq<State>, steps: seq<Step>, i: nat)
    requires IsRun(states, steps) && i < |states|
    ensures Balanced(states[i])
  {
    if i == 0 {
      assert forall q :: InPhase(INITIAL.forwarders, q) == {};
    } else {
      AlwaysBalanced(states, steps, i - 1);
      StepBalances(states[i - 1], steps[i - 1]);
    }
  }

  /** When no forwarder is in the middle of an event, the totals agree exactly. */
  lemma BooksAgreeAtRest(states: seq<State>, steps: seq<Step>, i: nat)
    requires IsRun(states, steps) && i < |states|
    requires forall id :: id in states[i].forwarders ==> states[i].forwarders[id].phase == Idle
    ensures var s := states[i];
            s.eventsTotal == Sum(s.perAdapter) == s.published
            && s.checked == s.eventsTotal + s.eventsDeduplicated
            && s.filterDuplicates == s.eventsDeduplicated
  {
    AlwaysBalanced(states, steps, i);
    assert forall q :: q != Idle ==> InPhase(states[i].forwarders, q) == {};
  }

  // ----- What the steps so far say about the counters -----

  function Receives(): Step -> bool {
    (step: Step) => step.Receive?
  }

  function Drops(): Step -> bool {
    (step: Step) => step.Answer? && step.dropped
  }

  /** The places where a forwarder called `name` is told that its event is new. */
  function NewEvents(states: seq<State>, steps: seq<Step>, name: string): nat -> bool {
    (k: nat) => k < |steps| && k < |states| && steps[k].Answer? && !steps[k].dropped
                && steps[k].id in states[k].forwarders && states[k].forwarders[steps[k].id].name == name
  }

  /** The places where one does the update that comes last before its adapter's own count has been made. */
  function OwnCounts(states: seq<State>, steps: seq<Step>, name: string): nat -> bool {
    (k: nat) => k < |steps| && k < |states| && steps[k].Proceed? && Has(states[k], steps[k].id, TotalCounted)
                && states[k].forwarders[steps[k].id].name == name
  }

  /** What each step does to the filter's counters and to one adapter's count. */
  lemma CounterStep(s: State, step: Step, name: string)
    requires Enabled(s, step)
    ensures var t := Next(s, step);
            t.checked == s.checked + (if step.Receive? then 1 else 0)
            && t.filterDuplicates == s.filterDuplicates + (if Drops()(step) then 1 else 0)
            && Get(t.perAdapter, name) ==
               Get(s.perAdapter, name)
               + if step.Proceed? && Has(s, step.id, TotalCounted) && s.forwarders[step.id].name == name then 1 else 0
  {
  }

  /** The filter's counters are the events received and the duplicates it found. */
  lemma FilterCounts(states: seq<State>, steps: seq<Step>, i: nat)
    requires IsRun(states, steps) && i < |states|
    ensures states[i].checked == Count(Where(steps, Receives()), i)
    ensures states[i].filterDuplicates == Count(Where(steps, Drops()), i)
  {
    hide Next, Enabled, Drops, Count;
    forall k: nat | k < i { CounterStep(states[k], steps[k], ""); }
    CountHolds((k: nat) => if k < |states| then states[k].checked else 0, Where(steps, Receives()), i);
    CountHolds((k: nat) => if k < |states| then states[k].filterDuplicates else 0, Where(steps, Drops()), i);
  }

  /** An adapter's own count is the number of its own events counted, and of no other adapter's. */
  lemma OwnCount(states: seq<State>, steps: seq<Step>, i: nat, name: string)
    requires IsRun(states, steps) && i < |states|
    ensures Get(states[i].perAdapter, name) == Count(OwnCounts(states, steps, name), i)
  {
    hide Next, Enabled, Has, Count;
    forall k: nat | k < i { CounterStep(states[k], steps[k], name); }
    CountHolds((k: nat) => if k < |states| then Get(states[k].perAdapter, name) else 0,
               OwnCounts(states, steps, name), i);
  }

  /** The forwarders called `name` that know their event is new and have not yet counted it for their adapter. */
  ghost function Owing(s: State, name: string): set<nat> {
    set id | id in s.forwarders && s.forwarders[id].name == name
             && (s.forwarders[id].phase == Passing || s.forwarders[id].phase == TotalCounted)
  }

  /** Each new event of an adapter is in its own count, or on its way there. */
  lemma {:induction false} OwnEvents(states: seq<State>, steps: seq<Step>, i: nat, name: string)
    requires IsRun(states, steps) && i < |states|
    ensures Get(states[i].perAdapter, name) + |Owing(states[i], name)| == Count(NewEvents(states, steps, name), i)
  {
    hide Next, Enabled, Owing;
    if i == 0 {
      NobodyOwes(name);
    } else {
      OwnEvents(states, steps, i - 1, name);
      OwingStep(states[i - 1], steps[i - 1], name);
      CounterStep(states[i - 1], steps[i - 1], name);
    }
  }

  lemma NobodyOwes(name: string)
    ensures Owing(INITIAL, name) == {} && Get(INITIAL.perAdapter, name) == 0
  {
  }

  lemma OwingStep(s: State, step: Step, name: string)
    requires Enabled(s, step)
    ensures |Owing(Next(s, step), name)| ==
            |Owing(s, name)|
            + (if step.Answer? && !step.dropped && s.forwarders[step.id].name == name then 1 else 0)
            - (if step.Proceed? && Has(s, step.id, TotalCounted) && s.forwarders[step.id].name == name then 1 else 0)
    ensures step.Answer? ==> step.id in s.forwarders
  {
    var a, b := Owing(s, name), Owing(Next(s, step), name);
    OwingMoves(s, step, name);
    hide Next, Enabled, Owing, Has;
    OneMoved(a, b, step.id);
  }

  /** Two sets that differ in at most one place. */
  lemma OneMoved(a: set<nat>, b: set<nat>, x: nat)
    requires forall y :: y != x ==> (y in a <==> y in b)
    ensures |b| == |a| + (if x in b && x !in a then 1 else 0) - (if x in a && x !in b then 1 else 0)
  {
    if x in b && x !in a {
      assert b == a + {x};
    } else if x in a && x !in b {
      assert a == b + {x};
    } else {
      assert a == b;
    }
  }

  lemma OwingMoves(s: State, step: Step, name: string)
    requires Enabled(s, step)
    ensures var (a, b) := (Owing(s, name), Owing(Next(s, step), name));
            (forall x :: x != step.id ==> (x in a <==> x in b))
            && (step.id in b && step.id !in a <==>
                  step.Answer? && !step.dropped && s.forwarders[step.id].name == name)
            && (step.id in a && step.id !in b <==>
                  step.Proceed? && Has(s, step.id, TotalCounted) && s.forwarders[step.id].name == name)
  {
  }

  /** The phase a forwarder's own next update takes it to; everyone else's steps leave it where it is. */
  lemma PhaseStep(s: State, step: Step, id: nat)
    requires Enabled(s, step)
    ensures var t := Next(s, step);
            (Has(t, id, Checking) <==>
                step == Receive(id) || (Has(s, id, Checking) && !(step.Answer? && step.id == id)))
            && (Has(t, id, Passing) <==> step == Answer(id, false) || (Has(s, id, Passing) && step != Proceed(id)))
            && (Has(t, id, Suppressing) <==>
                step == Answer(id, true) || (Has(s, id, Suppressing) && step != Proceed(id)))
            && (step == Proceed(id) && Has(s, id, Passing) ==> Has(t, id, TotalCounted))
            && (step == Proceed(id) && Has(s, id, TotalCounted) ==> Has(t, id, AdapterCounted))
            && (step == Proceed(id) && (Has(s, id, AdapterCounted) || Has(s, id, Suppressing)) ==> Has(t, id, Idle))
  {
  }

  /** No forwarder is stuck: whatever it is doing, its next step is possible. */
  lemma ForwardersProgress(s: State, id: nat)
    requires id in s.forwarders
    ensures match s.forwarders[id].phase
            case Idle => Enabled(s, Receive(id)) && Enabled(s, Abort(id))
            case Checking => Enabled(s, Answer(id, true)) && Enabled(s, Answer(id, false))
            case _ => Enabled(s, Proceed(id)) && !Enabled(s, Abort(id))
  {
  }

  // ----- The health report -----

  /** The last snapshot of an adapter; its own count is merged in when a report is made. */
  datatype Snapshot = Snapshot(name: string, eventsTotal: nat)

  function EventsReported(snapshots: seq<Snapshot>): nat {
    if snapshots == [] then 0 else snapshots[0].eventsTotal + EventsReported(snapshots[1..])
  }

  /** `health`: each snapshot with its adapter's own count. */
  function Merged(snapshots: seq<Snapshot>, perAdapter: map<string, nat>): (r: seq<Snapshot>)
    ensures |r| == |snapshots|
  {
    seq(|snapshots|, i requires 0 <= i < |snapshots| =>
      snapshots[i].(eventsTotal := Get(perAdapter, snapshots[i].name)))
  }

  /** In every run, each line of a report is its adapter's name with the number of its own events counted so far. */
  lemma ReportIsOwn(states: seq<State>, steps: seq<Step>, i: nat, snapshots: seq<Snapshot>, k: nat)
    requires IsRun(states, steps) && i < |states| && k < |snapshots|
    ensures var line := Merged(snapshots, states[i].perAdapter)[k];
            line.name == snapshots[k].name
            && line.eventsTotal == Count(OwnCounts(states, steps, snapshots[k].name), i)
  {
    OwnCount(states, steps, i, snapshots[k].name);
  }

  /** Snapshots that name every counted adapter once report, together, exactly the sum of the adapters' counts. */
  lemma {:induction false} ReportAddsUp(snapshots: seq<Snapshot>, perAdapter: map<string, nat>)
    requires forall i, j :: 0 <= i < j < |snapshots| ==> snapshots[i].name != snapshots[j].name
    requires forall name :: name in perAdapter ==> exists i :: 0 <= i < |snapshots| && snapshots[i].name == name
    ensures EventsReported(Merged(snapshots, perAdapter)) == Sum(perAdapter)
  {
    if snapshots == [] {
      assert perAdapter == map[];
    } else {
      var name, rest := snapshots[0].name, perAdapter - {snapshots[0].name};
      forall k | k in rest
        ensures exists i :: 0 <= i < |snapshots[1..]| && snapshots[1..][i].name == k
      {
        var i :| 0 <= i < |snapshots| && snapshots[i].name == k;
        assert snapshots[1..][i - 1].name == k;
      }
      ReportAddsUp(snapshots[1..], rest);
      assert Merged(snapshots, perAdapter)[1..] == Merged(snapshots[1..], rest);
      if name in perAdapter {
        SumWithout(perAdapter, name);
      } else {
        assert rest == perAdapter;
      }
    }
  }

  /**
   So at every moment of every run the report falls short of the event total
   by the adapter counts still to be made.
   */
  lemma ReportMatchesTotal(states: seq<State>, steps: seq<Step>, i: nat, snapshots: seq<Snapshot>)
    requires IsRun(states, steps) && i < |states|
    requires forall j, k :: 0 <= j < k < |snapshots| ==> snapshots[j].name != snapshots[k].name
    requires forall name :: name in states[i].perAdapter ==>
        exists j :: 0 <= j < |snapshots| && snapshots[j].name == name
    ensures EventsReported(Merged(snapshots, states[i].perAdapter)) + InFlight(states[i], TotalCounted)
        == states[i].eventsTotal
  {
    AlwaysBalanced(states, steps, i);
    ReportAddsUp(snapshots, states[i].perAdapter);
  }

  // ----- The counters -----

  class RuntimeStats {
    var eventsTotal: nat
    var eventsDeduplicated: nat
    var perAdapterEvents: map<string, nat>

    function EventsOf(name: string): nat
      reads this
    {
      if name in perAdapterEvents then perAdapterEvents[name] else 0
    }

    constructor ()
      ensures eventsTotal == eventsDeduplicated == 0 && perAdapterEvents == map[]
    {
      eventsTotal, eventsDeduplicated, perAdapterEvents := 0, 0, map[];
    }

    method RecordEventFor(name: string)
      modifies this
      ensures eventsTotal == old(eventsTotal) + 1 && eventsDeduplicated == old(eventsDeduplicated)
      ensures perAdapterEvents == old(perAdapterEvents)[name := old(EventsOf(name)) + 1]
    {
      eventsTotal := eventsTotal + 1;
      if name !in perAdapterEvents { perAdapterEvents := perAdapterEvents[name := 0]; }
      perAdapterEvents := perAdapterEvents[name := perAdapterEvents[name] + 1];
    }

    method RecordEventDeduplicated()
      modifies this
      ensures eventsDeduplicated == old(eventsDeduplicated) + 1
      ensures eventsTotal == old(eventsTotal) && perAdapterEvents == old(perAdapterEvents)
    {
      eventsDeduplicated := eventsDeduplicated + 1;
    }
  }
}
