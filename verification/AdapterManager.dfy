/** Adapter lifecycle over the router: startup, add, remove, reconnect, and the periodic refresh of routes. */
module AdapterManager {
  import opened Wrappers
  import opened JsonTree
  import opened Router
  import opened Runs

  /**
   A refresh pass: the adapters it still has to look at, and the router names it read when it began.
   */
  datatype Refresh = Idle | Pass(todo: seq<Adapter>, names: seq<string>)

  datatype State = State(table: Table, live: map<string, Adapter>, known: Known, nextId: nat, refresh: Refresh)

  const INITIAL := State(EMPTY, map[], map[], 0, Idle)

  /** `reported` is what the new adapter has already learned when it is registered. */
  datatype Step =
    | Add(name: string, reported: Option<I64>)
    | Remove(name: string)
    | Reconnect(name: string)
    | Learn(id: nat, selfId: I64)
    | RefreshBegin(order: seq<Adapter>)
    | RefreshOne
    | RefreshEnd

  predicate Enabled(s: State, step: Step) {
    match step
    case Learn(id, _) => id < s.nextId && id !in s.known
    case RefreshBegin(order) =>
      s.refresh.Idle?
      && (forall a :: a in order ==> a.name in s.live && s.live[a.name] == a)
      && (forall name :: name in s.live ==> s.live[name] in order)
    case RefreshOne => s.refresh.Pass? && s.refresh.todo != []
    case RefreshEnd => s.refresh.Pass? && s.refresh.todo == []
    case _ => true
  }

  /** A name already live is refused; otherwise the new adapter is registered and becomes live. */
  function DoAdd(s: State, name: string, reported: Option<I64>): State {
    if name in s.live then s
    else
      var a := Adapter(s.nextId, name);
      s.(table := Registered(s.table, a, reported), live := s.live[name := a], nextId := s.nextId + 1,
         known := if reported.Some? then s.known[a.id := reported.value] else s.known)
  }

  function DoRemove(s: State, name: string): State {
    if name !in s.live then s
    else s.(table := Unregistered(s.table, name, s.known), live := s.live - {name})
  }

  function DoRefreshOne(s: State): State
    requires Enabled(s, RefreshOne)
  {
    var a := s.refresh.todo[0];
    var rest := s.(refresh := s.refresh.(todo := s.refresh.todo[1..]));
    var selfId, pos := InfoOf(s.known, a), Position(s.refresh.names, a.name);
    if selfId.None? || pos.None? then rest
    else rest.(table := Associated(s.table, selfId.value, pos.value))
  }

  function Next(s: State, step: Step): State
    requires Enabled(s, step)
  {
    match step
    case Add(name, reported) => DoAdd(s, name, reported)
    case Remove(name) => DoRemove(s, name)
    case Reconnect(_) => s
    case Learn(id, selfId) => s.(known := s.known[id := selfId])
    case RefreshBegin(order) => s.(refresh := Pass(order, Names(s.table.adapters)))
    case RefreshOne => DoRefreshOne(s)
    case RefreshEnd => s.(refresh := Idle)
  }

  ghost predicate IsRun(states: seq<State>, steps: seq<Step>) {
    |states| == |steps| + 1 && states[0] == INITIAL
    && forall i :: 0 <= i < |steps| ==> Enabled(states[i], steps[i]) && states[i + 1] == Next(states[i], steps[i])
  }

  // ----- What holds in every run -----

  /** The router lists exactly the live adapters, each under a name of its own, and its default is the first. */
  ghost predicate Consistent(s: State) {
    NamesDistinct(s.table.adapters)
    && (forall name :: name in s.live <==> name in Names(s.table.adapters))
    && (forall i :: 0 <= i < |s.table.adapters| ==>
          s.table.adapters[i].name in s.live && s.live[s.table.adapters[i].name] == s.table.adapters[i])
    && (forall i :: 0 <= i < |s.table.adapters| ==> s.table.adapters[i].id < s.nextId)
    && s.table.default == (if s.table.adapters == [] then None else Some(0))
  }

  lemma AddConsistent(s: State, name: string, reported: Option<I64>)
    requires Consistent(s)
    ensures Consistent(DoAdd(s, name, reported))
  {
    var t := DoAdd(s, name, reported);
    if name !in s.live {
      assert Names(t.table.adapters) == Names(s.table.adapters) + [name];
    }
  }

  lemma RemoveConsistent(s: State, name: string)
    requires Consistent(s) && name in s.live
    ensures Consistent(DoRemove(s, name))
  {
    hide Rebuilt, Position, Names, NamesDistinct;
    var pos := Position(Names(s.table.adapters), name).value;
    var rest := RemoveAt(s.table.adapters, pos);
    assert forall j :: 0 <= j < |rest| ==> rest[j] == s.table.adapters[if j < pos then j else j + 1];
    RemovedNames(s.table.adapters, pos);
    hide RemoveAt;
    assert forall j :: 0 <= j < |rest| ==> rest[j].name in Names(rest) by { NamesHold(rest); }
  }

  lemma NamesHold(adapters: seq<Adapter>)
    ensures forall j :: 0 <= j < |adapters| ==> adapters[j].name in Names(adapters)
  {
    assert forall j :: 0 <= j < |adapters| ==> Names(adapters)[j] == adapters[j].name;
  }

  lemma RemovedNames(adapters: seq<Adapter>, pos: nat)
    requires pos < |adapters| && NamesDistinct(adapters)
    ensures var rest := RemoveAt(adapters, pos);
            NamesDistinct(rest)
            && forall name :: name in Names(rest) <==> name in Names(adapters) && name != adapters[pos].name
  {
    var rest := RemoveAt(adapters, pos);
    assert forall j :: 0 <= j < |rest| ==> rest[j] == adapters[if j < pos then j else j + 1];
    forall name | name in Names(adapters) && name != adapters[pos].name
      ensures name in Names(rest)
    {
      var i :| 0 <= i < |adapters| && Names(adapters)[i] == name;
      assert Names(rest)[if i < pos then i else i - 1] == name;
    }
    forall name | name in Names(rest)
      ensures name in Names(adapters) && name != adapters[pos].name
    {
      var j :| 0 <= j < |rest| && Names(rest)[j] == name;
      assert Names(adapters)[if j < pos then j else j + 1] == name;
    }
  }

  lemma ConsistentFrame(s: State, t: State)
    requires Consistent(s) && t.table.adapters == s.table.adapters && t.table.default == s.table.default
    requires t.live == s.live && t.nextId == s.nextId
    ensures Consistent(t)
  {
  }

  lemma ConsistentKept(s: State, step: Step)
    requires Enabled(s, step) && Consistent(s)
    ensures Consistent(Next(s, step))
  {
    hide Consistent, Position, Names;
    match step
    case Add(name, reported) => AddConsistent(s, name, reported);
    case Remove(name) =>
      if name in s.live { RemoveConsistent(s, name); }
    case _ => ConsistentFrame(s, Next(s, step));
  }

  lemma {:induction false} AlwaysConsistent(states: seq<State>, steps: seq<Step>, i: nat)
    requires IsRun(states, steps) && i < |states|
    ensures Consistent(states[i])
  {
    hide Next, Enabled, Consistent;
    if i == 0 {
      InitialConsistent();
    } else {
      AlwaysConsistent(states, steps, i - 1);
      ConsistentKept(states[i - 1], steps[i - 1]);
    }
  }

  lemma InitialConsistent()
    ensures Consistent(INITIAL)
  {
  }

  /**
   Live names are the router's names, without repeats,
   and the default is the first adapter exactly when there is one.
   */
  lemma LiveNamesAreRouterNames(states: seq<State>, steps: seq<Step>, i: nat)
    requires IsRun(states, steps) && i < |states|
    ensures var s := states[i];
            NamesDistinct(s.table.adapters)
            && (forall name :: name in s.live <==> name in Names(s.table.adapters))
            && s.table.default == (if s.live == map[] then None else Some(0))
  {
    AlwaysConsistent(states, steps, i);
    var s := states[i];
    if s.table.adapters == [] {
      assert forall name :: name !in s.live;
    } else {
      assert s.table.adapters[0].name in s.live;
    }
  }

  /** A live adapter is in the router's list, and the other way round. */
  lemma LiveIsListed(s: State, a: Adapter)
    requires Consistent(s)
    ensures a in s.live.Values <==> a in s.table.adapters
  {
    if a in s.live.Values {
      var name :| name in s.live && s.live[name] == a;
      assert name in Names(s.table.adapters);
      var j :| 0 <= j < |s.table.adapters| && Names(s.table.adapters)[j] == name;
      assert s.live[s.table.adapters[j].name] == s.table.adapters[j];
    }
    if a in s.table.adapters {
      assert s.live[a.name] == a;
    }
  }

  // ----- What the steps so far say about the state -----

  function Adds(name: string): Step -> bool {
    (step: Step) => step.Add? && step.name == name
  }

  function Begins(): Step -> bool {
    (step: Step) => step.RefreshBegin?
  }

  lemma StepAt(states: seq<State>, steps: seq<Step>, k: nat)
    requires IsRun(states, steps) && k < |steps|
    ensures Enabled(states[k], steps[k]) && states[k + 1] == Next(states[k], steps[k])
  {
  }

  lemma LiveStep(s: State, step: Step, name: string)
    requires Enabled(s, step)
    ensures name in Next(s, step).live <==> Adds(name)(step) || (name in s.live && step != Remove(name))
    ensures Next(s, step).refresh.Pass? <==> Begins()(step) || (s.refresh.Pass? && step != RefreshEnd)
  {
    hide Position, Names;
  }

  /** A name is live from when it was added until it is removed, and a pass goes on from its begin to its end. */
  lemma LiveIff(states: seq<State>, steps: seq<Step>, i: nat, name: string)
    requires IsRun(states, steps) && i < |states|
    ensures name in states[i].live <==> Since(Where(steps, Adds(name)), At(steps, Remove(name)), i)
    ensures states[i].refresh.Pass? <==> Since(Where(steps, Begins()), At(steps, RefreshEnd), i)
  {
    hide Next, Enabled, Adds, Begins;
    forall k: nat | k < i
      ensures name in states[k + 1].live <==>
          Adds(name)(steps[k]) || (name in states[k].live && steps[k] != Remove(name))
      ensures states[k + 1].refresh.Pass? <==> Begins()(steps[k]) || (states[k].refresh.Pass? && steps[k] != RefreshEnd)
    {
      StepAt(states, steps, k);
      LiveStep(states[k], steps[k], name);
    }
    SinceHolds((k: nat) => k < |states|
        && name in states[k].live, Where(steps, Adds(name)), At(steps, Remove(name)), i);
    SinceHolds((k: nat) => k < |states| && states[k].refresh.Pass?, Where(steps, Begins()), At(steps, RefreshEnd), i);
  }

  /** An adapter added with its account known is routed at once, and is the live one of its name. */
  lemma AddedIsRouted(states: seq<State>, steps: seq<Step>, k: nat, selfId: I64)
    requires IsRun(states, steps) && k < |steps| && steps[k].Add? && steps[k].reported == Some(selfId)
    requires steps[k].name !in states[k].live
    ensures steps[k].name in states[k + 1].live
    ensures Lookup(states[k + 1].table, Some(selfId)) == Ok(states[k + 1].live[steps[k].name])
    ensures InfoOf(states[k + 1].known, states[k + 1].live[steps[k].name]) == Some(selfId)
  {
    StepAt(states, steps, k);
  }

  /** What an adapter has learned it keeps, and it learns once. */
  lemma {:induction false} LearnedStays(states: seq<State>, steps: seq<Step>, k: nat, i: nat)
    requires IsRun(states, steps) && k < i < |states| && steps[k].Learn?
    ensures steps[k].id in states[i].known && states[i].known[steps[k].id] == steps[k].selfId
    ensures steps[k].id < states[i].nextId
  {
    hide Position, Names;
    StepAt(states, steps, i - 1);
    if k == i - 1 {
    } else {
      LearnedStays(states, steps, k, i - 1);
    }
  }

  // ----- The names a pass works from -----

  /** The names the pass has read still give the adapter's index. */
  predicate Indexed(s: State, a: Adapter) {
    s.refresh.Pass?
    && var pos := Position(s.refresh.names, a.name);
       pos.Some? && pos.value < |s.table.adapters| && s.table.adapters[pos.value] == a
  }

  /** The adapter called `a.name` stands before the one called `name` in the router. */
  predicate Ahead(s: State, a: Adapter, name: string) {
    var p, q := Position(Names(s.table.adapters), a.name), Position(Names(s.table.adapters), name);
    p.Some? && q.Some? && p.value < q.value
  }

  lemma PositionIs(adapters: seq<Adapter>, i: nat)
    requires NamesDistinct(adapters) && i < |adapters|
    ensures Position(Names(adapters), adapters[i].name) == Some(i)
  {
    var names := Names(adapters);
    var p := Position(names, names[i]);
    assert names[i] in names;
    assert adapters[p.value].name == names[p.value] == names[i];
  }

  /** Where the removed adapter stood, and what the removal does to the list. */
  lemma Removal(s: State, name: string) returns (r: nat)
    requires Consistent(s) && name in s.live
    ensures r < |s.table.adapters| && s.table.adapters[r].name == name
    ensures Position(Names(s.table.adapters), name) == Some(r)
    ensures DoRemove(s, name).table.adapters == RemoveAt(s.table.adapters, r)
    ensures DoRemove(s, name).refresh == s.refresh && DoRemove(s, name).known == s.known
  {
    r := Position(Names(s.table.adapters), name).value;
  }

  /** A removal leaves an adapter's index right exactly when the adapter stands before the one removed. */
  lemma IndexedIffAhead(s: State, a: Adapter, name: string)
    requires Consistent(s) && Indexed(s, a) && name in s.live
    ensures Indexed(DoRemove(s, name), a) <==> Ahead(s, a, name)
    ensures !Ahead(s, a, name) ==> Slipped(DoRemove(s, name), a)
  {
    var r := Removal(s, name);
    var p := Position(s.refresh.names, a.name).value;
    PositionIs(s.table.adapters, p);
    hide Position, Names, DoRemove;
    assert forall j :: p < j < |s.table.adapters| ==> s.table.adapters[j] != a;
  }

  /** The adapter is at none of the places from the index the pass would give it on. */
  ghost predicate Slipped(s: State, a: Adapter) {
    s.refresh.Pass?
    && var pos := Position(s.refresh.names, a.name);
       pos.Some? && forall i :: pos.value <= i < |s.table.adapters| ==> s.table.adapters[i] != a
  }

  /** Indices only ever slip: no step brings an adapter back to where the pass expects it. */
  lemma SlippedKept(s: State, step: Step, a: Adapter)
    requires Enabled(s, step) && Consistent(s) && Slipped(s, a) && a.id < s.nextId && !step.RefreshEnd?
    ensures Slipped(Next(s, step), a)
  {
    hide Position, Names, DoRemove, Consistent;
    if step.Remove? && step.name in s.live {
      var r := Removal(s, step.name);
      AbsentAfterRemoval(s.table.adapters, r, Position(s.refresh.names, a.name).value, a);
    } else if step.Remove? {
      NothingRemoved(s, step.name);
    }
  }

  lemma NothingRemoved(s: State, name: string)
    requires name !in s.live
    ensures DoRemove(s, name) == s
  {
  }

  lemma AbsentAfterRemoval(adapters: seq<Adapter>, r: nat, p: nat, a: Adapter)
    requires r < |adapters| && forall i :: p <= i < |adapters| ==> adapters[i] != a
    ensures var rest := RemoveAt(adapters, r); forall i :: p <= i < |rest| ==> rest[i] != a
  {
    var rest := RemoveAt(adapters, r);
    assert forall i :: 0 <= i < |rest| ==> rest[i] == adapters[if i < r then i else i + 1];
  }

  lemma IndexedKept(s: State, step: Step, a: Adapter)
    requires Enabled(s, step) && Indexed(s, a) && !step.Remove? && !step.RefreshEnd?
    ensures Indexed(Next(s, step), a)
  {
    hide Position, Names;
  }

  /** The pass that began at `b` is the one going on at `e`. */
  ghost predicate SamePass(states: seq<State>, steps: seq<Step>, b: nat, e: nat) {
    b < e < |states| == |steps| + 1 && steps[b].RefreshBegin?
    && forall k :: b < k < e ==> !steps[k].RefreshEnd?
  }

  /** Every adapter removed since the pass began stood behind `a`. */
  ghost predicate AllBehind(states: seq<State>, steps: seq<Step>, b: nat, e: nat, a: Adapter)
    requires e <= |steps| < |states|
  {
    forall k :: b < k < e && steps[k].Remove? && steps[k].name in states[k].live ==>
      Ahead(states[k], a, steps[k].name)
  }

  lemma BeginIndexes(s: State, order: seq<Adapter>, a: Adapter)
    requires Enabled(s, RefreshBegin(order)) && Consistent(s) && a in s.live.Values
    ensures Indexed(Next(s, RefreshBegin(order)), a) && a.id < s.nextId && a in order
  {
    LiveIsListed(s, a);
    var j :| 0 <= j < |s.table.adapters| && s.table.adapters[j] == a;
    PositionIs(s.table.adapters, j);
  }

  /**
   Through a pass, the index of an adapter it began with is right
   exactly while all removals are behind that adapter.
   */
  lemma {:induction false} IndexThroughPass(states: seq<State>, steps: seq<Step>, b: nat, e: nat, a: Adapter)
    requires IsRun(states, steps) && SamePass(states, steps, b, e) && a in states[b].live.Values
    ensures AllBehind(states, steps, b, e, a) ==> Indexed(states[e], a)
    ensures !AllBehind(states, steps, b, e, a) ==> Slipped(states[e], a)
    ensures a.id < states[e].nextId
  {
    hide Next, Enabled, Consistent, Indexed, Slipped, Ahead;
    AlwaysConsistent(states, steps, e - 1);
    assert Enabled(states[e - 1], steps[e - 1]) && states[e] == Next(states[e - 1], steps[e - 1]);
    if e == b + 1 {
      BeginIndexes(states[b], steps[b].order, a);
      NextIdGrows(states[b], steps[b]);
    } else {
      IndexThroughPass(states, steps, b, e - 1, a);
      var s, step := states[e - 1], steps[e - 1];
      NextIdGrows(s, step);
      if !AllBehind(states, steps, b, e - 1, a) {
        SlippedKept(s, step, a);
      } else {
        IndexStep(s, step, a);
      }
    }
  }

  lemma NextIdGrows(s: State, step: Step)
    requires Enabled(s, step)
    ensures Next(s, step).nextId >= s.nextId
  {
    hide Position, Names;
  }

  lemma IndexStep(s: State, step: Step, a: Adapter)
    requires Enabled(s, step) && Consistent(s) && Indexed(s, a) && !step.RefreshEnd?
    ensures (step.Remove? && step.name in s.live ==> Ahead(s, a, step.name)) ==> Indexed(Next(s, step), a)
    ensures !(step.Remove? && step.name in s.live ==> Ahead(s, a, step.name)) ==> Slipped(Next(s, step), a)
  {
    hide Consistent, Indexed, Slipped, Ahead;
    if step.Remove? {
      if step.name in s.live { IndexedIffAhead(s, a, step.name); }
    } else {
      IndexedKept(s, step, a);
    }
  }

  /** What looking at one adapter does to its account. */
  lemma LookedAt(s: State, a: Adapter, selfId: I64)
    requires Enabled(s, RefreshOne) && s.refresh.todo[0] == a && InfoOf(s.known, a) == Some(selfId)
    ensures Indexed(s, a) ==> Lookup(DoRefreshOne(s).table, Some(selfId)) == Ok(a)
    ensures Slipped(s, a) ==> Lookup(DoRefreshOne(s).table, Some(selfId)) != Ok(a)
  {
    hide Position;
  }

  /**
   When a pass comes to an adapter whose account is known, that account is routed to it from then on exactly
   when every adapter removed since the pass began stood behind it in the router.
   */
  lemma RefreshRightIff(states: seq<State>, steps: seq<Step>, b: nat, e: nat, a: Adapter, selfId: I64)
    requires IsRun(states, steps) && SamePass(states, steps, b, e) && e < |steps| && steps[e].RefreshOne?
    requires a in states[b].live.Values && InfoOf(states[e].known, a) == Some(selfId)
    requires states[e].refresh.Pass? && states[e].refresh.todo != [] && states[e].refresh.todo[0] == a
    ensures Lookup(states[e + 1].table, Some(selfId)) == Ok(a) <==> AllBehind(states, steps, b, e, a)
  {
    hide AllBehind, Indexed, Slipped, Lookup;
    IndexThroughPass(states, steps, b, e, a);
    LookedAt(states[e], a, selfId);
  }

  /**
   What the account is routed to after a removal and the pass's next look: the adapter itself if it stands before
   the one removed; otherwise whoever stood just behind it, or an index past the end. An adapter removed
   before the pass comes to it is never before itself, so its account goes to its neighbour or past the end.
   */
  lemma StaleOutcome(s: State, name: string, a: Adapter, selfId: I64)
    requires Consistent(s) && Enabled(s, RefreshOne) && s.refresh.todo[0] == a && Indexed(s, a)
    requires name in s.live && InfoOf(s.known, a) == Some(selfId)
    ensures var n, pos := |s.table.adapters|, Position(s.refresh.names, a.name).value;
            var found := Lookup(DoRefreshOne(DoRemove(s, name)).table, Some(selfId));
            found == (if Ahead(s, a, name) then Ok(a)
                      else if n == 1 then Err("no adapters registered")
                      else if pos == n - 1 then Err("adapter index out of bounds")
                      else Ok(s.table.adapters[pos + 1]))
    ensures !Ahead(s, a, a.name)
  {
    var r := Removal(s, name);
    var p := Position(s.refresh.names, a.name).value;
    PositionIs(s.table.adapters, p);
    hide Position, Names, DoRemove, Consistent, DoRefreshOne, Lookup;
    AfterLook(DoRemove(s, name), selfId, p);
    AtAfterRemoval(s.table.adapters, r, p);
  }

  lemma AfterLook(s: State, selfId: I64, p: nat)
    requires Enabled(s, RefreshOne) && InfoOf(s.known, s.refresh.todo[0]) == Some(selfId)
    requires Position(s.refresh.names, s.refresh.todo[0].name) == Some(p)
    ensures Lookup(DoRefreshOne(s).table, Some(selfId)) ==
            if s.table.adapters == [] then Err("no adapters registered")
            else if p < |s.table.adapters| then Ok(s.table.adapters[p])
            else Err("adapter index out of bounds")
  {
    hide Position;
  }

  lemma AtAfterRemoval(adapters: seq<Adapter>, r: nat, p: nat)
    requires r < |adapters| && p < |adapters|
    ensures var rest := RemoveAt(adapters, r);
            |rest| == |adapters| - 1
            && (p < |rest| ==> rest[p] == if p < r then adapters[p] else adapters[p + 1])
  {
  }

  // ----- From the last rebuilt table on -----

  /** Every adapter the pass still has to look at stands before the one removed: its index stays right. */
  predicate Harmless(s: State, name: string) {
    s.refresh.Pass? && name in s.live ==> forall a :: a in s.refresh.todo ==> Ahead(s, a, name)
  }

  ghost predicate AllHarmless(states: seq<State>, steps: seq<Step>, i: nat, j: nat)
    requires j <= |steps| < |states|
  {
    forall k :: i <= k < j && steps[k].Remove? ==> Harmless(states[k], steps[k].name)
  }

  ghost predicate FreshIndices(s: State) {
    s.refresh.Pass? ==> forall a :: a in s.refresh.todo ==> Indexed(s, a)
  }

  ghost predicate Inv(s: State) {
    Consistent(s) && Sound(s.table, s.known) && FreshIndices(s)
  }

  lemma FreshKept(s: State, step: Step)
    requires Enabled(s, step) && Consistent(s) && FreshIndices(s) && (step.Remove? ==> Harmless(s, step.name))
    ensures FreshIndices(Next(s, step))
  {
    hide Consistent, Indexed, Ahead;
    if step.RefreshBegin? {
      BeginIsFresh(s, step.order);
    } else if s.refresh.Pass? && !step.RefreshEnd? {
      TodoShrinks(s, step);
      forall a | a in Next(s, step).refresh.todo ensures Indexed(Next(s, step), a) {
        assert Indexed(s, a);
        IndexStep(s, step, a);
      }
    } else {
      hide Position, Names;
    }
  }

  lemma TodoShrinks(s: State, step: Step)
    requires Enabled(s, step) && s.refresh.Pass? && !step.RefreshEnd?
    ensures var t := Next(s, step); t.refresh.Pass? && forall a :: a in t.refresh.todo ==> a in s.refresh.todo
  {
    hide Position, Names;
  }

  lemma BeginIsFresh(s: State, order: seq<Adapter>)
    requires Enabled(s, RefreshBegin(order)) && Consistent(s)
    ensures FreshIndices(Next(s, RefreshBegin(order)))
  {
    hide Consistent, Indexed;
    forall a | a in order ensures Indexed(Next(s, RefreshBegin(order)), a) {
      assert a in s.live.Values;
      BeginIndexes(s, order, a);
    }
  }

  /** Every removal rebuilds the table, so it is sound right after, whatever it was before. */
  lemma RemoveSound(s: State, name: string)
    requires name in Names(s.table.adapters)
    ensures Sound(Unregistered(s.table, name, s.known), s.known)
  {
    var pos := Position(Names(s.table.adapters), name).value;
    var rest := RemoveAt(s.table.adapters, pos);
    RebuiltIsSound(rest, s.known, |rest|);
  }

  lemma AddSound(s: State, name: string, reported: Option<I64>)
    requires Consistent(s) && Sound(s.table, s.known)
    ensures Sound(DoAdd(s, name, reported).table, DoAdd(s, name, reported).known)
  {
    hide Names;
    var t := DoAdd(s, name, reported);
    if name !in s.live {
      assert forall i :: 0 <= i < |s.table.adapters| ==>
          InfoOf(t.known, s.table.adapters[i]) == InfoOf(s.known, s.table.adapters[i]);
    }
  }

  lemma LookSound(s: State)
    requires Enabled(s, RefreshOne) && Sound(s.table, s.known) && Indexed(s, s.refresh.todo[0])
    ensures Sound(DoRefreshOne(s).table, DoRefreshOne(s).known)
  {
    hide Position;
  }

  lemma SoundKept(s: State, step: Step)
    requires Enabled(s, step) && Inv(s)
    ensures Sound(Next(s, step).table, Next(s, step).known)
  {
    match step
    case Add(name, reported) => AddSound(s, name, reported);
    case Remove(name) =>
      if name in s.live { RemoveSound(s, name); }
    case RefreshOne => LookSound(s);
    case Learn(id, selfId) => LearnSound(s, id, selfId);
    case _ =>
  }

  lemma LearnSound(s: State, id: nat, selfId: I64)
    requires id !in s.known && Sound(s.table, s.known)
    ensures Sound(s.table, s.known[id := selfId])
  {
  }

  /** From any sound state on, harmless removals keep the table sound. */
  lemma {:induction false} InvFrom(states: seq<State>, steps: seq<Step>, r: nat, i: nat)
    requires IsRun(states, steps) && r <= i < |states| && AllHarmless(states, steps, r, i)
    requires Sound(states[r].table, states[r].known) && FreshIndices(states[r])
    ensures Inv(states[i])
  {
    hide Next, Enabled, Consistent, FreshIndices, Harmless, Sound;
    AlwaysConsistent(states, steps, i);
    if r == i {
    } else {
      InvFrom(states, steps, r, i - 1);
      assert Enabled(states[i - 1], steps[i - 1]) && states[i] == Next(states[i - 1], steps[i - 1]);
      SoundKept(states[i - 1], steps[i - 1]);
      FreshKept(states[i - 1], steps[i - 1]);
    }
  }

  /** At the start, or right after a removal, with no pass that still has adapters to look at. */
  predicate RebuiltAt(states: seq<State>, steps: seq<Step>, r: nat) {
    r < |states| == |steps| + 1
    && (r == 0 || (steps[r - 1].Remove? && steps[r - 1].name in states[r - 1].live))
    && (states[r].refresh.Idle? || states[r].refresh.todo == [])
  }

  /**
   From the last such point on, as long as removals are harmless: while adapters exist a request never fails out of
   bounds, and a routed account reaches an adapter that reported it.
   */
  lemma LookupNeverFails(states: seq<State>, steps: seq<Step>, r: nat, i: nat, selfId: Option<I64>)
    requires IsRun(states, steps) && RebuiltAt(states, steps, r) && r <= i < |states|
    requires AllHarmless(states, steps, r, i) && states[i].live != map[]
    ensures var s := states[i];
            Lookup(s.table, selfId).Ok?
            && Lookup(s.table, selfId).value in s.live.Values
            && (selfId.Some? && selfId.value in s.table.routes ==>
                  InfoOf(s.known, Lookup(s.table, selfId).value) == selfId)
  {
    hide Consistent, Sound, Harmless, Next, Names, Lookup;
    SoundAtRebuild(states, steps, r);
    InvFrom(states, steps, r, i);
    ListedWhenLive(states[i]);
    LookupFindsAdapter(states[i].table, states[i].known, selfId);
    LiveIsListed(states[i], Lookup(states[i].table, selfId).value);
  }

  lemma ListedWhenLive(s: State)
    requires Consistent(s) && s.live != map[]
    ensures s.table.adapters != []
  {
    var name :| name in s.live;
    assert name in Names(s.table.adapters);
  }

  lemma SoundAtRebuild(states: seq<State>, steps: seq<Step>, r: nat)
    requires IsRun(states, steps) && RebuiltAt(states, steps, r)
    ensures Sound(states[r].table, states[r].known) && FreshIndices(states[r])
  {
    if r == 0 {
    } else {
      AlwaysConsistent(states, steps, r - 1);
      var s := states[r - 1];
      assert states[r] == DoRemove(s, steps[r - 1].name);
      RemoveSound(s, steps[r - 1].name);
    }
  }

  // ----- What a whole pass does -----

  ghost predicate Routed(s: State, selfId: I64) {
    selfId in s.table.routes && s.table.routes[selfId] < |s.table.adapters|
    && InfoOf(s.known, s.table.adapters[s.table.routes[selfId]]) == Some(selfId)
  }

  /** While an adapter stays registered, a route for its known account stays a route to an adapter of that account. */
  lemma RoutedKept(s: State, step: Step, a: Adapter, selfId: I64)
    requires Enabled(s, step) && Consistent(s) && FreshIndices(s) && Routed(s, selfId)
    requires InfoOf(s.known, a) == Some(selfId) && a in Next(s, step).table.adapters
    ensures Routed(Next(s, step), selfId)
  {
    match step
    case Add(name, reported) => AddRouted(s, name, reported, selfId);
    case Remove(name) =>
      if name in s.live { RemoveRouted(s, name, a, selfId); }
    case RefreshOne => LookRouted(s, selfId);
    case _ =>
  }

  lemma AddRouted(s: State, name: string, reported: Option<I64>, selfId: I64)
    requires Consistent(s) && Routed(s, selfId)
    ensures Routed(DoAdd(s, name, reported), selfId)
  {
    hide Names;
  }

  lemma RemoveRouted(s: State, name: string, a: Adapter, selfId: I64)
    requires name in Names(s.table.adapters) && InfoOf(s.known, a) == Some(selfId)
    requires a in Unregistered(s.table, name, s.known).adapters
    ensures Routed(s.(table := Unregistered(s.table, name, s.known)), selfId)
  {
    var rest := RemoveAt(s.table.adapters, Position(Names(s.table.adapters), name).value);
    RebuiltIsSound(rest, s.known, |rest|);
    var j :| 0 <= j < |rest| && rest[j] == a;
    assert InfoOf(s.known, rest[j]).value in Rebuilt(rest, s.known, |rest|);
  }

  lemma LookRouted(s: State, selfId: I64)
    requires Enabled(s, RefreshOne) && Indexed(s, s.refresh.todo[0])
    requires Routed(s, selfId) || InfoOf(s.known, s.refresh.todo[0]) == Some(selfId)
    ensures Routed(DoRefreshOne(s), selfId)
  {
    hide Position;
  }

  /** An adapter that is registered now and was created before was registered before. */
  lemma StayedRegistered(s: State, step: Step, a: Adapter)
    requires Enabled(s, step) && a in Next(s, step).table.adapters && a.id < s.nextId
    ensures a in s.table.adapters
  {
    hide Position;
  }

  lemma InfoKept(s: State, step: Step, a: Adapter, selfId: I64)
    requires Enabled(s, step) && InfoOf(s.known, a) == Some(selfId) && a.id < s.nextId
    ensures InfoOf(Next(s, step).known, a) == Some(selfId) && a.id < Next(s, step).nextId
  {
    hide Position, Names;
  }

  /** The adapter is still to be looked at, or its account has been routed. */
  ghost predicate Covers(s: State, a: Adapter, selfId: I64) {
    s.refresh.Pass? && (a in s.refresh.todo || Routed(s, selfId))
    && InfoOf(s.known, a) == Some(selfId) && a.id < s.nextId && FreshIndices(s)
  }

  lemma CoverKept(s: State, step: Step, a: Adapter, selfId: I64)
    requires Enabled(s, step) && Consistent(s) && Covers(s, a, selfId) && !step.RefreshEnd?
    requires a in Next(s, step).table.adapters && (step.Remove? ==> Harmless(s, step.name))
    ensures Covers(Next(s, step), a, selfId)
  {
    hide Consistent, Indexed, Harmless, Routed;
    FreshKept(s, step);
    TodoShrinks(s, step);
    InfoKept(s, step, a, selfId);
    if Routed(s, selfId) {
      RoutedKept(s, step, a, selfId);
    } else if step.RefreshOne? {
      assert s.refresh.todo == [s.refresh.todo[0]] + s.refresh.todo[1..];
      if a == s.refresh.todo[0] { LookRouted(s, selfId); }
    }
  }

  /** A pass in which removals are harmless covers every adapter it began with that is still registered. */
  lemma {:induction false} PassCovers(states: seq<State>, steps: seq<Step>, b: nat, e: nat, a: Adapter, selfId: I64)
    requires IsRun(states, steps) && SamePass(states, steps, b, e) && AllHarmless(states, steps, b + 1, e)
    requires a in states[b].live.Values && a in states[e].live.Values && InfoOf(states[b].known, a) == Some(selfId)
    ensures Covers(states[e], a, selfId)
  {
    hide Next, Enabled, Covers, Harmless, Consistent;
    AlwaysConsistent(states, steps, e - 1);
    AlwaysConsistent(states, steps, e);
    LiveIsListed(states[e], a);
    var s, step := states[e - 1], steps[e - 1];
    assert Enabled(s, step) && states[e] == Next(s, step);
    if e == b + 1 {
      BeginCovers(s, step.order, a, selfId);
    } else {
      IndexThroughPass(states, steps, b, e - 1, a);
      StayedRegistered(s, step, a);
      LiveIsListed(s, a);
      PassCovers(states, steps, b, e - 1, a, selfId);
      CoverKept(s, step, a, selfId);
    }
  }

  lemma BeginCovers(s: State, order: seq<Adapter>, a: Adapter, selfId: I64)
    requires Enabled(s, RefreshBegin(order)) && Consistent(s) && a in s.live.Values
        && InfoOf(s.known, a) == Some(selfId)
    ensures Covers(Next(s, RefreshBegin(order)), a, selfId)
  {
    hide Consistent, Indexed;
    BeginIndexes(s, order, a);
    BeginIsFresh(s, order);
  }

  /**
   A whole pass in which removals are harmless routes every account known when it began, and reported by one adapter
   only, to that adapter, whatever was wrong before and whatever was added or learned meanwhile.
   */
  lemma RefreshRoutes(states: seq<State>, steps: seq<Step>, b: nat, e: nat, a: Adapter, selfId: I64)
    requires IsRun(states, steps) && SamePass(states, steps, b, e) && e < |steps| && steps[e].RefreshEnd?
    requires AllHarmless(states, steps, b + 1, e)
    requires a in states[b].live.Values && a in states[e].live.Values && InfoOf(states[b].known, a) == Some(selfId)
    requires forall x :: x in states[e].table.adapters && InfoOf(states[e].known, x) == Some(selfId) ==> x == a
    ensures Lookup(states[e].table, Some(selfId)) == Ok(a)
  {
    hide AllHarmless, Consistent, FreshIndices;
    PassCovers(states, steps, b, e, a, selfId);
    assert Enabled(states[e], RefreshEnd);
    assert states[e].table.adapters[states[e].table.routes[selfId]] in states[e].table.adapters;
  }

  /** It does happen: a removal during a pass that leaves an index past the end. */
  lemma DisturbedPassBreaks() returns (states: seq<State>, steps: seq<Step>)
    ensures IsRun(states, steps) && !AllHarmless(states, steps, 0, |steps|)
    ensures var s := states[|states| - 1];
            s.live != map[] && Lookup(s.table, Some(7)) == Err("adapter index out of bounds")
  {
    hide DoAdd, DoRemove, DoRefreshOne;
    steps := [Add("a", None), Add("b", Some(7)), RefreshBegin([B, A]), Remove("a"), RefreshOne];
    states := [INITIAL, ONE, TWO, PASSING, REMOVED, BROKEN];
    AddsTwo();
    BeginsPass();
    RemovesFirst();
    AssociatesStale();
    FirstIsAhead();
    BrokenFails();
    hide Lookup, Ahead;
    assert steps[3] == Remove("a") && B in PASSING.refresh.todo;
  }

  lemma FirstIsAhead()
    ensures !Ahead(PASSING, B, "a") && "a" in PASSING.live && B in PASSING.refresh.todo
  {
    assert Names([A, B])[0] == "a";
    assert Position(Names([A, B]), "a") == Some(0);
  }

  // The states of the run above.

  const A := Adapter(0, "a")
  const B := Adapter(1, "b")
  const ONE := State(Table(map[], [A], Some(0)), map["a" := A], map[], 1, Idle)
  const TWO := State(Table(map[7 := 1], [A, B], Some(0)), map["a" := A, "b" := B], map[1 := 7], 2, Idle)
  const PASSING := TWO.(refresh := Pass([B, A], ["a", "b"]))
  const REMOVED := State(Table(map[7 := 0], [B], Some(0)), map["b" := B], map[1 := 7], 2, Pass([B, A], ["a", "b"]))
  const BROKEN := State(Table(map[7 := 1], [B], Some(0)), map["b" := B], map[1 := 7], 2, Pass([A], ["a", "b"]))

  lemma AddsTwo()
    ensures DoAdd(INITIAL, "a", None) == ONE && DoAdd(ONE, "b", Some(7)) == TWO
  {
    assert [A] + [B] == [A, B];
  }

  lemma BeginsPass()
    ensures Enabled(TWO, RefreshBegin([B, A])) && Next(TWO, RefreshBegin([B, A])) == PASSING
  {
    assert Names([A, B]) == ["a", "b"];
  }

  lemma RemovesFirst()
    ensures DoRemove(PASSING, "a") == REMOVED
  {
    assert Names([A, B])[0] == "a";
    assert Position(Names([A, B]), "a") == Some(0);
    assert RemoveAt([A, B], 0) == [B];
    assert Rebuilt([B], map[1 := 7], 1) == map[7 := 0];
    assert TWO.live - {"a"} == map["b" := B];
  }

  lemma BrokenFails()
    ensures BROKEN.live != map[] && Lookup(BROKEN.table, Some(7)) == Err("adapter index out of bounds")
  {
    assert "b" in BROKEN.live;
  }

  lemma AssociatesStale()
    ensures DoRefreshOne(REMOVED) == BROKEN
  {
    var names := ["a", "b"];
    assert names[1..][0] == "b";
    assert Position(names[1..], "b") == Some(0);
    assert Position(names, "b") == Some(1);
    assert [B, A][1..] == [A] && [B, A][0] == B;
    assert InfoOf(map[1 := 7], B) == Some(7);
    assert map[7 := 0][7 := 1] == map[7 := 1];
  }

  // ----- A pass with nothing in between -----

  function RefreshAll(s: State): (t: State)
    requires s.refresh.Pass?
    ensures t.refresh.Pass? && t.refresh.todo == []
    decreases |if s.refresh.Pass? then s.refresh.todo else []|
  {
    if s.refresh.todo == [] then s else RefreshAll(DoRefreshOne(s))
  }

  /** It keeps everything in order, and every live adapter whose account is known ends up with a route for it. */
  lemma {:induction false} RefreshAllKeeps(s: State)
    requires Inv(s) && s.refresh.Pass?
    ensures var t := RefreshAll(s);
            Inv(t) && t.table.adapters == s.table.adapters && t.known == s.known
    ensures forall a :: a in s.refresh.todo && InfoOf(s.known, a).Some? ==>
              InfoOf(s.known, a).value in RefreshAll(s).table.routes
    ensures forall selfId :: selfId in s.table.routes ==> selfId in RefreshAll(s).table.routes
    decreases |if s.refresh.Pass? then s.refresh.todo else []|
  {
    if s.refresh.todo == [] {
    } else {
      ConsistentKept(s, RefreshOne);
      SoundKept(s, RefreshOne);
      FreshKept(s, RefreshOne);
      FirstIsRouted(s);
      hide Inv, DoRefreshOne;
      RefreshAllKeeps(DoRefreshOne(s));
      forall a | a in s.refresh.todo && InfoOf(s.known, a).Some?
        ensures InfoOf(s.known, a).value in RefreshAll(s).table.routes
      {
        if a != s.refresh.todo[0] { assert a in s.refresh.todo[1..]; }
      }
    }
  }

  lemma FirstIsRouted(s: State)
    requires FreshIndices(s) && Enabled(s, RefreshOne)
    ensures var t := DoRefreshOne(s);
            t.refresh.Pass? && t.refresh.todo == s.refresh.todo[1..]
            && t.known == s.known && t.table.adapters == s.table.adapters
            && (forall selfId :: selfId in s.table.routes ==> selfId in t.table.routes)
            && (InfoOf(s.known, s.refresh.todo[0]).Some? ==> InfoOf(s.known, s.refresh.todo[0]).value in t.table.routes)
  {
    hide Position;
    assert Indexed(s, s.refresh.todo[0]);
  }

  // ----- The manager object -----

  class Manager {
    const router: ApiRouter
    var live: map<string, Adapter>
    var known: Known
    var nextId: nat

    ghost function Abs(): State
      reads this, router
    {
      State(router.Abs(), live, known, nextId, Idle)
    }

    constructor ()
      ensures Abs() == INITIAL && fresh(router)
    {
      router := new ApiRouter();
      live, known, nextId := map[], map[], 0;
    }

    /** Refuses a name that is already live. */
    method AddAdapter(name: string, reported: Option<I64>) returns (ok: bool)
      modifies this, router
      ensures Abs() == Next(old(Abs()), Add(name, reported)) && ok == (name !in old(live))
    {
      if name in live {
        return false;
      }
      var a := Adapter(nextId, name);
      nextId := nextId + 1;
      if reported.Some? {
        known := known[a.id := reported.value];
      }
      router.Register(a, reported);
      live := live[name := a];
      ok := true;
    }

    method RemoveAdapter(name: string) returns (ok: bool)
      modifies this, router
      ensures Abs() == Next(old(Abs()), Remove(name)) && ok == (name in old(live))
    {
      if name !in live {
        return false;
      }
      live := live - {name};
      var _ := router.Unregister(name, known);
      ok := true;
    }

    /** One refresh pass with nothing in between, over the live adapters in the given order. */
    method RefreshRoutesNow(order: seq<Adapter>)
      requires Enabled(Abs(), RefreshBegin(order))
      modifies router
      ensures Abs() == Next(RefreshAll(Next(old(Abs()), RefreshBegin(order))), RefreshEnd)
    {
      hide Position, Names;
      var names := Names(router.adapters);
      ghost var s := Next(Abs(), RefreshBegin(order));
      for i := 0 to |order|
        invariant s.refresh.Pass? && s.refresh.todo == order[i..] && s.refresh.names == names
        invariant Abs() == s.(refresh := Idle)
        invariant RefreshAll(s) == RefreshAll(Next(old(Abs()), RefreshBegin(order)))
      {
        s := DoRefreshOne(s);
        var selfId := InfoOf(known, order[i]);
        if selfId.Some? {
          var index := Position(names, order[i].name);
          if index.Some? {
            router.AssociateSelfId(selfId.value, index.value);
          }
        }
      }
    }
  }
}
