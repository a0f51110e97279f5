/** The routing table over an ordered list of adapters whose indices shift. */
module Router {
  import opened Wrappers
  import opened JsonTree

  /** One adapter object; a name may come back later as another object. */
  datatype Adapter = Adapter(id: nat, name: string)

  /** The account id each adapter object has reported so far. */
  type Known = map<nat, I64>

  function InfoOf(known: Known, a: Adapter): Option<I64> {
    if a.id in known then Some(known[a.id]) else None
  }

  datatype Table = Table(routes: map<I64, nat>, adapters: seq<Adapter>, default: Option<nat>)

  const EMPTY := Table(map[], [], None)

  function Registered(t: Table, a: Adapter, selfId: Option<I64>): Table {
    var index := |t.adapters|;
    Table(if selfId.Some? then t.routes[selfId.value := index] else t.routes,
          t.adapters + [a],
          if t.default.None? then Some(index) else t.default)
  }

  function Associated(t: Table, selfId: I64, index: nat): Table {
    t.(routes := t.routes[selfId := index])
  }

  /** First index with the name. */
  function Position(names: seq<string>, name: string): (r: Option<nat>)
    ensures r.Some? ==> r.value < |names| && names[r.value] == name && name !in names[..r.value]
    ensures r.None? ==> name !in names
  {
    if names == [] then None
    else if names[0] == name then Some(0)
    else match Position(names[1..], name) case Some(i) => Some(i + 1) case None => None
  }

  function Names(adapters: seq<Adapter>): (names: seq<string>)
    ensures |names| == |adapters| && forall i :: 0 <= i < |names| ==> names[i] == adapters[i].name
  {
    seq(|adapters|, i requires 0 <= i < |adapters| => adapters[i].name)
  }

  /** The table rebuilt from the first `n` adapters, later ones winning. */
  function Rebuilt(adapters: seq<Adapter>, known: Known, n: nat): map<I64, nat>
    requires n <= |adapters|
  {
    if n == 0 then map[]
    else
      var before := Rebuilt(adapters, known, n - 1);
      match InfoOf(known, adapters[n - 1]) case Some(selfId) => before[selfId := n - 1] case None => before
  }

  function RemoveAt<T>(s: seq<T>, i: nat): seq<T>
    requires i < |s|
  {
    s[..i] + s[i + 1..]
  }

  function Unregistered(t: Table, name: string, known: Known): Table {
    match Position(Names(t.adapters), name)
    case None => t
    case Some(pos) =>
      var rest := RemoveAt(t.adapters, pos);
      Table(Rebuilt(rest, known, |rest|), rest, if rest == [] then None else Some(0))
  }

  /** Which adapter a request goes to. */
  function Lookup(t: Table, selfId: Option<I64>): Result<Adapter> {
    if t.adapters == [] then Err("no adapters registered")
    else
      var index := if selfId.Some? && selfId.value in t.routes then t.routes[selfId.value] else t.default.GetOr(0);
      if index < |t.adapters| then Ok(t.adapters[index]) else Err("adapter index out of bounds")
  }

  // ----- A sound table -----

  ghost predicate NamesDistinct(adapters: seq<Adapter>) {
    forall i, j :: 0 <= i < j < |adapters| ==> adapters[i].name != adapters[j].name
  }

  /** Every index is in range and names an adapter that reported that account; the default is the first adapter. */
  ghost predicate Sound(t: Table, known: Known) {
    (forall selfId :: selfId in t.routes ==>
       t.routes[selfId] < |t.adapters| && InfoOf(known, t.adapters[t.routes[selfId]]) == Some(selfId))
    && t.default == (if t.adapters == [] then None else Some(0))
  }

  lemma {:induction false} RebuiltIsSound(adapters: seq<Adapter>, known: Known, n: nat)
    requires n <= |adapters|
    ensures forall selfId :: selfId in Rebuilt(adapters, known, n) ==>
              Rebuilt(adapters, known, n)[selfId] < n
              && InfoOf(known, adapters[Rebuilt(adapters, known, n)[selfId]]) == Some(selfId)
    ensures forall i :: 0 <= i < n && InfoOf(known, adapters[i]).Some? ==>
              InfoOf(known, adapters[i]).value in Rebuilt(adapters, known, n)
  {
    if n == 0 {
    } else {
      RebuiltIsSound(adapters, known, n - 1);
    }
  }

  /** When several adapters reported one account, the last of them has it. */
  lemma {:induction false} LastOneWins(adapters: seq<Adapter>, known: Known, n: nat, i: nat, selfId: I64)
    requires i < n <= |adapters| && InfoOf(known, adapters[i]) == Some(selfId)
    requires forall j :: i < j < n ==> InfoOf(known, adapters[j]) != Some(selfId)
    ensures selfId in Rebuilt(adapters, known, n) && Rebuilt(adapters, known, n)[selfId] == i
  {
    if i == n - 1 {
    } else {
      LastOneWins(adapters, known, n - 1, i, selfId);
    }
  }

  /** A sound table never fails while there are adapters, and finds the right one. */
  lemma LookupFindsAdapter(t: Table, known: Known, selfId: Option<I64>)
    requires Sound(t, known) && t.adapters != []
    ensures Lookup(t, selfId).Ok? && Lookup(t, selfId).value in t.adapters
    ensures if selfId.Some? && selfId.value in t.routes then InfoOf(known, Lookup(t, selfId).value) == selfId
            else Lookup(t, selfId).value == t.adapters[0]
  {
  }

  /** Registering routes the new adapter's account to it, and moves no other account and not the default. */
  lemma RegisterRoutes(t: Table, known: Known, a: Adapter, selfId: I64, other: Option<I64>)
    requires Sound(t, known)
    ensures Lookup(Registered(t, a, Some(selfId)), Some(selfId)) == Ok(a)
    ensures t.adapters != [] && other != Some(selfId) ==>
        Lookup(Registered(t, a, Some(selfId)), other) == Lookup(t, other)
    ensures t.adapters != [] ==> Lookup(Registered(t, a, None), other) == Lookup(t, other)
    ensures t.adapters == [] ==> Lookup(Registered(t, a, None), other) == Ok(a)
  {
  }

  /** A name that is not registered cannot be unregistered. */
  lemma UnknownNameChangesNothing(t: Table, name: string, known: Known)
    requires name !in Names(t.adapters)
    ensures Unregistered(t, name, known) == t
  {
  }

  /** Unregistering one of two accounts leaves the other routed, whatever its index was. */
  lemma UnregisterReroutes(t: Table, name: string, known: Known, a: Adapter, selfId: I64)
    requires NamesDistinct(t.adapters) && a in t.adapters && a.name != name
    requires InfoOf(known, a) == Some(selfId)
    requires forall b :: b in t.adapters && InfoOf(known, b) == Some(selfId) ==> b == a
    requires name in Names(t.adapters)
    ensures Lookup(Unregistered(t, name, known), Some(selfId)) == Ok(a)
  {
    hide Rebuilt;
    var pos := Position(Names(t.adapters), name).value;
    assert t.adapters[pos].name == name;
    hide Position, Names, NamesDistinct;
    var rest := RemoveAt(t.adapters, pos);
    Remaining(t.adapters, pos);
    RebuiltIsSound(rest, known, |rest|);
    var j :| 0 <= j < |rest| && rest[j] == a;
    assert InfoOf(known, rest[j]).value in Rebuilt(rest, known, |rest|);
    assert rest[Rebuilt(rest, known, |rest|)[selfId]] in t.adapters;
  }

  /** What is left is every other entry. */
  lemma Remaining(adapters: seq<Adapter>, pos: nat)
    requires pos < |adapters|
    ensures forall b :: b in RemoveAt(adapters, pos) ==> b in adapters
    ensures forall b :: b in adapters && b != adapters[pos] ==> b in RemoveAt(adapters, pos)
  {
    var rest := RemoveAt(adapters, pos);
    forall b | b in adapters && b != adapters[pos] ensures b in rest {
      var i :| 0 <= i < |adapters| && adapters[i] == b;
      assert rest[if i < pos then i else i - 1] == b;
    }
  }

  // ----- The router object -----

  class ApiRouter {
    var routingTable: map<I64, nat>
    var adapters: seq<Adapter>
    var defaultIndex: Option<nat>

    function Abs(): Table
      reads this
    {
      Table(routingTable, adapters, defaultIndex)
    }

    constructor ()
      ensures Abs() == EMPTY
    {
      routingTable, adapters, defaultIndex := map[], [], None;
    }

    method Register(a: Adapter, selfId: Option<I64>)
      modifies this
      ensures Abs() == Registered(old(Abs()), a, selfId)
    {
      var index := |adapters|;
      adapters := adapters + [a];
      if selfId.Some? {
        routingTable := routingTable[selfId.value := index];
      }
      if defaultIndex.None? {
        defaultIndex := Some(index);
      }
    }

    method AssociateSelfId(selfId: I64, index: nat)
      modifies this
      ensures Abs() == Associated(old(Abs()), selfId, index)
    {
      routingTable := routingTable[selfId := index];
    }

    method Unregister(name: string, known: Known) returns (removed: Option<Adapter>)
      modifies this
      ensures Abs() == Unregistered(old(Abs()), name, known)
      ensures removed.Some? <==> name in Names(old(adapters))
      ensures removed.Some? ==> removed.value.name == name && removed.value in old(adapters)
    {
      var pos := Position(Names(adapters), name);
      if pos.None? {
        return None;
      }
      removed := Some(adapters[pos.value]);
      adapters := RemoveAt(adapters, pos.value);
      routingTable := map[];
      for idx := 0 to |adapters|
        invariant adapters == RemoveAt(old(adapters), pos.value) && defaultIndex == old(defaultIndex)
        invariant routingTable == Rebuilt(adapters, known, idx)
      {
        var selfId := InfoOf(known, adapters[idx]);
        if selfId.Some? {
          routingTable := routingTable[selfId.value := idx];
        }
      }
      defaultIndex := if adapters == [] then None else Some(0);
    }

    method RouteNamed(selfId: Option<I64>) returns (r: Result<Adapter>)
      ensures r == Lookup(Abs(), selfId)
    {
      if adapters == [] {
        return Err("no adapters registered");
      }
      var index;
      if selfId.Some? && selfId.value in routingTable {
        index := routingTable[selfId.value];
      } else {
        index := defaultIndex.GetOr(0);
      }
      if index < |adapters| {
        r := Ok(adapters[index]);
      } else {
        r := Err("adapter index out of bounds");
      }
    }
  }
}
