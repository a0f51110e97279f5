/**
 The Satori WebSocket server: handshake, event sequence numbers and the connection gauge,
 with any number of sessions interleaved at their await points.
 */
module SatoriSession {
  import opened Wrappers
  import opened Runs

  datatype Frame = Ready | Event(sn: nat) | Pong

  /** Waiting for IDENTIFY; accepted, READY not yet sent; exchanging signals; over. */
  datatype Phase = Handshake | Accepted | Live | Over

  /** `holding` is the number the push task has taken for an event it has not yet tried to queue. */
  datatype Conn = Conn(
    phase: Phase, channelOpen: bool, pushing: bool, holding: Option<nat>, queue: seq<Frame>, written: seq<Frame>)

  const FRESH := Conn(Handshake, false, false, None, [], [])

  /** One server: the shared sequence counter, the gauge of active connections, the configured token. */
  datatype State = State(sn: nat, gauge: int, token: string, conns: map<nat, Conn>)

  function Initial(token: string): State {
    State(0, 0, token, map[])
  }

  datatype Step =
    | Reload(token: string)
    | Connect(c: nat)
    | Identify(c: nat, presented: string, replyArrives: bool)
    | HandshakeFails(c: nat)
    | SendReady(c: nat, arrives: bool)
    | TakeNumber(c: nat) | TryQueue(c: nat)
    | Ping(c: nat)
    | Write(c: nat) | WriterFails(c: nat)
    | Close(c: nat)

  predicate In(s: State, c: nat, ph: Phase) {
    c in s.conns && s.conns[c].phase == ph
  }

  predicate Enabled(capacity: nat, s: State, step: Step) {
    match step
    case Reload(_) => true
    case Connect(c) => c !in s.conns
    case Identify(c, _, _) => In(s, c, Handshake)
    case HandshakeFails(c) => In(s, c, Handshake)
    case SendReady(c, _) => In(s, c, Accepted)
    case TakeNumber(c) => In(s, c, Live) && s.conns[c].pushing && s.conns[c].holding.None?
    case TryQueue(c) => c in s.conns && s.conns[c].holding.Some?
    case Ping(c) => In(s, c, Live) && (s.conns[c].channelOpen ==> |s.conns[c].queue| < capacity)
    case Write(c) => In(s, c, Live) && s.conns[c].channelOpen && s.conns[c].queue != []
    case WriterFails(c) => In(s, c, Live) && s.conns[c].channelOpen && s.conns[c].queue != []
    case Close(c) => In(s, c, Live)
  }

  function Put(s: State, c: nat, conn: Conn): State {
    s.(conns := s.conns[c := conn])
  }

  /** Every way out of a session lowers the gauge. */
  function Leave(s: State, c: nat, conn: Conn): State {
    Put(s, c, conn.(phase := Over, channelOpen := false, pushing := false, queue := [])).(gauge := s.gauge - 1)
  }

  /** READY has gone out; the channel, its writer and the push task start. */
  function GoLive(conn: Conn): Conn {
    conn.(phase := Live, channelOpen := true, pushing := true, written := conn.written + [Ready])
  }

  /** No token configured, or the right one. */
  predicate Authorised(required: string, presented: string) {
    required == "" || presented == required
  }

  function TryQueued(capacity: nat, conn: Conn): Conn
    requires conn.holding.Some?
  {
    var done := conn.(holding := None);
    if !conn.channelOpen then done.(pushing := false)
    else if |conn.queue| < capacity then done.(queue := conn.queue + [Event(conn.holding.value)])
    else done
  }

  function Next(capacity: nat, s: State, step: Step): State
    requires Enabled(capacity, s, step)
  {
    match step
    case Reload(token) => s.(token := token)
    case Connect(c) => Put(s, c, FRESH).(gauge := s.gauge + 1)
    case Identify(c, presented, replyArrives) =>
      var conn := s.conns[c];
      if Authorised(s.token, presented) then Put(s, c, conn.(phase := Accepted))
      else Leave(s, c, if replyArrives then conn.(written := conn.written + [Ready]) else conn)
    case HandshakeFails(c) => Leave(s, c, s.conns[c])
    case SendReady(c, arrives) =>
      var conn := s.conns[c];
      if arrives then Put(s, c, GoLive(conn))
      else Leave(s, c, conn)
    case TakeNumber(c) => Put(s, c, s.conns[c].(holding := Some(s.sn + 1))).(sn := s.sn + 1)
    case TryQueue(c) => Put(s, c, TryQueued(capacity, s.conns[c]))
    case Ping(c) =>
      var conn := s.conns[c];
      Put(s, c, if conn.channelOpen then conn.(queue := conn.queue + [Pong]) else conn)
    case Write(c) =>
      var conn := s.conns[c];
      Put(s, c, conn.(queue := conn.queue[1..], written := conn.written + [conn.queue[0]]))
    case WriterFails(c) => Put(s, c, s.conns[c].(channelOpen := false, queue := []))
    case Close(c) => Leave(s, c, s.conns[c])
  }

  ghost predicate IsRun(capacity: nat, states: seq<State>, steps: seq<Step>) {
    |states| == |steps| + 1 && states[0] == Initial(states[0].token)
    && forall i :: 0 <= i < |steps| ==>
        Enabled(capacity, states[i], steps[i]) && states[i + 1] == Next(capacity, states[i], steps[i])
  }

  // ----- Invariants -----

  function Log(conn: Conn): seq<Frame> {
    conn.written + conn.queue
  }

  /** The connection has used, or is about to use, sequence number `n`. */
  predicate Uses(conn: Conn, n: nat) {
    Event(n) in Log(conn) || conn.holding == Some(n)
  }

  /** Numbers rise along the log and stay below the one held; nothing exceeds the shared counter. */
  ghost predicate Rising(conn: Conn, sn: nat) {
    (forall i, j :: 0 <= i < j < |Log(conn)| && Log(conn)[i].Event? && Log(conn)[j].Event? ==>
        Log(conn)[i].sn < Log(conn)[j].sn)
    && (forall i :: 0 <= i < |Log(conn)| && Log(conn)[i].Event? ==>
          Log(conn)[i].sn <= sn && (conn.holding.Some? ==> Log(conn)[i].sn < conn.holding.value))
    && (conn.holding.Some? ==> conn.holding.value <= sn)
  }

  /** READY comes first and once; nothing else is there before the session is live. */
  predicate Ordered(conn: Conn) {
    (forall i :: 0 < i < |conn.written| ==> !conn.written[i].Ready?)
    && (forall i :: 0 <= i < |conn.queue| ==> !conn.queue[i].Ready?)
    && (conn.written != [] ==> conn.written[0].Ready?)
    && (conn.phase == Handshake || conn.phase == Accepted ==>
        conn.written == [] && conn.queue == [] && conn.holding.None?)
    && (conn.phase == Live ==> conn.written != [])
    && (conn.phase != Live ==> !conn.channelOpen && !conn.pushing && conn.queue == [])
    && (!conn.channelOpen ==> conn.queue == [])
  }

  ghost predicate Separate(s: State) {
    forall c, d, n :: c in s.conns && d in s.conns && Uses(s.conns[c], n) && Uses(s.conns[d], n) ==> c == d
  }

  ghost function OpenSessions(s: State): set<nat> {
    set c | c in s.conns && s.conns[c].phase != Over
  }

  ghost predicate Inv(s: State) {
    s.gauge == |OpenSessions(s)|
    && (forall c :: c in s.conns ==> Rising(s.conns[c], s.sn) && Ordered(s.conns[c]))
    && Separate(s)
  }

  /** What a session adds to the gauge. */
  function Weight(conns: map<nat, Conn>, c: nat): int {
    if c in conns && conns[c].phase != Over then 1 else 0
  }

  /** A step touches one connection at most, and moves the gauge with it. */
  lemma GaugeMoves(capacity: nat, s: State, step: Step)
    requires Enabled(capacity, s, step) && !step.Reload?
    ensures var t := Next(capacity, s, step);
            step.c in t.conns && t.conns == s.conns[step.c := t.conns[step.c]]
            && t.gauge == s.gauge + Weight(t.conns, step.c) - Weight(s.conns, step.c)
  {
  }

  lemma OpenCount(s: State, t: State, c: nat)
    requires c in t.conns && t.conns == s.conns[c := t.conns[c]]
    ensures |OpenSessions(t)| == |OpenSessions(s)| + Weight(t.conns, c) - Weight(s.conns, c)
  {
    var a, b := OpenSessions(s), OpenSessions(t);
    assert forall d :: d != c ==> (d in a <==> d in b);
    assert (c in a <==> Weight(s.conns, c) == 1) && (c in b <==> Weight(t.conns, c) == 1);
    hide OpenSessions, Weight;
    assert a - {c} == b - {c};
    WithOrWithout(a, c);
    WithOrWithout(b, c);
  }

  lemma WithOrWithout(a: set<nat>, c: nat)
    ensures |a - {c}| == |a| - if c in a then 1 else 0
  {
    if c !in a { assert a - {c} == a; }
  }

  lemma GaugeKept(capacity: nat, s: State, step: Step)
    requires Enabled(capacity, s, step) && s.gauge == |OpenSessions(s)|
    ensures Next(capacity, s, step).gauge == |OpenSessions(Next(capacity, s, step))|
  {
    var t := Next(capacity, s, step);
    if step.Reload? {
      assert OpenSessions(t) == OpenSessions(s);
    } else {
      GaugeMoves(capacity, s, step);
      hide Next, Enabled, OpenSessions, Weight;
      OpenCount(s, t, step.c);
    }
  }

  lemma ConnOrdered(capacity: nat, s: State, step: Step, c: nat)
    requires Enabled(capacity, s, step) && (forall d :: d in s.conns ==> Ordered(s.conns[d]))
    requires c in Next(capacity, s, step).conns
    ensures Ordered(Next(capacity, s, step).conns[c])
  {
    if c in s.conns { assert Ordered(s.conns[c]); }
    match step
    case Write(d) =>
      if d == c { WriteOrdered(s.conns[c]); }
    case TryQueue(d) =>
      if d == c { TryOrdered(capacity, s.conns[c]); }
    case Ping(d) =>
      if d == c { PongOrdered(s.conns[c]); }
    case _ => PlainOrdered(capacity, s, step, c);
  }

  lemma PlainOrdered(capacity: nat, s: State, step: Step, c: nat)
    requires Enabled(capacity, s, step) && (c in s.conns ==> Ordered(s.conns[c]))
    requires !step.Write? && !step.TryQueue? && !step.Ping? && c in Next(capacity, s, step).conns
    ensures Ordered(Next(capacity, s, step).conns[c])
  {
  }

  lemma PongOrdered(a: Conn)
    requires Ordered(a) && a.phase == Live
    ensures Ordered(if a.channelOpen then a.(queue := a.queue + [Pong]) else a)
  {
  }

  lemma TryOrdered(capacity: nat, a: Conn)
    requires Ordered(a) && a.holding.Some?
    ensures Ordered(TryQueued(capacity, a))
  {
  }

  lemma WriteOrdered(a: Conn)
    requires Ordered(a) && a.queue != []
    ensures Ordered(a.(queue := a.queue[1..], written := a.written + [a.queue[0]]))
  {
  }

  lemma FreshKept(sn: nat)
    ensures Rising(FRESH, sn) && forall n :: !Uses(FRESH, n)
  {
  }

  lemma HoldKept(a: Conn, sn: nat)
    requires Rising(a, sn) && a.holding.None?
    ensures Rising(a.(holding := Some(sn + 1)), sn + 1)
    ensures forall n :: Uses(a.(holding := Some(sn + 1)), n) ==> Uses(a, n) || n == sn + 1
  {
    assert Log(a.(holding := Some(sn + 1))) == Log(a);
  }

  lemma LaterKept(a: Conn, sn: nat, later: nat)
    requires Rising(a, sn) && sn <= later
    ensures Rising(a, later)
  {
  }

  /** What any step does to the one connection it touches. */
  lemma ConnKept(capacity: nat, s: State, step: Step, c: nat)
    requires Enabled(capacity, s, step) && Inv(s)
    requires c in Next(capacity, s, step).conns
    ensures var t := Next(capacity, s, step); Rising(t.conns[c], t.sn) && Ordered(t.conns[c])
    ensures var t := Next(capacity, s, step);
            forall n :: Uses(t.conns[c], n) ==>
              (c in s.conns && Uses(s.conns[c], n)) || (step == TakeNumber(c) && n == t.sn > s.sn)
  {
    hide Separate, OpenSessions, Rising, Uses;
    ConnOrdered(capacity, s, step, c);
    var t := Next(capacity, s, step);
    if step.Reload? || step.c != c {
      assert t.conns[c] == s.conns[c] && t.sn >= s.sn;
      LaterKept(s.conns[c], s.sn, t.sn);
    } else if step.TryQueue? {
      QueueKept(capacity, s.conns[c], s.sn);
    } else if step.Ping? {
      PongKept(s.conns[c], s.sn);
    } else if step.Write? {
      WriteKept(s.conns[c], s.sn);
    } else if step.TakeNumber? {
      HoldKept(s.conns[c], s.sn);
    } else if step.Connect? {
      FreshKept(s.sn);
    } else {
      CutKept(s.conns[c], t.conns[c], s.sn);
    }
  }

  /** Losing the queue, or a first READY on an empty log. */
  lemma CutKept(a: Conn, b: Conn, sn: nat)
    requires Rising(a, sn) && b.holding == a.holding
    requires (b.written == a.written && (b.queue == a.queue || b.queue == []))
        || (a.written == a.queue == b.queue == [] && b.written == [Ready])
    ensures Rising(b, sn) && forall n :: Uses(b, n) ==> Uses(a, n)
  {
    if b.written == a.written {
      if b.queue == a.queue {
        assert Log(b) == Log(a);
      } else {
        assert Log(b) == a.written;
      }
      PrefixKept(a, b, sn);
    }
  }

  lemma PrefixKept(a: Conn, b: Conn, sn: nat)
    requires Rising(a, sn) && b.holding == a.holding && Log(b) <= Log(a)
    ensures Rising(b, sn) && forall n :: Uses(b, n) ==> Uses(a, n)
  {
    hide Log;
    var l, m := Log(a), Log(b);
    assert forall i :: 0 <= i < |m| ==> m[i] == l[i];
    forall n | Uses(b, n) ensures Uses(a, n) {
      if Event(n) in m {
        var i :| 0 <= i < |m| && m[i] == Event(n);
        assert l[i] == Event(n);
      }
    }
  }

  lemma QueueKept(capacity: nat, a: Conn, sn: nat)
    requires a.holding.Some? && Rising(a, sn) && Ordered(a)
    ensures var b := TryQueued(capacity, a); Rising(b, sn) && Ordered(b) && forall n :: Uses(b, n) ==> Uses(a, n)
  {
    var b := TryQueued(capacity, a);
    if a.channelOpen && |a.queue| < capacity {
      assert Log(b) == Log(a) + [Event(a.holding.value)];
    } else {
      assert Log(b) == Log(a);
    }
  }

  lemma PongKept(a: Conn, sn: nat)
    requires Rising(a, sn) && Ordered(a)
    ensures var b := if a.channelOpen then a.(queue := a.queue + [Pong]) else a;
            Rising(b, sn) && Ordered(b) && forall n :: Uses(b, n) ==> Uses(a, n)
  {
    var b := a.(queue := a.queue + [Pong]);
    assert Log(b) == Log(a) + [Pong];
  }

  lemma WriteKept(a: Conn, sn: nat)
    requires a.queue != [] && Rising(a, sn) && Ordered(a) && a.phase == Live && a.channelOpen
    ensures var b := a.(queue := a.queue[1..], written := a.written + [a.queue[0]]);
            Rising(b, sn) && Ordered(b) && forall n :: Uses(b, n) ==> Uses(a, n)
  {
    var b := a.(queue := a.queue[1..], written := a.written + [a.queue[0]]);
    assert Log(b) == Log(a);
  }

  lemma SeparateKept(capacity: nat, s: State, step: Step)
    requires Enabled(capacity, s, step) && Inv(s)
    ensures Separate(Next(capacity, s, step))
  {
    var t := Next(capacity, s, step);
    forall c, d, n | c in t.conns && d in t.conns && Uses(t.conns[c], n) && Uses(t.conns[d], n)
      ensures c == d
    {
      ConnKept(capacity, s, step, c);
      ConnKept(capacity, s, step, d);
      if c in s.conns && Uses(s.conns[c], n) { UsedIsTaken(s.conns[c], n, s.sn); }
      if d in s.conns && Uses(s.conns[d], n) { UsedIsTaken(s.conns[d], n, s.sn); }
    }
  }

  lemma UsedIsTaken(conn: Conn, n: nat, sn: nat)
    requires Rising(conn, sn) && Uses(conn, n)
    ensures n <= sn
  {
  }

  lemma {:induction false} AlwaysInv(capacity: nat, states: seq<State>, steps: seq<Step>, i: nat)
    requires IsRun(capacity, states, steps) && i < |states|
    ensures Inv(states[i])
  {
    hide Next, Enabled, Rising, Ordered, Separate;
    if i == 0 {
      assert OpenSessions(states[0]) == {};
      EmptySeparate(states[0]);
    } else {
      var s, step := states[i - 1], steps[i - 1];
      AlwaysInv(capacity, states, steps, i - 1);
      GaugeKept(capacity, s, step);
      SeparateKept(capacity, s, step);
      forall c | c in states[i].conns ensures Rising(states[i].conns[c], states[i].sn) && Ordered(states[i].conns[c]) {
        ConnKept(capacity, s, step, c);
      }
    }
  }

  lemma EmptySeparate(s: State)
    requires s.conns == map[]
    ensures Separate(s)
  {
  }

  // ----- The server's promises -----

  /** On every exit path: the gauge of active connections is the number of sessions not yet over. */
  lemma GaugeCountsOpenSessions(capacity: nat, states: seq<State>, steps: seq<Step>, i: nat)
    requires IsRun(capacity, states, steps) && i < |states|
    ensures states[i].gauge == |OpenSessions(states[i])|
  {
    AlwaysInv(capacity, states, steps, i);
  }

  /** On one connection the numbers written strictly increase; two connections never share one. */
  lemma SequenceNumbers(capacity: nat, states: seq<State>, steps: seq<Step>, i: nat, c: nat, d: nat, j: nat, k: nat)
    requires IsRun(capacity, states, steps) && i < |states|
    requires c in states[i].conns && d in states[i].conns
    requires j < |states[i].conns[c].written| && k < |states[i].conns[d].written|
    requires states[i].conns[c].written[j].Event? && states[i].conns[d].written[k].Event?
    ensures c == d && j < k ==> states[i].conns[c].written[j].sn < states[i].conns[d].written[k].sn
    ensures c != d ==> states[i].conns[c].written[j].sn != states[i].conns[d].written[k].sn
  {
    AlwaysInv(capacity, states, steps, i);
    var a, b := states[i].conns[c], states[i].conns[d];
    assert Log(a)[j] == a.written[j] && Log(b)[k] == b.written[k];
    assert Uses(a, a.written[j].sn) && Uses(b, b.written[k].sn);
  }

  /** Accepted, live, or with more than one frame sent or queued. */
  predicate PastHandshake(conn: Conn) {
    conn.phase == Accepted || conn.phase == Live || |conn.written| + |conn.queue| > 1
  }

  lemma NeedsIdentify(capacity: nat, states: seq<State>, steps: seq<Step>, i: nat, c: nat)
    requires IsRun(capacity, states, steps) && i < |states| && c in states[i].conns && PastHandshake(states[i].conns[c])
    ensures 0 < i <= |steps| < |states|
    ensures var s, step := states[i - 1], steps[i - 1];
            (step.Identify? && step.c == c && Authorised(s.token, step.presented))
            || (c in s.conns && PastHandshake(s.conns[c]))
  {
    hide Next, Enabled, Inv, PastHandshake, Authorised;
    assert states[0].conns == map[];
    assert i > 0;
    assert Enabled(capacity, states[i - 1], steps[i - 1]) && states[i] == Next(capacity, states[i - 1], steps[i - 1]);
    AlwaysInv(capacity, states, steps, i - 1);
    StepNeedsIdentify(capacity, states[i - 1], steps[i - 1], c);
  }

  /** A session past the handshake identified itself with the token required at that moment. */
  lemma {:induction false} PastHandshakeIdentified(capacity: nat, states: seq<State>, steps: seq<Step>, i: nat, c: nat)
      returns (k: nat)
    requires IsRun(capacity, states, steps) && i < |states| && c in states[i].conns
    requires PastHandshake(states[i].conns[c])
    ensures k < i && steps[k].Identify? && steps[k].c == c && Authorised(states[k].token, steps[k].presented)
  {
    hide IsRun, PastHandshake, Authorised;
    NeedsIdentify(capacity, states, steps, i, c);
    var step := steps[i - 1];
    if step.Identify? && step.c == c && Authorised(states[i - 1].token, step.presented) {
      k := i - 1;
    } else {
      k := PastHandshakeIdentified(capacity, states, steps, i - 1, c);
    }
  }

  lemma StepNeedsIdentify(capacity: nat, s: State, step: Step, c: nat)
    requires Enabled(capacity, s, step) && Inv(s)
    requires c in Next(capacity, s, step).conns
    requires PastHandshake(Next(capacity, s, step).conns[c])
    ensures (step.Identify? && step.c == c && Authorised(s.token, step.presented))
            || (c in s.conns && PastHandshake(s.conns[c]))
  {
    hide Separate, Rising, OpenSessions, Ordered, Inv;
    if c in s.conns {
      OrderedFacts(s, c);
      if step.Reload? || step.c != c {
        assert Next(capacity, s, step).conns[c] == s.conns[c];
      } else if step.TryQueue? {
        var a := s.conns[c];
        assert a.phase != Live ==> TryQueued(capacity, a).phase == a.phase && TryQueued(capacity, a).queue == a.queue;
      }
    }
  }

  lemma OrderedFacts(s: State, c: nat)
    requires Inv(s) && c in s.conns
    ensures var conn := s.conns[c];
            (conn.phase == Handshake ==> conn.written == [] && conn.queue == [])
            && (conn.phase != Live ==> !conn.channelOpen && conn.queue == [])
  {
    hide Separate, Rising, OpenSessions;
    assert Ordered(s.conns[c]);
  }

  /** No event and no pong is written on a connection before it sent IDENTIFY with the required token. */
  lemma NothingBeforeIdentify(capacity: nat, states: seq<State>, steps: seq<Step>, i: nat, c: nat, j: nat)
      returns (k: nat)
    requires IsRun(capacity, states, steps) && i < |states| && c in states[i].conns
    requires j < |states[i].conns[c].written| && !states[i].conns[c].written[j].Ready?
    ensures j > 0 && states[i].conns[c].written[0] == Ready
    ensures k < i && steps[k].Identify? && steps[k].c == c
    ensures states[k].token == "" || steps[k].presented == states[k].token
  {
    AlwaysInv(capacity, states, steps, i);
    assert Ordered(states[i].conns[c]);
    k := PastHandshakeIdentified(capacity, states, steps, i, c);
  }

  /** No session is stuck: it can always end, and what it holds or has queued can always move. */
  lemma SessionsProgress(capacity: nat, s: State, c: nat)
    requires c in s.conns && Ordered(s.conns[c]) && capacity > 0
    ensures var conn := s.conns[c];
            match conn.phase
            case Handshake =>
              Enabled(capacity, s, HandshakeFails(c)) && forall token, b :: Enabled(capacity, s, Identify(c, token, b))
            case Accepted => Enabled(capacity, s, SendReady(c, true)) && Enabled(capacity, s, SendReady(c, false))
            case Live =>
              Enabled(capacity, s, Close(c))
              && (Enabled(capacity, s, Ping(c)) || Enabled(capacity, s, Write(c)))
              && (conn.pushing ==> Enabled(capacity, s, TakeNumber(c)) || Enabled(capacity, s, TryQueue(c)))
              && (conn.queue != [] ==> Enabled(capacity, s, Write(c)) && Enabled(capacity, s, WriterFails(c)))
            case Over =>
              !Enabled(capacity, s, Ping(c)) && !Enabled(capacity, s, Write(c)) && !Enabled(capacity, s, Close(c))
    ensures s.conns[c].holding.Some? ==> Enabled(capacity, s, TryQueue(c))
  {
  }

  // ----- Refused clients -----

  /** Step `k` is an IDENTIFY on connection `c`, refused. */
  predicate Refused(states: seq<State>, steps: seq<Step>, k: nat, c: nat) {
    k < |steps| && k < |states| && steps[k].Identify? && steps[k].c == c
    && !Authorised(states[k].token, steps[k].presented)
  }

  /** Step `k` is an IDENTIFY on connection `c` with the required token. */
  predicate Accepts(states: seq<State>, steps: seq<Step>, k: nat, c: nat) {
    k < |steps| && k < |states| && steps[k].Identify? && steps[k].c == c
    && Authorised(states[k].token, steps[k].presented)
  }

  lemma OverStays(capacity: nat, s: State, step: Step, c: nat)
    requires Enabled(capacity, s, step) && In(s, c, Over) && s.conns[c].holding.None?
    ensures c in Next(capacity, s, step).conns && Next(capacity, s, step).conns[c] == s.conns[c]
  {
  }

  lemma RefusedNow(capacity: nat, s: State, step: Step, c: nat)
    requires Enabled(capacity, s, step) && c in s.conns && Ordered(s.conns[c])
    requires step.Identify? && step.c == c && !Authorised(s.token, step.presented)
    ensures Next(capacity, s, step).conns[c] ==
            Conn(Over, false, false, None, [], if step.replyArrives then [Ready] else [])
  {
    assert In(s, c, Handshake);
  }

  /** A refused client is sent the READY frame of an accepted one, if anything, and in all of the run nothing more. */
  lemma {:induction false} RefusedGetsReady(capacity: nat, states: seq<State>, steps: seq<Step>, k: nat, i: nat, c: nat)
    requires IsRun(capacity, states, steps) && k < i < |states| && Refused(states, steps, k, c)
    ensures c in states[i].conns
    ensures states[i].conns[c] == Conn(Over, false, false, None, [], if steps[k].replyArrives then [Ready] else [])
  {
    hide Next, Enabled, Inv, Authorised;
    var s, step := states[i - 1], steps[i - 1];
    assert Enabled(capacity, s, step) && states[i] == Next(capacity, s, step);
    if k == i - 1 {
      AlwaysInv(capacity, states, steps, k);
      ConnIsOrdered(capacity, s, step, c);
      RefusedNow(capacity, s, step, c);
      IdentifyKeepsConn(capacity, s, step);
    } else {
      RefusedGetsReady(capacity, states, steps, k, i - 1, c);
      OverStays(capacity, s, step, c);
    }
  }

  lemma ConnIsOrdered(capacity: nat, s: State, step: Step, c: nat)
    requires Enabled(capacity, s, step) && Inv(s) && step.Identify? && step.c == c
    ensures c in s.conns && Ordered(s.conns[c])
  {
  }

  lemma IdentifyKeepsConn(capacity: nat, s: State, step: Step)
    requires Enabled(capacity, s, step) && step.Identify?
    ensures step.c in Next(capacity, s, step).conns
  {
  }

  /** A connection identifies itself only once: the handshake is over with its first IDENTIFY, and never comes back. */
  lemma {:induction false} HandshakeEnds(capacity: nat, states: seq<State>, steps: seq<Step>, k: nat, i: nat, c: nat)
    requires IsRun(capacity, states, steps) && k < i < |states| && steps[k].Identify? && steps[k].c == c
    ensures c in states[i].conns && states[i].conns[c].phase != Handshake
  {
    hide Next, Enabled;
    var s, step := states[i - 1], steps[i - 1];
    assert Enabled(capacity, s, step) && states[i] == Next(capacity, s, step);
    if k == i - 1 {
      IdentifyEnds(capacity, s, step);
    } else {
      HandshakeEnds(capacity, states, steps, k, i - 1, c);
      HandshakeStep(capacity, s, step, c);
    }
  }

  lemma IdentifyEnds(capacity: nat, s: State, step: Step)
    requires Enabled(capacity, s, step) && step.Identify?
    ensures var t := Next(capacity, s, step); step.c in t.conns && t.conns[step.c].phase != Handshake
  {
  }

  lemma HandshakeStep(capacity: nat, s: State, step: Step, c: nat)
    requires Enabled(capacity, s, step) && c in s.conns && s.conns[c].phase != Handshake
    ensures var t := Next(capacity, s, step); c in t.conns && t.conns[c].phase != Handshake
  {
  }

  lemma OneIdentify(capacity: nat, states: seq<State>, steps: seq<Step>, j: nat, k: nat, c: nat)
    requires IsRun(capacity, states, steps) && j < |steps| && k < |steps|
    requires steps[j].Identify? && steps[k].Identify? && steps[j].c == steps[k].c == c
    ensures j == k
  {
    hide Next;
    assert Enabled(capacity, states[j], steps[j]) && Enabled(capacity, states[k], steps[k]);
    if j < k {
      HandshakeEnds(capacity, states, steps, j, k, c);
    } else if k < j {
      HandshakeEnds(capacity, states, steps, k, j, c);
    }
  }

  /** READY is written only by an accepted handshake, or by a refusal whose reply arrives. */
  lemma {:induction false} ReadySource(capacity: nat, states: seq<State>, steps: seq<Step>, i: nat, c: nat)
      returns (k: nat)
    requires IsRun(capacity, states, steps) && i < |states|
    requires c in states[i].conns && Ready in states[i].conns[c].written
    ensures k < i
    ensures Accepts(states, steps, k, c) || (Refused(states, steps, k, c) && steps[k].replyArrives)
  {
    hide Next, Enabled, Inv, Authorised, PastHandshake;
    assert states[0].conns == map[];
    assert i > 0;
    var s, step := states[i - 1], steps[i - 1];
    assert Enabled(capacity, s, step) && states[i] == Next(capacity, s, step);
    AlwaysInv(capacity, states, steps, i - 1);
    if c in s.conns && Ready in s.conns[c].written {
      k := ReadySource(capacity, states, steps, i - 1, c);
    } else {
      ReadyAppears(capacity, s, step, c);
      if step.SendReady? {
        k := PastHandshakeIdentified(capacity, states, steps, i, c);
      } else {
        k := i - 1;
      }
    }
  }

  lemma ReadyAppears(capacity: nat, s: State, step: Step, c: nat)
    requires Enabled(capacity, s, step) && Inv(s) && c in Next(capacity, s, step).conns
    requires Ready in Next(capacity, s, step).conns[c].written && (c in s.conns ==> Ready !in s.conns[c].written)
    ensures (step.SendReady? && PastHandshake(Next(capacity, s, step).conns[c]))
            || (step.Identify? && step.c == c && !Authorised(s.token, step.presented) && step.replyArrives)
  {
    hide Separate, Rising, OpenSessions;
    if c in s.conns {
      assert Ordered(s.conns[c]);
      assert forall f :: f in s.conns[c].queue ==> f != Ready;
    }
  }

  /**
   READY goes to a client that never sent the right token
   exactly when its IDENTIFY was refused and the reply arrived.
   */
  lemma ReadyWithoutToken(capacity: nat, states: seq<State>, steps: seq<Step>, i: nat, c: nat)
    requires IsRun(capacity, states, steps) && i < |states| && c in states[i].conns
    ensures Ready in states[i].conns[c].written && (forall k :: 0 <= k < i ==> !Accepts(states, steps, k, c))
            <==> exists k :: 0 <= k < i && Refused(states, steps, k, c) && steps[k].replyArrives
  {
    hide IsRun, Authorised;
    if Ready in states[i].conns[c].written && (forall k :: 0 <= k < i ==> !Accepts(states, steps, k, c)) {
      var k := ReadySource(capacity, states, steps, i, c);
    }
    if k :| 0 <= k < i && Refused(states, steps, k, c) && steps[k].replyArrives {
      RefusedGetsReady(capacity, states, steps, k, i, c);
      forall j | 0 <= j < i ensures !Accepts(states, steps, j, c) {
        if Accepts(states, steps, j, c) {
          RunLength(capacity, states, steps);
          OneIdentify(capacity, states, steps, j, k, c);
        }
      }
    }
  }

  lemma RunLength(capacity: nat, states: seq<State>, steps: seq<Step>)
    requires IsRun(capacity, states, steps)
    ensures |states| == |steps| + 1
  {
  }

  // ----- Pings -----

  function Pongs(frames: seq<Frame>): nat {
    if frames == [] then 0 else Pongs(frames[..|frames| - 1]) + if frames[|frames| - 1].Pong? then 1 else 0
  }

  lemma PongsSnoc(frames: seq<Frame>, frame: Frame)
    ensures Pongs(frames + [frame]) == Pongs(frames) + if frame.Pong? then 1 else 0
  {
    assert (frames + [frame])[..|frames|] == frames;
  }

  function Pings(steps: seq<Step>, n: nat, c: nat): nat
    requires n <= |steps|
  {
    if n == 0 then 0 else Pings(steps, n - 1, c) + if steps[n - 1] == Ping(c) then 1 else 0
  }

  /** Its frames can still arrive: the handshake is under way, or the writer lives. */
  predicate Listening(conn: Conn) {
    conn.phase == Handshake || conn.phase == Accepted || conn.channelOpen
  }

  lemma PongStep(capacity: nat, s: State, step: Step, c: nat)
    requires Enabled(capacity, s, step) && c in s.conns && Ordered(s.conns[c])
    requires Listening(Next(capacity, s, step).conns[c])
    ensures Listening(s.conns[c])
    ensures Pongs(Log(Next(capacity, s, step).conns[c])) == Pongs(Log(s.conns[c])) + if step == Ping(c) then 1 else 0
  {
    hide Pongs;
    var a, b := s.conns[c], Next(capacity, s, step).conns[c];
    if step.Reload? || step.c != c {
      assert b == a;
    } else if step.Ping? {
      assert Log(b) == Log(a) + [Pong];
      PongsSnoc(Log(a), Pong);
    } else if step.TryQueue? && b.queue != a.queue {
      assert Log(b) == Log(a) + [Event(a.holding.value)];
      PongsSnoc(Log(a), Event(a.holding.value));
    } else if step.SendReady? {
      assert Log(a) == [] && Log(b) == [] + [Ready];
      PongsSnoc([], Ready);
    } else {
      assert Log(b) == Log(a);
    }
  }

  /** While its writer lives, a connection has as many pongs written or queued as it sent pings once live. */
  lemma {:induction false} PingsAnswered(capacity: nat, states: seq<State>, steps: seq<Step>, i: nat, c: nat)
    requires IsRun(capacity, states, steps) && i < |states|
    ensures c !in states[i].conns ==> Pings(steps, i, c) == 0
    ensures c in states[i].conns && Listening(states[i].conns[c]) ==>
        Pongs(Log(states[i].conns[c])) == Pings(steps, i, c)
  {
    hide Pongs, Log, Listening, Ordered, Rising, Separate;
    if i == 0 {
      assert states[0].conns == map[];
    } else {
      PingsAnswered(capacity, states, steps, i - 1, c);
      AlwaysInv(capacity, states, steps, i - 1);
      var s, step := states[i - 1], steps[i - 1];
      assert Enabled(capacity, s, step) && states[i] == Next(capacity, s, step);
      if c in s.conns {
        if Listening(states[i].conns[c]) { PongStep(capacity, s, step, c); }
      } else {
        NewIsSilent(capacity, s, step, c);
      }
    }
  }

  lemma NewIsSilent(capacity: nat, s: State, step: Step, c: nat)
    requires Enabled(capacity, s, step) && c !in s.conns
    ensures step != Ping(c)
    ensures c in Next(capacity, s, step).conns ==> Pongs(Log(Next(capacity, s, step).conns[c])) == 0
  {
  }

  // ----- What becomes of every number taken -----

  function EventsIn(frames: seq<Frame>): seq<nat> {
    if frames == [] then []
    else
      EventsIn(frames[..|frames| - 1])
      + (match frames[|frames| - 1] case Event(n) => [n] case _ => [])
  }

  lemma EventsSnoc(frames: seq<Frame>, frame: Frame)
    ensures EventsIn(frames + [frame]) == EventsIn(frames) + (match frame case Event(n) => [n] case _ => [])
  {
    assert (frames + [frame])[..|frames|] == frames;
  }

  lemma {:induction false} EventsAppend(a: seq<Frame>, b: seq<Frame>)
    ensures EventsIn(a + b) == EventsIn(a) + EventsIn(b)
  {
    if b == [] {
      assert a + b == a;
    } else {
      var c := b[..|b| - 1];
      EventsAppend(a, c);
      EventsSnoc(a + c, b[|b| - 1]);
      assert a + b == a + c + [b[|b| - 1]];
    }
  }

  function Held(conn: Conn): seq<nat> {
    match conn.holding
    case Some(n) => [n]
    case None => []
  }

  /** The numbers a connection has in its log, and the one it holds. */
  function Numbers(s: State, c: nat): seq<nat> {
    if c in s.conns then EventsIn(Log(s.conns[c])) + Held(s.conns[c]) else []
  }

  /** A number given up because the queue is full. */
  predicate Drops(capacity: nat, s: State, step: Step, c: nat) {
    step == TryQueue(c) && c in s.conns && s.conns[c].channelOpen && |s.conns[c].queue| >= capacity
  }

  /** How many numbers are lost with the writer: offered to a closed channel, or still queued when it closes. */
  function Loses(s: State, step: Step, c: nat): nat {
    if c !in s.conns then 0
    else if step == TryQueue(c) && !s.conns[c].channelOpen then 1
    else if step == WriterFails(c) || step == Close(c) then |EventsIn(s.conns[c].queue)|
    else 0
  }

  /** One step's bookkeeping for one connection. */
  lemma FateStep(capacity: nat, s: State, step: Step, c: nat)
    requires Enabled(capacity, s, step) && c in s.conns && Ordered(s.conns[c])
    ensures var t := Next(capacity, s, step);
            var taken := if step == TakeNumber(c) then [s.sn + 1] else [];
            |Numbers(t, c)| + (if Drops(capacity, s, step, c) then 1 else 0) + Loses(s, step, c)
            == |Numbers(s, c)| + |taken|
            && (Loses(s, step, c) == 0 && !Drops(capacity, s, step, c) ==> Numbers(t, c) == Numbers(s, c) + taken)
  {
    hide EventsIn;
    var a, b := s.conns[c], Next(capacity, s, step).conns[c];
    NoEvents();
    if step == WriterFails(c) || step == Close(c) {
      EventsAppend(a.written, a.queue);
      assert Log(b) == a.written;
    } else if step == TakeNumber(c) || step == TryQueue(c) {
      HandStep(capacity, s, step, c);
    } else {
      SameEvents(capacity, s, step, c);
    }
  }

  lemma NoEvents()
    ensures EventsIn([]) == [] && EventsIn([Ready]) == []
  {
    EventsSnoc([], Ready);
    assert [] + [Ready] == [Ready];
  }

  lemma HandStep(capacity: nat, s: State, step: Step, c: nat)
    requires Enabled(capacity, s, step) && c in s.conns && (step == TakeNumber(c) || step == TryQueue(c))
    ensures var t := Next(capacity, s, step);
            Numbers(t, c) == if step == TakeNumber(c) then Numbers(s, c) + [s.sn + 1]
                          else if s.conns[c].channelOpen && |s.conns[c].queue| < capacity then Numbers(s, c)
                          else EventsIn(Log(s.conns[c]))
    ensures step == TryQueue(c) ==> |Numbers(s, c)| == |EventsIn(Log(s.conns[c]))| + 1
  {
    hide EventsIn;
    var a, b := s.conns[c], Next(capacity, s, step).conns[c];
    if step == TakeNumber(c) {
      assert Log(b) == Log(a) && Held(a) == [];
    } else if a.channelOpen && |a.queue| < capacity {
      assert Log(b) == Log(a) + [Event(a.holding.value)];
      EventsSnoc(Log(a), Event(a.holding.value));
    } else {
      assert Log(b) == Log(a);
    }
  }

  lemma SameEvents(capacity: nat, s: State, step: Step, c: nat)
    requires Enabled(capacity, s, step) && c in s.conns && Ordered(s.conns[c])
    requires step != WriterFails(c) && step != Close(c) && step != TakeNumber(c) && step != TryQueue(c)
    ensures Numbers(Next(capacity, s, step), c) == Numbers(s, c)
  {
    hide EventsIn, Log;
    var a, b := s.conns[c], Next(capacity, s, step).conns[c];
    SameLog(capacity, s, step, c);
    NoEvents();
    if Log(b) == Log(a) + [Pong] { EventsSnoc(Log(a), Pong); }
  }

  /** Every other step leaves the log alone, adds a pong to it, or puts a first READY there. */
  lemma SameLog(capacity: nat, s: State, step: Step, c: nat)
    requires Enabled(capacity, s, step) && c in s.conns && Ordered(s.conns[c])
    requires step != WriterFails(c) && step != Close(c) && step != TakeNumber(c) && step != TryQueue(c)
    ensures var (a, b) := (s.conns[c], Next(capacity, s, step).conns[c]);
            b.holding == a.holding
            && (Log(b) == Log(a) || Log(b) == Log(a) + [Pong] || (Log(a) == [] && Log(b) == [Ready]))
  {
    var a, b := s.conns[c], Next(capacity, s, step).conns[c];
    match step
    case Ping(d) =>
      if d == c && a.channelOpen { assert Log(b) == Log(a) + [Pong]; }
    case Write(d) =>
      if d == c { assert Log(b) == Log(a); }
    case Identify(d, _, _) =>
      if d == c { assert Log(a) == [] && (Log(b) == [] || Log(b) == [Ready]); }
    case SendReady(d, _) =>
      if d == c { assert Log(a) == [] && (Log(b) == [] || Log(b) == [Ready]); }
    case HandshakeFails(d) =>
      if d == c { assert Log(a) == Log(b) == []; }
    case _ =>
  }

  /** The numbers connection `c` has taken in the first `n` steps. */
  function Taken(states: seq<State>, steps: seq<Step>, n: nat, c: nat): seq<nat>
    requires n <= |steps| < |states|
  {
    if n == 0 then []
    else Taken(states, steps, n - 1, c) + (if steps[n - 1] == TakeNumber(c) then [states[n - 1].sn + 1] else [])
  }

  function Dropped(capacity: nat, states: seq<State>, steps: seq<Step>, n: nat, c: nat): nat
    requires n <= |steps| < |states|
  {
    if n == 0 then 0
    else Dropped(capacity, states, steps, n - 1, c)
         + if Drops(capacity, states[n - 1], steps[n - 1], c) then 1 else 0
  }

  function Lost(states: seq<State>, steps: seq<Step>, n: nat, c: nat): nat
    requires n <= |steps| < |states|
  {
    if n == 0 then 0 else Lost(states, steps, n - 1, c) + Loses(states[n - 1], steps[n - 1], c)
  }

  lemma UnknownTakesNothing(capacity: nat, s: State, step: Step, c: nat)
    requires Enabled(capacity, s, step) && c !in s.conns
    ensures step != TakeNumber(c) && !Drops(capacity, s, step, c) && Loses(s, step, c) == 0
    ensures Numbers(Next(capacity, s, step), c) == []
  {
  }

  /**
   Every number a connection takes is in its log, held, dropped at a full queue or lost with the writer; and one that
   has dropped and lost none has exactly the numbers it took, in that order.
   */
  lemma {:induction false} NumbersConserved(capacity: nat, states: seq<State>, steps: seq<Step>, i: nat, c: nat)
    requires IsRun(capacity, states, steps) && i < |states|
    ensures |Taken(states, steps, i, c)| ==
            |Numbers(states[i], c)| + Dropped(capacity, states, steps, i, c) + Lost(states, steps, i, c)
    ensures Dropped(capacity, states, steps, i, c) == Lost(states, steps, i, c) == 0 ==>
              Numbers(states[i], c) == Taken(states, steps, i, c)
  {
    hide Next, Enabled, Numbers, Drops, Loses, Rising, Separate, OpenSessions, Ordered;
    if i == 0 {
      NothingYet(states[0], c);
    } else {
      NumbersConserved(capacity, states, steps, i - 1, c);
      AlwaysInv(capacity, states, steps, i - 1);
      var s, step := states[i - 1], steps[i - 1];
      assert Enabled(capacity, s, step) && states[i] == Next(capacity, s, step);
      if c in s.conns {
        FateStep(capacity, s, step, c);
      } else {
        NothingYet(s, c);
        UnknownTakesNothing(capacity, s, step, c);
      }
    }
  }

  lemma NothingYet(s: State, c: nat)
    requires c !in s.conns
    ensures Numbers(s, c) == []
  {
  }

  /** Nothing is lost while the writer lives. */
  lemma LosesWhenClosed(capacity: nat, s: State, step: Step, c: nat)
    requires Enabled(capacity, s, step) && c in s.conns && Ordered(s.conns[c])
        && Listening(Next(capacity, s, step).conns[c])
    ensures Loses(s, step, c) == 0 && Listening(s.conns[c])
  {
    hide EventsIn;
  }

  lemma {:induction false} NothingLostWhileOpen(capacity: nat, states: seq<State>, steps: seq<Step>, i: nat, c: nat)
    requires IsRun(capacity, states, steps) && i < |states|
    ensures (c in states[i].conns ==> Listening(states[i].conns[c])) ==> Lost(states, steps, i, c) == 0
  {
    hide Next, Enabled, Listening, Loses, Rising, Separate, OpenSessions, Ordered;
    if i == 0 {
    } else {
      NothingLostWhileOpen(capacity, states, steps, i - 1, c);
      AlwaysInv(capacity, states, steps, i - 1);
      var s, step := states[i - 1], steps[i - 1];
      assert Enabled(capacity, s, step) && states[i] == Next(capacity, s, step);
      if c in s.conns {
        StaysKnown(capacity, s, step, c);
        if Listening(states[i].conns[c]) { LosesWhenClosed(capacity, s, step, c); }
      } else {
        UnknownTakesNothing(capacity, s, step, c);
      }
    }
  }

  lemma StaysKnown(capacity: nat, s: State, step: Step, c: nat)
    requires Enabled(capacity, s, step) && c in s.conns
    ensures c in Next(capacity, s, step).conns
  {
  }

  /** A client whose queue never fills and whose writer lives misses nothing: its log is every number it took. */
  lemma NothingMissing(capacity: nat, states: seq<State>, steps: seq<Step>, i: nat, c: nat)
    requires IsRun(capacity, states, steps) && i < |states| && c in states[i].conns
    requires states[i].conns[c].channelOpen && states[i].conns[c].holding.None?
    requires Dropped(capacity, states, steps, i, c) == 0
    ensures EventsIn(states[i].conns[c].written + states[i].conns[c].queue) == Taken(states, steps, i, c)
  {
    hide EventsIn;
    NothingLostWhileOpen(capacity, states, steps, i, c);
    NumbersConserved(capacity, states, steps, i, c);
  }

  // ----- What the steps so far say about the state -----

  lemma SnStep(capacity: nat, s: State, step: Step)
    requires Enabled(capacity, s, step)
    ensures Next(capacity, s, step).sn == s.sn + if step.TakeNumber? then 1 else 0
  {
  }

  function Takes(): Step -> bool {
    (step: Step) => step.TakeNumber?
  }

  /** The counter is the number of events any connection has taken: numbers are handed out from one on, without gaps. */
  lemma SnCounts(capacity: nat, states: seq<State>, steps: seq<Step>, i: nat)
    requires IsRun(capacity, states, steps) && i < |states|
    ensures states[i].sn == Count(Where(steps, Takes()), i)
  {
    hide Next, Enabled;
    var value := (k: nat) => if k < |states| then states[k].sn else 0;
    forall k: nat | k < i
      ensures value(k + 1) == value(k) + if Where(steps, Takes())(k) then 1 else 0
    {
      SnStep(capacity, states[k], steps[k]);
    }
    CountHolds(value, Where(steps, Takes()), i);
  }

  function WrittenBy(s: State, c: nat): nat {
    if c in s.conns then |s.conns[c].written| else 0
  }

  /** The steps that put a frame on the wire of `c`: a write, READY, or a refusal whose reply arrives. */
  predicate Sends(s: State, step: Step, c: nat) {
    step == Write(c) || step == SendReady(c, true)
    || (step.Identify? && step.c == c && step.replyArrives && !Authorised(s.token, step.presented))
  }

  function SendsAt(states: seq<State>, steps: seq<Step>, c: nat): nat -> bool {
    (k: nat) => k < |steps| && k < |states| && Sends(states[k], steps[k], c)
  }

  lemma SendStep(capacity: nat, s: State, step: Step, c: nat)
    requires Enabled(capacity, s, step)
    ensures WrittenBy(Next(capacity, s, step), c) == WrittenBy(s, c) + if Sends(s, step, c) then 1 else 0
  {
  }

  /** Each such step writes one frame, and nothing else writes any. */
  lemma WritesCounted(capacity: nat, states: seq<State>, steps: seq<Step>, i: nat, c: nat)
    requires IsRun(capacity, states, steps) && i < |states|
    ensures WrittenBy(states[i], c) == Count(SendsAt(states, steps, c), i)
  {
    hide Next, Enabled, Sends, WrittenBy;
    var value := (k: nat) => if k < |states| then WrittenBy(states[k], c) else 0;
    assert WrittenBy(states[0], c) == 0 by { NothingWritten(states[0], c); }
    forall k: nat | k < i
      ensures value(k + 1) == value(k) + if SendsAt(states, steps, c)(k) then 1 else 0
    {
      SendStep(capacity, states[k], steps[k], c);
    }
    CountHolds(value, SendsAt(states, steps, c), i);
  }

  lemma NothingWritten(s: State, c: nat)
    requires c !in s.conns
    ensures WrittenBy(s, c) == 0
  {
  }

  function HeldBy(s: State, c: nat): nat {
    if c in s.conns && s.conns[c].holding.Some? then 1 else 0
  }

  lemma SettleStep(capacity: nat, s: State, step: Step, c: nat)
    requires Enabled(capacity, s, step) && (c in s.conns ==> Ordered(s.conns[c]))
    ensures HeldBy(Next(capacity, s, step), c) ==
            HeldBy(s, c) + (if step == TakeNumber(c) then 1 else 0) - (if step == TryQueue(c) then 1 else 0)
  {
  }

  /** Every attempt to queue settles one number taken before it. */
  lemma {:induction false} EveryNumberSettled(capacity: nat, states: seq<State>, steps: seq<Step>, i: nat, c: nat)
    requires IsRun(capacity, states, steps) && i < |states|
    ensures |Taken(states, steps, i, c)| == Count(At(steps, TryQueue(c)), i) + HeldBy(states[i], c)
  {
    hide Next, Enabled, HeldBy, Ordered, Rising, Separate, OpenSessions;
    if i == 0 {
      assert HeldBy(states[0], c) == 0 by { NothingHeld(states[0], c); }
    } else {
      EveryNumberSettled(capacity, states, steps, i - 1, c);
      AlwaysInv(capacity, states, steps, i - 1);
      SettleStep(capacity, states[i - 1], steps[i - 1], c);
    }
  }

  lemma NothingHeld(s: State, c: nat)
    requires c !in s.conns
    ensures HeldBy(s, c) == 0
  {
  }

  function EndsHandshake(c: nat): Step -> bool {
    (step: Step) => (step.Identify? || step.HandshakeFails?) && step.c == c
  }

  function Greets(c: nat): Step -> bool {
    (step: Step) => step.SendReady? && step.c == c
  }

  function AcceptsAt(states: seq<State>, steps: seq<Step>, c: nat): nat -> bool {
    (k: nat) => Accepts(states, steps, k, c)
  }

  function StopsWriter(c: nat): Step -> bool {
    (step: Step) => step == WriterFails(c) || step == Close(c)
  }

  predicate Open(s: State, c: nat) {
    c in s.conns && s.conns[c].channelOpen
  }

  /** How each step moves one connection between its phases, and its channel between open and closed. */
  lemma PhaseStep(capacity: nat, s: State, step: Step, c: nat)
    requires Enabled(capacity, s, step) && (c in s.conns ==> Ordered(s.conns[c]))
    ensures var t := Next(capacity, s, step);
            (In(t, c, Handshake) <==> step == Connect(c) || (In(s, c, Handshake) && !EndsHandshake(c)(step)))
            && (In(t, c, Accepted) <==>
                  (step.Identify? && step.c == c && Authorised(s.token, step.presented))
                  || (In(s, c, Accepted) && !Greets(c)(step)))
            && (In(t, c, Live) <==> step == SendReady(c, true) || (In(s, c, Live) && step != Close(c)))
            && (Open(t, c) <==> step == SendReady(c, true) || (Open(s, c) && !StopsWriter(c)(step)))
  {
  }

  /** A client is in its handshake from its connection to its IDENTIFY, or to the end of its patience. */
  lemma HandshakeIff(capacity: nat, states: seq<State>, steps: seq<Step>, i: nat, c: nat)
    requires IsRun(capacity, states, steps) && i < |states|
    ensures In(states[i], c, Handshake) <==> Since(At(steps, Connect(c)), Where(steps, EndsHandshake(c)), i)
  {
    hide Next, Enabled, Inv;
    var on, off := At(steps, Connect(c)), Where(steps, EndsHandshake(c));
    var p := (k: nat) => k < |states| && In(states[k], c, Handshake);
    forall k: nat | k < i ensures p(k + 1) <==> on(k) || (p(k) && !off(k)) {
      PhaseAt(capacity, states, steps, k, c);
    }
    SinceHolds(p, on, off, i);
  }

  /** It is accepted from the right IDENTIFY until READY has been sent or has failed. */
  lemma AcceptedIff(capacity: nat, states: seq<State>, steps: seq<Step>, i: nat, c: nat)
    requires IsRun(capacity, states, steps) && i < |states|
    ensures In(states[i], c, Accepted) <==> Since(AcceptsAt(states, steps, c), Where(steps, Greets(c)), i)
  {
    hide Next, Enabled, Inv;
    var on, off := AcceptsAt(states, steps, c), Where(steps, Greets(c));
    var p := (k: nat) => k < |states| && In(states[k], c, Accepted);
    forall k: nat | k < i ensures p(k + 1) <==> on(k) || (p(k) && !off(k)) {
      PhaseAt(capacity, states, steps, k, c);
    }
    SinceHolds(p, on, off, i);
  }

  /** It is live from a READY that arrived until it closes. */
  lemma LiveIff(capacity: nat, states: seq<State>, steps: seq<Step>, i: nat, c: nat)
    requires IsRun(capacity, states, steps) && i < |states|
    ensures In(states[i], c, Live) <==> Since(At(steps, SendReady(c, true)), At(steps, Close(c)), i)
  {
    hide Next, Enabled, Inv;
    var on, off := At(steps, SendReady(c, true)), At(steps, Close(c));
    var p := (k: nat) => k < |states| && In(states[k], c, Live);
    forall k: nat | k < i ensures p(k + 1) <==> on(k) || (p(k) && !off(k)) {
      PhaseAt(capacity, states, steps, k, c);
    }
    SinceHolds(p, on, off, i);
  }

  /** Its queue takes frames from then until the writer fails or the session closes. */
  lemma OpenIff(capacity: nat, states: seq<State>, steps: seq<Step>, i: nat, c: nat)
    requires IsRun(capacity, states, steps) && i < |states|
    ensures Open(states[i], c) <==> Since(At(steps, SendReady(c, true)), Where(steps, StopsWriter(c)), i)
  {
    hide Next, Enabled, Inv;
    var on, off := At(steps, SendReady(c, true)), Where(steps, StopsWriter(c));
    var p := (k: nat) => k < |states| && Open(states[k], c);
    forall k: nat | k < i ensures p(k + 1) <==> on(k) || (p(k) && !off(k)) {
      PhaseAt(capacity, states, steps, k, c);
    }
    SinceHolds(p, on, off, i);
  }

  lemma PhaseAt(capacity: nat, states: seq<State>, steps: seq<Step>, k: nat, c: nat)
    requires IsRun(capacity, states, steps) && k < |steps|
    ensures In(states[k + 1], c, Handshake) <==>
            steps[k] == Connect(c) || (In(states[k], c, Handshake) && !EndsHandshake(c)(steps[k]))
    ensures In(states[k + 1], c, Accepted) <==>
            Accepts(states, steps, k, c) || (In(states[k], c, Accepted) && !Greets(c)(steps[k]))
    ensures In(states[k + 1], c, Live) <==>
            steps[k] == SendReady(c, true) || (In(states[k], c, Live) && steps[k] != Close(c))
    ensures Open(states[k + 1], c) <==>
            steps[k] == SendReady(c, true) || (Open(states[k], c) && !StopsWriter(c)(steps[k]))
  {
    hide Next, Enabled, Rising, Separate, OpenSessions, Ordered, In, Open, EndsHandshake, Greets, StopsWriter;
    AlwaysInv(capacity, states, steps, k);
    assert Enabled(capacity, states[k], steps[k]) && states[k + 1] == Next(capacity, states[k], steps[k]);
    PhaseStep(capacity, states[k], steps[k], c);
  }

  /** While its queue takes frames, its push task runs. */
  lemma {:induction false} OpenIsPushing(capacity: nat, states: seq<State>, steps: seq<Step>, i: nat, c: nat)
    requires IsRun(capacity, states, steps) && i < |states| && Open(states[i], c)
    ensures states[i].conns[c].pushing && In(states[i], c, Live)
  {
    hide Next, Enabled, Rising, Separate, OpenSessions;
    AlwaysInv(capacity, states, steps, i);
    assert Ordered(states[i].conns[c]);
    assert states[0].conns == map[];
    assert i > 0;
    assert Enabled(capacity, states[i - 1], steps[i - 1]) && states[i] == Next(capacity, states[i - 1], steps[i - 1]);
    PushStep(capacity, states[i - 1], steps[i - 1], c);
    if Open(states[i - 1], c) { OpenIsPushing(capacity, states, steps, i - 1, c); }
  }

  lemma PushStep(capacity: nat, s: State, step: Step, c: nat)
    requires Enabled(capacity, s, step) && Open(Next(capacity, s, step), c)
    ensures !Open(s, c) || s.conns[c].pushing ==> Next(capacity, s, step).conns[c].pushing
  {
  }

  /** The token asked for is the last one stored. */
  lemma {:induction false} TokenIsLastStored(capacity: nat, states: seq<State>, steps: seq<Step>, k: nat, i: nat)
    requires IsRun(capacity, states, steps) && k < i < |states| && steps[k].Reload?
    requires forall m :: k < m < i ==> !steps[m].Reload?
    ensures states[i].token == steps[k].token
  {
    hide Next, Enabled;
    assert Enabled(capacity, states[i - 1], steps[i - 1]) && states[i] == Next(capacity, states[i - 1], steps[i - 1]);
    TokenStep(capacity, states[i - 1], steps[i - 1]);
    if k == i - 1 {
    } else {
      TokenIsLastStored(capacity, states, steps, k, i - 1);
    }
  }

  lemma TokenStep(capacity: nat, s: State, step: Step)
    requires Enabled(capacity, s, step)
    ensures Next(capacity, s, step).token == if step.Reload? then step.token else s.token
  {
  }

  // ----- The server object -----

  class Server {
    const capacity: nat
    var snCounter: nat
    var gauge: int
    var token: string
    var conns: map<nat, Conn>

    function Abs(): State
      reads this
    {
      State(snCounter, gauge, token, conns)
    }

    constructor (capacity: nat, token: string)
      ensures Abs() == Initial(token) && this.capacity == capacity
    {
      this.capacity, snCounter, gauge, this.token, conns := capacity, 0, 0, token, map[];
    }

    method NextSn() returns (sn: nat)
      modifies this`snCounter
      ensures snCounter == old(snCounter) + 1 && sn == snCounter
    {
      sn := snCounter + 1;
      snCounter := snCounter + 1;
    }

    method Accept(c: nat)
      requires Enabled(capacity, Abs(), Connect(c))
      modifies this
      ensures Abs() == Next(capacity, old(Abs()), Connect(c))
    {
      gauge := gauge + 1;
      conns := conns[c := FRESH];
    }

    method EndSession(c: nat, written: seq<Frame>)
      requires c in conns
      modifies this`conns, this`gauge
      ensures Abs() == Leave(old(Abs()), c, old(conns)[c].(written := written))
    {
      var conn := conns[c].(written := written, phase := Over, channelOpen := false, pushing := false, queue := []);
      conns := conns[c := conn];
      gauge := gauge - 1;
    }

    /** The IDENTIFY signal: a wrong token is answered with READY and the session ends. */
    method HandleIdentify(c: nat, presented: string, replyArrives: bool) returns (accepted: bool)
      requires Enabled(capacity, Abs(), Identify(c, presented, replyArrives))
      modifies this
      ensures Abs() == Next(capacity, old(Abs()), Identify(c, presented, replyArrives))
      ensures accepted <==> token == "" || presented == token
    {
      if token != "" && presented != token {
        EndSession(c, if replyArrives then conns[c].written + [Ready] else conns[c].written);
        return false;
      }
      conns := conns[c := conns[c].(phase := Accepted)];
      accepted := true;
    }

    method GreetWithReady(c: nat, arrives: bool)
      requires Enabled(capacity, Abs(), SendReady(c, arrives))
      modifies this
      ensures Abs() == Next(capacity, old(Abs()), SendReady(c, arrives))
    {
      var conn := conns[c];
      if !arrives {
        EndSession(c, conn.written);
        return;
      }
      conns := conns[c := GoLive(conn)];
    }

    /** One turn of a push task: a number is taken first, and stays used even when the event is dropped. */
    method PushTurn(c: nat)
      requires Enabled(capacity, Abs(), TakeNumber(c))
      modifies this
      ensures Abs() == Next(capacity, Next(capacity, old(Abs()), TakeNumber(c)), TryQueue(c))
      ensures snCounter == old(snCounter) + 1
    {
      var conn := conns[c];
      var sn := NextSn();
      if !conn.channelOpen {
        conn := conn.(pushing := false);
      } else if |conn.queue| < capacity {
        conn := conn.(queue := conn.queue + [Event(sn)]);
      }
      conns := conns[c := conn];
    }

    method HandlePing(c: nat)
      requires Enabled(capacity, Abs(), Ping(c))
      modifies this
      ensures Abs() == Next(capacity, old(Abs()), Ping(c))
    {
      var conn := conns[c];
      if conn.channelOpen { conn := conn.(queue := conn.queue + [Pong]); }
      conns := conns[c := conn];
    }

    method WriterTurn(c: nat, delivered: bool)
      requires Enabled(capacity, Abs(), Write(c))
      modifies this
      ensures Abs() == Next(capacity, old(Abs()), if delivered then Write(c) else WriterFails(c))
    {
      var conn := conns[c];
      conns := conns[c := if delivered then conn.(queue := conn.queue[1..], written := conn.written + [conn.queue[0]])
                          else conn.(channelOpen := false, queue := [])];
    }
  }
}
