/** Echo-correlated API calls over one backend connection, one critical section or task step at a time. */
module Lagrange {
  import opened Wrappers
  import opened JsonTree

  const WORD: nat := 0x1_0000_0000_0000_0000

  datatype AdapterState = Disconnected | Connecting | Connected | Reconnecting

  /** The sending half of the writer's channel: absent, usable, or with its receiver gone. */
  datatype Writer = Absent | Open | Closed

  datatype Response = Response(echo: Json, body: Json)

  /** How a call came back to its caller; a dropped call never does. */
  datatype Outcome =
    | Success(response: Response)
    | NotConnected | NoWriter | WriterClosed | ChannelDropped | TimedOut | CallerGone

  /**
   A call has its echo; waits on its channel; has a response in its channel; has lost its channel's sender;
   has timed out but not yet removed its entry; is finished.
   */
  datatype Phase = Numbered | Waiting | Answered(response: Response) | Abandoned | Expired | Finished(outcome: Outcome)

  /** `n` counts the calls made before this one. */
  datatype Call = Call(n: nat, phase: Phase)

  datatype State = State(
    adapter: AdapterState, writer: Writer, selfId: Option<I64>,
    pending: map<string, nat>, counter: nat, calls: map<nat, Call>)

  const INITIAL := State(Disconnected, Absent, None, map[], 1, map[])

  /** The echo of call number `n`: the 64-bit counter started at one. */
  function Echo(n: nat): string {
    Decimal((n + 1) % WORD)
  }

  function EchoOf(s: State, c: nat): string
    requires c in s.calls
  {
    Echo(s.calls[c].n)
  }

  /** The key a response names: its echo as a string, or as an unsigned number. */
  function EchoKey(r: Response): Option<string> {
    match r.echo
    case Str(s) => Some(s)
    case Num(n) => (match n.AsU64() case Some(u) => Some(Decimal(u)) case None => None)
    case _ => None
  }

  datatype Step =
    | Begin(c: nat) | Submit(c: nat) | Finish(c: nat) | Expire(c: nat) | Cleanup(c: nat) | Cancel(c: nat)
    | Respond(response: Response)
    | Connect | ConnectDone | ReaderExit | MonitorReacts | Reconnected | WriterDies | Disconnect | Learn(selfId: I64)

  predicate Is(s: State, c: nat, ph: Phase) {
    c in s.calls && s.calls[c].phase == ph
  }

  predicate Enabled(s: State, step: Step) {
    match step
    case Begin(c) => c !in s.calls
    case Submit(c) => Is(s, c, Numbered)
    case Finish(c) => c in s.calls && (s.calls[c].phase.Answered? || s.calls[c].phase.Abandoned?)
    case Expire(c) => Is(s, c, Waiting)
    case Cleanup(c) => Is(s, c, Expired)
    case Cancel(c) => c in s.calls
        && (s.calls[c].phase.Waiting? || s.calls[c].phase.Answered? || s.calls[c].phase.Abandoned?)
    case MonitorReacts => s.adapter != Connected
    case WriterDies => s.writer.Open?
    case _ => true
  }

  function Enter(s: State, c: nat, ph: Phase): State
    requires c in s.calls
  {
    s.(calls := s.calls[c := s.calls[c].(phase := ph)])
  }

  /** Registering and sending happen under one lock; a failed send leaves the entry behind. */
  function DoSubmit(s: State, c: nat): State
    requires c in s.calls
  {
    var registered := s.(pending := s.pending[EchoOf(s, c) := c]);
    if s.adapter != Connected then Enter(s, c, Finished(NotConnected))
    else match s.writer
      case Open => Enter(registered, c, Waiting)
      case Closed => Enter(registered, c, Finished(WriterClosed))
      case Absent => Enter(registered.(pending := registered.pending - {EchoOf(s, c)}), c, Finished(NoWriter))
  }

  /** Resolves the pending entry the response names, if there is one and its caller still listens. */
  function DoRespond(s: State, r: Response): State {
    if EchoKey(r).Some? && EchoKey(r).value in s.pending then
      var c := s.pending[EchoKey(r).value];
      var removed := s.(pending := s.pending - {EchoKey(r).value});
      if Is(s, c, Waiting) then Enter(removed, c, Answered(r)) else removed
    else s
  }

  /** Dropping every pending sender: each call still waiting on one learns that its channel is gone. */
  function Abandon(calls: map<nat, Call>, senders: set<nat>): map<nat, Call> {
    map c | c in calls :: if c in senders && calls[c].phase == Waiting then calls[c].(phase := Abandoned) else calls[c]
  }

  function Next(s: State, step: Step): State
    requires Enabled(s, step)
  {
    match step
    case Begin(c) => s.(counter := (s.counter + 1) % WORD, calls := s.calls[c := Call(|s.calls|, Numbered)])
    case Submit(c) => DoSubmit(s, c)
    case Finish(c) =>
      Enter(s, c, Finished(if s.calls[c].phase.Answered? then Success(s.calls[c].phase.response) else ChannelDropped))
    case Expire(c) => Enter(s, c, Expired)
    case Cleanup(c) => Enter(s.(pending := s.pending - {EchoOf(s, c)}), c, Finished(TimedOut))
    case Cancel(c) => Enter(s, c, Finished(CallerGone))
    case Respond(r) => DoRespond(s, r)
    case Connect => s.(adapter := Connecting)
    case ConnectDone => s.(adapter := Connected, writer := Open)
    case ReaderExit => if s.adapter == Connected then s.(adapter := Reconnecting) else s
    case MonitorReacts => s.(adapter := Reconnecting, writer := Absent)
    case Reconnected => s.(adapter := Connected, writer := Open)
    case WriterDies => s.(writer := Closed)
    case Disconnect =>
      s.(adapter := Disconnected, writer := Absent, pending := map[], calls := Abandon(s.calls, s.pending.Values))
    case Learn(id) => if s.selfId.None? then s.(selfId := Some(id)) else s
  }

  ghost predicate IsRun(states: seq<State>, steps: seq<Step>) {
    |states| == |steps| + 1 && states[0] == INITIAL
    && forall i :: 0 <= i < |steps| ==> Enabled(states[i], steps[i]) && states[i + 1] == Next(states[i], steps[i])
  }

  // ----- What every step keeps -----

  /** Call numbers are distinct and below the number of calls, and the counter follows that number. */
  ghost predicate NumbersFresh(s: State) {
    s.counter == (|s.calls| + 1) % WORD
    && (forall c :: c in s.calls ==> s.calls[c].n < |s.calls|)
    && (forall c, d :: c in s.calls && d in s.calls && c != d ==> s.calls[c].n != s.calls[d].n)
  }

  /** A phase a call can be in while its pending entry still exists. */
  predicate MayBePending(ph: Phase) {
    ph == Waiting || ph == Expired || ph == Finished(WriterClosed) || ph == Finished(CallerGone)
  }

  ghost predicate EntriesMatch(s: State) {
    (forall e :: e in s.pending ==>
        s.pending[e] in s.calls && EchoOf(s, s.pending[e]) == e && MayBePending(s.calls[s.pending[e]].phase))
    && (forall c :: Is(s, c, Waiting) ==> EchoOf(s, c) in s.pending && s.pending[EchoOf(s, c)] == c)
  }

  /** A response held or returned by a call bears that call's echo. */
  ghost predicate AnswersMatch(s: State) {
    forall c :: c in s.calls ==>
      (s.calls[c].phase.Answered? ==> EchoKey(s.calls[c].phase.response) == Some(EchoOf(s, c)))
      && (s.calls[c].phase.Finished? && s.calls[c].phase.outcome.Success? ==>
            EchoKey(s.calls[c].phase.outcome.response) == Some(EchoOf(s, c)))
  }

  ghost predicate Inv(s: State) {
    NumbersFresh(s) && EntriesMatch(s) && AnswersMatch(s)
  }

  /** Fewer than 2^64 calls ever made. */
  predicate FewCalls(s: State) {
    |s.calls| < WORD
  }

  lemma WrapDistinct(m: nat, n: nat)
    requires m < WORD && n < WORD && m != n
    ensures (m + 1) % WORD != (n + 1) % WORD
  {
  }

  lemma EchoesDistinct(s: State, c: nat, d: nat)
    requires NumbersFresh(s) && FewCalls(s) && c in s.calls && d in s.calls && c != d
    ensures EchoOf(s, c) != EchoOf(s, d)
  {
    var m, n := s.calls[c].n, s.calls[d].n;
    WrapDistinct(m, n);
    hide Decimal;
    if EchoOf(s, c) == EchoOf(s, d) {
      DecimalInjective((m + 1) % WORD, (n + 1) % WORD);
    }
  }

  lemma NumbersKept(s: State, step: Step)
    requires Enabled(s, step) && NumbersFresh(s)
    ensures NumbersFresh(Next(s, step))
  {
    hide Next;
    if step.Begin? {
      BeginNumbers(s, step.c);
    } else {
      NumbersFrame(s, step);
      var t := Next(s, step);
      assert |t.calls| == |t.calls.Keys| == |s.calls.Keys| == |s.calls|;
    }
  }

  lemma BeginNumbers(s: State, c: nat)
    requires c !in s.calls && NumbersFresh(s)
    ensures NumbersFresh(Next(s, Begin(c)))
  {
    var t := Next(s, Begin(c));
    OneMore(s.calls, c, Call(|s.calls|, Numbered));
    WrapStep(|s.calls| + 1);
    var n := |s.calls|;
    assert t.counter == (|t.calls| + 1) % WORD && |t.calls| == n + 1;
    forall d | d in t.calls ensures t.calls[d].n < |t.calls| {
      if d != c { assert t.calls[d] == s.calls[d] && s.calls[d].n < n; }
    }
    forall d, e | d in t.calls && e in t.calls && d != e ensures t.calls[d].n != t.calls[e].n {
      if d != c { assert t.calls[d] == s.calls[d] && s.calls[d].n < n; }
      if e != c { assert t.calls[e] == s.calls[e] && s.calls[e].n < n; }
    }
  }

  lemma OneMore(calls: map<nat, Call>, c: nat, call: Call)
    requires c !in calls
    ensures |calls[c := call]| == |calls| + 1
  {
    assert calls[c := call].Keys == calls.Keys + {c};
  }

  lemma WrapStep(n: nat)
    ensures (n % WORD + 1) % WORD == (n + 1) % WORD
  {
  }

  /** Every other step leaves numbers and counter alone. */
  lemma NumbersFrame(s: State, step: Step)
    requires Enabled(s, step) && !step.Begin?
    ensures var t := Next(s, step);
            t.calls.Keys == s.calls.Keys && t.counter == s.counter
            && forall c :: c in s.calls ==> t.calls[c].n == s.calls[c].n
  {
    hide EchoKey, Echo;
  }

  lemma EntriesKept(s: State, step: Step)
    requires Enabled(s, step) && Inv(s) && FewCalls(Next(s, step))
    ensures EntriesMatch(Next(s, step))
  {
    hide EchoKey, Echo, NumbersFresh, AnswersMatch, DoSubmit, DoRespond, FewCalls;
    CallsOnlyGrow(s, step);
    match step
    case Begin(c) => assert forall d :: Is(Next(s, step), d, Waiting) ==> Is(s, d, Waiting);
    case Submit(c) => SubmitKeeps(s, c);
    case Respond(r) => RespondKeeps(s, r);
    case Cleanup(c) => RemoveKeeps(s, c);
    case Disconnect => DisconnectReleasesAll(s);
    case _ => QuietKeeps(s, step);
  }

  lemma QuietKeeps(s: State, step: Step)
    requires Enabled(s, step) && EntriesMatch(s)
    requires !step.Begin? && !step.Submit? && !step.Respond? && !step.Cleanup? && !step.Disconnect?
    ensures EntriesMatch(Next(s, step))
  {
    hide EchoKey, Echo;
    NumbersFrame(s, step);
    assert forall d :: Is(Next(s, step), d, Waiting) ==> Is(s, d, Waiting);
  }

  /** No other waiting call shares an echo with `c`. */
  lemma OwnEcho(s: State, c: nat)
    requires NumbersFresh(s) && FewCalls(s) && c in s.calls
    ensures forall d :: d in s.calls && d != c ==> EchoOf(s, d) != EchoOf(s, c)
  {
    forall d | d in s.calls && d != c ensures EchoOf(s, d) != EchoOf(s, c) { EchoesDistinct(s, c, d); }
  }

  lemma SubmitKeeps(s: State, c: nat)
    requires Enabled(s, Submit(c)) && Inv(s) && FewCalls(s)
    ensures EntriesMatch(DoSubmit(s, c))
  {
    hide EchoKey, Echo, NumbersFresh, EntriesMatch, AnswersMatch;
    var t, e := DoSubmit(s, c), EchoOf(s, c);
    FreshEntry(s, c);
    if s.adapter == Connected && s.writer != Absent {
      RegisterKeeps(s, c, if s.writer == Open then Waiting else Finished(WriterClosed));
    } else {
      FailKeeps(s, c, if s.adapter == Connected then Finished(NoWriter) else Finished(NotConnected));
      assert t.pending == s.pending;
    }
  }

  lemma RegisterKeeps(s: State, c: nat, ph: Phase)
    requires Inv(s) && FewCalls(s) && Is(s, c, Numbered) && MayBePending(ph)
    ensures EntriesMatch(Enter(s.(pending := s.pending[EchoOf(s, c) := c]), c, ph))
  {
    hide EchoKey, Echo;
    OwnEcho(s, c);
  }

  lemma FailKeeps(s: State, c: nat, ph: Phase)
    requires EntriesMatch(s) && Is(s, c, Numbered) && ph != Waiting
    ensures EntriesMatch(Enter(s, c, ph))
  {
    hide EchoKey, Echo;
    assert forall d :: Is(Enter(s, c, ph), d, Waiting) ==> Is(s, d, Waiting);
    assert forall e :: e in s.pending ==> s.pending[e] != c;
  }

  /** A call that has not been submitted has no entry. */
  lemma FreshEntry(s: State, c: nat)
    requires Inv(s) && FewCalls(s) && Is(s, c, Numbered)
    ensures EchoOf(s, c) !in s.pending
  {
    hide EchoKey, Echo;
    OwnEcho(s, c);
  }

  lemma RespondKeeps(s: State, r: Response)
    requires Inv(s) && FewCalls(s)
    ensures EntriesMatch(DoRespond(s, r))
  {
    hide EchoKey, Echo, NumbersFresh, AnswersMatch, FewCalls;
    var t := DoRespond(s, r);
    assert forall d :: d in t.calls ==> EchoOf(t, d) == EchoOf(s, d);
  }

  lemma RemoveKeeps(s: State, c: nat)
    requires Enabled(s, Cleanup(c)) && Inv(s) && FewCalls(s)
    ensures EntriesMatch(Next(s, Cleanup(c)))
  {
    hide EchoKey, Echo, NumbersFresh, AnswersMatch, FewCalls;
    OwnEcho(s, c);
    var t := Next(s, Cleanup(c));
    assert forall d :: d in t.calls ==> EchoOf(t, d) == EchoOf(s, d);
  }

  lemma AnswersKept(s: State, step: Step)
    requires Enabled(s, step) && Inv(s)
    ensures AnswersMatch(Next(s, step))
  {
    hide EchoKey, Echo, NumbersFresh;
  }

  lemma InvKept(s: State, step: Step)
    requires Enabled(s, step) && Inv(s) && FewCalls(Next(s, step))
    ensures Inv(Next(s, step))
  {
    hide Next, NumbersFresh, EntriesMatch, AnswersMatch;
    NumbersKept(s, step);
    EntriesKept(s, step);
    AnswersKept(s, step);
  }

  lemma CallsOnlyGrow(s: State, step: Step)
    requires Enabled(s, step)
    ensures s.calls.Keys <= Next(s, step).calls.Keys
    ensures FewCalls(Next(s, step)) ==> FewCalls(s)
  {
    hide EchoKey, Echo;
    var t := Next(s, step);
    assert s.calls.Keys <= t.calls.Keys;
    SizeMonotone(s.calls.Keys, t.calls.Keys);
  }

  lemma SizeMonotone(a: set<nat>, b: set<nat>)
    requires a <= b
    ensures |a| <= |b|
  {
    assert b == a + (b - a);
  }

  /** The invariant holds throughout every interleaving of fewer than 2^64 calls. */
  lemma {:induction false} AlwaysInv(states: seq<State>, steps: seq<Step>, i: nat)
    requires IsRun(states, steps) && i < |states| && FewCalls(states[i])
    ensures Inv(states[i])
  {
    hide Next, Inv, FewCalls, Enabled;
    if i == 0 {
      InitialInv();
    } else {
      CallsOnlyGrow(states[i - 1], steps[i - 1]);
      AlwaysInv(states, steps, i - 1);
      InvKept(states[i - 1], steps[i - 1]);
    }
  }

  lemma InitialInv()
    ensures Inv(INITIAL)
  {
    hide EchoKey, Echo;
  }

  // ----- The protocol's promises -----

  /** In every run all calls have different echoes, and one that succeeded got a response with its own. */
  lemma CorrelatedCalls(states: seq<State>, steps: seq<Step>, i: nat, c: nat, d: nat)
    requires IsRun(states, steps) && i < |states| && FewCalls(states[i])
    requires c in states[i].calls && d in states[i].calls
    ensures c != d ==> EchoOf(states[i], c) != EchoOf(states[i], d)
    ensures forall r :: Is(states[i], c, Finished(Success(r))) ==> EchoKey(r) == Some(EchoOf(states[i], c))
  {
    hide EchoKey, Echo, FewCalls;
    AlwaysInv(states, steps, i);
    if c != d { EchoesDistinct(states[i], c, d); }
  }

  lemma AnswerAppears(s: State, step: Step, c: nat, r: Response)
    requires Enabled(s, step)
    requires Is(Next(s, step), c, Answered(r)) || Is(Next(s, step), c, Finished(Success(r)))
    ensures Is(s, c, Answered(r)) || Is(s, c, Finished(Success(r))) || (step == Respond(r) && Is(s, c, Waiting))
  {
    hide EchoKey, Echo;
  }

  /**
   In every run, a pending entry is a waiting call's,
   or what a timeout, a failed send or a departed caller left behind.
   */
  lemma EntryOwners(states: seq<State>, steps: seq<Step>, i: nat)
    requires IsRun(states, steps) && i < |states| && FewCalls(states[i])
    ensures var s := states[i];
            forall e :: e in s.pending ==>
              s.pending[e] in s.calls && EchoOf(s, s.pending[e]) == e && MayBePending(s.calls[s.pending[e]].phase)
    ensures var s := states[i];
            forall c :: Is(s, c, Waiting) ==> EchoOf(s, c) in s.pending && s.pending[EchoOf(s, c)] == c
  {
    hide Echo, FewCalls, Next, Enabled;
    AlwaysInv(states, steps, i);
  }

  /** A successful call's response really arrived, while that call was waiting for it. */
  lemma {:induction false} SuccessWasReceived(states: seq<State>, steps: seq<Step>, i: nat, c: nat, r: Response)
      returns (k: nat)
    requires IsRun(states, steps) && i < |states|
    requires Is(states[i], c, Answered(r)) || Is(states[i], c, Finished(Success(r)))
    ensures k < i && steps[k] == Respond(r) && Is(states[k], c, Waiting)
  {
    hide EchoKey, Echo;
    assert i > 0;
    var s, step := states[i - 1], steps[i - 1];
    assert states[i] == Next(s, step);
    AnswerAppears(s, step, c, r);
    hide Next, Enabled;
    if Is(s, c, Answered(r)) || Is(s, c, Finished(Success(r))) {
      k := SuccessWasReceived(states, steps, i - 1, c, r);
    } else {
      k := i - 1;
    }
  }

  lemma FinishedStays(s: State, step: Step, c: nat)
    requires Enabled(s, step) && c in s.calls && s.calls[c].phase.Finished?
    ensures c in Next(s, step).calls && Next(s, step).calls[c] == s.calls[c]
  {
    hide EchoKey, Echo;
  }

  /** No call finishes twice: an outcome, once there, never changes. */
  lemma {:induction false} FinishesOnce(states: seq<State>, steps: seq<Step>, i: nat, j: nat, c: nat)
    requires IsRun(states, steps) && i <= j < |states|
    requires c in states[i].calls && states[i].calls[c].phase.Finished?
    ensures c in states[j].calls && states[j].calls[c] == states[i].calls[c]
  {
    hide Next, Enabled;
    if i == j {
    } else {
      FinishesOnce(states, steps, i, j - 1, c);
      FinishedStays(states[j - 1], steps[j - 1], c);
    }
  }

  /** A response that names no waiting call changes no call; one that names no entry changes nothing at all. */
  lemma LateResponse(s: State, r: Response)
    requires Inv(s)
    requires forall c :: Is(s, c, Waiting) ==> EchoKey(r) != Some(EchoOf(s, c))
    ensures DoRespond(s, r).calls == s.calls
    ensures (EchoKey(r).None? || EchoKey(r).value !in s.pending) ==> DoRespond(s, r) == s
  {
    hide Echo;
  }

  /** A response that names a waiting call reaches that call and no other. */
  lemma ResponseReachesCaller(s: State, r: Response, c: nat)
    requires Inv(s) && Is(s, c, Waiting) && EchoKey(r) == Some(EchoOf(s, c))
    ensures DoRespond(s, r).calls == s.calls[c := s.calls[c].(phase := Answered(r))]
    ensures DoRespond(s, r).pending == s.pending - {EchoOf(s, c)}
  {
    hide Echo;
  }

  /** The first echo is "1", and the next "2". */
  lemma FirstEchoes()
    ensures Echo(0) == "1" && Echo(1) == "2"
  {
  }

  /** No unfinished call is stuck: some step of its own is always possible. */
  lemma CallsProgress(s: State, c: nat)
    requires c in s.calls
    ensures match s.calls[c].phase
            case Numbered => Enabled(s, Submit(c))
            case Waiting => Enabled(s, Expire(c)) && Enabled(s, Cancel(c))
            case Answered(_) => Enabled(s, Finish(c)) && Enabled(s, Cancel(c))
            case Abandoned => Enabled(s, Finish(c)) && Enabled(s, Cancel(c))
            case Expired => Enabled(s, Cleanup(c))
            case Finished(_) => !Enabled(s, Finish(c)) && !Enabled(s, Submit(c)) && !Enabled(s, Cancel(c))
  {
  }

  /** The string form and the number form of an echo are the same key. */
  lemma EchoForms(n: nat, body: Json)
    requires n < WORD
    ensures EchoKey(Response(Str(Decimal(n)), body)) == EchoKey(Response(Num(PosInt(n)), body)) == Some(Decimal(n))
    ensures forall v: Json :: !v.Str? && !(v.Num? && v.n.PosInt?) ==> EchoKey(Response(v, body)) == None
  {
  }

  /** After a disconnect nothing is pending and nobody waits: every waiting call has been told. */
  lemma DisconnectReleasesAll(s: State)
    requires Inv(s)
    ensures Next(s, Disconnect).pending == map[]
    ensures forall c :: c in s.calls && s.calls[c].phase == Waiting ==> Is(Next(s, Disconnect), c, Abandoned)
    ensures forall c :: c in s.calls && s.calls[c].phase != Waiting ==> Is(Next(s, Disconnect), c, s.calls[c].phase)
  {
    hide EchoKey, Echo;
    forall c | Is(s, c, Waiting) ensures c in s.pending.Values {
      assert EchoOf(s, c) in s.pending && s.pending[EchoOf(s, c)] == c;
    }
  }

  /** The account id is the first one an event reported, from then on. */
  lemma {:induction false} FirstSelfIdSticks(states: seq<State>, steps: seq<Step>, i: nat, j: nat)
    requires IsRun(states, steps) && i <= j < |states| && states[i].selfId.Some?
    ensures states[j].selfId == states[i].selfId
  {
    hide Next, Enabled;
    if i == j {
    } else {
      FirstSelfIdSticks(states, steps, i, j - 1);
      SelfIdStep(states[j - 1], steps[j - 1]);
    }
  }

  /** It is known exactly when some event has been handled. */
  lemma {:induction false} SelfIdKnownIff(states: seq<State>, steps: seq<Step>, i: nat)
    requires IsRun(states, steps) && i < |states|
    ensures states[i].selfId.Some? <==> exists k :: 0 <= k < i && steps[k].Learn?
  {
    hide Next, Enabled;
    if i == 0 {
    } else {
      SelfIdKnownIff(states, steps, i - 1);
      SelfIdStep(states[i - 1], steps[i - 1]);
    }
  }

  /** It was reported by an event before which none was known. */
  lemma {:induction false} SelfIdSource(states: seq<State>, steps: seq<Step>, i: nat) returns (k: nat)
    requires IsRun(states, steps) && i < |states| && states[i].selfId.Some?
    ensures k < i && steps[k] == Learn(states[i].selfId.value) && states[k].selfId.None?
  {
    hide Next, Enabled;
    assert i > 0;
    SelfIdStep(states[i - 1], steps[i - 1]);
    if states[i - 1].selfId.None? {
      k := i - 1;
    } else {
      k := SelfIdSource(states, steps, i - 1);
    }
  }

  lemma SelfIdStep(s: State, step: Step)
    requires Enabled(s, step)
    ensures Next(s, step).selfId ==
            if step.Learn? && s.selfId.None? then Some(step.selfId) else s.selfId
  {
    hide EchoKey, Echo;
  }

  // ----- How calls end -----

  /** The one step that gives call `c` the outcome `o`. */
  predicate Causes(s: State, step: Step, c: nat, o: Outcome) {
    match o
    case Success(r) => step == Finish(c) && Is(s, c, Answered(r))
    case ChannelDropped => step == Finish(c) && Is(s, c, Abandoned)
    case TimedOut => step == Cleanup(c)
    case CallerGone => step == Cancel(c)
    case NotConnected => step == Submit(c) && s.adapter != Connected
    case WriterClosed => step == Submit(c) && s.adapter == Connected && s.writer == Closed
    case NoWriter => step == Submit(c) && s.adapter == Connected && s.writer == Absent
  }

  lemma OutcomeStep(s: State, step: Step, c: nat, o: Outcome)
    requires Enabled(s, step)
    ensures Is(Next(s, step), c, Finished(o)) <==> Is(s, c, Finished(o)) || Causes(s, step, c, o)
  {
    hide EchoKey, Echo;
  }

  /** In every run, a call has an outcome exactly when the step that causes it has been taken. */
  lemma {:induction false} OutcomeIff(states: seq<State>, steps: seq<Step>, i: nat, c: nat, o: Outcome)
    requires IsRun(states, steps) && i < |states|
    ensures Is(states[i], c, Finished(o)) <==> exists j :: 0 <= j < i && Causes(states[j], steps[j], c, o)
  {
    hide Next, Enabled, Causes;
    if i == 0 {
    } else {
      OutcomeIff(states, steps, i - 1, c, o);
      assert Enabled(states[i - 1], steps[i - 1]) && states[i] == Next(states[i - 1], steps[i - 1]);
      OutcomeStep(states[i - 1], steps[i - 1], c, o);
    }
  }

  /** The call holds the response, or has already succeeded with it; or its caller has gone. */
  predicate Holds(s: State, c: nat, r: Response) {
    Is(s, c, Answered(r)) || Is(s, c, Finished(Success(r))) || Is(s, c, Finished(CallerGone))
  }

  lemma HoldsStep(s: State, step: Step, c: nat, r: Response)
    requires Enabled(s, step) && Holds(s, c, r)
    ensures Holds(Next(s, step), c, r)
    ensures step != Cancel(c) && !Is(s, c, Finished(CallerGone)) ==> !Is(Next(s, step), c, Finished(CallerGone))
  {
    hide EchoKey, Echo;
  }

  /** From the response on, the call holds it, and its caller is there unless it was cancelled. */
  lemma {:induction false} HoldsOn(states: seq<State>, steps: seq<Step>, k: nat, j: nat, c: nat, r: Response)
    requires IsRun(states, steps) && k < j < |states| && FewCalls(states[j])
    requires steps[k] == Respond(r) && Is(states[k], c, Waiting) && EchoKey(r) == Some(EchoOf(states[k], c))
    ensures Holds(states[j], c, r)
    ensures (forall m :: k < m < j ==> steps[m] != Cancel(c)) ==> !Is(states[j], c, Finished(CallerGone))
  {
    hide Next, Enabled, Inv, FewCalls, EchoKey, Echo;
    var s, step := states[j - 1], steps[j - 1];
    assert Enabled(s, step) && states[j] == Next(s, step);
    CallsOnlyGrow(s, step);
    if k == j - 1 {
      AlwaysInv(states, steps, k);
      Answers(s, r, c);
    } else {
      HoldsOn(states, steps, k, j - 1, c, r);
      HoldsStep(s, step, c, r);
    }
  }

  lemma Answers(s: State, r: Response, c: nat)
    requires Inv(s) && Is(s, c, Waiting) && EchoKey(r) == Some(EchoOf(s, c))
    ensures Is(Next(s, Respond(r)), c, Answered(r))
  {
    hide EchoKey, Echo;
    ResponseReachesCaller(s, r, c);
  }

  /** A response that names a waiting call makes it succeed with that response, unless its caller goes away first. */
  lemma AnsweredCallSucceeds(states: seq<State>, steps: seq<Step>, k: nat, j: nat, c: nat, r: Response)
    requires IsRun(states, steps) && k < j < |steps| && FewCalls(states[j + 1])
    requires steps[k] == Respond(r) && Is(states[k], c, Waiting) && EchoKey(r) == Some(EchoOf(states[k], c))
    requires steps[j] == Finish(c) && forall m :: k < m < j ==> steps[m] != Cancel(c)
    ensures Is(states[j + 1], c, Finished(Success(r)))
  {
    hide Next, FewCalls, EchoKey, Echo;
    assert Enabled(states[j], steps[j]) && states[j + 1] == Next(states[j], steps[j]);
    CallsOnlyGrow(states[j], steps[j]);
    HoldsOn(states, steps, k, j, c, r);
    assert Is(states[j], c, Answered(r));
    OutcomeStep(states[j], steps[j], c, Success(r));
  }

  lemma AbandonStep(s: State, step: Step, c: nat)
    requires Enabled(s, step)
    ensures Is(Next(s, step), c, Abandoned) ==> Is(s, c, Abandoned) || (step.Disconnect? && Is(s, c, Waiting))
  {
    hide EchoKey, Echo;
  }

  /** A call finds its channel dropped only if a disconnect took its sender while it waited. */
  lemma {:induction false} AbandonSource(states: seq<State>, steps: seq<Step>, i: nat, c: nat) returns (k: nat)
    requires IsRun(states, steps) && i < |states| && Is(states[i], c, Abandoned)
    ensures k < i && steps[k].Disconnect? && Is(states[k], c, Waiting)
  {
    hide Next, Enabled;
    assert i > 0;
    assert Enabled(states[i - 1], steps[i - 1]) && states[i] == Next(states[i - 1], steps[i - 1]);
    AbandonStep(states[i - 1], steps[i - 1], c);
    if Is(states[i - 1], c, Abandoned) {
      k := AbandonSource(states, steps, i - 1, c);
    } else {
      k := i - 1;
    }
  }

  predicate Dropping(s: State, c: nat) {
    Is(s, c, Abandoned) || Is(s, c, Finished(ChannelDropped)) || Is(s, c, Finished(CallerGone))
  }

  lemma DroppingStep(s: State, step: Step, c: nat)
    requires Enabled(s, step) && Dropping(s, c)
    ensures Dropping(Next(s, step), c)
  {
    hide EchoKey, Echo;
  }

  lemma {:induction false} DroppingOn(states: seq<State>, steps: seq<Step>, k: nat, j: nat, c: nat)
    requires IsRun(states, steps) && k < j < |states| && FewCalls(states[j])
    requires steps[k].Disconnect? && Is(states[k], c, Waiting)
    ensures Dropping(states[j], c)
  {
    hide Next, Enabled, Inv, FewCalls;
    var s, step := states[j - 1], steps[j - 1];
    assert Enabled(s, step) && states[j] == Next(s, step);
    CallsOnlyGrow(s, step);
    if k == j - 1 {
      AlwaysInv(states, steps, k);
      DisconnectReleasesAll(s);
    } else {
      DroppingOn(states, steps, k, j - 1, c);
      DroppingStep(s, step, c);
    }
  }

  /** Finishing a call reports a dropped channel exactly when a disconnect took its sender while it waited. */
  lemma DroppedIff(states: seq<State>, steps: seq<Step>, j: nat, c: nat)
    requires IsRun(states, steps) && j < |steps| && FewCalls(states[j + 1]) && steps[j] == Finish(c)
    ensures Is(states[j + 1], c, Finished(ChannelDropped)) <==>
            exists k :: 0 <= k < j && steps[k].Disconnect? && Is(states[k], c, Waiting)
  {
    hide Next, FewCalls;
    assert Enabled(states[j], steps[j]) && states[j + 1] == Next(states[j], steps[j]);
    CallsOnlyGrow(states[j], steps[j]);
    OutcomeStep(states[j], steps[j], c, ChannelDropped);
    if Is(states[j], c, Abandoned) {
      var k := AbandonSource(states, steps, j, c);
    }
    if k :| 0 <= k < j && steps[k].Disconnect? && Is(states[k], c, Waiting) {
      DroppingOn(states, steps, k, j, c);
    }
  }

  /** A call whose time is up can only be cleaned up, and waits for that. */
  lemma {:induction false} ExpiredUntilCleanup(states: seq<State>, steps: seq<Step>, k: nat, j: nat, c: nat)
    requires IsRun(states, steps) && k < j < |states| && steps[k] == Expire(c)
    requires forall m :: k < m < j ==> steps[m] != Cleanup(c)
    ensures Is(states[j], c, Expired)
  {
    hide Next, Enabled;
    assert Enabled(states[j - 1], steps[j - 1]) && states[j] == Next(states[j - 1], steps[j - 1]);
    ExpireStep(states[j - 1], steps[j - 1], c);
    if k == j - 1 {
    } else {
      ExpiredUntilCleanup(states, steps, k, j - 1, c);
    }
  }

  lemma ExpireStep(s: State, step: Step, c: nat)
    requires Enabled(s, step)
    ensures Is(Next(s, step), c, Expired) <==> step == Expire(c) || (Is(s, c, Expired) && step != Cleanup(c))
  {
    hide EchoKey, Echo;
  }

  // ----- When calls are accepted -----

  /** Steps after which the adapter is not connected, or its writer not usable. */
  predicate Breaks(step: Step) {
    step.ReaderExit? || step.MonitorReacts? || step.Disconnect? || step.Connect? || step.WriterDies?
  }

  predicate Connects(step: Step) {
    step.ConnectDone? || step.Reconnected?
  }

  /** What each step does to the connection. */
  lemma ConnectionStep(s: State, step: Step)
    requires Enabled(s, step)
    ensures var t := Next(s, step);
            (Connects(step) ==> t.adapter == Connected && t.writer == Open)
            && (!Connects(step) && !Breaks(step) ==> t.adapter == s.adapter && t.writer == s.writer)
            && (Breaks(step) && !step.WriterDies? ==> t.adapter != Connected)
            && (step.WriterDies? ==> t.adapter == s.adapter && t.writer == Closed)
            && (step.Disconnect? || step.MonitorReacts? ==> t.writer == Absent)
            && (step.Disconnect? ==> t.adapter == Disconnected)
            && (step.MonitorReacts? ==> t.adapter == Reconnecting)
  {
    hide EchoKey, Echo;
  }

  /** After a connection is made, and until something breaks it, the adapter is usable. */
  lemma {:induction false} UsableOn(states: seq<State>, steps: seq<Step>, k: nat, j: nat)
    requires IsRun(states, steps) && k < j < |states| && Connects(steps[k])
    requires forall m :: k < m < j ==> !Breaks(steps[m])
    ensures states[j].adapter == Connected && states[j].writer == Open
  {
    hide Next, Enabled, Connects, Breaks;
    assert Enabled(states[j - 1], steps[j - 1]) && states[j] == Next(states[j - 1], steps[j - 1]);
    ConnectionStep(states[j - 1], steps[j - 1]);
    if k == j - 1 {
    } else {
      UsableOn(states, steps, k, j - 1);
    }
  }

  /** A call submitted then waits for its response. */
  lemma ServedWhileConnected(states: seq<State>, steps: seq<Step>, k: nat, j: nat, c: nat)
    requires IsRun(states, steps) && k < j < |steps| && Connects(steps[k]) && steps[j] == Submit(c)
    requires forall m :: k < m < j ==> !Breaks(steps[m])
    ensures Is(states[j + 1], c, Waiting)
  {
    hide Connects, Breaks, Echo;
    UsableOn(states, steps, k, j);
    assert Enabled(states[j], steps[j]) && states[j + 1] == Next(states[j], steps[j]);
  }

  /**
   After a reader exit, a reaction of the monitor, a disconnect or a new attempt, calls are refused until
   connected.
   */
  lemma {:induction false} RefusedUntilConnected(states: seq<State>, steps: seq<Step>, k: nat, j: nat)
    requires IsRun(states, steps) && k < j < |states| && Breaks(steps[k]) && !steps[k].WriterDies?
    requires forall m :: k < m < j ==> !Connects(steps[m])
    ensures states[j].adapter != Connected
    ensures j < |steps| && steps[j].Submit? ==> Is(states[j + 1], steps[j].c, Finished(NotConnected))
  {
    hide Connects, Breaks, Echo, EchoKey;
    assert Enabled(states[j - 1], steps[j - 1]) && states[j] == Next(states[j - 1], steps[j - 1]);
    ConnectionStep(states[j - 1], steps[j - 1]);
    if k == j - 1 {
    } else {
      RefusedUntilConnected(states, steps, k, j - 1);
    }
    if j < |steps| && steps[j].Submit? {
      assert Enabled(states[j], steps[j]) && states[j + 1] == Next(states[j], steps[j]);
      OutcomeStep(states[j], steps[j], steps[j].c, NotConnected);
    }
  }

  /** A connected adapter always has a writer channel, so no call ever fails for want of one. */
  lemma {:induction false} WriterWhenConnected(states: seq<State>, steps: seq<Step>, i: nat)
    requires IsRun(states, steps) && i < |states|
    ensures states[i].adapter == Connected ==> states[i].writer != Absent
    ensures forall c :: !Is(states[i], c, Finished(NoWriter))
  {
    hide Next, Enabled, Connects, Breaks;
    if i == 0 {
    } else {
      WriterWhenConnected(states, steps, i - 1);
      var s, step := states[i - 1], steps[i - 1];
      assert Enabled(s, step) && states[i] == Next(s, step);
      ConnectionStep(s, step);
      forall c ensures !Is(states[i], c, Finished(NoWriter)) { OutcomeStep(s, step, c, NoWriter); }
    }
  }

  // ----- Entries left behind -----

  /** The call is over, but its entry is still there. */
  predicate Leaked(s: State, c: nat) {
    c in s.calls && s.calls[c].phase.Finished? && EchoOf(s, c) in s.pending
  }

  /** Submitting leaves an entry behind exactly when the adapter is connected and the writer is gone. */
  lemma SubmitLeaksIff(s: State, c: nat)
    requires Inv(s) && FewCalls(s) && Is(s, c, Numbered)
    ensures Leaked(DoSubmit(s, c), c) <==> s.adapter == Connected && s.writer == Closed
  {
    hide EchoKey, Echo, Inv, FewCalls;
    FreshEntry(s, c);
  }

  /** A call leaks in one step exactly by a send that fails so, or by its caller going away while it waits. */
  lemma LeakBegins(s: State, step: Step, c: nat)
    requires Enabled(s, step) && Inv(s) && FewCalls(Next(s, step)) && !Leaked(s, c)
    ensures Leaked(Next(s, step), c) <==>
            (step == Submit(c) && s.adapter == Connected && s.writer == Closed)
                || (step == Cancel(c) && Is(s, c, Waiting))
  {
    CallsOnlyGrow(s, step);
    if step.Submit? {
      if step.c == c {
        SubmitLeaksIff(s, c);
      } else {
        OtherSubmit(s, step.c, c);
      }
    } else {
      QuietLeak(s, step, c);
    }
  }

  lemma QuietLeak(s: State, step: Step, c: nat)
    requires Enabled(s, step) && Inv(s) && FewCalls(s) && !step.Submit? && !Leaked(s, c)
    ensures Leaked(Next(s, step), c) <==> step == Cancel(c) && Is(s, c, Waiting)
  {
    hide EchoKey, Echo, DoSubmit, NumbersFresh, AnswersMatch, FewCalls;
    if c in s.calls { OwnEcho(s, c); }
  }

  /** Another call's submission changes neither the call nor its entry. */
  lemma OtherSubmit(s: State, d: nat, c: nat)
    requires Enabled(s, Submit(d)) && NumbersFresh(s) && FewCalls(s) && c != d
    ensures c in DoSubmit(s, d).calls <==> c in s.calls
    ensures c in s.calls ==>
              DoSubmit(s, d).calls[c] == s.calls[c]
                  && (EchoOf(s, c) in DoSubmit(s, d).pending <==> EchoOf(s, c) in s.pending)
  {
    hide EchoKey, Echo, NumbersFresh, FewCalls;
    if c in s.calls { EchoesDistinct(s, c, d); }
  }

  /** What takes a finished call's entry away: a disconnect, or a response that names it. */
  predicate Clears(s: State, step: Step, c: nat) {
    step.Disconnect? || (step.Respond? && c in s.calls && EchoKey(step.response) == Some(EchoOf(s, c)))
  }

  lemma FinishedEntry(s: State, step: Step, c: nat)
    requires Enabled(s, step) && Inv(s) && FewCalls(Next(s, step))
    requires c in s.calls && s.calls[c].phase.Finished?
    ensures FinishedKept(s, Next(s, step), c)
    ensures Leaked(Next(s, step), c) <==> Leaked(s, c) && !Clears(s, step, c)
  {
    hide Inv, Leaked, Clears, Next, Enabled, FewCalls, Echo, EchoKey;
    FinishedStays(s, step, c);
    CallsOnlyGrow(s, step);
    if step.Submit? {
      SubmitFinished(s, step.c, c);
    } else if step.Cleanup? {
      CleanupFinished(s, step.c, c);
    } else {
      QuietFinished(s, step, c);
    }
  }

  predicate FinishedKept(s: State, t: State, c: nat) {
    c in s.calls && c in t.calls && t.calls[c] == s.calls[c]
  }

  lemma SubmitFinished(s: State, d: nat, c: nat)
    requires Enabled(s, Submit(d)) && Inv(s) && FewCalls(s) && c in s.calls && s.calls[c].phase.Finished?
    ensures Leaked(Next(s, Submit(d)), c) <==> Leaked(s, c)
    ensures !Clears(s, Submit(d), c)
  {
    hide Echo, EchoKey, DoSubmit;
    OtherSubmit(s, d, c);
  }

  lemma CleanupFinished(s: State, d: nat, c: nat)
    requires Enabled(s, Cleanup(d)) && Inv(s) && FewCalls(s) && c in s.calls && s.calls[c].phase.Finished?
    ensures Leaked(Next(s, Cleanup(d)), c) <==> Leaked(s, c)
    ensures !Clears(s, Cleanup(d), c)
  {
    hide Echo, EchoKey;
    EchoesDistinct(s, c, d);
  }

  lemma QuietFinished(s: State, step: Step, c: nat)
    requires Enabled(s, step) && c in s.calls && s.calls[c].phase.Finished? && !step.Submit? && !step.Cleanup?
    ensures Leaked(Next(s, step), c) <==> Leaked(s, c) && !Clears(s, step, c)
  {
    hide Echo, EchoKey;
  }

  /** In every run a leaked entry is there until a disconnect or a response that names it, and never comes back. */
  lemma {:induction false} LeakLasts(states: seq<State>, steps: seq<Step>, i: nat, j: nat, c: nat)
    requires IsRun(states, steps) && i <= j < |states| && FewCalls(states[j]) && Leaked(states[i], c)
    ensures Leaked(states[j], c) <==> forall k :: i <= k < j ==> !Clears(states[k], steps[k], c)
    ensures FinishedKept(states[i], states[j], c)
  {
    hide Inv, FewCalls, Next, Enabled, Clears;
    if i == j {
    } else {
      assert Enabled(states[j - 1], steps[j - 1]) && states[j] == Next(states[j - 1], steps[j - 1]);
      CallsOnlyGrow(states[j - 1], steps[j - 1]);
      LeakLasts(states, steps, i, j - 1, c);
      AlwaysInv(states, steps, j - 1);
      FinishedEntry(states[j - 1], steps[j - 1], c);
    }
  }

  /** It does happen: a send that fails leaves an entry behind that no caller waits for. */
  lemma FailedSendLeaks() returns (states: seq<State>, steps: seq<Step>)
    ensures IsRun(states, steps)
    ensures var s := states[|states| - 1]; Is(s, 0, Finished(WriterClosed)) && Leaked(s, 0)
  {
    hide EchoKey, Echo;
    steps := [ConnectDone, WriterDies, Begin(0), Submit(0)];
    var a := INITIAL;
    var b := Next(a, steps[0]);
    var c := Next(b, steps[1]);
    var d := Next(c, steps[2]);
    states := [a, b, c, d, Next(d, steps[3])];
  }

  // ----- The adapter object -----

  class LagrangeAdapter {
    var adapter: AdapterState
    var writer: Writer
    var selfId: Option<I64>
    var pending: map<string, nat>
    var counter: nat
    var calls: map<nat, Call>

    function Abs(): State
      reads this
    {
      State(adapter, writer, selfId, pending, counter, calls)
    }

    constructor ()
      ensures Abs() == INITIAL
    {
      adapter, writer, selfId, pending, counter, calls := Disconnected, Absent, None, map[], 1, map[];
    }

    /** The echo handed out is the counter before it is advanced. */
    method NextEcho(c: nat) returns (echo: string)
      requires Enabled(Abs(), Begin(c)) && NumbersFresh(Abs())
      modifies this
      ensures Abs() == Next(old(Abs()), Begin(c)) && echo == EchoOf(Abs(), c)
    {
      echo := Decimal(counter);
      counter := (counter + 1) % WORD;
      calls := calls[c := Call(|calls|, Numbered)];
    }

    method SubmitCall(c: nat)
      requires Enabled(Abs(), Submit(c))
      modifies this
      ensures Abs() == Next(old(Abs()), Submit(c))
    {
      var echo := Echo(calls[c].n);
      if adapter != Connected {
        calls := calls[c := calls[c].(phase := Finished(NotConnected))];
        return;
      }
      pending := pending[echo := c];
      if writer.Absent? {
        pending := pending - {echo};
        calls := calls[c := calls[c].(phase := Finished(NoWriter))];
      } else if writer.Closed? {
        calls := calls[c := calls[c].(phase := Finished(WriterClosed))];
      } else {
        calls := calls[c := calls[c].(phase := Waiting)];
      }
    }

    method HandleApiResponse(r: Response)
      modifies this
      ensures Abs() == Next(old(Abs()), Respond(r))
    {
      var echo := EchoKey(r);
      if echo.None? || echo.value !in pending {
        return;
      }
      var c := pending[echo.value];
      pending := pending - {echo.value};
      if c in calls && calls[c].phase == Waiting {
        calls := calls[c := calls[c].(phase := Answered(r))];
      }
    }

    method RemoveTimedOut(c: nat)
      requires Enabled(Abs(), Cleanup(c))
      modifies this
      ensures Abs() == Next(old(Abs()), Cleanup(c))
    {
      pending := pending - {Echo(calls[c].n)};
      calls := calls[c := calls[c].(phase := Finished(TimedOut))];
    }

    method DisconnectNow()
      modifies this
      ensures Abs() == Next(old(Abs()), Disconnect)
    {
      writer := Absent;
      adapter := Disconnected;
      calls := Abandon(calls, pending.Values);
      pending := map[];
    }

    method HandleEvent(eventSelfId: I64)
      modifies this
      ensures Abs() == Next(old(Abs()), Learn(eventSelfId))
    {
      if selfId.None? {
        selfId := Some(eventSelfId);
      }
    }
  }
}
