/**
 One OneBot v11 WebSocket session: API permits, echo restoration, the bounded outbound queue and the event push.
 Each step is what one task does between two await points.
 */
module OneBotSession {
  import opened Wrappers
  import opened JsonTree
  import opened Runs

  /** API calls allowed in flight, room in the outbound queue, and how many events the bus keeps for a slow reader. */
  datatype Config = Config(limit: nat, capacity: nat, busCapacity: nat)

  datatype ApiResponse = ApiResponse(status: string, retcode: int, data: Json, message: string, echo: Option<Json>)

  function Fail(message: string, echo: Option<Json>): ApiResponse {
    ApiResponse("failed", 1400, Null, message, echo)
  }

  function Rejection(echo: Option<Json>): ApiResponse {
    Fail("too many in-flight WS API requests", echo)
  }

  /** What the outbound queue carries: event number `n` of this subscription, or the response to request `req`. */
  datatype Item = EventItem(n: nat) | Reply(req: nat, response: ApiResponse)

  /** A request's own task: calling the adapter, or waiting for room in the queue. */
  datatype Task = Calling | Sending(response: ApiResponse)

  /** The receive loop: reading, or waiting for room to send a rejection. */
  datatype Loop = Reading | Rejecting(req: nat)

  datatype State = State(
    open: bool, channelOpen: bool, pushing: bool, loop: Loop,
    permits: nat, tasks: map<nat, Task>, echoes: seq<Option<Json>>,
    queue: seq<Item>, written: seq<Item>,
    published: nat, next: nat, dropped: nat, skipped: nat, lost: nat, rejected: nat)

  function Initial(cfg: Config): State {
    State(true, true, true, Reading, cfg.limit, map[], [], [], [], 0, 0, 0, 0, 0, 0)
  }

  /** What the adapter answered: its response, with an echo of its own, or an error. */
  datatype Answer = Routed(response: ApiResponse) | Failed(message: string)

  datatype Step =
    | Publish | Lag | Push
    | Request(echo: Option<Json>) | SendRejection
    | TaskAnswered(req: nat, answer: Answer) | TaskSends(req: nat)
    | Write | WriterFails | Close

  function Unread(s: State): int {
    s.published - s.next
  }

  predicate HasRoom(cfg: Config, s: State) {
    !s.channelOpen || |s.queue| < cfg.capacity
  }

  predicate Enabled(cfg: Config, s: State, step: Step) {
    match step
    case Publish => true
    case Lag => s.pushing && Unread(s) > cfg.busCapacity
    case Push => s.pushing && 0 < Unread(s) <= cfg.busCapacity
    case Request(_) => s.open && s.loop.Reading?
    case SendRejection => s.open && s.loop.Rejecting? && HasRoom(cfg, s)
    case TaskAnswered(req, _) => req in s.tasks && s.tasks[req].Calling? && req < |s.echoes|
    case TaskSends(req) => req in s.tasks && s.tasks[req].Sending? && HasRoom(cfg, s)
    case Write => s.channelOpen && s.queue != []
    case WriterFails => s.channelOpen && s.queue != []
    case Close => s.open && s.loop.Reading?
  }

  /** Appends to the queue, unless its reader is gone: then the item is lost. */
  function Enqueue(s: State, item: Item): State {
    if s.channelOpen then s.(queue := s.queue + [item]) else s
  }

  /** The writer is gone and takes what was queued with it. */
  function CloseChannel(s: State): State {
    s.(channelOpen := false, queue := [], lost := s.lost + |EventsOf(s.queue)|)
  }

  function Next(cfg: Config, s: State, step: Step): State
    requires Enabled(cfg, s, step)
  {
    match step
    case Publish => s.(published := s.published + 1)
    case Lag =>
      var missed := Unread(s) - cfg.busCapacity;
      s.(next := s.next + missed, skipped := s.skipped + missed)
    case Push =>
      var read := s.(next := s.next + 1);
      if !s.channelOpen then read.(pushing := false, lost := s.lost + 1)
      else if |s.queue| < cfg.capacity then Enqueue(read, EventItem(s.next))
      else read.(dropped := s.dropped + 1)
    case Request(echo) =>
      var req := |s.echoes|;
      var parsed := s.(echoes := s.echoes + [echo]);
      if s.permits > 0 then parsed.(permits := s.permits - 1, tasks := s.tasks[req := Calling])
      else parsed.(loop := Rejecting(req))
    case SendRejection =>
      var req := s.loop.req;
      var echo := if req < |s.echoes| then s.echoes[req] else None;
      Enqueue(s, Reply(req, Rejection(echo))).(loop := Reading, rejected := s.rejected + 1)
    case TaskAnswered(req, answer) =>
      var echo := s.echoes[req];
      var response := match answer
        case Routed(r) => r.(echo := echo)
        case Failed(message) => Fail(message, echo);
      s.(tasks := s.tasks[req := Sending(response)])
    case TaskSends(req) =>
      Enqueue(s, Reply(req, s.tasks[req].response)).(tasks := s.tasks - {req}, permits := s.permits + 1)
    case Write => s.(queue := s.queue[1..], written := s.written + [s.queue[0]])
    case WriterFails => CloseChannel(s)
    case Close => CloseChannel(s).(open := false, pushing := false)
  }

  ghost predicate IsRun(cfg: Config, states: seq<State>, steps: seq<Step>) {
    |states| == |steps| + 1 && states[0] == Initial(cfg)
    && forall i :: 0 <= i < |steps| ==>
        Enabled(cfg, states[i], steps[i]) && states[i + 1] == Next(cfg, states[i], steps[i])
  }

  // ----- Everything accepted by the queue, written or not -----

  function Log(s: State): seq<Item> {
    s.written + s.queue
  }

  /** The event numbers in a list of items. */
  function EventsOf(items: seq<Item>): seq<nat> {
    if items == [] then []
    else EventsOf(items[..|items| - 1]) + (match items[|items| - 1] case EventItem(n) => [n] case Reply(_, _) => [])
  }

  lemma EventsOfSnoc(items: seq<Item>, item: Item)
    ensures EventsOf(items + [item]) == EventsOf(items) + (match item case EventItem(n) => [n] case Reply(_, _) => [])
  {
    assert (items + [item])[..|items|] == items;
  }

  lemma {:induction false} EventsOfAppend(a: seq<Item>, b: seq<Item>)
    ensures EventsOf(a + b) == EventsOf(a) + EventsOf(b)
  {
    if b == [] {
      assert a + b == a;
    } else {
      var c := b[..|b| - 1];
      assert (a + b)[..|a + b| - 1] == a + c;
      EventsOfAppend(a, c);
    }
  }

  ghost predicate Increasing(ns: seq<nat>, bound: nat) {
    (forall i, j :: 0 <= i < j < |ns| ==> ns[i] < ns[j]) && (forall i :: 0 <= i < |ns| ==> ns[i] < bound)
  }

  // ----- Invariants -----

  /** Free permits and running tasks always make up the limit; a rejection is pending only for the newest request. */
  ghost predicate Permits(cfg: Config, s: State) {
    s.permits + |s.tasks| == cfg.limit
    && (forall req :: req in s.tasks ==> req < |s.echoes|)
    && (s.loop.Rejecting? ==> s.loop.req < |s.echoes| && s.loop.req !in s.tasks)
  }

  predicate IsReply(item: Item, req: nat) {
    item.Reply? && item.req == req
  }

  predicate Unanswered(s: State, req: nat) {
    req in s.tasks || s.loop == Rejecting(req)
  }

  /** Every response carries its request's echo, and no request has two. */
  ghost predicate Echoed(s: State) {
    (forall req :: req in s.tasks && s.tasks[req].Sending? ==>
        req < |s.echoes| && s.tasks[req].response.echo == s.echoes[req])
    && (forall i :: 0 <= i < |Log(s)| && Log(s)[i].Reply? ==>
          Log(s)[i].req < |s.echoes| && Log(s)[i].response.echo == s.echoes[Log(s)[i].req]
              && !Unanswered(s, Log(s)[i].req))
    && (forall i, j :: 0 <= i < j < |Log(s)| && Log(s)[i].Reply? && Log(s)[j].Reply? ==> Log(s)[i].req != Log(s)[j].req)
  }

  /** While the channel is open, every request is still being answered or has its response in the log. */
  ghost predicate AllAnswered(s: State) {
    s.channelOpen ==>
      forall req :: 0 <= req < |s.echoes| && !Unanswered(s, req) ==>
          exists i :: 0 <= i < |Log(s)| && IsReply(Log(s)[i], req)
  }

  /** Every published event is accounted for, the accepted ones are in order, and the queue is within bounds. */
  ghost predicate Pushed(cfg: Config, s: State) {
    s.next <= s.published && |s.queue| <= cfg.capacity
    && s.next == |EventsOf(Log(s))| + s.dropped + s.skipped + s.lost
    && Increasing(EventsOf(Log(s)), s.next)
    && (s.channelOpen ==> s.lost == 0) && (!s.channelOpen ==> s.queue == [])
    && (s.open && !s.pushing ==> !s.channelOpen)
  }

  ghost predicate Inv(cfg: Config, s: State) {
    Permits(cfg, s) && Echoed(s) && AllAnswered(s) && Pushed(cfg, s)
  }

  lemma PermitsKept(cfg: Config, s: State, step: Step)
    requires Enabled(cfg, s, step) && Permits(cfg, s)
    ensures Permits(cfg, Next(cfg, s, step))
  {
    hide EventsOf, Permits;
    match step
    case Request(echo) => RequestPermits(cfg, s, echo);
    case TaskAnswered(req, _) => AnswerPermits(cfg, s, step);
    case TaskSends(req) => SendPermits(cfg, s, req);
    case _ => QuietPermits(cfg, s, step);
  }

  lemma RequestPermits(cfg: Config, s: State, echo: Option<Json>)
    requires Enabled(cfg, s, Request(echo)) && Permits(cfg, s)
    ensures Permits(cfg, Next(cfg, s, Request(echo)))
  {
    assert |s.echoes| !in s.tasks;
    AddSize(s.tasks, |s.echoes|, Calling);
  }

  lemma AnswerPermits(cfg: Config, s: State, step: Step)
    requires step.TaskAnswered? && Enabled(cfg, s, step) && Permits(cfg, s)
    ensures Permits(cfg, Next(cfg, s, step))
  {
    SetSize(s.tasks, step.req, Next(cfg, s, step).tasks[step.req]);
  }

  lemma SendPermits(cfg: Config, s: State, req: nat)
    requires Enabled(cfg, s, TaskSends(req)) && Permits(cfg, s)
    ensures Permits(cfg, Next(cfg, s, TaskSends(req)))
  {
    RemoveSize(s.tasks, req);
  }

  lemma QuietPermits(cfg: Config, s: State, step: Step)
    requires Enabled(cfg, s, step) && Permits(cfg, s)
    requires !step.Request? && !step.TaskAnswered? && !step.TaskSends?
    ensures Permits(cfg, Next(cfg, s, step))
  {
    hide EventsOf;
  }

  lemma AddSize(m: map<nat, Task>, k: nat, v: Task)
    requires k !in m
    ensures |m[k := v]| == |m| + 1
  {
    assert m[k := v].Keys == m.Keys + {k};
  }

  lemma SetSize(m: map<nat, Task>, k: nat, v: Task)
    requires k in m
    ensures |m[k := v]| == |m|
  {
    assert m[k := v].Keys == m.Keys;
    assert |m[k := v]| == |m[k := v].Keys|;
  }

  lemma RemoveSize(m: map<nat, Task>, k: nat)
    requires k in m
    ensures |m - {k}| == |m| - 1
  {
    assert m.Keys == (m - {k}).Keys + {k};
  }

  /** How each step changes the log: nothing, one more item, or the queued part cut off. */
  lemma LogChange(cfg: Config, s: State, step: Step)
    requires Enabled(cfg, s, step)
    ensures var t := Next(cfg, s, step);
            match step
            case Push =>
              Log(t) == if s.channelOpen && |s.queue| < cfg.capacity then Log(s) + [EventItem(s.next)] else Log(s)
            case SendRejection =>
              var echo := if s.loop.req < |s.echoes| then s.echoes[s.loop.req] else None;
              Log(t) == if s.channelOpen then Log(s) + [Reply(s.loop.req, Rejection(echo))] else Log(s)
            case TaskSends(req) =>
              Log(t) == if s.channelOpen then Log(s) + [Reply(req, s.tasks[req].response)] else Log(s)
            case WriterFails => Log(t) == s.written
            case Close => Log(t) == s.written
            case _ => Log(t) == Log(s)
  {
  }

  lemma PushedKept(cfg: Config, s: State, step: Step)
    requires Enabled(cfg, s, step) && Pushed(cfg, s)
    ensures Pushed(cfg, Next(cfg, s, step))
  {
    hide EventsOf, Log;
    LogChange(cfg, s, step);
    match step
    case Push => EventsOfSnoc(Log(s), EventItem(s.next));
    case SendRejection =>
      var echo := if s.loop.req < |s.echoes| then s.echoes[s.loop.req] else None;
      EventsOfSnoc(Log(s), Reply(s.loop.req, Rejection(echo)));
    case TaskSends(req) => EventsOfSnoc(Log(s), Reply(req, s.tasks[req].response));
    case WriterFails => CutCounts(s);
    case Close => CutCounts(s);
    case _ =>
  }

  lemma CutCounts(s: State)
    ensures |EventsOf(Log(s))| == |EventsOf(s.written)| + |EventsOf(s.queue)|
    ensures forall bound :: Increasing(EventsOf(Log(s)), bound) ==> Increasing(EventsOf(s.written), bound)
    ensures EventsOf([]) == []
  {
    EventsOfAppend(s.written, s.queue);
    var w, l := EventsOf(s.written), EventsOf(Log(s));
    assert forall i :: 0 <= i < |w| ==> l[i] == w[i];
  }

  lemma EchoedKept(cfg: Config, s: State, step: Step)
    requires Enabled(cfg, s, step) && Inv(cfg, s)
    ensures Echoed(Next(cfg, s, step)) && AllAnswered(Next(cfg, s, step))
  {
    hide EventsOf, Pushed, Log;
    LogChange(cfg, s, step);
    match step
    case Request(_) => RequestEchoed(cfg, s, step.echo);
    case SendRejection =>
      var response := Rejection(s.echoes[s.loop.req]);
      AppendReply(s, Next(cfg, s, step), s.loop.req, response);
    case TaskSends(req) => AppendReply(s, Next(cfg, s, step), req, s.tasks[req].response);
    case TaskAnswered(req, answer) =>
      assert forall r :: Unanswered(Next(cfg, s, step), r) <==> Unanswered(s, r);
    case WriterFails => CutEchoed(s, Next(cfg, s, step));
    case Close => CutEchoed(s, Next(cfg, s, step));
    case Push => PushEchoed(cfg, s);
    case _ =>
      assert forall r :: Unanswered(Next(cfg, s, step), r) <==> Unanswered(s, r);
  }

  lemma RequestEchoed(cfg: Config, s: State, echo: Option<Json>)
    requires Enabled(cfg, s, Request(echo)) && Inv(cfg, s)
    ensures var t := Next(cfg, s, Request(echo)); Echoed(t) && AllAnswered(t)
  {
    hide EventsOf, Pushed, Log;
    LogChange(cfg, s, Request(echo));
    var t := Next(cfg, s, Request(echo));
    assert Unanswered(t, |s.echoes|);
    assert forall r :: r != |s.echoes| ==> (Unanswered(t, r) <==> Unanswered(s, r));
  }

  lemma PushEchoed(cfg: Config, s: State)
    requires Enabled(cfg, s, Push) && Inv(cfg, s)
    ensures var t := Next(cfg, s, Push); Echoed(t) && AllAnswered(t)
  {
    hide EventsOf, Pushed, Log;
    LogChange(cfg, s, Push);
    var t := Next(cfg, s, Push);
    assert forall r :: Unanswered(t, r) <==> Unanswered(s, r);
    assert forall i :: 0 <= i < |Log(s)| ==> Log(t)[i] == Log(s)[i];
  }

  /** A request that stops being unanswered gets the one new response, unless the channel is closed. */
  lemma AppendReply(s: State, t: State, req: nat, response: ApiResponse)
    requires Echoed(s) && AllAnswered(s)
    requires Unanswered(s, req) && req < |s.echoes| && response.echo == s.echoes[req]
    requires t.echoes == s.echoes && t.channelOpen == s.channelOpen
    requires Log(t) == if s.channelOpen then Log(s) + [Reply(req, response)] else Log(s)
    requires forall r :: Unanswered(t, r) <==> r != req && Unanswered(s, r)
    requires forall r :: r in t.tasks ==> r in s.tasks && t.tasks[r] == s.tasks[r]
    ensures Echoed(t) && AllAnswered(t)
  {
    hide Log, Unanswered;
    var l, m := Log(s), Log(t);
    assert forall i :: 0 <= i < |l| ==> m[i] == l[i];
    if s.channelOpen { assert IsReply(m[|l|], req); }
  }

  lemma CutEchoed(s: State, t: State)
    requires Echoed(s) && Log(t) == s.written && !t.channelOpen
    requires t.echoes == s.echoes && t.tasks == s.tasks && t.loop == s.loop
    ensures Echoed(t) && AllAnswered(t)
  {
    assert forall i :: 0 <= i < |s.written| ==> Log(s)[i] == s.written[i];
  }

  lemma {:induction false} AlwaysInv(cfg: Config, states: seq<State>, steps: seq<Step>, i: nat)
    requires IsRun(cfg, states, steps) && i < |states|
    ensures Inv(cfg, states[i])
  {
    hide Next, Enabled, Permits, Echoed, AllAnswered, Pushed;
    if i == 0 {
      InitialInv(cfg);
    } else {
      AlwaysInv(cfg, states, steps, i - 1);
      PermitsKept(cfg, states[i - 1], steps[i - 1]);
      EchoedKept(cfg, states[i - 1], steps[i - 1]);
      PushedKept(cfg, states[i - 1], steps[i - 1]);
    }
  }

  lemma InitialInv(cfg: Config)
    ensures Inv(cfg, Initial(cfg))
  {
  }

  // ----- The session's promises -----

  /** At every step of every run, free permits and running tasks make up the limit. */
  lemma PermitsConserved(cfg: Config, states: seq<State>, steps: seq<Step>, i: nat)
    requires IsRun(cfg, states, steps) && i < |states|
    ensures states[i].permits + |states[i].tasks| == cfg.limit
  {
    AlwaysInv(cfg, states, steps, i);
  }

  /** A request is rejected only when the limit of tasks is running, and otherwise gets a task. */
  lemma RejectedOnlyWhenFull(cfg: Config, states: seq<State>, steps: seq<Step>, i: nat)
    requires IsRun(cfg, states, steps) && i < |steps| && steps[i].Request?
    ensures var req := |states[i].echoes|;
            (states[i + 1].loop == Rejecting(req) <==> |states[i].tasks| == cfg.limit)
            && (req in states[i + 1].tasks <==> |states[i].tasks| < cfg.limit)
  {
    AlwaysInv(cfg, states, steps, i);
  }

  /** Each request has at most one response on the wire, and it carries that request's echo. */
  lemma OneResponseWithItsEcho(cfg: Config, states: seq<State>, steps: seq<Step>, i: nat, j: nat, k: nat)
    requires IsRun(cfg, states, steps) && i < |states|
    requires j < |states[i].written| && k < |states[i].written| && states[i].written[j].Reply?
        && states[i].written[k].Reply?
    ensures states[i].written[j].req < |states[i].echoes|
    ensures states[i].written[j].response.echo == states[i].echoes[states[i].written[j].req]
    ensures j != k ==> states[i].written[j].req != states[i].written[k].req
  {
    hide EventsOf;
    AlwaysInv(cfg, states, steps, i);
    var s := states[i];
    assert Log(s)[j] == s.written[j] && Log(s)[k] == s.written[k];
  }

  /**
   While the session's writer lives, a request that is no longer being worked on
   has its response queued or written.
   */
  lemma AnsweredWhileOpen(cfg: Config, states: seq<State>, steps: seq<Step>, i: nat, req: nat) returns (k: nat)
    requires IsRun(cfg, states, steps) && i < |states| && states[i].channelOpen
    requires req < |states[i].echoes| && !Unanswered(states[i], req)
    ensures k < |states[i].written + states[i].queue| && IsReply((states[i].written + states[i].queue)[k], req)
  {
    AlwaysInv(cfg, states, steps, i);
    k :| 0 <= k < |Log(states[i])| && IsReply(Log(states[i])[k], req);
  }

  /** Events are conserved: written, queued, dropped, skipped by lag, lost with the channel, or still unread. */
  lemma EventsConserved(cfg: Config, states: seq<State>, steps: seq<Step>, i: nat)
    requires IsRun(cfg, states, steps) && i < |states|
    ensures var s := states[i];
            s.published == |EventsOf(s.written)| + |EventsOf(s.queue)| + s.dropped + s.skipped + s.lost + Unread(s)
            && (s.channelOpen ==> s.lost == 0) && |s.queue| <= cfg.capacity
  {
    AlwaysInv(cfg, states, steps, i);
    CutCounts(states[i]);
  }

  /** The events written are in publication order, each at most once. */
  lemma EventsInOrder(cfg: Config, states: seq<State>, steps: seq<Step>, i: nat)
    requires IsRun(cfg, states, steps) && i < |states|
    ensures Increasing(EventsOf(states[i].written), states[i].published)
  {
    AlwaysInv(cfg, states, steps, i);
    CutCounts(states[i]);
  }

  /** A client that is never slow enough to lag or fill the queue misses nothing: what is accepted is every event. */
  lemma NothingMissing(cfg: Config, states: seq<State>, steps: seq<Step>, i: nat, k: nat)
    requires IsRun(cfg, states, steps) && i < |states|
    requires var s := states[i]; s.dropped == s.skipped == s.lost == 0 && k < s.next
    ensures var accepted := EventsOf(states[i].written + states[i].queue);
            |accepted| == states[i].next && accepted[k] == k
  {
    hide EventsOf;
    AlwaysInv(cfg, states, steps, i);
    IncreasingIsIdentity(EventsOf(Log(states[i])), k);
  }

  lemma {:induction false} IncreasingAtLeast(ns: seq<nat>, bound: nat, k: nat)
    requires Increasing(ns, bound) && k < |ns|
    ensures k <= ns[k]
  {
    if k == 0 {
    } else {
      IncreasingAtLeast(ns, bound, k - 1);
    }
  }

  lemma {:induction false} IncreasingIsIdentity(ns: seq<nat>, k: nat)
    requires Increasing(ns, |ns|) && k < |ns|
    ensures ns[k] == k
    decreases |ns| - k
  {
    IncreasingAtLeast(ns, |ns|, k);
    if k + 1 < |ns| { IncreasingIsIdentity(ns, k + 1); }
  }

  /** An event is dropped only at a full queue, skipped only beyond what the bus keeps, lost only with the writer. */
  lemma LossHasCause(cfg: Config, s: State, step: Step)
    requires Enabled(cfg, s, step)
    ensures var t := Next(cfg, s, step);
            (t.dropped != s.dropped ==>
                step.Push? && s.channelOpen && |s.queue| >= cfg.capacity && t.dropped == s.dropped + 1)
            && (t.skipped != s.skipped ==> step.Lag? && t.published - t.next == cfg.busCapacity)
            && (t.lost != s.lost ==> !t.channelOpen)
  {
    hide EventsOf;
  }

  /** The response is the adapter's answer with the client's echo put back, or a failure that carries that echo. */
  predicate IsRestored(response: ApiResponse, answer: Answer, echo: Option<Json>) {
    match answer
    case Routed(r) =>
      response.echo == echo && response.data == r.data && response.message == r.message
      && response.status == r.status && response.retcode == r.retcode
    case Failed(message) => response == ApiResponse("failed", 1400, Null, message, echo)
  }

  ghost predicate HasResponse(s: State, req: nat, response: ApiResponse) {
    Reply(req, response) in Log(s) || (req in s.tasks && s.tasks[req] == Sending(response))
  }

  predicate IsSource(s: State, step: Step, req: nat, response: ApiResponse) {
    req < |s.echoes|
    && ((step.TaskAnswered? && step.req == req && IsRestored(response, step.answer, s.echoes[req]))
        || (step.SendRejection? && s.loop == Rejecting(req)
            && response == ApiResponse("failed", 1400, Null, "too many in-flight WS API requests", s.echoes[req])))
  }

  lemma ResponseAppears(cfg: Config, s: State, step: Step, req: nat, response: ApiResponse)
    requires Enabled(cfg, s, step) && Permits(cfg, s) && HasResponse(Next(cfg, s, step), req, response)
    ensures HasResponse(s, req, response) || IsSource(s, step, req, response)
  {
    hide EventsOf, Log;
    LogChange(cfg, s, step);
    assert forall item :: item in s.written ==> item in Log(s) by { WrittenIsLogged(s); }
    if step.SendRejection? {
      assert s.loop.req < |s.echoes|;
    }
  }

  lemma WrittenIsLogged(s: State)
    ensures forall item :: item in s.written ==> item in Log(s)
  {
  }

  /** Every response on its way or written was an adapter's answer to that very request, or its rejection. */
  lemma {:induction false} ResponseSource(cfg: Config, states: seq<State>, steps: seq<Step>, i: nat,
                                          req: nat, response: ApiResponse)
    returns (k: nat)
    requires IsRun(cfg, states, steps) && i < |states| && HasResponse(states[i], req, response)
    ensures k < i && IsSource(states[k], steps[k], req, response)
  {
    hide EventsOf, Enabled, Next, IsSource, Echoed, Pushed, AllAnswered, Permits;
    assert i > 0;
    AlwaysInv(cfg, states, steps, i - 1);
    ResponseAppears(cfg, states[i - 1], steps[i - 1], req, response);
    hide HasResponse;
    if HasResponse(states[i - 1], req, response) {
      k := ResponseSource(cfg, states, steps, i - 1, req, response);
    } else {
      k := i - 1;
    }
  }

  // ----- What the steps so far say about the state -----

  function Requests(): Step -> bool {
    (step: Step) => step.Request?
  }

  function TaskEnds(): Step -> bool {
    (step: Step) => step.TaskSends?
  }

  function AnswersTo(req: nat): Step -> bool {
    (step: Step) => step.TaskAnswered? && step.req == req
  }

  function StopsWriter(): Step -> bool {
    (step: Step) => step.WriterFails? || step.Close?
  }

  /** A request that gets a permit. */
  function Starts(states: seq<State>, steps: seq<Step>): nat -> bool {
    (k: nat) => k < |steps| && k < |states| && steps[k].Request? && states[k].permits > 0
  }

  /** The request numbered `req`, when it gets a permit; or when it does not. */
  function StartsReq(states: seq<State>, steps: seq<Step>, req: nat, permit: bool): nat -> bool {
    (k: nat) => k < |steps| && k < |states| && steps[k].Request? && |states[k].echoes| == req
                && (states[k].permits > 0 <==> permit)
  }

  /** What each step does to every counter. */
  lemma CounterStep(cfg: Config, s: State, step: Step)
    requires Enabled(cfg, s, step)
    ensures var t := Next(cfg, s, step);
            t.published == s.published + (if step == Publish then 1 else 0)
            && t.next - t.skipped == s.next - s.skipped + (if step == Push then 1 else 0)
            && |t.written| == |s.written| + (if step == Write then 1 else 0)
            && t.rejected == s.rejected + (if step == SendRejection then 1 else 0)
            && |t.echoes| == |s.echoes| + (if step.Request? then 1 else 0)
            && t.permits == s.permits - (if step.Request? && s.permits > 0 then 1 else 0)
                            + (if step.TaskSends? then 1 else 0)
            && (step == Lag ==> Unread(t) == cfg.busCapacity)
  {
    hide Next, Enabled;
    PushCounters(cfg, s, step);
    RequestCounters(cfg, s, step);
  }

  lemma PushCounters(cfg: Config, s: State, step: Step)
    requires Enabled(cfg, s, step)
    ensures var t := Next(cfg, s, step);
            t.published == s.published + (if step == Publish then 1 else 0)
            && t.next - t.skipped == s.next - s.skipped + (if step == Push then 1 else 0)
            && |t.written| == |s.written| + (if step == Write then 1 else 0)
            && (step == Lag ==> Unread(t) == cfg.busCapacity)
  {
    hide EventsOf, Rejection, Fail;
  }

  lemma RequestCounters(cfg: Config, s: State, step: Step)
    requires Enabled(cfg, s, step)
    ensures var t := Next(cfg, s, step);
            t.rejected == s.rejected + (if step == SendRejection then 1 else 0)
            && |t.echoes| == |s.echoes| + (if step.Request? then 1 else 0)
            && t.permits == s.permits - (if step.Request? && s.permits > 0 then 1 else 0)
                            + (if step.TaskSends? then 1 else 0)
  {
    hide EventsOf, Rejection, Fail;
  }

  lemma StepAt(cfg: Config, states: seq<State>, steps: seq<Step>, k: nat)
    requires IsRun(cfg, states, steps) && k < |steps|
    ensures Enabled(cfg, states[k], steps[k]) && states[k + 1] == Next(cfg, states[k], steps[k])
  {
  }

  /** Every counter is the number of its own steps: nothing is counted twice, and nothing left out. */
  lemma CountersCount(cfg: Config, states: seq<State>, steps: seq<Step>, i: nat)
    requires IsRun(cfg, states, steps) && i < |states|
    ensures states[i].published == Count(At(steps, Publish), i)
    ensures states[i].next - states[i].skipped == Count(At(steps, Push), i)
    ensures |states[i].written| == Count(At(steps, Write), i)
    ensures states[i].rejected == Count(At(steps, SendRejection), i)
    ensures |states[i].echoes| == Count(Where(steps, Requests()), i)
  {
    hide Next, Enabled, Count;
    forall k: nat | k < i ensures Enabled(cfg, states[k], steps[k]) && states[k + 1] == Next(cfg, states[k], steps[k]) {
      StepAt(cfg, states, steps, k);
    }
    forall k: nat | k < i { CounterStep(cfg, states[k], steps[k]); }
    CountHolds((k: nat) => if k < |states| then states[k].published else 0, At(steps, Publish), i);
    CountHolds((k: nat) => if k < |states| then states[k].next - states[k].skipped else 0, At(steps, Push), i);
    CountHolds((k: nat) => if k < |states| then |states[k].written| else 0, At(steps, Write), i);
    CountHolds((k: nat) => if k < |states| then states[k].rejected else 0, At(steps, SendRejection), i);
    CountHolds((k: nat) => if k < |states| then |states[k].echoes| else 0, Where(steps, Requests()), i);
  }

  /** A permit is taken by each request that gets a task and comes back with each task that ends. */
  lemma {:induction false} PermitsCount(cfg: Config, states: seq<State>, steps: seq<Step>, i: nat)
    requires IsRun(cfg, states, steps) && i < |states|
    ensures states[i].permits ==
            cfg.limit - Count(Starts(states, steps), i) + Count(Where(steps, TaskEnds()), i)
  {
    hide Next, Enabled;
    if i == 0 {
    } else {
      PermitsCount(cfg, states, steps, i - 1);
      StepAt(cfg, states, steps, i - 1);
      CounterStep(cfg, states[i - 1], steps[i - 1]);
    }
  }

  predicate HasTask(s: State, req: nat) {
    req in s.tasks
  }

  predicate IsAnswered(s: State, req: nat) {
    req in s.tasks && s.tasks[req].Sending?
  }

  /** How each step starts, answers and ends tasks, and moves the receive loop. */
  lemma TaskStep(cfg: Config, s: State, step: Step, req: nat)
    requires Enabled(cfg, s, step) && Permits(cfg, s)
    ensures var t := Next(cfg, s, step);
            var starts := step.Request? && |s.echoes| == req && s.permits > 0;
            var waits := step.Request? && |s.echoes| == req && !(s.permits > 0);
            (HasTask(t, req) <==> starts || (HasTask(s, req) && step != TaskSends(req)))
            && (IsAnswered(t, req) <==> AnswersTo(req)(step) || (IsAnswered(s, req) && step != TaskSends(req)))
            && (t.loop == Rejecting(req) <==> waits || (s.loop == Rejecting(req) && step != SendRejection))
            && (!t.channelOpen <==> StopsWriter()(step) || !s.channelOpen)
            && (!t.open <==> step == Close || !s.open)
  {
    hide EventsOf;
  }

  lemma TaskAt(cfg: Config, states: seq<State>, steps: seq<Step>, k: nat, req: nat)
    requires IsRun(cfg, states, steps) && k < |steps|
    ensures HasTask(states[k + 1], req) <==>
            StartsReq(states, steps, req, true)(k) || (HasTask(states[k], req) && steps[k] != TaskSends(req))
    ensures IsAnswered(states[k + 1], req) <==>
            AnswersTo(req)(steps[k]) || (IsAnswered(states[k], req) && steps[k] != TaskSends(req))
    ensures states[k + 1].loop == Rejecting(req) <==>
            StartsReq(states, steps, req, false)(k) || (states[k].loop == Rejecting(req) && steps[k] != SendRejection)
    ensures !states[k + 1].channelOpen <==> StopsWriter()(steps[k]) || !states[k].channelOpen
    ensures !states[k + 1].open <==> steps[k] == Close || !states[k].open
  {
    hide Next, Enabled, HasTask, IsAnswered, AnswersTo, StopsWriter, Echoed, AllAnswered, Pushed;
    AlwaysInv(cfg, states, steps, k);
    StepAt(cfg, states, steps, k);
    TaskStep(cfg, states[k], steps[k], req);
  }

  /** A request has its task from when it got a permit until its response is handed over. */
  lemma TaskIff(cfg: Config, states: seq<State>, steps: seq<Step>, i: nat, req: nat)
    requires IsRun(cfg, states, steps) && i < |states|
    ensures HasTask(states[i], req) <==> Since(StartsReq(states, steps, req, true), At(steps, TaskSends(req)), i)
  {
    hide Next, Enabled, AnswersTo, StopsWriter;
    forall k: nat | k < i { TaskAt(cfg, states, steps, k, req); }
    SinceHolds((k: nat) => k < |states| && HasTask(states[k], req),
               StartsReq(states, steps, req, true), At(steps, TaskSends(req)), i);
  }

  /** It has an answer from when the adapter gave one. */
  lemma AnsweredIff(cfg: Config, states: seq<State>, steps: seq<Step>, i: nat, req: nat)
    requires IsRun(cfg, states, steps) && i < |states|
    ensures IsAnswered(states[i], req) <==> Since(Where(steps, AnswersTo(req)), At(steps, TaskSends(req)), i)
  {
    hide Next, Enabled, StopsWriter, HasTask;
    forall k: nat | k < i { TaskAt(cfg, states, steps, k, req); }
    SinceHolds((k: nat) => k < |states| && IsAnswered(states[k], req),
               Where(steps, AnswersTo(req)), At(steps, TaskSends(req)), i);
  }

  /** The receive loop is stuck with a request from when it got no permit until its rejection is handed over. */
  lemma RejectingIff(cfg: Config, states: seq<State>, steps: seq<Step>, i: nat, req: nat)
    requires IsRun(cfg, states, steps) && i < |states|
    ensures states[i].loop == Rejecting(req) <==>
            Since(StartsReq(states, steps, req, false), At(steps, SendRejection), i)
  {
    hide Next, Enabled, AnswersTo, StopsWriter, HasTask, IsAnswered;
    forall k: nat | k < i { TaskAt(cfg, states, steps, k, req); }
    SinceHolds((k: nat) => k < |states| && states[k].loop == Rejecting(req),
               StartsReq(states, steps, req, false), At(steps, SendRejection), i);
  }

  /** The session is open until it closes, and its queue until the writer fails or the session closes. */
  lemma ClosedIff(cfg: Config, states: seq<State>, steps: seq<Step>, i: nat)
    requires IsRun(cfg, states, steps) && i < |states|
    ensures !states[i].open <==> Since(At(steps, Close), Never(), i)
    ensures !states[i].channelOpen <==> Since(Where(steps, StopsWriter()), Never(), i)
  {
    hide Next, Enabled, HasTask, IsAnswered;
    forall k: nat | k < i { TaskAt(cfg, states, steps, k, 0); }
    SinceHolds((k: nat) => k < |states| && !states[k].open, At(steps, Close), Never(), i);
    SinceHolds((k: nat) => k < |states| && !states[k].channelOpen, Where(steps, StopsWriter()), Never(), i);
  }

  /** Nothing is written after the writer is gone. */
  lemma {:induction false} SilentOnceClosed(cfg: Config, states: seq<State>, steps: seq<Step>, k: nat, i: nat)
    requires IsRun(cfg, states, steps) && k <= i < |states| && !states[k].channelOpen
    ensures !states[i].channelOpen && states[i].written == states[k].written
  {
    hide EventsOf;
    if k == i {
    } else {
      SilentOnceClosed(cfg, states, steps, k, i - 1);
      StepAt(cfg, states, steps, i - 1);
    }
  }

  /** The echo kept for a request is the one it came with. */
  lemma {:induction false} EchoesRecorded(cfg: Config, states: seq<State>, steps: seq<Step>, k: nat, i: nat)
    requires IsRun(cfg, states, steps) && k < i < |states| && steps[k].Request?
    ensures |states[k].echoes| < |states[i].echoes| && states[i].echoes[|states[k].echoes|] == steps[k].echo
  {
    hide Next, Enabled;
    StepAt(cfg, states, steps, i - 1);
    EchoStep(cfg, states[i - 1], steps[i - 1]);
    if k == i - 1 {
    } else {
      EchoesRecorded(cfg, states, steps, k, i - 1);
    }
  }

  lemma EchoStep(cfg: Config, s: State, step: Step)
    requires Enabled(cfg, s, step)
    ensures Next(cfg, s, step).echoes == if step.Request? then s.echoes + [step.echo] else s.echoes
  {
    hide EventsOf;
  }

  /**
   Nothing gets stuck, given room for one item: unread events never wait for the queue, the receive loop can read or
   the writer can make room for its rejection, and so can every request's own answer.
   */
  lemma NothingStuck(cfg: Config, states: seq<State>, steps: seq<Step>, i: nat, req: nat)
    requires IsRun(cfg, states, steps) && i < |states| && cfg.capacity > 0
    ensures var s := states[i];
            (s.pushing && s.next < s.published ==> Enabled(cfg, s, Push) || Enabled(cfg, s, Lag))
            && (s.open ==>
                (forall e :: Enabled(cfg, s, Request(e))) || Enabled(cfg, s, SendRejection) || Enabled(cfg, s, Write))
            && (s.open ==> Enabled(cfg, s, Close) || s.loop.Rejecting?)
            && (HasTask(s, req) && !IsAnswered(s, req) ==> forall a :: Enabled(cfg, s, TaskAnswered(req, a)))
            && (IsAnswered(s, req) ==> Enabled(cfg, s, TaskSends(req)) || Enabled(cfg, s, Write))
            && (s.queue != [] ==> Enabled(cfg, s, Write) && Enabled(cfg, s, WriterFails))
  {
    hide Echoed, AllAnswered, EventsOf, Next;
    AlwaysInv(cfg, states, steps, i);
  }

  // ----- The session object -----

  class Session {
    const cfg: Config
    var open: bool
    var channelOpen: bool
    var pushing: bool
    var loop: Loop
    var permits: nat
    var tasks: map<nat, Task>
    var echoes: seq<Option<Json>>
    var queue: seq<Item>
    var written: seq<Item>
    var published: nat
    var next: nat
    var dropped: nat
    var skipped: nat
    var lost: nat
    var rejected: nat

    function Abs(): State
      reads this
    {
      State(open, channelOpen, pushing, loop, permits, tasks, echoes, queue, written,
        published, next, dropped, skipped, lost, rejected)
    }

    constructor (cfg: Config)
      ensures Abs() == Initial(cfg) && this.cfg == cfg
    {
      this.cfg, open, channelOpen, pushing, loop, permits := cfg, true, true, true, Reading, cfg.limit;
      tasks, echoes, queue, written := map[], [], [], [];
      published, next, dropped, skipped, lost, rejected := 0, 0, 0, 0, 0, 0;
    }

    /** One turn of the push task: a lag report, or an event offered to the queue without waiting. */
    method PushTurn()
      requires Enabled(cfg, Abs(), Lag) || Enabled(cfg, Abs(), Push)
      modifies this
      ensures Abs() == Next(cfg, old(Abs()), if old(Enabled(cfg, Abs(), Lag)) then Lag else Push)
    {
      if published - next > cfg.busCapacity {
        var missed := published - next - cfg.busCapacity;
        next := next + missed;
        skipped := skipped + missed;
        return;
      }
      var event := next;
      next := next + 1;
      if !channelOpen {
        lost := lost + 1;
        pushing := false;
      } else if |queue| < cfg.capacity {
        queue := queue + [EventItem(event)];
      } else {
        dropped := dropped + 1;
      }
    }

    /** A parsed request: it gets a permit and a task of its own, or waits to be rejected. */
    method HandleRequest(echo: Option<Json>) returns (accepted: bool)
      requires Enabled(cfg, Abs(), Request(echo))
      modifies this
      ensures Abs() == Next(cfg, old(Abs()), Request(echo)) && accepted == (old(permits) > 0)
    {
      var req := |echoes|;
      echoes := echoes + [echo];
      if permits > 0 {
        permits := permits - 1;
        tasks := tasks[req := Calling];
        return true;
      }
      loop := Rejecting(req);
      accepted := false;
    }

    method Reject()
      requires Enabled(cfg, Abs(), SendRejection)
      modifies this
      ensures Abs() == Next(cfg, old(Abs()), SendRejection)
    {
      var echo := if loop.req < |echoes| then echoes[loop.req] else None;
      Send(Reply(loop.req, Rejection(echo)));
      rejected := rejected + 1;
      loop := Reading;
    }

    /** `Sender::send` on the outbound queue, once there is room; the error of a closed queue is ignored. */
    method Send(item: Item)
      modifies this`queue
      ensures Abs() == Enqueue(old(Abs()), item)
    {
      if channelOpen { queue := queue + [item]; }
    }

    method TaskReturns(req: nat, answer: Answer)
      requires Enabled(cfg, Abs(), TaskAnswered(req, answer))
      modifies this
      ensures Abs() == Next(cfg, old(Abs()), TaskAnswered(req, answer))
    {
      var response;
      match answer {
        case Routed(r) => response := r.(echo := echoes[req]);
        case Failed(message) => response := Fail(message, echoes[req]);
      }
      tasks := tasks[req := Sending(response)];
    }

    /** The response is handed to the queue and the permit comes back. */
    method TaskSendsResponse(req: nat)
      requires Enabled(cfg, Abs(), TaskSends(req))
      modifies this
      ensures Abs() == Next(cfg, old(Abs()), TaskSends(req))
    {
      Send(Reply(req, tasks[req].response));
      tasks := tasks - {req};
      permits := permits + 1;
    }

    /** One turn of the writer task; a failed write ends it. */
    method WriterTurn(delivered: bool)
      requires Enabled(cfg, Abs(), Write)
      modifies this
      ensures Abs() == Next(cfg, old(Abs()), if delivered then Write else WriterFails)
    {
      if delivered {
        written := written + [queue[0]];
        queue := queue[1..];
      } else {
        DropChannel();
      }
    }

    method DropChannel()
      modifies this`channelOpen, this`queue, this`lost
      ensures Abs() == CloseChannel(old(Abs()))
    {
      lost := lost + |EventsOf(queue)|;
      channelOpen := false;
      queue := [];
    }

    method CloseSession()
      requires Enabled(cfg, Abs(), Close)
      modifies this
      ensures Abs() == Next(cfg, old(Abs()), Close)
    {
      pushing := false;
      DropChannel();
      open := false;
    }
  }

  // ----- The reverse connection's backoff -----

  /** What one attempt to reach the remote end came to: no valid request, no connection, or a session that ended. */
  datatype Attempt = BadRequest | Refused | Served

  const BASE_INTERVAL: nat := 5
  const MAX_INTERVAL: nat := 120

  function Min(a: nat, b: nat): nat {
    if a < b then a else b
  }

  function Pow2(n: nat): nat {
    if n == 0 then 1 else 2 * Pow2(n - 1)
  }

  /** Attempts made since the last session, or since the start. */
  function Streak(attempts: seq<Attempt>, i: nat): nat
    requires i < |attempts|
  {
    if i == 0 || attempts[i].Served? then 0 else Streak(attempts, i - 1) + 1
  }

  /** Counted from the last session, or from the first attempt when there has been none. */
  lemma {:induction false} StreakMeaning(attempts: seq<Attempt>, m: nat, i: nat)
    requires m <= i < |attempts| && (m == 0 || attempts[m].Served?)
    requires forall k :: m < k <= i ==> !attempts[k].Served?
    ensures Streak(attempts, i) == i - m
  {
    if m == i {
    } else {
      StreakMeaning(attempts, m, i - 1);
    }
  }

  /** Five seconds, then ten, twenty, forty, eighty, and two minutes from then on. */
  lemma PauseTable(n: nat)
    ensures Pause(0) == 5 && Pause(1) == 10 && Pause(2) == 20 && Pause(3) == 40 && Pause(4) == 80
    ensures n >= 5 ==> Pause(n) == 120
  {
    assert Pow2(0) == 1 && Pow2(1) == 2 && Pow2(2) == 4 && Pow2(3) == 8 && Pow2(4) == 16;
    if n >= 5 { Pow2AtLeast(n); }
  }

  lemma {:induction false} Pow2AtLeast(n: nat)
    requires n >= 5
    ensures Pow2(n) >= 32
  {
    if n == 5 {
      assert Pow2(4) == 2 * Pow2(3) && Pow2(3) == 2 * Pow2(2) && Pow2(2) == 4;
    } else {
      Pow2AtLeast(n - 1);
    }
  }

  /** The pause after a streak of `n`. */
  function Pause(n: nat): nat {
    Min(BASE_INTERVAL * Pow2(n), MAX_INTERVAL)
  }

  lemma PauseDoubles(n: nat)
    ensures Pause(0) == BASE_INTERVAL && Pause(n + 1) == Min(Pause(n) * 2, MAX_INTERVAL)
  {
  }

  /**
   The pauses, in seconds, after each attempt: doubled from the base up to the cap,
   and back to the base after a session.
   */
  method ReverseLoop(attempts: seq<Attempt>) returns (pauses: seq<nat>)
    ensures |pauses| == |attempts|
    ensures forall i :: 0 <= i < |attempts| ==> pauses[i] == Pause(Streak(attempts, i))
  {
    hide Pause, Min;
    PauseDoubles(0);
    pauses := [];
    var current := BASE_INTERVAL;
    for n := 0 to |attempts|
      invariant |pauses| == n
      invariant forall i :: 0 <= i < n ==> pauses[i] == Pause(Streak(attempts, i))
      invariant current == if n == 0 then BASE_INTERVAL else Pause(Streak(attempts, n - 1) + 1)
    {
      PauseDoubles(Streak(attempts, n));
      if attempts[n].Served? {
        current := BASE_INTERVAL;
      }
      pauses := pauses + [current];
      current := Min(current * 2, MAX_INTERVAL);
    }
  }
}
