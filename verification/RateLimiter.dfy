/** The global token bucket: atomic counters, a background refill, hot reload of both parameters. */
module RateLimiter {

  const MAX32: nat := 0xFFFF_FFFF

  type U32 = n: nat | n <= MAX32

  function Min(a: nat, b: nat): nat {
    if a < b then a else b
  }

  function SaturatingAdd(a: U32, b: U32): U32 {
    if a + b > MAX32 then MAX32 else a + b
  }

  /** The 32-bit saturating refill is the unbounded one. */
  lemma RefillIsUnbounded(tokens: U32, rps: U32, burst: U32)
    ensures Min(SaturatingAdd(tokens, rps), burst) == Min(tokens + rps, burst)
  {
  }

  // ----- One atomic access at a time -----

  /** Where the refill task is: waiting for its tick, or holding what it has loaded so far. */
  datatype Refill = Waiting | HaveRps(r: U32) | HaveBoth(r: U32, b: U32)

  datatype State = State(tokens: U32, burst: U32, rps: U32, refill: Refill)

  datatype Op = StoreRps(r: U32) | StoreBurst(b: U32) | LoadRps | LoadBurst | Commit | Acquire

  predicate Enabled(s: State, op: Op) {
    match op
    case LoadRps => s.refill.Waiting?
    case LoadBurst => s.refill.HaveRps?
    case Commit => s.refill.HaveBoth?
    case _ => true
  }

  function Next(s: State, op: Op): State
    requires Enabled(s, op)
  {
    match op
    case StoreRps(r) => s.(rps := r)
    case StoreBurst(b) => s.(burst := b)
    case LoadRps => s.(refill := HaveRps(s.rps))
    case LoadBurst => s.(refill := HaveBoth(s.refill.r, s.burst))
    case Commit => s.(tokens := Min(SaturatingAdd(s.tokens, s.refill.r), s.refill.b), refill := Waiting)
    case Acquire => if s.tokens > 0 then s.(tokens := s.tokens - 1) else s
  }

  predicate Granted(s: State, op: Op) {
    op.Acquire? && s.tokens > 0
  }

  function New(burst: U32): State {
    State(burst, burst, 0, Waiting)
  }

  /** Any stretch of a run: each state follows from the one before. */
  ghost predicate IsPath(states: seq<State>, ops: seq<Op>) {
    |states| == |ops| + 1
    && forall i :: 0 <= i < |ops| ==> Enabled(states[i], ops[i]) && states[i + 1] == Next(states[i], ops[i])
  }

  ghost predicate IsRun(states: seq<State>, ops: seq<Op>) {
    IsPath(states, ops) && states[0].tokens == states[0].burst && states[0].refill.Waiting?
  }

  // ----- Window bounds under hot reload -----

  /** Requests granted among ops `i` to `j`. */
  function Grants(states: seq<State>, ops: seq<Op>, i: nat, j: nat): nat
    requires i <= j <= |ops| < |states|
  {
    if i == j then 0 else Grants(states, ops, i, j - 1) + if Granted(states[j - 1], ops[j - 1]) then 1 else 0
  }

  /** The sum of the rates the refill task had read at its commits among ops `i` to `j`. */
  function RatesRead(states: seq<State>, ops: seq<Op>, i: nat, j: nat): nat
    requires i <= j <= |ops| < |states|
  {
    if i == j then 0
    else RatesRead(states, ops, i, j - 1) +
         if ops[j - 1].Commit? && states[j - 1].refill.HaveBoth? then states[j - 1].refill.r else 0
  }

  /** The largest burst configured up to state `n`. */
  function MaxBurst(states: seq<State>, n: nat): nat
    requires n < |states|
  {
    if n == 0 || states[n].burst > MaxBurst(states, n - 1) then states[n].burst else MaxBurst(states, n - 1)
  }

  lemma {:induction false} TokensBounded(states: seq<State>, ops: seq<Op>, n: nat)
    requires IsRun(states, ops) && n < |states|
    ensures states[n].tokens <= MaxBurst(states, n)
    ensures states[n].refill.HaveBoth? ==> states[n].refill.b <= MaxBurst(states, n)
  {
    if n == 0 {
    } else {
      TokensBounded(states, ops, n - 1);
      assert states[n] == Next(states[n - 1], ops[n - 1]);
    }
  }

  lemma {:induction false} TokensConserved(states: seq<State>, ops: seq<Op>, i: nat, j: nat)
    requires IsPath(states, ops) && i <= j <= |ops|
    ensures states[j].tokens + Grants(states, ops, i, j) <= states[i].tokens + RatesRead(states, ops, i, j)
  {
    if i == j {
    } else {
      TokensConserved(states, ops, i, j - 1);
      assert states[j] == Next(states[j - 1], ops[j - 1]);
    }
  }

  /**
   In any window of any run, reloads included,
   no more is granted than the largest burst so far plus the rates read.
   */
  lemma WindowBound(states: seq<State>, ops: seq<Op>, i: nat, j: nat)
    requires IsRun(states, ops) && i <= j <= |ops|
    ensures Grants(states, ops, i, j) <= MaxBurst(states, i) + RatesRead(states, ops, i, j)
  {
    TokensConserved(states, ops, i, j);
    TokensBounded(states, ops, i);
  }

  /** Requests and reloads never wait, and the refill goes through its three accesses in turn. */
  lemma NothingBlocks(s: State, r: U32)
    ensures Enabled(s, Acquire) && Enabled(s, StoreRps(r)) && Enabled(s, StoreBurst(r))
    ensures Enabled(s, LoadRps) <==> s.refill.Waiting?
    ensures Enabled(s, LoadBurst) <==> s.refill.HaveRps?
    ensures Enabled(s, Commit) <==> s.refill.HaveBoth?
  {
  }

  // ----- What a reload changes -----

  /** The rate in force is the last one stored. */
  lemma {:induction false} RateIsLastStored(states: seq<State>, ops: seq<Op>, k: nat, i: nat)
    requires IsPath(states, ops) && k < i <= |ops| && ops[k].StoreRps?
    requires forall m :: k < m < i ==> !ops[m].StoreRps?
    ensures states[i].rps == ops[k].r
  {
    assert Enabled(states[i - 1], ops[i - 1]) && states[i] == Next(states[i - 1], ops[i - 1]);
    if k == i - 1 {
    } else {
      RateIsLastStored(states, ops, k, i - 1);
    }
  }

  lemma {:induction false} BurstIsLastStored(states: seq<State>, ops: seq<Op>, k: nat, i: nat)
    requires IsPath(states, ops) && k < i <= |ops| && ops[k].StoreBurst?
    requires forall m :: k < m < i ==> !ops[m].StoreBurst?
    ensures states[i].burst == ops[k].b
  {
    assert Enabled(states[i - 1], ops[i - 1]) && states[i] == Next(states[i - 1], ops[i - 1]);
    if k == i - 1 {
    } else {
      BurstIsLastStored(states, ops, k, i - 1);
    }
  }

  /** What a tick under way has loaded, it keeps until it commits. */
  lemma {:induction false} LoadsAreKept(states: seq<State>, ops: seq<Op>, k: nat, l: nat, j: nat)
    requires IsPath(states, ops) && k < l < j <= |ops| && ops[k].LoadRps? && ops[l].LoadBurst?
    requires forall m :: k < m < j ==> !ops[m].Commit?
    ensures states[j].refill == HaveBoth(states[k].rps, states[l].burst)
  {
    assert Enabled(states[j - 1], ops[j - 1]) && states[j] == Next(states[j - 1], ops[j - 1]);
    if l == j - 1 {
      RateIsKept(states, ops, k, l);
    } else {
      LoadsAreKept(states, ops, k, l, j - 1);
    }
  }

  lemma {:induction false} RateIsKept(states: seq<State>, ops: seq<Op>, k: nat, l: nat)
    requires IsPath(states, ops) && k < l < |ops| && ops[k].LoadRps? && ops[l].LoadBurst?
    requires forall m :: k < m < l ==> !ops[m].Commit?
    ensures states[l].refill == HaveRps(states[k].rps)
  {
    assert Enabled(states[l], ops[l]);
    KeptOrBoth(states, ops, k, l);
  }

  lemma {:induction false} KeptOrBoth(states: seq<State>, ops: seq<Op>, k: nat, l: nat)
    requires IsPath(states, ops) && k < l <= |ops| && ops[k].LoadRps?
    requires forall m :: k < m < l ==> !ops[m].Commit?
    ensures !states[l].refill.Waiting? && states[l].refill.r == states[k].rps
  {
    assert Enabled(states[l - 1], ops[l - 1]) && states[l] == Next(states[l - 1], ops[l - 1]);
    if k == l - 1 {
    } else {
      KeptOrBoth(states, ops, k, l - 1);
    }
  }

  /**
   A reload takes effect at the next tick that loads after it: that tick adds the rate stored last before its load,
   and caps at the burst stored last before its own.
   */
  lemma ReloadTakesEffect(states: seq<State>, ops: seq<Op>, m: nat, n: nat, k: nat, l: nat, j: nat)
    requires IsPath(states, ops) && m < k < l < j < |ops| && n < l
    requires ops[m].StoreRps? && forall x :: m < x < k ==> !ops[x].StoreRps?
    requires ops[n].StoreBurst? && forall x :: n < x < l ==> !ops[x].StoreBurst?
    requires ops[k].LoadRps? && ops[l].LoadBurst? && ops[j].Commit? && forall x :: k < x < j ==> !ops[x].Commit?
    ensures states[j + 1].tokens == Min(states[j].tokens + ops[m].r, ops[n].b)
  {
    RateIsLastStored(states, ops, m, k);
    BurstIsLastStored(states, ops, n, l);
    LoadsAreKept(states, ops, k, l, j);
    assert Enabled(states[j], ops[j]) && states[j + 1] == Next(states[j], ops[j]);
  }

  // ----- When the burst now configured is the bound -----

  /** Whatever happens from `s` on, no more is granted than its burst plus the rates read. */
  ghost predicate BurstBounds(s: State) {
    forall states, ops :: IsPath(states, ops) && states[0] == s ==>
      Grants(states, ops, 0, |ops|) <= s.burst + RatesRead(states, ops, 0, |ops|)
  }

  /** The configured burst bounds every continuation exactly when the bucket holds no more than it. */
  lemma BurstBoundsIff(s: State)
    ensures BurstBounds(s) <==> s.tokens <= s.burst
  {
    if s.tokens <= s.burst {
      forall states, ops | IsPath(states, ops) && states[0] == s
        ensures Grants(states, ops, 0, |ops|) <= s.burst + RatesRead(states, ops, 0, |ops|)
      {
        TokensConserved(states, ops, 0, |ops|);
      }
    } else {
      var states, ops := Drained(s, s.tokens);
      assert Grants(states, ops, 0, |ops|) > s.burst + RatesRead(states, ops, 0, |ops|);
    }
  }

  /** The first `n` requests, one after the other, with nothing in between. */
  lemma {:induction false} Drained(s: State, n: nat) returns (states: seq<State>, ops: seq<Op>)
    requires n <= s.tokens
    ensures IsPath(states, ops) && |ops| == n && states[0] == s && states[n].tokens == s.tokens - n
    ensures Grants(states, ops, 0, n) == n && RatesRead(states, ops, 0, n) == 0
  {
    if n == 0 {
      states, ops := [s], [];
    } else {
      var before, done := Drained(s, n - 1);
      states, ops := before + [Next(before[n - 1], Acquire)], done + [Acquire];
      SamePrefix(before, done, states, ops, n - 1);
    }
  }

  lemma {:induction false} SamePrefix(states: seq<State>, ops: seq<Op>, longer: seq<State>, more: seq<Op>, n: nat)
    requires n <= |ops| < |states| && ops <= more && states <= longer && |more| < |longer|
    ensures Grants(longer, more, 0, n) == Grants(states, ops, 0, n)
    ensures RatesRead(longer, more, 0, n) == RatesRead(states, ops, 0, n)
  {
    if n == 0 {
    } else {
      SamePrefix(states, ops, longer, more, n - 1);
    }
  }

  /** Neither the bucket nor a refill about to be committed exceeds the burst. */
  predicate Within(s: State) {
    s.tokens <= s.burst && (s.refill.HaveBoth? ==> s.refill.b <= s.burst)
  }

  /** Only storing a lower burst can end that. */
  lemma {:induction false} WithinUntilLowered(states: seq<State>, ops: seq<Op>, i: nat, j: nat)
    requires IsPath(states, ops) && i <= j <= |ops| && Within(states[i])
    requires forall k :: i <= k < j && ops[k].StoreBurst? ==> ops[k].b >= states[k].burst
    ensures Within(states[j])
  {
    if i == j {
    } else {
      WithinUntilLowered(states, ops, i, j - 1);
      assert Enabled(states[j - 1], ops[j - 1]) && states[j] == Next(states[j - 1], ops[j - 1]);
    }
  }

  /** A tick whose own burst load follows the last store brings it back. */
  lemma {:induction false} TickRestores(states: seq<State>, ops: seq<Op>, k: nat, j: nat)
    requires IsPath(states, ops) && k < j < |ops| && ops[k].LoadBurst? && ops[j].Commit?
    requires forall m :: k < m < j ==> !ops[m].Commit? && !ops[m].StoreBurst?
    ensures Within(states[j + 1])
  {
    LoadedIsHeld(states, ops, k, j);
    assert Enabled(states[j], ops[j]) && states[j + 1] == Next(states[j], ops[j]);
  }

  lemma {:induction false} LoadedIsHeld(states: seq<State>, ops: seq<Op>, k: nat, j: nat)
    requires IsPath(states, ops) && k < j < |states| && ops[k].LoadBurst?
    requires forall m :: k < m < j ==> !ops[m].Commit? && !ops[m].StoreBurst?
    ensures states[j].refill.HaveBoth? && states[j].refill.b == states[j].burst
  {
    assert Enabled(states[j - 1], ops[j - 1]) && states[j] == Next(states[j - 1], ops[j - 1]);
    if k == j - 1 {
    } else {
      LoadedIsHeld(states, ops, k, j - 1);
    }
  }

  /** A commit brings every bucket back under the burst exactly when the burst it had loaded is not above that. */
  lemma CommitRestoresIff(s: State)
    requires s.refill.HaveBoth?
    ensures (forall t: U32 :: BurstBounds(Next(s.(tokens := t), Commit))) <==> s.refill.b <= s.burst
  {
    forall t: U32 {
      BurstBoundsIff(Next(s.(tokens := t), Commit));
    }
    if s.refill.b > s.burst {
      assert !BurstBounds(Next(s.(tokens := MAX32), Commit));
    }
  }

  /** A lowered burst is exceeded at once, and even after a tick that had loaded the old one. */
  lemma LoweredBurstOutlived(high: U32, low: U32) returns (at: State, late: State)
    requires low < high
    ensures at == Next(New(high), StoreBurst(low)) && !BurstBounds(at)
    ensures late == Next(Next(Next(Next(New(high), LoadRps), LoadBurst), StoreBurst(low)), Commit) && !BurstBounds(late)
  {
    at := Next(New(high), StoreBurst(low));
    late := Next(Next(Next(Next(New(high), LoadRps), LoadBurst), StoreBurst(low)), Commit);
    BurstBoundsIff(at);
    BurstBoundsIff(late);
  }

  // ----- Optimality with fixed parameters -----

  datatype Moment = Tick | Arrival

  /** Tokens of the bucket after the first `n` moments. */
  function Tokens(rps: U32, burst: U32, ms: seq<Moment>, n: nat): nat
    requires n <= |ms|
  {
    if n == 0 then burst
    else
      var t := Tokens(rps, burst, ms, n - 1);
      if ms[n - 1].Tick? then Min(t + rps, burst) else if t > 0 then t - 1 else 0
  }

  /** Requests the bucket admits among the first `n` moments. */
  function Admits(rps: U32, burst: U32, ms: seq<Moment>, n: nat): nat
    requires n <= |ms|
  {
    if n == 0 then 0
    else Admits(rps, burst, ms, n - 1) + if ms[n - 1].Arrival? && Tokens(rps, burst, ms, n - 1) > 0 then 1 else 0
  }

  function Ticks(ms: seq<Moment>, n: nat): nat
    requires n <= |ms|
  {
    if n == 0 then 0 else Ticks(ms, n - 1) + if ms[n - 1].Tick? then 1 else 0
  }

  /** Any way of choosing which arrivals to admit. */
  predicate Schedule(ms: seq<Moment>, chosen: seq<bool>) {
    |chosen| == |ms| && forall i :: 0 <= i < |ms| && chosen[i] ==> ms[i].Arrival?
  }

  function Chosen(chosen: seq<bool>, n: nat): nat
    requires n <= |chosen|
  {
    if n == 0 then 0 else Chosen(chosen, n - 1) + if chosen[n - 1] then 1 else 0
  }

  /** In every window the schedule admits at most a burst plus the rate for each tick. */
  ghost predicate WithinLimits(rps: U32, burst: U32, ms: seq<Moment>, chosen: seq<bool>)
    requires |chosen| == |ms|
  {
    forall i, j :: 0 <= i <= j <= |ms| ==>
        Chosen(chosen, j) - Chosen(chosen, i) <= burst + rps * (Ticks(ms, j) - Ticks(ms, i))
  }

  lemma TickRate(rps: U32, ms: seq<Moment>, m: nat, n: nat)
    requires m <= n < |ms|
    ensures rps * (Ticks(ms, n + 1) - Ticks(ms, m))
        == rps * (Ticks(ms, n) - Ticks(ms, m)) + if ms[n].Tick? then rps else 0
  {
    var d, more := Ticks(ms, n) - Ticks(ms, m), if ms[n].Tick? then 1 else 0;
    assert Ticks(ms, n + 1) - Ticks(ms, m) == d + more;
    hide Ticks;
    assert rps * (d + more) == rps * d + rps * more;
  }

  /** Since the last time the bucket was full, nothing has been lost to the cap. */
  lemma {:induction false} SinceFull(rps: U32, burst: U32, ms: seq<Moment>, n: nat) returns (m: nat)
    requires n <= |ms|
    ensures m <= n && Tokens(rps, burst, ms, n) <= burst
    ensures Admits(rps, burst, ms, n) - Admits(rps, burst, ms, m) + Tokens(rps, burst, ms, n)
            == burst + rps * (Ticks(ms, n) - Ticks(ms, m))
  {
    if n == 0 {
      m := 0;
    } else {
      m := SinceFull(rps, burst, ms, n - 1);
      if ms[n - 1].Tick? && Tokens(rps, burst, ms, n - 1) + rps > burst {
        m := n;
      } else {
        TickRate(rps, ms, m, n - 1);
      }
    }
  }

  /** What the limits say of the window from `m` up to an admitted arrival. */
  lemma LimitAt(rps: U32, burst: U32, ms: seq<Moment>, chosen: seq<bool>, m: nat, n: nat)
    requires Schedule(ms, chosen) && WithinLimits(rps, burst, ms, chosen) && m <= n < |ms| && chosen[n]
    ensures ms[n].Arrival?
    ensures Chosen(chosen, n + 1) - Chosen(chosen, m) <= burst + rps * (Ticks(ms, n) - Ticks(ms, m))
  {
    TickRate(rps, ms, m, n);
  }

  lemma ChosenStep(chosen: seq<bool>, n: nat)
    requires n < |chosen|
    ensures Chosen(chosen, n + 1) == Chosen(chosen, n) + if chosen[n] then 1 else 0
  {
  }

  lemma AdmitsStep(rps: U32, burst: U32, ms: seq<Moment>, n: nat)
    requires n < |ms|
    ensures Admits(rps, burst, ms, n + 1) ==
            Admits(rps, burst, ms, n) + if ms[n].Arrival? && Tokens(rps, burst, ms, n) > 0 then 1 else 0
  {
  }

  /** Greedy is optimal: by any prefix, no schedule within the limits has admitted more than the bucket. */
  lemma {:induction false} GreedyIsOptimal(rps: U32, burst: U32, ms: seq<Moment>, chosen: seq<bool>, n: nat)
    requires Schedule(ms, chosen) && WithinLimits(rps, burst, ms, chosen) && n <= |ms|
    ensures Chosen(chosen, n) <= Admits(rps, burst, ms, n)
  {
    hide WithinLimits, Tokens, Ticks;
    if n == 0 {
    } else {
      hide Chosen, Admits;
      GreedyIsOptimal(rps, burst, ms, chosen, n - 1);
      ChosenStep(chosen, n - 1);
      AdmitsStep(rps, burst, ms, n - 1);
      if chosen[n - 1] && Tokens(rps, burst, ms, n - 1) == 0 {
        var m := SinceFull(rps, burst, ms, n - 1);
        GreedyIsOptimal(rps, burst, ms, chosen, m);
        LimitAt(rps, burst, ms, chosen, m, n - 1);
      }
    }
  }

  /** What the bucket itself chooses. */
  function Greedy(rps: U32, burst: U32, ms: seq<Moment>): (chosen: seq<bool>)
    ensures |chosen| == |ms|
  {
    seq(|ms|, i requires 0 <= i < |ms| => ms[i].Arrival? && Tokens(rps, burst, ms, i) > 0)
  }

  lemma {:induction false} GreedyChooses(rps: U32, burst: U32, ms: seq<Moment>, n: nat)
    requires n <= |ms|
    ensures Chosen(Greedy(rps, burst, ms), n) == Admits(rps, burst, ms, n)
  {
    if n == 0 {
    } else {
      GreedyChooses(rps, burst, ms, n - 1);
    }
  }

  /** Only a tick adds tokens. */
  lemma BucketStep(rps: U32, burst: U32, ms: seq<Moment>, n: nat)
    requires n < |ms|
    ensures Admits(rps, burst, ms, n + 1) + Tokens(rps, burst, ms, n + 1)
         <= Admits(rps, burst, ms, n) + Tokens(rps, burst, ms, n) + if ms[n].Tick? then rps else 0
  {
  }

  lemma {:induction false} AdmitsBounded(rps: U32, burst: U32, ms: seq<Moment>, i: nat, j: nat)
    requires i <= j <= |ms|
    ensures Admits(rps, burst, ms, j) - Admits(rps, burst, ms, i) + Tokens(rps, burst, ms, j)
            <= Tokens(rps, burst, ms, i) + rps * (Ticks(ms, j) - Ticks(ms, i))
  {
    hide Admits, Tokens;
    if i == j {
    } else {
      AdmitsBounded(rps, burst, ms, i, j - 1);
      BucketStep(rps, burst, ms, j - 1);
      TickRate(rps, ms, i, j - 1);
      hide Ticks;
    }
  }

  /** The bucket's own choice is one of the schedules it is compared with. */
  lemma GreedyIsWithinLimits(rps: U32, burst: U32, ms: seq<Moment>)
    ensures Schedule(ms, Greedy(rps, burst, ms)) && WithinLimits(rps, burst, ms, Greedy(rps, burst, ms))
  {
    var chosen := Greedy(rps, burst, ms);
    forall i, j | 0 <= i <= j <= |ms|
      ensures Chosen(chosen, j) - Chosen(chosen, i) <= burst + rps * (Ticks(ms, j) - Ticks(ms, i))
    {
      GreedyChooses(rps, burst, ms, i);
      GreedyChooses(rps, burst, ms, j);
      AdmitsBounded(rps, burst, ms, i, j);
      var _ := SinceFull(rps, burst, ms, i);
    }
  }

  // ----- The machine with fixed parameters is that bucket -----

  /** A commit is a tick, an acquire an arrival; loads leave no trace. */
  function MomentOf(op: Op): seq<Moment> {
    if op.Commit? then [Tick] else if op.Acquire? then [Arrival] else []
  }

  function Moments(ops: seq<Op>, n: nat): seq<Moment>
    requires n <= |ops|
  {
    if n == 0 then [] else Moments(ops, n - 1) + MomentOf(ops[n - 1])
  }

  lemma {:induction false} TokensPrefix(rps: U32, burst: U32, ms: seq<Moment>, more: seq<Moment>, n: nat)
    requires n <= |ms|
    ensures Tokens(rps, burst, ms + more, n) == Tokens(rps, burst, ms, n)
    ensures Admits(rps, burst, ms + more, n) == Admits(rps, burst, ms, n)
  {
    if n == 0 {
    } else {
      TokensPrefix(rps, burst, ms, more, n - 1);
    }
  }

  /** What one more moment does to the bucket. */
  lemma OneMoment(rps: U32, burst: U32, ms: seq<Moment>, m: Moment)
    ensures var (t, all) := (Tokens(rps, burst, ms, |ms|), ms + [m]);
            Tokens(rps, burst, all, |all|) == (if m.Tick? then Min(t + rps, burst) else if t > 0 then t - 1 else 0)
            && Admits(rps, burst, all, |all|)
               == Admits(rps, burst, ms, |ms|) + if m.Arrival? && t > 0 then 1 else 0
  {
    TokensPrefix(rps, burst, ms, [m], |ms|);
  }

  predicate Fixed(op: Op) {
    !op.StoreRps? && !op.StoreBurst?
  }

  /** The machine is where the bucket is after the moments `ms`, and holds no other parameters. */
  ghost predicate Matches(s: State, rps: U32, burst: U32, ms: seq<Moment>) {
    s.tokens == Tokens(rps, burst, ms, |ms|) && s.rps == rps && s.burst == burst
    && (!s.refill.Waiting? ==> s.refill.r == rps) && (s.refill.HaveBoth? ==> s.refill.b == burst)
  }

  lemma MatchesStep(s: State, op: Op, rps: U32, burst: U32, ms: seq<Moment>)
    requires Matches(s, rps, burst, ms) && Enabled(s, op) && Fixed(op)
    ensures var all := ms + MomentOf(op);
            Matches(Next(s, op), rps, burst, all)
            && Admits(rps, burst, all, |all|) == Admits(rps, burst, ms, |ms|) + if Granted(s, op) then 1 else 0
  {
    hide Tokens, Admits;
    if op.Commit? || op.Acquire? {
      OneMoment(rps, burst, ms, if op.Commit? then Tick else Arrival);
    } else {
      assert ms + [] == ms;
    }
  }

  /** Without reloads, the interleaved loads and commits hold the bucket's tokens and grant what the bucket admits. */
  lemma {:induction false} FixedRunIsBucket(states: seq<State>, ops: seq<Op>, n: nat)
    requires IsRun(states, ops) && n <= |ops| && forall i :: 0 <= i < |ops| ==> Fixed(ops[i])
    ensures Matches(states[n], states[0].rps, states[0].burst, Moments(ops, n))
    ensures var ms := Moments(ops, n);
            Grants(states, ops, 0, n) == Admits(states[0].rps, states[0].burst, ms, |ms|)
  {
    hide Matches, Fixed, MomentOf, Granted;
    if n == 0 {
      FirstMatches(states[0]);
    } else {
      FixedRunIsBucket(states, ops, n - 1);
      assert Enabled(states[n - 1], ops[n - 1]) && states[n] == Next(states[n - 1], ops[n - 1]);
      hide Next, Enabled, Admits;
      MatchesStep(states[n - 1], ops[n - 1], states[0].rps, states[0].burst, Moments(ops, n - 1));
    }
  }

  lemma FirstMatches(s: State)
    requires s.tokens == s.burst && s.refill.Waiting?
    ensures Matches(s, s.rps, s.burst, [])
  {
  }

  // ----- The limiter object -----

  class RateLimiter {
    var tokens: U32
    var burst: U32
    var rps: U32
    ghost var refill: Refill

    ghost function Abs(): State
      reads this
    {
      State(tokens, burst, rps, refill)
    }

    constructor (burst: U32)
      ensures Abs() == New(burst)
    {
      tokens, this.burst, rps, refill := burst, burst, 0, Waiting;
    }

    /** One tick of the refill task, with nothing in between. */
    method RefillTick()
      requires refill.Waiting?
      modifies this
      ensures Abs() == Next(Next(Next(old(Abs()), LoadRps), LoadBurst), Commit)
      ensures tokens == Min(old(tokens) + rps, burst)
    {
      var r := rps;
      var b := burst;
      tokens := Min(SaturatingAdd(tokens, r), b);
    }

    method TryAcquire() returns (allowed: bool)
      modifies this
      ensures Abs() == Next(old(Abs()), Acquire) && allowed == Granted(old(Abs()), Acquire)
      ensures allowed <==> old(tokens) > 0
      ensures tokens == old(tokens) - if allowed then 1 else 0
    {
      if tokens > 0 {
        tokens := tokens - 1;
        allowed := true;
      } else {
        allowed := false;
      }
    }

    method UpdateConfig(newRps: U32, newBurst: U32)
      modifies this
      ensures Abs() == Next(Next(old(Abs()), StoreRps(newRps)), StoreBurst(newBurst))
      ensures rps == newRps && burst == newBurst && tokens == old(tokens)
    {
      rps := newRps;
      burst := newBurst;
    }
  }
}
