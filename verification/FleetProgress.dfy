/**
 Progress of a fleet: as long as no inner future pends for ever, every reachable fleet can be
 brought to its end by an executor that polls only what was woken, with timers that fire, inner
 futures that wake, and limiters that grant what their bucket allows.
 */
module FleetProgress {
  import opened Polling
  import opened Priorities
  import opened RuntimeHandle
  import opened Wrapper
  import opened Fleet
  import ModeCount
  import ModeTime
  import ModeRateLimiter

  /** Nothing is spawned, every step is enabled, only queued tasks are polled, and no sleep is ready
      before its deadline. */
  ghost predicate OnlyWoken<S, A, R>(f: (S, A) -> (S, Poll<R>), fl: Fleet<S, A, R>, steps: seq<Step<S, A>>) {
    steps == [] ||
    var before, step := Exec(f, fl, steps[..|steps| - 1]), steps[|steps| - 1];
    OnlyWoken(f, fl, steps[..|steps| - 1]) && Prompt(before, step)
  }

  predicate Prompt<S, A, R>(fl: Fleet<S, A, R>, step: Step<S, A>) {
    && Enabled(fl, step)
    && match step
       case Spawn(_, _, _) => false
       case PollTask(i, t, _, _) =>
         && fl.tasks[i].queued
         && t.clock.Monotone()
         && TimerContract(Decide(fl.tasks[i].w.th, t), PhaseOf(fl.tasks[i].w.th), t)
       case _ => true
  }

  lemma {:induction false} OnlyWokenConcat<S, A, R>(f: (S, A) -> (S, Poll<R>), fl: Fleet<S, A, R>, steps: seq<Step<S, A>>, more: seq<Step<S, A>>)
    requires OnlyWoken(f, fl, steps) && OnlyWoken(f, Exec(f, fl, steps), more)
    ensures OnlyWoken(f, fl, steps + more)
    ensures Exec(f, fl, steps + more) == Exec(f, Exec(f, fl, steps), more)
  {
    ExecConcat(f, fl, steps, more);
    if more == [] {
      assert steps + more == steps;
    } else {
      hide Apply, Prompt;
      OnlyWokenConcat(f, fl, steps, more[..|more| - 1]);
      assert (steps + more)[..|steps + more| - 1] == steps + more[..|more| - 1];
    }
  }

  /** What every reachable fleet has. */
  ghost predicate Sound<S, A, R>(fl: Fleet<S, A, R>) {
    && Attached(fl)
    && (forall h :: 0 <= h < |fl.handles| ==> fl.handles[h].tokens <= 2_000)
    && (forall i :: 0 <= i < |fl.tasks| ==> Awake(fl.tasks[i]))
  }

  lemma {:induction false} ReachedSound<S, A, R>(f: (S, A) -> (S, Poll<R>), fl: Fleet<S, A, R>, steps: seq<Step<S, A>>)
    requires Initial(fl)
    ensures Sound(Exec(f, fl, steps))
  {
    hide Exec, Awake, Attached, Balanced;
    NoLostWakeup(f, fl, steps);
    Conservation(f, fl, steps);
    TokensBounded(Exec(f, fl, steps));
  }

  /** The effect of a step on task `i` alone. */
  ghost predicate Concerns<S, A, R>(fl: Fleet<S, A, R>, i: nat, fl': Fleet<S, A, R>) {
    && |fl'.tasks| == |fl.tasks|
    && forall j :: 0 <= j < |fl.tasks| && j != i ==> fl'.tasks[j] == fl.tasks[j]
  }

  // ---------- what a poll brings nearer ----------

  /** Delays a mode can still insert in a row, with nothing measured and every admission granted. */
  function Due(th: Throttle): nat {
    match th
    case Count(c) => ModeCount.Dues(c.priority, c.pendCnt)
    case Time(c) => if !c.priority.VeryHigh? && c.addingUp > 10 then 1 else 0
    case Limit(_) => 0
  }

  /** A poll of a task that was woken, when an old sleep is over, no time passes and the limiter
      grants. */
  function WokenTurn<A>(phase: Phase, ambient: A): Turn<A> {
    var at := match phase case Common => 0 case Backoff(deadline) => deadline;
    Turn(Clock(at, at, at, at, at, at, at), true, false, 0, Granted, ambient)
  }

  lemma {:induction false} TurnInTime<A>(th: Throttle, ambient: A)
    ensures var t := WokenTurn(PhaseOf(th), ambient);
            t.clock.Monotone() && TimerContract(Decide(th, t), PhaseOf(th), t)
  {
    hide Decide;
  }

  lemma {:induction false} PollsOrFewerDue<A, R>(th: Throttle, ambient: A, outcome: Poll<R>)
    ensures var (th', o) := Next(th, WokenTurn(PhaseOf(th), ambient), outcome);
            o.act.Polled? || Due(th') < Due(th)
  {
    match th {
      case Count(c) =>
        if ModeCount.BackoffDue(c.priority, c.pendCnt) {
          ModeCount.DuesDrop(c.priority, c.pendCnt);
        }
      case Time(c) =>
        ModeTime.TensTaken(c.addingUp);
      case Limit(c) =>
    }
  }

  /** The inner future pends at most so often from each of its states on, under this ambient. */
  ghost predicate Pends<S(!new), A, R>(f: (S, A) -> (S, Poll<R>), left: S -> nat, ambient: A) {
    forall s :: f(s, ambient).1.Pending? ==> left(f(s, ambient).0) < left(s)
  }

  ghost predicate Nearer<S, A, R>(left: S -> nat, k: Task<S, A, R>, k': Task<S, A, R>) {
    || Finished(k'.w.tr)
    || left(k'.w.inner) < left(k.w.inner)
    || (left(k'.w.inner) == left(k.w.inner) && Due(k'.w.th) < Due(k.w.th))
  }

  lemma {:induction false} PollNearer<S(!new), A, R>(f: (S, A) -> (S, Poll<R>), left: S -> nat, k: Task<S, A, R>, ambient: A, waker: nat)
    requires Pends(f, left, ambient) && !Finished(k.w.tr)
    ensures Nearer(left, k, PollOf(f, k, WokenTurn(PhaseOf(k.w.th), ambient), waker))
  {
    var t := WokenTurn(PhaseOf(k.w.th), ambient);
    var r := f(k.w.inner, ambient).1;
    var o := Next(k.w.th, t, r).1;
    NextShape(k.w.th, t, r);
    PollsOrFewerDue(k.w.th, ambient, r);
    LastSnoc(k.w.tr, o);
    hide Next, Decide, Due, PhaseOf;
  }

  // ---------- one round of one task ----------

  lemma {:induction false} OneMoreInterval(x: nat, d: nat)
    requires d > 0
    ensures (x + d) / d >= x / d + 1
  {
    assert d * (x / d + 1) == d * (x / d) + d;
    NoMoreThanQuotient(x / d + 1, x + d, d);
  }

  /** Some moment later on, the limiter has a token. */
  lemma {:induction false} TokenLater(h: Handle) returns (at: nat)
    ensures LimiterContract(h, at, Granted)
  {
    match BucketFor(h.priority) {
      case None => at := 0;
      case Some(b) =>
        at := h.asked + b.interval;
        OneMoreInterval(h.asked, b.interval);
        ProductGrows(b.amount, h.asked / b.interval + 1, at / b.interval);
        assert b.amount * (h.asked / b.interval + 1) == b.amount * (h.asked / b.interval) + b.amount;
    }
  }

  /** What has to happen before the executor polls the task. */
  function Wake<S, A, R>(k: Task<S, A, R>, i: nat): seq<Step<S, A>> {
    if k.queued then [] else if PhaseOf(k.w.th).Backoff? then [TimerFires(i)] else [InnerWakes(i)]
  }

  lemma {:induction false} Woken<S, A, R>(f: (S, A) -> (S, Poll<R>), fl: Fleet<S, A, R>, i: nat)
    requires Sound(fl) && i < |fl.tasks| && !Finished(fl.tasks[i].w.tr)
    ensures var wake := Wake(fl.tasks[i], i);
            var fl' := Exec(f, fl, wake);
            && OnlyWoken(f, fl, wake) && Sound(fl') && Concerns(fl, i, fl')
            && fl'.tasks[i].queued && fl'.tasks[i].w == fl.tasks[i].w && fl'.tasks[i].handle == fl.tasks[i].handle
  {
    hide PhaseOf;
    assert Awake(fl.tasks[i]);
    var wake := Wake(fl.tasks[i], i);
    if wake != [] {
      assert wake[..0] == [];
      assert Exec(f, fl, []) == fl;
    }
  }

  lemma {:induction false} PolledSound<S, A, R>(f: (S, A) -> (S, Poll<R>), fl: Fleet<S, A, R>, poll: Step<S, A>)
    requires Sound(fl) && poll.PollTask? && Enabled(fl, poll)
    ensures var fl' := Apply(f, fl, poll);
            && Sound(fl') && Concerns(fl, poll.i, fl')
            && fl'.tasks[poll.i] == PollOf(f, fl.tasks[poll.i], poll.t, poll.waker)
  {
    StepAttached(f, fl, poll);
    PollKeepsAwake(f, fl.tasks[poll.i], poll.t, poll.waker);
    hide PollOf, HandleAfter, LimiterContract, Asking, Attached, Awake;
    var fl' := Apply(f, fl, poll);
    forall h | 0 <= h < |fl'.handles| ensures fl'.handles[h].tokens <= 2_000 {
      assert |fl'.handles| == |fl.handles|;
    }
  }

  /** One round: the task is woken if it has to be, and polled. */
  lemma {:induction false} Round<S(!new), A, R>(f: (S, A) -> (S, Poll<R>), left: S -> nat, fl: Fleet<S, A, R>, i: nat, ambient: A, waker: nat)
    returns (steps: seq<Step<S, A>>)
    requires Pends(f, left, ambient)
    requires Sound(fl) && i < |fl.tasks| && !Finished(fl.tasks[i].w.tr)
    ensures OnlyWoken(f, fl, steps)
    ensures var fl' := Exec(f, fl, steps);
            Sound(fl') && Concerns(fl, i, fl') && Nearer(left, fl.tasks[i], fl'.tasks[i])
  {
    var k := fl.tasks[i];
    Woken(f, fl, i);
    var wake := Wake(k, i);
    var woken := Exec(f, fl, wake);
    var at := 0;
    if k.w.th.Limit? {
      assert Attached(woken);
      at := TokenLater(woken.handles[k.handle]);
    }
    var poll := PollTask(i, WokenTurn(PhaseOf(k.w.th), ambient), waker, at);
    TurnInTime(k.w.th, ambient);
    hide Sound, Wake, Pends, Nearer, LimiterContract, Exec, PollOf, PhaseOf, Apply, WokenTurn, TimerContract, Decide, Asking;
    assert Prompt(woken, poll);
    PolledSound(f, woken, poll);
    PollNearer(f, left, woken.tasks[i], ambient, waker);
    steps := wake + [poll];
    ExecSnoc(f, fl, wake, poll);
    assert steps[..|steps| - 1] == wake;
    SameNearer(left, k, woken.tasks[i], Exec(f, fl, steps).tasks[i]);
  }

  lemma {:induction false} SameNearer<S, A, R>(left: S -> nat, k: Task<S, A, R>, k1: Task<S, A, R>, k2: Task<S, A, R>)
    requires k1.w == k.w && Nearer(left, k1, k2)
    ensures Nearer(left, k, k2)
  {
  }

  // ---------- to the end ----------

  lemma {:induction false} FinishTask<S(!new), A, R>(f: (S, A) -> (S, Poll<R>), left: S -> nat, fl: Fleet<S, A, R>, i: nat, ambient: A, waker: nat)
    returns (steps: seq<Step<S, A>>)
    requires Pends(f, left, ambient)
    requires Sound(fl) && i < |fl.tasks|
    ensures OnlyWoken(f, fl, steps)
    ensures var fl' := Exec(f, fl, steps);
            Sound(fl') && Concerns(fl, i, fl') && Finished(fl'.tasks[i].w.tr)
    decreases left(fl.tasks[i].w.inner), Due(fl.tasks[i].w.th), Finished(fl.tasks[i].w.tr)
  {
    if Finished(fl.tasks[i].w.tr) {
      steps := [];
    } else {
      hide Pends, Sound, OnlyWoken, Exec, Due;
      steps := Round(f, left, fl, i, ambient, waker);
      if !Finished(Exec(f, fl, steps).tasks[i].w.tr) {
        var rest := FinishTask(f, left, Exec(f, fl, steps), i, ambient, waker);
        OnlyWokenConcat(f, fl, steps, rest);
        steps := steps + rest;
      }
    }
  }

  lemma {:induction false} FinishFirst<S(!new), A, R>(f: (S, A) -> (S, Poll<R>), left: S -> nat, fl: Fleet<S, A, R>, n: nat, ambient: A, waker: nat)
    returns (steps: seq<Step<S, A>>)
    requires Pends(f, left, ambient)
    requires Sound(fl) && n <= |fl.tasks|
    ensures OnlyWoken(f, fl, steps)
    ensures var fl' := Exec(f, fl, steps);
            && Sound(fl') && |fl'.tasks| == |fl.tasks|
            && forall i :: 0 <= i < n ==> Finished(fl'.tasks[i].w.tr)
  {
    if n == 0 {
      steps := [];
    } else {
      hide Pends, Sound, OnlyWoken, Exec, Finished;
      steps := FinishFirst(f, left, fl, n - 1, ambient, waker);
      var rest := FinishTask(f, left, Exec(f, fl, steps), n - 1, ambient, waker);
      OnlyWokenConcat(f, fl, steps, rest);
      steps := steps + rest;
    }
  }

  /** Progress: for inner futures that pend only finitely often, every reachable fleet, whatever
      happened before, has a continuation that finishes all its tasks and polls only queued ones. */
  lemma {:induction false} AllFinish<S(!new), A, R>(f: (S, A) -> (S, Poll<R>), left: S -> nat, fl: Fleet<S, A, R>, steps: seq<Step<S, A>>, ambient: A, waker: nat)
    returns (more: seq<Step<S, A>>)
    requires Pends(f, left, ambient) && Initial(fl)
    ensures OnlyWoken(f, Exec(f, fl, steps), more)
    ensures var now := Exec(f, fl, steps);
            var end := Exec(f, now, more);
            |end.tasks| == |now.tasks| && forall i :: 0 <= i < |end.tasks| ==> Finished(end.tasks[i].w.tr)
  {
    ReachedSound(f, fl, steps);
    more := FinishFirst(f, left, Exec(f, fl, steps), |Exec(f, fl, steps).tasks|, ambient, waker);
  }
}
