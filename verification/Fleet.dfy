/**
 A fleet of wrapped futures on an executor: any number of tasks, in any of the three modes,
 polled in any order, also when nothing woke them, while timers fire and inner futures wake
 the wakers they were given. Rate-limited tasks share limiters through handles.
 */
module Fleet {
  import opened Polling
  import opened Priorities
  import opened RuntimeHandle
  import opened Wrapper
  import ModeCount
  import ModeTime
  import ModeRateLimiter

  /** `queued`: the waker of the latest poll was woken since, so the executor will poll again.
      Timer and inner future hold the waker they were last polled with, until they wake it. */
  datatype Task<S, A, R> = Task(
    w: Wrapped<S, A, R>,
    handle: nat,
    queued: bool,
    lastWaker: nat,
    timerWaker: Option<nat>,
    innerWaker: Option<nat>,
    initial: S)  // the inner future as it was spawned

  /** What the clones of one handle share, with the limiter's accounts: the tokens it holds, when
      it was last asked (since its creation), and how often it granted admission. */
  datatype Handle = Handle(priority: Priority, tokens: nat, asked: nat, granted: nat, counter: u64)

  datatype Fleet<S, A, R> = Fleet(tasks: seq<Task<S, A, R>>, handles: seq<Handle>)

  datatype Step<S, A> =
    | Spawn(th: Throttle, inner: S, handle: nat)
    | PollTask(i: nat, t: Turn<A>, waker: nat, at: nat)
    | TimerFires(i: nat)
    | InnerWakes(i: nat)

  // ---------- the limiter: an assumed token bucket ----------

  /** All tokens a limiter with these parameters has been given by a moment. */
  function Refilled(b: Bucket, at: nat): nat {
    if b.interval == 0 then 0 else b.amount * (at / b.interval)
  }

  function Available(b: Bucket, h: Handle, at: nat): nat {
    var tokens := h.tokens + Since(Refilled(b, h.asked), Refilled(b, at));
    if tokens <= b.maxTokens then tokens else b.maxTokens
  }

  /** The promise assumed of the limiter: it is asked in the order of its own clock, and it grants
      admission only against a token. It may refuse whenever it likes. */
  predicate LimiterContract(h: Handle, at: nat, a: Admission) {
    match BucketFor(h.priority)
    case None => true
    case Some(b) => h.asked <= at && (a.Granted? ==> Available(b, h, at) > 0)
  }

  function Ask(h: Handle, at: nat, a: Admission): Handle {
    match BucketFor(h.priority)
    case None => h
    case Some(b) =>
      var tokens := Available(b, h, at);
      h.(tokens := if a.Granted? && tokens > 0 then tokens - 1 else tokens,
         asked := at,
         granted := h.granted + if a.Granted? then 1 else 0)
  }

  // ---------- steps ----------

  predicate Asking<A>(th: Throttle, t: Turn<A>) {
    th.Limit? && ModeRateLimiter.Asks(th.limit, t)
  }

  predicate FreshThrottle(th: Throttle, handles: seq<Handle>, handle: nat) {
    match th
    case Count(c) => c == ModeCount.New(c.priority)
    case Time(c) => c == ModeTime.New(c.priority)
    case Limit(c) => handle < |handles| && c == ModeRateLimiter.New(BucketFor(handles[handle].priority).Some?)
  }

  predicate Enabled<S, A, R>(fl: Fleet<S, A, R>, step: Step<S, A>) {
    match step
    case Spawn(th, _, handle) => FreshThrottle(th, fl.handles, handle)
    case PollTask(i, t, _, at) =>
      && i < |fl.tasks| && !Finished(fl.tasks[i].w.tr)
      && (fl.tasks[i].w.th.Limit? ==> fl.tasks[i].handle < |fl.handles|)
      && (Asking(fl.tasks[i].w.th, t) ==> LimiterContract(fl.handles[fl.tasks[i].handle], at, t.admission))
    case TimerFires(i) => i < |fl.tasks| && fl.tasks[i].timerWaker.Some?
    case InnerWakes(i) => i < |fl.tasks| && fl.tasks[i].innerWaker.Some?
  }

  /** A task after one poll with this waker. */
  function PollOf<S, A, R>(f: (S, A) -> (S, Poll<R>), k: Task<S, A, R>, t: Turn<A>, waker: nat): Task<S, A, R> {
    var o := Next(k.w.th, t, f(k.w.inner, t.ambient).1).1;
    var sleeping := o.act.Waited? || (o.act.Inserted? && !o.act.fired);
    Task(PollOnce(f, k.w, t), k.handle,
         o.act.Inserted? && o.act.fired,
         waker,
         if sleeping then Some(waker) else None,
         if !o.act.Polled? then k.innerWaker else if o.act.outcome.Pending? then Some(waker) else None,
         k.initial)
  }

  function HandleAfter<S, A, R>(f: (S, A) -> (S, Poll<R>), k: Task<S, A, R>, h: Handle, t: Turn<A>, at: nat): Handle {
    var asked := if Asking(k.w.th, t) then Ask(h, at, t.admission) else h;
    if Next(k.w.th, t, f(k.w.inner, t.ambient).1).1.expired.Some? then asked.(counter := Dec64(h.counter)) else asked
  }

  function Apply<S, A, R>(f: (S, A) -> (S, Poll<R>), fl: Fleet<S, A, R>, step: Step<S, A>): Fleet<S, A, R> {
    if !Enabled(fl, step) then fl
    else
      match step
      case Spawn(th, inner, handle) =>
        fl.(tasks := fl.tasks + [Task(Wrapped(th, inner, []), handle, true, 0, None, None, inner)])
      case PollTask(i, t, waker, at) =>
        var k := fl.tasks[i];
        Fleet(fl.tasks[i := PollOf(f, k, t, waker)],
              if k.w.th.Limit? then fl.handles[k.handle := HandleAfter(f, k, fl.handles[k.handle], t, at)] else fl.handles)
      case TimerFires(i) =>
        var k := fl.tasks[i];
        fl.(tasks := fl.tasks[i := k.(timerWaker := None, queued := k.queued || k.timerWaker.value == k.lastWaker)])
      case InnerWakes(i) =>
        var k := fl.tasks[i];
        fl.(tasks := fl.tasks[i := k.(innerWaker := None, queued := k.queued || k.innerWaker.value == k.lastWaker)])
  }

  function Exec<S, A, R>(f: (S, A) -> (S, Poll<R>), fl: Fleet<S, A, R>, steps: seq<Step<S, A>>): Fleet<S, A, R> {
    if steps == [] then fl else Apply(f, Exec(f, fl, steps[..|steps| - 1]), steps[|steps| - 1])
  }

  /** Nothing spawned yet, and handles as they are created. */
  ghost predicate Initial<S, A, R>(fl: Fleet<S, A, R>) {
    && fl.tasks == []
    && forall h :: 0 <= h < |fl.handles| ==> FreshHandle(fl.handles[h])
  }

  predicate FreshHandle(h: Handle) {
    h.granted == 0 && h.counter == 0 && h.tokens <= 2_000
  }

  // ---------- no lost wake-up ----------

  /** An unfinished task is about to be polled, or sleeps on a timer that holds its latest waker, or
      is not backing off and its inner future holds its latest waker. */
  predicate Awake<S, A, R>(k: Task<S, A, R>) {
    || Finished(k.w.tr)
    || k.queued
    || (PhaseOf(k.w.th).Backoff? && k.timerWaker == Some(k.lastWaker))
    || (PhaseOf(k.w.th).Common? && k.innerWaker == Some(k.lastWaker))
  }

  lemma {:induction false} PollKeepsAwake<S, A, R>(f: (S, A) -> (S, Poll<R>), k: Task<S, A, R>, t: Turn<A>, waker: nat)
    requires !Finished(k.w.tr)
    ensures Awake(PollOf(f, k, t, waker))
  {
    hide Next, Decide;
    NextShape(k.w.th, t, f(k.w.inner, t.ambient).1);
  }

  /** For any fleet, in any modes, and any interleaving of polls, spurious polls, timers and inner
      wakes: no unfinished task is stranded. */
  lemma {:induction false} NoLostWakeup<S, A, R>(f: (S, A) -> (S, Poll<R>), fl: Fleet<S, A, R>, steps: seq<Step<S, A>>)
    requires Initial(fl)
    ensures forall i :: 0 <= i < |Exec(f, fl, steps).tasks| ==> Awake(Exec(f, fl, steps).tasks[i])
  {
    if steps != [] {
      hide PollOf, HandleAfter, FreshThrottle, LimiterContract, Asking;
      NoLostWakeup(f, fl, steps[..|steps| - 1]);
      var before := Exec(f, fl, steps[..|steps| - 1]);
      var step := steps[|steps| - 1];
      if step.PollTask? && Enabled(before, step) {
        PollKeepsAwake(f, before.tasks[step.i], step.t, step.waker);
      }
    }
  }

  // ---------- what becomes of a backoff, and of a wake that arrives in it ----------

  lemma {:induction false} ExecConcat<S, A, R>(f: (S, A) -> (S, Poll<R>), fl: Fleet<S, A, R>, steps: seq<Step<S, A>>, more: seq<Step<S, A>>)
    ensures Exec(f, fl, steps + more) == Exec(f, Exec(f, fl, steps), more)
  {
    hide Apply;
    if more == [] {
      assert steps + more == steps;
    } else {
      ExecConcat(f, fl, steps, more[..|more| - 1]);
      assert (steps + more)[..|steps + more| - 1] == steps + more[..|more| - 1];
    }
  }

  /** Some poll of task `i` in these steps found its sleep over. */
  ghost predicate FoundOver<S, A, R>(f: (S, A) -> (S, Poll<R>), fl: Fleet<S, A, R>, steps: seq<Step<S, A>>, i: nat) {
    steps != [] &&
    var before, step := steps[..|steps| - 1], steps[|steps| - 1];
    || FoundOver(f, fl, before, i)
    || (step.PollTask? && step.i == i && step.t.sleepReady && Enabled(Exec(f, fl, before), step))
  }

  /** The inner future was polled, or a backoff inserted, after the first `n` observations. */
  predicate ActedSince<A, R>(tr: seq<Obs<A, R>>, n: nat) {
    exists j :: n <= j < |tr| && !tr[j].act.Waited?
  }

  /** A task against what it was when it was backing off: the old transcript is kept, and as long
      as nothing but waiting was added, it is in the same backoff. */
  ghost predicate GoneOn<S, A, R>(k0: Task<S, A, R>, k: Task<S, A, R>) {
    && k0.w.tr <= k.w.tr
    && (ActedSince(k.w.tr, |k0.w.tr|) || (PhaseOf(k.w.th) == PhaseOf(k0.w.th) && !Finished(k.w.tr)))
  }

  lemma {:induction false} WaitingTail<A, R>(tr: seq<Obs<A, R>>, n: nat, o: Obs<A, R>)
    requires n <= |tr|
    ensures ActedSince(tr + [o], n) <==> ActedSince(tr, n) || !o.act.Waited?
  {
    var all := tr + [o];
    if ActedSince(tr, n) {
      var j :| n <= j < |tr| && !tr[j].act.Waited?;
      assert !all[j].act.Waited?;
    }
    if !o.act.Waited? {
      assert !all[|tr|].act.Waited?;
    }
  }

  lemma {:induction false} PollSince<S, A, R>(f: (S, A) -> (S, Poll<R>), k0: Task<S, A, R>, k: Task<S, A, R>, t: Turn<A>, waker: nat)
    requires PhaseOf(k0.w.th).Backoff? && GoneOn(k0, k) && !Finished(k.w.tr)
    ensures var k' := PollOf(f, k, t, waker);
            && GoneOn(k0, k')
            && (ActedSince(k'.w.tr, |k0.w.tr|) <==> ActedSince(k.w.tr, |k0.w.tr|) || t.sleepReady)
  {
    var o := Next(k.w.th, t, f(k.w.inner, t.ambient).1).1;
    NextShape(k.w.th, t, f(k.w.inner, t.ambient).1);
    if PhaseOf(k.w.th).Backoff? && t.sleepReady {
      ExpiryResolves(k.w.th, t, f(k.w.inner, t.ambient).1);
    }
    WaitingTail(k.w.tr, |k0.w.tr|, o);
    hide Next, Decide, ActedSince, PhaseOf;
    assert PollOf(f, k, t, waker).w.tr == k.w.tr + [o];
  }

  lemma {:induction false} StepSince<S, A, R>(f: (S, A) -> (S, Poll<R>), fl: Fleet<S, A, R>, step: Step<S, A>, i: nat, k0: Task<S, A, R>)
    requires i < |fl.tasks| && PhaseOf(k0.w.th).Backoff? && GoneOn(k0, fl.tasks[i])
    ensures var fl' := Apply(f, fl, step);
            && i < |fl'.tasks| && GoneOn(k0, fl'.tasks[i])
            && (ActedSince(fl'.tasks[i].w.tr, |k0.w.tr|) <==>
                  ActedSince(fl.tasks[i].w.tr, |k0.w.tr|)
                  || (step.PollTask? && step.i == i && step.t.sleepReady && Enabled(fl, step)))
  {
    hide PollOf, HandleAfter, FreshThrottle, LimiterContract, Asking, ActedSince, PhaseOf;
    if step.PollTask? && step.i == i && Enabled(fl, step) {
      PollSince(f, k0, fl.tasks[i], step.t, step.waker);
    }
  }

  lemma {:induction false} RunSince<S, A, R>(f: (S, A) -> (S, Poll<R>), fl: Fleet<S, A, R>, more: seq<Step<S, A>>, i: nat)
    requires i < |fl.tasks| && PhaseOf(fl.tasks[i].w.th).Backoff? && !Finished(fl.tasks[i].w.tr)
    ensures var k0, later := fl.tasks[i], Exec(f, fl, more);
            && i < |later.tasks| && GoneOn(k0, later.tasks[i])
            && (ActedSince(later.tasks[i].w.tr, |k0.w.tr|) <==> FoundOver(f, fl, more, i))
  {
    if more != [] {
      hide Apply, Enabled, ActedSince, GoneOn, PhaseOf;
      var before := more[..|more| - 1];
      RunSince(f, fl, before, i);
      StepSince(f, Exec(f, fl, before), more[|more| - 1], i, fl.tasks[i]);
    }
  }

  /** What becomes of a backoff in any continuation of any run, with whatever wakes arrive in it:
      the task is never stranded; it stays in the same backoff and only waits, or its inner future
      was polled or a backoff inserted since; and the latter exactly if some poll of it found the
      sleep over. */
  lemma {:induction false} BackoffResolves<S, A, R>(f: (S, A) -> (S, Poll<R>), fl: Fleet<S, A, R>, steps: seq<Step<S, A>>, more: seq<Step<S, A>>, i: nat)
    requires Initial(fl)
    requires i < |Exec(f, fl, steps).tasks| && !Finished(Exec(f, fl, steps).tasks[i].w.tr)
    requires PhaseOf(Exec(f, fl, steps).tasks[i].w.th).Backoff?
    ensures var now, later := Exec(f, fl, steps), Exec(f, fl, steps + more);
            && i < |later.tasks|
            && var k0, k := now.tasks[i], later.tasks[i];
            && Awake(k)
            && k0.w.tr <= k.w.tr
            && (ActedSince(k.w.tr, |k0.w.tr|) <==> FoundOver(f, now, more, i))
            && (!ActedSince(k.w.tr, |k0.w.tr|) ==>
                  PhaseOf(k.w.th) == PhaseOf(k0.w.th) && (k.queued || k.timerWaker == Some(k.lastWaker)))
  {
    hide Exec, ActedSince, FoundOver, PhaseOf;
    NoLostWakeup(f, fl, steps + more);
    ExecConcat(f, fl, steps, more);
    RunSince(f, Exec(f, fl, steps), more, i);
  }

  /** A poll of a task whose sleep is over by now, with nothing else in its way. */
  function ReadyTurn<A>(phase: Phase, ambient: A): Turn<A> {
    var at := match phase case Common => 0 case Backoff(deadline) => deadline;
    Turn(Clock(at, at, at, at, at, at, at), true, false, 0, Refused(0), ambient)
  }

  /** And it always can: at most the timer has to fire before the executor polls the task, because
      it was woken, and the poll reaches the inner future or inserts a backoff. */
  lemma {:induction false} BackoffCanResolve<S, A, R>(f: (S, A) -> (S, Poll<R>), fl: Fleet<S, A, R>, steps: seq<Step<S, A>>, i: nat, waker: nat, ambient: A)
    returns (fires: seq<Step<S, A>>, poll: Step<S, A>)
    requires Initial(fl)
    requires i < |Exec(f, fl, steps).tasks| && !Finished(Exec(f, fl, steps).tasks[i].w.tr)
    requires PhaseOf(Exec(f, fl, steps).tasks[i].w.th).Backoff?
    ensures fires == [] || fires == [TimerFires(i)]
    ensures poll.PollTask? && poll.i == i && poll.waker == waker
    ensures var now := Exec(f, fl, steps);
            var woken := Exec(f, now, fires);
            var later := Exec(f, now, fires + [poll]);
            && i < |woken.tasks| && woken.tasks[i].queued && woken.tasks[i].w == now.tasks[i].w
            && Enabled(woken, poll)
            && TimerContract(Decide(now.tasks[i].w.th, poll.t), PhaseOf(now.tasks[i].w.th), poll.t)
            && i < |later.tasks| && ActedSince(later.tasks[i].w.tr, |now.tasks[i].w.tr|)
  {
    NoLostWakeup(f, fl, steps);
    Conservation(f, fl, steps);
    var now := Exec(f, fl, steps);
    var k := now.tasks[i];
    hide Exec, Balanced;
    fires := if k.queued then [] else [TimerFires(i)];
    var woken := Exec(f, now, fires);
    Fired(f, now, i, fires);
    var handle := if k.w.th.Limit? then now.handles[k.handle].asked else 0;
    poll := PollTask(i, ReadyTurn(PhaseOf(k.w.th), ambient), waker, handle);
    PollAllowed(woken, k.w.th, i, poll);
    RunSince(f, now, fires + [poll], i);
    ExecConcat(f, now, fires, [poll]);
    FoundByLast(f, now, fires, poll, i);
  }

  lemma {:induction false} Fired<S, A, R>(f: (S, A) -> (S, Poll<R>), fl: Fleet<S, A, R>, i: nat, fires: seq<Step<S, A>>)
    requires i < |fl.tasks| && fires == if fl.tasks[i].queued then [] else [TimerFires(i)]
    requires fl.tasks[i].queued || fl.tasks[i].timerWaker == Some(fl.tasks[i].lastWaker)
    ensures var woken := Exec(f, fl, fires);
            i < |woken.tasks| && woken.handles == fl.handles && woken.tasks[i].queued
            && woken.tasks[i].w == fl.tasks[i].w && woken.tasks[i].handle == fl.tasks[i].handle
  {
    if fires != [] {
      assert fires[..0] == [];
      assert Exec(f, fl, fires) == Apply(f, fl, TimerFires(i));
    }
  }

  lemma {:induction false} PollAllowed<S, A, R>(fl: Fleet<S, A, R>, th: Throttle, i: nat, poll: Step<S, A>)
    requires i < |fl.tasks| && fl.tasks[i].w.th == th && !Finished(fl.tasks[i].w.tr)
    requires th.Limit? ==> fl.tasks[i].handle < |fl.handles|
    requires poll.PollTask? && poll.i == i && poll.t.admission.Refused?
    requires th.Limit? ==> poll.at == fl.handles[fl.tasks[i].handle].asked
    ensures Enabled(fl, poll)
  {
  }

  lemma {:induction false} FoundByLast<S, A, R>(f: (S, A) -> (S, Poll<R>), fl: Fleet<S, A, R>, steps: seq<Step<S, A>>, poll: Step<S, A>, i: nat)
    requires poll.PollTask? && poll.i == i && poll.t.sleepReady && Enabled(Exec(f, fl, steps), poll)
    ensures FoundOver(f, fl, steps + [poll], i)
  {
    assert (steps + [poll])[..|steps|] == steps;
  }

  // ---------- wakes come only from armed sources ----------

  /** What the inner future answered last. */
  function LastAnswer<A, R>(tr: seq<Obs<A, R>>): Option<Poll<R>> {
    if tr == [] then None
    else
      match tr[|tr| - 1].act
      case Polled(_, outcome, _, _, _) => Some(outcome)
      case _ => LastAnswer(tr[..|tr| - 1])
  }

  /** A timer is armed only for a running backoff, with the latest waker; an inner future holds a
      waker only when it was polled and pended last. */
  predicate Armed<S, A, R>(k: Task<S, A, R>) {
    && (k.timerWaker.Some? ==> PhaseOf(k.w.th).Backoff? && k.timerWaker == Some(k.lastWaker))
    && (k.innerWaker.Some? ==> LastAnswer(k.w.tr) == Some(Pending))
  }

  lemma {:induction false} PollArmed<S, A, R>(f: (S, A) -> (S, Poll<R>), k: Task<S, A, R>, t: Turn<A>, waker: nat)
    requires Armed(k) && !Finished(k.w.tr)
    ensures Armed(PollOf(f, k, t, waker))
  {
    hide Next, Decide;
    var o := Next(k.w.th, t, f(k.w.inner, t.ambient).1).1;
    NextShape(k.w.th, t, f(k.w.inner, t.ambient).1);
    assert (k.w.tr + [o])[..|k.w.tr|] == k.w.tr;
  }

  lemma {:induction false} WakesAreArmed<S, A, R>(f: (S, A) -> (S, Poll<R>), fl: Fleet<S, A, R>, steps: seq<Step<S, A>>)
    requires Initial(fl)
    ensures forall i :: 0 <= i < |Exec(f, fl, steps).tasks| ==> Armed(Exec(f, fl, steps).tasks[i])
  {
    if steps != [] {
      hide PollOf, HandleAfter, FreshThrottle, LimiterContract, Asking, PhaseOf;
      WakesAreArmed(f, fl, steps[..|steps| - 1]);
      var before, step := Exec(f, fl, steps[..|steps| - 1]), steps[|steps| - 1];
      if step.PollTask? && Enabled(before, step) {
        PollArmed(f, before.tasks[step.i], step.t, step.waker);
      }
    }
  }

  /** None of these steps polls task `i`, fires its timer or wakes it from its inner future. */
  ghost predicate LeavesAlone<S, A>(steps: seq<Step<S, A>>, i: nat) {
    forall s :: 0 <= s < |steps| ==>
      match steps[s]
      case Spawn(_, _, _) => true
      case PollTask(j, _, _, _) => j != i
      case TimerFires(j) => j != i
      case InnerWakes(j) => j != i
  }

  lemma {:induction false} LeftAlone<S, A, R>(f: (S, A) -> (S, Poll<R>), fl: Fleet<S, A, R>, steps: seq<Step<S, A>>, i: nat)
    requires i < |fl.tasks| && LeavesAlone(steps, i)
    ensures i < |Exec(f, fl, steps).tasks| && Exec(f, fl, steps).tasks[i] == fl.tasks[i]
  {
    if steps != [] {
      hide PollOf, HandleAfter, Enabled;
      LeftAlone(f, fl, steps[..|steps| - 1], i);
    }
  }

  /** A task that was polled is not queued, whatever the rest of the fleet does, until its own timer
      or its own inner future wakes it, unless its fresh sleep was ready at once and it woke itself. */
  lemma {:induction false} SleepsUntilWoken<S, A, R>(f: (S, A) -> (S, Poll<R>), fl: Fleet<S, A, R>, poll: Step<S, A>, more: seq<Step<S, A>>)
    requires poll.PollTask? && Enabled(fl, poll) && LeavesAlone(more, poll.i)
    ensures var k := fl.tasks[poll.i];
            var o := Next(k.w.th, poll.t, f(k.w.inner, poll.t.ambient).1).1;
            var later := Exec(f, Apply(f, fl, poll), more);
            && poll.i < |later.tasks|
            && later.tasks[poll.i].w.tr == k.w.tr + [o]
            && (later.tasks[poll.i].queued <==> o.act.Inserted? && o.act.fired)
  {
    hide Next, HandleAfter, LimiterContract, Asking;
    LeftAlone(f, Apply(f, fl, poll), more, poll.i);
  }

  // ---------- conservation at the limiter ----------

  /** Inner polls, and backoffs found over, of the rate-limited tasks that share a handle. */
  datatype Usage = Usage(entered: nat, expired: nat)

  function UsageOf<S, A, R>(k: Task<S, A, R>, h: nat): Usage {
    if k.w.th.Limit? && k.handle == h then Usage(TallyOf(k.w.tr).entered, TallyOf(k.w.tr).expired) else Usage(0, 0)
  }

  function Total<S, A, R>(tasks: seq<Task<S, A, R>>, h: nat): Usage {
    if tasks == [] then Usage(0, 0)
    else
      var front, last := Total(tasks[..|tasks| - 1], h), UsageOf(tasks[|tasks| - 1], h);
      Usage(front.entered + last.entered, front.expired + last.expired)
  }

  lemma {:induction false} TotalSnoc<S, A, R>(tasks: seq<Task<S, A, R>>, k: Task<S, A, R>, h: nat)
    ensures Total(tasks + [k], h) == Usage(Total(tasks, h).entered + UsageOf(k, h).entered, Total(tasks, h).expired + UsageOf(k, h).expired)
  {
    assert (tasks + [k])[..|tasks|] == tasks;
  }

  lemma {:induction false} TotalUpdate<S, A, R>(tasks: seq<Task<S, A, R>>, i: nat, k: Task<S, A, R>, h: nat)
    requires i < |tasks|
    ensures Total(tasks[i := k], h).entered + UsageOf(tasks[i], h).entered == Total(tasks, h).entered + UsageOf(k, h).entered
    ensures Total(tasks[i := k], h).expired + UsageOf(tasks[i], h).expired == Total(tasks, h).expired + UsageOf(k, h).expired
  {
    hide UsageOf;
    var front := tasks[..|tasks| - 1];
    if i == |tasks| - 1 {
      assert tasks[i := k][..|tasks| - 1] == front;
    } else {
      assert tasks[i := k][..|tasks| - 1] == front[i := k];
      TotalUpdate(front, i, k, h);
    }
  }

  /** The accounts of one handle against the transcripts of the tasks that share it. */
  ghost predicate Balanced<S, A, R>(fl: Fleet<S, A, R>, h: nat)
    requires h < |fl.handles|
  {
    && fl.handles[h].counter == Decrements(Total(fl.tasks, h).expired)
    && fl.handles[h].tokens <= 2_000
    && (BucketFor(fl.handles[h].priority).Some? ==> fl.handles[h].granted == Total(fl.tasks, h).entered)
  }

  /** Limited tasks belong to handles with a limiter. */
  ghost predicate Attached<S, A, R>(fl: Fleet<S, A, R>) {
    forall i :: 0 <= i < |fl.tasks| && fl.tasks[i].w.th.Limit? ==>
      && fl.tasks[i].handle < |fl.handles|
      && fl.tasks[i].w.th.limit.limited == BucketFor(fl.handles[fl.tasks[i].handle].priority).Some?
  }

  /** One poll of a task takes a grant exactly when it polls the inner future. */
  lemma {:induction false} PollBalances<S, A, R>(f: (S, A) -> (S, Poll<R>), k: Task<S, A, R>, hd: Handle, t: Turn<A>, waker: nat, at: nat)
    requires k.w.th.Limit? && !Finished(k.w.tr) && k.w.th.limit.limited == BucketFor(hd.priority).Some?
    requires Asking(k.w.th, t) ==> LimiterContract(hd, at, t.admission)
    requires hd.tokens <= 2_000
    ensures var k' := PollOf(f, k, t, waker);
            var hd' := HandleAfter(f, k, hd, t, at);
            var used, used' := UsageOf(k, k.handle), UsageOf(k', k.handle);
            && k'.w.th.Limit? && k'.handle == k.handle && k'.w.th.limit.limited == k.w.th.limit.limited
            && hd'.priority == hd.priority && hd'.tokens <= 2_000
            && (BucketFor(hd.priority).Some? ==> hd'.granted - hd.granted == used'.entered - used.entered)
            && used'.expired - used.expired == (if hd'.counter == Dec64(hd.counter) then 1 else 0)
            && (hd'.counter == Dec64(hd.counter) || hd'.counter == hd.counter)
  {
    hide TallyOf;
    var o := Next(k.w.th, t, f(k.w.inner, t.ambient).1).1;
    TallySnoc(k.w.tr, o);
  }

  lemma {:induction false} PollStepBalances<S, A, R>(f: (S, A) -> (S, Poll<R>), fl: Fleet<S, A, R>, i: nat, t: Turn<A>, waker: nat, at: nat, h: nat)
    requires Attached(fl) && h < |fl.handles| && Balanced(fl, h)
    requires forall g :: 0 <= g < |fl.handles| ==> fl.handles[g].tokens <= 2_000
    requires Enabled(fl, PollTask(i, t, waker, at))
    ensures var fl' := Apply(f, fl, PollTask(i, t, waker, at));
            |fl'.handles| == |fl.handles| && Balanced(fl', h) && fl'.handles[h].priority == fl.handles[h].priority
  {
    hide PollOf, HandleAfter, LimiterContract, Asking, UsageOf, BucketFor, Dec64;
    var k := fl.tasks[i];
    TotalUpdate(fl.tasks, i, PollOf(f, k, t, waker), h);
    if k.w.th.Limit? {
      PollBalances(f, k, fl.handles[k.handle], t, waker, at);
      OtherHandle(k, PollOf(f, k, t, waker), h);
    } else {
      UnlimitedUsage(f, k, t, waker, h);
    }
  }

  lemma {:induction false} StepBalances<S, A, R>(f: (S, A) -> (S, Poll<R>), fl: Fleet<S, A, R>, step: Step<S, A>, h: nat)
    requires Attached(fl) && h < |fl.handles| && Balanced(fl, h)
    requires forall g :: 0 <= g < |fl.handles| ==> fl.handles[g].tokens <= 2_000
    ensures var fl' := Apply(f, fl, step);
            |fl'.handles| == |fl.handles| && Balanced(fl', h) && fl'.handles[h].priority == fl.handles[h].priority
  {
    hide PollOf, HandleAfter, LimiterContract, Asking, UsageOf, BucketFor, Dec64;
    if Enabled(fl, step) {
      match step {
        case Spawn(th, inner, handle) =>
          var k := Task(Wrapped(th, inner, []), handle, true, 0, None, None, inner);
          FreshUsage<S, A, R>(th, inner, handle, h);
          TotalSnoc(fl.tasks, k, h);
        case PollTask(i, t, waker, at) =>
          PollStepBalances(f, fl, i, t, waker, at, h);
        case TimerFires(i) =>
          var k := fl.tasks[i].(timerWaker := None, queued := fl.tasks[i].queued || fl.tasks[i].timerWaker.value == fl.tasks[i].lastWaker);
          SameUsage(fl.tasks[i], k, h);
          TotalUpdate(fl.tasks, i, k, h);
        case InnerWakes(i) =>
          var k := fl.tasks[i].(innerWaker := None, queued := fl.tasks[i].queued || fl.tasks[i].innerWaker.value == fl.tasks[i].lastWaker);
          SameUsage(fl.tasks[i], k, h);
          TotalUpdate(fl.tasks, i, k, h);
      }
    }
  }

  lemma {:induction false} FreshUsage<S, A, R>(th: Throttle, inner: S, handle: nat, h: nat)
    ensures UsageOf<S, A, R>(Task(Wrapped(th, inner, []), handle, true, 0, None, None, inner), h) == Usage(0, 0)
  {
  }

  lemma {:induction false} SameUsage<S, A, R>(k: Task<S, A, R>, k': Task<S, A, R>, h: nat)
    requires k'.w == k.w && k'.handle == k.handle
    ensures UsageOf(k', h) == UsageOf(k, h)
  {
  }

  lemma {:induction false} OtherHandle<S, A, R>(k: Task<S, A, R>, k': Task<S, A, R>, h: nat)
    requires k'.handle == k.handle
    ensures k.handle != h ==> UsageOf(k', h) == UsageOf(k, h)
  {
  }

  lemma {:induction false} UnlimitedUsage<S, A, R>(f: (S, A) -> (S, Poll<R>), k: Task<S, A, R>, t: Turn<A>, waker: nat, h: nat)
    requires !k.w.th.Limit?
    ensures !PollOf(f, k, t, waker).w.th.Limit?
    ensures UsageOf(PollOf(f, k, t, waker), h) == UsageOf(k, h)
  {
    hide TallyOf;
  }

  lemma {:induction false} StepAttached<S, A, R>(f: (S, A) -> (S, Poll<R>), fl: Fleet<S, A, R>, step: Step<S, A>)
    requires Attached(fl)
    requires forall g :: 0 <= g < |fl.handles| ==> fl.handles[g].tokens <= 2_000
    ensures Attached(Apply(f, fl, step))
    ensures forall g :: 0 <= g < |fl.handles| ==> Apply(f, fl, step).handles[g].tokens <= 2_000
  {
    hide PollOf, HandleAfter, LimiterContract, Asking, UsageOf, BucketFor;
    if Enabled(fl, step) && step.PollTask? {
      var k := fl.tasks[step.i];
      if k.w.th.Limit? {
        PollBalances(f, k, fl.handles[k.handle], step.t, step.waker, step.at);
      } else {
        UnlimitedUsage(f, k, step.t, step.waker, 0);
      }
    }
  }

  /** Conservation: at every moment of every run, the inner polls of the rate-limited futures that
      share a handle are exactly the grants of its limiter, so no token is wasted or used for two
      polls; and the shared counter is 0 minus the backoffs that polls found over, modulo 2^64. */
  lemma {:induction false} Conservation<S, A, R>(f: (S, A) -> (S, Poll<R>), fl: Fleet<S, A, R>, steps: seq<Step<S, A>>)
    requires Initial(fl)
    ensures var now := Exec(f, fl, steps);
            && Attached(now) && |now.handles| == |fl.handles|
            && forall h :: 0 <= h < |fl.handles| ==>
                 Balanced(now, h) && now.handles[h].priority == fl.handles[h].priority
  {
    if steps != [] {
      var before := Exec(f, fl, steps[..|steps| - 1]);
      Conservation(f, fl, steps[..|steps| - 1]);
      hide Apply;
      TokensBounded(before);
      StepAttached(f, before, steps[|steps| - 1]);
      forall h | 0 <= h < |fl.handles|
        ensures |Apply(f, before, steps[|steps| - 1]).handles| == |before.handles|
        ensures Balanced(Apply(f, before, steps[|steps| - 1]), h)
        ensures Apply(f, before, steps[|steps| - 1]).handles[h].priority == before.handles[h].priority
      {
        StepBalances(f, before, steps[|steps| - 1], h);
      }
    }
  }

  lemma {:induction false} TokensBounded<S, A, R>(fl: Fleet<S, A, R>)
    requires forall h :: 0 <= h < |fl.handles| ==> Balanced(fl, h)
    ensures forall h :: 0 <= h < |fl.handles| ==> fl.handles[h].tokens <= 2_000
  {
    forall h | 0 <= h < |fl.handles| ensures fl.handles[h].tokens <= 2_000 {
      assert Balanced(fl, h);
    }
  }

  /** Limited tasks of a handle that are backing off. */
  function Waiting<S, A, R>(tasks: seq<Task<S, A, R>>, h: nat): nat {
    if tasks == [] then 0
    else
      var k := tasks[|tasks| - 1];
      Waiting(tasks[..|tasks| - 1], h) + if k.w.th.Limit? && k.handle == h && PhaseOf(k.w.th).Backoff? then 1 else 0
  }

  /** When the shared counter does equal the number of waiting futures: as long as these and the
      polls that found a backoff over are fewer than 2^64 together, only when there are neither. */
  lemma {:induction false} GaugeExactly<S, A, R>(f: (S, A) -> (S, Poll<R>), fl: Fleet<S, A, R>, steps: seq<Step<S, A>>, h: nat)
    requires Initial(fl) && h < |fl.handles|
    ensures var now := Exec(f, fl, steps);
            h < |now.handles| &&
            var waiting, expired, counter := Waiting(now.tasks, h), Total(now.tasks, h).expired, now.handles[h].counter;
            && (counter == waiting <==> waiting < 0x1_0000_0000_0000_0000 && Wrap64(waiting + expired) == 0)
            && (waiting + expired < 0x1_0000_0000_0000_0000 ==> (counter == waiting <==> waiting == 0 && expired == 0))
  {
    hide Exec, Waiting, Total, Decrements, Attached;
    Conservation(f, fl, steps);
    var now := Exec(f, fl, steps);
    assert Balanced(now, h);
    var expired := Total(now.tasks, h).expired;
    DecrementsClosedForm(expired);
    SameRemainder(now.handles[h].counter, Waiting(now.tasks, h), expired);
  }

  lemma {:induction false} SameRemainder(counter: u64, waiting: nat, expired: nat)
    requires Wrap64(counter + expired) == 0
    ensures counter == waiting <==> waiting < 0x1_0000_0000_0000_0000 && Wrap64(waiting + expired) == 0
    ensures waiting + expired < 0x1_0000_0000_0000_0000 ==> (Wrap64(waiting + expired) == 0 <==> waiting == 0 && expired == 0)
  {
    var m := 0x1_0000_0000_0000_0000;
    if waiting < m && Wrap64(waiting + expired) == 0 {
      var a, b := (counter + expired) / m, (waiting + expired) / m;
      assert counter + expired == m * a && waiting + expired == m * b;
      assert counter - waiting == m * (a - b);
      assert a == b;
    }
  }

  function WaitTurn(admission: Admission): Turn<()> {
    Turn(Clock(0, 0, 0, 0, 0, 0, 0), true, false, 0, admission, ())
  }

  /** A limiter with one token, and one limited future at it. */
  const ONE_TOKEN := Handle(High, 1, 0, 0, 0)

  predicate Lone(fl: Fleet<(), (), ()>, c: ModeRateLimiter.Ctl, h: Handle) {
    && |fl.tasks| == 1 && fl.tasks[0].handle == 0 && fl.tasks[0].w.th == Limit(c) && !Finished(fl.tasks[0].w.tr)
    && fl.handles == [h]
  }

  lemma {:induction false} LoneRefused(f: ((), ()) -> ((), Poll<()>), fl: Fleet<(), (), ()>)
    requires Lone(fl, ModeRateLimiter.New(true), ONE_TOKEN)
    ensures Lone(Apply(f, fl, PollTask(0, WaitTurn(Refused(1)), 0, 0)), ModeRateLimiter.Ctl(true, Backoff(1), 1), ONE_TOKEN)
  {
    hide Refilled;
  }

  lemma {:induction false} LoneGranted(f: ((), ()) -> ((), Poll<()>), fl: Fleet<(), (), ()>)
    requires Lone(fl, ModeRateLimiter.Ctl(true, Backoff(1), 1), ONE_TOKEN)
    ensures var later := Apply(f, fl, PollTask(0, WaitTurn(Granted), 0, 0));
            |later.tasks| == 1 == |later.handles| && PhaseOf(later.tasks[0].w.th).Common? && later.handles[0].counter == 0xFFFF_FFFF_FFFF_FFFF
  {
    hide Refilled;
  }

  /** The shared counter does not count waiting futures: in this run it is 0 while one future waits,
      and 2^64 - 1 when none does any more. */
  lemma {:induction false} NoGauge(f: ((), ()) -> ((), Poll<()>)) returns (fl: Fleet<(), (), ()>, waiting: seq<Step<(), ()>>, over: Step<(), ()>)
    ensures Initial(fl) && |fl.handles| == 1
    ensures var now := Exec(f, fl, waiting);
            |now.tasks| == 1 == |now.handles| && PhaseOf(now.tasks[0].w.th).Backoff? && now.handles[0].counter == 0
    ensures var now := Exec(f, fl, waiting + [over]);
            |now.tasks| == 1 == |now.handles| && PhaseOf(now.tasks[0].w.th).Common? && now.handles[0].counter == 0xFFFF_FFFF_FFFF_FFFF
  {
    fl := Fleet([], [ONE_TOKEN]);
    var spawn := Spawn(Limit(ModeRateLimiter.New(true)), (), 0);
    var refused := PollTask(0, WaitTurn(Refused(1)), 0, 0);
    over := PollTask(0, WaitTurn(Granted), 0, 0);
    waiting := [spawn] + [refused];
    assert Lone(Apply(f, fl, spawn), ModeRateLimiter.New(true), ONE_TOKEN);
    LoneRefused(f, Apply(f, fl, spawn));
    LoneGranted(f, Apply(f, Apply(f, fl, spawn), refused));
    hide Apply, WaitTurn;
    assert [] + [spawn] == [spawn];
    ExecSnoc(f, fl, [], spawn);
    ExecSnoc(f, fl, [spawn], refused);
    ExecSnoc(f, fl, waiting, over);
  }

  lemma {:induction false} ExecSnoc<S, A, R>(f: (S, A) -> (S, Poll<R>), fl: Fleet<S, A, R>, steps: seq<Step<S, A>>, step: Step<S, A>)
    ensures Exec(f, fl, steps + [step]) == Apply(f, Exec(f, fl, steps), step)
    ensures Exec(f, fl, []) == fl
  {
    hide Apply;
    assert (steps + [step])[..|steps|] == steps;
  }

  // ---------- throughput ----------

  lemma {:induction false} RefilledGrows(b: Bucket, from: nat, to: nat)
    requires from <= to
    ensures Refilled(b, from) <= Refilled(b, to)
  {
    if b.interval > 0 {
      QuotientGrows(from, to, b.interval);
      ProductGrows(b.amount, from / b.interval, to / b.interval);
    }
  }

  lemma {:induction false} QuotientGrows(x: nat, y: nat, d: nat)
    requires x <= y && d > 0
    ensures x / d <= y / d
  {
    NoMoreThanQuotient(x / d, y, d);
  }

  lemma {:induction false} NoMoreThanQuotient(q: nat, y: nat, d: nat)
    requires d > 0 && d * q <= y
    ensures q <= y / d
  {
    if y / d + 1 <= q {
      ProductGrows(d, y / d + 1, q);
    }
  }

  lemma {:induction false} ProductGrows(a: nat, x: nat, y: nat)
    requires x <= y
    ensures a * x <= a * y
  {
  }

  /** Does this step ask the limiter of handle `h`? */
  predicate AsksHandle<S, A, R>(fl: Fleet<S, A, R>, step: Step<S, A>, h: nat) {
    && step.PollTask? && Enabled(fl, step)
    && fl.tasks[step.i].w.th.Limit? && fl.tasks[step.i].handle == h && Asking(fl.tasks[step.i].w.th, step.t)
  }

  /** The limiter of `h` is asked only at this moment or later. */
  ghost predicate AskedFrom<S, A, R>(f: (S, A) -> (S, Poll<R>), fl: Fleet<S, A, R>, steps: seq<Step<S, A>>, h: nat, from: nat) {
    steps == [] ||
    var before, step := steps[..|steps| - 1], steps[|steps| - 1];
    && AskedFrom(f, fl, before, h, from)
    && (AsksHandle(Exec(f, fl, before), step, h) ==> from <= step.at)
  }

  /** Since `h0`: not asked yet, or granted no more than the bucket held at the moment `from`, with
      its cap, and was refilled with after it. */
  ghost predicate SpentSince(b: Bucket, h0: Handle, from: nat, h: Handle) {
    && h.priority == h0.priority
    && (h.(counter := h0.counter) == h0 ||
        (from <= h.asked &&
         h.granted + h.tokens + Refilled(b, from) <= h0.granted + Available(b, h0, from) + Refilled(b, h.asked)))
  }

  /** Refilling to the cap and then further gives no less than refilling in one go. */
  lemma {:induction false} AvailableLater(b: Bucket, h: Handle, from: nat, at: nat)
    requires h.asked <= from <= at
    ensures Available(b, h, at) <= Available(b, h, from) + Refilled(b, at) - Refilled(b, from)
  {
    RefilledGrows(b, h.asked, from);
    RefilledGrows(b, from, at);
    hide Refilled;
  }

  lemma {:induction false} AskSpentSince(b: Bucket, h0: Handle, from: nat, h: Handle, at: nat, a: Admission)
    requires BucketFor(h.priority) == Some(b) && LimiterContract(h, at, a)
    requires h0.asked <= from <= at && SpentSince(b, h0, from, h)
    ensures SpentSince(b, h0, from, Ask(h, at, a))
  {
    if h.(counter := h0.counter) == h0 {
      AvailableLater(b, h0, from, at);
      assert Available(b, h, at) == Available(b, h0, at);
      hide Refilled;
    } else {
      RefilledGrows(b, h.asked, at);
      hide Refilled;
    }
  }

  lemma {:induction false} StepSpentSince<S, A, R>(f: (S, A) -> (S, Poll<R>), fl: Fleet<S, A, R>, step: Step<S, A>, h: nat, b: Bucket, h0: Handle, from: nat)
    requires h < |fl.handles| && BucketFor(fl.handles[h].priority) == Some(b)
    requires h0.asked <= from && SpentSince(b, h0, from, fl.handles[h])
    requires AsksHandle(fl, step, h) ==> from <= step.at
    ensures |Apply(f, fl, step).handles| == |fl.handles|
    ensures SpentSince(b, h0, from, Apply(f, fl, step).handles[h])
  {
    hide Refilled, Available, PollOf, Ask, LimiterContract, Asking, Next, Decide, Dec64, BucketFor;
    if Enabled(fl, step) && step.PollTask? && fl.tasks[step.i].w.th.Limit? && fl.tasks[step.i].handle == h {
      if Asking(fl.tasks[step.i].w.th, step.t) {
        AskSpentSince(b, h0, from, fl.handles[h], step.at, step.t.admission);
      }
    }
  }

  lemma {:induction false} RunSpentSince<S, A, R>(f: (S, A) -> (S, Poll<R>), fl: Fleet<S, A, R>, steps: seq<Step<S, A>>, h: nat, b: Bucket, from: nat)
    requires h < |fl.handles| && BucketFor(fl.handles[h].priority) == Some(b)
    requires fl.handles[h].asked <= from && AskedFrom(f, fl, steps, h, from)
    ensures |Exec(f, fl, steps).handles| == |fl.handles|
    ensures SpentSince(b, fl.handles[h], from, Exec(f, fl, steps).handles[h])
  {
    hide Refilled, Available, Apply, BucketFor, AsksHandle;
    if steps != [] {
      var before := steps[..|steps| - 1];
      RunSpentSince(f, fl, before, h, b, from);
      StepSpentSince(f, Exec(f, fl, before), steps[|steps| - 1], h, b, fl.handles[h], from);
    }
  }

  lemma {:induction false} WindowBound(b: Bucket, h0: Handle, h: Handle, from: nat, to: nat)
    requires h0.asked <= from <= to && h.asked <= to && SpentSince(b, h0, from, h)
    ensures h.granted - h0.granted <= b.maxTokens + Refilled(b, to) - Refilled(b, from)
  {
    RefilledGrows(b, from, to);
    RefilledGrows(b, h.asked, to);
    hide Refilled;
  }

  /** In any window of any run, from any moment to any later one, however long the limiter was idle
      before: the futures that share a limited handle poll their inner futures at most 2000 times
      plus what the limiter is refilled with in the window, which is at most one interval's tokens
      more than the window's own length pays for. */
  lemma {:induction false} Throughput<S, A, R>(f: (S, A) -> (S, Poll<R>), fl: Fleet<S, A, R>, steps: seq<Step<S, A>>, more: seq<Step<S, A>>, h: nat, b: Bucket, from: nat, to: nat)
    requires Initial(fl) && h < |fl.handles| && BucketFor(fl.handles[h].priority) == Some(b)
    requires from <= to
    requires h < |Exec(f, fl, steps).handles| && Exec(f, fl, steps).handles[h].asked <= from
    requires AskedFrom(f, Exec(f, fl, steps), more, h, from)
    requires h < |Exec(f, fl, steps + more).handles| && Exec(f, fl, steps + more).handles[h].asked <= to
    ensures var before, after := Exec(f, fl, steps), Exec(f, fl, steps + more);
            && Total(after.tasks, h).entered - Total(before.tasks, h).entered <= 2_000 + Refilled(b, to) - Refilled(b, from)
            && Refilled(b, to) - Refilled(b, from) <= b.amount * ((to - from) / b.interval + 1)
  {
    hide BucketFor, Refilled, Total, Decrements, Exec, AskedFrom;
    Conservation(f, fl, steps);
    Conservation(f, fl, steps + more);
    ExecConcat(f, fl, steps, more);
    var before, after := Exec(f, fl, steps), Exec(f, fl, steps + more);
    assert Balanced(before, h) && Balanced(after, h);
    RunSpentSince(f, before, more, h, b, from);
    WindowBound(b, before.handles[h], after.handles[h], from, to);
    BucketShape(fl.handles[h].priority, b);
    RefillOfWindow(b, from, to);
  }

  lemma {:induction false} BucketShape(p: Priority, b: Bucket)
    requires BucketFor(p) == Some(b)
    ensures b.interval > 0 && b.maxTokens == 2_000
  {
  }

  lemma {:induction false} RefillOfWindow(b: Bucket, from: nat, to: nat)
    requires from <= to && b.interval > 0
    ensures Refilled(b, to) - Refilled(b, from) <= b.amount * ((to - from) / b.interval + 1)
  {
    var d := b.interval;
    var x, y, z := from / d, to / d, (to - from) / d;
    assert d * (y - x - 1) == d * y - d * x - d;
    if y > x {
      NoMoreThanQuotient(y - x - 1, to - from, d);
    }
    ProductGrows(b.amount, y, x + z + 1);
    assert b.amount * (x + z + 1) == b.amount * x + b.amount * (z + 1);
  }
}
