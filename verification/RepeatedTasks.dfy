/**
 A task that is called again and again by a background loop, and its start/stop/drop lifecycle.
 First the object, whose critical sections are taken as a whole; then every interleaving of the
 single steps of any number of callers with the steps of the loop and of the clock.
 */
module RepeatedTasks {
  import opened Polling

  // ---------- the object ----------

  /** The mutex-guarded options, the flag and the token, as far as they are set. */
  datatype Lifecycle = Lifecycle(hasFn: bool, hasHandle: bool, started: bool, cancelled: bool)

  const NEW := Lifecycle(true, false, false, false)
  const RUNNING := Lifecycle(false, true, true, false)
  const STOPPED := Lifecycle(false, false, false, true)

  /** What a start, and what a stop, makes of a lifecycle. */
  function AfterStart(l: Lifecycle): Lifecycle { if l == NEW then RUNNING else l }

  function AfterStop(l: Lifecycle): Lifecycle { if l == RUNNING then STOPPED else l }

  predicate Settled(l: Lifecycle) { l == NEW || l == RUNNING || l == STOPPED }

  datatype StartResult = Started | IllegalState

  class RepeatedTask<F> {
    const interval: nat
    var initialDelay: Option<nat>
    var taskFn: Option<F>
    var taskHandle: Option<nat>
    var started: bool
    var cancelled: bool

    function View(): Lifecycle
      reads this
    {
      Lifecycle(taskFn.Some?, taskHandle.Some?, started, cancelled)
    }

    ghost predicate Valid()
      reads this
    {
      Settled(View())
    }

    constructor (interval: nat, f: F)
      ensures Valid() && View() == NEW
      ensures taskFn == Some(f) && initialDelay == None && this.interval == interval
    {
      this.interval := interval;
      initialDelay, taskFn, taskHandle, started, cancelled := None, Some(f), None, false, false;
    }

    method WithInitialDelay(delay: Option<nat>)
      modifies this`initialDelay
      ensures initialDelay == delay
    {
      initialDelay := delay;
    }

    /** `handle` is the join handle the runtime gives out for the loop. A start that succeeds hands
        the function to the loop, together with a token that is not cancelled. */
    method Start(handle: nat) returns (r: StartResult, run: Option<F>)
      requires Valid()
      modifies this`taskFn, this`taskHandle, this`started
      ensures Valid()
      ensures r == (if old(View()) == NEW then Started else IllegalState)
      ensures View() == AfterStart(old(View()))
      ensures r.Started? ==> taskHandle == Some(handle) && run.Some? && run == old(taskFn)
      ensures r.Started? ==> !cancelled
      ensures r.IllegalState? ==> run == None && taskHandle == old(taskHandle) && taskFn == old(taskFn)
    {
      if taskFn.None? {
        return IllegalState, None;
      }
      run := Some(taskFn.value);
      taskFn := None;
      taskHandle := Some(handle);
      started := true;
      r := Started;
    }

    /** The part of `stop` under the lock. The handle that comes out has to be awaited. */
    method StopLocked() returns (handle: Option<nat>)
      requires Valid()
      modifies this`taskHandle, this`started, this`cancelled
      ensures Valid()
      ensures handle == old(taskHandle)
      ensures View() == AfterStop(old(View()))
    {
      if taskHandle.None? {
        return None;
      }
      cancelled := true;
      started := false;
      handle := Some(taskHandle.value);
      taskHandle := None;
    }

    method Drop()
      requires Valid()
      modifies this`cancelled
      ensures cancelled <==> old(View()) != NEW
    {
      if taskHandle.Some? {
        cancelled := true;
      }
    }
  }

  // ---------- every interleaving ----------

  datatype CallerPc =
    | Idle
    | StartLocked | StartTaken | StartSpawned | StartHandled | StartMarked | StartRefused
    | StopLocked | StopCancelled | StopCleared | StopTook | StopNothing
    | Awaiting
    | Returned(ok: bool, awaited: bool)
    | Abandoned

  /** One call of `start` or of `stop`. */
  datatype Caller = Caller(start: bool, pc: CallerPc) {
    predicate Locks() { !pc.Idle? && !pc.Awaiting? && !pc.Returned? && !pc.Abandoned? }
    /** Positions of a start are held by starts, those of a stop by stops. */
    predicate OnCourse() {
      match pc
      case StartLocked => start
      case StartTaken => start
      case StartSpawned => start
      case StartHandled => start
      case StartMarked => start
      case StartRefused => start
      case StopLocked => !start
      case StopCancelled => !start
      case StopCleared => !start
      case StopTook => !start
      case StopNothing => !start
      case Awaiting => !start
      case Returned(_, awaited) => awaited ==> !start
      case _ => true
    }
    /** A start that has taken the function. */
    predicate Took() {
      pc.StartTaken? || pc.StartSpawned? || pc.StartHandled? || pc.StartMarked? || (start && pc.Returned? && pc.ok)
    }
  }

  datatype Loop =
    | NotSpawned
    | Top                                // at the head of the loop
    | Select(deadline: nat, polled: bool)  // in `select!`; `polled`: not for the first time
    | Calling                            // in `task_fn.call()`
    | Exited                             // returned because of the cancellation
    | Died                               // the call panicked, or the runtime dropped the loop

  datatype Config = Config(interval: nat, initialDelay: Option<nat>)

  /** `initial` is the loop's own copy of the initial delay; `calls`, `callsAfter` and `surprises`
      count the calls begun, those begun when the token was cancelled already, and of those the
      ones whose sleep was ready the very first time it was polled. */
  datatype World = World(
    config: Config, life: Lifecycle, lock: Option<nat>, callers: seq<Caller>, dropped: bool, owner: Option<nat>,
    loop: Loop, initial: Option<nat>, now: nat, loopStart: nat, bornCancelled: bool,
    calls: nat, callsAfter: nat, surprises: nat)

  datatype Event =
    | Tick(dt: nat)
    | CallerStep(i: nat)
    | Abandon(i: nat)      // the future of a waiting `stop` is dropped
    | DropTask
    | LoopHead
    | PollPending          // `select!` finds neither branch ready
    | SleepWins
    | CancelWins
    | CallReturns          // with Ok or with Err, which is only logged
    | LoopDies

  function SleepTime(w: World): nat {
    match w.initial case Some(d) => d case None => w.config.interval
  }

  function BeginCall(w: World): World {
    w.(loop := Calling, calls := w.calls + 1, callsAfter := w.callsAfter + if w.life.cancelled then 1 else 0)
  }

  predicate Enabled(w: World, e: Event) {
    match e
    case Tick(_) => true
    case CallerStep(i) =>
      i < |w.callers| &&
      (match w.callers[i].pc
       case Idle => w.lock.None? && !w.dropped
       case Awaiting => w.loop.Exited? || w.loop.Died?
       case Returned(_, _) => false
       case Abandoned => false
       case _ => true)
    case Abandon(i) => i < |w.callers| && w.callers[i].pc.Awaiting?
    case DropTask =>
      !w.dropped && forall i :: 0 <= i < |w.callers| ==> !w.callers[i].Locks() && !w.callers[i].pc.Awaiting?
    case LoopHead => w.loop.Top?
    case PollPending => w.loop.Select? && !w.life.cancelled
    case SleepWins => w.loop.Select? && w.loop.deadline <= w.now
    case CancelWins => w.loop.Select? && w.life.cancelled
    case CallReturns => w.loop.Calling?
    case LoopDies => w.loop.Top? || w.loop.Select? || w.loop.Calling?
  }

  /** What one step of a caller at `pc` does to the lifecycle, and to the lock. */
  function NextLife(l: Lifecycle, pc: CallerPc): Lifecycle {
    match pc
    case StartLocked => l.(hasFn := false)
    case StartSpawned => l.(hasHandle := true)
    case StartHandled => l.(started := true)
    case StopLocked => if l.hasHandle then l.(cancelled := true) else l
    case StopCancelled => l.(started := false)
    case StopCleared => l.(hasHandle := false)
    case _ => l
  }

  function NextLock(lock: Option<nat>, pc: CallerPc, i: nat): Option<nat> {
    match pc
    case Idle => Some(i)
    case StartMarked => None
    case StartRefused => None
    case StopTook => None
    case StopNothing => None
    case _ => lock
  }

  /** What it does to everything but its own position. */
  function CallerEffect(w: World, i: nat, pc: CallerPc): World {
    var takes, spawns := pc.StartLocked? && w.life.hasFn, pc.StartTaken?;
    w.(life := NextLife(w.life, pc),
       lock := NextLock(w.lock, pc, i),
       owner := if takes then Some(i) else w.owner,
       bornCancelled := if takes then w.life.cancelled else w.bornCancelled,
       loop := if spawns then Top else w.loop,
       initial := if spawns then w.config.initialDelay else w.initial,
       loopStart := if spawns then w.now else w.loopStart)
  }

  function NextPc(life: Lifecycle, loop: Loop, c: Caller): CallerPc {
    match c.pc
    case Idle => if c.start then StartLocked else StopLocked
    case StartLocked => if life.hasFn then StartTaken else StartRefused
    case StartTaken => StartSpawned
    case StartSpawned => StartHandled
    case StartHandled => StartMarked
    case StartMarked => Returned(true, false)
    case StartRefused => Returned(false, false)
    case StopLocked => if life.hasHandle then StopCancelled else StopNothing
    case StopCancelled => StopCleared
    case StopCleared => StopTook
    case StopTook => Awaiting
    case StopNothing => Returned(true, false)
    case Awaiting => Returned(loop.Exited?, true)
    case Returned(_, _) => c.pc
    case Abandoned => c.pc
  }

  function Apply(w: World, e: Event): World {
    if !Enabled(w, e) then w
    else
      match e
      case Tick(dt) => w.(now := w.now + dt)
      case CallerStep(i) =>
        CallerEffect(w, i, w.callers[i].pc).(callers := w.callers[i := w.callers[i].(pc := NextPc(w.life, w.loop, w.callers[i]))])
      case Abandon(i) => w.(callers := w.callers[i := w.callers[i].(pc := Abandoned)])
      case DropTask => w.(dropped := true, life := w.life.(cancelled := w.life.cancelled || w.life.hasHandle))
      case LoopHead =>
        var taken := w.(initial := None);
        if SleepTime(w) > 0 then taken.(loop := Select(w.now + SleepTime(w), false)) else BeginCall(taken)
      case PollPending => w.(loop := w.loop.(polled := true))
      case SleepWins =>
        BeginCall(w).(surprises := w.surprises + if w.life.cancelled && !w.loop.polled then 1 else 0)
      case CancelWins => w.(loop := Exited)
      case CallReturns => w.(loop := Top)
      case LoopDies => w.(loop := Died)
  }

  function Exec(w: World, events: seq<Event>): World {
    if events == [] then w else Apply(Exec(w, events[..|events| - 1]), events[|events| - 1])
  }

  ghost predicate Initial(w: World) {
    && w.life == NEW && w.lock == None && !w.dropped && w.owner == None && w.loop.NotSpawned?
    && w.calls == 0 && w.callsAfter == 0 && w.surprises == 0 && !w.bornCancelled
    && forall i :: 0 <= i < |w.callers| ==> w.callers[i].pc.Idle?
  }

  // ---------- the lifecycle ----------

  /** The lifecycle while the holder of the lock is at `pc`. */
  ghost predicate LifeAt(life: Lifecycle, pc: CallerPc) {
    match pc
    case StartTaken => life == NEW.(hasFn := false)
    case StartSpawned => life == NEW.(hasFn := false)
    case StartHandled => life == RUNNING.(started := false)
    case StartMarked => life == RUNNING
    case StartRefused => Settled(life) && !life.hasFn
    case StopCancelled => life == RUNNING.(cancelled := true)
    case StopCleared => life == STOPPED.(hasHandle := true)
    case StopTook => life == STOPPED
    case StopNothing => Settled(life) && !life.hasHandle
    case _ => Settled(life)
  }

  ghost predicate AfterDrop(life: Lifecycle) {
    life == NEW || life == STOPPED || life == RUNNING.(cancelled := true)
  }

  /** The lifecycle, by who holds the lock. */
  ghost predicate HolderInv(w: World) {
    match w.lock
    case None => if w.dropped then AfterDrop(w.life) else Settled(w.life)
    case Some(i) => !w.dropped && i < |w.callers| && w.callers[i].Locks() && LifeAt(w.life, w.callers[i].pc)
  }

  ghost predicate CallerInv(w: World, i: nat)
    requires i < |w.callers|
  {
    && w.callers[i].OnCourse()
    && (w.callers[i].Locks() ==> w.lock == Some(i))
    && (w.callers[i].Took() ==> w.owner == Some(i))
  }

  ghost predicate CallersInv(w: World) {
    forall i :: 0 <= i < |w.callers| ==> CallerInv(w, i)
  }

  ghost predicate OwnerInv(w: World) {
    && (w.life.hasFn <==> w.owner.None?)
    && !w.bornCancelled
    && (w.loop.NotSpawned? <==> w.life.hasFn || (exists i :: w.lock == Some(i) && i < |w.callers| && w.callers[i].pc.StartTaken?))
  }

  ghost predicate LifeInv(w: World) {
    HolderInv(w) && CallersInv(w) && OwnerInv(w)
  }

  lemma {:induction false} CallerLife(life: Lifecycle, loop: Loop, c: Caller)
    requires c.OnCourse() && LifeAt(life, c.pc)
    ensures var pc := NextPc(life, loop, c);
            if c.(pc := pc).Locks() then LifeAt(NextLife(life, c.pc), pc) else Settled(NextLife(life, c.pc))
  {
  }

  /** Every caller that can go on but a waiting stop has the lifecycle that its position promises. */
  lemma {:induction false} LifeOfCaller(w: World, i: nat)
    requires LifeInv(w) && Enabled(w, CallerStep(i)) && !w.callers[i].pc.Awaiting?
    ensures w.callers[i].OnCourse() && LifeAt(w.life, w.callers[i].pc)
  {
    assert CallerInv(w, i);
    hide OwnerInv, CallersInv, Settled, Caller.Took;
  }

  lemma {:induction false} HolderMoves(w: World, i: nat)
    requires HolderInv(w) && Enabled(w, CallerStep(i)) && !w.callers[i].pc.Awaiting?
    requires w.callers[i].Locks() ==> w.lock == Some(i)
    requires var c := w.callers[i];
             var pc := NextPc(w.life, w.loop, c);
             if c.(pc := pc).Locks() then LifeAt(NextLife(w.life, c.pc), pc) else Settled(NextLife(w.life, c.pc))
    ensures HolderInv(Apply(w, CallerStep(i)))
  {
    hide LifeAt, Settled, NextLife;
  }

  lemma {:induction false} CallerHolder(w: World, i: nat)
    requires LifeInv(w) && Enabled(w, CallerStep(i))
    ensures HolderInv(Apply(w, CallerStep(i)))
  {
    assert CallerInv(w, i);
    hide OwnerInv, CallersInv, LifeAt, Settled;
    if !w.callers[i].pc.Awaiting? {
      hide Enabled, HolderInv, CallerEffect, Apply, NextLife, NextPc, Caller.Took;
      LifeOfCaller(w, i);
      CallerLife(w.life, w.loop, w.callers[i]);
      HolderMoves(w, i);
    }
  }

  lemma {:induction false} CallerSelf(w: World, i: nat)
    requires LifeInv(w) && Enabled(w, CallerStep(i))
    ensures CallerInv(Apply(w, CallerStep(i)), i)
  {
    assert CallerInv(w, i);
    hide OwnerInv, LifeAt, CallersInv, HolderInv;
  }

  /** A caller takes the lock only when it is free, and the function only when nobody has. */
  lemma {:induction false} CallerOther(w: World, i: nat, j: nat)
    requires LifeInv(w) && Enabled(w, CallerStep(i)) && j < |w.callers| && j != i
    ensures CallerInv(Apply(w, CallerStep(i)), j)
  {
    assert CallerInv(w, i) && CallerInv(w, j);
    hide LifeAt, CallersInv, HolderInv, NextPc, Caller.OnCourse;
  }

  lemma {:induction false} CallerOthers(w: World, i: nat)
    requires LifeInv(w) && Enabled(w, CallerStep(i))
    ensures CallersInv(Apply(w, CallerStep(i)))
  {
    hide LifeInv, CallerInv, NextPc, CallerEffect;
    SameCallers(w, i);
    forall j | 0 <= j < |w.callers| ensures CallerInv(Apply(w, CallerStep(i)), j) {
      if j == i {
        CallerSelf(w, i);
      } else {
        CallerOther(w, i, j);
      }
    }
  }

  lemma {:induction false} SameCallers(w: World, i: nat)
    ensures |Apply(w, CallerStep(i)).callers| == |w.callers|
  {
    hide NextPc, CallerEffect;
  }

  lemma {:induction false} CallerOwner(w: World, i: nat)
    requires LifeInv(w) && Enabled(w, CallerStep(i))
    ensures OwnerInv(Apply(w, CallerStep(i)))
  {
    assert CallerInv(w, i);
    hide CallersInv;
  }

  lemma {:induction false} LifeStep(w: World, e: Event)
    requires LifeInv(w)
    ensures LifeInv(Apply(w, e))
  {
    hide HolderInv, CallersInv, OwnerInv, Enabled, CallerEffect, NextPc;
    if e.CallerStep? {
      if Enabled(w, e) {
        CallerHolder(w, e.i);
        CallerOthers(w, e.i);
        CallerOwner(w, e.i);
      }
    } else {
      OtherHolder(w, e);
      OtherCallers(w, e);
      OtherOwner(w, e);
    }
  }

  lemma {:induction false} OtherHolder(w: World, e: Event)
    requires LifeInv(w) && !e.CallerStep?
    ensures HolderInv(Apply(w, e))
  {
    hide SleepTime, CallerEffect, NextPc, CallersInv, OwnerInv, Caller.OnCourse, Caller.Took;
  }

  lemma {:induction false} OtherOwner(w: World, e: Event)
    requires LifeInv(w) && !e.CallerStep?
    ensures OwnerInv(Apply(w, e))
  {
    hide SleepTime, CallerEffect, NextPc, CallersInv, HolderInv, Caller.OnCourse, Caller.Took;
  }

  lemma {:induction false} OtherCallers(w: World, e: Event)
    requires LifeInv(w) && !e.CallerStep?
    ensures CallersInv(Apply(w, e))
  {
    hide SleepTime, CallerEffect, NextPc, HolderInv, OwnerInv;
    var w' := Apply(w, e);
    forall j | 0 <= j < |w'.callers| ensures CallerInv(w', j) {
      assert CallerInv(w, j);
    }
  }

  lemma {:induction false} LifeExec(w: World, events: seq<Event>)
    requires Initial(w)
    ensures LifeInv(Exec(w, events))
  {
    if events != [] {
      LifeExec(w, events[..|events| - 1]);
      hide LifeInv, Apply;
      LifeStep(Exec(w, events[..|events| - 1]), events[|events| - 1]);
    }
  }

  /** Whenever the lock is free, the task is new, running or stopped; at most one start ever takes
      the function; and no start hands the loop a token that is cancelled already. */
  lemma {:induction false} LifecycleLaw(w: World, events: seq<Event>)
    requires Initial(w)
    ensures var now := Exec(w, events);
            && (now.lock.None? && !now.dropped ==> Settled(now.life))
            && (forall i, j :: 0 <= i < |now.callers| && 0 <= j < |now.callers| && now.callers[i].Took() && now.callers[j].Took() ==> i == j)
            && !now.bornCancelled
  {
    LifeExec(w, events);
    var now := Exec(w, events);
    hide Caller.OnCourse, Caller.Took, Exec;
    forall i, j | 0 <= i < |now.callers| && 0 <= j < |now.callers| && now.callers[i].Took() && now.callers[j].Took() ensures i == j {
      assert CallerInv(now, i) && CallerInv(now, j);
    }
  }

  // ---------- the loop ----------

  /** How long after the loop was spawned its n-th call may begin. */
  function Due(config: Config, n: nat): nat {
    if n == 0 then 0
    else if n == 1 then (match config.initialDelay case Some(d) => d case None => config.interval)
    else Due(config, n - 1) + config.interval
  }

  lemma {:induction false} DueClosedForm(config: Config, n: nat)
    requires n >= 1
    ensures Due(config, n) == (match config.initialDelay case Some(d) => d case None => config.interval) + (n - 1) * config.interval
  {
    if n > 1 {
      DueClosedForm(config, n - 1);
    }
  }

  /** What a caller's step can do to the loop: spawn it once, and cancel its token once it runs. */
  lemma {:induction false} CallerFrame(w: World, i: nat)
    requires LifeInv(w) && Enabled(w, CallerStep(i))
    ensures var w' := Apply(w, CallerStep(i));
            && w'.now == w.now && w'.config == w.config
            && w'.calls == w.calls && w'.callsAfter == w.callsAfter && w'.surprises == w.surprises
            && (if w.callers[i].pc.StartTaken?
                then w.loop.NotSpawned? && w'.loop.Top? && w'.initial == w.config.initialDelay && w'.loopStart == w.now && w'.life == w.life
                else w'.loop == w.loop && w'.initial == w.initial && w'.loopStart == w.loopStart)
            && (w.life.cancelled ==> w'.life.cancelled)
            && (w.life.cancelled || w'.life.cancelled ==> !w.loop.NotSpawned?)
            && w'.callers == w.callers[i := w.callers[i].(pc := NextPc(w.life, w.loop, w.callers[i]))]
  {
    assert CallerInv(w, i);
    hide CallersInv, Settled;
  }

  lemma {:induction false} DueStep(w: World)
    requires PaceInv(w) && w.loop.Top?
    ensures Due(w.config, w.calls + 1) <= Due(w.config, w.calls) + SleepTime(w)
  {
  }

  ghost predicate PaceInv(w: World) {
    && (!w.loop.NotSpawned? ==> w.loopStart + Due(w.config, w.calls) <= w.now)
    && match w.loop
       case NotSpawned => w.calls == 0
       case Top => if w.calls == 0 then w.initial == w.config.initialDelay else w.initial == None
       case Select(deadline, _) => w.initial == None && w.loopStart + Due(w.config, w.calls + 1) <= deadline
       case Calling => w.initial == None && w.calls > 0
       case _ => true
  }

  lemma {:induction false} PaceCaller(w: World, i: nat)
    requires PaceInv(w) && LifeInv(w) && Enabled(w, CallerStep(i))
    ensures PaceInv(Apply(w, CallerStep(i)))
  {
    assert Due(w.config, 0) == 0;
    hide LifeInv, Apply, Enabled, Due;
    CallerFrame(w, i);
  }

  lemma {:induction false} PaceStep(w: World, e: Event)
    requires PaceInv(w) && LifeInv(w)
    ensures PaceInv(Apply(w, e))
  {
    if e.CallerStep? && Enabled(w, e) {
      PaceCaller(w, e.i);
    } else {
      hide LifeInv, CallerEffect, NextPc, Due;
      if w.loop.Top? {
        DueStep(w);
      }
    }
  }

  /** Without an interval the loop never selects again after its first call. */
  ghost predicate ZeroInv(w: World) {
    w.config.interval == 0 && w.calls > 0 ==> w.loop.Top? || w.loop.Calling? || w.loop.Died?
  }

  lemma {:induction false} ZeroStep(w: World, e: Event)
    requires ZeroInv(w) && PaceInv(w) && LifeInv(w)
    ensures ZeroInv(Apply(w, e))
  {
    if e.CallerStep? && Enabled(w, e) {
      hide LifeInv, Apply, Enabled, Due;
      CallerFrame(w, e.i);
    } else {
      hide LifeInv, CallerEffect, NextPc, Due;
    }
  }

  /** Can the loop begin a call without looking at the token first, or from a sleep that was
      pending when the token was cancelled? */
  function Allowance(w: World): nat {
    match w.loop
    case Top => if SleepTime(w) == 0 then 1 else 0
    case Select(_, polled) => if polled then 1 else 0
    case _ => 0
  }

  ghost predicate CancelInv(w: World) {
    && (!w.life.cancelled ==> w.callsAfter == 0 && w.surprises == 0)
    && (w.config.interval > 0 && w.life.cancelled ==> w.callsAfter + Allowance(w) <= 1 + w.surprises)
    && (w.loop.Exited? ==> w.life.cancelled)
  }

  lemma {:induction false} CancelStep(w: World, e: Event)
    requires CancelInv(w) && PaceInv(w) && LifeInv(w)
    ensures CancelInv(Apply(w, e))
  {
    if e.CallerStep? && Enabled(w, e) {
      hide LifeInv, Apply, Enabled, Due;
      CallerFrame(w, e.i);
    } else {
      hide LifeInv, CallerEffect, NextPc, Due;
    }
  }

  /** An awaited stop tells how the loop ended. */
  ghost predicate AwaitInv(w: World) {
    forall i :: 0 <= i < |w.callers| && w.callers[i].pc.Returned? && w.callers[i].pc.awaited ==>
      if w.callers[i].pc.ok then w.loop.Exited? else w.loop.Died?
  }

  lemma {:induction false} AwaitStep(w: World, e: Event)
    requires AwaitInv(w) && LifeInv(w)
    ensures AwaitInv(Apply(w, e))
  {
    if e.CallerStep? && Enabled(w, e) {
      hide LifeInv, Apply, CallerEffect;
      CallerFrame(w, e.i);
    } else {
      hide LifeInv, CallerEffect, NextPc;
    }
  }

  /** A stop waits for a loop that was spawned and cancelled. */
  ghost predicate WaitInv(w: World) {
    forall i :: 0 <= i < |w.callers| && w.callers[i].pc.Awaiting? ==> w.life.cancelled
  }

  lemma {:induction false} WaitStep(w: World, e: Event)
    requires WaitInv(w) && LifeInv(w)
    ensures WaitInv(Apply(w, e))
  {
    if e.CallerStep? && Enabled(w, e) {
      assert w.callers[e.i].pc.StopTook? ==> w.life.cancelled by {
        assert CallerInv(w, e.i);
      }
      hide LifeInv, Apply, CallerEffect;
      CallerFrame(w, e.i);
    } else {
      hide LifeInv, CallerEffect, NextPc;
    }
  }

  /** What holds in every reachable state. */
  ghost predicate Reached(w: World) {
    LifeInv(w) && PaceInv(w) && ZeroInv(w) && CancelInv(w) && AwaitInv(w) && WaitInv(w)
  }

  lemma {:induction false} ReachedStep(w: World, e: Event)
    requires Reached(w)
    ensures Reached(Apply(w, e)) && Apply(w, e).config == w.config
  {
    hide Apply, PaceInv, ZeroInv, CancelInv, AwaitInv, WaitInv, LifeInv;
    SameConfig(w, e);
    LifeStep(w, e);
    PaceStep(w, e);
    ZeroStep(w, e);
    CancelStep(w, e);
    AwaitStep(w, e);
    WaitStep(w, e);
  }

  lemma {:induction false} ReachedExec(w: World, events: seq<Event>)
    requires Reached(w)
    ensures Reached(Exec(w, events)) && Exec(w, events).config == w.config
  {
    if events != [] {
      hide Apply, Reached;
      ReachedExec(w, events[..|events| - 1]);
      ReachedStep(Exec(w, events[..|events| - 1]), events[|events| - 1]);
    }
  }

  lemma {:induction false} InitialReached(w: World)
    requires Initial(w)
    ensures Reached(w)
  {
  }

  lemma {:induction false} LoopExec(w: World, events: seq<Event>)
    requires Initial(w)
    ensures Reached(Exec(w, events)) && Exec(w, events).config == w.config
  {
    InitialReached(w);
    ReachedExec(w, events);
  }

  lemma {:induction false} SameConfig(w: World, e: Event)
    ensures Apply(w, e).config == w.config
  {
  }

  /** Pacing: if n calls have begun, the loop has run for at least the first delay and n - 1
      intervals, however long the calls took and whatever they returned. */
  lemma {:induction false} Pacing(w: World, events: seq<Event>)
    requires Initial(w)
    ensures var now := Exec(w, events);
            var first := match w.config.initialDelay case Some(d) => d case None => w.config.interval;
            now.calls >= 1 ==> now.loopStart + first + (now.calls - 1) * w.config.interval <= now.now
  {
    LoopExec(w, events);
    var now := Exec(w, events);
    if now.calls >= 1 {
      DueClosedForm(w.config, now.calls);
    }
  }

  /** With an interval, at most one call begins after the cancellation, not counting those whose
      sleep was ready the first time it was polled. */
  lemma {:induction false} OneMoreCall(w: World, events: seq<Event>)
    requires Initial(w) && w.config.interval > 0
    ensures var now := Exec(w, events); now.callsAfter <= 1 + now.surprises
  {
    LoopExec(w, events);
  }

  /** Without an interval, once the first call has begun, the loop never takes the cancel branch
      again, and no stop that waits for it returns Ok. */
  lemma {:induction false} ZeroIntervalNeverStops(w: World, events: seq<Event>, i: nat)
    requires Initial(w) && w.config.interval == 0
    ensures var now := Exec(w, events);
            now.calls > 0 ==>
              && !Enabled(now, CancelWins) && !now.loop.Exited?
              && (i < |now.callers| ==> now.callers[i].pc != Returned(true, true))
  {
    LoopExec(w, events);
  }

  lemma {:induction false} ExitedStays(w: World, events: seq<Event>)
    requires LifeInv(w) && w.loop.Exited?
    ensures var now := Exec(w, events); LifeInv(now) && now.loop.Exited? && now.calls == w.calls
  {
    if events != [] {
      hide LifeInv;
      ExitedStays(w, events[..|events| - 1]);
      var before := Exec(w, events[..|events| - 1]);
      LifeStep(before, events[|events| - 1]);
      NotRespawned(before, events[|events| - 1]);
    }
  }

  lemma {:induction false} NotRespawned(w: World, e: Event)
    requires LifeInv(w) && w.loop.Exited?
    ensures Apply(w, e).loop.Exited? && Apply(w, e).calls == w.calls
  {
    if e.CallerStep? && Enabled(w, e) {
      hide LifeInv, Apply, CallerEffect;
      CallerFrame(w, e.i);
    } else {
      hide LifeInv, CallerEffect, NextPc;
    }
  }

  /** Quiescence: once the stop that took the handle has returned Ok, the task function is never
      called again, whatever happens afterwards. */
  lemma {:induction false} Quiescence(w: World, events: seq<Event>, i: nat, more: seq<Event>)
    requires Initial(w)
    requires i < |Exec(w, events).callers| && Exec(w, events).callers[i].pc == Returned(true, true)
    ensures Exec(Exec(w, events), more).calls == Exec(w, events).calls
    ensures Exec(Exec(w, events), more).loop.Exited?
  {
    LoopExec(w, events);
    LifeExec(w, events);
    ExitedStays(Exec(w, events), more);
  }

  // ---------- when a call can follow, and when a waiting stop can return Ok ----------

  lemma {:induction false} ExecCons(w: World, e: Event, rest: seq<Event>)
    ensures Exec(w, [e] + rest) == Exec(Apply(w, e), rest)
  {
    hide Apply;
    if rest == [] {
      assert [e] + rest == [e];
      assert [e][..0] == [];
    } else {
      ExecCons(w, e, rest[..|rest| - 1]);
      assert ([e] + rest)[..|rest|] == [e] + rest[..|rest| - 1];
    }
  }

  predicate Live(loop: Loop) { loop.Top? || loop.Select? || loop.Calling? }

  /** A start that has not given up and has not spawned the loop. */
  predicate Startable(w: World, i: nat) {
    i < |w.callers| && w.callers[i].start &&
    match w.callers[i].pc
    case Idle => !w.dropped
    case StartLocked => true
    case StartTaken => true
    case _ => false
  }

  /** The loop lives, or some start can still spawn it. */
  ghost predicate CallPossible(w: World) {
    Live(w.loop) || (w.loop.NotSpawned? && exists i :: Startable(w, i))
  }

  /** How far the next call is away, on the shortest way. */
  function Distance(w: World): nat {
    match w.loop
    case Select(deadline, _) => if deadline <= w.now then 0 else 1
    case Top => 2
    case Calling => 3
    case _ =>
      match w.lock
      case None => 6
      case Some(j) =>
        if j >= |w.callers| then 9
        else
          match w.callers[j].pc
          case StartTaken => 4
          case StartLocked => 5
          case StopNothing => 7
          case _ => 8
  }

  lemma {:induction false} TowardsSpawn(w: World) returns (j: nat)
    requires LifeInv(w) && w.loop.NotSpawned? && exists i :: Startable(w, i)
    ensures var w' := Apply(w, CallerStep(j));
            w'.calls == w.calls && CallPossible(w') && Distance(w') < Distance(w)
  {
    var i: nat :| Startable(w, i);
    assert CallerInv(w, i);
    j := if w.lock.None? then i else w.lock.value;
    assert CallerInv(w, j);
    var w' := Apply(w, CallerStep(j));
    hide CallersInv;
    assert Live(w'.loop) || Startable(w', i) || Startable(w', j);
  }

  /** One event that begins a call, or brings one nearer. */
  lemma {:induction false} TowardsCall(w: World) returns (e: Event)
    requires LifeInv(w) && CallPossible(w)
    ensures var w' := Apply(w, e);
            w'.calls > w.calls || (w'.calls == w.calls && CallPossible(w') && Distance(w') < Distance(w))
  {
    match w.loop {
      case Select(deadline, _) =>
        hide LifeInv;
        e := if deadline <= w.now then SleepWins else Tick(deadline - w.now);
      case Top =>
        hide LifeInv;
        e := LoopHead;
      case Calling =>
        hide LifeInv;
        e := CallReturns;
      case _ =>
        hide Apply, LifeInv;
        var j := TowardsSpawn(w);
        e := CallerStep(j);
    }
  }

  lemma {:induction false} CallFollows(w: World) returns (more: seq<Event>)
    requires LifeInv(w) && CallPossible(w)
    ensures Exec(w, more).calls > w.calls
    decreases Distance(w)
  {
    var e := TowardsCall(w);
    var rest := [];
    if Apply(w, e).calls == w.calls {
      LifeStep(w, e);
      hide LifeInv, CallPossible, Apply, Distance;
      rest := CallFollows(Apply(w, e));
    }
    more := [e] + rest;
    ExecCons(w, e, rest);
  }

  lemma {:induction false} NoStartLeft(w: World, i: nat, k: nat)
    requires LifeInv(w) && Enabled(w, CallerStep(i)) && !Startable(w, k) && !Startable(w, i)
    ensures !Startable(Apply(w, CallerStep(i)), k)
  {
    assert CallerInv(w, i);
    assert Apply(w, CallerStep(i)).dropped == w.dropped;
    hide LifeInv, CallerEffect;
  }

  lemma {:induction false} QuietCaller(w: World, i: nat)
    requires LifeInv(w) && !CallPossible(w) && Enabled(w, CallerStep(i))
    ensures !CallPossible(Apply(w, CallerStep(i))) && Apply(w, CallerStep(i)).calls == w.calls
  {
    var w' := Apply(w, CallerStep(i));
    assert w.callers[i].OnCourse() by {
      assert CallerInv(w, i);
    }
    CallerFrame(w, i);
    hide LifeInv, CallerEffect, NextPc, Apply;
    assert !Startable(w, i) || !w.loop.NotSpawned?;
    if w'.loop.NotSpawned? {
      forall k | 0 <= k < |w'.callers| ensures !Startable(w', k) {
        assert !Startable(w, k);
        NoStartLeft(w, i, k);
      }
    }
  }

  lemma {:induction false} QuietStep(w: World, e: Event)
    requires LifeInv(w) && !CallPossible(w)
    ensures !CallPossible(Apply(w, e)) && Apply(w, e).calls == w.calls
  {
    if e.CallerStep? && Enabled(w, e) {
      QuietCaller(w, e.i);
    } else {
      hide LifeInv, CallerEffect, NextPc;
      assert forall k :: Startable(Apply(w, e), k) ==> Startable(w, k);
    }
  }

  lemma {:induction false} QuietStays(w: World, more: seq<Event>)
    requires LifeInv(w) && !CallPossible(w)
    ensures LifeInv(Exec(w, more)) && !CallPossible(Exec(w, more)) && Exec(w, more).calls == w.calls
  {
    if more != [] {
      hide LifeInv, CallPossible, Apply;
      QuietStays(w, more[..|more| - 1]);
      var before, e := Exec(w, more[..|more| - 1]), more[|more| - 1];
      LifeStep(before, e);
      QuietStep(before, e);
    }
  }

  /** In every reachable state, also after any stop has returned Ok: some run goes on to call the
      task again exactly when the loop lives or a start can still spawn it. */
  lemma {:induction false} CallsAgainExactly(w: World, events: seq<Event>)
    requires Initial(w)
    ensures var now := Exec(w, events);
            (exists more :: Exec(now, more).calls > now.calls) <==> CallPossible(now)
  {
    LifeExec(w, events);
    var now := Exec(w, events);
    hide LifeInv, CallPossible, Exec;
    if CallPossible(now) {
      var more := CallFollows(now);
      assert Exec(now, more).calls > now.calls;
    } else {
      forall more ensures Exec(now, more).calls == now.calls {
        QuietStays(now, more);
      }
    }
  }

  /** The loop has seen the cancellation, or will look at the token before it can only call on. */
  predicate CanExit(w: World) {
    match w.loop
    case Exited => true
    case Select(_, _) => true
    case Top => w.config.interval > 0 || SleepTime(w) > 0
    case Calling => w.config.interval > 0
    case _ => false
  }

  function ExitDistance(w: World): nat {
    match w.loop
    case Exited => 0
    case Select(_, _) => 1
    case Top => if SleepTime(w) > 0 then 2 else 4
    case _ => 3
  }

  /** One event of a cancelled loop on its way out. */
  lemma {:induction false} TowardsExit(w: World) returns (e: Event)
    requires PaceInv(w) && w.life.cancelled && CanExit(w) && !w.loop.Exited?
    ensures var w' := Apply(w, e);
            CanExit(w') && ExitDistance(w') < ExitDistance(w) && w'.callers == w.callers
  {
    hide Due;
    e := match w.loop case Select(_, _) => CancelWins case Top => LoopHead case _ => CallReturns;
  }

  lemma {:induction false} StopReturns(w: World, i: nat) returns (more: seq<Event>)
    requires Reached(w) && CanExit(w) && i < |w.callers| && w.callers[i].pc.Awaiting?
    ensures var end := Exec(w, more);
            i < |end.callers| && end.callers[i].pc == Returned(true, true)
    decreases ExitDistance(w)
  {
    if w.loop.Exited? {
      hide Reached;
      more := Stay(w);
      more := Go(w, more, CallerStep(i), Apply(w, CallerStep(i)));
    } else {
      assert PaceInv(w) && w.life.cancelled by {
        assert WaitInv(w);
      }
      hide PaceInv;
      var e := TowardsExit(w);
      ReachedStep(w, e);
      hide Reached, CanExit, Apply, ExitDistance;
      var rest := StopReturns(Apply(w, e), i);
      more := [e] + rest;
      ExecCons(w, e, rest);
    }
  }

  /** A loop that will never look at its token again. */
  ghost predicate Stuck(w: World) {
    Reached(w) && !w.loop.NotSpawned? && !CanExit(w)
  }

  lemma {:induction false} StuckStep(w: World, e: Event)
    requires Stuck(w)
    ensures Stuck(Apply(w, e))
  {
    ReachedStep(w, e);
    assert LifeInv(w) && PaceInv(w);
    hide Reached, Due, LifeInv;
    if e.CallerStep? && Enabled(w, e) {
      hide Apply, PaceInv;
      CallerFrame(w, e.i);
    } else {
      hide CallerEffect, NextPc;
    }
  }

  lemma {:induction false} StuckStays(w: World, more: seq<Event>)
    requires Stuck(w)
    ensures Stuck(Exec(w, more))
  {
    if more != [] {
      hide Stuck, Apply;
      StuckStays(w, more[..|more| - 1]);
      StuckStep(Exec(w, more[..|more| - 1]), more[|more| - 1]);
    }
  }

  lemma {:induction false} WaitedForSpawned(w: World, i: nat)
    requires Reached(w) && i < |w.callers| && w.callers[i].pc.Awaiting?
    ensures !w.loop.NotSpawned?
  {
    assert CallerInv(w, i);
    hide PaceInv, ZeroInv, AwaitInv, CancelInv;
  }

  /** A stop that waits, in any reachable state: some run lets it return Ok exactly when the loop
      has exited or still gets to look at its token. With an interval that is whenever the loop has
      not died; without one, only before the first call, while a first delay is left. */
  lemma {:induction false} WaitingStopExactly(w: World, events: seq<Event>, i: nat)
    requires Initial(w)
    requires i < |Exec(w, events).callers| && Exec(w, events).callers[i].pc.Awaiting?
    ensures var now := Exec(w, events);
            && (CanExit(now) <==>
                  exists more :: i < |Exec(now, more).callers| && Exec(now, more).callers[i].pc == Returned(true, true))
            && (w.config.interval > 0 ==> (CanExit(now) <==> !now.loop.Died?))
            && (w.config.interval == 0 && CanExit(now) ==> now.calls == 0)
  {
    LoopExec(w, events);
    var now := Exec(w, events);
    WaitedForSpawned(now, i);
    assert ZeroInv(now) && PaceInv(now);
    hide Exec, Reached, LifeInv, Due;
    if CanExit(now) {
      var more := StopReturns(now, i);
      assert i < |Exec(now, more).callers| && Exec(now, more).callers[i].pc == Returned(true, true);
    } else {
      forall more | i < |Exec(now, more).callers| ensures Exec(now, more).callers[i].pc != Returned(true, true) {
        StuckStays(now, more);
        NotReturned(Exec(now, more), i);
      }
    }
  }

  lemma {:induction false} NotReturned(w: World, i: nat)
    requires Stuck(w) && i < |w.callers|
    ensures w.callers[i].pc != Returned(true, true)
  {
    assert AwaitInv(w);
    hide LifeInv, PaceInv, ZeroInv, CancelInv, WaitInv;
  }

  // ---------- calls without interference: the object's methods ----------

  function Moved(w: World, i: nat, pc: CallerPc): World
    requires i < |w.callers|
  {
    w.(callers := w.callers[i := w.callers[i].(pc := pc)])
  }

  lemma {:induction false} MovedStep(w: World, i: nat, pc: CallerPc)
    requires i < |w.callers| && Enabled(Moved(w, i, pc), CallerStep(i))
    ensures Apply(Moved(w, i, pc), CallerStep(i))
         == Moved(CallerEffect(w, i, pc), i, NextPc(w.life, w.loop, w.callers[i].(pc := pc)))
  {
    hide NextPc;
    var c := w.callers[i];
    forall pc' ensures w.callers[i := c.(pc := pc)][i := c.(pc := pc')] == w.callers[i := c.(pc := pc')] {
    }
  }

  /** One more step of a caller that nobody interferes with. */
  lemma {:induction false} OwnStep(w: World, events: seq<Event>, i: nat, u: World, pc: CallerPc) returns (more: seq<Event>)
    requires i < |u.callers| && Exec(w, events) == Moved(u, i, pc) && Enabled(Moved(u, i, pc), CallerStep(i))
    requires forall e :: e in events ==> e == CallerStep(i)
    ensures Exec(w, more) == Moved(CallerEffect(u, i, pc), i, NextPc(u.life, u.loop, u.callers[i].(pc := pc)))
    ensures forall e :: e in more ==> e == CallerStep(i)
  {
    hide Apply, NextPc, Enabled, CallerEffect, Moved;
    MovedStep(u, i, pc);
    more := events + [CallerStep(i)];
    assert more[..|events|] == events;
  }

  lemma {:induction false} NotMovedYet(w: World, i: nat)
    requires i < |w.callers|
    ensures Exec(w, []) == Moved(w, i, w.callers[i].pc)
  {
    assert w.callers[i := w.callers[i]] == w.callers;
  }

  /** What a start that nobody interferes with makes of the world: what the method `Start` makes of
      the object, and the loop. */
  function StartEffect(w: World, i: nat): World {
    if w.life == NEW then
      w.(life := AfterStart(w.life), owner := Some(i), bornCancelled := false,
         loop := Top, initial := w.config.initialDelay, loopStart := w.now)
    else w
  }

  lemma {:induction false} StartAlone(w: World, i: nat) returns (events: seq<Event>)
    requires Settled(w.life) && w.lock.None? && !w.dropped && i < |w.callers| && w.callers[i] == Caller(true, Idle)
    ensures forall e :: e in events ==> e == CallerStep(i)
    ensures Exec(w, events) == Moved(StartEffect(w, i), i, Returned(w.life == NEW, false))
    ensures StartEffect(w, i).life == AfterStart(w.life)
  {
    hide Exec;
    events := [];
    NotMovedYet(w, i);
    events := OwnStep(w, events, i, w, Idle);
    var u := w.(lock := Some(i));
    events := OwnStep(w, events, i, u, StartLocked);
    if w.life == NEW {
      u := u.(life := NEW.(hasFn := false), owner := Some(i), bornCancelled := false);
      events := OwnStep(w, events, i, u, StartTaken);
      u := u.(loop := Top, initial := w.config.initialDelay, loopStart := w.now);
      events := OwnStep(w, events, i, u, StartSpawned);
      events := OwnStep(w, events, i, u.(life := RUNNING.(started := false)), StartHandled);
      events := OwnStep(w, events, i, u.(life := RUNNING), StartMarked);
    } else {
      events := OwnStep(w, events, i, u, StartRefused);
    }
  }

  /** A stop that nobody interferes with, up to the wait for the handle that `StopLocked` gives out. */
  lemma {:induction false} StopAlone(w: World, i: nat) returns (events: seq<Event>)
    requires Settled(w.life) && w.lock.None? && !w.dropped && i < |w.callers| && w.callers[i] == Caller(false, Idle)
    ensures forall e :: e in events ==> e == CallerStep(i)
    ensures Exec(w, events)
         == Moved(w.(life := AfterStop(w.life)), i, if w.life == RUNNING then Awaiting else Returned(true, false))
  {
    hide Exec;
    events := [];
    NotMovedYet(w, i);
    events := OwnStep(w, events, i, w, Idle);
    var u := w.(lock := Some(i));
    events := OwnStep(w, events, i, u, StopLocked);
    if w.life == RUNNING {
      events := OwnStep(w, events, i, u.(life := RUNNING.(cancelled := true)), StopCancelled);
      events := OwnStep(w, events, i, u.(life := STOPPED.(hasHandle := true)), StopCleared);
      events := OwnStep(w, events, i, u.(life := STOPPED), StopTook);
    } else {
      events := OwnStep(w, events, i, u, StopNothing);
    }
  }

  // ---------- the bound on the pace is met ----------

  /** A new task with one start. */
  function OneStart(config: Config): World {
    World(config, NEW, None, [Caller(true, Idle)], false, None, NotSpawned, None, 0, 0, false, 0, 0, 0)
  }

  /** How long the first call has to be waited for. */
  function FirstDelay(config: Config): nat {
    match config.initialDelay case Some(d) => d case None => config.interval
  }

  /** A call is running that began when the sleep before it was over and not later. */
  predicate OnTime(w: World, config: Config, n: nat) {
    && w.config == config && w.loop.Calling? && w.initial == None && w.calls == n >= 1
    && w.now == w.loopStart + FirstDelay(config) + (n - 1) * config.interval
  }

  /** From the head of the loop to the next call, with no time lost. */
  lemma {:induction false} TopToCall(w: World, events: seq<Event>) returns (more: seq<Event>)
    requires Exec(w, events).loop.Top?
    ensures var now, later := Exec(w, events), Exec(w, more);
            && later.loop.Calling? && later.initial == None && later.calls == now.calls + 1
            && later.now == now.now + SleepTime(now)
            && later.config == now.config && later.loopStart == now.loopStart
  {
    hide Exec;
    var now := Exec(w, events);
    more := Go(w, events, LoopHead, Apply(now, LoopHead));
    var asleep := Exec(w, more);
    if SleepTime(now) > 0 {
      more := Go(w, more, Tick(SleepTime(now)), Apply(asleep, Tick(SleepTime(now))));
      more := Go(w, more, SleepWins, Apply(Exec(w, more), SleepWins));
    }
  }

  /** The pace is exact: for every configuration and every n there is a run from a new task in which
      n calls have begun exactly when the first delay and n - 1 intervals have passed. */
  lemma {:induction false} PacingMet(config: Config, n: nat) returns (events: seq<Event>)
    requires n >= 1
    ensures Initial(OneStart(config)) && OnTime(Exec(OneStart(config), events), config, n)
  {
    var w := OneStart(config);
    if n == 1 {
      events := StartAlone(w, 0);
      events := TopToCall(w, events);
    } else {
      events := PacingMet(config, n - 1);
      hide Exec;
      var now := Exec(w, events);
      events := Go(w, events, CallReturns, Apply(now, CallReturns));
      events := TopToCall(w, events);
      assert (n - 2) * config.interval + config.interval == (n - 1) * config.interval;
    }
  }

  // ---------- a stop that does not wait ----------

  function Three(p0: CallerPc, p1: CallerPc, p2: CallerPc): seq<Caller> {
    [Caller(true, p0), Caller(false, p1), Caller(false, p2)]
  }

  lemma {:induction false} Stay(w: World) returns (events: seq<Event>)
    ensures Exec(w, events) == w
  {
    events := [];
  }

  /** One more step of a concrete run. */
  lemma {:induction false} Go(w: World, events: seq<Event>, e: Event, next: World) returns (more: seq<Event>)
    requires Apply(Exec(w, events), e) == next
    ensures Exec(w, more) == next
  {
    more := events + [e];
    assert more[..|events|] == events;
  }

  /** A new task with an interval of one nanosecond, one start and two stops. */
  const FRESH := World(Config(1, None), NEW, None, Three(Idle, Idle, Idle), false, None, NotSpawned, None, 0, 0, false, 0, 0, 0)

  lemma {:induction false} StartedAndSleeping() returns (events: seq<Event>)
    ensures Exec(FRESH, events)
         == FRESH.(life := RUNNING, owner := Some(0), loop := Select(1, true), callers := Three(Returned(true, false), Idle, Idle))
  {
    hide Exec;
    events := Stay(FRESH);
    var w := FRESH.(lock := Some(0), callers := Three(StartLocked, Idle, Idle));
    events := Go(FRESH, events, CallerStep(0), w);
    w := w.(life := NEW.(hasFn := false), owner := Some(0), callers := Three(StartTaken, Idle, Idle));
    events := Go(FRESH, events, CallerStep(0), w);
    w := w.(loop := Top, callers := Three(StartSpawned, Idle, Idle));
    events := Go(FRESH, events, CallerStep(0), w);
    w := w.(life := RUNNING.(started := false), callers := Three(StartHandled, Idle, Idle));
    events := Go(FRESH, events, CallerStep(0), w);
    w := w.(life := RUNNING, callers := Three(StartMarked, Idle, Idle));
    events := Go(FRESH, events, CallerStep(0), w);
    w := w.(lock := None, callers := Three(Returned(true, false), Idle, Idle));
    events := Go(FRESH, events, CallerStep(0), w);
    events := Go(FRESH, events, LoopHead, w.(loop := Select(1, false)));
    events := Go(FRESH, events, PollPending, w.(loop := Select(1, true)));
  }

  lemma {:induction false} FirstStopWaits() returns (events: seq<Event>)
    ensures Exec(FRESH, events)
         == FRESH.(life := STOPPED, owner := Some(0), loop := Select(1, true), callers := Three(Returned(true, false), Awaiting, Idle))
  {
    hide Exec;
    events := StartedAndSleeping();
    var done := Returned(true, false);
    var w := FRESH.(life := RUNNING, owner := Some(0), loop := Select(1, true), lock := Some(1), callers := Three(done, StopLocked, Idle));
    events := Go(FRESH, events, CallerStep(1), w);
    w := w.(life := RUNNING.(cancelled := true), callers := Three(done, StopCancelled, Idle));
    events := Go(FRESH, events, CallerStep(1), w);
    w := w.(life := STOPPED.(hasHandle := true), callers := Three(done, StopCleared, Idle));
    events := Go(FRESH, events, CallerStep(1), w);
    w := w.(life := STOPPED, callers := Three(done, StopTook, Idle));
    events := Go(FRESH, events, CallerStep(1), w);
    w := w.(lock := None, callers := Three(done, Awaiting, Idle));
    events := Go(FRESH, events, CallerStep(1), w);
  }

  /** Ok from a stop that found no handle promises nothing: here the second of two stops returns
      while the first still waits, and a call begins after that. */
  lemma {:induction false} SecondStopReturnsEarly() returns (events: seq<Event>, more: seq<Event>)
    ensures Initial(FRESH)
    ensures Exec(FRESH, events).callers == Three(Returned(true, false), Awaiting, Returned(true, false))
    ensures Exec(FRESH, events).calls == 0 && Exec(Exec(FRESH, events), more).calls == 1
  {
    hide Exec;
    events := FirstStopWaits();
    var done := Returned(true, false);
    var w := FRESH.(life := STOPPED, owner := Some(0), loop := Select(1, true), lock := Some(2), callers := Three(done, Awaiting, StopLocked));
    events := Go(FRESH, events, CallerStep(2), w);
    w := w.(callers := Three(done, Awaiting, StopNothing));
    events := Go(FRESH, events, CallerStep(2), w);
    w := w.(lock := None, callers := Three(done, Awaiting, done));
    events := Go(FRESH, events, CallerStep(2), w);
    more := Stay(w);
    more := Go(w, more, Tick(1), w.(now := 1));
    more := Go(w, more, SleepWins, w.(now := 1, loop := Calling, calls := 1, callsAfter := 1));
  }
}
