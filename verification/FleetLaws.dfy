/**
 The laws of the modes in the fleet: whatever the other tasks, the timers and the wakes do, every
 task of every reachable fleet keeps the law of its mode and is faithful to the inner future that
 was spawned. So what the modes' laws say of a run by itself holds of every task.
 */
module FleetLaws {
  import opened Polling
  import opened Priorities
  import opened RuntimeHandle
  import opened Transparency
  import opened Wrapper
  import opened Fleet
  import ModeCount
  import ModeTime
  import ModeRateLimiter

  ghost predicate LawOf<A, R>(th: Throttle, tr: seq<Obs<A, R>>) {
    match th
    case Count(c) => ModeCount.Law(c, tr)
    case Time(c) => ModeTime.Law(c, tr)
    case Limit(c) => ModeRateLimiter.Law(c, tr)
  }

  ghost predicate Lawful<S, A, R>(f: (S, A) -> (S, Poll<R>), k: Task<S, A, R>) {
    LawOf(k.w.th, k.w.tr) && Faithful(f, k.initial, k.w.inner, k.w.tr)
  }

  lemma {:induction false} LawOfNext<A, R>(th: Throttle, tr: seq<Obs<A, R>>, t: Turn<A>, outcome: Poll<R>)
    requires LawOf(th, tr) && !Finished(tr)
    ensures LawOf(Next(th, t, outcome).0, tr + [Next(th, t, outcome).1])
  {
    hide ModeCount.Law, ModeTime.Law, ModeRateLimiter.Law, ModeCount.Next, ModeTime.Next, ModeRateLimiter.Next, Finished;
    match th {
      case Count(c) => ModeCount.LawNext(c, tr, t, outcome);
      case Time(c) => ModeTime.LawNext(c, tr, t, outcome);
      case Limit(c) => ModeRateLimiter.LawNext(c, tr, t, outcome);
    }
  }

  lemma {:induction false} SpawnLawful<S, A, R>(f: (S, A) -> (S, Poll<R>), th: Throttle, inner: S, handles: seq<Handle>, handle: nat)
    requires FreshThrottle(th, handles, handle)
    ensures Lawful(f, Task(Wrapped(th, inner, []), handle, true, 0, None, None, inner))
  {
    hide ModeCount.Law, ModeTime.Law, ModeRateLimiter.Law, Faithful;
    FaithfulNew<S, A, R>(f, inner);
    match th {
      case Count(c) => ModeCount.LawNew<A, R>(c.priority);
      case Time(c) => ModeTime.LawNew<A, R>(c.priority);
      case Limit(c) => ModeRateLimiter.LawNew<A, R>(c.limited);
    }
  }

  lemma {:induction false} PollLawful<S, A, R>(f: (S, A) -> (S, Poll<R>), k: Task<S, A, R>, t: Turn<A>, waker: nat)
    requires Lawful(f, k) && !Finished(k.w.tr)
    ensures Lawful(f, PollOf(f, k, t, waker))
  {
    hide LawOf, Faithful, Next, Finished;
    var r := f(k.w.inner, t.ambient).1;
    LawOfNext(k.w.th, k.w.tr, t, r);
    PolledAnswer(k.w.th, t, r);
    FaithfulSnoc(f, k.initial, k.w.inner, k.w.tr, Next(k.w.th, t, r).1);
  }

  lemma {:induction false} PolledAnswer<A, R>(th: Throttle, t: Turn<A>, outcome: Poll<R>)
    ensures var o := Next(th, t, outcome).1;
            o.act.Polled? ==> o.act.ambient == t.ambient && o.act.outcome == outcome
  {
    hide Next, Decide;
    NextShape(th, t, outcome);
  }

  /** Every task of every reachable fleet, in any modes and under any interleaving. */
  lemma {:induction false} TasksLawful<S, A, R>(f: (S, A) -> (S, Poll<R>), fl: Fleet<S, A, R>, steps: seq<Step<S, A>>)
    requires Initial(fl)
    ensures forall i :: 0 <= i < |Exec(f, fl, steps).tasks| ==> Lawful(f, Exec(f, fl, steps).tasks[i])
  {
    if steps != [] {
      hide Enabled, Lawful;
      TasksLawful(f, fl, steps[..|steps| - 1]);
      var before, step := Exec(f, fl, steps[..|steps| - 1]), steps[|steps| - 1];
      if Enabled(before, step) {
        StepLawful(f, before, step);
      }
    }
  }

  lemma {:induction false} StepLawful<S, A, R>(f: (S, A) -> (S, Poll<R>), fl: Fleet<S, A, R>, step: Step<S, A>)
    requires forall i :: 0 <= i < |fl.tasks| ==> Lawful(f, fl.tasks[i])
    requires Enabled(fl, step)
    ensures forall i :: 0 <= i < |Apply(f, fl, step).tasks| ==> Lawful(f, Apply(f, fl, step).tasks[i])
  {
    hide PollOf, HandleAfter, FreshThrottle, LimiterContract, Asking, LawOf, Faithful, Finished;
    match step {
      case Spawn(th, inner, handle) =>
        SpawnLawful<S, A, R>(f, th, inner, fl.handles, handle);
      case PollTask(i, t, waker, _) =>
        PollLawful(f, fl.tasks[i], t, waker);
      case TimerFires(_) =>
      case InnerWakes(_) =>
    }
  }

  /** What the law of its mode makes of a task's counters and totals. */
  ghost predicate Totals<A, R>(th: Throttle, tr: seq<Obs<A, R>>) {
    var n := TallyOf(tr);
    match th
    case Count(c) =>
      && ModeCount.SplitByCounter(c.priority, c.pendCnt, n)
      && (Finished(tr) ==> ModeCount.Completed(c.priority, c.pendCnt, n, |tr|))
      && (!Finished(tr) ==> |tr| - n.waits <= ModeCount.PollsFor(n.pended))
    case Time(c) =>
      var measured := ModeTime.Sum(Elapsed(tr));
      var lost := 0x1_0000_0000_0000_0000 * ModeTime.PlanOf(c.priority, Elapsed(tr)).wraps;
      && measured == 10 * n.extra + c.addingUp + lost
      && (!Finished(tr) && !c.priority.VeryHigh? && c.addingUp <= 10 ==> ModeTime.AtEntry(c, n, measured, lost))
      && |tr| == n.pended + (if Finished(tr) then 1 else 0) + n.backoffs + n.waits
      && n.backoffs <= n.pended
    case Limit(c) =>
      && c.pendCnt == Counter(if c.limited then n.entered + n.backoffs + n.pended else n.pended)
      && |tr| == n.pended + (if Finished(tr) then 1 else 0) + n.backoffs + n.waits
  }

  lemma {:induction false} CountTotals<A, R>(c: ModeCount.Ctl, tr: seq<Obs<A, R>>)
    requires ModeCount.Law(c, tr)
    ensures Totals(Count(c), tr)
  {
    hide TallyOf, Finished, JustInserted, ModeCount.Counts, ModeCount.SplitByCounter, ModeCount.Completed, ModeCount.PollsFor;
    var n, last := TallyOf(tr), JustInserted(tr);
    ModeCount.CountsSplit(c.priority, c, n, |tr|, Finished(tr), last);
    if Finished(tr) {
      ModeCount.CountsCompleted(c.priority, c, n, |tr|, last);
    } else {
      ModeCount.BackoffsSoFar(c, n, |tr|, last);
    }
  }

  lemma {:induction false} TimeTotals<A, R>(c: ModeTime.Ctl, tr: seq<Obs<A, R>>)
    requires ModeTime.Law(c, tr)
    ensures Totals(Time(c), tr)
  {
    hide TallyOf, Finished, JustInserted, Elapsed, ModeTime.PlanOf, ModeTime.Sum, ModeTime.SleepMs, ModeTime.Rate, Counter;
    var es := Elapsed(tr);
    ModeTime.PlanHolds(c.priority, es);
    ModeTime.PendingsMeasured(tr);
    if !Finished(tr) && !c.priority.VeryHigh? && c.addingUp <= 10 {
      ModeTime.EntryBounds(c, ModeTime.PlanOf(c.priority, es), TallyOf(tr), |tr|, JustInserted(tr), ModeTime.Sum(es), |es|);
    }
    hide ModeTime.AtEntry;
  }

  lemma {:induction false} LimitTotals<A, R>(c: ModeRateLimiter.Ctl, tr: seq<Obs<A, R>>)
    requires ModeRateLimiter.Law(c, tr)
    ensures Totals(Limit(c), tr)
  {
    hide TallyOf, Finished, Counter;
  }

  /** So the closed forms hold of every task of every reachable fleet. */
  lemma {:induction false} TasksTotals<S, A, R>(f: (S, A) -> (S, Poll<R>), fl: Fleet<S, A, R>, steps: seq<Step<S, A>>, i: nat)
    requires Initial(fl) && i < |Exec(f, fl, steps).tasks|
    ensures var k := Exec(f, fl, steps).tasks[i];
            Totals(k.w.th, k.w.tr)
  {
    hide Exec, Totals, ModeCount.Law, ModeTime.Law, ModeRateLimiter.Law, Faithful;
    TasksLawful(f, fl, steps);
    var k := Exec(f, fl, steps).tasks[i];
    match k.w.th {
      case Count(c) => CountTotals(c, k.w.tr);
      case Time(c) => TimeTotals(c, k.w.tr);
      case Limit(c) => LimitTotals(c, k.w.tr);
    }
  }
}
