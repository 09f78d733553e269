/**
 The three modes as one: a wrapper with any throttle around any inner future. Whatever the
 throttle, the wrapper is a stuttering refinement of the bare future: it only adds polls that
 do not reach the inner future, and it changes nothing that the inner future or its caller sees.
 */
module Wrapper {
  import opened Polling
  import opened Transparency
  import ModeCount
  import ModeTime
  import ModeRateLimiter

  datatype Throttle =
    | Count(count: ModeCount.Ctl)
    | Time(time: ModeTime.Ctl)
    | Limit(limit: ModeRateLimiter.Ctl)

  function PhaseOf(th: Throttle): Phase {
    match th
    case Count(c) => c.phase
    case Time(c) => c.phase
    case Limit(c) => c.phase
  }

  function Decide<A>(th: Throttle, t: Turn<A>): Gate {
    match th
    case Count(c) => ModeCount.Decide(c, t)
    case Time(c) => ModeTime.Decide(c, t)
    case Limit(c) => ModeRateLimiter.Decide(c, t)
  }

  function Next<A, R>(th: Throttle, t: Turn<A>, outcome: Poll<R>): (Throttle, Obs<A, R>) {
    match th
    case Count(c) => var (c', o) := ModeCount.Next(c, t, outcome); (Count(c'), o)
    case Time(c) => var (c', o) := ModeTime.Next(c, t, outcome); (Time(c'), o)
    case Limit(c) => var (c', o) := ModeRateLimiter.Next(c, t, outcome); (Limit(c'), o)
  }

  /** What one poll does, read off its gate: the same for every mode. */
  lemma {:induction false} NextShape<A, R>(th: Throttle, t: Turn<A>, outcome: Poll<R>)
    ensures var g := Decide(th, t);
            var (th', o) := Next(th, t, outcome);
            && PhaseOf(th') == PhaseAfter(g, PhaseOf(th), t)
            && (g.Waits? <==> PhaseOf(th).Backoff? && !t.sleepReady)
            && (g.Waits? <==> o.act.Waited?) && (g.Inserts? <==> o.act.Inserted?)
            && o.expired == (if g.Waits? then None else Expiry(PhaseOf(th)))
            && (o.act.Inserted? ==> o.act.delay == g.delay && o.act.created == t.clock.create && o.act.fired == t.freshReady)
            && (o.act.Polled? ==> o.act.ambient == t.ambient && o.act.outcome == outcome && o.act.at == t.clock.enter)
  {
  }

  // ---------- runs, wrapped and bare ----------

  datatype Wrapped<S, A, R> = Wrapped(th: Throttle, inner: S, tr: seq<Obs<A, R>>)

  /** One poll of a wrapper by an executor that drops a future once it was ready. */
  function PollOnce<S, A, R>(f: (S, A) -> (S, Poll<R>), w: Wrapped<S, A, R>, t: Turn<A>): Wrapped<S, A, R> {
    if Finished(w.tr) then w
    else
      var (s, r) := f(w.inner, t.ambient);
      var (th, o) := Next(w.th, t, r);
      Wrapped(th, if o.act.Polled? then s else w.inner, w.tr + [o])
  }

  function Run<S, A, R>(f: (S, A) -> (S, Poll<R>), th: Throttle, s: S, turns: seq<Turn<A>>): Wrapped<S, A, R> {
    if turns == [] then Wrapped(th, s, [])
    else PollOnce(f, Run(f, th, s, turns[..|turns| - 1]), turns[|turns| - 1])
  }

  /** For every inner future, every throttle and every schedule. */
  lemma {:induction false} Transparent<S, A, R>(f: (S, A) -> (S, Poll<R>), th: Throttle, s: S, turns: seq<Turn<A>>)
    ensures Faithful(f, s, Run(f, th, s, turns).inner, Run(f, th, s, turns).tr)
  {
    hide Next, Decide, Faithful;
    if turns == [] {
      FaithfulNew<S, A, R>(f, s);
    } else {
      var before := turns[..|turns| - 1];
      Transparent(f, th, s, before);
      var w := Run(f, th, s, before);
      var t := turns[|turns| - 1];
      if !Finished(w.tr) {
        var r := f(w.inner, t.ambient).1;
        NextShape(w.th, t, r);
        FaithfulSnoc(f, s, w.inner, w.tr, Next(w.th, t, r).1);
      }
    }
  }

  // ---------- the inner future is left alone during a backoff ----------

  /** Readings never go back, no sleep is ready early, and a ready future is not polled again. */
  ghost predicate Legal<S, A, R>(f: (S, A) -> (S, Poll<R>), th: Throttle, s: S, turns: seq<Turn<A>>) {
    turns == [] ||
    var before := turns[..|turns| - 1];
    var t := turns[|turns| - 1];
    var w := Run(f, th, s, before);
    && Legal(f, th, s, before)
    && !Finished(w.tr)
    && t.clock.Monotone()
    && (before != [] ==> before[|before| - 1].clock.finish <= t.clock.start)
    && TimerContract(Decide(w.th, t), PhaseOf(w.th), t)
  }

  /** Every inner poll happens after the deadline of every delay inserted before it. */
  ghost predicate NeverDuringBackoff<A, R>(tr: seq<Obs<A, R>>) {
    forall i, j :: 0 <= i < j < |tr| && tr[i].act.Inserted? && tr[j].act.Polled? ==>
      tr[i].act.created + tr[i].act.delay <= tr[j].act.at
  }

  lemma {:induction false} NeverDuringSnoc<A, R>(tr: seq<Obs<A, R>>, o: Obs<A, R>)
    requires NeverDuringBackoff(tr)
    requires o.act.Polled? ==> LastDeadline(tr) <= o.act.at
    ensures NeverDuringBackoff(tr + [o])
  {
    var all := tr + [o];
    forall i, j | 0 <= i < j < |all| && all[i].act.Inserted? && all[j].act.Polled?
      ensures all[i].act.created + all[i].act.delay <= all[j].act.at
    {
      if j == |tr| {
        LastDeadlineCovers(tr, i);
      }
    }
  }

  function LastReading<A>(turns: seq<Turn<A>>): nat {
    if turns == [] then 0 else turns[|turns| - 1].clock.finish
  }

  /** Deadlines so far against the phase: the running backoff has the latest one, and without a
      backoff all of them are over. */
  ghost predicate DeadlinesOver(phase: Phase, last: nat, now: nat) {
    match phase
    case Common => last <= now
    case Backoff(deadline) => last == deadline
  }

  lemma {:induction false} DeadlineStep<A>(phase: Phase, g: Gate, t: Turn<A>, last: nat, now: nat)
    requires DeadlinesOver(phase, last, now)
    requires t.clock.Monotone() && now <= t.clock.start && TimerContract(g, phase, t)
    requires g.Waits? <==> phase.Backoff? && !t.sleepReady
    ensures var last' := if g.Inserts? then Max(last, t.clock.create + g.delay) else last;
            DeadlinesOver(PhaseAfter(g, phase, t), last', t.clock.finish)
    ensures g.Enters? ==> last <= t.clock.enter
  {
  }

  /** The last poll of a legal run. */
  lemma {:induction false} LegalStep<S, A, R>(f: (S, A) -> (S, Poll<R>), th: Throttle, s: S, turns: seq<Turn<A>>) returns (o: Obs<A, R>)
    requires turns != [] && Legal(f, th, s, turns)
    ensures var before := turns[..|turns| - 1];
            var t := turns[|turns| - 1];
            var w, w' := Run(f, th, s, before), Run(f, th, s, turns);
            var g := Decide(w.th, t);
            && Legal(f, th, s, before)
            && t.clock.Monotone() && LastReading(before) <= t.clock.start && TimerContract(g, PhaseOf(w.th), t)
            && (g.Waits? <==> PhaseOf(w.th).Backoff? && !t.sleepReady)
            && w'.tr == w.tr + [o] && PhaseOf(w'.th) == PhaseAfter(g, PhaseOf(w.th), t)
            && Deadline(o) == (if g.Inserts? then t.clock.create + g.delay else 0)
            && (o.act.Polled? ==> g.Enters? && o.act.at == t.clock.enter)
  {
    hide Next, Decide, TimerContract, PhaseAfter;
    var w := Run(f, th, s, turns[..|turns| - 1]);
    var t := turns[|turns| - 1];
    var r := f(w.inner, t.ambient).1;
    NextShape(w.th, t, r);
    o := Next(w.th, t, r).1;
  }

  lemma {:induction false} InnerLeftAlone<S, A, R>(f: (S, A) -> (S, Poll<R>), th: Throttle, s: S, turns: seq<Turn<A>>)
    requires PhaseOf(th).Common? && Legal(f, th, s, turns)
    ensures var w := Run(f, th, s, turns);
            && NeverDuringBackoff(w.tr)
            && DeadlinesOver(PhaseOf(w.th), LastDeadline(w.tr), LastReading(turns))
  {
    if turns == [] {
      NothingDuringBackoff<A, R>();
      assert LastDeadline<A, R>([]) == 0;
    } else {
      hide NeverDuringBackoff, DeadlinesOver, Next, Decide, LastDeadline, TimerContract, PhaseAfter, PhaseOf, Legal, Run;
      var before := turns[..|turns| - 1];
      InnerLeftAlone(f, th, s, before);
      var w := Run(f, th, s, before);
      var t := turns[|turns| - 1];
      var o: Obs<A, R> := LegalStep(f, th, s, turns);
      MeasuresSnoc(w.tr, o);
      DeadlineStep(PhaseOf(w.th), Decide(w.th, t), t, LastDeadline(w.tr), LastReading(before));
      NeverDuringSnoc(w.tr, o);
    }
  }

  lemma {:induction false} NothingDuringBackoff<A, R>()
    ensures NeverDuringBackoff<A, R>([])
  {
  }

  /** A poll that finds the backoff over either reaches the inner future or is told to back off
      again. */
  lemma {:induction false} ExpiryResolves<A, R>(th: Throttle, t: Turn<A>, outcome: Poll<R>)
    requires PhaseOf(th).Backoff? && t.sleepReady
    ensures !Next(th, t, outcome).1.act.Waited?
  {
    NextShape(th, t, outcome);
  }
}
