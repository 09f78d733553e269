/**
 Time mode: the microseconds measured over inner polls that returned Pending add up; once more
 than ten have gathered, whole tens of them are turned into one sleep and the remainder is kept.
 */
module ModeTime {
  import opened Polling
  import opened Priorities
  import opened Transparency

  datatype Ctl = Ctl(priority: Priority, phase: Phase, addingUp: u64, pendCnt: u32, insertedPendCnt: u32)

  function New(priority: Priority): Ctl {
    Ctl(priority, Common, 0, 0, 0)
  }

  /** period * time / 2 + 2, the milliseconds slept for so many tens of microseconds. */
  function SleepMs(priority: Priority, time: nat): nat {
    match priority
    case VeryLow => 9 * time / 2 + 2
    case Low => 7 * time / 2 + 2
    case Middle => 5 * time / 2 + 2
    case High => 3 * time / 2 + 2
    case VeryHigh => 0
  }

  function Decide<A>(c: Ctl, t: Turn<A>): Gate {
    if c.phase.Backoff? && !t.sleepReady then Waits
    else if !c.priority.VeryHigh? && c.addingUp > 10 then
      Inserts(Millis(SleepMs(c.priority, c.addingUp / 10)), c.addingUp / 10)
    else Enters
  }

  /** One poll, when polling the inner future would answer `outcome`. */
  function Next<A, R>(c: Ctl, t: Turn<A>, outcome: Poll<R>): (Ctl, Obs<A, R>) {
    var g := Decide(c, t);
    var c1 := c.(phase := PhaseAfter(g, c.phase, t));
    var after :=
      match g
      case Waits => c1
      case Inserts(_, time) => c1.(addingUp := c.addingUp - time * 10, insertedPendCnt := Inc32(c.insertedPendCnt))
      case Enters =>
        if outcome.Pending? then
          c1.(addingUp := Wrap64(c.addingUp + Micros(Since(t.clock.enter, t.clock.leave))), pendCnt := Inc32(c.pendCnt))
        else c1;
    (after, Observe(g, c.phase, t, outcome, t.clock.enter))
  }

  // ---------- the reference: what the measured times alone determine ----------

  /** Gathered microseconds, charged tens, number and total length of the sleeps, and how often
      the gathering u64 wrapped. */
  datatype Plan = Plan(acc: u64, units: nat, sleeps: nat, ms: nat, wraps: nat)

  function Drain(p: Priority, s: Plan): Plan {
    if !p.VeryHigh? && s.acc > 10 then
      Plan(s.acc % 10, s.units + s.acc / 10, s.sleeps + 1, s.ms + SleepMs(p, s.acc / 10), s.wraps)
    else s
  }

  function Gather(s: Plan, micros: nat): Plan {
    s.(acc := Wrap64(s.acc + Wrap64(micros)), wraps := s.wraps + (s.acc + micros) / 0x1_0000_0000_0000_0000)
  }

  /** After inner polls that pended for these times, before the next inner poll is due. */
  function PlanOf(p: Priority, es: seq<nat>): Plan {
    if es == [] then Plan(0, 0, 0, 0, 0)
    else Gather(Drain(p, PlanOf(p, es[..|es| - 1])), es[|es| - 1])
  }

  function Sum(es: seq<nat>): nat {
    if es == [] then 0 else Sum(es[..|es| - 1]) + es[|es| - 1]
  }

  /** The table value of the priority times so many units. */
  function Rate(p: Priority, units: nat): nat {
    match p
    case VeryLow => 9 * units
    case Low => 7 * units
    case Middle => 5 * units
    case High => 3 * units
    case VeryHigh => 0
  }

  // ---------- bounds on the plan ----------

  ghost predicate PlanBounds(p: Priority, s: Plan, total: nat, polls: nat) {
    && total == 10 * s.units + s.acc + 0x1_0000_0000_0000_0000 * s.wraps
    && s.sleeps <= s.units
    && s.sleeps <= polls
    && (p.VeryHigh? ==> s.units == 0 && s.ms == 0)
    && (!p.VeryHigh? ==> 10 * Rate(p, s.units) + 30 * s.sleeps <= 20 * s.ms <= 10 * Rate(p, s.units) + 40 * s.sleeps)
  }

  lemma {:induction false} SleepLength(p: Priority, time: nat)
    requires !p.VeryHigh?
    ensures 10 * Rate(p, time) + 30 <= 20 * SleepMs(p, time) <= 10 * Rate(p, time) + 40
  {
  }

  lemma {:induction false} DrainBounds(p: Priority, s: Plan, total: nat, polls: nat)
    requires PlanBounds(p, s, total, polls)
    ensures PlanBounds(p, Drain(p, s), total, polls + 1)
    ensures !p.VeryHigh? ==> Drain(p, s).acc <= 10
  {
    if !p.VeryHigh? && s.acc > 10 {
      SleepLength(p, s.acc / 10);
      RateAdds(p, s.units, s.acc / 10);
    }
  }

  lemma {:induction false} RateAdds(p: Priority, a: nat, b: nat)
    ensures Rate(p, a + b) == Rate(p, a) + Rate(p, b)
  {
  }

  lemma {:induction false} GatherBounds(p: Priority, s: Plan, total: nat, polls: nat, micros: nat)
    requires PlanBounds(p, s, total, polls)
    ensures PlanBounds(p, Gather(s, micros), total + micros, polls)
  {
    hide Rate, Wrap64;
    GatherConserves(s, micros);
  }

  /** What is gathered and what is lost to wraps add up. */
  lemma {:induction false} GatherConserves(s: Plan, micros: nat)
    ensures var s' := Gather(s, micros);
            && s'.acc + 0x1_0000_0000_0000_0000 * s'.wraps == s.acc + 0x1_0000_0000_0000_0000 * s.wraps + micros
            && s' == s.(acc := s'.acc, wraps := s'.wraps)
  {
    hide Wrap64;
    WrapTwice(s.acc, micros);
    var more := (s.acc + micros) / 0x1_0000_0000_0000_0000;
    assert 0x1_0000_0000_0000_0000 * (s.wraps + more) == 0x1_0000_0000_0000_0000 * s.wraps + 0x1_0000_0000_0000_0000 * more;
  }

  lemma {:induction false} WrapTwice(a: u64, b: nat)
    ensures Wrap64(a + Wrap64(b)) + 0x1_0000_0000_0000_0000 * ((a + b) / 0x1_0000_0000_0000_0000) == a + b
  {
    var k, r := b / 0x1_0000_0000_0000_0000, b % 0x1_0000_0000_0000_0000;
    if a + r < 0x1_0000_0000_0000_0000 {
      assert (a + b) / 0x1_0000_0000_0000_0000 == k;
    } else {
      assert a + b == (k + 1) * 0x1_0000_0000_0000_0000 + (a + r - 0x1_0000_0000_0000_0000);
      assert (a + b) / 0x1_0000_0000_0000_0000 == k + 1;
    }
  }

  /** Conservation: every measured microsecond is charged, still gathered, or lost to a wrap; each
      ten charged cost half the table value in milliseconds, and each sleep 1.5 to 2 more. */
  lemma {:induction false} PlanHolds(p: Priority, es: seq<nat>)
    ensures PlanBounds(p, PlanOf(p, es), Sum(es), |es|)
    ensures PlanBounds(p, Drain(p, PlanOf(p, es)), Sum(es), |es|)
    ensures !p.VeryHigh? ==> Drain(p, PlanOf(p, es)).acc <= 10
  {
    if es != [] {
      var front := es[..|es| - 1];
      PlanHolds(p, front);
      GatherBounds(p, Drain(p, PlanOf(p, front)), Sum(front), |front|, es[|es| - 1]);
      DrainBounds(p, PlanOf(p, es), Sum(es), |front|);
    }
  }

  // ---------- the wrapper follows the plan ----------

  /** Control state and totals against a plan; `last` as in `JustInserted`. */
  ghost predicate Follows(c: Ctl, d: Plan, n: Tally, polls: nat, last: bool) {
    && c.addingUp == d.acc && n.extra == d.units && n.backoffs == d.sleeps && n.requested == Millis(d.ms)
    && c.pendCnt == Counter(n.pended) && c.insertedPendCnt == Counter(n.backoffs)
    && polls == n.waits + n.backoffs + n.entered
    && (c.phase.Backoff? ==> last)
  }

  function Current(p: Priority, s: Plan, drained: bool): Plan {
    if drained then Drain(p, s) else s
  }

  ghost predicate LawAt(c: Ctl, s: Plan, n: Tally, polls: nat, last: bool, finished: bool) {
    && Follows(c, Current(c.priority, s, last || finished), n, polls, last)
    && n.entered == n.pended + (if finished then 1 else 0)
    && (last ==> s.acc > 10 && !c.priority.VeryHigh? && !finished)
  }

  ghost predicate Law<A, R>(c: Ctl, tr: seq<Obs<A, R>>) {
    LawAt(c, PlanOf(c.priority, Elapsed(tr)), TallyOf(tr), |tr|, JustInserted(tr), Finished(tr))
  }

  lemma {:induction false} LawNew<A, R>(p: Priority)
    ensures Law<A, R>(New(p), [])
  {
    hide LawAt;
    LawAtNew(p);
  }

  lemma {:induction false} LawAtNew(p: Priority)
    ensures LawAt(New(p), Plan(0, 0, 0, 0, 0), Tally(0, 0, 0, 0, 0, 0, 0), 0, false, false)
  {
  }

  /** The plan after one more inner poll that pended for so long, if any. */
  function Extended(p: Priority, s: Plan, measured: seq<nat>): Plan {
    if measured == [] then s else Gather(Drain(p, s), measured[0])
  }

  lemma {:induction false} LawAtNext<A, R>(c: Ctl, s: Plan, n: Tally, polls: nat, last: bool, t: Turn<A>, outcome: Poll<R>)
    requires LawAt(c, s, n, polls, last, false)
    ensures var (c', o) := Next(c, t, outcome);
            && c'.priority == c.priority
            && LawAt(c', Extended(c.priority, s, MeasuredMicros(o)), n.Add(o), polls + 1, Last(o, last), Ends(o))
    ensures Next(c, t, outcome).1.act.Inserted? ==> !last
  {
    hide SleepMs, Wrap64, Counter;
    if Decide(c, t).Inserts? {
      TensTaken(c.addingUp);
      OneMore(n.backoffs);
    } else {
      OneMore(n.pended);
    }
  }

  lemma {:induction false} TensTaken(x: nat)
    ensures x - x / 10 * 10 == x % 10
    ensures x % 10 < 10
  {
  }

  lemma {:induction false} OneMore(events: nat)
    ensures Counter(events + 1) == Inc32(Counter(events))
  {
  }

  lemma {:induction false} PlanSnoc<A, R>(p: Priority, tr: seq<Obs<A, R>>, o: Obs<A, R>)
    ensures PlanOf(p, Elapsed(tr + [o])) == Extended(p, PlanOf(p, Elapsed(tr)), MeasuredMicros(o))
  {
    hide Gather, Drain, Elapsed;
    MeasuresSnoc(tr, o);
    var es, measured := Elapsed(tr), MeasuredMicros(o);
    if measured == [] {
      assert es + measured == es;
    } else {
      assert (es + measured)[..|es|] == es;
    }
  }

  lemma {:induction false} LawNext<A, R>(c: Ctl, tr: seq<Obs<A, R>>, t: Turn<A>, outcome: Poll<R>)
    requires Law(c, tr) && !Finished(tr)
    ensures Law(Next(c, t, outcome).0, tr + [Next(c, t, outcome).1])
    ensures Next(c, t, outcome).1.act.Inserted? ==> !JustInserted(tr)
  {
    hide LawAt, TallyOf, PlanOf, Elapsed, Next, Extended, MeasuredMicros, JustInserted, Finished, Last, Ends;
    var o := Next(c, t, outcome).1;
    LawAtNext(c, PlanOf(c.priority, Elapsed(tr)), TallyOf(tr), |tr|, JustInserted(tr), t, outcome);
    TallySnoc(tr, o);
    LastSnoc(tr, o);
    PlanSnoc(c.priority, tr, o);
  }

  // ---------- runs ----------

  /** A run: the executor polls until the future is ready. */
  function Exec<A, R>(p: Priority, ins: seq<(Turn<A>, Poll<R>)>): (Ctl, seq<Obs<A, R>>) {
    if ins == [] then (New(p), [])
    else
      var (c, tr) := Exec(p, ins[..|ins| - 1]);
      if Finished(tr) then (c, tr)
      else
        var (t, outcome) := ins[|ins| - 1];
        var (c', o) := Next(c, t, outcome);
        (c', tr + [o])
  }

  /** Every run follows the plan its measured times determine, and never puts a delay right
      after a delay. */
  lemma {:induction false} ExecFollowsPlan<A, R>(p: Priority, ins: seq<(Turn<A>, Poll<R>)>)
    ensures Law(Exec(p, ins).0, Exec(p, ins).1)
    ensures Exec(p, ins).0.priority == p
    ensures Spaced(Exec(p, ins).1)
  {
    hide Law, Spaced;
    if ins == [] {
      LawNew<A, R>(p);
      assert Spaced<A, R>([]) by { NothingSpaced<A, R>(); }
    } else {
      ExecFollowsPlan(p, ins[..|ins| - 1]);
      var (c, tr) := Exec(p, ins[..|ins| - 1]);
      if !Finished(tr) {
        var t, outcome := ins[|ins| - 1].0, ins[|ins| - 1].1;
        LawNext(c, tr, t, outcome);
        SpacedSnoc(tr, Next(c, t, outcome).1);
      }
    }
  }

  lemma {:induction false} NothingSpaced<A, R>()
    ensures Spaced<A, R>([])
  {
  }

  // ---------- what the transcript of a run says ----------

  /** What one observation says of its turn: an inner poll is measured between the readings just
      before and just after it, and a sleep for so many units has the length of the table. */
  ghost predicate Answers<A, R>(p: Priority, t: Turn<A>, outcome: Poll<R>, o: Obs<A, R>) {
    match o.act
    case Waited => !t.sleepReady
    case Inserted(delay, units, created, fired) =>
      && FixedIntervalTimeMs(p).Some?
      && delay == Millis(FixedIntervalTimeMs(p).value * units / 2 + 2)
      && created == t.clock.create && fired == t.freshReady
    case Polled(ambient, answer, from, at, to) =>
      && ambient == t.ambient && answer == outcome
      && from == at == t.clock.enter && to == t.clock.leave
  }

  lemma {:induction false} NextAnswers<A, R>(c: Ctl, t: Turn<A>, outcome: Poll<R>)
    ensures Answers(c.priority, t, outcome, Next(c, t, outcome).1)
  {
    if !c.priority.VeryHigh? {
      SleepFitsU64(c.priority, c.addingUp);
    }
  }

  lemma {:induction false} ExecPriority<A, R>(p: Priority, ins: seq<(Turn<A>, Poll<R>)>)
    ensures Exec(p, ins).0.priority == p
  {
    if ins != [] {
      ExecPriority(p, ins[..|ins| - 1]);
    }
  }

  /** Every observation of every run says what its turn brought, in the order of the turns. */
  lemma {:induction false} TranscriptAnswers<A, R>(p: Priority, ins: seq<(Turn<A>, Poll<R>)>, i: nat)
    requires i < |Exec(p, ins).1|
    ensures i < |ins| && Answers(p, ins[i].0, ins[i].1, Exec(p, ins).1[i])
  {
    if ins != [] {
      hide Next, Answers, Finished;
      var before := ins[..|ins| - 1];
      var (c, tr) := Exec(p, before);
      if i < |tr| {
        TranscriptAnswers(p, before, i);
      } else {
        OnePerPoll(p, before);
        ExecPriority(p, before);
        NextAnswers(c, ins[i].0, ins[i].1);
      }
    }
  }

  /** Measured microseconds that no sleep has been charged for, in the u64 they are gathered in. */
  function Uncharged<A, R>(tr: seq<Obs<A, R>>): u64 {
    (Sum(Elapsed(tr)) - 10 * TallyOf(tr).extra) % 0x1_0000_0000_0000_0000
  }

  lemma {:induction false} OnlyRemainder(measured: nat, charged: nat, acc: u64, wraps: nat)
    requires measured == charged + acc + 0x1_0000_0000_0000_0000 * wraps
    ensures (measured - charged) % 0x1_0000_0000_0000_0000 == acc
  {
  }

  /** When and for what a delay is inserted, in every run: a poll of a throttled future that does not
      wait inserts one exactly when more than ten microseconds are uncharged, and charges all whole
      tens of them. */
  lemma {:induction false} InsertsExactly<A, R>(p: Priority, ins: seq<(Turn<A>, Poll<R>)>, t: Turn<A>)
    requires !p.VeryHigh? && !Finished(Exec(p, ins).1) && !Decide(Exec(p, ins).0, t).Waits?
    ensures var (c, tr) := Exec(p, ins);
            && (Decide(c, t).Inserts? <==> Uncharged(tr) > 10)
            && (Decide(c, t).Inserts? ==> Decide(c, t).extra == Uncharged(tr) / 10)
  {
    var (c, tr) := Exec(p, ins);
    ExecFollowsPlan(p, ins);
    PlanHolds(p, Elapsed(tr));
    hide PlanOf, Elapsed, TallyOf, Sum, Exec, Rate, SleepMs;
    OnlyRemainder(Sum(Elapsed(tr)), 10 * TallyOf(tr).extra, c.addingUp, PlanOf(p, Elapsed(tr)).wraps);
  }

  // ---------- theorems about every run ----------

  /** The sandwich, in nanoseconds: with E the microseconds measured, less what wraps lost,
      p (E - 10) + 30 q <= 20 S <= (p + 4) E. */
  ghost predicate Sandwich(p: Priority, charged: nat, q: nat, requested: nat) {
    && 1_000_000 * (Rate(p, charged) - Rate(p, 10) + 30 * q) <= 20 * requested
    && 20 * requested <= 1_000_000 * (Rate(p, charged) + 4 * charged)
  }

  /** Just before every inner poll of a throttled future. */
  lemma {:induction false} SandwichBound<A, R>(p: Priority, ins: seq<(Turn<A>, Poll<R>)>, t: Turn<A>)
    requires !p.VeryHigh?
    requires !Finished(Exec(p, ins).1) && Decide(Exec(p, ins).0, t).Enters?
    ensures var (c, tr) := Exec(p, ins);
            AtEntry(c, TallyOf(tr), Sum(Elapsed(tr)), 0x1_0000_0000_0000_0000 * PlanOf(p, Elapsed(tr)).wraps)
  {
    assert Exec(p, ins).0.addingUp <= 10 by {
      assert Exec(p, ins).0.priority == p by {
        ExecFollowsPlan(p, ins);
      }
    }
    hide LawAt, AtEntry, PlanBounds, PlanOf, Elapsed, TallyOf, Sum, Decide;
    var (c, tr) := Exec(p, ins);
    var es := Elapsed(tr);
    ExecFollowsPlan(p, ins);
    PlanHolds(p, es);
    PendingsMeasured(tr);
    EntryBounds(c, PlanOf(p, es), TallyOf(tr), |tr|, JustInserted(tr), Sum(es), |es|);
  }

  /** What holds when the inner future is about to be polled, `measured` microseconds having been
      measured and `lost` of them dropped by wraps of the accumulator. */
  ghost predicate AtEntry(c: Ctl, n: Tally, measured: nat, lost: nat) {
    && measured == 10 * n.extra + c.addingUp + lost
    && c.addingUp <= 10
    && (measured < 0x1_0000_0000_0000_0000 ==> lost == 0)
    && Sandwich(c.priority, measured - lost, n.backoffs, n.requested)
    && 10 * n.backoffs <= measured
    && n.backoffs <= n.pended
  }

  lemma {:induction false} EntryBounds(c: Ctl, s: Plan, n: Tally, polls: nat, last: bool, measured: nat, pended: nat)
    requires LawAt(c, s, n, polls, last, false) && !c.priority.VeryHigh? && c.addingUp <= 10
    requires PlanBounds(c.priority, s, measured, pended) && pended == n.pended
    requires PlanBounds(c.priority, Drain(c.priority, s), measured, pended)
    ensures AtEntry(c, n, measured, 0x1_0000_0000_0000_0000 * s.wraps)
  {
    hide Sandwich, Rate, SleepMs;
    BoundsGiveSandwich(c.priority, Drain(c.priority, s), measured, pended);
  }

  lemma {:induction false} BoundsGiveSandwich(p: Priority, d: Plan, total: nat, polls: nat)
    requires PlanBounds(p, d, total, polls) && d.acc <= 10 && !p.VeryHigh?
    ensures total >= 0x1_0000_0000_0000_0000 * d.wraps
    ensures Sandwich(p, total - 0x1_0000_0000_0000_0000 * d.wraps, d.sleeps, Millis(d.ms))
  {
  }

  lemma {:induction false} PendingsMeasured<A, R>(tr: seq<Obs<A, R>>)
    ensures |Elapsed(tr)| == TallyOf(tr).pended
  {
    if tr != [] {
      PendingsMeasured(tr[..|tr| - 1]);
    }
  }

  /** A poll that finds its backoff over always reaches the inner future. */
  lemma {:induction false} ExpiredEnters<A, R>(p: Priority, ins: seq<(Turn<A>, Poll<R>)>, t: Turn<A>)
    requires !Finished(Exec(p, ins).1) && JustInserted(Exec(p, ins).1)
    requires t.sleepReady
    ensures Exec(p, ins).0.addingUp < 10
    ensures Decide(Exec(p, ins).0, t).Enters?
  {
    hide PlanOf, Elapsed, TallyOf;
    ExecFollowsPlan(p, ins);
  }

  /** Polls of a run: one per inner poll, at most one more per inner Pending, and those that found a
      backoff still running. */
  lemma {:induction false} PollsUsed<A, R>(p: Priority, ins: seq<(Turn<A>, Poll<R>)>)
    ensures var tr := Exec(p, ins).1;
            var n := TallyOf(tr);
            && |tr| == n.pended + (if Finished(tr) then 1 else 0) + n.backoffs + n.waits
            && n.backoffs <= n.pended && (p.VeryHigh? ==> n.backoffs == 0)
            && (!Finished(tr) ==> |tr| == |ins|)
  {
    OnePerPoll(p, ins);
    hide PlanOf, Elapsed, TallyOf, Sum;
    var tr := Exec(p, ins).1;
    ExecFollowsPlan(p, ins);
    PlanHolds(p, Elapsed(tr));
    PendingsMeasured(tr);
  }

  lemma {:induction false} OnePerPoll<A, R>(p: Priority, ins: seq<(Turn<A>, Poll<R>)>)
    ensures !Finished(Exec(p, ins).1) ==> |Exec(p, ins).1| == |ins|
  {
    hide Next;
    if ins != [] {
      OnePerPoll(p, ins[..|ins| - 1]);
    }
  }

  /** Termination: when the inner future pends at most so often, every run under every schedule is
      finished after more than twice as many polls that did not find a backoff still running. */
  lemma {:induction false} Terminates<A, R>(p: Priority, ins: seq<(Turn<A>, Poll<R>)>, limit: nat)
    requires TallyOf(Exec(p, ins).1).pended <= limit
    requires |ins| - TallyOf(Exec(p, ins).1).waits > 2 * limit
    ensures Finished(Exec(p, ins).1)
  {
    hide Exec, TallyOf, Finished;
    PollsUsed(p, ins);
  }

  /** The priorities that follow each other in the table. */
  predicate Adjacent(p1: Priority, p2: Priority) {
    (p1.VeryLow? && p2.Low?) || (p1.Low? && p2.Middle?) || (p1.Middle? && p2.High?)
  }

  ghost predicate OneMsPerUnit(s1: Plan, s2: Plan) {
    s1.(ms := 0) == s2.(ms := 0) && s1.ms == s2.ms + s1.units
  }

  lemma {:induction false} SameDrain(p1: Priority, s1: Plan, p2: Priority, s2: Plan)
    requires Adjacent(p1, p2) && OneMsPerUnit(s1, s2)
    ensures OneMsPerUnit(Drain(p1, s1), Drain(p2, s2))
  {
    assert SleepMs(p1, s1.acc / 10) == SleepMs(p2, s1.acc / 10) + s1.acc / 10;
  }

  lemma {:induction false} SamePlan(p1: Priority, p2: Priority, es: seq<nat>)
    requires Adjacent(p1, p2)
    ensures OneMsPerUnit(PlanOf(p1, es), PlanOf(p2, es))
  {
    hide Drain, Wrap64;
    if es != [] {
      var front := es[..|es| - 1];
      SamePlan(p1, p2, front);
      SameDrain(p1, PlanOf(p1, front), p2, PlanOf(p2, front));
    }
  }

  /** For the same measured times, finished futures of adjacent priorities have slept the same
      number of times, and their totals differ by exactly one millisecond per charged unit. */
  lemma {:induction false} PrioritySeparation<A, R, B>(p1: Priority, ins1: seq<(Turn<A>, Poll<R>)>, p2: Priority, ins2: seq<(Turn<A>, Poll<B>)>)
    requires Adjacent(p1, p2)
    requires Finished(Exec(p1, ins1).1) && Finished(Exec(p2, ins2).1)
    requires Elapsed(Exec(p1, ins1).1) == Elapsed(Exec(p2, ins2).1)
    ensures var n1, n2 := TallyOf(Exec(p1, ins1).1), TallyOf(Exec(p2, ins2).1);
            n1.extra == n2.extra && n1.backoffs == n2.backoffs && n1.requested == n2.requested + Millis(n1.extra)
  {
    hide PlanOf, Elapsed, TallyOf;
    ExecFollowsPlan(p1, ins1);
    ExecFollowsPlan(p2, ins2);
    var es := Elapsed(Exec(p1, ins1).1);
    SamePlan(p1, p2, es);
    SameDrain(p1, PlanOf(p1, es), p2, PlanOf(p2, es));
  }

  /** No u64 the code computes for a sleep overflows, whatever the accumulator holds. */
  lemma {:induction false} SleepFitsU64(p: Priority, addingUp: u64)
    requires FixedIntervalTimeMs(p).Some?
    ensures var period, time := FixedIntervalTimeMs(p).value, addingUp / 10;
            && period * time < 0x1_0000_0000_0000_0000
            && period * time / 2 + 2 < 0x1_0000_0000_0000_0000
            && SleepMs(p, time) == period * time / 2 + 2
  {
    var time := addingUp / 10;
    match p {
      case VeryLow => assert FixedIntervalTimeMs(p).value * time == 9 * time;
      case Low => assert FixedIntervalTimeMs(p).value * time == 7 * time;
      case Middle => assert FixedIntervalTimeMs(p).value * time == 5 * time;
      case High => assert FixedIntervalTimeMs(p).value * time == 3 * time;
    }
  }

  // ---------- the wrapper itself ----------

  class PendingFuture<S, A, R> {
    const handle: Priority
    const behaviour: (S, A) -> (S, Poll<R>)
    var future: S
    var pendCnt: u32
    var insertedPendCnt: u32
    var addingUpTime: u64
    var state: Phase
    ghost const initial: S
    ghost var transcript: seq<Obs<A, R>>

    function View(): Ctl
      reads this
    {
      Ctl(handle, state, addingUpTime, pendCnt, insertedPendCnt)
    }

    ghost predicate Valid()
      reads this
    {
      Law(View(), transcript) && Faithful(behaviour, initial, future, transcript)
    }

    constructor (handle: Priority, behaviour: (S, A) -> (S, Poll<R>), future: S)
      ensures Valid() && View() == New(handle) && transcript == []
      ensures this.behaviour == behaviour && this.future == future && initial == future
    {
      hide Law, Faithful;
      initial := future;
      this.handle, this.behaviour, this.future := handle, behaviour, future;
      pendCnt, insertedPendCnt, addingUpTime, state := 0, 0, 0, Common;
      transcript := [];
      new;
      FaithfulNew<S, A, R>(behaviour, future);
      LawNew<A, R>(handle);
    }

    /** One poll. `woken` tells whether the task's own waker was called. */
    method Poll(t: Turn<A>) returns (res: Poll<R>, woken: bool)
      requires Valid() && !Finished(transcript)
      modifies this
      ensures Valid()
      ensures var (c, o) := Next(old(View()), t, behaviour(old(future), t.ambient).1);
              && View() == c
              && transcript == old(transcript) + [o]
              && future == (if o.act.Polled? then behaviour(old(future), t.ambient).0 else old(future))
              && res == (if o.act.Polled? then o.act.outcome else Pending)
              && (woken <==> o.act.Inserted? && o.act.fired)
    {
      hide Law, Faithful, Wrap64, Micros, Since, Millis;
      LawNext(View(), transcript, t, behaviour(future, t.ambient).1);
      FaithfulSnoc(behaviour, initial, future, transcript, Next(View(), t, behaviour(future, t.ambient).1).1);
      transcript := transcript + [Next(View(), t, behaviour(future, t.ambient).1).1];
      woken := false;
      match state {
        case Common =>
        case Backoff(_) =>
          if t.sleepReady {
            state := Common;
          } else {
            return Pending, false;
          }
      }
      var pendPeriod := FixedIntervalTimeMs(handle);
      if pendPeriod.Some? {
        if addingUpTime > 10 {
          var time := addingUpTime / 10;
          SleepFitsU64(handle, addingUpTime);
          addingUpTime := addingUpTime - time * 10;
          insertedPendCnt := Inc32(insertedPendCnt);
          state := Backoff(t.clock.create + Millis(pendPeriod.value * time / 2 + 2));
          if t.freshReady {
            state := Common;
            return Pending, true;
          } else {
            return Pending, false;
          }
        }
      }
      var (inner, answer) := behaviour(future, t.ambient);
      future := inner;
      if answer.Pending? {
        var elapsed := Micros(Since(t.clock.enter, t.clock.leave));
        addingUpTime := Wrap64(addingUpTime + elapsed);
        pendCnt := Inc32(pendCnt);
      }
      res := answer;
    }
  }
}
