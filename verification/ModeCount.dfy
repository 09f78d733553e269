/**
 Count mode: every fifth pending event of a throttled future is a backoff of a fixed length
 plus a random jitter. The event counter is a u32 and the build is taken to be the release
 profile, in which it wraps.
 */
module ModeCount {
  import opened Polling
  import opened Priorities
  import opened Transparency

  datatype Ctl = Ctl(priority: Priority, phase: Phase, pendCnt: u32, beginTime: Option<nat>, pollTime: u64)

  datatype OneFutureRecord = OneFutureRecord(totalMicro: u64, cpuMicro: u64)

  function New(priority: Priority): Ctl {
    Ctl(priority, Common, 0, None, 0)
  }

  function Decide<A>(c: Ctl, t: Turn<A>): Gate {
    if c.phase.Backoff? && !t.sleepReady then Waits
    else if Inc32(c.pendCnt) % 5 == 0 && FixedIntervalCount(c.priority).Some? then
      Inserts(Millis(FixedIntervalCount(c.priority).value + t.jitter), t.jitter)
    else Enters
  }

  /** One poll, when polling the inner future would answer `outcome`. */
  function Next<A, R>(c: Ctl, t: Turn<A>, outcome: Poll<R>): (Ctl, Obs<A, R>) {
    var g := Decide(c, t);
    var begun := c.(beginTime := if c.beginTime.None? then Some(t.clock.begin) else c.beginTime,
                    phase := PhaseAfter(g, c.phase, t));
    var after :=
      match g
      case Waits => begun
      case Inserts(_, _) => begun.(pendCnt := Inc32(c.pendCnt))
      case Enters =>
        begun.(pollTime := Wrap64(c.pollTime + Micros(Since(t.clock.start, t.clock.leave))),
               pendCnt := if outcome.Pending? then Inc32(c.pendCnt) else c.pendCnt);
    (after, Observe(g, c.phase, t, outcome, t.clock.start))
  }

  // ---------- the closed form ----------

  /** How many of the first `events` pending events are backoffs: those that bring the
      counter to a multiple of five. */
  function BackoffsAfter(events: nat): nat {
    if events == 0 then 0 else BackoffsAfter(events - 1) + if Counter(events) % 5 == 0 then 1 else 0
  }

  /** Milliseconds of `q` backoffs, jitter aside: q times the table value. */
  function FixedDelays(priority: Priority, q: nat): nat {
    match priority
    case VeryLow => 30 * q
    case Low => 20 * q
    case Middle => 13 * q
    case High => 10 * q
    case VeryHigh => 0
  }

  /** What the counter and the totals of a future have to do with each other at every moment.
      `last` says whether a delay is the last thing that was done, waiting aside. */
  ghost predicate Counts(c: Ctl, n: Tally, polls: nat, finished: bool, last: bool) {
    var events := n.pended + n.backoffs;
    && c.pendCnt == Counter(events)
    && polls == n.waits + n.backoffs + n.entered
    && n.entered == n.pended + (if finished then 1 else 0)
    && n.extra <= 9 * n.backoffs
    && n.requested == Millis(FixedDelays(c.priority, n.backoffs) + n.extra)
    && if c.priority.VeryHigh? then n.backoffs == 0 && c.phase.Common?
       else
         && n.backoffs == BackoffsAfter(events)
         && (if finished then Inc32(c.pendCnt) % 5 != 0
             else last <==> events > 0 && c.pendCnt % 5 == 0)
  }

  ghost predicate Law<A, R>(c: Ctl, tr: seq<Obs<A, R>>) {
    Counts(c, TallyOf(tr), |tr|, Finished(tr), JustInserted(tr))
  }

  lemma {:induction false} OneMoreDelay(priority: Priority, q: nat)
    requires !priority.VeryHigh?
    ensures FixedDelays(priority, q + 1) == FixedDelays(priority, q) + FixedIntervalCount(priority).value
  {
    match priority {
      case VeryLow =>
      case Low =>
      case Middle =>
      case High =>
    }
  }

  lemma {:induction false} CountBackoff(c: Ctl, n: Tally, polls: nat, last: bool, c': Ctl, n': Tally, jitter: Jitter)
    requires Counts(c, n, polls, false, last)
    requires Inc32(c.pendCnt) % 5 == 0 && !c.priority.VeryHigh?
    requires c'.priority == c.priority && c'.pendCnt == Inc32(c.pendCnt)
    requires n'.(expired := n.expired) == n.(backoffs := n.backoffs + 1, extra := n.extra + jitter,
               requested := n.requested + Millis(FixedIntervalCount(c.priority).value + jitter))
    ensures Counts(c', n', polls + 1, false, true)
  {
    var events := n.pended + n.backoffs;
    assert BackoffsAfter(events + 1) == BackoffsAfter(events) + 1;
    OneMoreDelay(c.priority, n.backoffs);
  }

  lemma {:induction false} CountPending(c: Ctl, n: Tally, polls: nat, last: bool, c': Ctl, n': Tally)
    requires Counts(c, n, polls, false, last)
    requires Inc32(c.pendCnt) % 5 != 0 || c.priority.VeryHigh?
    requires c'.priority == c.priority && c'.pendCnt == Inc32(c.pendCnt) && c'.phase.Common?
    requires n'.(expired := n.expired) == n.(entered := n.entered + 1, pended := n.pended + 1)
    ensures Counts(c', n', polls + 1, false, false)
  {
    var events := n.pended + n.backoffs;
    assert BackoffsAfter(events + 1) == BackoffsAfter(events) || c.priority.VeryHigh?;
  }

  lemma {:induction false} CountsNext<A, R>(c: Ctl, n: Tally, polls: nat, last: bool, t: Turn<A>, outcome: Poll<R>)
    requires Counts(c, n, polls, false, last)
    ensures var (c', o) := Next(c, t, outcome);
            Counts(c', n.Add(o), polls + 1, Ends(o), Last(o, last))
  {
    hide Counter, BackoffsAfter, FixedDelays;
    var (c', o) := Next(c, t, outcome);
    if Decide(c, t).Inserts? {
      CountBackoff(c, n, polls, last, c', n.Add(o), t.jitter);
    } else if Decide(c, t).Enters? && outcome.Pending? {
      CountPending(c, n, polls, last, c', n.Add(o));
    }
  }

  lemma {:induction false} CountsNew(p: Priority)
    ensures Counts(New(p), Tally(0, 0, 0, 0, 0, 0, 0), 0, false, false)
  {
  }

  lemma {:induction false} LawNew<A, R>(p: Priority)
    ensures Law<A, R>(New(p), [])
  {
    hide Counts;
    CountsNew(p);
  }

  /** Every poll keeps the law, whatever its turn brings. */
  lemma {:induction false} LawNext<A, R>(c: Ctl, tr: seq<Obs<A, R>>, t: Turn<A>, outcome: Poll<R>)
    requires Law(c, tr) && !Finished(tr)
    ensures Law(Next(c, t, outcome).0, tr + [Next(c, t, outcome).1])
  {
    hide Counts, TallyOf, Next, Finished, JustInserted, Last, Ends;
    var o := Next(c, t, outcome).1;
    CountsNext(c, TallyOf(tr), |tr|, JustInserted(tr), t, outcome);
    TallySnoc(tr, o);
    LastSnoc(tr, o);
  }

  // ---------- runs ----------

  /** A run: the executor polls until the future is ready, whatever each turn brings and
      whatever the inner future answers. */
  function Exec<A, R>(p: Priority, ins: seq<(Turn<A>, Poll<R>)>): (Ctl, seq<Obs<A, R>>) {
    if ins == [] then (New(p), [])
    else
      var (c, tr) := Exec(p, ins[..|ins| - 1]);
      if Finished(tr) then (c, tr)
      else
        var (t, outcome) := ins[|ins| - 1];
        var (c', o) := Next(c, t, outcome);
        (c', tr + [o])
  }

  lemma {:induction false} ExecPriority<A, R>(p: Priority, ins: seq<(Turn<A>, Poll<R>)>)
    ensures Exec(p, ins).0.priority == p
  {
    if ins != [] {
      ExecPriority(p, ins[..|ins| - 1]);
    }
  }

  lemma {:induction false} ExecLaw<A, R>(p: Priority, ins: seq<(Turn<A>, Poll<R>)>)
    ensures Law(Exec(p, ins).0, Exec(p, ins).1)
  {
    if ins != [] {
      ExecLaw(p, ins[..|ins| - 1]);
      var (c, tr) := Exec(p, ins[..|ins| - 1]);
      if !Finished(tr) {
        LawNext(c, tr, ins[|ins| - 1].0, ins[|ins| - 1].1);
      }
    }
  }

  // ---------- what the transcript of a run says ----------

  /** What one observation says of its turn: a wait that the sleep was not ready; a delay that it is
      the table value and the jitter of this turn; an inner poll what the inner future saw, what it
      answered, and that it was measured from the reading on entry. */
  ghost predicate Answers<A, R>(p: Priority, t: Turn<A>, outcome: Poll<R>, o: Obs<A, R>) {
    match o.act
    case Waited => !t.sleepReady
    case Inserted(delay, extra, created, fired) =>
      && FixedIntervalCount(p).Some?
      && delay == Millis(FixedIntervalCount(p).value + t.jitter) && extra == t.jitter
      && created == t.clock.create && fired == t.freshReady
    case Polled(ambient, answer, from, at, to) =>
      && ambient == t.ambient && answer == outcome
      && from == t.clock.start && at == t.clock.enter && to == t.clock.leave
  }

  lemma {:induction false} NextAnswers<A, R>(c: Ctl, t: Turn<A>, outcome: Poll<R>)
    ensures Answers(c.priority, t, outcome, Next(c, t, outcome).1)
  {
  }

  /** Every observation of every run says what its turn brought, in the order of the turns. */
  lemma {:induction false} TranscriptAnswers<A, R>(p: Priority, ins: seq<(Turn<A>, Poll<R>)>, i: nat)
    requires i < |Exec(p, ins).1|
    ensures i < |ins| && Answers(p, ins[i].0, ins[i].1, Exec(p, ins).1[i])
  {
    if ins != [] {
      hide Next, Answers, Finished;
      var before := ins[..|ins| - 1];
      var (c, tr) := Exec(p, before);
      if i < |tr| {
        TranscriptAnswers(p, before, i);
      } else {
        OnePerPoll(p, before);
        ExecPriority(p, before);
        NextAnswers(c, ins[i].0, ins[i].1);
      }
    }
  }

  lemma {:induction false} WrapAdds(a: nat, b: nat)
    ensures Wrap64(Wrap64(a) + Wrap64(b)) == Wrap64(a + b)
  {
    var m := 0x1_0000_0000_0000_0000;
    var x, y := a % m, b % m;
    assert a == m * (a / m) + x && b == m * (b / m) + y;
    if x + y < m {
      assert a + b == m * (a / m + b / m) + (x + y);
    } else {
      assert a + b == m * (a / m + b / m + 1) + (x + y - m);
    }
  }

  lemma {:induction false} PollTimeNext<A, R>(c: Ctl, micros: nat, t: Turn<A>, outcome: Poll<R>)
    requires c.pollTime == Wrap64(micros)
    ensures var (c', o) := Next(c, t, outcome); c'.pollTime == Wrap64(micros + MeasuredNs(o) / 1_000)
  {
    WrapAdds(micros, Since(t.clock.start, t.clock.leave) / 1_000);
    hide Wrap64;
  }

  /** The poll time holds exactly what the inner polls of the transcript measured. */
  ghost predicate TimeKept<A, R>(c: Ctl, tr: seq<Obs<A, R>>) {
    c.pollTime == Wrap64(PollMicros(tr))
  }

  lemma {:induction false} TimeKeptNext<A, R>(c: Ctl, tr: seq<Obs<A, R>>, t: Turn<A>, outcome: Poll<R>)
    requires TimeKept(c, tr)
    ensures TimeKept(Next(c, t, outcome).0, tr + [Next(c, t, outcome).1])
  {
    hide Next, Wrap64, PollMicros;
    PollTimeNext(c, PollMicros(tr), t, outcome);
    MicrosSnoc(tr, Next(c, t, outcome).1);
  }

  lemma {:induction false} TimeKeptNew<A, R>(p: Priority)
    ensures TimeKept<A, R>(New(p), [])
  {
  }

  /** The recorded poll time of every run is exactly the sum of what its inner polls measured. */
  lemma {:induction false} PollTimeExact<A, R>(p: Priority, ins: seq<(Turn<A>, Poll<R>)>)
    ensures Exec(p, ins).0.pollTime == Wrap64(PollMicros(Exec(p, ins).1))
  {
    ExecTimeKept(p, ins);
  }

  lemma {:induction false} ExecTimeKept<A, R>(p: Priority, ins: seq<(Turn<A>, Poll<R>)>)
    ensures TimeKept(Exec(p, ins).0, Exec(p, ins).1)
  {
    hide Next, TimeKept, Finished;
    if ins == [] {
      TimeKeptNew<A, R>(p);
    } else {
      ExecTimeKept(p, ins[..|ins| - 1]);
      var (c, tr) := Exec(p, ins[..|ins| - 1]);
      if !Finished(tr) {
        TimeKeptNext(c, tr, ins[|ins| - 1].0, ins[|ins| - 1].1);
      }
    }
  }

  // ---------- closed forms ----------

  /** The counter is the number of events modulo 2^32. One full cycle holds 858993460 backoffs,
      one more than a fifth of it: 2^32 - 1 and the wrapped 0 are both multiples of five. */
  lemma {:induction false} CounterClosedForm(events: nat)
    ensures Counter(events) == events % 0x1_0000_0000
    ensures BackoffsAfter(events) == events / 0x1_0000_0000 * 858_993_460 + events % 0x1_0000_0000 / 5
  {
    if events > 0 {
      CounterClosedForm(events - 1);
      CycleStep(events - 1, (events - 1) / 0x1_0000_0000, (events - 1) % 0x1_0000_0000);
    }
  }

  lemma {:induction false} CycleStep(events: nat, cycles: nat, rest: u32)
    requires events == cycles * 0x1_0000_0000 + rest
    ensures (events + 1) % 0x1_0000_0000 == Inc32(rest)
    ensures (events + 1) / 0x1_0000_0000 * 858_993_460 + (events + 1) % 0x1_0000_0000 / 5
         == cycles * 858_993_460 + rest / 5 + if Inc32(rest) % 5 == 0 then 1 else 0
  {
    if rest == 0xFFFF_FFFF {
      assert events + 1 == (cycles + 1) * 0x1_0000_0000;
    } else {
      assert events + 1 == cycles * 0x1_0000_0000 + (rest + 1);
      assert (events + 1) / 0x1_0000_0000 == cycles;
    }
  }

  /** Backoffs at an inner poll, from the number of inner Pendings alone. */
  lemma {:induction false} BackoffsAtEntry(events: nat, q: nat, n: nat)
    requires q == BackoffsAfter(events) && n + q == events && Inc32(Counter(events)) % 5 != 0
    ensures q == n / 4 + n / 3_435_973_836
    ensures events == n + n / 4 + n / 3_435_973_836
  {
    CounterClosedForm(events);
    EntryArithmetic(events / 0x1_0000_0000, events % 0x1_0000_0000 / 5, events % 0x1_0000_0000 % 5, n);
  }

  lemma {:induction false} EntryArithmetic(cycles: nat, fives: nat, rest: nat, n: nat)
    requires rest < 4 && fives < 858_993_459
    requires n == cycles * 0x1_0000_0000 + 5 * fives + rest - (cycles * 858_993_460 + fives)
    ensures n / 4 + n / 3_435_973_836 == cycles * 858_993_460 + fives
  {
    assert n == cycles * 3_435_973_836 + (4 * fives + rest);
    assert n / 3_435_973_836 == cycles;
    assert n == 4 * (cycles * 858_993_459 + fives) + rest;
    assert n / 4 == cycles * 858_993_459 + fives;
  }

  // ---------- theorems about every run ----------

  /** Counter and backoffs as functions of the number of pending events; before the counter wraps,
      the split into backoffs and inner Pendings can be read off the counter itself. */
  ghost predicate SplitByCounter(p: Priority, pendCnt: u32, n: Tally) {
    var events := n.pended + n.backoffs;
    && pendCnt == events % 0x1_0000_0000
    && if p.VeryHigh? then n.backoffs == 0 && n.requested == 0
       else
         && n.backoffs == events / 0x1_0000_0000 * 858_993_460 + events % 0x1_0000_0000 / 5
         && (events < 0x1_0000_0000 ==> n.backoffs == pendCnt / 5 && n.pended == pendCnt - pendCnt / 5)
  }

  lemma {:induction false} ClosedForm<A, R>(p: Priority, ins: seq<(Turn<A>, Poll<R>)>)
    ensures SplitByCounter(p, Exec(p, ins).0.pendCnt, TallyOf(Exec(p, ins).1))
  {
    var (c, tr) := Exec(p, ins);
    ExecPriority(p, ins);
    ExecLaw(p, ins);
    CountsSplit(p, c, TallyOf(tr), |tr|, Finished(tr), JustInserted(tr));
  }

  lemma {:induction false} CountsSplit(p: Priority, c: Ctl, n: Tally, polls: nat, finished: bool, last: bool)
    requires Counts(c, n, polls, finished, last) && c.priority == p
    ensures SplitByCounter(p, c.pendCnt, n)
  {
    var events := n.pended + n.backoffs;
    CounterClosedForm(events);
    if events < 0x1_0000_0000 {
      BelowCycle(events);
    }
  }

  lemma {:induction false} BelowCycle(events: nat)
    requires events < 0x1_0000_0000
    ensures events % 0x1_0000_0000 == events && events / 0x1_0000_0000 == 0
  {
  }

  /** The totals of a finished future whose inner future pended `n.pended` times. */
  ghost predicate Completed(p: Priority, pendCnt: u32, n: Tally, polls: nat) {
    var q := if p.VeryHigh? then 0 else n.pended / 4 + n.pended / 3_435_973_836;
    && n.backoffs == q
    && pendCnt == (n.pended + q) % 0x1_0000_0000
    && polls == n.pended + 1 + q + n.waits
    && n.requested == Millis(FixedDelays(p, n.backoffs) + n.extra)
    && n.extra <= 9 * n.backoffs
  }

  /** A future whose inner future pends N times completes with N/4 + N/3435973836 backoffs. */
  lemma {:induction false} Completion<A, R>(p: Priority, ins: seq<(Turn<A>, Poll<R>)>)
    requires Finished(Exec(p, ins).1)
    ensures Completed(p, Exec(p, ins).0.pendCnt, TallyOf(Exec(p, ins).1), |Exec(p, ins).1|)
  {
    var (c, tr) := Exec(p, ins);
    ExecPriority(p, ins);
    ExecLaw(p, ins);
    CountsCompleted(p, c, TallyOf(tr), |tr|, JustInserted(tr));
  }

  lemma {:induction false} CountsCompleted(p: Priority, c: Ctl, n: Tally, polls: nat, last: bool)
    requires Counts(c, n, polls, true, last) && c.priority == p
    ensures Completed(p, c.pendCnt, n, polls)
  {
    hide Counter, BackoffsAfter, FixedDelays;
    CounterClosedForm(n.pended + n.backoffs);
    if !p.VeryHigh? {
      BackoffsAtEntry(n.pended + n.backoffs, n.backoffs, n.pended);
    }
  }

  /** Before completion: the polls that did not just wait are bounded by the inner Pendings. */
  lemma {:induction false} PollsSoFar<A, R>(p: Priority, ins: seq<(Turn<A>, Poll<R>)>)
    requires !Finished(Exec(p, ins).1)
    ensures var tr := Exec(p, ins).1;
            var n := TallyOf(tr);
            && |tr| == |ins|
            && |ins| == n.waits + n.pended + n.backoffs
            && n.pended + n.backoffs <= PollsFor(n.pended)
  {
    hide TallyOf, Finished, FixedDelays, JustInserted;
    var (c, tr) := Exec(p, ins);
    ExecPriority(p, ins);
    ExecLaw(p, ins);
    OnePerPoll(p, ins);
    BackoffsSoFar(c, TallyOf(tr), |tr|, JustInserted(tr));
  }

  lemma {:induction false} OnePerPoll<A, R>(p: Priority, ins: seq<(Turn<A>, Poll<R>)>)
    ensures !Finished(Exec(p, ins).1) ==> |Exec(p, ins).1| == |ins|
  {
    hide Next;
    if ins != [] {
      OnePerPoll(p, ins[..|ins| - 1]);
    }
  }

  /** Backoffs and inner Pendings of a future whose inner future has pended so often. */
  function PollsFor(pended: nat): nat { pended + pended / 4 + pended / 3_435_973_836 }

  lemma {:induction false} BackoffsSoFar(c: Ctl, n: Tally, polls: nat, last: bool)
    requires Counts(c, n, polls, false, last)
    ensures polls == n.waits + n.pended + n.backoffs
    ensures n.pended + n.backoffs <= PollsFor(n.pended)
  {
    hide Counter, BackoffsAfter, FixedDelays;
    var events := n.pended + n.backoffs;
    CounterClosedForm(events);
    if !c.priority.VeryHigh? {
      SoFarArithmetic(events / 0x1_0000_0000, events % 0x1_0000_0000, n.pended);
    }
  }

  lemma {:induction false} SoFarArithmetic(cycles: nat, rest: u32, n: nat)
    requires n == cycles * 0x1_0000_0000 + rest - (cycles * 858_993_460 + rest / 5)
    ensures cycles * 858_993_460 + rest / 5 <= n / 4 + n / 3_435_973_836
  {
    assert n == cycles * 3_435_973_836 + (rest - rest / 5);
    assert n / 3_435_973_836 >= cycles;
    assert n >= 4 * (cycles * 858_993_459 + rest / 5);
    assert n / 4 >= cycles * 858_993_459 + rest / 5;
  }

  lemma {:induction false} PollsForGrows(pended: nat, limit: nat)
    requires pended <= limit
    ensures PollsFor(pended) <= PollsFor(limit)
  {
  }

  /** Termination: when the inner future pends at most so often, every run under every schedule is
      finished after more than `PollsFor(limit)` polls that did not find a backoff still running. */
  lemma {:induction false} Terminates<A, R>(p: Priority, ins: seq<(Turn<A>, Poll<R>)>, limit: nat)
    requires TallyOf(Exec(p, ins).1).pended <= limit
    requires |ins| - TallyOf(Exec(p, ins).1).waits > PollsFor(limit)
    ensures Finished(Exec(p, ins).1)
  {
    hide Exec, TallyOf, Finished;
    var tr := Exec(p, ins).1;
    if !Finished(tr) {
      PollsSoFar(p, ins);
      PollsForGrows(TallyOf(tr).pended, limit);
    }
  }

  /** One backoff for every four inner Pendings: exactly below 3435973836 inner Pendings. */
  lemma {:induction false} QuarterExactly<A, R>(p: Priority, ins: seq<(Turn<A>, Poll<R>)>)
    requires Finished(Exec(p, ins).1) && !p.VeryHigh?
    ensures var n := TallyOf(Exec(p, ins).1);
            n.backoffs == n.pended / 4 <==> n.pended < 3_435_973_836
  {
    Completion(p, ins);
  }

  /** No two backoffs without an inner poll between them: exactly as long as the counter has not
      wrapped, because both 2^32 - 1 and the 0 after it are multiples of five. */
  lemma {:induction false} SpacedExactly<A, R>(p: Priority, ins: seq<(Turn<A>, Poll<R>)>)
    requires !p.VeryHigh?
    ensures Spaced(Exec(p, ins).1) <==> Events(TallyOf(Exec(p, ins).1)) < 0x1_0000_0000
  {
    if ins != [] {
      var before := ins[..|ins| - 1];
      SpacedExactly(p, before);
      var (c, tr) := Exec(p, before);
      if !Finished(tr) {
        var t, outcome := ins[|ins| - 1].0, ins[|ins| - 1].1;
        var o := Next(c, t, outcome).1;
        ExecPriority(p, before);
        ExecLaw(p, before);
        TallySnoc(tr, o);
        SpacedSnoc(tr, o);
        DoubledOnlyAtWrap(c, TallyOf(tr), |tr|, JustInserted(tr), t, outcome);
      }
    }
  }

  /** Of a finished future: exactly below 3435973836 inner Pendings. */
  lemma {:induction false} SpacedByPendings<A, R>(p: Priority, ins: seq<(Turn<A>, Poll<R>)>)
    requires Finished(Exec(p, ins).1) && !p.VeryHigh?
    ensures Spaced(Exec(p, ins).1) <==> TallyOf(Exec(p, ins).1).pended < 3_435_973_836
  {
    hide Exec, Spaced, TallyOf, Finished, FixedDelays;
    SpacedExactly(p, ins);
    Completion(p, ins);
  }

  lemma {:induction false} CounterBelow(events: nat)
    ensures events < 0x1_0000_0000 ==> Counter(events) == events
  {
    hide Counter, BackoffsAfter;
    CounterClosedForm(events);
    if events < 0x1_0000_0000 {
      BelowCycle(events);
    }
  }

  lemma {:induction false} FivesInARow(x: u32)
    ensures x % 5 == 0 && Inc32(x) % 5 == 0 <==> x == 0xFFFF_FFFF
  {
  }

  function Events(n: Tally): nat { n.pended + n.backoffs }

  lemma {:induction false} DoubledOnlyAtWrap<A, R>(c: Ctl, n: Tally, polls: nat, last: bool, t: Turn<A>, outcome: Poll<R>)
    requires Counts(c, n, polls, false, last) && !c.priority.VeryHigh?
    ensures var o := Next(c, t, outcome).1;
            Events(n) <= Events(n.Add(o)) <= Events(n) + 1 &&
            (Events(n) < 0x1_0000_0000 ==>
               (o.act.Inserted? && last <==> Events(n.Add(o)) >= 0x1_0000_0000))
  {
    CounterBelow(Events(n));
    FivesInARow(c.pendCnt);
  }

  /** Delay lengths and the priorities. For the same number of inner Pendings the totals differ by
      the table values and by the jitter drawn. */
  lemma {:induction false} PrioritySeparation<A, R, B>(p1: Priority, ins1: seq<(Turn<A>, Poll<R>)>, p2: Priority, ins2: seq<(Turn<A>, Poll<B>)>)
    requires Finished(Exec(p1, ins1).1) && Finished(Exec(p2, ins2).1) && !p1.VeryHigh? && !p2.VeryHigh?
    requires TallyOf(Exec(p1, ins1).1).pended == TallyOf(Exec(p2, ins2).1).pended
    ensures Separated(p1, TallyOf(Exec(p1, ins1).1), p2, TallyOf(Exec(p2, ins2).1))
  {
    Completion(p1, ins1);
    Completion(p2, ins2);
    SameBackoffs(p1, TallyOf(Exec(p1, ins1).1), p2, TallyOf(Exec(p2, ins2).1));
  }

  /** Only VeryLow is ordered against every other level, and Low against High, whatever jitter is
      drawn; Low/Middle and Middle/High only up to the difference of the jitters. */
  ghost predicate Separated(p1: Priority, n1: Tally, p2: Priority, n2: Tally) {
    var q := n1.backoffs;
    && n2.backoffs == q
    && (p1.VeryLow? && p2.Low? ==> n1.requested - n2.requested == 1_000_000 * (10 * q + n1.extra - n2.extra))
    && (p1.Low? && p2.Middle? ==> n1.requested - n2.requested == 1_000_000 * (7 * q + n1.extra - n2.extra))
    && (p1.Middle? && p2.High? ==> n1.requested - n2.requested == 1_000_000 * (3 * q + n1.extra - n2.extra))
    && (p1.VeryLow? && !p2.VeryLow? && q > 0 ==> n1.requested > n2.requested)
    && (p1.Low? && p2.High? && q > 0 ==> n1.requested > n2.requested)
  }

  lemma {:induction false} SameBackoffs(p1: Priority, n1: Tally, p2: Priority, n2: Tally)
    requires !p1.VeryHigh? && !p2.VeryHigh? && n1.backoffs == n2.backoffs
    requires n1.requested == Millis(FixedDelays(p1, n1.backoffs) + n1.extra) && n1.extra <= 9 * n1.backoffs
    requires n2.requested == Millis(FixedDelays(p2, n2.backoffs) + n2.extra) && n2.extra <= 9 * n2.backoffs
    ensures Separated(p1, n1, p2, n2)
  {
  }

  // ---------- runs with clocks ----------

  /** A run the executor and the clock allow: readings never go back, no sleep is ready before
      its deadline, and a future that was ready is not polled again. */
  ghost predicate Legal<A, R>(p: Priority, ins: seq<(Turn<A>, Poll<R>)>) {
    ins == [] ||
    var before := ins[..|ins| - 1];
    var t := ins[|ins| - 1].0;
    var (c, tr) := Exec(p, before);
    && Legal(p, before)
    && !Finished(tr)
    && t.clock.Monotone()
    && (before != [] ==> before[|before| - 1].0.clock.finish <= t.clock.start)
    && TimerContract(Decide(c, t), c.phase, t)
  }

  /** Measured poll time and requested sleep fit one after the other into the time since the
      first reading, apart from `Overlap`. */
  ghost predicate Fits(c: Ctl, pollNs: nat, requested: nat, overlap: nat, origin: nat, now: nat) {
    && 1_000 * c.pollTime <= pollNs
    && origin + pollNs + requested <= overlap + match c.phase { case Common => now case Backoff(deadline) => deadline }
  }

  lemma {:induction false} NoMoreMicros(pollTime: nat, measured: nat)
    ensures 1_000 * Wrap64(pollTime + Micros(measured)) <= 1_000 * pollTime + measured
  {
    WrapsDown(measured / 1_000);
    WrapsDown(pollTime + Micros(measured));
    hide Wrap64;
  }

  lemma {:induction false} WrapsDown(x: nat)
    ensures Wrap64(x) <= x
  {
  }

  lemma {:induction false} FitsNext<A, R>(c: Ctl, pollNs: nat, requested: nat, overlap: nat, origin: nat, now: nat, t: Turn<A>, outcome: Poll<R>)
    requires Fits(c, pollNs, requested, overlap, origin, now)
    requires t.clock.Monotone() && now <= t.clock.start && TimerContract(Decide(c, t), c.phase, t)
    ensures var (c', o) := Next(c, t, outcome);
            var delay := match o.act { case Inserted(d, _, _, _) => d case _ => 0 };
            Fits(c', pollNs + MeasuredNs(o), requested + delay, overlap + ReachBack(o), origin, t.clock.finish)
  {
    var measured := Since(t.clock.start, t.clock.leave);
    NoMoreMicros(c.pollTime, measured);
    hide Micros, Wrap64;
  }

  lemma {:induction false} BeginKept<A, R>(c: Ctl, t: Turn<A>, outcome: Poll<R>)
    ensures Next(c, t, outcome).0.beginTime == if c.beginTime.None? then Some(t.clock.begin) else c.beginTime
  {
  }

  /** The last poll of a legal run. */
  lemma {:induction false} LegalStep<A, R>(p: Priority, ins: seq<(Turn<A>, Poll<R>)>)
    requires Legal(p, ins) && ins != []
    ensures var before := ins[..|ins| - 1];
            var (t, outcome) := ins[|ins| - 1];
            var (c, tr) := Exec(p, before);
            && Legal(p, before) && t.clock.Monotone() && TimerContract(Decide(c, t), c.phase, t)
            && (before != [] ==> before[|before| - 1].0.clock.finish <= t.clock.start)
            && Exec(p, ins) == (Next(c, t, outcome).0, tr + [Next(c, t, outcome).1])
  {
    hide Decide, Next, TimerContract;
  }

  /** `Fits` for the totals of a run, up to a moment. */
  ghost predicate RunFits<A, R>(c: Ctl, tr: seq<Obs<A, R>>, origin: nat, now: nat) {
    Fits(c, PollNs(tr), TallyOf(tr).requested, Overlap(tr), origin, now)
  }

  lemma {:induction false} FitsNew<A, R>(p: Priority, origin: nat)
    ensures Exec<A, R>(p, []) == (New(p), [])
    ensures RunFits<A, R>(New(p), [], origin, origin)
  {
  }

  lemma {:induction false} RunFitsNext<A, R>(c: Ctl, tr: seq<Obs<A, R>>, origin: nat, now: nat, t: Turn<A>, outcome: Poll<R>)
    requires RunFits(c, tr, origin, now)
    requires t.clock.Monotone() && now <= t.clock.start && TimerContract(Decide(c, t), c.phase, t)
    ensures var (c', o) := Next(c, t, outcome); RunFits(c', tr + [o], origin, t.clock.finish)
  {
    hide Next, Decide, TimerContract, Fits, PollNs, TallyOf, Overlap;
    var o := Next(c, t, outcome).1;
    TallySnoc(tr, o);
    MeasuresSnoc(tr, o);
    FitsNext(c, PollNs(tr), TallyOf(tr).requested, Overlap(tr), origin, now, t, outcome);
  }

  lemma {:induction false} WallClock<A, R>(p: Priority, ins: seq<(Turn<A>, Poll<R>)>)
    requires Legal(p, ins) && ins != []
    ensures var (c, tr) := Exec(p, ins);
            && c.beginTime == Some(ins[0].0.clock.begin)
            && RunFits(c, tr, ins[0].0.clock.start, ins[|ins| - 1].0.clock.finish)
  {
    LegalStep(p, ins);
    var before := ins[..|ins| - 1];
    var (t, outcome) := ins[|ins| - 1];
    var (c, tr) := Exec(p, before);
    BeginKept(c, t, outcome);
    if before == [] {
      FitsNew<A, R>(p, t.clock.start);
      RunFitsNext(c, tr, t.clock.start, t.clock.start, t, outcome);
    } else {
      hide Legal, Exec, Next, Decide, TimerContract, RunFits;
      WallClock(p, before);
      RunFitsNext(c, tr, ins[0].0.clock.start, before[|before| - 1].0.clock.finish, t, outcome);
    }
  }

  function RecordOf(c: Ctl, clock: Clock): OneFutureRecord
    requires c.beginTime.Some?
  {
    OneFutureRecord(Micros(Since(c.beginTime.value, clock.finish)), c.pollTime)
  }

  lemma {:induction false} ReadyInCommon<A, R>(p: Priority, ins: seq<(Turn<A>, Poll<R>)>)
    requires Legal(p, ins) && Finished(Exec(p, ins).1)
    ensures Exec(p, ins).0.phase.Common?
  {
    hide TimerContract;
  }

  lemma {:induction false} WholeMillis<A, R>(p: Priority, ins: seq<(Turn<A>, Poll<R>)>)
    ensures var n := TallyOf(Exec(p, ins).1); n.requested == Millis(FixedDelays(p, n.backoffs) + n.extra)
  {
    hide Exec, TallyOf, Counter, BackoffsAfter, FixedDelays, Finished, JustInserted;
    ExecPriority(p, ins);
    ExecLaw(p, ins);
  }

  lemma {:induction false} Truncate(cpu: nat, ms: nat, total: nat)
    ensures 1_000 * cpu + Millis(ms) <= total ==> 1_000 * cpu + Millis(ms) <= 1_000 * (total / 1_000)
    ensures total / 1_000 < 0x1_0000_0000_0000_0000 ==> Micros(total) == total / 1_000
  {
    assert 1_000 * cpu + Millis(ms) == 1_000 * (cpu + 1_000 * ms);
  }

  /** Nanoseconds between the two readings on entry, over all polls. */
  function EntryGaps<A, R>(ins: seq<(Turn<A>, Poll<R>)>): nat {
    if ins == [] then 0
    else EntryGaps(ins[..|ins| - 1]) + Since(ins[|ins| - 1].0.clock.start, ins[|ins| - 1].0.clock.check)
  }

  /** What polls measured of backoffs that ended during them is no more than the gaps between the
      reading on entry and the one at which the sleep was polled. */
  lemma {:induction false} OverlapBound<A, R>(p: Priority, ins: seq<(Turn<A>, Poll<R>)>)
    requires Legal(p, ins)
    ensures Overlap(Exec(p, ins).1) <= EntryGaps(ins)
  {
    if ins != [] {
      hide Decide, Overlap, TimerContract;
      var before := ins[..|ins| - 1];
      OverlapBound(p, before);
      var (c, tr) := Exec(p, before);
      var (t, outcome) := ins[|ins| - 1];
      ReachesBack(c, t, outcome);
      MeasuresSnoc(tr, Next(c, t, outcome).1);
    }
  }

  lemma {:induction false} ReachesBack<A, R>(c: Ctl, t: Turn<A>, outcome: Poll<R>)
    requires TimerContract(Decide(c, t), c.phase, t)
    ensures ReachBack<A, R>(Next(c, t, outcome).1) <= Since(t.clock.start, t.clock.check)
  {
  }

  /** Recorded poll time and delays against the recorded total, up to this slack. */
  ghost predicate Accounted(c: Ctl, requested: nat, slack: nat, first: Clock, last: Clock) {
    && c.beginTime == Some(first.begin)
    && 1_000 * c.pollTime + requested <= last.finish - first.begin + slack
    && (slack == 0 && (last.finish - first.begin) / 1_000 < 0x1_0000_0000_0000_0000 ==>
          1_000 * RecordOf(c, last).cpuMicro + requested <= 1_000 * RecordOf(c, last).totalMicro)
  }

  lemma {:induction false} FitsAccounted<A, R>(c: Ctl, tr: seq<Obs<A, R>>, ms: nat, first: Clock, last: Clock)
    requires RunFits(c, tr, first.start, last.finish) && TallyOf(tr).requested == Millis(ms) && c.phase.Common?
    requires c.beginTime == Some(first.begin) && first.start <= first.begin <= last.finish
    ensures Accounted(c, TallyOf(tr).requested, Since(first.start, first.begin) + Overlap(tr), first, last)
  {
    hide TallyOf, Overlap, PollNs, Micros;
    Truncate(c.pollTime, ms, Since(first.begin, last.finish));
  }

  /** Conservation of wall-clock time at completion: the recorded poll time and all the delays fit
      into the recorded total. The slack is what lies between the two readings on entry of the
      first poll, and what polls measured of backoffs that ended during them, which is no more
      than the gaps between the readings on entry. */
  lemma {:induction false} CompletionTime<A, R>(p: Priority, ins: seq<(Turn<A>, Poll<R>)>)
    requires Legal(p, ins) && Finished(Exec(p, ins).1) && !p.VeryHigh?
    ensures var (c, tr) := Exec(p, ins);
            var first, last := ins[0].0.clock, ins[|ins| - 1].0.clock;
            && Accounted(c, TallyOf(tr).requested, Since(first.start, first.begin) + Overlap(tr), first, last)
            && Overlap(tr) <= EntryGaps(ins)
  {
    assert ins != [];
    hide Legal, Exec, TallyOf, Overlap, Finished, FixedDelays, RunFits, Accounted, EntryGaps;
    var (c, tr) := Exec(p, ins);
    WallClock(p, ins);
    FirstReading(p, ins);
    WholeMillis(p, ins);
    ReadyInCommon(p, ins);
    FitsAccounted(c, tr, FixedDelays(p, TallyOf(tr).backoffs) + TallyOf(tr).extra, ins[0].0.clock, ins[|ins| - 1].0.clock);
    OverlapBound(p, ins);
  }

  lemma {:induction false} RecordIs(c: Ctl, clock: Clock)
    requires c.beginTime.Some? && c.beginTime.value <= clock.finish
    ensures RecordOf(c, clock) == OneFutureRecord(Wrap64((clock.finish - c.beginTime.value) / 1_000), c.pollTime)
  {
    hide Wrap64;
  }

  /** The record of a finished future: the microseconds from the first begin reading to the last
      finish reading, and the sum of what the inner polls measured. */
  lemma {:induction false} RecordExact<A, R>(p: Priority, ins: seq<(Turn<A>, Poll<R>)>)
    requires Legal(p, ins) && Finished(Exec(p, ins).1)
    ensures var (c, tr) := Exec(p, ins);
            var first, last := ins[0].0.clock, ins[|ins| - 1].0.clock;
            && first.begin <= last.finish
            && c.beginTime.Some?
            && RecordOf(c, last) == OneFutureRecord(Wrap64((last.finish - first.begin) / 1_000), Wrap64(PollMicros(tr)))
  {
    assert ins != [];
    hide Legal, Exec, Finished, RunFits, PollMicros, Wrap64, RecordOf;
    WallClock(p, ins);
    FirstReading(p, ins);
    PollTimeExact(p, ins);
    RecordIs(Exec(p, ins).0, ins[|ins| - 1].0.clock);
  }

  /** With one clock reading on entry, no measured poll reaches back into a backoff. */
  lemma {:induction false} NoOverlap<A, R>(p: Priority, ins: seq<(Turn<A>, Poll<R>)>)
    requires Legal(p, ins)
    requires forall i :: 0 <= i < |ins| ==> ins[i].0.clock.start == ins[i].0.clock.check
    ensures Overlap(Exec(p, ins).1) == 0
  {
    hide Legal, Exec, Overlap;
    OverlapBound(p, ins);
    NoGaps(ins);
  }

  lemma {:induction false} NoGaps<A, R>(ins: seq<(Turn<A>, Poll<R>)>)
    requires forall i :: 0 <= i < |ins| ==> ins[i].0.clock.start == ins[i].0.clock.check
    ensures EntryGaps(ins) == 0
  {
    if ins != [] {
      NoGaps(ins[..|ins| - 1]);
      assert ins[|ins| - 1].0.clock.start == ins[|ins| - 1].0.clock.check;
    }
  }

  lemma {:induction false} FirstReading<A, R>(p: Priority, ins: seq<(Turn<A>, Poll<R>)>)
    requires Legal(p, ins) && ins != []
    ensures ins[0].0.clock.start <= ins[0].0.clock.begin
    ensures |ins| > 1 ==> ins[0].0.clock.finish <= ins[|ins| - 1].0.clock.start
    ensures ins[0].0.clock.Monotone() && ins[|ins| - 1].0.clock.Monotone()
  {
    if |ins| > 1 {
      FirstReading(p, ins[..|ins| - 1]);
    }
  }

  /** So with one clock reading on entry, and a total that fits the record, nothing is left over. */
  lemma {:induction false} OneReading<A, R>(p: Priority, ins: seq<(Turn<A>, Poll<R>)>)
    requires Legal(p, ins) && Finished(Exec(p, ins).1) && !p.VeryHigh?
    requires forall i :: 0 <= i < |ins| ==> ins[i].0.clock.start == ins[i].0.clock.check
    requires (ins[|ins| - 1].0.clock.finish - ins[0].0.clock.start) / 1_000 < 0x1_0000_0000_0000_0000
    ensures var (c, tr) := Exec(p, ins);
            c.beginTime.Some? &&
            var r := RecordOf(c, ins[|ins| - 1].0.clock);
            1_000 * r.cpuMicro + TallyOf(tr).requested <= 1_000 * r.totalMicro
  {
    assert ins != [];
    hide Legal, TallyOf, Overlap, Exec, Finished, RecordOf;
    CompletionTime(p, ins);
    NoOverlap(p, ins);
    FirstReading(p, ins);
    assert ins[0].0.clock.start == ins[0].0.clock.check;
  }

  // ---------- the law at work: a run of any length, and one past the wrap ----------

  /** When the next poll of a run may start, with an old sleep over by then. */
  function NextStart<A, R>(c: Ctl, ins: seq<(Turn<A>, Poll<R>)>): nat {
    Max(if ins == [] then 0 else ins[|ins| - 1].0.clock.finish, match c.phase case Common => 0 case Backoff(d) => d)
  }

  function PlainTurn<A>(at: nat, jitter: Jitter, ambient: A): Turn<A> {
    Turn(Clock(at, at, at, at, at, at, at), true, false, jitter, Granted, ambient)
  }

  predicate BackoffDue(p: Priority, pendCnt: u32) { Inc32(pendCnt) % 5 == 0 && !p.VeryHigh? }

  /** So many inner Pendings, and the same jitter at every backoff. */
  predicate Steady(n: Tally, pended: nat, j: Jitter) {
    n.pended == pended && n.extra == j * n.backoffs
  }

  /** A legal, unfinished run with so many inner Pendings, this counter and this jitter throughout. */
  ghost predicate At<A, R>(p: Priority, ins: seq<(Turn<A>, Poll<R>)>, n: nat, pendCnt: u32, j: Jitter) {
    && Legal(p, ins)
    && var (c, tr) := Exec(p, ins);
       !Finished(tr) && Steady(TallyOf(tr), n, j) && c.pendCnt == pendCnt
  }

  lemma {:induction false} NextPlain<A, R>(c: Ctl, n: Tally, pended: nat, t: Turn<A>, outcome: Poll<R>)
    requires t.sleepReady && Steady(n, pended, t.jitter)
    ensures var (c', o) := Next(c, t, outcome);
            && (BackoffDue(c.priority, c.pendCnt) ==>
                  c'.pendCnt == Inc32(c.pendCnt) && !Ends(o) && Steady(n.Add(o), pended, t.jitter))
            && (!BackoffDue(c.priority, c.pendCnt) && outcome.Pending? ==>
                  c'.pendCnt == Inc32(c.pendCnt) && !Ends(o) && Steady(n.Add(o), pended + 1, t.jitter))
            && (!BackoffDue(c.priority, c.pendCnt) && outcome.Ready? ==> Ends(o) && Steady(n.Add(o), pended, t.jitter))
  {
    assert t.jitter * (n.backoffs + 1) == t.jitter * n.backoffs + t.jitter;
  }

  lemma {:induction false} PlainTurnFits<A>(c: Ctl, at: nat, jitter: Jitter, ambient: A)
    requires c.phase.Backoff? ==> c.phase.deadline <= at
    ensures var t := PlainTurn(at, jitter, ambient); TimerContract(Decide(c, t), c.phase, t)
  {
  }

  /** One more poll of a legal run, at the earliest moment at which nothing is left to wait for. */
  lemma {:induction false} Extend<A, R>(p: Priority, ins: seq<(Turn<A>, Poll<R>)>, j: Jitter, ambient: A, outcome: Poll<R>)
    returns (more: seq<(Turn<A>, Poll<R>)>, t: Turn<A>)
    requires Legal(p, ins) && !Finished(Exec(p, ins).1)
    ensures Legal(p, more) && t.sleepReady && t.jitter == j
    ensures var (c, tr) := Exec(p, ins);
            var (c', o) := Next(c, t, outcome);
            && c.priority == p
            && Exec(p, more) == (c', tr + [o])
            && TallyOf(tr + [o]) == TallyOf(tr).Add(o)
            && (Finished(tr + [o]) <==> Ends(o))
  {
    hide Decide, Next, TallyOf;
    var (c, tr) := Exec(p, ins);
    t := PlainTurn(NextStart(c, ins), j, ambient);
    PlainTurnFits(c, t.clock.start, j, ambient);
    ExecPriority(p, ins);
    more := ins + [(t, outcome)];
    assert more[..|more| - 1] == ins;
    TallySnoc(tr, Next(c, t, outcome).1);
  }

  lemma {:induction false} PollPlain<A, R>(p: Priority, ins: seq<(Turn<A>, Poll<R>)>, n: nat, k: u32, j: Jitter, ambient: A, outcome: Poll<R>)
    returns (more: seq<(Turn<A>, Poll<R>)>)
    requires At(p, ins, n, k, j)
    ensures BackoffDue(p, k) ==> At(p, more, n, Inc32(k), j)
    ensures outcome.Pending? && !BackoffDue(p, k) ==> At(p, more, n + 1, Inc32(k), j)
    ensures outcome.Ready? && !BackoffDue(p, k) ==>
              Legal(p, more) && Finished(Exec(p, more).1) && Steady(TallyOf(Exec(p, more).1), n, j)
  {
    hide Next, Steady;
    var t;
    more, t := Extend(p, ins, j, ambient, outcome);
    var (c, tr) := Exec(p, ins);
    NextPlain(c, TallyOf(tr), n, t, outcome);
  }

  /** How many backoffs in a row are due: never more than two. */
  function Dues(p: Priority, k: u32): nat {
    if !BackoffDue(p, k) then 0 else if !BackoffDue(p, Inc32(k)) then 1 else 2
  }

  lemma {:induction false} DuesDrop(p: Priority, k: u32)
    requires BackoffDue(p, k)
    ensures Dues(p, Inc32(k)) < Dues(p, k)
  {
    FivesInARow(Inc32(k));
  }

  /** The measure that drops at every poll but a wait: Pendings left, then backoffs due in a row. */
  lemma {:induction false} MeasureDrops<A, R>(c: Ctl, n: Tally, t: Turn<A>, outcome: Poll<R>)
    requires !(c.phase.Backoff? && !t.sleepReady)
    ensures var (c', o) := Next(c, t, outcome);
            || Ends(o)
            || n.Add(o).pended == n.pended + 1
            || (n.Add(o).pended == n.pended && Dues(c.priority, c'.pendCnt) < Dues(c.priority, c.pendCnt))
  {
    if BackoffDue(c.priority, c.pendCnt) {
      DuesDrop(c.priority, c.pendCnt);
    }
  }

  /** Sit out the backoffs that are due. */
  lemma {:induction false} SitOut<A, R>(p: Priority, ins: seq<(Turn<A>, Poll<R>)>, n: nat, k: u32, j: Jitter, ambient: A)
    returns (more: seq<(Turn<A>, Poll<R>)>, k': u32)
    requires At(p, ins, n, k, j)
    ensures At(p, more, n, k', j) && !BackoffDue(p, k')
    decreases Dues(p, k)
  {
    more, k' := ins, k;
    if BackoffDue(p, k) {
      DuesDrop(p, k);
      more := PollPlain(p, ins, n, k, j, ambient, Pending);
      more, k' := SitOut(p, more, n, Inc32(k), j, ambient);
    }
  }

  /** Every number of inner Pendings is reached by a legal run whose next poll enters the inner
      future. */
  lemma {:induction false} ReachPendings<A, R>(p: Priority, n: nat, j: Jitter, ambient: A) returns (ins: seq<(Turn<A>, Poll<R>)>, k: u32)
    ensures At(p, ins, n, k, j) && !BackoffDue(p, k)
  {
    if n == 0 {
      ins, k := [], 0;
      assert Legal(p, ins);
    } else {
      ins, k := ReachPendings(p, n - 1, j, ambient);
      ins := PollPlain(p, ins, n - 1, k, j, ambient, Pending);
      ins, k := SitOut(p, ins, n, Inc32(k), j, ambient);
    }
  }

  /** For every N and every jitter there is a legal run that pends exactly N times, draws that
      jitter at every backoff and completes: both ends of the bounds on the total delay are met. */
  lemma {:induction false} CompletesAfter<A, R>(p: Priority, n: nat, j: Jitter, ambient: A, value: R) returns (ins: seq<(Turn<A>, Poll<R>)>)
    ensures Legal(p, ins) && Finished(Exec(p, ins).1)
    ensures Steady(TallyOf(Exec(p, ins).1), n, j)
  {
    var k;
    ins, k := ReachPendings(p, n, j, ambient);
    ins := PollPlain(p, ins, n, k, j, ambient, Ready(value));
  }

  /** The shortest future that gets one backoff more than a quarter of its inner Pendings, and two
      backoffs in a row. */
  lemma {:induction false} OneBackoffTooMany(p: Priority) returns (ins: seq<(Turn<()>, Poll<()>)>)
    requires !p.VeryHigh?
    ensures Legal(p, ins) && Finished(Exec(p, ins).1)
    ensures TallyOf(Exec(p, ins).1).pended == 3_435_973_836
    ensures TallyOf(Exec(p, ins).1).backoffs == 3_435_973_836 / 4 + 1
    ensures !Spaced(Exec(p, ins).1)
  {
    ins := CompletesAfter(p, 3_435_973_836, 0, (), ());
    Completion(p, ins);
    SpacedByPendings(p, ins);
  }

  /** Jitter can turn neighbours in the table around: with four inner Pendings each, a Low future can
      be delayed for 20 ms and a Middle one for 22, a Middle one for 13 and a High one for 19. */
  lemma {:induction false} JitterReverses(p1: Priority, p2: Priority) returns (ins1: seq<(Turn<()>, Poll<()>)>, ins2: seq<(Turn<()>, Poll<()>)>)
    requires (p1.Low? && p2.Middle?) || (p1.Middle? && p2.High?)
    ensures Legal(p1, ins1) && Finished(Exec(p1, ins1).1) && TallyOf(Exec(p1, ins1).1).pended == 4
    ensures Legal(p2, ins2) && Finished(Exec(p2, ins2).1) && TallyOf(Exec(p2, ins2).1).pended == 4
    ensures TallyOf(Exec(p1, ins1).1).requested < TallyOf(Exec(p2, ins2).1).requested
  {
    ins1 := CompletesAfter(p1, 4, 0, (), ());
    ins2 := CompletesAfter(p2, 4, 9, (), ());
    Completion(p1, ins1);
    Completion(p2, ins2);
  }

  // ---------- the wrapper itself ----------

  class PendingFuture<S, A, R> {
    const handle: Priority
    /** The inner future: from its state and what it can see, a new state and an answer. */
    const behaviour: (S, A) -> (S, Poll<R>)
    var future: S
    var pendCnt: u32
    var state: Phase
    var beginTime: Option<nat>
    var pollTime: u64
    ghost const initial: S
    ghost var transcript: seq<Obs<A, R>>

    function View(): Ctl
      reads this
    {
      Ctl(handle, state, pendCnt, beginTime, pollTime)
    }

    ghost predicate Valid()
      reads this
    {
      Law(View(), transcript) && TimeKept(View(), transcript) && Faithful(behaviour, initial, future, transcript)
    }

    constructor (handle: Priority, behaviour: (S, A) -> (S, Poll<R>), future: S)
      ensures Valid() && View() == New(handle) && transcript == []
      ensures this.behaviour == behaviour && this.future == future && initial == future
    {
      hide Law, TimeKept, Faithful;
      initial := future;
      this.handle, this.behaviour, this.future := handle, behaviour, future;
      pendCnt, state, beginTime, pollTime := 0, Common, None, 0;
      transcript := [];
      new;
      FaithfulNew<S, A, R>(behaviour, future);
      LawNew<A, R>(handle);
      TimeKeptNew<A, R>(handle);
    }

    /** One poll. `woken` tells whether the task's own waker was called; `record` is what goes
        into the completion records. */
    method Poll(t: Turn<A>) returns (res: Poll<R>, woken: bool, record: Option<OneFutureRecord>)
      requires Valid() && !Finished(transcript)
      modifies this
      ensures Valid()
      ensures var (c, o) := Next(old(View()), t, behaviour(old(future), t.ambient).1);
              && View() == c
              && transcript == old(transcript) + [o]
              && future == (if o.act.Polled? then behaviour(old(future), t.ambient).0 else old(future))
              && res == (if o.act.Polled? then o.act.outcome else Pending)
              && (woken <==> o.act.Inserted? && o.act.fired)
      ensures record == if res.Ready? && beginTime.Some? then Some(RecordOf(View(), t.clock)) else None
    {
      hide Law, TimeKept, Faithful, Wrap64, Micros, Since, Millis, FixedIntervalCount;
      LawNext(View(), transcript, t, behaviour(future, t.ambient).1);
      TimeKeptNext(View(), transcript, t, behaviour(future, t.ambient).1);
      FaithfulSnoc(behaviour, initial, future, transcript, Next(View(), t, behaviour(future, t.ambient).1).1);
      transcript := transcript + [Next(View(), t, behaviour(future, t.ambient).1).1];
      woken, record := false, None;
      if beginTime == None {
        beginTime := Some(t.clock.begin);
      }
      match state {
        case Common =>
        case Backoff(_) =>
          if t.sleepReady {
            state := Common;
          } else {
            return Pending, false, None;
          }
      }
      var pendPeriod := FixedIntervalCount(handle);
      if Inc32(pendCnt) % 5 == 0 {
        if pendPeriod.Some? {
          pendCnt := Inc32(pendCnt);
          state := Backoff(t.clock.create + Millis(pendPeriod.value + t.jitter));
          if t.freshReady {
            state := Common;
            return Pending, true, None;
          } else {
            return Pending, false, None;
          }
        }
      }
      var (inner, answer) := behaviour(future, t.ambient);
      future := inner;
      pollTime := Wrap64(pollTime + Micros(Since(t.clock.start, t.clock.leave)));
      match answer {
        case Ready(_) =>
          record := Some(OneFutureRecord(Micros(Since(beginTime.value, t.clock.finish)), pollTime));
        case Pending =>
          pendCnt := Inc32(pendCnt);
      }
      res := answer;
    }
  }
}
