/**
 Rate-limited mode: every poll that is not waiting asks a limiter shared with other futures for
 admission, and sleeps for as long as the limiter says when it is refused.
 */
module ModeRateLimiter {
  import opened Polling
  import opened Transparency
  import opened RuntimeHandle

  datatype Ctl = Ctl(limited: bool, phase: Phase, pendCnt: u32)

  function New(limited: bool): Ctl {
    Ctl(limited, Common, 0)
  }

  /** Does this poll call `try_wait`? */
  predicate Asks<A>(c: Ctl, t: Turn<A>) {
    c.limited && !(c.phase.Backoff? && !t.sleepReady)
  }

  function Decide<A>(c: Ctl, t: Turn<A>): Gate {
    if c.phase.Backoff? && !t.sleepReady then Waits
    else if c.limited && t.admission.Refused? then Inserts(t.admission.wait, 0)
    else Enters
  }

  /** One poll, when polling the inner future would answer `outcome`. */
  function Next<A, R>(c: Ctl, t: Turn<A>, outcome: Poll<R>): (Ctl, Obs<A, R>) {
    var g := Decide(c, t);
    var asked := if Asks(c, t) then Inc32(c.pendCnt) else c.pendCnt;
    (Ctl(c.limited, PhaseAfter(g, c.phase, t), if g.Enters? && outcome.Pending? then Inc32(asked) else asked),
     Observe(g, c.phase, t, outcome, t.clock.enter))
  }

  // ---------- accounting ----------

  ghost predicate Accounts(c: Ctl, n: Tally, polls: nat, finished: bool) {
    && c.pendCnt == Counter(if c.limited then n.entered + n.backoffs + n.pended else n.pended)
    && polls == n.waits + n.backoffs + n.entered
    && n.entered == n.pended + (if finished then 1 else 0)
    && n.expired + (if c.phase.Backoff? then 1 else 0) <= n.backoffs
    && (!c.limited ==> n.backoffs == 0)
  }

  ghost predicate Law<A, R>(c: Ctl, tr: seq<Obs<A, R>>) {
    Accounts(c, TallyOf(tr), |tr|, Finished(tr))
  }

  lemma {:induction false} LawNew<A, R>(limited: bool)
    ensures Law<A, R>(New(limited), [])
  {
    assert TallyOf<A, R>([]) == Tally(0, 0, 0, 0, 0, 0, 0);
  }

  lemma {:induction false} AccountsNext<A, R>(c: Ctl, n: Tally, polls: nat, t: Turn<A>, outcome: Poll<R>)
    requires Accounts(c, n, polls, false)
    ensures var (c', o) := Next(c, t, outcome);
            Accounts(c', n.Add(o), polls + 1, Ends(o))
  {
    var so := if c.limited then n.entered + n.backoffs + n.pended else n.pended;
    assert Counter(so + 1) == Inc32(Counter(so));
    assert Counter(so + 2) == Inc32(Counter(so + 1));
  }

  lemma {:induction false} LawNext<A, R>(c: Ctl, tr: seq<Obs<A, R>>, t: Turn<A>, outcome: Poll<R>)
    requires Law(c, tr) && !Finished(tr)
    ensures Law(Next(c, t, outcome).0, tr + [Next(c, t, outcome).1])
  {
    hide Accounts, TallyOf;
    AccountsNext(c, TallyOf(tr), |tr|, t, outcome);
    TallySnoc(tr, Next(c, t, outcome).1);
  }

  /** A run: the executor polls until the future is ready. */
  function Exec<A, R>(limited: bool, ins: seq<(Turn<A>, Poll<R>)>): (Ctl, seq<Obs<A, R>>) {
    if ins == [] then (New(limited), [])
    else
      var (c, tr) := Exec(limited, ins[..|ins| - 1]);
      if Finished(tr) then (c, tr)
      else
        var (t, outcome) := ins[|ins| - 1];
        var (c', o) := Next(c, t, outcome);
        (c', tr + [o])
  }

  lemma {:induction false} ExecLaw<A, R>(limited: bool, ins: seq<(Turn<A>, Poll<R>)>)
    ensures Law(Exec(limited, ins).0, Exec(limited, ins).1)
    ensures Exec(limited, ins).0.limited == limited
  {
    hide Law;
    if ins == [] {
      LawNew<A, R>(limited);
    } else {
      ExecLaw(limited, ins[..|ins| - 1]);
      var (c, tr) := Exec(limited, ins[..|ins| - 1]);
      if !Finished(tr) {
        LawNext(c, tr, ins[|ins| - 1].0, ins[|ins| - 1].1);
      }
    }
  }

  lemma {:induction false} OnePerPoll<A, R>(limited: bool, ins: seq<(Turn<A>, Poll<R>)>)
    ensures !Finished(Exec(limited, ins).1) ==> |Exec(limited, ins).1| == |ins|
  {
    hide Next;
    if ins != [] {
      OnePerPoll(limited, ins[..|ins| - 1]);
    }
  }

  /** What one observation says of its turn: a delay is exactly the wait that the limiter refused
      with, and a limited future is polled only with its admission. */
  ghost predicate Answers<A, R>(limited: bool, t: Turn<A>, outcome: Poll<R>, o: Obs<A, R>) {
    match o.act
    case Waited => !t.sleepReady
    case Inserted(delay, _, created, fired) =>
      limited && t.admission == Refused(delay) && created == t.clock.create && fired == t.freshReady
    case Polled(ambient, answer, from, at, to) =>
      && (limited ==> t.admission.Granted?)
      && ambient == t.ambient && answer == outcome
      && from == at == t.clock.enter && to == t.clock.leave
  }

  lemma {:induction false} NextAnswers<A, R>(c: Ctl, t: Turn<A>, outcome: Poll<R>)
    ensures Answers(c.limited, t, outcome, Next(c, t, outcome).1)
  {
  }

  /** Every observation of every run says what its turn brought, in the order of the turns. */
  lemma {:induction false} TranscriptAnswers<A, R>(limited: bool, ins: seq<(Turn<A>, Poll<R>)>, i: nat)
    requires i < |Exec(limited, ins).1|
    ensures i < |ins| && Answers(limited, ins[i].0, ins[i].1, Exec(limited, ins).1[i])
  {
    if ins != [] {
      hide Next, Answers, Finished;
      var before := ins[..|ins| - 1];
      var (c, tr) := Exec(limited, before);
      if i < |tr| {
        TranscriptAnswers(limited, before, i);
      } else {
        OnePerPoll(limited, before);
        ExecLaw(limited, before);
        NextAnswers(c, ins[i].0, ins[i].1);
      }
    }
  }

  /** The waits of the admissions that were asked for and refused. */
  function RefusedWaits<A, R>(limited: bool, ins: seq<(Turn<A>, Poll<R>)>): nat {
    if ins == [] then 0
    else
      var (c, tr) := Exec(limited, ins[..|ins| - 1]);
      var t := ins[|ins| - 1].0;
      RefusedWaits(limited, ins[..|ins| - 1]) +
      if !Finished(tr) && Asks(c, t) && t.admission.Refused? then t.admission.wait else 0
  }

  /** A future sleeps for what the limiter asked for and nothing more, over any run. */
  lemma {:induction false} RequestedExactly<A, R>(limited: bool, ins: seq<(Turn<A>, Poll<R>)>)
    ensures TallyOf(Exec(limited, ins).1).requested == RefusedWaits(limited, ins)
  {
    if ins != [] {
      hide TallyOf, Finished;
      var before := ins[..|ins| - 1];
      RequestedExactly(limited, before);
      var (c, tr) := Exec(limited, before);
      if !Finished(tr) {
        TallySnoc(tr, Next(c, ins[|ins| - 1].0, ins[|ins| - 1].1).1);
      }
    } else {
      assert TallyOf<A, R>([]).requested == 0;
    }
  }

  /** The counter of a limited future counts every admission asked for and every inner Pending,
      so an inner future that pends N times with B refusals leaves it at 2N + 1 + B. */
  lemma {:induction false} Accounting<A, R>(limited: bool, ins: seq<(Turn<A>, Poll<R>)>)
    ensures var (c, tr) := Exec(limited, ins);
            var n := TallyOf(tr);
            && (limited ==> c.pendCnt == Counter(n.entered + n.backoffs + n.pended))
            && (!limited ==> c.pendCnt == Counter(n.pended) && n.backoffs == 0)
            && (limited && Finished(tr) ==> c.pendCnt == Counter(2 * n.pended + 1 + n.backoffs))
            && (Finished(tr) ==> |tr| == n.pended + 1 + n.backoffs + n.waits)
            && n.expired <= n.backoffs
  {
    hide TallyOf, Counter;
    ExecLaw(limited, ins);
  }

  // ---------- the wrapper itself ----------

  class PendingFuture<S, A, R> {
    const handle: RateLimiterRuntimeHandle
    const behaviour: (S, A) -> (S, Poll<R>)
    var future: S
    var pendCnt: u32
    var state: Phase
    ghost const initial: S
    ghost var transcript: seq<Obs<A, R>>

    function View(): Ctl
      reads this
    {
      Ctl(handle.limiter.Some?, state, pendCnt)
    }

    ghost predicate Valid()
      reads this
    {
      Law(View(), transcript) && Faithful(behaviour, initial, future, transcript)
    }

    constructor (handle: RateLimiterRuntimeHandle, behaviour: (S, A) -> (S, Poll<R>), future: S)
      ensures Valid() && View() == New(handle.limiter.Some?) && transcript == []
      ensures this.handle == handle && this.behaviour == behaviour && this.future == future && initial == future
    {
      hide Law, Faithful;
      initial := future;
      this.handle, this.behaviour, this.future := handle, behaviour, future;
      pendCnt, state := 0, Common;
      transcript := [];
      new;
      FaithfulNew<S, A, R>(behaviour, future);
      LawNew<A, R>(handle.limiter.Some?);
    }

    /** One poll. The counter that all clones of the handle share goes down once for every backoff
        that a poll finds over, and never up. */
    method Poll(t: Turn<A>) returns (res: Poll<R>, woken: bool)
      requires Valid() && !Finished(transcript)
      modifies this, handle.shared`counter
      ensures Valid()
      ensures var (c, o) := Next(old(View()), t, behaviour(old(future), t.ambient).1);
              && View() == c
              && transcript == old(transcript) + [o]
              && future == (if o.act.Polled? then behaviour(old(future), t.ambient).0 else old(future))
              && res == (if o.act.Polled? then o.act.outcome else Pending)
              && (woken <==> o.act.Inserted? && o.act.fired)
              && handle.shared.counter
                 == (if o.expired.Some? then Dec64(old(handle.shared.counter)) else old(handle.shared.counter))
    {
      hide Law, Faithful;
      LawNext(View(), transcript, t, behaviour(future, t.ambient).1);
      FaithfulSnoc(behaviour, initial, future, transcript, Next(View(), t, behaviour(future, t.ambient).1).1);
      transcript := transcript + [Next(View(), t, behaviour(future, t.ambient).1).1];
      woken := false;
      match state {
        case Common =>
        case Backoff(_) =>
          if t.sleepReady {
            state := Common;
            handle.shared.counter := Dec64(handle.shared.counter);
          } else {
            return Pending, false;
          }
      }
      if handle.limiter.Some? {
        pendCnt := Inc32(pendCnt);
        match t.admission {
          case Granted =>
          case Refused(wait) =>
            state := Backoff(t.clock.create + wait);
            if t.freshReady {
              state := Common;
              return Pending, true;
            } else {
              return Pending, false;
            }
        }
      }
      var (inner, answer) := behaviour(future, t.ambient);
      future := inner;
      if answer.Pending? {
        pendCnt := Inc32(pendCnt);
      }
      res := answer;
    }
  }
}
