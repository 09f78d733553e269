/**
 What the three throttling wrappers share: the outcome of a poll, what one poll meets
 outside the wrapper (clock readings, timer answers, jitter, limiter answer), and the
 transcript of what the wrapper did, from which every total is counted.

 Times are nanoseconds on one monotone clock.
 */
module Polling {

  type u32 = x: int | 0 <= x < 0x1_0000_0000
  type u64 = x: int | 0 <= x < 0x1_0000_0000_0000_0000

  /** Unchecked (release profile) unsigned arithmetic. */
  function Inc32(x: u32): u32 { if x == 0xFFFF_FFFF then 0 else x + 1 }

  function Wrap64(x: nat): u64 { x % 0x1_0000_0000_0000_0000 }

  /** A u32 counter after so many increments. */
  function Counter(events: nat): u32 {
    if events == 0 then 0 else Inc32(Counter(events - 1))
  }

  /** `Instant::elapsed`, which saturates at zero. */
  function Since(from: nat, to: nat): nat {
    if from <= to then to - from else 0
  }

  /** `Duration::as_micros() as u64` */
  function Micros(ns: nat): u64 { Wrap64(ns / 1_000) }

  /** Nanoseconds in so many milliseconds. */
  function Millis(ms: nat): nat { ms * 1_000_000 }

  datatype Option<+T> = None | Some(value: T)

  datatype Poll<+R> = Pending | Ready(value: R)

  /** The answer of `Ratelimiter::try_wait`. */
  datatype Admission = Granted | Refused(wait: nat)

  type Jitter = j: nat | j < 10

  /** The clock readings of one poll, in the order in which the code can take them:
      `start` on entry, `begin` for a begin time not set yet, `check` while polling an old sleep,
      `create` when a sleep is created, `enter` when the inner future (or the new sleep)
      is polled, `leave` when that returns, `finish` for a completion record. */
  datatype Clock = Clock(start: nat, begin: nat, check: nat, create: nat, enter: nat, leave: nat, finish: nat) {
    predicate Monotone() {
      start <= begin <= check <= create <= enter <= leave <= finish
    }
  }

  /** Everything one poll meets from outside: an arbitrary oracle. */
  datatype Turn<A> = Turn(
    clock: Clock,
    sleepReady: bool,      // answer of polling the sleep of an existing backoff
    freshReady: bool,      // answer of polling a sleep created in this very poll
    jitter: Jitter,        // thread_rng().gen_range(0..10)
    admission: Admission,  // answer of the rate limiter
    ambient: A)            // whatever the inner future can see when it is polled

  datatype Phase = Common | Backoff(deadline: nat)

  /** What a wrapper decides before it would poll the inner future. */
  datatype Gate = Waits | Inserts(delay: nat, extra: nat) | Enters

  /** What one poll did. `extra` is what the length of an inserted delay was computed from:
      the jitter in milliseconds (count mode), the ten-microsecond units charged (time mode). */
  datatype Act<A, R> =
    | Waited
    | Inserted(delay: nat, extra: nat, created: nat, fired: bool)
    | Polled(ambient: A, outcome: Poll<R>, from: nat, at: nat, to: nat)

  /** `expired` is the deadline of the backoff that this poll found over, if there was one. */
  datatype Obs<A, R> = Obs(expired: Option<nat>, act: Act<A, R>)

  function PhaseAfter<A>(g: Gate, phase: Phase, t: Turn<A>): Phase {
    match g
    case Waits => phase
    case Inserts(delay, _) => if t.freshReady then Common else Backoff(t.clock.create + delay)
    case Enters => Common
  }

  function Observe<A, R>(g: Gate, phase: Phase, t: Turn<A>, outcome: Poll<R>, from: nat): Obs<A, R> {
    match g
    case Waits => Obs(None, Waited)
    case Inserts(delay, extra) => Obs(Expiry(phase), Inserted(delay, extra, t.clock.create, t.freshReady))
    case Enters => Obs(Expiry(phase), Polled(t.ambient, outcome, from, t.clock.enter, t.clock.leave))
  }

  function Expiry(phase: Phase): Option<nat> {
    match phase
    case Common => None
    case Backoff(deadline) => Some(deadline)
  }

  /** tokio's promise about `Sleep`: it is never ready before its deadline. */
  predicate TimerContract<A>(g: Gate, phase: Phase, t: Turn<A>) {
    && (phase.Backoff? && t.sleepReady ==> phase.deadline <= t.clock.check)
    && (g.Inserts? && t.freshReady ==> t.clock.create + g.delay <= t.clock.enter)
  }

  // ---------- transcripts ----------

  predicate Finished<A, R>(tr: seq<Obs<A, R>>) {
    tr != [] && tr[|tr| - 1].act.Polled? && tr[|tr| - 1].act.outcome.Ready?
  }

  /** Totals of a transcript, counted from the acts alone. */
  datatype Tally = Tally(entered: nat, pended: nat, backoffs: nat, waits: nat, expired: nat, requested: nat, extra: nat) {
    function Add<A, R>(o: Obs<A, R>): Tally {
      var base := if o.expired.Some? then this.(expired := expired + 1) else this;
      match o.act
      case Waited => base.(waits := waits + 1)
      case Inserted(delay, x, _, _) => base.(backoffs := backoffs + 1, requested := requested + delay, extra := extra + x)
      case Polled(_, outcome, _, _, _) =>
        base.(entered := entered + 1, pended := pended + if outcome.Pending? then 1 else 0)
    }
  }

  function TallyOf<A, R>(tr: seq<Obs<A, R>>): Tally {
    if tr == [] then Tally(0, 0, 0, 0, 0, 0, 0)
    else TallyOf(tr[..|tr| - 1]).Add(tr[|tr| - 1])
  }

  lemma {:induction false} TallySnoc<A, R>(tr: seq<Obs<A, R>>, o: Obs<A, R>)
    ensures TallyOf(tr + [o]) == TallyOf(tr).Add(o)
  {
    assert (tr + [o])[..|tr|] == tr;
  }

  /** Is an inserted delay the last thing done, waiting aside? */
  predicate JustInserted<A, R>(tr: seq<Obs<A, R>>) {
    tr != [] &&
    match tr[|tr| - 1].act
    case Waited => JustInserted(tr[..|tr| - 1])
    case Inserted(_, _, _, _) => true
    case Polled(_, _, _, _, _) => false
  }

  /** The same after one more observation, and the end of a run, read off the observation. */
  predicate Last<A, R>(o: Obs<A, R>, last: bool) {
    o.act.Inserted? || (o.act.Waited? && last)
  }

  predicate Ends<A, R>(o: Obs<A, R>) {
    o.act.Polled? && o.act.outcome.Ready?
  }

  lemma {:induction false} LastSnoc<A, R>(tr: seq<Obs<A, R>>, o: Obs<A, R>)
    ensures JustInserted(tr + [o]) == Last(o, JustInserted(tr))
    ensures Finished(tr + [o]) == Ends(o)
  {
    assert (tr + [o])[..|tr|] == tr;
  }

  /** Between two inserted delays the inner future is polled. */
  ghost predicate Spaced<A, R>(tr: seq<Obs<A, R>>) {
    forall i, j :: 0 <= i < j < |tr| && tr[i].act.Inserted? && tr[j].act.Inserted? ==>
      exists k :: i < k < j && tr[k].act.Polled?
  }

  /** The last inserted delay with only waiting after it. */
  lemma {:induction false} LastInsert<A, R>(tr: seq<Obs<A, R>>) returns (i: nat)
    requires JustInserted(tr)
    ensures i < |tr| && tr[i].act.Inserted?
    ensures forall k :: i < k < |tr| ==> tr[k].act.Waited?
  {
    if tr[|tr| - 1].act.Inserted? {
      i := |tr| - 1;
    } else {
      i := LastInsert(tr[..|tr| - 1]);
    }
  }

  /** After the last inserted delay the inner future was polled, if anything was inserted. */
  lemma {:induction false} PolledSince<A, R>(tr: seq<Obs<A, R>>, i: nat)
    requires !JustInserted(tr) && i < |tr| && tr[i].act.Inserted?
    ensures exists k :: i < k < |tr| && tr[k].act.Polled?
  {
    if tr[|tr| - 1].act.Polled? {
      assert i < |tr| - 1;
    } else {
      var front := tr[..|tr| - 1];
      PolledSince(front, i);
      var k :| i < k < |front| && front[k].act.Polled?;
      assert tr[k].act.Polled?;
    }
  }

  /** Appending keeps the spacing exactly when it does not put a delay right after a delay. */
  lemma {:induction false} SpacedSnoc<A, R>(tr: seq<Obs<A, R>>, o: Obs<A, R>)
    ensures Spaced(tr + [o]) <==> Spaced(tr) && !(o.act.Inserted? && JustInserted(tr))
  {
    var all := tr + [o];
    assert forall i :: 0 <= i < |tr| ==> all[i] == tr[i];
    if Spaced(all) {
      forall i, j | 0 <= i < j < |tr| && tr[i].act.Inserted? && tr[j].act.Inserted?
        ensures exists k :: i < k < j && tr[k].act.Polled?
      {
        assert all[i].act.Inserted? && all[j].act.Inserted?;
        var k :| i < k < j && all[k].act.Polled?;
        assert tr[k].act.Polled?;
      }
    }
    if o.act.Inserted? && JustInserted(tr) {
      var i := LastInsert(tr);
      assert all[i].act.Inserted? && all[|tr|].act.Inserted?;
      assert forall k :: i < k < |tr| ==> all[k].act.Waited?;
      assert !Spaced(all);
    }
    if Spaced(tr) && !(o.act.Inserted? && JustInserted(tr)) {
      forall i, j | 0 <= i < j < |all| && all[i].act.Inserted? && all[j].act.Inserted?
        ensures exists k :: i < k < j && all[k].act.Polled?
      {
        if j < |tr| {
          var k :| i < k < j && tr[k].act.Polled?;
          assert all[k].act.Polled?;
        } else {
          PolledSince(tr, i);
          var k :| i < k < |tr| && tr[k].act.Polled?;
          assert all[k].act.Polled?;
        }
      }
    }
  }

  /** What one act adds to the measures below. */
  function MeasuredMicros<A, R>(o: Obs<A, R>): seq<nat> {
    match o.act
    case Polled(_, Pending, from, _, to) => [Since(from, to) / 1_000]
    case _ => []
  }

  function MeasuredNs<A, R>(o: Obs<A, R>): nat {
    match o.act
    case Polled(_, _, from, _, to) => Since(from, to)
    case _ => 0
  }

  function ReachBack<A, R>(o: Obs<A, R>): nat {
    if o.expired.Some? && o.act.Polled? then Since(o.act.from, o.expired.value) else 0
  }

  function Deadline<A, R>(o: Obs<A, R>): nat {
    match o.act
    case Inserted(delay, _, created, _) => created + delay
    case _ => 0
  }

  function Max(a: nat, b: nat): nat { if a <= b then b else a }

  /** Microseconds measured over the inner polls that returned Pending, in order. */
  function Elapsed<A, R>(tr: seq<Obs<A, R>>): seq<nat> {
    if tr == [] then [] else Elapsed(tr[..|tr| - 1]) + MeasuredMicros(tr[|tr| - 1])
  }

  /** Nanoseconds between the readings taken around the inner polls. */
  function PollNs<A, R>(tr: seq<Obs<A, R>>): nat {
    if tr == [] then 0 else PollNs(tr[..|tr| - 1]) + MeasuredNs(tr[|tr| - 1])
  }

  /** Whole microseconds between those readings, poll by poll. */
  function PollMicros<A, R>(tr: seq<Obs<A, R>>): nat {
    if tr == [] then 0 else PollMicros(tr[..|tr| - 1]) + MeasuredNs(tr[|tr| - 1]) / 1_000
  }

  /** How far measured polls reach back into the backoffs they found over. */
  function Overlap<A, R>(tr: seq<Obs<A, R>>): nat {
    if tr == [] then 0 else Overlap(tr[..|tr| - 1]) + ReachBack(tr[|tr| - 1])
  }

  /** The latest deadline of any inserted delay. */
  function LastDeadline<A, R>(tr: seq<Obs<A, R>>): nat {
    if tr == [] then 0 else Max(LastDeadline(tr[..|tr| - 1]), Deadline(tr[|tr| - 1]))
  }

  lemma {:induction false} LastDeadlineCovers<A, R>(tr: seq<Obs<A, R>>, i: nat)
    requires i < |tr|
    ensures Deadline(tr[i]) <= LastDeadline(tr)
  {
    if i < |tr| - 1 {
      LastDeadlineCovers(tr[..|tr| - 1], i);
    }
  }

  lemma {:induction false} MicrosSnoc<A, R>(tr: seq<Obs<A, R>>, o: Obs<A, R>)
    ensures PollMicros(tr + [o]) == PollMicros(tr) + MeasuredNs(o) / 1_000
  {
    assert (tr + [o])[..|tr|] == tr;
  }

  lemma {:induction false} MeasuresSnoc<A, R>(tr: seq<Obs<A, R>>, o: Obs<A, R>)
    ensures Elapsed(tr + [o]) == Elapsed(tr) + MeasuredMicros(o)
    ensures PollNs(tr + [o]) == PollNs(tr) + MeasuredNs(o)
    ensures Overlap(tr + [o]) == Overlap(tr) + ReachBack(o)
    ensures LastDeadline(tr + [o]) == Max(LastDeadline(tr), Deadline(o))
  {
    assert (tr + [o])[..|tr|] == tr;
  }
}
