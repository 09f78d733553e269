/**
 The global runtimes: configured at most once, before the first use. A `Once` runs the
 configuration, a mutex guards the configured runtimes, and a `Lazy` builds the published set
 from them. Any creation of a runtime can panic, which poisons whatever its thread holds.
 */
module GlobalRuntimes {
  import opened Polling

  const READ_WORKERS := 8
  const WRITE_WORKERS := 8
  const BG_WORKERS := 4
  const HB_WORKERS := 2

  datatype RuntimeOptions = RuntimeOptions(readRtSize: nat, writeRtSize: nat, bgRtSize: nat)

  /** Where a runtime comes from: the options of a thread that called init, or the defaults. */
  datatype Origin = Configured(owner: nat) | Default

  datatype Runtime = Runtime(origin: Origin, workers: nat)

  /** The fields of `ConfigRuntimes` and of `GlobalRuntimes`. */
  datatype Four = Four(read: Option<Runtime>, write: Option<Runtime>, bg: Option<Runtime>, hb: Option<Runtime>) {
    function Get(k: nat): Option<Runtime> {
      if k == 0 then read else if k == 1 then write else if k == 2 then bg else hb
    }
    function Put(k: nat, r: Option<Runtime>): Four {
      if k == 0 then this.(read := r) else if k == 1 then this.(write := r) else if k == 2 then this.(bg := r) else this.(hb := r)
    }
  }

  const NO_RUNTIMES := Four(None, None, None, None)

  function MakeConfigured(i: nat, o: RuntimeOptions, k: nat): Option<Runtime> {
    Some(Runtime(Configured(i),
      if k == 0 then o.readRtSize else if k == 1 then o.writeRtSize else if k == 2 then o.bgRtSize else HB_WORKERS))
  }

  function MakeDefault(k: nat): Option<Runtime> {
    Some(Runtime(Default,
      if k == 0 then READ_WORKERS else if k == 1 then WRITE_WORKERS else if k == 2 then BG_WORKERS else HB_WORKERS))
  }

  /** The first `n` runtimes configured by thread `i`, the others missing. */
  function FirstConfigured(i: nat, o: RuntimeOptions, n: nat): Four {
    Four(if n > 0 then MakeConfigured(i, o, 0) else None,
         if n > 1 then MakeConfigured(i, o, 1) else None,
         if n > 2 then MakeConfigured(i, o, 2) else None,
         if n > 3 then MakeConfigured(i, o, 3) else None)
  }

  /** The first `n` of the runtimes in `taken`, with defaults where these are missing. */
  function FirstBuilt(taken: Four, n: nat): Four {
    Four(if n > 0 then OrDefault(taken, 0) else None,
         if n > 1 then OrDefault(taken, 1) else None,
         if n > 2 then OrDefault(taken, 2) else None,
         if n > 3 then OrDefault(taken, 3) else None)
  }

  function OrDefault(taken: Four, k: nat): Option<Runtime> {
    if taken.Get(k).Some? then taken.Get(k) else MakeDefault(k)
  }

  /** All four runtimes, with so many workers each. */
  function Sized(origin: Origin, read: nat, write: nat, bg: nat, hb: nat): Four {
    Four(Some(Runtime(origin, read)), Some(Runtime(origin, write)), Some(Runtime(origin, bg)), Some(Runtime(origin, hb)))
  }

  // ---------- threads ----------

  datatype Pc =
    | InitCalled                       // about to enter `call_once`
    | InitRunning                      // runs the closure, wants the mutex
    | InitLocked                       // holds the mutex, checks `already_init`
    | InitCreating(next: nat)          // creates runtime `next`
    | InitUnlocked                     // about to complete the `Once`
    | UseCalled                        // about to force the `Lazy`
    | UseRunning                       // runs its closure, wants the mutex
    | UseLocked                        // holds the mutex
    | UseBuilding(taken: Four, built: Four, next: nat)
    | UseUnlocked(built: Four)         // about to publish
    | Returned
    | Panicked

  /** A call of `init_global_runtimes`, or of a function that uses the global runtimes. */
  datatype Thread = Thread(init: bool, options: RuntimeOptions, pc: Pc) {
    predicate InOnce() { pc.InitRunning? || pc.InitLocked? || pc.InitCreating? || pc.InitUnlocked? }
    predicate InLazy() { pc.UseRunning? || pc.UseLocked? || pc.UseBuilding? || pc.UseUnlocked? }
    predicate InMutex() { pc.InitLocked? || pc.InitCreating? || pc.UseLocked? || pc.UseBuilding? }
    predicate Finished() { pc.Returned? || pc.Panicked? }
    /** Positions of an init call are held by init calls, those of a use by uses. */
    predicate OnCourse() {
      Finished() || (init <==> pc.InitCalled? || InOnce())
    }
  }

  datatype OnceState = Incomplete | OnceRunning(owner: nat) | Complete(owner: nat) | OncePoisoned
  datatype LazyState = Unset | LazyRunning(owner: nat) | Published(rs: Four) | LazyPoisoned
  datatype MutexState = Free | Held(owner: nat) | Poisoned

  datatype Global = Global(
    threads: seq<Thread>, once: OnceState, lazy: LazyState, mutex: MutexState,
    config: Four, alreadyInit: bool)

  /** Can thread `i` go on? It waits only for a `Once`, a `Lazy` or a mutex that another thread holds. */
  predicate Enabled(g: Global, i: nat) {
    i < |g.threads| &&
    match g.threads[i].pc
    case InitCalled => !g.once.OnceRunning?
    case InitRunning => !g.mutex.Held?
    case UseCalled => !g.lazy.LazyRunning?
    case UseRunning => !g.mutex.Held?
    case Returned => false
    case Panicked => false
    case _ => true
  }

  /** Does creating the next runtime fail, or does the thread find something poisoned, or the
      runtimes in use already? */
  predicate Panics(g: Global, i: nat, ok: bool)
    requires i < |g.threads|
  {
    match g.threads[i].pc
    case InitCalled => g.once.OncePoisoned?
    case InitRunning => g.mutex.Poisoned?
    case InitLocked => g.alreadyInit
    case InitCreating(k) => k < 4 && !ok
    case UseCalled => g.lazy.LazyPoisoned?
    case UseRunning => g.mutex.Poisoned?
    case UseBuilding(taken, _, k) => k < 4 && taken.Get(k).None? && !ok
    case _ => false
  }

  function NextPc(g: Global, i: nat, ok: bool): Pc
    requires i < |g.threads|
  {
    if Panics(g, i, ok) then Panicked
    else
      match g.threads[i].pc
      case InitCalled => if g.once.Incomplete? then InitRunning else Returned
      case InitRunning => InitLocked
      case InitLocked => InitCreating(0)
      case InitCreating(k) => if k >= 4 then InitUnlocked else InitCreating(k + 1)
      case InitUnlocked => Returned
      case UseCalled => if g.lazy.Unset? then UseRunning else Returned
      case UseRunning => UseLocked
      case UseLocked => UseBuilding(g.config, NO_RUNTIMES, 0)
      case UseBuilding(taken, built, k) =>
        if k >= 4 then UseUnlocked(built) else UseBuilding(taken, built.Put(k, OrDefault(taken, k)), k + 1)
      case UseUnlocked(_) => Returned
      case Returned => Returned
      case Panicked => Panicked
  }

  function NextOnce(g: Global, i: nat, ok: bool): OnceState
    requires i < |g.threads|
  {
    if g.threads[i].InOnce() && Panics(g, i, ok) then OncePoisoned
    else if g.threads[i].pc.InitCalled? && g.once.Incomplete? then OnceRunning(i)
    else if g.threads[i].pc.InitUnlocked? then Complete(i)
    else g.once
  }

  function NextLazy(g: Global, i: nat, ok: bool): LazyState
    requires i < |g.threads|
  {
    if g.threads[i].InLazy() && Panics(g, i, ok) then LazyPoisoned
    else
      match g.threads[i].pc
      case UseCalled => if g.lazy.Unset? then LazyRunning(i) else g.lazy
      case UseUnlocked(built) => Published(built)
      case _ => g.lazy
  }

  /** A guard that is dropped by a panic poisons the mutex. */
  function NextMutex(g: Global, i: nat, ok: bool): MutexState
    requires i < |g.threads|
  {
    if Panics(g, i, ok) then if g.threads[i].InMutex() then Poisoned else g.mutex
    else
      match g.threads[i].pc
      case InitRunning => Held(i)
      case UseRunning => Held(i)
      case InitCreating(k) => if k >= 4 then Free else g.mutex
      case UseBuilding(_, _, k) => if k >= 4 then Free else g.mutex
      case _ => g.mutex
  }

  function NextConfig(g: Global, i: nat, ok: bool): Four
    requires i < |g.threads|
  {
    match g.threads[i].pc
    case InitCreating(k) => if k < 4 && ok then g.config.Put(k, MakeConfigured(i, g.threads[i].options, k)) else g.config
    case UseLocked => NO_RUNTIMES
    case _ => g.config
  }

  /** One step of thread `i`; `ok` says whether creating a runtime succeeds. */
  function Step(g: Global, i: nat, ok: bool): Global {
    if !Enabled(g, i) then g
    else
      Global(g.threads[i := g.threads[i].(pc := NextPc(g, i, ok))],
             NextOnce(g, i, ok), NextLazy(g, i, ok), NextMutex(g, i, ok), NextConfig(g, i, ok),
             g.alreadyInit || g.threads[i].pc.UseLocked?)
  }

  datatype Move = Move(thread: nat, ok: bool)

  function Exec(g: Global, moves: seq<Move>): Global {
    if moves == [] then g
    else Step(Exec(g, moves[..|moves| - 1]), moves[|moves| - 1].thread, moves[|moves| - 1].ok)
  }

  ghost predicate Initial(g: Global) {
    && g.once.Incomplete? && g.lazy.Unset? && g.mutex.Free? && g.config == NO_RUNTIMES && !g.alreadyInit
    && forall i :: 0 <= i < |g.threads| ==> g.threads[i].pc == if g.threads[i].init then InitCalled else UseCalled
  }

  // ---------- the invariant ----------

  /** All four as one thread configured them, or none at all. */
  ghost predicate Whole(g: Global, rs: Four, winner: Option<nat>) {
    match winner
    case None => rs == NO_RUNTIMES
    case Some(i) => i < |g.threads| && rs == FirstConfigured(i, g.threads[i].options, 4)
  }

  /** All four as one thread configured them, or all four defaults. */
  ghost predicate BuiltWhole(g: Global, rs: Four, winner: Option<nat>) {
    match winner
    case None => rs == FirstBuilt(NO_RUNTIMES, 4)
    case Some(i) => i < |g.threads| && rs == FirstConfigured(i, g.threads[i].options, 4)
  }

  /** The thread whose configuration is complete, if there is one. */
  function Winner(g: Global): Option<nat> {
    match g.once
    case Complete(i) => Some(i)
    case OnceRunning(i) => if i < |g.threads| && g.threads[i].pc.InitUnlocked? then Some(i) else None
    case _ => None
  }

  /** Who is inside the `Once`, the `Lazy` and the mutex. */
  ghost predicate OnceHolder(g: Global) {
    && (forall i :: 0 <= i < |g.threads| ==> (g.threads[i].InOnce() <==> g.once == OnceRunning(i)))
    && (g.once.OnceRunning? ==> g.once.owner < |g.threads|)
    && (g.once.Complete? ==> g.once.owner < |g.threads|)
  }

  ghost predicate LazyHolder(g: Global) {
    && (forall i :: 0 <= i < |g.threads| ==> (g.threads[i].InLazy() <==> g.lazy == LazyRunning(i)))
    && (g.lazy.LazyRunning? ==> g.lazy.owner < |g.threads|)
  }

  ghost predicate MutexHolder(g: Global) {
    && (forall i :: 0 <= i < |g.threads| ==> (g.threads[i].InMutex() <==> g.mutex == Held(i)))
    && (g.mutex.Held? ==> g.mutex.owner < |g.threads|)
  }

  /** What the thread inside the mutex, or just out of it, may rely on. */
  ghost predicate ThreadInv(g: Global, i: nat)
    requires i < |g.threads|
  {
    match g.threads[i].pc
    case InitLocked => !g.alreadyInit ==> g.config == NO_RUNTIMES
    case InitCreating(n) => !g.alreadyInit && n <= 4 && g.config == FirstConfigured(i, g.threads[i].options, n)
    case UseRunning => !g.alreadyInit
    case UseLocked => !g.alreadyInit && Whole(g, g.config, Winner(g))
    case UseBuilding(taken, built, n) => g.alreadyInit && n <= 4 && Whole(g, taken, Winner(g)) && built == FirstBuilt(taken, n)
    case UseUnlocked(built) => g.alreadyInit && BuiltWhole(g, built, Winner(g))
    case _ => true
  }

  ghost predicate ConfigInv(g: Global) {
    && (g.mutex.Free? && !g.alreadyInit ==> Whole(g, g.config, Winner(g)))
    && (g.lazy.Unset? ==> !g.alreadyInit)
    && (g.lazy.Published? ==> g.alreadyInit && BuiltWhole(g, g.lazy.rs, Winner(g)))
  }

  /** A poisoned mutex or `Lazy` means that no configuration was completed. */
  ghost predicate PoisonInv(g: Global) {
    && (g.mutex.Poisoned? ==> Winner(g).None?)
    && (g.lazy.LazyPoisoned? ==> g.mutex.Poisoned?)
  }

  ghost predicate Inv(g: Global) {
    && OnceHolder(g) && LazyHolder(g) && MutexHolder(g) && ConfigInv(g) && PoisonInv(g) && OutcomeInv(g)
    && forall i :: 0 <= i < |g.threads| ==> ThreadInv(g, i)
  }

  /** How calls end: an init returns only when the configuration is complete, a use only with the
      published runtimes; and a panic leaves the `Once`, or the `Lazy`, poisoned for good. */
  ghost predicate OutcomeInv(g: Global) {
    forall i :: 0 <= i < |g.threads| ==>
      var th := g.threads[i];
      && th.OnCourse()
      && (th.pc.Returned? ==> if th.init then g.once.Complete? else g.lazy.Published?)
      && (th.pc.Panicked? ==> if th.init then g.once.OncePoisoned? else g.lazy.LazyPoisoned?)
  }

  lemma {:induction false} StepOutcome(g: Global, i: nat, ok: bool)
    requires OutcomeInv(g) && OnceHolder(g) && LazyHolder(g)
    ensures OutcomeInv(Step(g, i, ok))
  {
    hide NextMutex, NextConfig;
  }

  lemma {:induction false} StepOnce(g: Global, i: nat, ok: bool)
    requires OnceHolder(g)
    ensures OnceHolder(Step(g, i, ok))
  {
    hide NextLazy, NextMutex, NextConfig;
  }

  lemma {:induction false} StepLazy(g: Global, i: nat, ok: bool)
    requires LazyHolder(g)
    ensures LazyHolder(Step(g, i, ok))
  {
    hide NextOnce, NextMutex, NextConfig;
  }

  lemma {:induction false} StepMutex(g: Global, i: nat, ok: bool)
    requires MutexHolder(g)
    ensures MutexHolder(Step(g, i, ok))
  {
    hide NextOnce, NextLazy, NextConfig;
  }

  /** The winner changes only when the thread inside the `Once` lets go of the mutex. */
  lemma {:induction false} StepWinner(g: Global, i: nat, ok: bool)
    requires OnceHolder(g)
    ensures Winner(Step(g, i, ok)) ==
            (if Enabled(g, i) && g.threads[i].pc.InitCreating? && g.threads[i].pc.next >= 4 then Some(i) else Winner(g))
  {
    hide NextLazy, NextMutex, NextConfig;
  }

  lemma {:induction false} OtherThread(g: Global, i: nat, ok: bool, j: nat)
    requires Inv(g) && j < |g.threads| && (j != i || !Enabled(g, i))
    ensures |Step(g, i, ok).threads| == |g.threads| && ThreadInv(Step(g, i, ok), j)
  {
    StepWinner(g, i, ok);
    assert ThreadInv(g, j);
    if i < |g.threads| {
      assert ThreadInv(g, i);
    }
    hide NextOnce, NextLazy, NextMutex, Winner;
  }

  lemma {:induction false} OwnThread(g: Global, i: nat, ok: bool)
    requires Inv(g) && Enabled(g, i)
    ensures |Step(g, i, ok).threads| == |g.threads| && ThreadInv(Step(g, i, ok), i)
  {
    StepWinner(g, i, ok);
    assert ThreadInv(g, i);
    assert g.threads[i].pc.InitRunning? ==> Winner(g) == None;
    hide NextOnce, NextLazy, NextMutex, Winner;
  }

  lemma {:induction false} StepConfig(g: Global, i: nat, ok: bool)
    requires Inv(g)
    ensures ConfigInv(Step(g, i, ok))
  {
    StepWinner(g, i, ok);
    if i < |g.threads| {
      assert ThreadInv(g, i);
    }
    hide NextOnce, Winner;
  }

  lemma {:induction false} StepPoison(g: Global, i: nat, ok: bool)
    requires Inv(g)
    ensures PoisonInv(Step(g, i, ok))
  {
    StepWinner(g, i, ok);
    if i < |g.threads| {
      assert ThreadInv(g, i);
      assert g.threads[i].InOnce() && !g.threads[i].pc.InitUnlocked? ==> Winner(g).None?;
    }
    hide NextOnce, Winner, ConfigInv, OutcomeInv, ThreadInv;
  }

  lemma {:induction false} StepInv(g: Global, i: nat, ok: bool)
    requires Inv(g)
    ensures Inv(Step(g, i, ok))
  {
    StepPoison(g, i, ok);
    hide OnceHolder, LazyHolder, MutexHolder, ConfigInv, PoisonInv, OutcomeInv, ThreadInv, NextPc, NextOnce, NextLazy, NextMutex, NextConfig;
    StepOnce(g, i, ok);
    StepLazy(g, i, ok);
    StepMutex(g, i, ok);
    StepConfig(g, i, ok);
    StepOutcome(g, i, ok);
    forall j | 0 <= j < |g.threads| ensures ThreadInv(Step(g, i, ok), j) {
      if j == i && Enabled(g, i) {
        OwnThread(g, i, ok);
      } else {
        OtherThread(g, i, ok, j);
      }
    }
  }

  lemma {:induction false} ExecInv(g: Global, moves: seq<Move>)
    requires Initial(g)
    ensures Inv(Exec(g, moves))
  {
    if moves != [] {
      var last := moves[|moves| - 1];
      ExecInv(g, moves[..|moves| - 1]);
      hide Inv, Step;
      StepInv(Exec(g, moves[..|moves| - 1]), last.thread, last.ok);
    }
  }

  // ---------- theorems ----------

  /** All or nothing: over every interleaving of init calls and first uses, with a panic at any
      creation, the published runtimes are all four as one init call configured them, with its
      options, or all four defaults. They are the configured ones exactly when there was an init
      that got through its critical section. */
  lemma {:induction false} AllOrNothing(g: Global, moves: seq<Move>)
    requires Initial(g) && Exec(g, moves).lazy.Published?
    ensures var now := Exec(g, moves);
            match Winner(now)
            case Some(i) => i < |now.threads| && now.lazy.rs == Sized(Configured(i), now.threads[i].options.readRtSize,
                                                                      now.threads[i].options.writeRtSize, now.threads[i].options.bgRtSize, 2)
            case None => now.lazy.rs == Sized(Default, 8, 8, 4, 2)
  {
    ExecInv(g, moves);
  }

  /** An init call returns only when the configuration is complete: what is published by then is all
      that the one init call whose closure ran has configured, and until the first use all of it is
      there to be taken. */
  lemma {:induction false} InitReturned(g: Global, moves: seq<Move>, i: nat)
    requires Initial(g)
    requires i < |Exec(g, moves).threads| && Exec(g, moves).threads[i].init && Exec(g, moves).threads[i].pc.Returned?
    ensures var now := Exec(g, moves);
            && now.once.Complete? && now.once.owner < |now.threads|
            && (now.lazy.Published? ==>
                  now.lazy.rs == FirstConfigured(now.once.owner, now.threads[now.once.owner].options, 4))
            && (now.lazy.Unset? ==>
                  now.config == FirstConfigured(now.once.owner, now.threads[now.once.owner].options, 4))
  {
    ExecInv(g, moves);
  }

  lemma {:induction false} CompleteStep(g: Global, i: nat, ok: bool)
    requires OnceHolder(g) && g.once.Complete?
    ensures Step(g, i, ok).once == g.once
    ensures |Step(g, i, ok).threads| == |g.threads|
    ensures forall j :: 0 <= j < |g.threads| ==> Step(g, i, ok).threads[j].options == g.threads[j].options
  {
    hide NextLazy, NextMutex, NextConfig, NextPc;
  }

  lemma {:induction false} CompleteStays(g: Global, more: seq<Move>)
    requires Inv(g) && g.once.Complete?
    ensures var later := Exec(g, more);
            && Inv(later) && later.once == g.once && |later.threads| == |g.threads|
            && forall j :: 0 <= j < |g.threads| ==> later.threads[j].options == g.threads[j].options
  {
    if more != [] {
      var last := more[|more| - 1];
      CompleteStays(g, more[..|more| - 1]);
      StepInv(Exec(g, more[..|more| - 1]), last.thread, last.ok);
      CompleteStep(Exec(g, more[..|more| - 1]), last.thread, last.ok);
      hide Inv, Step;
    }
  }

  /** Once an init call has returned, nothing ever panics: no use, and no init call either. */
  lemma {:induction false} InitProtects(g: Global, moves: seq<Move>, i: nat, more: seq<Move>)
    requires Initial(g)
    requires i < |Exec(g, moves).threads| && Exec(g, moves).threads[i].init && Exec(g, moves).threads[i].pc.Returned?
    ensures var later := Exec(Exec(g, moves), more);
            forall j :: 0 <= j < |later.threads| ==> !later.threads[j].pc.Panicked?
  {
    ExecInv(g, moves);
    CompleteStays(Exec(g, moves), more);
    NothingPanicked(Exec(Exec(g, moves), more));
  }

  lemma {:induction false} NothingPanicked(g: Global)
    requires Inv(g) && g.once.Complete?
    ensures forall j :: 0 <= j < |g.threads| ==> !g.threads[j].pc.Panicked?
  {
    hide ThreadInv, ConfigInv, MutexHolder;
  }

  /** After a completed init, over every continuation: no other init call runs its closure or
      panics, each is still to be made or has returned, and whatever is published is what the
      completed one configured, with its options. Those of all others are dropped. */
  lemma {:induction false} LaterInitIgnored(g: Global, moves: seq<Move>, more: seq<Move>)
    requires Initial(g) && Exec(g, moves).once.Complete?
    ensures var now := Exec(g, moves);
            var later := Exec(now, more);
            && later.once == now.once && now.once.owner < |now.threads| == |later.threads|
            && (forall j :: 0 <= j < |later.threads| && later.threads[j].init ==>
                  later.threads[j].pc.InitCalled? || later.threads[j].pc.Returned?)
            && (later.lazy.Published? ==>
                  later.lazy.rs == FirstConfigured(now.once.owner, now.threads[now.once.owner].options, 4))
  {
    ExecInv(g, moves);
    var now := Exec(g, moves);
    CompleteStays(now, more);
    NothingPanicked(Exec(now, more));
    hide Exec, ThreadInv, MutexHolder, PoisonInv;
  }

  /** How every call ends, at any moment. */
  lemma {:induction false} Outcomes(g: Global, moves: seq<Move>)
    requires Initial(g)
    ensures OutcomeInv(Exec(g, moves))
  {
    ExecInv(g, moves);
  }

  lemma {:induction false} PublishedStays(g: Global, moves: seq<Move>)
    requires LazyHolder(g) && g.lazy.Published?
    ensures LazyHolder(Exec(g, moves)) && Exec(g, moves).lazy == g.lazy
  {
    if moves != [] {
      var last := moves[|moves| - 1];
      PublishedStays(g, moves[..|moves| - 1]);
      StepLazy(Exec(g, moves[..|moves| - 1]), last.thread, last.ok);
      PublishedStep(Exec(g, moves[..|moves| - 1]), last.thread, last.ok);
    }
  }

  lemma {:induction false} PublishedStep(g: Global, i: nat, ok: bool)
    requires LazyHolder(g) && g.lazy.Published?
    ensures Step(g, i, ok).lazy == g.lazy
  {
    hide NextOnce, NextMutex, NextConfig, NextPc;
  }

  /** What is published is never changed by any later call. */
  lemma {:induction false} Immutable(g: Global, moves: seq<Move>, more: seq<Move>)
    requires Initial(g) && Exec(g, moves).lazy.Published?
    ensures Exec(Exec(g, moves), more).lazy == Exec(g, moves).lazy
  {
    ExecInv(g, moves);
    PublishedStays(Exec(g, moves), more);
  }

  // ---------- no deadlock ----------

  /** The `Once` and the `Lazy` are only ever waited for outside the mutex, so some call can go on
      as long as any is unfinished. */
  lemma {:induction false} SomeEnabled(g: Global, i: nat) returns (j: nat)
    requires Inv(g) && i < |g.threads| && !g.threads[i].Finished()
    ensures Enabled(g, j)
  {
    hide ConfigInv, OutcomeInv, ThreadInv;
    if g.mutex.Held? {
      j := g.mutex.owner;
    } else if g.once.OnceRunning? {
      j := g.once.owner;
    } else if g.lazy.LazyRunning? {
      j := g.lazy.owner;
    } else {
      j := i;
    }
  }

  /** Steps a call has left at most. */
  function Rank(pc: Pc): nat {
    match pc
    case InitCalled => 10
    case InitRunning => 9
    case InitLocked => 8
    case InitCreating(n) => if n <= 4 then 7 - n else 3
    case InitUnlocked => 2
    case UseCalled => 10
    case UseRunning => 9
    case UseLocked => 8
    case UseBuilding(_, _, n) => if n <= 4 then 7 - n else 3
    case UseUnlocked(_) => 2
    case Returned => 0
    case Panicked => 0
  }

  function Ranks(threads: seq<Thread>): nat {
    if threads == [] then 0 else Ranks(threads[..|threads| - 1]) + Rank(threads[|threads| - 1].pc)
  }

  lemma {:induction false} RanksUpdate(threads: seq<Thread>, i: nat, th: Thread)
    requires i < |threads|
    ensures Ranks(threads[i := th]) + Rank(threads[i].pc) == Ranks(threads) + Rank(th.pc)
  {
    hide Rank;
    var front := threads[..|threads| - 1];
    if i == |threads| - 1 {
      assert threads[i := th][..|threads| - 1] == front;
    } else {
      assert threads[i := th][..|threads| - 1] == front[i := th];
      RanksUpdate(front, i, th);
    }
  }

  /** Every step that is taken uses up one of the steps left. */
  lemma {:induction false} StepUses(g: Global, i: nat, ok: bool)
    requires Enabled(g, i)
    ensures Ranks(Step(g, i, ok).threads) < Ranks(g.threads)
  {
    hide NextOnce, NextLazy, NextMutex, NextConfig;
    RanksUpdate(g.threads, i, g.threads[i].(pc := NextPc(g, i, ok)));
  }

  lemma {:induction false} Finish(g: Global, oks: bool) returns (moves: seq<Move>)
    requires Inv(g)
    ensures forall i :: 0 <= i < |Exec(g, moves).threads| ==> Exec(g, moves).threads[i].Finished()
    ensures forall m :: m in moves ==> m.ok == oks
    decreases Ranks(g.threads)
  {
    if i :| 0 <= i < |g.threads| && !g.threads[i].Finished() {
      var j := SomeEnabled(g, i);
      StepUses(g, j, oks);
      StepInv(g, j, oks);
      hide Inv, Step;
      var rest := Finish(Step(g, j, oks), oks);
      moves := [Move(j, oks)] + rest;
      ExecCons(g, Move(j, oks), rest);
    } else {
      moves := [];
    }
  }

  lemma {:induction false} ExecCons(g: Global, move: Move, rest: seq<Move>)
    ensures Exec(g, [move] + rest) == Exec(Step(g, move.thread, move.ok), rest)
  {
    hide Step;
    if rest == [] {
      assert [move] + rest == [move];
      assert [move][..0] == [];
    } else {
      ExecCons(g, move, rest[..|rest| - 1]);
      assert ([move] + rest)[..|rest|] == [move] + rest[..|rest| - 1];
    }
  }

  /** No deadlock: from every reachable state all calls can be brought to their end, be it that
      every further creation succeeds or that every one fails. */
  lemma {:induction false} NoDeadlock(g: Global, moves: seq<Move>, oks: bool) returns (more: seq<Move>)
    requires Initial(g)
    ensures var end := Exec(Exec(g, moves), more);
            forall i :: 0 <= i < |end.threads| ==> end.threads[i].Finished()
  {
    ExecInv(g, moves);
    more := Finish(Exec(g, moves), oks);
  }

  /** How many of the moves were steps of calls that could go on. */
  function Taken(g: Global, moves: seq<Move>): nat {
    if moves == [] then 0
    else
      Taken(g, moves[..|moves| - 1]) +
      if Enabled(Exec(g, moves[..|moves| - 1]), moves[|moves| - 1].thread) then 1 else 0
  }

  /** No run takes more than ten steps for each call. */
  lemma {:induction false} StepsBounded(g: Global, moves: seq<Move>)
    ensures Taken(g, moves) + Ranks(Exec(g, moves).threads) <= Ranks(g.threads) <= 10 * |g.threads|
  {
    RanksBounded(g.threads);
    if moves != [] {
      var before, last := Exec(g, moves[..|moves| - 1]), moves[|moves| - 1];
      StepsBounded(g, moves[..|moves| - 1]);
      if Enabled(before, last.thread) {
        StepUses(before, last.thread, last.ok);
      }
    }
  }

  lemma {:induction false} RanksBounded(threads: seq<Thread>)
    ensures Ranks(threads) <= 10 * |threads|
  {
    if threads != [] {
      RanksBounded(threads[..|threads| - 1]);
    }
  }

  // ---------- when an init call can still return, and when it can still panic ----------

  /** No configuration is complete, and the runtimes are in use or about to be, or a panic has
      poisoned what an init needs. */
  ghost predicate Doomed(g: Global) {
    && Winner(g).None?
    && (g.alreadyInit || g.once.OncePoisoned? || g.mutex.Poisoned? || exists i :: 0 <= i < |g.threads| && g.threads[i].pc.UseLocked?)
  }

  lemma {:induction false} DoomedStep(g: Global, i: nat, ok: bool)
    requires Inv(g) && Doomed(g)
    ensures Doomed(Step(g, i, ok))
  {
    StepWinner(g, i, ok);
    if Enabled(g, i) {
      assert ThreadInv(g, i);
      var g' := Step(g, i, ok);
      if u :| 0 <= u < |g.threads| && g.threads[u].pc.UseLocked? {
        assert u == i || g'.threads[u].pc.UseLocked?;
        assert g.mutex == Held(u);
      }
      hide Winner, NextLazy, NextConfig;
    }
  }

  lemma {:induction false} DoomedStays(g: Global, more: seq<Move>)
    requires Inv(g) && Doomed(g)
    ensures Inv(Exec(g, more)) && Doomed(Exec(g, more))
  {
    if more != [] {
      var last := more[|more| - 1];
      hide Inv, Doomed, Step;
      DoomedStays(g, more[..|more| - 1]);
      DoomedStep(Exec(g, more[..|more| - 1]), last.thread, last.ok);
      StepInv(Exec(g, more[..|more| - 1]), last.thread, last.ok);
    }
  }

  /** A call of init, under the options it was made with. */
  predicate IsInit(g: Global, j: nat) {
    j < |g.threads| && g.threads[j].init
  }

  lemma {:induction false} CallsStay(g: Global, more: seq<Move>, j: nat)
    requires IsInit(g, j)
    ensures IsInit(Exec(g, more), j)
  {
    if more != [] {
      hide NextPc, NextOnce, NextLazy, NextMutex, NextConfig, Enabled;
      CallsStay(g, more[..|more| - 1], j);
    }
  }

  lemma {:induction false} DoomedNotReturned(g: Global, j: nat)
    requires Inv(g) && Doomed(g) && IsInit(g, j)
    ensures !g.threads[j].pc.Returned?
  {
  }

  lemma {:induction false} WinnerStays(g: Global, more: seq<Move>)
    requires Inv(g) && Winner(g).Some?
    ensures Inv(Exec(g, more)) && Winner(Exec(g, more)).Some?
  {
    if more != [] {
      var last := more[|more| - 1];
      WinnerStays(g, more[..|more| - 1]);
      StepWinner(Exec(g, more[..|more| - 1]), last.thread, last.ok);
      StepInv(Exec(g, more[..|more| - 1]), last.thread, last.ok);
      hide Inv, Step, Winner;
    }
  }

  /** The next move towards a complete configuration: by the call inside the `Once`, or by `j`. */
  lemma {:induction false} TowardsWinner(g: Global, j: nat) returns (i: nat)
    requires Inv(g) && IsInit(g, j) && !Doomed(g) && Winner(g).None?
    ensures Enabled(g, i)
    ensures !Doomed(Step(g, i, true)) && IsInit(Step(g, i, true), j)
  {
    i := if g.once.OnceRunning? then g.once.owner else j;
    if g.mutex.Held? {
      assert g.threads[g.mutex.owner].InMutex() && ThreadInv(g, g.mutex.owner);
      assert g.threads[g.mutex.owner].InOnce();
    }
    assert g.threads[i].OnCourse();
    assert !g.threads[i].Finished();
    assert ThreadInv(g, i);
    var g' := Step(g, i, true);
    forall u | 0 <= u < |g'.threads| ensures !g'.threads[u].pc.UseLocked? {
      assert u != i ==> g'.threads[u] == g.threads[u];
    }
  }

  lemma {:induction false} ReachWinner(g: Global, j: nat) returns (moves: seq<Move>)
    requires Inv(g) && IsInit(g, j) && !Doomed(g)
    ensures Inv(Exec(g, moves)) && IsInit(Exec(g, moves), j) && Winner(Exec(g, moves)).Some?
    decreases Ranks(g.threads)
  {
    if Winner(g).Some? {
      moves := [];
    } else {
      var i := TowardsWinner(g, j);
      StepUses(g, i, true);
      StepInv(g, i, true);
      hide Inv, Doomed, Step, Winner;
      var rest := ReachWinner(Step(g, i, true), j);
      moves := [Move(i, true)] + rest;
      ExecCons(g, Move(i, true), rest);
    }
  }

  lemma {:induction false} ReturnsWithWinner(g: Global, j: nat)
    requires Inv(g) && IsInit(g, j) && Winner(g).Some? && g.threads[j].Finished()
    ensures g.threads[j].pc.Returned?
  {
    hide ThreadInv, ConfigInv, MutexHolder;
  }

  lemma {:induction false} ReachReturn(g: Global, j: nat) returns (moves: seq<Move>)
    requires Inv(g) && IsInit(g, j) && !Doomed(g)
    ensures IsInit(Exec(g, moves), j) && Exec(g, moves).threads[j].pc.Returned?
  {
    hide Inv, Doomed, Exec, Winner;
    var first := ReachWinner(g, j);
    var won := Exec(g, first);
    var rest := Finish(won, true);
    WinnerStays(won, rest);
    CallsStay(won, rest, j);
    ReturnsWithWinner(Exec(won, rest), j);
    moves := first + rest;
    ExecConcat(g, first, rest);
  }

  lemma {:induction false} ExecConcat(g: Global, moves: seq<Move>, more: seq<Move>)
    ensures Exec(g, moves + more) == Exec(Exec(g, moves), more)
  {
    hide Step;
    if more == [] {
      assert moves + more == moves;
    } else {
      ExecConcat(g, moves, more[..|more| - 1]);
      assert (moves + more)[..|moves + more| - 1] == moves + more[..|more| - 1];
    }
  }

  /** In every reachable state and for every init call: some continuation lets it return exactly
      unless, with no complete configuration, the runtimes are in use or about to be, or a panic has
      poisoned what it needs. */
  lemma {:induction false} InitReturnsExactly(g: Global, moves: seq<Move>, j: nat)
    requires Initial(g) && IsInit(Exec(g, moves), j)
    ensures var now := Exec(g, moves);
            (exists more :: IsInit(Exec(now, more), j) && Exec(now, more).threads[j].pc.Returned?) <==> !Doomed(now)
  {
    ExecInv(g, moves);
    var now := Exec(g, moves);
    hide Inv, Exec, Doomed, IsInit;
    if Doomed(now) {
      forall more | IsInit(Exec(now, more), j) ensures j < |Exec(now, more).threads| && !Exec(now, more).threads[j].pc.Returned? {
        DoomedStays(now, more);
        DoomedNotReturned(Exec(now, more), j);
      }
    } else {
      var more := ReachReturn(now, j);
      assert IsInit(Exec(now, more), j);
    }
  }

  /** No call has created all four runtimes. */
  ghost predicate NoneCreated(g: Global) {
    && Winner(g).None?
    && forall i :: 0 <= i < |g.threads| ==> !(g.threads[i].pc.InitCreating? && g.threads[i].pc.next >= 4)
  }

  lemma {:induction false} CreatedStep(g: Global, i: nat, ok: bool)
    requires Inv(g) && !NoneCreated(g)
    ensures !NoneCreated(Step(g, i, ok))
  {
    StepWinner(g, i, ok);
    if u :| 0 <= u < |g.threads| && g.threads[u].pc.InitCreating? && g.threads[u].pc.next >= 4 {
      hide Inv, Winner, NextOnce, NextLazy, NextMutex, NextConfig;
      if u != i || !Enabled(g, i) {
        assert Step(g, i, ok).threads[u] == g.threads[u];
      }
    } else {
      hide Inv, Winner, Step;
    }
  }

  lemma {:induction false} CreatedStays(g: Global, more: seq<Move>)
    requires Inv(g) && !NoneCreated(g)
    ensures Inv(Exec(g, more)) && !NoneCreated(Exec(g, more))
  {
    if more != [] {
      var last := more[|more| - 1];
      hide Inv, NoneCreated, Step;
      CreatedStays(g, more[..|more| - 1]);
      CreatedStep(Exec(g, more[..|more| - 1]), last.thread, last.ok);
      StepInv(Exec(g, more[..|more| - 1]), last.thread, last.ok);
    }
  }

  lemma {:induction false} CreatedNotPanicked(g: Global, j: nat)
    requires Inv(g) && !NoneCreated(g) && IsInit(g, j)
    ensures !g.threads[j].pc.Panicked?
  {
    if u :| 0 <= u < |g.threads| && g.threads[u].pc.InitCreating? && g.threads[u].pc.next >= 4 {
      assert g.threads[u].InOnce() && g.once == OnceRunning(u);
    }
    hide ThreadInv, ConfigInv, MutexHolder;
  }

  lemma {:induction false} NoneCreatedStep(g: Global, i: nat)
    requires Inv(g) && NoneCreated(g)
    ensures NoneCreated(Step(g, i, false))
  {
    StepWinner(g, i, false);
    hide Inv, Winner, NextOnce, NextLazy, NextMutex, NextConfig;
  }

  lemma {:induction false} NoneCreatedStays(g: Global, more: seq<Move>)
    requires Inv(g) && NoneCreated(g) && forall m :: m in more ==> !m.ok
    ensures Inv(Exec(g, more)) && NoneCreated(Exec(g, more))
  {
    if more != [] {
      var last := more[|more| - 1];
      assert last in more;
      hide Inv, NoneCreated, Step;
      NoneCreatedStays(g, more[..|more| - 1]);
      NoneCreatedStep(Exec(g, more[..|more| - 1]), last.thread);
      StepInv(Exec(g, more[..|more| - 1]), last.thread, last.ok);
    }
  }

  lemma {:induction false} PanickedWithout(g: Global, j: nat)
    requires Inv(g) && NoneCreated(g) && IsInit(g, j) && g.threads[j].Finished()
    ensures g.threads[j].pc.Panicked?
  {
    hide ThreadInv, ConfigInv, MutexHolder;
  }

  /** In every reachable state and for every init call: some continuation lets it panic exactly as
      long as no call has created all four runtimes. */
  lemma {:induction false} InitPanicsExactly(g: Global, moves: seq<Move>, j: nat)
    requires Initial(g) && IsInit(Exec(g, moves), j)
    ensures var now := Exec(g, moves);
            (exists more :: IsInit(Exec(now, more), j) && Exec(now, more).threads[j].pc.Panicked?) <==> NoneCreated(now)
  {
    ExecInv(g, moves);
    var now := Exec(g, moves);
    if NoneCreated(now) {
      hide Inv, Exec, NoneCreated;
      var more := Finish(now, false);
      NoneCreatedStays(now, more);
      CallsStay(now, more, j);
      PanickedWithout(Exec(now, more), j);
      assert IsInit(Exec(now, more), j);
    } else {
      hide Inv, Exec, NoneCreated, IsInit;
      forall more | IsInit(Exec(now, more), j) ensures j < |Exec(now, more).threads| && !Exec(now, more).threads[j].pc.Panicked? {
        CreatedStays(now, more);
        CreatedNotPanicked(Exec(now, more), j);
      }
    }
  }

  // ---------- the object behind the mutex ----------

  class ConfigRuntimes {
    var runtimes: Four
    var alreadyInit: bool

    constructor ()
      ensures runtimes == NO_RUNTIMES && !alreadyInit
    {
      runtimes, alreadyInit := NO_RUNTIMES, false;
    }

    /** The closure of `init_global_runtimes`, by thread `i`, when only the first `created`
        creations succeed. */
    method Configure(i: nat, options: RuntimeOptions, created: nat) returns (panicked: bool)
      modifies this`runtimes
      ensures panicked <==> alreadyInit || created < 4
      ensures alreadyInit ==> runtimes == old(runtimes)
      ensures !alreadyInit && created >= 4 ==>
                runtimes == Sized(Configured(i), options.readRtSize, options.writeRtSize, options.bgRtSize, 2)
      ensures !alreadyInit && old(runtimes) == NO_RUNTIMES ==> runtimes == FirstConfigured(i, options, created)
    {
      if alreadyInit {
        return true;
      }
      if created == 0 {
        return true;
      }
      runtimes := runtimes.(read := MakeConfigured(i, options, 0));
      if created == 1 {
        return true;
      }
      runtimes := runtimes.(write := MakeConfigured(i, options, 1));
      if created == 2 {
        return true;
      }
      runtimes := runtimes.(bg := MakeConfigured(i, options, 2));
      if created == 3 {
        return true;
      }
      runtimes := runtimes.(hb := MakeConfigured(i, options, 3));
      panicked := false;
    }

    /** What the first use takes out. */
    method TakeAll() returns (taken: Four)
      modifies this
      ensures taken == old(runtimes) && runtimes == NO_RUNTIMES && alreadyInit
    {
      taken := runtimes;
      runtimes := NO_RUNTIMES;
      alreadyInit := true;
    }
  }

  // ---------- calls without interference: the object's methods ----------

  predicate OwnMoves(moves: seq<Move>, i: nat) {
    forall m :: m in moves ==> m.thread == i
  }

  /** One move of thread `i`, and what follows. */
  lemma {:induction false} Then(g: Global, i: nat, ok: bool, rest: seq<Move>) returns (moves: seq<Move>)
    requires OwnMoves(rest, i)
    ensures OwnMoves(moves, i) && Exec(g, moves) == Exec(Step(g, i, ok), rest)
  {
    moves := [Move(i, ok)] + rest;
    ExecCons(g, Move(i, ok), rest);
  }

  lemma {:induction false} NoMoves(g: Global, i: nat)
    ensures OwnMoves([], i) && Exec(g, []) == g
  {
  }

  /** What an undisturbed init makes of the configuration, and how it ends, when only the first
      `created` creations succeed: as the method `Configure`. */
  ghost predicate ConfiguredBy(g: Global, i: nat, created: nat, end: Global)
    requires i < |g.threads|
  {
    && |end.threads| == |g.threads|
    && end.alreadyInit == g.alreadyInit
    && end.config == (if g.alreadyInit then NO_RUNTIMES else FirstConfigured(i, g.threads[i].options, created))
    && end.threads[i].pc == (if g.alreadyInit || created < 4 then Panicked else Returned)
    && end.once == (if g.alreadyInit || created < 4 then OncePoisoned else Complete(i))
    && end.mutex == (if g.alreadyInit || created < 4 then Poisoned else Free)
  }

  lemma {:induction false} CreateAlone(g: Global, i: nat, created: nat) returns (moves: seq<Move>)
    requires i < |g.threads| && g.threads[i].pc.InitCreating? && g.threads[i].pc.next <= 4 && g.threads[i].pc.next <= created
    requires g.mutex == Held(i) && !g.alreadyInit && g.config == FirstConfigured(i, g.threads[i].options, g.threads[i].pc.next)
    ensures OwnMoves(moves, i) && ConfiguredBy(g, i, created, Exec(g, moves))
    decreases 4 - g.threads[i].pc.next
  {
    var ok := g.threads[i].pc.next < created;
    var g' := Step(g, i, ok);
    if g.threads[i].pc.next == 4 {
      moves := CompleteAlone(g', i);
    } else if ok {
      moves := CreateAlone(g', i, created);
    } else {
      NoMoves(g', i);
      moves := [];
    }
    assert ConfiguredBy(g, i, created, Exec(g', moves));
    hide Step, ConfiguredBy, OwnMoves;
    moves := Then(g, i, ok, moves);
  }

  lemma {:induction false} CompleteAlone(g: Global, i: nat) returns (moves: seq<Move>)
    requires i < |g.threads| && g.threads[i].pc.InitUnlocked?
    ensures OwnMoves(moves, i)
    ensures Exec(g, moves) == g.(threads := g.threads[i := g.threads[i].(pc := Returned)], once := Complete(i))
  {
    NoMoves(Step(g, i, true), i);
    moves := Then(g, i, true, []);
  }

  lemma {:induction false} InitAlone(g: Global, i: nat, created: nat) returns (moves: seq<Move>)
    requires i < |g.threads| && g.threads[i].pc.InitCalled? && g.once.Incomplete? && g.mutex.Free? && g.config == NO_RUNTIMES
    ensures OwnMoves(moves, i) && ConfiguredBy(g, i, created, Exec(g, moves))
  {
    var g1 := Step(g, i, true);
    var g2 := Step(g1, i, true);
    var g3 := Step(g2, i, true);
    if g.alreadyInit {
      NoMoves(g3, i);
      moves := [];
    } else {
      moves := CreateAlone(g3, i, created);
    }
    assert ConfiguredBy(g, i, created, Exec(g3, moves));
    hide Step, ConfiguredBy, OwnMoves;
    moves := Then(g2, i, true, moves);
    moves := Then(g1, i, true, moves);
    moves := Then(g, i, true, moves);
  }

  /** What an undisturbed first use makes of it when every creation succeeds: as the method
      `TakeAll`, and it publishes what was taken, with defaults for what was missing. */
  ghost predicate UsedBy(g: Global, i: nat, taken: Four, end: Global) {
    && |end.threads| == |g.threads|
    && end.alreadyInit && end.config == NO_RUNTIMES
    && end.lazy == Published(FirstBuilt(taken, 4))
    && end.once == g.once && end.mutex.Free?
    && i < |end.threads| && end.threads[i].pc.Returned?
  }

  lemma {:induction false} BuildAlone(g: Global, i: nat) returns (moves: seq<Move>)
    requires i < |g.threads| && g.threads[i].pc.UseBuilding? && g.threads[i].pc.next <= 4
    requires g.mutex == Held(i) && g.alreadyInit && g.config == NO_RUNTIMES
    requires g.threads[i].pc.built == FirstBuilt(g.threads[i].pc.taken, g.threads[i].pc.next)
    ensures OwnMoves(moves, i) && UsedBy(g, i, g.threads[i].pc.taken, Exec(g, moves))
    decreases 4 - g.threads[i].pc.next
  {
    var g' := Step(g, i, true);
    var taken := g.threads[i].pc.taken;
    if g.threads[i].pc.next == 4 {
      moves := PublishAlone(g', i);
    } else {
      moves := BuildAlone(g', i);
    }
    assert UsedBy(g, i, taken, Exec(g', moves));
    hide Step, UsedBy, OwnMoves;
    moves := Then(g, i, true, moves);
  }

  lemma {:induction false} PublishAlone(g: Global, i: nat) returns (moves: seq<Move>)
    requires i < |g.threads| && g.threads[i].pc.UseUnlocked?
    ensures OwnMoves(moves, i)
    ensures Exec(g, moves)
         == g.(threads := g.threads[i := g.threads[i].(pc := Returned)], lazy := Published(g.threads[i].pc.built))
  {
    NoMoves(Step(g, i, true), i);
    moves := Then(g, i, true, []);
  }

  lemma {:induction false} UseAlone(g: Global, i: nat) returns (moves: seq<Move>)
    requires i < |g.threads| && g.threads[i].pc.UseCalled? && g.lazy.Unset? && g.mutex.Free?
    ensures OwnMoves(moves, i) && UsedBy(g, i, g.config, Exec(g, moves))
  {
    var g1 := Step(g, i, true);
    var g2 := Step(g1, i, true);
    var g3 := Step(g2, i, true);
    moves := BuildAlone(g3, i);
    assert UsedBy(g, i, g.config, Exec(g3, moves));
    hide Step, UsedBy, OwnMoves;
    moves := Then(g2, i, true, moves);
    moves := Then(g1, i, true, moves);
    moves := Then(g, i, true, moves);
  }
}
