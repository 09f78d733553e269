/**
 Completions racing to record themselves. A completion holds the read lock of the table from its
 lookup until its record is stored, if the key is there; if not, it lets go of the read lock and
 only then takes the write lock to insert a new entry, over whatever is there by now.
 */
module RecordTable {
  import opened Polling
  import opened ModeCount
  import opened Records

  /** Where a completion stands. Looked..Unlocked hold the read lock, Writing and Written the write
      lock, Locked..Published also the mutex of a cell. */
  datatype Pc =
    | Start
    | Looked(found: Option<nat>)
    | Locked(cell: nat)
    | Pushed(cell: nat)
    | Trimmed(cell: nat)
    | Published(cell: nat)
    | Unlocked(cell: nat)
    | Gap
    | Writing
    | Written
    | Done

  datatype Thread = Thread(key: Key, record: OneFutureRecord, pc: Pc) {
    predicate Reads() { pc.Looked? || Holds() || pc.Unlocked? }
    predicate Writes() { pc.Writing? || pc.Written? }
    predicate Holds() { pc.Locked? || pc.Pushed? || pc.Trimmed? || pc.Published? }
    /** It has looked the key up in vain and will insert. */
    predicate Late() { pc == Looked(None) || pc.Gap? || pc.Writing? }
    /** Its record is in the table, or was. */
    predicate Stored() { pc.Pushed? || pc.Trimmed? || pc.Published? || pc.Unlocked? || pc.Written? || pc.Done? }
  }

  /** An entry of the table, with the records stored in it in the order of its mutex. */
  datatype Cell = Cell(key: Key, window: seq<OneFutureRecord>, rate: Rate, holder: Option<nat>, history: seq<OneFutureRecord>)

  /** Records of a key dropped from the front of a window, or replaced together with it. */
  datatype Losses = Losses(evicted: nat, overwritten: nat)

  datatype Table = Table(threads: seq<Thread>, index: map<Key, nat>, cells: seq<Cell>, losses: map<Key, Losses>)

  function LossesOf(t: Table, k: Key): Losses {
    if k in t.losses then t.losses[k] else Losses(0, 0)
  }

  function WindowSize(t: Table, k: Key): nat {
    if k in t.index && t.index[k] < |t.cells| then |t.cells[t.index[k]].window| else 0
  }

  predicate NoWriter(t: Table) {
    forall u :: 0 <= u < |t.threads| ==> !t.threads[u].Writes()
  }

  predicate NoReader(t: Table) {
    forall u :: 0 <= u < |t.threads| ==> !t.threads[u].Reads()
  }

  /** Can completion `i` go on? Locks are the only thing that can stop it. */
  predicate Enabled(t: Table, i: nat) {
    i < |t.threads| &&
    match t.threads[i].pc
    case Start => NoWriter(t)
    case Looked(Some(c)) => c < |t.cells| && t.cells[c].holder.None?
    case Looked(None) => true
    case Locked(c) => c < |t.cells|
    case Pushed(c) => c < |t.cells|
    case Trimmed(c) => c < |t.cells|
    case Published(c) => c < |t.cells|
    case Unlocked(_) => true
    case Gap => NoWriter(t) && NoReader(t)
    case Writing => true
    case Written => true
    case Done => false
  }

  function NextPc(t: Table, i: nat): Pc
    requires Enabled(t, i)
  {
    match t.threads[i].pc
    case Start => Looked(if t.threads[i].key in t.index then Some(t.index[t.threads[i].key]) else None)
    case Looked(Some(c)) => Locked(c)
    case Looked(None) => Gap
    case Locked(c) => Pushed(c)
    case Pushed(c) => Trimmed(c)
    case Trimmed(c) => Published(c)
    case Published(c) => Unlocked(c)
    case Unlocked(_) => Done
    case Gap => Writing
    case Writing => Written
    case Written => Done
  }

  /** What a step of a thread at `pc` does to the one cell it works on. */
  function Touch(pc: Pc, i: nat, r: OneFutureRecord, cell: Cell): Cell {
    match pc
    case Looked(_) => cell.(holder := Some(i))
    case Locked(_) => cell.(window := cell.window + [r], history := cell.history + [r])
    case Pushed(_) => if |cell.window| > 10 then cell.(window := cell.window[1..]) else cell
    case Trimmed(_) => cell.(rate := Mean(cell.window))
    case Published(_) => cell.(holder := None)
    case _ => cell
  }

  /** The one cell a step of this thread can touch. */
  function Own(pc: Pc): Option<nat> {
    match pc
    case Looked(found) => found
    case Locked(c) => Some(c)
    case Pushed(c) => Some(c)
    case Trimmed(c) => Some(c)
    case Published(c) => Some(c)
    case _ => None
  }

  function NextCells(t: Table, i: nat): seq<Cell>
    requires Enabled(t, i)
  {
    var th := t.threads[i];
    if th.pc.Writing? then t.cells + [Cell(th.key, [th.record], Ratio(th.record), None, [th.record])]
    else
      match Own(th.pc)
      case Some(c) => t.cells[c := Touch(th.pc, i, th.record, t.cells[c])]
      case None => t.cells
  }

  function NextLosses(t: Table, i: nat): map<Key, Losses>
    requires Enabled(t, i)
  {
    var k := t.threads[i].key;
    var l := LossesOf(t, k);
    match t.threads[i].pc
    case Pushed(c) => if |t.cells[c].window| > 10 then t.losses[k := l.(evicted := l.evicted + 1)] else t.losses
    case Writing => t.losses[k := l.(overwritten := l.overwritten + WindowSize(t, k))]
    case _ => t.losses
  }

  function Step(t: Table, i: nat): Table {
    if !Enabled(t, i) then t
    else
      Table(t.threads[i := t.threads[i].(pc := NextPc(t, i))],
            if t.threads[i].pc.Writing? then t.index[t.threads[i].key := |t.cells|] else t.index,
            NextCells(t, i),
            NextLosses(t, i))
  }

  function Exec(t: Table, schedule: seq<nat>): Table {
    if schedule == [] then t else Step(Exec(t, schedule[..|schedule| - 1]), schedule[|schedule| - 1])
  }

  ghost predicate Initial(t: Table) {
    && t.index == map[] && t.cells == [] && t.losses == map[]
    && forall i :: 0 <= i < |t.threads| ==> t.threads[i].pc.Start?
  }

  // ---------- the invariant ----------

  /** A cell whose mutex is free. */
  ghost predicate Settled(cell: Cell) {
    cell.history != [] && cell.window == LastTen(cell.history) && cell.rate == Mean(cell.window)
  }

  ghost predicate CellOk(cell: Cell, pc: Pc) {
    && cell.history != []
    && match pc
       case Pushed(_) => |cell.history| > 1 && cell.rate == Mean(LastTen(cell.history[..|cell.history| - 1])) && cell.window == LastTen(cell.history[..|cell.history| - 1]) + [cell.history[|cell.history| - 1]]
       case Trimmed(_) => |cell.history| > 1 && cell.rate == Mean(LastTen(cell.history[..|cell.history| - 1])) && cell.window == LastTen(cell.history)
       case _ => Settled(cell)
  }

  /** What thread `i` may rely on: the cell it found is still the one in the index, so no record is
      ever pushed into a window that was replaced. */
  ghost predicate ThreadOk(t: Table, i: nat)
    requires i < |t.threads|
  {
    var th := t.threads[i];
    match th.pc
    case Looked(Some(c)) => InIndex(t, th.key, c)
    case Locked(c) => InIndex(t, th.key, c) && t.cells[c].holder == Some(i)
    case Pushed(c) => InIndex(t, th.key, c) && t.cells[c].holder == Some(i)
    case Trimmed(c) => InIndex(t, th.key, c) && t.cells[c].holder == Some(i)
    case Published(c) => InIndex(t, th.key, c) && t.cells[c].holder == Some(i)
    case Unlocked(c) => InIndex(t, th.key, c)
    case _ => true
  }

  ghost predicate InIndex(t: Table, k: Key, c: nat) {
    k in t.index && t.index[k] == c && c < |t.cells|
  }

  ghost predicate CellInv(t: Table, c: nat)
    requires c < |t.cells|
  {
    match t.cells[c].holder
    case None => Settled(t.cells[c])
    case Some(i) => i < |t.threads| && t.threads[i].Holds() && t.threads[i].pc.cell == c && CellOk(t.cells[c], t.threads[i].pc)
  }

  ghost predicate Exclusive(t: Table) {
    forall u, v :: 0 <= u < |t.threads| && 0 <= v < |t.threads| && u != v && t.threads[u].Writes() ==>
      !t.threads[v].Writes() && !t.threads[v].Reads()
  }

  ghost predicate Inv(t: Table) {
    && (forall k :: k in t.index ==> t.index[k] < |t.cells| && t.cells[t.index[k]].key == k)
    && (forall i :: 0 <= i < |t.threads| ==> ThreadOk(t, i))
    && (forall c :: 0 <= c < |t.cells| ==> CellInv(t, c))
    && Exclusive(t)
  }

  lemma {:induction false} PushedTrim(cell: Cell)
    requires |cell.history| > 1
    requires cell.window == LastTen(cell.history[..|cell.history| - 1]) + [cell.history[|cell.history| - 1]]
    ensures LastTen(cell.history) == if |cell.window| > 10 then cell.window[1..] else cell.window
    ensures 0 < |cell.window| <= 11
  {
    var front := cell.history[..|cell.history| - 1];
    PushWindow(front, cell.history[|cell.history| - 1]);
    assert front + [cell.history[|cell.history| - 1]] == cell.history;
  }

  lemma {:induction false} StepExclusive(t: Table, i: nat)
    requires Exclusive(t)
    ensures Exclusive(Step(t, i))
  {
    hide NextCells, NextLosses;
  }

  ghost predicate Framed(t: Table, i: nat, t': Table) {
    && |t'.threads| == |t.threads|
    && (forall j :: 0 <= j < |t.threads| && (j != i || !Enabled(t, i)) ==> t'.threads[j] == t.threads[j])
    && (i < |t.threads| ==> t'.threads[i].key == t.threads[i].key && t'.threads[i].record == t.threads[i].record)
    && |t.cells| <= |t'.cells|
    && (if i < |t.threads| && t.threads[i].pc.Writing?
        then t'.index == t.index[t.threads[i].key := |t.cells|] && |t'.cells| == |t.cells| + 1
        else t'.index == t.index && |t'.cells| == |t.cells|)
    && (forall c :: 0 <= c < |t.cells| ==>
          && t'.cells[c].key == t.cells[c].key
          && (!Enabled(t, i) || Own(t.threads[i].pc) != Some(c) ==> t'.cells[c] == t.cells[c]))
  }

  lemma {:induction false} StepFrame(t: Table, i: nat)
    ensures Framed(t, i, Step(t, i))
    ensures i < |t.threads| && t.threads[i].pc.Writing? ==> Step(t, i).cells[|t.cells|].key == t.threads[i].key
  {
    hide NextPc, NextLosses, NoReader, NoWriter, Ratio, Mean;
  }

  lemma {:induction false} StepIndex(t: Table, i: nat, k: Key)
    requires Inv(t) && k in Step(t, i).index
    ensures var t' := Step(t, i); t'.index[k] < |t'.cells| && t'.cells[t'.index[k]].key == k
  {
    hide Step, CellInv, ThreadOk, Exclusive, Enabled, Own;
    StepFrame(t, i);
  }

  /** While a thread reads, nobody inserts, so what a reader relies on stays. */
  lemma {:induction false} OtherThread(t: Table, i: nat, j: nat)
    requires Inv(t) && j < |t.threads| && (j != i || !Enabled(t, i))
    ensures |Step(t, i).threads| == |t.threads| && ThreadOk(Step(t, i), j)
  {
    hide Step, CellInv, NoReader, NoWriter;
    StepFrame(t, i);
    assert ThreadOk(t, j);
    if i < |t.threads| {
      assert ThreadOk(t, i);
    }
  }

  lemma {:induction false} OwnThread(t: Table, i: nat)
    requires Inv(t) && Enabled(t, i)
    ensures |Step(t, i).threads| == |t.threads| && ThreadOk(Step(t, i), i)
  {
    hide Mean, Ratio, NextLosses, CellInv, Exclusive, NoReader, NoWriter;
    assert ThreadOk(t, i);
  }

  lemma {:induction false} OtherCell(t: Table, i: nat, c: nat)
    requires Inv(t) && c < |t.cells| && (!Enabled(t, i) || Own(t.threads[i].pc) != Some(c))
    ensures c < |Step(t, i).cells| && CellInv(Step(t, i), c)
  {
    hide Step, Settled, CellOk, Exclusive, NoReader, NoWriter;
    StepFrame(t, i);
    assert CellInv(t, c);
    if Enabled(t, i) {
      assert ThreadOk(t, i);
    }
  }

  lemma {:induction false} OwnCell(t: Table, i: nat, c: nat)
    requires Inv(t) && Enabled(t, i) && Own(t.threads[i].pc) == Some(c)
    ensures c < |Step(t, i).cells| && CellInv(Step(t, i), c)
  {
    hide Mean, Ratio, NextLosses, LastTen, Exclusive, NoReader, NoWriter;
    assert ThreadOk(t, i) && CellInv(t, c);
    match t.threads[i].pc {
      case Locked(_) =>
        assert (t.cells[c].history + [t.threads[i].record])[..|t.cells[c].history|] == t.cells[c].history;
      case Pushed(_) =>
        PushedTrim(t.cells[c]);
      case _ =>
    }
  }

  lemma {:induction false} NewCell(t: Table, i: nat)
    requires i < |t.threads| && t.threads[i].pc.Writing?
    ensures |Step(t, i).cells| == |t.cells| + 1 && CellInv(Step(t, i), |t.cells|)
  {
    hide Mean, Ratio, NextLosses, LastTen;
    MeanOfOne(t.threads[i].record);
    NewWindow(t.threads[i].record);
  }

  lemma {:induction false} NewWindow(r: OneFutureRecord)
    ensures LastTen([r]) == [r]
  {
  }

  lemma {:induction false} StepInv(t: Table, i: nat)
    requires Inv(t)
    ensures Inv(Step(t, i))
  {
    hide CellInv, ThreadOk, Exclusive, Step, Own, NoReader, NoWriter;
    var t' := Step(t, i);
    StepFrame(t, i);
    StepExclusive(t, i);
    forall k | k in t'.index ensures t'.index[k] < |t'.cells| && t'.cells[t'.index[k]].key == k {
      StepIndex(t, i, k);
    }
    forall j | 0 <= j < |t'.threads| ensures ThreadOk(t', j) {
      if j == i && Enabled(t, i) {
        OwnThread(t, i);
      } else {
        OtherThread(t, i, j);
      }
    }
    forall c | 0 <= c < |t'.cells| ensures CellInv(t', c) {
      if c == |t.cells| {
        NewCell(t, i);
      } else if Enabled(t, i) && Own(t.threads[i].pc) == Some(c) {
        OwnCell(t, i, c);
      } else {
        OtherCell(t, i, c);
      }
    }
  }

  /** The invariant holds in every reachable state of every schedule. */
  lemma {:induction false} ExecInv(t: Table, schedule: seq<nat>)
    requires Initial(t)
    ensures Inv(Exec(t, schedule))
  {
    if schedule != [] {
      hide Inv, Step;
      ExecInv(t, schedule[..|schedule| - 1]);
      StepInv(Exec(t, schedule[..|schedule| - 1]), schedule[|schedule| - 1]);
    }
  }

  /** What an entry shows to those who hold its mutex, and what rate it shows to everyone. */
  ghost predicate Agrees(cell: Cell) {
    && cell.history != []
    && (cell.holder.None? ==>
          && 1 <= |cell.window| <= 10
          && cell.window == LastTen(cell.history)
          && cell.rate == Mean(cell.window))
    && (cell.rate == Mean(LastTen(cell.history)) || cell.rate == Mean(LastTen(cell.history[..|cell.history| - 1])))
  }

  lemma {:induction false} CellAgrees(t: Table, c: nat)
    requires c < |t.cells| && CellInv(t, c)
    ensures Agrees(t.cells[c])
  {
    hide Mean;
  }

  /** Whenever the mutex of a type's entry is free, its window holds 1 to 10 records, the last of
      those stored since the latest insert in the order of the mutex, and the published rate is
      their mean. And at every moment, mutex or not, the rate is the mean of the last ten records
      with or without the newest: never that of a window in between. */
  lemma {:induction false} WindowAgrees(t: Table, schedule: seq<nat>, k: Key)
    requires Initial(t)
    requires k in Exec(t, schedule).index
    ensures var now := Exec(t, schedule);
            && now.index[k] < |now.cells|
            && now.cells[now.index[k]].key == k
            && Agrees(now.cells[now.index[k]])
  {
    ExecInv(t, schedule);
    var now := Exec(t, schedule);
    assert now.index[k] < |now.cells| && CellInv(now, now.index[k]);
    hide Exec, Agrees, CellInv, ThreadOk;
    CellAgrees(now, now.index[k]);
  }

  // ---------- conservation ----------

  /** Completions of a type whose record has been stored. */
  function StoredCount(threads: seq<Thread>, k: Key): nat {
    if threads == [] then 0
    else
      StoredCount(threads[..|threads| - 1], k) +
      if threads[|threads| - 1].key == k && threads[|threads| - 1].Stored() then 1 else 0
  }

  lemma {:induction false} StoredUpdate(threads: seq<Thread>, i: nat, th: Thread, k: Key)
    requires i < |threads|
    ensures StoredCount(threads[i := th], k) + (if threads[i].key == k && threads[i].Stored() then 1 else 0)
         == StoredCount(threads, k) + (if th.key == k && th.Stored() then 1 else 0)
  {
    var front := threads[..|threads| - 1];
    if i == |threads| - 1 {
      assert threads[i := th][..|threads| - 1] == front;
    } else {
      assert threads[i := th][..|threads| - 1] == front[i := th];
      StoredUpdate(front, i, th, k);
    }
  }

  lemma {:induction false} NoneStored(threads: seq<Thread>, k: Key)
    requires forall i :: 0 <= i < |threads| ==> threads[i].pc.Start?
    ensures StoredCount(threads, k) == 0
  {
    if threads != [] {
      NoneStored(threads[..|threads| - 1], k);
    }
  }

  /** Does this step store a record of type `k`? */
  predicate Stores(t: Table, i: nat, k: Key) {
    Enabled(t, i) && t.threads[i].key == k && (t.threads[i].pc.Locked? || t.threads[i].pc.Writing?)
  }

  lemma {:induction false} StoredStep(t: Table, i: nat, k: Key)
    ensures StoredCount(Step(t, i).threads, k) == StoredCount(t.threads, k) + if Stores(t, i, k) then 1 else 0
  {
    hide StoredCount, NextCells, NextLosses, NoReader, NoWriter;
    if Enabled(t, i) {
      var th := Step(t, i).threads[i];
      assert Step(t, i).threads == t.threads[i := th];
      StoredUpdate(t.threads, i, th, k);
    }
  }

  function Kept(t: Table, k: Key): nat {
    WindowSize(t, k) + LossesOf(t, k).evicted + LossesOf(t, k).overwritten
  }

  lemma {:induction false} KeptStep(t: Table, i: nat, k: Key)
    requires Inv(t)
    ensures Kept(Step(t, i), k) == Kept(t, k) + if Stores(t, i, k) then 1 else 0
  {
    hide Mean, Ratio, NextPc, CellInv, Exclusive, NoReader, NoWriter;
    if Enabled(t, i) {
      assert ThreadOk(t, i);
    }
  }

  /** For every type and at every moment of every schedule: the completions that have stored their
      record are the records in the window, those evicted from it, and those lost to overwriting
      inserts. */
  lemma {:induction false} Conservation(t: Table, schedule: seq<nat>, k: Key)
    requires Initial(t)
    ensures var now := Exec(t, schedule);
            StoredCount(now.threads, k) == WindowSize(now, k) + LossesOf(now, k).evicted + LossesOf(now, k).overwritten
  {
    if schedule == [] {
      NoneStored(t.threads, k);
    } else {
      hide Step, StoredCount, Stores, Inv, WindowSize, LossesOf;
      var before := Exec(t, schedule[..|schedule| - 1]);
      Conservation(t, schedule[..|schedule| - 1], k);
      ExecInv(t, schedule[..|schedule| - 1]);
      StoredStep(before, schedule[|schedule| - 1], k);
      KeptStep(before, schedule[|schedule| - 1], k);
    }
  }

  /** No completion of this type is still about to insert because it looked before the key was
      there. */
  ghost predicate Drained(t: Table, k: Key) {
    k in t.index && forall i :: 0 <= i < |t.threads| && t.threads[i].key == k ==> !t.threads[i].Late()
  }

  lemma {:induction false} DrainedStep(t: Table, i: nat, k: Key)
    requires Drained(t, k)
    ensures Drained(Step(t, i), k)
    ensures LossesOf(Step(t, i), k).overwritten == LossesOf(t, k).overwritten
    ensures Step(t, i).index[k] == t.index[k]
  {
    hide NextCells, NoReader, NoWriter, WindowSize;
  }

  /** Records are lost to an overwriting insert only while completions are left that looked the key
      up in vain. Once the key is there and they have drained, nothing is lost but by eviction. */
  lemma {:induction false} NoMoreLosses(t: Table, schedule: seq<nat>, k: Key)
    requires Drained(t, k)
    ensures var now := Exec(t, schedule);
            Drained(now, k) && LossesOf(now, k).overwritten == LossesOf(t, k).overwritten && now.index[k] == t.index[k]
  {
    if schedule != [] {
      hide Step, LossesOf, Drained;
      NoMoreLosses(t, schedule[..|schedule| - 1], k);
      DrainedStep(Exec(t, schedule[..|schedule| - 1]), schedule[|schedule| - 1], k);
    }
  }

  /** The locks never lock each other out: some completion can go on as long as any is unfinished. */
  lemma {:induction false} Progress(t: Table, schedule: seq<nat>, i: nat) returns (j: nat)
    requires Initial(t)
    requires i < |Exec(t, schedule).threads| && !Exec(t, schedule).threads[i].pc.Done?
    ensures Enabled(Exec(t, schedule), j)
  {
    ExecInv(t, schedule);
    j := SomeEnabled(Exec(t, schedule), i);
  }

  lemma {:induction false} SomeEnabled(t: Table, i: nat) returns (j: nat)
    requires Inv(t) && i < |t.threads| && !t.threads[i].pc.Done?
    ensures Enabled(t, j)
  {
    hide Settled, CellOk;
    if u :| 0 <= u < |t.threads| && t.threads[u].Writes() {
      j := u;
    } else if u :| 0 <= u < |t.threads| && t.threads[u].Reads() {
      assert ThreadOk(t, u);
      j := u;
      if t.threads[u].pc.Looked? && t.threads[u].pc.found.Some? {
        var c := t.threads[u].pc.found.value;
        assert CellInv(t, c);
        if t.cells[c].holder.Some? {
          j := t.cells[c].holder.value;
          assert ThreadOk(t, j);
        }
      }
    } else {
      j := i;
      assert NoWriter(t) && NoReader(t);
    }
  }

  /** Steps a completion has left at most. */
  function Rank(pc: Pc): nat {
    match pc
    case Start => 7
    case Looked(Some(_)) => 6
    case Locked(_) => 5
    case Pushed(_) => 4
    case Trimmed(_) => 3
    case Published(_) => 2
    case Unlocked(_) => 1
    case Looked(None) => 4
    case Gap => 3
    case Writing => 2
    case Written => 1
    case Done => 0
  }

  function Ranks(threads: seq<Thread>): nat {
    if threads == [] then 0 else Ranks(threads[..|threads| - 1]) + Rank(threads[|threads| - 1].pc)
  }

  lemma {:induction false} RanksUpdate(threads: seq<Thread>, i: nat, th: Thread)
    requires i < |threads|
    ensures Ranks(threads[i := th]) + Rank(threads[i].pc) == Ranks(threads) + Rank(th.pc)
  {
    hide Rank;
    var front := threads[..|threads| - 1];
    if i == |threads| - 1 {
      assert threads[i := th][..|threads| - 1] == front;
    } else {
      assert threads[i := th][..|threads| - 1] == front[i := th];
      RanksUpdate(front, i, th);
    }
  }

  lemma {:induction false} RankDrops(t: Table, i: nat)
    requires Enabled(t, i)
    ensures Rank(NextPc(t, i)) < Rank(t.threads[i].pc)
  {
    hide NoReader, NoWriter;
  }

  /** Every step that is taken uses up one of the steps left. */
  lemma {:induction false} StepUses(t: Table, i: nat)
    requires Enabled(t, i)
    ensures Ranks(Step(t, i).threads) < Ranks(t.threads)
  {
    hide NextCells, NextLosses, NextPc, Ranks, Rank;
    RankDrops(t, i);
    RanksUpdate(t.threads, i, t.threads[i].(pc := NextPc(t, i)));
  }

  lemma {:induction false} ExecCons(t: Table, i: nat, rest: seq<nat>)
    ensures Exec(t, [i] + rest) == Exec(Step(t, i), rest)
  {
    hide Step;
    if rest == [] {
      assert [i] + rest == [i];
      assert [i][..0] == [];
    } else {
      ExecCons(t, i, rest[..|rest| - 1]);
      assert ([i] + rest)[..|rest|] == [i] + rest[..|rest| - 1];
    }
  }

  ghost predicate AllDone(t: Table) {
    forall i :: 0 <= i < |t.threads| ==> t.threads[i].pc.Done?
  }

  lemma {:induction false} Finish(t: Table) returns (more: seq<nat>)
    requires Inv(t)
    ensures AllDone(Exec(t, more))
    decreases Ranks(t.threads)
  {
    if i :| 0 <= i < |t.threads| && !t.threads[i].pc.Done? {
      var j := SomeEnabled(t, i);
      StepUses(t, j);
      StepInv(t, j);
      hide Inv, Step, AllDone;
      var rest := Finish(Step(t, j));
      more := [j] + rest;
      ExecCons(t, j, rest);
    } else {
      more := [];
    }
  }

  /** From every reachable state all completions can be brought to their end. */
  lemma {:induction false} AllComplete(t: Table, schedule: seq<nat>) returns (more: seq<nat>)
    requires Initial(t)
    ensures AllDone(Exec(Exec(t, schedule), more))
  {
    ExecInv(t, schedule);
    more := Finish(Exec(t, schedule));
  }

  /** How many entries of a schedule were steps of completions that could go on. */
  function Taken(t: Table, schedule: seq<nat>): nat {
    if schedule == [] then 0
    else
      Taken(t, schedule[..|schedule| - 1]) +
      if Enabled(Exec(t, schedule[..|schedule| - 1]), schedule[|schedule| - 1]) then 1 else 0
  }

  /** No schedule takes more than seven steps for each completion. */
  lemma {:induction false} StepsBounded(t: Table, schedule: seq<nat>)
    ensures Taken(t, schedule) + Ranks(Exec(t, schedule).threads) <= Ranks(t.threads) <= 7 * |t.threads|
  {
    RanksBounded(t.threads);
    if schedule != [] {
      hide Ranks, Enabled;
      var before, i := Exec(t, schedule[..|schedule| - 1]), schedule[|schedule| - 1];
      StepsBounded(t, schedule[..|schedule| - 1]);
      if Enabled(before, i) {
        StepUses(before, i);
      }
    }
  }

  lemma {:induction false} RanksBounded(threads: seq<Thread>)
    ensures Ranks(threads) <= 7 * |threads|
  {
    if threads != [] {
      RanksBounded(threads[..|threads| - 1]);
    }
  }

  // ---------- when records are still lost to overwriting ----------

  lemma {:induction false} WindowNotEmpty(t: Table, k: Key)
    requires Inv(t) && k in t.index
    ensures WindowSize(t, k) > 0
  {
    assert t.index[k] < |t.cells| && CellInv(t, t.index[k]);
    hide Mean, Inv;
  }

  /** Completion `j` will still insert, or records were lost since there were `base`. */
  ghost predicate LateOrLost(t: Table, j: nat, k: Key, base: nat) {
    && k in t.index && j < |t.threads| && t.threads[j].key == k
    && LossesOf(t, k).overwritten >= base
    && (t.threads[j].Late() || LossesOf(t, k).overwritten > base)
  }

  lemma {:induction false} OverwrittenStep(t: Table, i: nat, k: Key)
    ensures LossesOf(Step(t, i), k).overwritten ==
            LossesOf(t, k).overwritten +
            if i < |t.threads| && t.threads[i].pc.Writing? && t.threads[i].key == k then WindowSize(t, k) else 0
  {
    hide NextPc, NextCells, NoReader, NoWriter, WindowSize;
  }

  lemma {:induction false} LateStep(t: Table, i: nat, j: nat, k: Key, base: nat)
    requires Inv(t) && LateOrLost(t, j, k, base)
    ensures LateOrLost(Step(t, i), j, k, base)
  {
    WindowNotEmpty(t, k);
    OverwrittenStep(t, i, k);
    hide Inv, LossesOf, WindowSize, NextCells, NextLosses, NoReader, NoWriter;
  }

  lemma {:induction false} LateRun(t: Table, schedule: seq<nat>, j: nat, k: Key, base: nat)
    requires Inv(t) && LateOrLost(t, j, k, base)
    ensures Inv(Exec(t, schedule)) && LateOrLost(Exec(t, schedule), j, k, base)
  {
    if schedule != [] {
      hide Inv, Step, LateOrLost;
      LateRun(t, schedule[..|schedule| - 1], j, k, base);
      LateStep(Exec(t, schedule[..|schedule| - 1]), schedule[|schedule| - 1], j, k, base);
      StepInv(Exec(t, schedule[..|schedule| - 1]), schedule[|schedule| - 1]);
    }
  }

  lemma {:induction false} LateLoses(t: Table, j: nat, k: Key) returns (more: seq<nat>)
    requires Inv(t) && k in t.index && j < |t.threads| && t.threads[j].key == k && t.threads[j].Late()
    ensures LossesOf(Exec(t, more), k).overwritten > LossesOf(t, k).overwritten
  {
    hide Inv, Exec, LossesOf;
    more := Finish(t);
    LateRun(t, more, j, k, LossesOf(t, k).overwritten);
    assert !Exec(t, more).threads[j].Late();
  }

  /** The exact condition: in a reachable state with an entry for the key, no continuation loses a
      record of it to an overwriting insert if and only if no completion is left that looked the
      key up in vain and has not inserted yet. */
  lemma {:induction false} LossFreeExactly(t: Table, schedule: seq<nat>, k: Key)
    requires Initial(t) && k in Exec(t, schedule).index
    ensures var now := Exec(t, schedule);
            (forall more :: LossesOf(Exec(now, more), k).overwritten == LossesOf(now, k).overwritten) <==> Drained(now, k)
  {
    ExecInv(t, schedule);
    var now := Exec(t, schedule);
    hide Inv, Exec, LossesOf;
    if Drained(now, k) {
      forall more ensures LossesOf(Exec(now, more), k).overwritten == LossesOf(now, k).overwritten {
        NoMoreLosses(now, more, k);
      }
    } else {
      var j :| 0 <= j < |now.threads| && now.threads[j].key == k && now.threads[j].Late();
      var more := LateLoses(now, j, k);
      assert LossesOf(Exec(now, more), k).overwritten != LossesOf(now, k).overwritten;
    }
  }

  // ---------- a completion without interference: the method `Record` ----------

  /** What has been stored for a key since its latest insert. */
  function History(t: Table, k: Key): seq<OneFutureRecord> {
    if k in t.index && t.index[k] < |t.cells| then t.cells[t.index[k]].history else []
  }

  /** Nobody but completion `i` is inside a lock, and it does not insert over an entry. */
  ghost predicate Undisturbed(t: Table, i: nat) {
    && Inv(t) && i < |t.threads|
    && (forall u :: 0 <= u < |t.threads| && u != i ==> !t.threads[u].Reads() && !t.threads[u].Writes())
    && (t.threads[i].Late() ==> t.threads[i].key !in t.index)
  }

  lemma {:induction false} UndisturbedEnabled(t: Table, i: nat)
    requires Undisturbed(t, i) && !t.threads[i].pc.Done?
    ensures Enabled(t, i)
  {
    hide Settled, CellOk;
    assert ThreadOk(t, i);
    if t.threads[i].pc.Looked? && t.threads[i].pc.found.Some? {
      assert CellInv(t, t.threads[i].pc.found.value);
    }
  }

  lemma {:induction false} UndisturbedStep(t: Table, i: nat)
    requires Undisturbed(t, i) && Enabled(t, i)
    ensures Undisturbed(Step(t, i), i)
  {
    StepInv(t, i);
    hide Inv, NextCells, NextLosses;
  }

  lemma {:induction false} HistoryStep(t: Table, i: nat, k: Key)
    requires Undisturbed(t, i) && Enabled(t, i)
    ensures History(Step(t, i), k) == History(t, k) + if Stores(t, i, k) then [t.threads[i].record] else []
  {
    hide Mean, Ratio, NextPc, NextLosses, CellInv, Exclusive, NoReader, NoWriter;
    assert ThreadOk(t, i);
  }

  /** What the entries hold afterwards, if this completion has not stored its record yet. */
  ghost predicate Appended(t: Table, th: Thread, end: Table) {
    forall k :: History(end, k) == History(t, k) + if k == th.key && !th.Stored() then [th.record] else []
  }

  lemma {:induction false} AppendedStep(t: Table, i: nat, end: Table)
    requires Undisturbed(t, i) && Enabled(t, i)
    requires Appended(Step(t, i), Step(t, i).threads[i], end)
    ensures Appended(t, t.threads[i], end)
  {
    var th, th' := t.threads[i], Step(t, i).threads[i];
    hide Undisturbed, NextCells, NextLosses, NoReader, NoWriter;
    assert th'.key == th.key && th'.record == th.record;
    forall k ensures History(end, k) == History(t, k) + if k == th.key && !th.Stored() then [th.record] else [] {
      assert th'.Stored() <==> th.Stored() || Stores(t, i, th.key);
      HistoryStep(t, i, k);
      hide History, Step, Enabled;
    }
  }

  /** A completion that nobody interferes with stores its record as the method `Record` of
      `FutureRecords` does: behind all others of its key, with every other key as it was. */
  lemma {:induction false} RecordAlone(t: Table, i: nat) returns (schedule: seq<nat>)
    requires Undisturbed(t, i)
    ensures forall e :: e in schedule ==> e == i
    ensures i < |Exec(t, schedule).threads| && Exec(t, schedule).threads[i].pc.Done?
    ensures Appended(t, t.threads[i], Exec(t, schedule))
    decreases Rank(t.threads[i].pc)
  {
    if t.threads[i].pc.Done? {
      schedule := [];
      assert Exec(t, schedule) == t;
    } else {
      UndisturbedEnabled(t, i);
      UndisturbedStep(t, i);
      RankDrops(t, i);
      assert Step(t, i).threads[i].pc == NextPc(t, i);
      assert |Step(t, i).threads| == |t.threads|;
      hide Undisturbed, Appended, Step, Rank;
      var rest := RecordAlone(Step(t, i), i);
      schedule := [i] + rest;
      ExecCons(t, i, rest);
      AppendedStep(t, i, Exec(t, schedule));
    }
  }

  function Pair(r1: OneFutureRecord, p1: Pc, r2: OneFutureRecord, p2: Pc): seq<Thread> {
    [Thread(0, r1, p1), Thread(0, r2, p2)]
  }

  lemma {:induction false} BothLook(t: Table, r1: OneFutureRecord, r2: OneFutureRecord) returns (schedule: seq<nat>)
    requires t == Table(Pair(r1, Start, r2, Start), map[], [], map[])
    ensures Exec(t, schedule) == t.(threads := Pair(r1, Gap, r2, Gap))
  {
    hide Exec;
    schedule := Stay(t);
    schedule := Go(t, schedule, 0, t.(threads := Pair(r1, Looked(None), r2, Start)));
    schedule := Go(t, schedule, 1, t.(threads := Pair(r1, Looked(None), r2, Looked(None))));
    schedule := Go(t, schedule, 0, t.(threads := Pair(r1, Gap, r2, Looked(None))));
    schedule := Go(t, schedule, 1, t.(threads := Pair(r1, Gap, r2, Gap)));
  }

  /** Two completions of a new type that both look before either inserts: one record is lost. */
  lemma {:induction false} OverwriteLoses(r1: OneFutureRecord, r2: OneFutureRecord) returns (t: Table, schedule: seq<nat>)
    ensures Initial(t) && t.threads == Pair(r1, Start, r2, Start)
    ensures var now := Exec(t, schedule);
            && now.threads == Pair(r1, Done, r2, Done)
            && LossesOf(now, 0) == Losses(0, 1)
            && WindowSize(now, 0) == 1
  {
    t := Table(Pair(r1, Start, r2, Start), map[], [], map[]);
    hide Exec, Step, Ratio;
    schedule := BothLook(t, r1, r2);
    var first;
    schedule, first := FirstInserts(t, schedule, r1, r2);
    schedule := SecondInserts(t, schedule, r1, r2, first);
  }

  lemma {:induction false} FirstInserts(t: Table, schedule: seq<nat>, r1: OneFutureRecord, r2: OneFutureRecord) returns (more: seq<nat>, first: Table)
    requires Exec(t, schedule) == Table(Pair(r1, Gap, r2, Gap), map[], [], map[])
    ensures first.index == map[0 := 0] && |first.cells| == 1 && |first.cells[0].window| == 1 && first.losses == map[0 := Losses(0, 0)]
    ensures Exec(t, more) == first.(threads := Pair(r1, Done, r2, Gap))
  {
    hide Exec, Ratio, Mean;
    var w := Table(Pair(r1, Writing, r2, Gap), map[], [], map[]);
    first := Table(Pair(r1, Written, r2, Gap), map[0 := 0], [Cell(0, [r1], Ratio(r1), None, [r1])], map[0 := Losses(0, 0)]);
    more := Go(t, schedule, 0, w);
    more := Go(t, more, 0, first);
    more := Go(t, more, 0, first.(threads := Pair(r1, Done, r2, Gap)));
  }

  lemma {:induction false} SecondInserts(t: Table, schedule: seq<nat>, r1: OneFutureRecord, r2: OneFutureRecord, first: Table) returns (more: seq<nat>)
    requires first.index == map[0 := 0] && |first.cells| == 1 && |first.cells[0].window| == 1 && first.losses == map[0 := Losses(0, 0)]
    requires Exec(t, schedule) == first.(threads := Pair(r1, Done, r2, Gap))
    ensures var now := Exec(t, more);
            now.threads == Pair(r1, Done, r2, Done) && LossesOf(now, 0) == Losses(0, 1) && WindowSize(now, 0) == 1
  {
    hide Exec, Ratio, Mean;
    var last := Table(Pair(r1, Done, r2, Written), map[0 := 1], first.cells + [Cell(0, [r2], Ratio(r2), None, [r2])], map[0 := Losses(0, 1)]);
    more := Go(t, schedule, 1, first.(threads := Pair(r1, Done, r2, Writing)));
    more := Go(t, more, 1, last);
    more := Go(t, more, 1, last.(threads := Pair(r1, Done, r2, Done)));
  }

  lemma {:induction false} Stay(t: Table) returns (schedule: seq<nat>)
    ensures Exec(t, schedule) == t
  {
    schedule := [];
  }

  /** One more step of a concrete run. */
  lemma {:induction false} Go(t: Table, schedule: seq<nat>, i: nat, next: Table) returns (more: seq<nat>)
    requires Step(Exec(t, schedule), i) == next
    ensures Exec(t, more) == next
  {
    more := schedule + [i];
    assert more[..|schedule|] == schedule;
  }
}
