/**
 The completion records of count mode: for each type of future a window of the last ten records
 and the published mean of their cpu shares. First the objects, then the interleavings of the
 completions that look a type up under the read lock and push or insert its record.
 */
module Records {
  import opened Polling
  import opened Priorities
  import opened ModeCount

  /** A type of future. */
  type Key = nat

  /** An f64 quotient, as far as it is a number: dividing by a total of zero gives NaN or infinity. */
  datatype Rate = Finite(value: real) | NotFinite

  function Ratio(r: OneFutureRecord): Rate {
    if r.totalMicro == 0 then NotFinite else Finite(r.cpuMicro as real / r.totalMicro as real)
  }

  function RatioSum(rs: seq<OneFutureRecord>): Rate {
    if rs == [] then Finite(0.0)
    else
      match (RatioSum(rs[..|rs| - 1]), Ratio(rs[|rs| - 1]))
      case (Finite(a), Finite(b)) => Finite(a + b)
      case _ => NotFinite
  }

  function Mean(rs: seq<OneFutureRecord>): Rate {
    if rs == [] then NotFinite
    else
      match RatioSum(rs)
      case Finite(sum) => Finite(sum / (|rs| as real))
      case NotFinite => NotFinite
  }

  function LastTen(rs: seq<OneFutureRecord>): seq<OneFutureRecord> {
    if |rs| <= 10 then rs else rs[|rs| - 10..]
  }

  /** The published rate is a number exactly when every record in the window has a positive total. */
  lemma {:induction false} SumFinite(rs: seq<OneFutureRecord>)
    ensures RatioSum(rs).Finite? <==> forall i :: 0 <= i < |rs| ==> rs[i].totalMicro > 0
  {
    if rs != [] {
      var front := rs[..|rs| - 1];
      SumFinite(front);
      assert forall i :: 0 <= i < |front| ==> front[i] == rs[i];
    }
  }

  lemma {:induction false} MeanFinite(rs: seq<OneFutureRecord>)
    requires rs != []
    ensures Mean(rs).Finite? <==> forall i :: 0 <= i < |rs| ==> rs[i].totalMicro > 0
  {
    SumFinite(rs);
  }

  lemma {:induction false} ShareBounded(part: real, whole: real)
    requires 0.0 <= part <= whole && whole > 0.0
    ensures 0.0 <= part / whole <= 1.0
  {
    var share := part / whole;
    assert share * whole == part;
    assert share > 1.0 ==> share * whole > whole;
  }

  lemma {:induction false} ShareTimesTotal(r: OneFutureRecord)
    requires Ratio(r).Finite?
    ensures Ratio(r).value * (1_000 * r.totalMicro) as real == (1_000 * r.cpuMicro) as real
  {
    var share, total := Ratio(r).value, r.totalMicro as real;
    assert share * total == r.cpuMicro as real;
    assert (1_000 * r.totalMicro) as real == 1_000.0 * total;
    assert share * (1_000.0 * total) == 1_000.0 * (share * total);
  }

  /** The cpu share of the total, and the delays, fit into the total. */
  ghost predicate LeavesRoom(r: OneFutureRecord, requested: nat) {
    var total := (1_000 * r.totalMicro) as real;
    Ratio(r).Finite? ==> Ratio(r).value * total + requested as real <= total
  }

  lemma {:induction false} RoomLeft(r: OneFutureRecord, requested: nat)
    requires 1_000 * r.cpuMicro + requested <= 1_000 * r.totalMicro
    ensures LeavesRoom(r, requested)
  {
    if Ratio(r).Finite? {
      ShareTimesTotal(r);
    }
  }

  /** The duty cycle: when each poll reads the clock once on entry, the recorded cpu share of a
      throttled future is at most what its delays leave of the recorded total. */
  lemma {:induction false} DutyCycle<A, R>(p: Priority, ins: seq<(Turn<A>, Poll<R>)>)
    requires Legal(p, ins) && Finished(Exec(p, ins).1) && !p.VeryHigh?
    requires forall i :: 0 <= i < |ins| ==> ins[i].0.clock.start == ins[i].0.clock.check
    requires (ins[|ins| - 1].0.clock.finish - ins[0].0.clock.start) / 1_000 < 0x1_0000_0000_0000_0000
    ensures var (c, tr) := Exec(p, ins);
            c.beginTime.Some? && LeavesRoom(RecordOf(c, ins[|ins| - 1].0.clock), TallyOf(tr).requested)
  {
    assert ins != [];
    hide Legal, TallyOf, Exec, Finished, RecordOf, LeavesRoom;
    OneReading(p, ins);
    var (c, tr) := Exec(p, ins);
    RoomLeft(RecordOf(c, ins[|ins| - 1].0.clock), TallyOf(tr).requested);
  }

  /** The mean of shares lies between 0 and 1 when no record claims more poll time than total. */
  lemma {:induction false} SumBounded(rs: seq<OneFutureRecord>)
    requires forall i :: 0 <= i < |rs| ==> rs[i].cpuMicro <= rs[i].totalMicro && rs[i].totalMicro > 0
    ensures RatioSum(rs).Finite? && 0.0 <= RatioSum(rs).value <= |rs| as real
  {
    if rs != [] {
      var front, last := rs[..|rs| - 1], rs[|rs| - 1];
      assert forall i :: 0 <= i < |front| ==> front[i] == rs[i];
      SumBounded(front);
      ShareBounded(last.cpuMicro as real, last.totalMicro as real);
    }
  }

  lemma {:induction false} MeanOfOne(r: OneFutureRecord)
    ensures Mean([r]) == Ratio(r)
  {
    assert RatioSum([r]) == Ratio(r) by {
      assert [r][..0] == [];
    }
  }

  /** The mean times the number of records grows by exactly the share of each further record. */
  lemma {:induction false} MeanGrows(rs: seq<OneFutureRecord>, r: OneFutureRecord)
    requires rs != [] && Mean(rs + [r]).Finite?
    ensures Mean(rs).Finite? && r.totalMicro > 0
    ensures Mean(rs + [r]).value * (|rs| + 1) as real == Mean(rs).value * |rs| as real + r.cpuMicro as real / r.totalMicro as real
  {
    assert (rs + [r])[..|rs|] == rs;
    MeanTimesSize(rs);
    MeanTimesSize(rs + [r]);
  }

  lemma {:induction false} MeanTimesSize(rs: seq<OneFutureRecord>)
    requires rs != [] && RatioSum(rs).Finite?
    ensures Mean(rs).Finite? && Mean(rs).value * |rs| as real == RatioSum(rs).value
  {
    hide RatioSum;
    QuotientTimes(RatioSum(rs).value, |rs| as real);
  }

  lemma {:induction false} QuotientTimes(x: real, y: real)
    requires y > 0.0
    ensures x / y * y == x
  {
  }

  lemma {:induction false} PushWindow(history: seq<OneFutureRecord>, r: OneFutureRecord)
    requires history != []
    ensures var grown := LastTen(history) + [r];
            LastTen(history + [r]) == if |grown| > 10 then grown[1..] else grown
  {
  }

  /** A future that is ready at once, before the clock has moved, has a total of zero: a rate that
      is made of its record is not a number. */
  lemma {:induction false} ZeroTotal(p: Priority) returns (ins: seq<(Turn<()>, Poll<()>)>)
    ensures ins != [] && Legal(p, ins) && Finished(Exec(p, ins).1)
    ensures var c := Exec(p, ins).0;
            c.beginTime.Some? && Mean([RecordOf(c, ins[|ins| - 1].0.clock)]) == NotFinite
  {
    ins := [(PlainTurn(0, 0, ()), Ready(()))];
    assert ins[..0] == [];
    MeanOfOne(RecordOf(Exec(p, ins).0, ins[0].0.clock));
  }

  // ---------- the objects ----------

  /** The two `Arc`s kept for a type: the published rate and the window. */
  class RecordCell {
    var rate: Rate
    var window: seq<OneFutureRecord>
    /** Every record since this cell was made, in order. */
    ghost var history: seq<OneFutureRecord>

    ghost predicate Valid()
      reads this
    {
      history != [] && window == LastTen(history) && rate == Mean(window)
    }

    constructor (first: OneFutureRecord)
      ensures Valid() && history == [first]
    {
      rate := Ratio(first);
      window := [first];
      history := [first];
      new;
      MeanOfOne(first);
    }

    method Push(record: OneFutureRecord)
      requires Valid()
      modifies this
      ensures Valid() && history == old(history) + [record]
    {
      PushWindow(history, record);
      history := history + [record];
      window := window + [record];
      if |window| > 10 {
        window := window[1..];
      }
      rate := Mean(window);
    }
  }

  class FutureRecords {
    var index: map<Key, RecordCell>

    ghost predicate Valid()
      reads this, index.Values
    {
      && (forall k :: k in index ==> index[k].Valid())
      && (forall k, m :: k in index && m in index && k != m ==> index[k] != index[m])
    }

    constructor ()
      ensures Valid() && index == map[]
    {
      index := map[];
    }

    /** Record one completion with nothing else going on. */
    method Record(key: Key, record: OneFutureRecord)
      requires Valid()
      modifies this, if key in index then {index[key]} else {}
      ensures Valid()
      ensures index.Keys == old(index.Keys) + {key}
      ensures forall k :: k in old(index) ==> index[k] == old(index)[k]
      ensures index[key].history == (if key in old(index) then old(index[key].history) else []) + [record]
      ensures forall k :: k in old(index) && k != key ==> index[k].history == old(index[k].history)
    {
      hide LastTen, Mean, Ratio;
      if key in index {
        var cell := index[key];
        cell.Push(record);
      } else {
        var cell := new RecordCell(record);
        index := index[key := cell];
      }
    }
  }
}
