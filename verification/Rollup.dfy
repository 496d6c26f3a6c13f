/** Machine rollups: five-minute rows summed from samples, and the hourly row built from the
    floored averages of the stored five-minute rows. */
module Rollup {
  import opened Options
  import opened MetricDecoding

  const U64_MAX: nat := 0xFFFF_FFFF_FFFF_FFFF

  /** Each sample stands for ten seconds. */
  const SAMPLE_SECONDS: nat := 10

  datatype Totals = Totals(count: nat, cpu: nat, cpuMax: nat, memory: nat, storageMax: nat, rx: nat, tx: nat)

  const NOTHING: Totals := Totals(0, 0, 0, 0, 0, 0, 0)

  function Max(a: nat, b: nat): nat { if a < b then b else a }

  function SaturatingAdd(a: nat, b: nat): nat { if a + b > U64_MAX then U64_MAX else a + b }

  function SaturatingMul(a: nat, b: nat): nat { if a * b > U64_MAX then U64_MAX else a * b }

  // ---- exact sums ---------------------------------------------------------------------------

  function Plus(a: Totals, b: Totals): Totals {
    Totals(a.count + b.count, a.cpu + b.cpu, Max(a.cpuMax, b.cpuMax), a.memory + b.memory,
           Max(a.storageMax, b.storageMax), a.rx + b.rx, a.tx + b.tx)
  }

  function One(s: Sample): Totals {
    Totals(1, s.cpuPermille, s.cpuPermille, s.memoryUsed, s.storageUsed,
           SAMPLE_SECONDS * s.networkRxBps, SAMPLE_SECONDS * s.networkTxBps)
  }

  function Exact(samples: seq<Sample>): Totals {
    if samples == [] then NOTHING else Plus(Exact(samples[..|samples| - 1]), One(samples[|samples| - 1]))
  }

  lemma {:induction false} ExactConcat(a: seq<Sample>, b: seq<Sample>)
    ensures Exact(a + b) == Plus(Exact(a), Exact(b))
    decreases |b|
  {
    hide Plus, One;
    if b == [] {
      assert a + b == a;
      PlusNothing(Exact(a));
    } else {
      var init, last := b[..|b| - 1], One(b[|b| - 1]);
      assert (a + b)[..|a + b| - 1] == a + init;
      ExactConcat(a, init);
      PlusAssociates(Exact(a), Exact(init), last);
    }
  }

  lemma PlusNothing(a: Totals)
    ensures Plus(a, NOTHING) == a && Plus(NOTHING, a) == a
  {
  }

  lemma PlusAssociates(a: Totals, b: Totals, c: Totals)
    ensures Plus(Plus(a, b), c) == Plus(a, Plus(b, c))
  {
  }

  lemma {:induction false} ExactCounts(samples: seq<Sample>)
    ensures Exact(samples).count == |samples|
    ensures samples == [] ==> Exact(samples) == NOTHING
  {
    if samples != [] { ExactCounts(samples[..|samples| - 1]); }
  }

  // ---- the code -----------------------------------------------------------------------------

  /** Every number fits the counters. */
  predicate Fits(t: Totals) {
    t.count <= U64_MAX && t.cpu <= U64_MAX && t.memory <= U64_MAX && t.rx <= U64_MAX && t.tx <= U64_MAX
  }

  function SaturatingPlus(a: Totals, b: Totals): Totals {
    Totals(SaturatingAdd(a.count, b.count), SaturatingAdd(a.cpu, b.cpu), Max(a.cpuMax, b.cpuMax),
           SaturatingAdd(a.memory, b.memory), Max(a.storageMax, b.storageMax),
           SaturatingAdd(a.rx, b.rx), SaturatingAdd(a.tx, b.tx))
  }

  function AddOne(t: Totals, s: Sample): Totals {
    Totals(t.count + 1, t.cpu + s.cpuPermille, Max(t.cpuMax, s.cpuPermille), SaturatingAdd(t.memory, s.memoryUsed),
           Max(t.storageMax, s.storageUsed),
           SaturatingAdd(t.rx, SaturatingMul(s.networkRxBps, SAMPLE_SECONDS)),
           SaturatingAdd(t.tx, SaturatingMul(s.networkTxBps, SAMPLE_SECONDS)))
  }

  function AddAll(t: Totals, samples: seq<Sample>): Totals {
    if samples == [] then t else AddOne(AddAll(t, samples[..|samples| - 1]), samples[|samples| - 1])
  }

  lemma {:induction false} AddAllConcat(t: Totals, a: seq<Sample>, b: seq<Sample>)
    ensures AddAll(t, a + b) == AddAll(AddAll(t, a), b)
    decreases |b|
  {
    hide AddOne;
    if b == [] {
      assert a + b == a;
    } else {
      assert (a + b)[..|a + b| - 1] == a + b[..|b| - 1];
      AddAllConcat(t, a, b[..|b| - 1]);
    }
  }

  /** Without saturation the counters are the exact sums. */
  lemma {:induction false} AddAllIsExact(samples: seq<Sample>)
    requires Fits(Exact(samples))
    ensures AddAll(NOTHING, samples) == Exact(samples)
    decreases |samples|
  {
    hide Plus;
    if samples != [] {
      var init, last := samples[..|samples| - 1], samples[|samples| - 1];
      AddOneFits(Exact(init), last);
      AddAllIsExact(init);
    }
  }

  lemma AddOneFits(t: Totals, s: Sample)
    requires Fits(Plus(t, One(s)))
    ensures Fits(t) && AddOne(t, s) == Plus(t, One(s))
  {
  }

  /** The samples of the reports that are there. */
  function Present(stored: seq<Option<seq<Sample>>>): seq<Sample> {
    if stored == [] then []
    else
      var last := stored[|stored| - 1];
      Present(stored[..|stored| - 1]) + (if last.Some? then last.value else [])
  }

  /** A row of `machine_rollups_5m`: averages are rounded down. */
  datatype Row = Row(count: nat, cpuAverage: nat, cpuMax: nat, memoryAverage: nat, storageMax: nat, rx: nat, tx: nat)

  function Average(total: nat, count: nat): nat { total / Max(count, 1) }

  function RowOf(t: Totals): Row {
    Row(t.count, Average(t.cpu, t.count), t.cpuMax, Average(t.memory, t.count), t.storageMax, t.rx, t.tx)
  }

  /** What the hourly sum takes from a stored row. */
  function Reloaded(row: Row): Totals {
    Totals(row.count, SaturatingMul(row.cpuAverage, row.count), row.cpuMax,
           SaturatingMul(row.memoryAverage, row.count), row.storageMax, row.rx, row.tx)
  }

  function HourOf(rows: seq<Row>): Totals {
    if rows == [] then NOTHING else SaturatingPlus(HourOf(rows[..|rows| - 1]), Reloaded(rows[|rows| - 1]))
  }

  class MachineRollup {
    var totals: Totals

    constructor ()
      ensures totals == NOTHING
    {
      totals := NOTHING;
    }

    /** `add_sample`. */
    method AddSample(s: Sample)
      modifies this
      ensures totals == AddOne(old(totals), s)
    {
      totals := totals.(count := totals.count + 1);
      totals := totals.(cpu := totals.cpu + s.cpuPermille);
      totals := totals.(cpuMax := Max(totals.cpuMax, s.cpuPermille));
      totals := totals.(memory := SaturatingAdd(totals.memory, s.memoryUsed));
      totals := totals.(storageMax := Max(totals.storageMax, s.storageUsed));
      totals := totals.(rx := SaturatingAdd(totals.rx, SaturatingMul(s.networkRxBps, SAMPLE_SECONDS)));
      totals := totals.(tx := SaturatingAdd(totals.tx, SaturatingMul(s.networkTxBps, SAMPLE_SECONDS)));
    }

    /** `add_report`. */
    method AddReport(samples: seq<Sample>)
      modifies this
      ensures totals == AddAll(old(totals), samples)
    {
      for i := 0 to |samples|
        invariant totals == AddAll(old(totals), samples[..i])
      {
        assert samples[..i + 1][..i] == samples[..i];
        AddSample(samples[i]);
      }
      assert samples[..|samples|] == samples;
    }

    /** The five-minute part of `closed_rollups`: the reports stored in slots 0 to 3, then the one
        that closes the block. */
    method AddBlock(stored: seq<Option<seq<Sample>>>, current: seq<Sample>)
      modifies this
      ensures totals == AddAll(old(totals), Present(stored) + current)
    {
      for i := 0 to |stored|
        invariant totals == AddAll(old(totals), Present(stored[..i]))
      {
        assert stored[..i + 1][..i] == stored[..i];
        if stored[i].Some? {
          AddAllConcat(old(totals), Present(stored[..i]), stored[i].value);
          AddReport(stored[i].value);
        } else {
          assert Present(stored[..i]) + [] == Present(stored[..i]);
        }
      }
      assert stored[..|stored|] == stored;
      AddAllConcat(old(totals), Present(stored), current);
      AddReport(current);
    }

    /** The hourly part of `closed_rollups`: the stored rows, then the block just closed. */
    method AddHour(rows: seq<Row>, five: Totals)
      requires totals == NOTHING
      modifies this
      ensures totals == SaturatingPlus(HourOf(rows), five)
    {
      for i := 0 to |rows|
        invariant totals == HourOf(rows[..i])
      {
        assert rows[..i + 1][..i] == rows[..i];
        totals := SaturatingPlus(totals, Reloaded(rows[i]));
      }
      assert rows[..|rows|] == rows;
      totals := SaturatingPlus(totals, five);
    }
  }

  // ---- the hour against its samples ---------------------------------------------------------

  function Flatten(blocks: seq<seq<Sample>>): seq<Sample> {
    if blocks == [] then [] else Flatten(blocks[..|blocks| - 1]) + blocks[|blocks| - 1]
  }

  function RowsOf(blocks: seq<seq<Sample>>): (rows: seq<Row>)
    ensures |rows| == |blocks|
  {
    if blocks == [] then [] else RowsOf(blocks[..|blocks| - 1]) + [RowOf(AddAll(NOTHING, blocks[|blocks| - 1]))]
  }

  /** Exact but for what rounding took from the two averaged sums: less than one for each sample. */
  ghost predicate NearlyExact(t: Totals, exact: Totals) {
    && t == exact.(cpu := t.cpu, memory := t.memory)
    && t.cpu <= exact.cpu && t.memory <= exact.memory
    && (exact.count == 0 ==> t == exact)
    && (exact.count > 0 ==> exact.cpu - t.cpu < exact.count && exact.memory - t.memory < exact.count)
  }

  lemma RoundingLoses(total: nat, count: nat)
    requires count > 0
    ensures Average(total, count) * count <= total < Average(total, count) * count + count
  {
    assert total == total / count * count + total % count;
  }

  lemma ReloadedNearlyExact(samples: seq<Sample>)
    requires Fits(Exact(samples))
    ensures NearlyExact(Reloaded(RowOf(AddAll(NOTHING, samples))), Exact(samples))
  {
    hide Exact, AddAll, Average;
    ExactCounts(samples);
    AddAllIsExact(samples);
    var t := Exact(samples);
    if t.count > 0 {
      RoundingLoses(t.cpu, t.count);
      RoundingLoses(t.memory, t.count);
    }
  }

  lemma NearlyExactPlus(a: Totals, exactA: Totals, b: Totals, exactB: Totals)
    requires NearlyExact(a, exactA) && NearlyExact(b, exactB) && Fits(Plus(exactA, exactB))
    ensures NearlyExact(SaturatingPlus(a, b), Plus(exactA, exactB))
  {
  }

  lemma {:induction false} RowsNearlyExact(blocks: seq<seq<Sample>>)
    requires Fits(Exact(Flatten(blocks)))
    ensures NearlyExact(HourOf(RowsOf(blocks)), Exact(Flatten(blocks)))
    decreases |blocks|
  {
    hide Exact, AddAll, Reloaded, SaturatingPlus, Plus, Fits, NearlyExact, RowOf;
    if blocks == [] {
      Nothing();
    } else {
      var init, last := blocks[..|blocks| - 1], blocks[|blocks| - 1];
      ExactConcat(Flatten(init), last);
      PartsFit(Exact(Flatten(init)), Exact(last));
      RowsNearlyExact(init);
      ReloadedNearlyExact(last);
      assert RowsOf(blocks)[..|blocks| - 1] == RowsOf(init);
      NearlyExactPlus(HourOf(RowsOf(init)), Exact(Flatten(init)), Reloaded(RowOf(AddAll(NOTHING, last))), Exact(last));
    }
  }

  lemma PartsFit(a: Totals, b: Totals)
    requires Fits(Plus(a, b))
    ensures Fits(a) && Fits(b)
  {
  }

  lemma Nothing()
    ensures NearlyExact(NOTHING, Exact([]))
  {
  }

  lemma AtLeast(total: nat, count: nat, k: nat)
    requires count > 0 && total >= k * count
    ensures total / count >= k
  {
    var q := total / count;
    assert total == q * count + total % count;
    Multiples(q, k, count);
  }

  lemma {:induction false} Multiples(q: nat, k: nat, count: nat)
    ensures q < k ==> q * count + count <= k * count
    decreases k
  {
    if q < k {
      Multiples(q, k - 1, count);
      assert k * count == (k - 1) * count + count;
    }
  }

  lemma AverageWithinOne(exact: nat, total: nat, count: nat)
    requires count > 0 && total <= exact < total + count
    ensures Average(exact, count) - 1 <= Average(total, count) <= Average(exact, count)
  {
    var q := exact / count;
    assert exact == q * count + exact % count;
    if q > 0 { AtLeast(total, count, q - 1); }
    AtLeast(exact, count, total / count);
  }

  /** The hourly row over the blocks of an hour, the last of which is just being closed: counts,
      maxima and network totals are exact, and both averages are the exact ones or one less, as
      long as the exact sums fit 64 bits. */
  lemma HourIsNearlyExact(blocks: seq<seq<Sample>>, last: seq<Sample>)
    requires Fits(Exact(Flatten(blocks) + last)) && Flatten(blocks) + last != []
    ensures var exact := RowOf(Exact(Flatten(blocks) + last));
      var hour := RowOf(SaturatingPlus(HourOf(RowsOf(blocks)), AddAll(NOTHING, last)));
      && hour.count == exact.count == |Flatten(blocks) + last|
      && hour.cpuMax == exact.cpuMax && hour.storageMax == exact.storageMax && hour.rx == exact.rx && hour.tx == exact.tx
      && exact.cpuAverage - 1 <= hour.cpuAverage <= exact.cpuAverage
      && exact.memoryAverage - 1 <= hour.memoryAverage <= exact.memoryAverage
  {
    hide Exact, AddAll, HourOf, RowsOf, Average, SaturatingPlus;
    ExactConcat(Flatten(blocks), last);
    ExactCounts(Flatten(blocks) + last);
    PartsFit(Exact(Flatten(blocks)), Exact(last));
    RowsNearlyExact(blocks);
    AddAllIsExact(last);
    ExactCounts(last);
    ExactIsNearlyExact(Exact(last));
    NearlyExactPlus(HourOf(RowsOf(blocks)), Exact(Flatten(blocks)), Exact(last), Exact(last));
    var exact, hour := Exact(Flatten(blocks) + last), SaturatingPlus(HourOf(RowsOf(blocks)), AddAll(NOTHING, last));
    AverageWithinOne(exact.cpu, hour.cpu, exact.count);
    AverageWithinOne(exact.memory, hour.memory, exact.count);
  }

  lemma ExactIsNearlyExact(t: Totals)
    ensures t.count > 0 || t == NOTHING ==> NearlyExact(t, t)
  {
  }

  // ---- reports that come late ---------------------------------------------------------------

  /** The report of one minute of a block reaches the server. */
  datatype Arrival = Arrival(slot: nat, samples: seq<Sample>)

  /** A block and its five-minute row. */
  datatype Block = Block(slots: map<nat, seq<Sample>>, row: Option<Row>)

  function Slot(slots: map<nat, seq<Sample>>, k: nat): Option<seq<Sample>> {
    if k in slots then Some(slots[k]) else None
  }

  function InSlot(slots: map<nat, seq<Sample>>, k: nat): seq<Sample> { if k in slots then slots[k] else [] }

  function SamplesBelow(slots: map<nat, seq<Sample>>, k: nat): seq<Sample> {
    if k == 0 then [] else SamplesBelow(slots, k - 1) + InSlot(slots, k - 1)
  }

  function SamplesIn(slots: map<nat, seq<Sample>>): seq<Sample> { SamplesBelow(slots, 5) }

  function SlotsBelow(slots: map<nat, seq<Sample>>, k: nat): (stored: seq<Option<seq<Sample>>>)
    ensures |stored| == k
  {
    if k == 0 then [] else SlotsBelow(slots, k - 1) + [Slot(slots, k - 1)]
  }

  /** These are the samples that `AddBlock` sums: the four stored slots, then the closing report. */
  lemma {:induction false} SummedByAddBlock(slots: map<nat, seq<Sample>>, k: nat)
    ensures Present(SlotsBelow(slots, k)) == SamplesBelow(slots, k)
    ensures SamplesBelow(slots, k + 1) == Present(SlotsBelow(slots, k)) + InSlot(slots, k)
  {
    if k > 0 {
      SummedByAddBlock(slots, k - 1);
      assert SlotsBelow(slots, k)[..k - 1] == SlotsBelow(slots, k - 1);
    }
  }

  /** A slot is filled once; only the report that fills the fifth one writes the row. */
  function Arrive(b: Block, a: Arrival): Block {
    if a.slot in b.slots then b
    else
      var slots := b.slots[a.slot := a.samples];
      Block(slots, if a.slot == 4 then Some(RowOf(AddAll(NOTHING, SamplesIn(slots)))) else b.row)
  }

  function ArriveAll(arrivals: seq<Arrival>): Block {
    if arrivals == [] then Block(map[], None)
    else Arrive(ArriveAll(arrivals[..|arrivals| - 1]), arrivals[|arrivals| - 1])
  }

  /** The first report of its slot. */
  predicate FillsSlot(arrivals: seq<Arrival>, j: nat)
    requires j < |arrivals|
  {
    forall k | 0 <= k < j :: arrivals[k].slot != arrivals[j].slot
  }

  /** No slot is filled after the fifth one. */
  predicate NoneLate(arrivals: seq<Arrival>) {
    forall i, j | 0 <= i < j < |arrivals| && arrivals[i].slot == 4 :: !FillsSlot(arrivals, j)
  }

  /** What the block held when its row was written. */
  function Summed(arrivals: seq<Arrival>): map<nat, seq<Sample>> {
    if arrivals == [] then map[]
    else
      var init := arrivals[..|arrivals| - 1];
      if 4 in ArriveAll(init).slots then Summed(init)
      else if arrivals[|arrivals| - 1].slot == 4 then ArriveAll(arrivals).slots
      else map[]
  }

  lemma {:induction false} SlotsAre(arrivals: seq<Arrival>, k: nat)
    ensures k in ArriveAll(arrivals).slots <==> exists a | a in arrivals :: a.slot == k
    decreases |arrivals|
  {
    hide SamplesIn, RowOf, AddAll;
    if arrivals != [] {
      var init, last := arrivals[..|arrivals| - 1], arrivals[|arrivals| - 1];
      SlotsAre(init, k);
      assert arrivals == init + [last];
    }
  }

  lemma {:induction false} RowIsOfSummed(arrivals: seq<Arrival>)
    ensures var b := ArriveAll(arrivals);
      && b.row == (if 4 in b.slots then Some(RowOf(AddAll(NOTHING, SamplesIn(Summed(arrivals))))) else None)
      && (forall k | k in Summed(arrivals) :: k in b.slots && b.slots[k] == Summed(arrivals)[k])
      && (4 in b.slots ==> 4 in Summed(arrivals))
    decreases |arrivals|
  {
    hide SamplesIn, RowOf, AddAll;
    if arrivals != [] { RowIsOfSummed(arrivals[..|arrivals| - 1]); }
  }

  /** One more report is late when it fills a slot after the fifth one. */
  lemma OneMoreArrival(arrivals: seq<Arrival>)
    requires arrivals != []
    ensures var init, last := arrivals[..|arrivals| - 1], arrivals[|arrivals| - 1];
      if 4 in ArriveAll(init).slots then NoneLate(arrivals) <==> NoneLate(init) && last.slot in ArriveAll(init).slots
      else NoneLate(arrivals)
  {
    hide ArriveAll;
    var init, last, n := arrivals[..|arrivals| - 1], arrivals[|arrivals| - 1], |arrivals| - 1;
    SlotsAre(init, 4);
    SlotsAre(init, last.slot);
    FillsSlotBefore(arrivals);
    if 4 in ArriveAll(init).slots {
      var i :| 0 <= i < n && init[i].slot == 4;
      assert arrivals[i].slot == 4;
      if NoneLate(arrivals) {
        assert !FillsSlot(arrivals, n);
      }
    } else {
      forall i | 0 <= i < n ensures arrivals[i].slot != 4 {
        assert init[i] in init;
      }
    }
  }

  lemma FillsSlotBefore(arrivals: seq<Arrival>)
    requires arrivals != []
    ensures var init := arrivals[..|arrivals| - 1];
      && (forall j | 0 <= j < |init| :: FillsSlot(init, j) == FillsSlot(arrivals, j))
      && (FillsSlot(arrivals, |init|) <==> forall a | a in init :: a.slot != arrivals[|init|].slot)
  {
    var init := arrivals[..|arrivals| - 1];
    assert forall k | 0 <= k < |init| :: init[k] == arrivals[k] && init[k] in init;
  }

  lemma {:induction false} SummedAllIff(arrivals: seq<Arrival>)
    requires 4 in ArriveAll(arrivals).slots
    ensures Summed(arrivals).Keys == ArriveAll(arrivals).slots.Keys <==> NoneLate(arrivals)
    decreases |arrivals|
  {
    hide SamplesIn, RowOf, AddAll, NoneLate;
    var init, last := arrivals[..|arrivals| - 1], arrivals[|arrivals| - 1];
    OneMoreArrival(arrivals);
    if 4 in ArriveAll(init).slots {
      RowIsOfSummed(init);
      SummedAllIff(init);
    }
  }

  /** Fewer reports, of at least one sample each, are fewer samples. */
  lemma {:induction false} FewerSamples(part: map<nat, seq<Sample>>, all: map<nat, seq<Sample>>, k: nat)
    requires forall i | i in part :: i in all && part[i] == all[i]
    requires forall i | i in all :: all[i] != []
    ensures |SamplesBelow(part, k)| <= |SamplesBelow(all, k)|
    ensures |SamplesBelow(part, k)| == |SamplesBelow(all, k)| <==> forall i | i in all && i < k :: i in part
  {
    if k > 0 { FewerSamples(part, all, k - 1); }
  }

  lemma {:induction false} SlotsHold(arrivals: seq<Arrival>)
    requires forall a | a in arrivals :: a.slot < 5 && a.samples != []
    ensures forall k | k in ArriveAll(arrivals).slots :: k < 5 && ArriveAll(arrivals).slots[k] != []
    decreases |arrivals|
  {
    hide SamplesIn, RowOf, AddAll;
    if arrivals != [] { SlotsHold(arrivals[..|arrivals| - 1]); }
  }

  /** Every counter is at most the other's. */
  predicate Under(a: Totals, b: Totals) {
    a.count <= b.count && a.cpu <= b.cpu && a.memory <= b.memory && a.rx <= b.rx && a.tx <= b.tx
  }

  lemma UnderPlus(a: Totals, b: Totals, c: Totals, d: Totals)
    requires Under(a, b) && Under(c, d)
    ensures Under(Plus(a, c), Plus(b, d))
  {
  }

  lemma UnderFits(a: Totals, b: Totals)
    requires Under(a, b) && Fits(b)
    ensures Fits(a)
  {
  }

  /** A part of the reports adds up to no more than all of them. */
  lemma {:induction false} PartIsUnder(part: map<nat, seq<Sample>>, all: map<nat, seq<Sample>>, k: nat)
    requires forall i | i in part :: i in all && part[i] == all[i]
    ensures Under(Exact(SamplesBelow(part, k)), Exact(SamplesBelow(all, k)))
  {
    hide Exact, Plus, Under;
    if k == 0 {
      UnderItself(Exact([]));
    } else {
      PartIsUnder(part, all, k - 1);
      ExactConcat(SamplesBelow(part, k - 1), InSlot(part, k - 1));
      ExactConcat(SamplesBelow(all, k - 1), InSlot(all, k - 1));
      if k - 1 in part { UnderItself(Exact(InSlot(all, k - 1))); } else { NothingIsUnder(Exact(InSlot(all, k - 1))); }
      UnderPlus(Exact(SamplesBelow(part, k - 1)), Exact(SamplesBelow(all, k - 1)),
                Exact(InSlot(part, k - 1)), Exact(InSlot(all, k - 1)));
    }
  }

  lemma UnderItself(t: Totals)
    ensures Under(t, t)
  {
  }

  lemma NothingIsUnder(t: Totals)
    ensures Under(Exact([]), t)
  {
  }

  /** The five-minute row exists exactly when the report of the fifth minute came, and it sums the
      samples the block ends up with exactly when no slot was filled after that; otherwise it
      counts too few. */
  lemma RowIsCompleteIff(arrivals: seq<Arrival>)
    requires forall a | a in arrivals :: a.slot < 5 && a.samples != []
    requires Fits(Exact(SamplesIn(ArriveAll(arrivals).slots)))
    ensures var b := ArriveAll(arrivals);
      && (b.row.Some? <==> exists a | a in arrivals :: a.slot == 4)
      && (b.row.Some? ==> (b.row.value == RowOf(Exact(SamplesIn(b.slots))) <==> NoneLate(arrivals)))
      && (b.row.Some? && !NoneLate(arrivals) ==> b.row.value.count < |SamplesIn(b.slots)|)
  {
    hide SamplesBelow, AddAll, Exact, NoneLate, ArriveAll, Average, Under, Fits;
    var b, part := ArriveAll(arrivals), Summed(arrivals);
    SlotsAre(arrivals, 4);
    RowIsOfSummed(arrivals);
    if b.row.Some? {
      SlotsHold(arrivals);
      SummedAllIff(arrivals);
      FewerSamples(part, b.slots, 5);
      assert part.Keys == b.slots.Keys ==> part == b.slots;
      PartIsUnder(part, b.slots, 5);
      UnderFits(Exact(SamplesIn(part)), Exact(SamplesIn(b.slots)));
      AddAllIsExact(SamplesIn(part));
      ExactCounts(SamplesIn(part));
      ExactCounts(SamplesIn(b.slots));
      assert b.row.value == RowOf(Exact(SamplesIn(part)));
    }
  }
}
