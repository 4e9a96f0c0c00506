/** The id generator of common/snowflake.hpp and its latched wrapper common/SnowflakeUtil.hpp. */
module Snowflakes {
  import opened Common

  const TWEPOCH := 1609459200000
  const MAX_WORKER_ID := 31
  const MAX_DATACENTER_ID := 31
  const WORKER_ID_SHIFT: nat := 12
  const DATACENTER_ID_SHIFT: nat := 17
  const TIMESTAMP_LEFT_SHIFT: nat := 22
  const SEQUENCE_SIZE := 4096

  // ---- 64-bit arithmetic ----

  /** Bitwise or on two's-complement integers of any width. */
  function BitOr(a: int, b: int): int
    decreases if a < 0 then -a else a, if b < 0 then -b else b
  {
    if (a == 0 || a == -1) && (b == 0 || b == -1) then (if a == -1 || b == -1 then -1 else 0)
    else 2 * BitOr(a / 2, b / 2) + (if a % 2 == 1 || b % 2 == 1 then 1 else 0)
  }

  /** The low 64 bits, read as a signed number. */
  function Wrap64(x: int): int {
    var low := x % 0x1_0000_0000_0000_0000;
    if low < 0x8000_0000_0000_0000 then low else low - 0x1_0000_0000_0000_0000
  }

  function ShiftLeft64(x: int, k: nat): int {
    Wrap64(x * Pow2(k))
  }

  lemma {:induction false} OrZero(a: int)
    ensures BitOr(a, 0) == a
    decreases if a < 0 then -a else a
  {
    if a != 0 && a != -1 {
      OrZero(a / 2);
    }
  }

  /** Or-ing in bits below the lowest one set is addition. */
  lemma {:induction false} OrIsSum(a: int, b: int, k: nat)
    requires 0 <= b < Pow2(k)
    ensures BitOr(a * Pow2(k), b) == a * Pow2(k) + b
  {
    if k == 0 {
      OrZero(a);
    } else {
      var x := a * Pow2(k - 1);
      assert a * Pow2(k) == 2 * x;
      OrIsSum(a, b / 2, k - 1);
      assert (2 * x) / 2 == x && (2 * x) % 2 == 0;
    }
  }

  lemma Powers()
    ensures Pow2(12) == 0x1000 && Pow2(17) == 0x2_0000 && Pow2(22) == 0x40_0000
  {
    assert Pow2(4) == 16 && Pow2(8) == 256;
    assert Pow2(16) == 0x1_0000 by { assert Pow2(12) == 0x1000; }
    assert Pow2(20) == 0x10_0000;
  }

  // ---- packing ----

  /** The id of one node at `delta` milliseconds after the epoch. */
  function Pack(delta: int, datacenter: int, worker: int, sequence: int): int {
    BitOr(BitOr(BitOr(ShiftLeft64(delta, TIMESTAMP_LEFT_SHIFT), ShiftLeft64(datacenter, DATACENTER_ID_SHIFT)),
                ShiftLeft64(worker, WORKER_ID_SHIFT)),
          sequence)
  }

  predicate FieldsInRange(datacenter: int, worker: int, sequence: int) {
    0 <= datacenter <= MAX_DATACENTER_ID && 0 <= worker <= MAX_WORKER_ID && 0 <= sequence < SEQUENCE_SIZE
  }

  /** What is left of a time difference in the 42 bits above the other fields. */
  function Wrap42(delta: int): int {
    (delta + 0x200_0000_0000) % 0x400_0000_0000 - 0x200_0000_0000
  }

  lemma ShiftKeeps42Bits(delta: int)
    ensures ShiftLeft64(delta, 22) == Wrap42(delta) * 0x40_0000
  {
    Powers();
    var q, r := (delta + 0x200_0000_0000) / 0x400_0000_0000, Wrap42(delta);
    assert delta == q * 0x400_0000_0000 + r;
    assert delta * 0x40_0000 == q * 0x1_0000_0000_0000_0000 + r * 0x40_0000;
    var low := r * 0x40_0000;
    assert -0x8000_0000_0000_0000 <= low < 0x8000_0000_0000_0000;
    if low >= 0 {
      WrapUnique(delta * 0x40_0000, q, low);
    } else {
      WrapUnique(delta * 0x40_0000, q - 1, low + 0x1_0000_0000_0000_0000);
    }
  }

  lemma WrapUnique(x: int, q: int, low: int)
    requires x == q * 0x1_0000_0000_0000_0000 + low && 0 <= low < 0x1_0000_0000_0000_0000
    ensures x % 0x1_0000_0000_0000_0000 == low
  {
  }

  lemma HighFields(delta: int, datacenter: int)
    requires 0 <= datacenter <= MAX_DATACENTER_ID
    ensures BitOr(ShiftLeft64(delta, TIMESTAMP_LEFT_SHIFT), ShiftLeft64(datacenter, DATACENTER_ID_SHIFT))
         == (Wrap42(delta) * 32 + datacenter) * 0x2_0000
  {
    ShiftKeeps42Bits(delta);
    SmallShift(datacenter, 17);
    OrField(Wrap42(delta), datacenter * 0x2_0000, 22, 0x40_0000);
  }

  lemma MiddleField(high: int, worker: int)
    requires 0 <= worker <= MAX_WORKER_ID
    ensures BitOr(high * 0x2_0000, ShiftLeft64(worker, WORKER_ID_SHIFT)) == (high * 32 + worker) * 0x1000
  {
    SmallShift(worker, 12);
    OrField(high, worker * 0x1000, 17, 0x2_0000);
  }

  /** The fields as the digits of one number. */
  function Radix(delta: int, datacenter: int, worker: int, sequence: int): int {
    ((delta * 32 + datacenter) * 32 + worker) * SEQUENCE_SIZE + sequence
  }

  /** The shifted fields or-ed together are a mixed-radix number. */
  lemma PackIsMixedRadix(delta: int, datacenter: int, worker: int, sequence: int)
    requires FieldsInRange(datacenter, worker, sequence)
    ensures Pack(delta, datacenter, worker, sequence) == Radix(Wrap42(delta), datacenter, worker, sequence)
  {
    var high := Wrap42(delta) * 32 + datacenter;
    HighFields(delta, datacenter);
    MiddleField(high, worker);
    OrField(high * 32 + worker, sequence, 12, 0x1000);
  }

  lemma OrField(a: int, b: int, k: nat, unit: int)
    requires (k == 12 && unit == 0x1000) || (k == 17 && unit == 0x2_0000) || (k == 22 && unit == 0x40_0000)
    requires 0 <= b < unit
    ensures BitOr(a * unit, b) == a * unit + b
  {
    Powers();
    OrIsSum(a, b, k);
  }

  lemma SmallShift(x: int, k: nat)
    requires 0 <= x < 32 && (k == 12 || k == 17)
    ensures ShiftLeft64(x, k) == x * (if k == 12 then 0x1000 else 0x2_0000)
  {
    Powers();
  }

  /** What the shifts come to, in plain arithmetic. */
  lemma PackIsSum(delta: int, datacenter: int, worker: int, sequence: int)
    requires -0x200_0000_0000 <= delta < 0x200_0000_0000
    requires 0 <= datacenter < 32 && 0 <= worker < 32 && 0 <= sequence < 4096
    ensures Pack(delta, datacenter, worker, sequence)
         == delta * 4194304 + datacenter * 131072 + worker * 4096 + sequence
  {
    WrapFits(delta);
    PackIsMixedRadix(delta, datacenter, worker, sequence);
    RadixIsSum(delta, datacenter, worker, sequence);
  }

  lemma RadixIsSum(delta: int, datacenter: int, worker: int, sequence: int)
    ensures Radix(delta, datacenter, worker, sequence)
         == delta * 4194304 + datacenter * 131072 + worker * 4096 + sequence
  {
  }

  function SequenceOf(id: int): int { id % SEQUENCE_SIZE }
  function WorkerOf(id: int): int { id / SEQUENCE_SIZE % 32 }
  function DatacenterOf(id: int): int { id / SEQUENCE_SIZE / 32 % 32 }
  function DeltaOf(id: int): int { id / SEQUENCE_SIZE / 32 / 32 }

  lemma SplitDigit(high: int, low: int, base: int)
    requires 0 <= low < base && (base == 32 || base == SEQUENCE_SIZE)
    ensures (high * base + low) / base == high && (high * base + low) % base == low
  {
  }

  /** The three small fields are always recovered; the time is, if and only if it fits in 42 signed bits. */
  lemma FieldsAreRecovered(delta: int, datacenter: int, worker: int, sequence: int)
    requires FieldsInRange(datacenter, worker, sequence)
    ensures var id := Pack(delta, datacenter, worker, sequence);
            && SequenceOf(id) == sequence && WorkerOf(id) == worker && DatacenterOf(id) == datacenter
            && (DeltaOf(id) == delta <==> -0x200_0000_0000 <= delta < 0x200_0000_0000)
  {
    PackIsMixedRadix(delta, datacenter, worker, sequence);
    RadixDigits(Wrap42(delta), datacenter, worker, sequence);
    WrapFits(delta);
  }

  lemma WrapFits(delta: int)
    ensures Wrap42(delta) == delta <==> -0x200_0000_0000 <= delta < 0x200_0000_0000
  {
  }

  lemma RadixDigits(d: int, datacenter: int, worker: int, sequence: int)
    requires FieldsInRange(datacenter, worker, sequence)
    ensures var id := Radix(d, datacenter, worker, sequence);
            SequenceOf(id) == sequence && WorkerOf(id) == worker && DatacenterOf(id) == datacenter && DeltaOf(id) == d
  {
    SplitDigit((d * 32 + datacenter) * 32 + worker, sequence, SEQUENCE_SIZE);
    SplitDigit(d * 32 + datacenter, worker, 32);
    SplitDigit(d, datacenter, 32);
  }

  /** Different nodes never share an id, whatever their clocks and sequences. */
  lemma NodesNeverCollide(delta1: int, datacenter1: int, worker1: int, sequence1: int,
                          delta2: int, datacenter2: int, worker2: int, sequence2: int)
    requires FieldsInRange(datacenter1, worker1, sequence1) && FieldsInRange(datacenter2, worker2, sequence2)
    requires (datacenter1, worker1) != (datacenter2, worker2)
    ensures Pack(delta1, datacenter1, worker1, sequence1) != Pack(delta2, datacenter2, worker2, sequence2)
  {
    FieldsAreRecovered(delta1, datacenter1, worker1, sequence1);
    FieldsAreRecovered(delta2, datacenter2, worker2, sequence2);
  }

  // ---- the clock ----

  /** What the constructor reads: the system clock in milliseconds, and the steady clock in ticks. */
  datatype Timer = Timer(startMillisecond: int, startTick: int)

  const TICKS_PER_MILLISECOND := 1_000_000

  /** duration_cast rounds toward zero. */
  function WholeMilliseconds(ticks: int): int {
    if ticks >= 0 then ticks / TICKS_PER_MILLISECOND else -(-ticks / TICKS_PER_MILLISECOND)
  }

  /** The milliseconds read when the steady clock is at `tick`. */
  function Millsecond(t: Timer, tick: int): int {
    t.startMillisecond + WholeMilliseconds(tick - t.startTick)
  }

  function Readings(t: Timer, ticks: seq<int>): (clock: seq<int>)
    ensures |clock| == |ticks|
  {
    seq(|ticks|, i requires 0 <= i < |ticks| => Millsecond(t, ticks[i]))
  }

  predicate Steady(clock: seq<int>) {
    forall i, j :: 0 <= i < j < |clock| ==> clock[i] <= clock[j]
  }

  lemma MillsecondGrows(t: Timer, a: int, b: int)
    requires a <= b
    ensures Millsecond(t, a) <= Millsecond(t, b)
  {
  }

  lemma ReadingsBehind(t: Timer, ticks: seq<int>, k: nat)
    requires ticks != [] && k < |ticks|
    ensures Readings(t, ticks)[1..] == Readings(t, ticks[1..])
    ensures k < |ticks| - 1 ==> Readings(t, ticks)[1..][k] == Millsecond(t, ticks[1..][k])
  {
  }

  /** A reading is the start plus the whole milliseconds that have passed since. */
  lemma MillsecondCounts(t: Timer, tick: int)
    ensures var passed := Millsecond(t, tick) - t.startMillisecond;
            if tick >= t.startTick
            then passed * 1_000_000 <= tick - t.startTick < (passed + 1) * 1_000_000
            else -passed * 1_000_000 <= t.startTick - tick < (-passed + 1) * 1_000_000
  {
  }

  /** The steady clock never decreases, so the readings do not either, whatever the system clock does. */
  lemma ReadingsAreSteady(t: Timer, ticks: seq<int>)
    requires Steady(ticks)
    ensures Steady(Readings(t, ticks))
  {
    forall i, j | 0 <= i < j < |ticks| ensures Readings(t, ticks)[i] <= Readings(t, ticks)[j] {
      MillsecondGrows(t, ticks[i], ticks[j]);
    }
  }

  // ---- generation ----

  datatype Gen = Gen(last: int, worker: int, datacenter: int, sequence: int)

  const FRESH := Gen(-1, 0, 0, 0)

  function Init(g: Gen, worker: int, datacenter: int): (Gen, bool) {
    if worker > MAX_WORKER_ID || worker < 0 || datacenter > MAX_DATACENTER_ID || datacenter < 0 then (g, false)
    else (g.(worker := worker, datacenter := datacenter), true)
  }

  /** The index of the first clock reading after `last`; the length when there is none yet. */
  function WaitNextMillis(last: int, clock: seq<int>): (k: nat)
    ensures k <= |clock| && (forall i :: 0 <= i < k ==> clock[i] <= last)
    ensures k < |clock| ==> clock[k] > last
  {
    if clock == [] || clock[0] > last then 0 else 1 + WaitNextMillis(last, clock[1..])
  }

  /** One call: the generator after it, and how many clock readings it took; all of them if it still spins. */
  datatype Call = Issued(gen: Gen, used: nat) | Spinning(gen: Gen)

  function CallNext(g: Gen, clock: seq<int>): (c: Call)
    requires clock != []
    ensures c.Issued? ==> 0 < c.used <= |clock|
  {
    var now := clock[0];
    if g.last != now then Issued(g.(last := now, sequence := 0), 1)
    else
      var s := (g.sequence + 1) % SEQUENCE_SIZE;
      if s != 0 then Issued(g.(sequence := s), 1)
      else
        var k := WaitNextMillis(g.last, clock[1..]);
        if k == |clock| - 1 then Spinning(g.(sequence := 0))
        else Issued(g.(last := clock[1..][k], sequence := 0), k + 2)
  }

  /** A call spins on if and only if its millisecond is used up and no later one has been read yet. */
  lemma CallIsIssued(g: Gen, clock: seq<int>)
    requires clock != [] && 0 <= g.sequence < 4096
    ensures CallNext(g, clock).Spinning? <==>
              clock[0] == g.last && g.sequence == 4095 && forall i :: 0 <= i < |clock| ==> clock[i] <= g.last
  {
    var k := WaitNextMillis(g.last, clock[1..]);
    assert forall i :: 1 <= i < |clock| ==> clock[i] == clock[1..][i - 1];
    if clock[0] == g.last && g.sequence == 4095 && k == |clock| - 1 {
      assert forall i :: 0 <= i < k ==> clock[1..][i] <= g.last;
    }
  }

  /** An issued call carries the reading it stopped at, and the first free number of that millisecond. */
  lemma IssuedCallIs(g: Gen, clock: seq<int>)
    requires clock != [] && 0 <= g.sequence < 4096 && CallNext(g, clock).Issued?
    ensures var c := CallNext(g, clock);
            && c.gen.last == clock[c.used - 1] && c.gen.worker == g.worker && c.gen.datacenter == g.datacenter
            && (if clock[0] != g.last then c.used == 1 && c.gen.sequence == 0
                else if g.sequence < 4095 then c.used == 1 && c.gen.sequence == g.sequence + 1
                else c.gen.sequence == 0 && clock[c.used - 1] > g.last &&
                     forall i :: 0 <= i < c.used - 1 ==> clock[i] <= g.last)
  {
    var k := WaitNextMillis(g.last, clock[1..]);
    assert forall i :: 1 <= i < |clock| ==> clock[i] == clock[1..][i - 1];
    if clock[0] == g.last && g.sequence == 4095 {
      assert forall i :: 0 <= i < k ==> clock[1..][i] <= g.last;
    }
  }

  function IdOf(g: Gen): int {
    Pack(g.last - TWEPOCH, g.datacenter, g.worker, g.sequence)
  }

  /** The generator states behind the ids of repeated calls, until the readings run out. */
  function Calls(g: Gen, clock: seq<int>): seq<Gen>
    decreases |clock|
  {
    if clock == [] then []
    else
      match CallNext(g, clock)
      case Spinning(_) => []
      case Issued(h, used) => [h] + Calls(h, clock[used..])
  }

  /** With a fresh millisecond at every reading each reading yields an id. */
  lemma {:induction false} EveryMillisecondYields(g: Gen, clock: seq<int>)
    requires 0 <= g.sequence < 4096 && (clock != [] ==> clock[0] != g.last)
    requires forall i :: 0 <= i < |clock| - 1 ==> clock[i] != clock[i + 1]
    ensures |Calls(g, clock)| == |clock|
    ensures forall i :: 0 <= i < |clock| ==> Calls(g, clock)[i].last == clock[i] && Calls(g, clock)[i].sequence == 0
    decreases |clock|
  {
    if clock != [] {
      IssuedCallIs(g, clock);
      EveryMillisecondYields(CallNext(g, clock).gen, clock[1..]);
    }
  }

  /** `b` comes `d` calls after `a`: in a later millisecond, or in the same one with the sequence `d` further on. */
  predicate Follows(a: Gen, b: Gen, d: int) {
    && b.worker == a.worker && b.datacenter == a.datacenter
    && 0 <= b.sequence < SEQUENCE_SIZE
    && (a.last < b.last || (a.last == b.last && b.sequence == a.sequence + d))
  }

  lemma CallFollows(g: Gen, clock: seq<int>)
    requires clock != [] && Steady(clock) && g.last <= clock[0] && 0 <= g.sequence < SEQUENCE_SIZE
    ensures match CallNext(g, clock)
            case Spinning(_) => true
            case Issued(h, used) =>
              Follows(g, h, 1) && h.last in clock && forall i :: used <= i < |clock| ==> h.last <= clock[i]
  {
  }

  predicate AllFollow(g: Gen, c: seq<Gen>) {
    forall i :: 0 <= i < |c| ==> Follows(g, c[i], i + 1)
  }

  predicate Chained(c: seq<Gen>) {
    forall i, j :: 0 <= i < j < |c| ==> Follows(c[i], c[j], j - i)
  }

  predicate ReadFrom(c: seq<Gen>, clock: seq<int>) {
    forall i :: 0 <= i < |c| ==> c[i].last in clock
  }

  lemma ChainFrom(h: Gen, later: seq<Gen>)
    requires AllFollow(h, later) && Chained(later)
    ensures Chained([h] + later)
  {
    var c := [h] + later;
    forall i, j | 0 <= i < j < |c| ensures Follows(c[i], c[j], j - i) {
      var k, l := i - 1, j - 1;
      if i == 0 {
        assert Follows(h, later[l], l + 1);
      } else {
        assert Follows(later[k], later[l], l - k);
      }
    }
  }

  lemma FollowsPrepend(g: Gen, h: Gen, later: seq<Gen>)
    requires Follows(g, h, 1) && AllFollow(h, later) && Chained(later)
    ensures AllFollow(g, [h] + later) && Chained([h] + later)
  {
    var c := [h] + later;
    forall i | 0 <= i < |c| ensures Follows(g, c[i], i + 1) {
      if i > 0 {
        var k := i - 1;
        assert Follows(h, later[k], k + 1);
      }
    }
    ChainFrom(h, later);
  }

  lemma {:induction false} CallsFollow(g: Gen, clock: seq<int>)
    requires Steady(clock) && (clock != [] ==> g.last <= clock[0]) && 0 <= g.sequence < SEQUENCE_SIZE
    ensures AllFollow(g, Calls(g, clock)) && Chained(Calls(g, clock)) && ReadFrom(Calls(g, clock), clock)
    decreases |clock|
  {
    if clock != [] && CallNext(g, clock).Issued? {
      CallFollows(g, clock);
      var h, rest := CallNext(g, clock).gen, clock[CallNext(g, clock).used..];
      CallsFollow(h, rest);
      FollowsPrepend(g, h, Calls(h, rest));
      assert ReadFrom(Calls(h, rest), clock);
    }
  }

  predicate InEpoch(millis: int) {
    -0x200_0000_0000 <= millis - TWEPOCH < 0x200_0000_0000
  }

  predicate WithinEpoch(clock: seq<int>) {
    forall i :: 0 <= i < |clock| ==> InEpoch(clock[i])
  }

  /** The first call leaves the generator at a reading that no later one falls below. */
  lemma FirstCall(g: Gen, clock: seq<int>)
    requires clock != [] && Steady(clock) && 0 <= g.sequence < SEQUENCE_SIZE
    ensures match CallNext(g, clock)
            case Spinning(_) => true
            case Issued(h, used) =>
              && h.worker == g.worker && h.datacenter == g.datacenter && 0 <= h.sequence < SEQUENCE_SIZE
              && h.last in clock && forall i :: used <= i < |clock| ==> h.last <= clock[i]
  {
  }

  lemma {:induction false} CallsAreChained(g: Gen, clock: seq<int>)
    requires Steady(clock) && 0 <= g.sequence < SEQUENCE_SIZE
    ensures Chained(Calls(g, clock)) && ReadFrom(Calls(g, clock), clock)
    ensures forall i :: 0 <= i < |Calls(g, clock)| ==> SameNode(g, Calls(g, clock)[i])
  {
    if clock != [] && CallNext(g, clock).Issued? {
      FirstCall(g, clock);
      var h, rest := CallNext(g, clock).gen, clock[CallNext(g, clock).used..];
      var later := Calls(h, rest);
      CallsFollow(h, rest);
      ChainFrom(h, later);
      assert ReadFrom(later, clock);
      assert forall i :: 0 <= i < |later| ==> Follows(h, later[i], i + 1);
    }
  }

  lemma {:induction false} CallsKeepNode(g: Gen, clock: seq<int>)
    requires 0 <= g.sequence < 4096
    ensures forall i :: 0 <= i < |Calls(g, clock)| ==> SameNode(g, Calls(g, clock)[i])
    decreases |clock|
  {
    if clock != [] && CallNext(g, clock).Issued? {
      var c := CallNext(g, clock);
      IssuedCallIs(g, clock);
      CallsKeepNode(c.gen, clock[c.used..]);
    }
  }

  /**
   * Two generators that were initialised with different pairs of ids never issue the same id, over any two
   * sequences of calls, whatever their clocks read.
   */
  lemma InitialisedNodesNeverCollide(g1: Gen, worker1: int, datacenter1: int, clock1: seq<int>,
                                     g2: Gen, worker2: int, datacenter2: int, clock2: seq<int>)
    requires 0 <= g1.sequence < 4096 && 0 <= g2.sequence < 4096
    requires 0 <= worker1 <= 31 && 0 <= datacenter1 <= 31 && 0 <= worker2 <= 31 && 0 <= datacenter2 <= 31
    requires (worker1, datacenter1) != (worker2, datacenter2)
    ensures Init(g1, worker1, datacenter1).1 && Init(g2, worker2, datacenter2).1
    ensures var c1 := Calls(Init(g1, worker1, datacenter1).0, clock1);
            var c2 := Calls(Init(g2, worker2, datacenter2).0, clock2);
            forall i, j :: 0 <= i < |c1| && 0 <= j < |c2| ==> IdOf(c1[i]) != IdOf(c2[j])
  {
    var h1, h2 := Init(g1, worker1, datacenter1).0, Init(g2, worker2, datacenter2).0;
    var c1, c2 := Calls(h1, clock1), Calls(h2, clock2);
    CallsKeepNode(h1, clock1);
    CallsKeepNode(h2, clock2);
    forall i, j | 0 <= i < |c1| && 0 <= j < |c2| ensures IdOf(c1[i]) != IdOf(c2[j]) {
      assert SameNode(h1, c1[i]) && SameNode(h2, c2[j]);
      NodesNeverCollide(c1[i].last - TWEPOCH, c1[i].datacenter, c1[i].worker, c1[i].sequence,
                        c2[j].last - TWEPOCH, c2[j].datacenter, c2[j].worker, c2[j].sequence);
    }
  }

  predicate SameNode(g: Gen, h: Gen) {
    h.worker == g.worker && h.datacenter == g.datacenter && 0 <= h.sequence < SEQUENCE_SIZE
  }

  /** Over any number of calls the ids strictly increase, and no millisecond yields more than 4096. */
  lemma IdsIncrease(t: Timer, g: Gen, ticks: seq<int>)
    requires forall i, j :: 0 <= i < j < |ticks| ==> ticks[i] <= ticks[j]
    requires forall i :: 0 <= i < |ticks| ==>
               -0x200_0000_0000 <= Millsecond(t, ticks[i]) - 1609459200000 < 0x200_0000_0000
    requires 0 <= g.datacenter < 32 && 0 <= g.worker < 32 && 0 <= g.sequence < 4096
    ensures var c := Calls(g, Readings(t, ticks));
            && (forall i, j :: 0 <= i < j < |c| ==> IdOf(c[i]) < IdOf(c[j]))
            && (forall i, j :: 0 <= i < j < |c| && c[i].last == c[j].last ==> j - i < SEQUENCE_SIZE)
  {
    var clock := Readings(t, ticks);
    ReadingsAreSteady(t, ticks);
    CallsAreChained(g, clock);
    var c := Calls(g, clock);
    forall i, j | 0 <= i < j < |c| ensures IdOf(c[i]) < IdOf(c[j]) {
      assert Follows(c[i], c[j], j - i) && SameNode(g, c[i]);
      IdsOrdered(c[i], c[j], j - i);
    }
    forall i, j | 0 <= i < j < |c| && c[i].last == c[j].last ensures j - i < SEQUENCE_SIZE {
      assert Follows(c[i], c[j], j - i) && SameNode(g, c[i]);
    }
  }

  lemma RadixOrdered(x: int, y: int, datacenter: int, worker: int, s: int, r: int)
    requires FieldsInRange(datacenter, worker, s) && FieldsInRange(datacenter, worker, r)
    requires x < y || (x == y && s < r)
    ensures Radix(x, datacenter, worker, s) < Radix(y, datacenter, worker, r)
  {
  }

  lemma IdIsRadix(g: Gen)
    requires InEpoch(g.last) && FieldsInRange(g.datacenter, g.worker, g.sequence)
    ensures IdOf(g) == Radix(g.last - TWEPOCH, g.datacenter, g.worker, g.sequence)
  {
    assert Wrap42(g.last - TWEPOCH) == g.last - TWEPOCH;
    PackIsMixedRadix(g.last - TWEPOCH, g.datacenter, g.worker, g.sequence);
  }

  /** The id in plain arithmetic: milliseconds since the start of 2021, data center, worker, sequence. */
  lemma IdIsSum(g: Gen)
    requires -0x200_0000_0000 <= g.last - 1609459200000 < 0x200_0000_0000
    requires 0 <= g.datacenter < 32 && 0 <= g.worker < 32 && 0 <= g.sequence < 4096
    ensures IdOf(g) == (g.last - 1609459200000) * 4194304 + g.datacenter * 131072 + g.worker * 4096 + g.sequence
  {
    PackIsSum(g.last - TWEPOCH, g.datacenter, g.worker, g.sequence);
  }

  lemma IdsOrdered(a: Gen, b: Gen, d: int)
    requires Follows(a, b, d) && d > 0 && InEpoch(a.last) && InEpoch(b.last)
    requires FieldsInRange(a.datacenter, a.worker, a.sequence)
    ensures IdOf(a) < IdOf(b)
  {
    IdIsRadix(a);
    IdIsRadix(b);
    RadixOrdered(a.last - TWEPOCH, b.last - TWEPOCH, a.datacenter, a.worker, a.sequence, b.sequence);
  }

  // ---- the classes ----

  class Snowflake {
    const timer: Timer
    var lastTimestamp: int
    var workerId: int
    var datacenterId: int
    var sequence: int

    ghost function View(): Gen
      reads this
    {
      Gen(lastTimestamp, workerId, datacenterId, sequence)
    }

    constructor (timer: Timer)
      ensures View() == FRESH && this.timer == timer
    {
      this.timer := timer;
      lastTimestamp, workerId, datacenterId, sequence := -1, 0, 0, 0;
    }

    method Initialize(worker: int, datacenter: int) returns (ok: bool)
      modifies this`workerId, this`datacenterId
      ensures ok <==> 0 <= worker <= 31 && 0 <= datacenter <= 31
      ensures if ok then workerId == worker && datacenterId == datacenter
              else workerId == old(workerId) && datacenterId == old(datacenterId)
      ensures (View(), ok) == Init(old(View()), worker, datacenter)
    {
      if worker > MAX_WORKER_ID || worker < 0 {
        return false;
      }
      if datacenter > MAX_DATACENTER_ID || datacenter < 0 {
        return false;
      }
      workerId := worker;
      datacenterId := datacenter;
      return true;
    }

    /** wait_next_millis: reads the clock until it has passed `last`. */
    method SpinUntilAfter(last: int, ticks: seq<int>) returns (k: nat)
      ensures k == WaitNextMillis(last, Readings(timer, ticks))
    {
      ghost var clock := Readings(timer, ticks);
      k := 0;
      assert clock[0..] == clock;
      while k < |ticks| && Millsecond(timer, ticks[k]) <= last
        invariant k <= |ticks| && WaitNextMillis(last, clock) == k + WaitNextMillis(last, clock[k..])
      {
        assert clock[k..][1..] == clock[k + 1..];
        k := k + 1;
      }
    }

    /** The first reading behind the first one that is past the last timestamp, and how many readings that takes. */
    method WaitNextMillisecond(ticks: seq<int>) returns (waited: Option<(int, nat)>)
      requires ticks != []
      ensures var clock := Readings(timer, ticks)[1..];
              var k := WaitNextMillis(lastTimestamp, clock);
              waited == if k == |clock| then None else Some((clock[k], k + 2))
    {
      var k := SpinUntilAfter(lastTimestamp, ticks[1..]);
      ReadingsBehind(timer, ticks, if k < |ticks| then k else 0);
      if k == |ticks| - 1 {
        return None;
      }
      return Some((Millsecond(timer, ticks[1..][k]), k + 2));
    }

    /** nextid up to the new timestamp and sequence; not `issued` while the call still spins. */
    method Advance(ticks: seq<int>) returns (issued: bool, used: nat)
      requires ticks != []
      modifies this`lastTimestamp, this`sequence
      ensures var c := CallNext(old(View()), Readings(timer, ticks));
              View() == c.gen && issued == c.Issued? && (issued ==> used == c.used)
    {
      var timestamp := Millsecond(timer, ticks[0]);
      used := 1;
      if lastTimestamp == timestamp {
        sequence := (sequence + 1) % SEQUENCE_SIZE;
        if sequence == 0 {
          var waited := WaitNextMillisecond(ticks);
          if waited.None? {
            return false, used;
          }
          timestamp, used := waited.value.0, waited.value.1;
        }
      } else {
        sequence := 0;
      }
      lastTimestamp := timestamp;
      return true, used;
    }

    /** `ticks` lists what successive readings of the steady clock give; the id is missing while the call spins. */
    method Next(ticks: seq<int>) returns (id: Option<int>, used: nat)
      requires ticks != []
      modifies this`lastTimestamp, this`sequence
      ensures var c := CallNext(old(View()), Readings(timer, ticks));
              && View() == c.gen
              && id == (if c.Issued? then Some(IdOf(c.gen)) else None)
              && (c.Issued? ==> used == c.used)
      ensures id.Some? && 0 <= datacenterId < 32 && 0 <= workerId < 32 && 0 <= sequence < 4096 &&
              -0x200_0000_0000 <= lastTimestamp - 1609459200000 < 0x200_0000_0000 ==>
                id.value == (lastTimestamp - 1609459200000) * 4194304 + datacenterId * 131072 + workerId * 4096 +
                            sequence
    {
      var issued;
      issued, used := Advance(ticks);
      id := if issued then Some(Pack(lastTimestamp - TWEPOCH, datacenterId, workerId, sequence)) else None;
      if FieldsInRange(datacenterId, workerId, sequence) && InEpoch(lastTimestamp) {
        IdIsSum(View());
      }
    }
  }

  /** SnowflakeUtil: the first successful init decides, later ones change nothing. */
  datatype Util = Util(initialized: bool, gen: Gen)

  function UtilInit(u: Util, worker: int, datacenter: int): (Util, bool) {
    if u.initialized then (u, true)
    else
      var (g, ok) := Init(u.gen, worker, datacenter);
      (if ok then Util(true, g) else u, ok)
  }

  datatype UtilCall = CallInit(worker: int, datacenter: int) | CallNextId(clock: seq<int>)

  function UtilStep(u: Util, call: UtilCall): Util {
    match call
    case CallInit(w, d) => UtilInit(u, w, d).0
    case CallNextId(clock) => if clock == [] then u else u.(gen := CallNext(u.gen, clock).gen)
  }

  function UtilRun(u: Util, calls: seq<UtilCall>): Util
    decreases |calls|
  {
    if calls == [] then u else UtilRun(UtilStep(u, calls[0]), calls[1..])
  }

  /** The first init with both ids in range decides, whatever inits and calls come before and after it. */
  lemma FirstInitDecides(before: seq<UtilCall>, worker: int, datacenter: int, after: seq<UtilCall>)
    requires 0 <= worker <= 31 && 0 <= datacenter <= 31
    requires forall i :: 0 <= i < |before| && before[i].CallInit? ==>
               !(0 <= before[i].worker <= 31 && 0 <= before[i].datacenter <= 31)
    ensures var t := UtilRun(Util(false, FRESH), before + [CallInit(worker, datacenter)] + after);
            t.initialized && t.gen.worker == worker && t.gen.datacenter == datacenter
  {
    var u := Util(false, FRESH);
    var all := [CallInit(worker, datacenter)] + after;
    assert before + [CallInit(worker, datacenter)] + after == before + all;
    UtilRunAppends(u, before, all);
    NotYetInitialized(u, before);
    LatchHolds(UtilInit(UtilRun(u, before), worker, datacenter).0, after);
    assert all[1..] == after;
  }

  lemma {:induction false} UtilRunAppends(u: Util, before: seq<UtilCall>, after: seq<UtilCall>)
    ensures UtilRun(u, before + after) == UtilRun(UtilRun(u, before), after)
    decreases |before|
  {
    if before == [] {
      assert before + after == after;
    } else {
      assert (before + after)[1..] == before[1..] + after;
      UtilRunAppends(UtilStep(u, before[0]), before[1..], after);
    }
  }

  lemma {:induction false} NotYetInitialized(u: Util, calls: seq<UtilCall>)
    requires !u.initialized
    requires forall i :: 0 <= i < |calls| && calls[i].CallInit? ==>
               !(0 <= calls[i].worker <= 31 && 0 <= calls[i].datacenter <= 31)
    ensures !UtilRun(u, calls).initialized
    decreases |calls|
  {
    if calls != [] {
      NotYetInitialized(UtilStep(u, calls[0]), calls[1..]);
    }
  }

  /** After one successful init the node's identity is fixed and in range, whatever is called. */
  lemma {:induction false} LatchHolds(u: Util, calls: seq<UtilCall>)
    requires u.initialized
    ensures var t := UtilRun(u, calls);
            t.initialized && t.gen.worker == u.gen.worker && t.gen.datacenter == u.gen.datacenter
    decreases |calls|
  {
    if calls != [] {
      LatchHolds(UtilStep(u, calls[0]), calls[1..]);
    }
  }

  class SnowflakeUtil {
    var initialized: bool
    const sf: Snowflake

    constructor (timer: Timer)
      ensures !initialized && fresh(sf) && sf.View() == FRESH && sf.timer == timer
    {
      initialized := false;
      sf := new Snowflake(timer);
    }

    ghost function View(): Util
      reads this, sf
    {
      Util(initialized, sf.View())
    }

    method Initialize(worker: int, datacenter: int) returns (ok: bool)
      modifies this, sf`workerId, sf`datacenterId
      ensures ok <==> old(initialized) || (0 <= worker <= 31 && 0 <= datacenter <= 31)
      ensures initialized == ok
      ensures if ok && !old(initialized) then sf.workerId == worker && sf.datacenterId == datacenter
              else sf.workerId == old(sf.workerId) && sf.datacenterId == old(sf.datacenterId)
      ensures (View(), ok) == UtilInit(old(View()), worker, datacenter)
    {
      if initialized {
        return true;
      }
      ok := sf.Initialize(worker, datacenter);
      if !ok {
        return false;
      }
      initialized := true;
      return true;
    }

    method NextId(ticks: seq<int>) returns (id: Option<int>, used: nat)
      requires ticks != []
      modifies sf`lastTimestamp, sf`sequence
      ensures var c := CallNext(old(View()).gen, Readings(sf.timer, ticks));
              && View() == Util(initialized, c.gen)
              && id == (if c.Issued? then Some(IdOf(c.gen)) else None)
              && (c.Issued? ==> used == c.used)
    {
      id, used := sf.Next(ticks);
    }
  }
}
