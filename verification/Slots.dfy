/**
 Block slots: which witness is due when, and how the chain's clock advances over filled and missed slots.
 */
module Slots {
  import opened ChainTypes

  const WINDOW: nat := 128

  /** The chain's clock; before the first block `time` is the genesis time. */
  datatype Clock = Clock(head: nat, time: nat, aslot: nat)

  /** The start of a slot, counted from the head block. */
  function SlotTime(c: Clock, interval: nat, slot: nat): nat
    requires interval > 0
  {
    if slot == 0 then 0
    else if c.head == 0 then c.time + slot * interval
    else c.time / interval * interval + slot * interval
  }

  /** The slot that a point in time falls into; zero if it comes before the first slot. */
  function SlotAt(c: Clock, interval: nat, when: nat): nat
    requires interval > 0
  {
    var first := SlotTime(c, interval, 1);
    if when < first then 0 else (when - first) / interval + 1
  }

  lemma Divided(n: nat, d: nat)
    requires d > 0
    ensures n / d * d <= n < (n / d + 1) * d
  {}

  lemma QuotientIs(n: nat, q: nat, d: nat)
    requires d > 0 && q * d <= n < q * d + d
    ensures n / d == q
  {
    Divided(n, d);
    if n / d < q {
      Scaled(n / d + 1, q, d);
    } else if n / d > q {
      Scaled(q + 1, n / d, d);
    }
  }

  lemma Distributes(a: nat, b: nat, d: nat)
    ensures (a + b) * d == a * d + b * d
  {}

  lemma DividedTimes(n: nat, k: nat, d: nat)
    requires d > 0
    ensures (n + k * d) / d == n / d + k
  {
    ShiftedQuotient(n, n / d, k, d);
  }

  lemma ShiftedQuotient(n: nat, q: nat, k: nat, d: nat)
    requires d > 0 && n / d == q
    ensures (n + k * d) / d == q + k
  {
    Parts(n, d);
    Distributes(q, k, d);
    QuotientIs(n + k * d, q + k, d);
  }

  /** The slot's start and the next slot's start enclose the point in time. */
  lemma SlotBrackets(c: Clock, interval: nat, when: nat)
    requires interval > 0
    ensures var n := SlotAt(c, interval, when);
      if n == 0 then when < SlotTime(c, interval, 1)
      else SlotTime(c, interval, n) <= when < SlotTime(c, interval, n + 1)
  {
    var first := SlotTime(c, interval, 1);
    if when >= first {
      Divided(when - first, interval);
    }
  }

  /** Every later slot is the slot of its own start. */
  lemma SlotRoundTrip(c: Clock, interval: nat, slot: nat)
    requires interval > 0 && slot > 0
    ensures SlotAt(c, interval, SlotTime(c, interval, slot)) == slot
  {
    var first := SlotTime(c, interval, 1);
    assert SlotTime(c, interval, slot) == first + (slot - 1) * interval;
    DividedTimes(0, slot - 1, interval);
  }

  /** After the first block, a slot is a difference of whole intervals. */
  lemma SlotIsDifference(c: Clock, interval: nat, when: nat)
    requires interval > 0 && c.head > 0
    ensures SlotAt(c, interval, when)
      == if when / interval > c.time / interval then when / interval - c.time / interval else 0
  {
    var q := c.time / interval;
    var first := SlotTime(c, interval, 1);
    assert first == (q + 1) * interval;
    if when >= first {
      DividedTimes(when - first, q + 1, interval);
    } else {
      Divided(when, interval);
      if when / interval > q {
        Scaled(q + 1, when / interval, interval);
      }
    }
  }

  lemma Scaled(a: nat, b: nat, d: nat)
    requires a <= b
    ensures a * d <= b * d
  {}

  // ----- applying a block -----

  /** The clock after a block with this timestamp; a genesis time of zero counts no missed slots. */
  function Tick(c: Clock, interval: nat, timestamp: nat): Clock
    requires interval > 0
  {
    var missed := if c.time != 0 && SlotAt(c, interval, timestamp) > 0 then SlotAt(c, interval, timestamp) - 1 else 0;
    Clock(c.head + 1, timestamp, c.aslot + missed + 1)
  }

  /** The block header check: a later time, in a slot of its own. */
  predicate InTurn(c: Clock, interval: nat, timestamp: nat)
    requires interval > 0
  {
    c.time < timestamp && SlotAt(c, interval, timestamp) > 0
  }

  predicate AllInTurn(c: Clock, interval: nat, timestamps: seq<nat>)
    requires interval > 0
    decreases |timestamps|
  {
    timestamps == []
    || (InTurn(c, interval, timestamps[0]) && AllInTurn(Tick(c, interval, timestamps[0]), interval, timestamps[1..]))
  }

  function TickAll(c: Clock, interval: nat, timestamps: seq<nat>): Clock
    requires interval > 0
    decreases |timestamps|
  {
    if timestamps == [] then c else TickAll(Tick(c, interval, timestamps[0]), interval, timestamps[1..])
  }

  /** The witness due in a slot. */
  function Scheduled(c: Clock, shuffled: seq<Name>, slot: nat): Name
    requires shuffled != []
  {
    shuffled[(c.aslot + slot) % |shuffled|]
  }

  /** The witness at position i is due in a slot exactly if the absolute slot leaves i as remainder. */
  lemma ScheduledIs(c: Clock, shuffled: seq<Name>, slot: nat, i: nat, q: nat)
    requires i < |shuffled| && c.aslot + slot == q * |shuffled| + i
    ensures Scheduled(c, shuffled, slot) == shuffled[i]
  {
    QuotientIs(c.aslot + slot, q, |shuffled|);
    Parts(c.aslot + slot, |shuffled|);
  }

  /** From the first block on, the absolute slot advances in step with whole intervals of head time. */
  lemma {:induction false} SlotsInStep(c: Clock, interval: nat, timestamps: seq<nat>)
    requires interval > 0 && c.head > 0 && c.time > 0 && AllInTurn(c, interval, timestamps)
    ensures var d := TickAll(c, interval, timestamps);
      && d.aslot - d.time / interval == c.aslot - c.time / interval
      && d.head == c.head + |timestamps| && c.time <= d.time
    decreases |timestamps|
  {
    if timestamps != [] {
      SlotIsDifference(c, interval, timestamps[0]);
      SlotsInStep(Tick(c, interval, timestamps[0]), interval, timestamps[1..]);
    }
  }

  /** However many blocks are applied and slots missed, the witness of a later slot stays the same. */
  lemma ScheduleIsStable(c: Clock, interval: nat, timestamps: seq<nat>, shuffled: seq<Name>, when: nat)
    requires interval > 0 && c.head > 0 && c.time > 0 && AllInTurn(c, interval, timestamps) && shuffled != []
    requires SlotAt(TickAll(c, interval, timestamps), interval, when) > 0
    ensures var d := TickAll(c, interval, timestamps);
      Scheduled(d, shuffled, SlotAt(d, interval, when)) == Scheduled(c, shuffled, SlotAt(c, interval, when))
  {
    var d := TickAll(c, interval, timestamps);
    SlotsInStep(c, interval, timestamps);
    SlotIsDifference(d, interval, when);
    SlotIsDifference(c, interval, when);
    Monotone(c.time, d.time, interval);
  }

  lemma Monotone(a: nat, b: nat, d: nat)
    requires a <= b && d > 0
    ensures a / d <= b / d
  {
    Divided(a, d);
    Divided(b, d);
    if b / d + 1 <= a / d {
      Scaled(b / d + 1, a / d, d);
    }
  }

  /** Slots before the first block are counted from the genesis time. */
  lemma FirstSlot(c: Clock, interval: nat, when: nat)
    requires interval > 0 && c.head == 0 && when >= c.time + interval
    ensures SlotAt(c, interval, when) + c.time / interval
         == when / interval - if when % interval < c.time % interval then 1 else 0
  {
    DividedTimes(when - c.time - interval, 1, interval);
    assert SlotAt(c, interval, when) == (when - c.time) / interval;
    SumOfQuotients(c.time, when - c.time, interval);
  }

  lemma SumOfQuotients(a: nat, b: nat, d: nat)
    requires d > 0
    ensures a / d + b / d == (a + b) / d - if (a + b) % d < a % d then 1 else 0
  {
    var r := a % d + b % d;
    Parts(a, d);
    Parts(b, d);
    Distributes(a / d, b / d, d);
    assert a + b == r + (a / d + b / d) * d;
    DividedTimes(r, a / d + b / d, d);
    Parts(a + b, d);
    Distributes(a / d + b / d, r / d, d);
    assert (a + b) % d == r - r / d * d;
    if r < d {
      QuotientIs(r, 0, d);
    } else {
      QuotientIs(r, 1, d);
    }
  }

  lemma Parts(a: nat, d: nat)
    requires d > 0
    ensures a == a / d * d + a % d && 0 <= a % d < d
  {}

  /**
   The first block keeps the absolute slot of a later time if and only if the block's and that time's offsets
   in their intervals lie on the same side of the genesis time's offset; so always, if genesis is on a
   whole interval.
   */
  lemma FirstBlockShiftsIff(c: Clock, interval: nat, timestamp: nat, when: nat)
    requires interval > 0 && c.head == 0 && c.time > 0 && InTurn(c, interval, timestamp)
    requires SlotAt(Tick(c, interval, timestamp), interval, when) > 0
    ensures var d, g := Tick(c, interval, timestamp), c.time % interval;
      d.aslot + SlotAt(d, interval, when) == c.aslot + SlotAt(c, interval, when)
      <==> (timestamp % interval < g <==> when % interval < g)
  {
    hide SlotAt;
    var d := Tick(c, interval, timestamp);
    InTurnIsLate(c, interval, timestamp);
    SlotIsDifference(d, interval, when);
    FirstSlot(c, interval, timestamp);
    LaterInterval(timestamp, when, interval);
    FirstSlot(c, interval, when);
  }

  lemma InTurnIsLate(c: Clock, interval: nat, timestamp: nat)
    requires interval > 0 && c.head == 0 && SlotAt(c, interval, timestamp) > 0
    ensures timestamp >= c.time + interval
  {}

  lemma LaterInterval(a: nat, b: nat, d: nat)
    requires d > 0 && a / d < b / d
    ensures a < b
  {
    if b <= a {
      Monotone(b, a, d);
    }
  }

  // ----- what a block records about filled and missed slots -----

  function Count(bits: seq<bool>): nat {
    if bits == [] then 0 else Count(bits[..|bits| - 1]) + if bits[|bits| - 1] then 1 else 0
  }

  lemma {:induction false} CountShifted(bit: bool, bits: seq<bool>)
    ensures Count([bit] + bits) == Count(bits) + if bit then 1 else 0
    decreases |bits|
  {
    var all := [bit] + bits;
    if bits == [] {
      assert all[..0] == [];
    } else {
      assert all[..|all| - 1] == [bit] + bits[..|bits| - 1];
      CountShifted(bit, bits[..|bits| - 1]);
    }
  }

  /** The record after a block and the missed slots before it: newest slot first, cut to the window. */
  function Recorded(bits: seq<bool>, missed: nat): seq<bool>
    requires |bits| == WINDOW
  {
    (seq(missed, _ => false) + [true] + bits)[..WINDOW]
  }

  /** The record moves by the missed slots and one; the block counts as the oldest of these. */
  lemma RecordedIs(bits: seq<bool>, missed: nat, i: nat)
    requires |bits| == WINDOW && i < 128
    ensures |Recorded(bits, missed)| == 128
    ensures Recorded(bits, missed)[i] == if i < missed then false else if i == missed then true
      else bits[i - missed - 1]
  {}

  /** In how many of the slots 1 to n the witness was due. */
  function Missed(c: Clock, shuffled: seq<Name>, w: Name, n: nat): nat
    requires shuffled != []
  {
    if n == 0 then 0 else Missed(c, shuffled, w, n - 1) + if Scheduled(c, shuffled, n) == w then 1 else 0
  }

  datatype Duty = Duty(missed: nat, lastConfirmed: nat, key: nat)

  /** A witness that misses a slot and has produced nothing for a day loses its key. */
  function Blamed(d: Duty, head: nat, blocksPerDay: nat): Duty {
    d.(missed := d.missed + 1, key := if head - d.lastConfirmed > blocksPerDay then NO_KEY else d.key)
  }

  ghost predicate MissesCounted(c: Clock, shuffled: seq<Name>, producer: Name, n: nat, perDay: nat,
                                before: map<Name, Duty>, after: map<Name, Duty>)
    requires shuffled != []
  {
    && after.Keys == before.Keys
    && forall w {:trigger after[w]} :: w in after ==>
         var k := if w == producer then 0 else Missed(c, shuffled, w, n);
         && after[w].missed == before[w].missed + k && after[w].lastConfirmed == before[w].lastConfirmed
         && after[w].key == if k > 0 && c.head - before[w].lastConfirmed > perDay then NO_KEY else before[w].key
  }

  class DynamicData {
    const interval: nat
    const blocksPerDay: nat
    var clock: Clock
    var filled: seq<bool>
    var participation: int
    var duties: map<Name, Duty>

    ghost predicate Valid()
      reads this
    {
      interval > 0 && |filled| == WINDOW && participation == Count(filled)
    }

    constructor (interval: nat, blocksPerDay: nat, genesisTime: nat)
      requires interval > 0
      ensures Valid() && this.interval == interval && clock == Clock(0, genesisTime, 0)
    {
      this.interval, this.blocksPerDay := interval, blocksPerDay;
      clock, filled, participation, duties := Clock(0, genesisTime, 0), seq(WINDOW, _ => true), WINDOW, map[];
      AllFilled(WINDOW);
    }

    /**
     Advances the clock, blames the witnesses of missed slots other than the producer, and records the filled
     slot and the missed ones; the participation count stays the number of filled slots in the window.
     */
    method Update(timestamp: nat, producer: Name, shuffled: seq<Name>)
      requires Valid() && InTurn(clock, interval, timestamp) && shuffled != []
      requires forall i {:trigger shuffled[i]} :: 0 <= i < |shuffled| ==> shuffled[i] in duties
      modifies this`clock, this`filled, this`participation, this`duties
      ensures Valid() && clock == Tick(old(clock), interval, timestamp)
      ensures filled == Recorded(old(filled), clock.aslot - old(clock).aslot - 1)
      ensures MissesCounted(old(clock), shuffled, producer, clock.aslot - old(clock).aslot - 1, blocksPerDay,
        old(duties), duties)
    {
      var missed := 0;
      if clock.time != 0 {
        missed := SlotAt(clock, interval, timestamp) - 1;
        BlameMisses(missed, producer, shuffled);
      }
      RecordSlots(missed);
      clock := Clock(clock.head + 1, timestamp, clock.aslot + missed + 1);
    }

    method BlameMisses(missed: nat, producer: Name, shuffled: seq<Name>)
      requires shuffled != [] && forall i {:trigger shuffled[i]} :: 0 <= i < |shuffled| ==> shuffled[i] in duties
      modifies this`duties
      ensures MissesCounted(clock, shuffled, producer, missed, blocksPerDay, old(duties), duties)
    {
      hide Scheduled;
      var i := 0;
      while i < missed
        invariant 0 <= i <= missed
        invariant MissesCounted(clock, shuffled, producer, i, blocksPerDay, old(duties), duties)
      {
        var w := Scheduled(clock, shuffled, i + 1);
        ScheduledIsListed(clock, shuffled, i + 1);
        if w != producer {
          duties := duties[w := Blamed(duties[w], clock.head, blocksPerDay)];
        }
        i := i + 1;
      }
    }

    method RecordSlots(missed: nat)
      requires Valid()
      modifies this`filled, this`participation
      ensures Valid() && filled == Recorded(old(filled), missed)
    {
      hide Count, Recorded;
      var i := 0;
      while i < missed + 1
        invariant 0 <= i <= missed + 1
        invariant Valid() && filled == if i == 0 then old(filled) else Recorded(old(filled), i - 1)
      {
        ShiftRecords(old(filled), filled, i);
        participation := participation - if filled[WINDOW - 1] then 1 else 0;
        filled := [i == 0] + filled[..WINDOW - 1];
        participation := participation + if i == 0 then 1 else 0;
        i := i + 1;
      }
    }
  }

  lemma ScheduledIsListed(c: Clock, shuffled: seq<Name>, slot: nat)
    requires shuffled != []
    ensures Scheduled(c, shuffled, slot) in shuffled
  {}

  lemma {:induction false} AllFilled(n: nat)
    ensures Count(seq(n, _ => true)) == n
  {
    if n > 0 {
      assert seq(n, _ => true)[..n - 1] == seq(n - 1, _ => true);
      AllFilled(n - 1);
    }
  }

  lemma ShiftRecords(before: seq<bool>, now: seq<bool>, i: nat)
    requires |before| == WINDOW && now == if i == 0 then before else Recorded(before, i - 1)
    ensures var r := [i == 0] + now[..WINDOW - 1];
      r == Recorded(before, i) && Count(r) == Count(now) - (if now[WINDOW - 1] then 1 else 0) + if i == 0 then 1 else 0
  {
    hide Count;
    CountShifted(i == 0, now[..WINDOW - 1]);
    CountLast(now);
  }

  lemma CountLast(bits: seq<bool>)
    requires bits != []
    ensures Count(bits) == Count(bits[..|bits| - 1]) + if bits[|bits| - 1] then 1 else 0
  {}
}
