/**
 * The Snowflake id generator that names knowledge bases and documents.  An
 * id packs, from the top, the milliseconds since 2024-01-01 (41 bits), a
 * datacenter id (5 bits), a machine id (5 bits) and a per-millisecond
 * sequence number (12 bits).  The generator keeps the sequence number and
 * the last timestamp it used; the system clock is a `Clock` object that
 * yields a given sequence of readings.
 */
module SnowflakeIdGenerator {
  import opened Base
  import opened Text
  import Errors

  const Epoch: int := 1704067200000
  const MaxMachineId: int := 31
  const MaxDatacenterId: int := 31
  const MaxSequence: int := 4095
  /** `1 << 12`, `1 << 17` and `1 << 22`: the weights of the machine id,
      the datacenter id and the timestamp. */
  const MachineUnit: int := 4096
  const DatacenterUnit: int := 131072
  const TimestampUnit: int := 4194304

  const TwoTo63: int := 0x8000_0000_0000_0000
  const TwoTo41: int := 0x200_0000_0000

  /** The fields of an id laid side by side: `|` of the shifted fields,
      which is `+` because no two of them share a bit. */
  function Packed(timestamp: int, datacenterId: int, machineId: int, sequence: int): int
  {
    (timestamp - Epoch) * TimestampUnit + datacenterId * DatacenterUnit + machineId * MachineUnit + sequence
  }

  /** A Java `long`: the value modulo 2^64, read in two's complement. */
  function ToLong(x: int): (r: int)
    ensures -TwoTo63 <= r < TwoTo63
    ensures -TwoTo63 <= x < TwoTo63 ==> r == x
  {
    (x + TwoTo63) % (2 * TwoTo63) - TwoTo63
  }

  /** The id `nextId` returns. */
  function Id(timestamp: int, datacenterId: int, machineId: int, sequence: int): int
  {
    ToLong(Packed(timestamp, datacenterId, machineId, sequence))
  }

  /** Every field can be read back from the packed value, so two ids agree
      only when all their fields agree. */
  lemma {:induction false} PackedFields(timestamp: int, datacenterId: int, machineId: int, sequence: int)
    requires 0 <= datacenterId <= MaxDatacenterId && 0 <= machineId <= MaxMachineId && 0 <= sequence <= MaxSequence
    ensures Packed(timestamp, datacenterId, machineId, sequence) % MachineUnit == sequence
    ensures (Packed(timestamp, datacenterId, machineId, sequence) / MachineUnit) % 32 == machineId
    ensures (Packed(timestamp, datacenterId, machineId, sequence) / DatacenterUnit) % 32 == datacenterId
    ensures Packed(timestamp, datacenterId, machineId, sequence) / TimestampUnit == timestamp - Epoch
  {
    var t := timestamp - Epoch;
    var p := Packed(timestamp, datacenterId, machineId, sequence);
    var mid := t * 32 + datacenterId;
    assert p == (mid * 32 + machineId) * 4096 + sequence;
    assert p / 4096 == mid * 32 + machineId;
    assert p / 131072 == mid;
    assert p / 4194304 == t;
  }

  /** Ids of one generator differ whenever their timestamps or sequence
      numbers differ. */
  lemma {:induction false} PackedInjective(t1: int, s1: int, t2: int, s2: int, datacenterId: int, machineId: int)
    requires 0 <= datacenterId <= MaxDatacenterId && 0 <= machineId <= MaxMachineId
    requires 0 <= s1 <= MaxSequence && 0 <= s2 <= MaxSequence
    requires Packed(t1, datacenterId, machineId, s1) == Packed(t2, datacenterId, machineId, s2)
    ensures t1 == t2 && s1 == s2
  {
    PackedFields(t1, datacenterId, machineId, s1);
    PackedFields(t2, datacenterId, machineId, s2);
  }

  /** Within 2^41 milliseconds of the epoch an id is a non-negative `long`,
      so the 64-bit result is the packed value itself. */
  lemma {:induction false} IdInRange(timestamp: int, datacenterId: int, machineId: int, sequence: int)
    requires Epoch <= timestamp < Epoch + TwoTo41
    requires 0 <= datacenterId <= MaxDatacenterId && 0 <= machineId <= MaxMachineId && 0 <= sequence <= MaxSequence
    ensures 0 <= Id(timestamp, datacenterId, machineId, sequence) == Packed(timestamp, datacenterId, machineId, sequence) < TwoTo63
  {
    var t := timestamp - Epoch;
    assert 0 <= t * TimestampUnit <= (TwoTo41 - 1) * TimestampUnit;
  }

  /** `(t1, s1)` comes strictly before `(t2, s2)`: an earlier millisecond,
      or the same one with a smaller sequence number. */
  predicate Before(t1: int, s1: int, t2: int, s2: int)
  {
    t1 < t2 || (t1 == t2 && s1 < s2)
  }

  /** Packing preserves that order. */
  lemma {:induction false} PackedMonotone(t1: int, s1: int, t2: int, s2: int, datacenterId: int, machineId: int)
    requires 0 <= datacenterId <= MaxDatacenterId && 0 <= machineId <= MaxMachineId
    requires 0 <= s1 <= MaxSequence && 0 <= s2 <= MaxSequence
    requires Before(t1, s1, t2, s2)
    ensures Packed(t1, datacenterId, machineId, s1) < Packed(t2, datacenterId, machineId, s2)
  {
    if t1 < t2 {
      assert (t2 - Epoch) * TimestampUnit - (t1 - Epoch) * TimestampUnit == (t2 - t1) * TimestampUnit;
      assert (t2 - t1) * TimestampUnit >= TimestampUnit;
    }
  }

  /** The generator's mutable state. */
  datatype State = State(sequence: int, lastTimestamp: int)

  /** The result of one `nextId`: the id, the new state, and how many clock
      readings it took. */
  datatype Step = Step(id: int, state: State, readings: nat)

  const ClockBackwards := Errors.Other(Some("Clock moved backwards. Refusing to generate id"), None)

  /** The first reading at or after `from` later than `last`: where the
      spin loop of `tilNextMillis` stops. */
  function FirstAfter(readings: seq<int>, from: nat, last: int): (k: nat)
    requires exists j :: from <= j < |readings| && readings[j] > last
    ensures from <= k < |readings| && readings[k] > last
    ensures forall j :: from <= j < k ==> readings[j] <= last
    decreases |readings| - from
  {
    if readings[from] > last then from else FirstAfter(readings, from + 1, last)
  }

  /** `nextId` can finish with the readings the clock has left: it needs
      one reading, and when the sequence wraps within the same millisecond,
      a later one that is past that millisecond. */
  ghost predicate CanGenerate(st: State, readings: seq<int>, pos: nat)
  {
    pos < |readings|
    && (readings[pos] == st.lastTimestamp && (st.sequence + 1) % MachineUnit == 0 ==>
          exists j :: pos + 1 <= j < |readings| && readings[j] > st.lastTimestamp)
  }

  /** `nextId` on the state `st` with the clock's readings from `pos` on. */
  function Next(datacenterId: int, machineId: int, st: State, readings: seq<int>, pos: nat): (r: Result<Step, Errors.Exception>)
    requires CanGenerate(st, readings, pos)
  {
    var timestamp := readings[pos];
    if timestamp < st.lastTimestamp then Err(ClockBackwards)
    else if timestamp == st.lastTimestamp then
      var sequence := (st.sequence + 1) % MachineUnit;
      if sequence == 0 then
        var k := FirstAfter(readings, pos + 1, st.lastTimestamp);
        Ok(Step(Id(readings[k], datacenterId, machineId, 0), State(0, readings[k]), k + 1 - pos))
      else Ok(Step(Id(timestamp, datacenterId, machineId, sequence), State(sequence, timestamp), 1))
    else Ok(Step(Id(timestamp, datacenterId, machineId, 0), State(0, timestamp), 1))
  }

  /** The three cases of `nextId`: a clock behind the last timestamp is
      refused; the same millisecond takes the next sequence number (and on
      wrap-around the next millisecond the clock shows); a later
      millisecond starts again at sequence 0.  The id is the packed new
      state. */
  lemma {:induction false} NextCases(datacenterId: int, machineId: int, st: State, readings: seq<int>, pos: nat)
    requires CanGenerate(st, readings, pos)
    requires 0 <= st.sequence <= MaxSequence
    ensures readings[pos] < st.lastTimestamp <==> Next(datacenterId, machineId, st, readings, pos) == Err(ClockBackwards)
    ensures Next(datacenterId, machineId, st, readings, pos).Ok? ==>
              var s := Next(datacenterId, machineId, st, readings, pos).value;
              && s.id == Id(s.state.lastTimestamp, datacenterId, machineId, s.state.sequence)
              && 0 <= s.state.sequence <= MaxSequence
              && s.readings >= 1 && pos + s.readings <= |readings|
              && (readings[pos] > st.lastTimestamp ==> s.state == State(0, readings[pos]))
              && (readings[pos] == st.lastTimestamp && st.sequence < MaxSequence ==>
                    s.state == State(st.sequence + 1, st.lastTimestamp))
              && (readings[pos] == st.lastTimestamp && st.sequence == MaxSequence ==>
                    s.state.sequence == 0 && s.state.lastTimestamp > st.lastTimestamp
                    && s.state.lastTimestamp == readings[pos + s.readings - 1]
                    && forall j :: pos < j < pos + s.readings - 1 ==> readings[j] <= st.lastTimestamp)
  {
  }

  /** Every successful `nextId` moves the state strictly forward. */
  lemma {:induction false} NextMovesForward(datacenterId: int, machineId: int, st: State, readings: seq<int>, pos: nat)
    requires CanGenerate(st, readings, pos)
    requires 0 <= st.sequence <= MaxSequence
    requires Next(datacenterId, machineId, st, readings, pos).Ok?
    ensures Before(st.lastTimestamp, st.sequence, Next(datacenterId, machineId, st, readings, pos).value.state.lastTimestamp,
                   Next(datacenterId, machineId, st, readings, pos).value.state.sequence)
  {
    NextCases(datacenterId, machineId, st, readings, pos);
  }

  /** Successive ids of one generator strictly increase, hence never repeat,
      as long as the clock is past the epoch and less than 2^41 ms beyond it. */
  lemma {:induction false} SuccessiveIdsIncrease(datacenterId: int, machineId: int, st: State, readings: seq<int>, pos: nat)
    requires 0 <= datacenterId <= MaxDatacenterId && 0 <= machineId <= MaxMachineId
    requires 0 <= st.sequence <= MaxSequence && st.lastTimestamp >= Epoch
    requires CanGenerate(st, readings, pos)
    requires Next(datacenterId, machineId, st, readings, pos).Ok?
    requires Next(datacenterId, machineId, st, readings, pos).value.state.lastTimestamp < Epoch + TwoTo41
    ensures Id(st.lastTimestamp, datacenterId, machineId, st.sequence) < Next(datacenterId, machineId, st, readings, pos).value.id
  {
    var s := Next(datacenterId, machineId, st, readings, pos).value;
    NextCases(datacenterId, machineId, st, readings, pos);
    NextMovesForward(datacenterId, machineId, st, readings, pos);
    PackedMonotone(st.lastTimestamp, st.sequence, s.state.lastTimestamp, s.state.sequence, datacenterId, machineId);
    IdInRange(st.lastTimestamp, datacenterId, machineId, st.sequence);
    IdInRange(s.state.lastTimestamp, datacenterId, machineId, s.state.sequence);
  }

  /** `System.currentTimeMillis()`: yields the given readings one by one. */
  class Clock {
    const readings: seq<int>
    var pos: nat

    constructor (readings: seq<int>)
      ensures this.readings == readings && pos == 0
    {
      this.readings := readings;
      pos := 0;
    }

    method Now() returns (t: int)
      requires pos < |readings|
      modifies this
      ensures t == readings[old(pos)] && pos == old(pos) + 1
    {
      t := readings[pos];
      pos := pos + 1;
    }
  }

  class Snowflake {
    const machineId: int
    const datacenterId: int
    var sequence: int
    var lastTimestamp: int

    ghost predicate Valid()
      reads this
    {
      0 <= machineId <= MaxMachineId && 0 <= datacenterId <= MaxDatacenterId && 0 <= sequence <= MaxSequence
    }

    /** The two-argument constructor after its range checks; `Create`
        performs the checks. */
    constructor (machineId: int, datacenterId: int)
      requires 0 <= machineId <= MaxMachineId && 0 <= datacenterId <= MaxDatacenterId
      ensures Valid()
      ensures this.machineId == machineId && this.datacenterId == datacenterId
      ensures sequence == 0 && lastTimestamp == -1
    {
      this.machineId := machineId;
      this.datacenterId := datacenterId;
      sequence := 0;
      lastTimestamp := -1;
    }

    /** `tilNextMillis`: reads the clock until it shows a later millisecond. */
    method TilNextMillis(clock: Clock, last: int) returns (t: int)
      requires exists j :: clock.pos <= j < |clock.readings| && clock.readings[j] > last
      modifies clock
      ensures clock.pos == FirstAfter(clock.readings, old(clock.pos), last) + 1
      ensures t == clock.readings[clock.pos - 1] && t > last
    {
      ghost var start := clock.pos;
      t := clock.Now();
      while t <= last
        invariant start < clock.pos <= FirstAfter(clock.readings, start, last) + 1
        invariant t == clock.readings[clock.pos - 1]
        invariant t <= last ==> clock.pos <= FirstAfter(clock.readings, start, last)
        decreases |clock.readings| - clock.pos
      {
        t := clock.Now();
      }
    }

    /** `nextId`. */
    method NextId(clock: Clock) returns (r: Result<int, Errors.Exception>)
      requires Valid()
      requires CanGenerate(State(sequence, lastTimestamp), clock.readings, clock.pos)
      modifies this, clock
      ensures Valid()
      ensures var n := Next(datacenterId, machineId, old(State(sequence, lastTimestamp)), clock.readings, old(clock.pos));
              && (n.Err? ==> r == Err(n.error) && sequence == old(sequence) && lastTimestamp == old(lastTimestamp)
                             && clock.pos == old(clock.pos) + 1)
              && (n.Ok? ==> r == Ok(n.value.id) && State(sequence, lastTimestamp) == n.value.state
                            && clock.pos == old(clock.pos) + n.value.readings)
    {
      ghost var st := State(sequence, lastTimestamp);
      ghost var pos := clock.pos;
      NextCases(datacenterId, machineId, st, clock.readings, pos);
      var timestamp := clock.Now();
      if timestamp < lastTimestamp {
        return Err(ClockBackwards);
      }
      if timestamp == lastTimestamp {
        sequence := (sequence + 1) % MachineUnit;
        if sequence == 0 {
          timestamp := TilNextMillis(clock, lastTimestamp);
        }
      } else {
        sequence := 0;
      }
      lastTimestamp := timestamp;
      r := Ok(Id(timestamp, datacenterId, machineId, sequence));
    }
  }

  const MachineRange := Errors.IllegalArgument(Some("Machine ID must be between 0 and 31"))
  const DatacenterRange := Errors.IllegalArgument(Some("Datacenter ID must be between 0 and 31"))

  /** `new SnowflakeIdGenerator(machineId, datacenterId)`: the machine id is
      checked first, then the datacenter id. */
  method Create(machineId: int, datacenterId: int) returns (r: Result<Snowflake, Errors.Exception>)
    ensures !(0 <= machineId <= MaxMachineId) ==> r == Err(MachineRange)
    ensures 0 <= machineId <= MaxMachineId && !(0 <= datacenterId <= MaxDatacenterId) ==> r == Err(DatacenterRange)
    ensures r.Ok? <==> 0 <= machineId <= MaxMachineId && 0 <= datacenterId <= MaxDatacenterId
    ensures r.Ok? ==> fresh(r.value) && r.value.Valid() && r.value.machineId == machineId
                      && r.value.datacenterId == datacenterId && r.value.sequence == 0 && r.value.lastTimestamp == -1
  {
    if machineId > MaxMachineId || machineId < 0 {
      return Err(MachineRange);
    }
    if datacenterId > MaxDatacenterId || datacenterId < 0 {
      return Err(DatacenterRange);
    }
    var g := new Snowflake(machineId, datacenterId);
    r := Ok(g);
  }

  /** The text after an optional leading sign. */
  function DigitPart(s: string): string
  {
    if |s| > 0 && (s[0] == '-' || s[0] == '+') then s[1..] else s
  }

  predicate AllAsciiDigits(d: string)
  {
    forall k :: 0 <= k < |d| ==> IsAsciiDigit(d[k])
  }

  /** The value of a signed decimal, negated after a leading '-'. */
  function SignedValue(s: string): int
    requires AllAsciiDigits(DigitPart(s))
  {
    if |s| > 0 && s[0] == '-' then 0 - DigitsValue(DigitPart(s)) as int else DigitsValue(DigitPart(s))
  }

  /** `Long.parseLong` of a decimal with an optional sign; None when it
      throws NumberFormatException (no digits, another character, or
      outside the `long` range). */
  function ParseLong(s: string): (r: Option<int>)
    ensures r.Some? ==> -TwoTo63 <= r.value < TwoTo63
    ensures r.None? <==> |DigitPart(s)| == 0 || !AllAsciiDigits(DigitPart(s)) || !(-TwoTo63 <= SignedValue(s) < TwoTo63)
    ensures r.Some? ==> AllAsciiDigits(DigitPart(s)) && r.value == SignedValue(s)
  {
    var digits := DigitPart(s);
    if |digits| == 0 || !AllAsciiDigits(digits) then None
    else
      var v := SignedValue(s);
      if -TwoTo63 <= v < TwoTo63 then Some(v) else None
  }

  /** Reading back a number printed in decimal gives the number. */
  lemma {:induction false} ParseLongOfNat(n: nat)
    requires n < TwoTo63
    ensures ParseLong(NatToString(n)) == Some(n)
  {
    var s := NatToString(n);
    NatToStringRoundTrip(n);
    assert s[0] != '-' && s[0] != '+';
  }

  function NumberFormat(s: string): Errors.Exception
  {
    Errors.Other(Some("For input string: \"" + s + "\""), None)
  }

  /** The no-argument constructor: the ids come from the system properties
      `snowflake.machine.id` and `snowflake.datacenter.id`, "1" when unset. */
  method CreateDefault(machineProperty: Option<string>, datacenterProperty: Option<string>)
    returns (r: Result<Snowflake, Errors.Exception>)
    ensures machineProperty.None? && datacenterProperty.None? ==>
              r.Ok? && r.value.machineId == 1 && r.value.datacenterId == 1
    ensures ParseLong(machineProperty.GetOr("1")).None? ==> r == Err(NumberFormat(machineProperty.GetOr("1")))
    ensures r.Ok? ==> fresh(r.value) && r.value.Valid() && r.value.sequence == 0 && r.value.lastTimestamp == -1
    ensures r.Ok? ==> Some(r.value.machineId) == ParseLong(machineProperty.GetOr("1"))
                      && Some(r.value.datacenterId) == ParseLong(datacenterProperty.GetOr("1"))
  {
    var machineText := machineProperty.GetOr("1");
    var datacenterText := datacenterProperty.GetOr("1");
    assert ParseLong("1") == Some(1) by {
      assert DigitsValue("1") == 1 by {
        assert "1"[..0] == "";
      }
    }
    var machineId := ParseLong(machineText);
    if machineId.None? {
      return Err(NumberFormat(machineText));
    }
    var datacenterId := ParseLong(datacenterText);
    if datacenterId.None? {
      return Err(NumberFormat(datacenterText));
    }
    r := Create(machineId.value, datacenterId.value);
  }
}
