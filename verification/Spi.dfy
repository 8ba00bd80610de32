/** spi/spi_emulated.c: the bit-banged master, and the slave that samples its pins. */
module Spi {
  import opened CTypes

  /** The three pins at one moment. CE0 is active low. */
  datatype Level = Level(ce0: bool, sclk: bool, mosi: bool)

  // ----- bytes and bits ---------------------------------------------------------------------

  /** The weight of the i-th bit sent, the highest first: `1 << (7 - i)`. */
  function Weight(i: nat): bv8 {
    match i
    case 0 => 0x80 case 1 => 0x40 case 2 => 0x20 case 3 => 0x10
    case 4 => 0x08 case 5 => 0x04 case 6 => 0x02 case _ => 0x01
  }

  /** The bits sent before the i-th. */
  function Top(i: nat): bv8 {
    match i
    case 0 => 0x00 case 1 => 0x80 case 2 => 0xc0 case 3 => 0xe0
    case 4 => 0xf0 case 5 => 0xf8 case 6 => 0xfc case 7 => 0xfe case _ => 0xff
  }

  function BitOf(x: bv8, i: nat): bool { x & Weight(i) != 0 }

  lemma TopStep(x: bv8, i: nat)
    requires i < 8
    ensures (x & Top(i)) | (if BitOf(x, i) then Weight(i) else 0) == x & Top(i + 1)
  {
    if i == 0 {
    } else if i == 1 {
    } else if i == 2 {
    } else if i == 3 {
    } else if i == 4 {
    } else if i == 5 {
    } else if i == 6 {
    } else {
    }
  }

  lemma TopAll(x: bv8)
    ensures x & Top(8) == x && x & Top(0) == 0
  {}

  /** All bits of a string of bytes, in the order they are sent. */
  function BitsOf(bytes: seq<bv8>): (r: seq<bool>)
    ensures |r| == 8 * |bytes|
  {
    seq(8 * |bytes|, t requires 0 <= t < 8 * |bytes| => BitOf(bytes[t / 8], t % 8))
  }

  // ----- the master -------------------------------------------------------------------------

  /** The p-th level of a transfer: CE0 falls; for each bit MOSI is set, SCLK rises, SCLK falls;
      CE0 rises. */
  function LevelAt(mosi0: bool, bits: seq<bool>, p: nat): Level
    requires p < 3 * |bits| + 2
  {
    if p > 3 * |bits| then Level(true, false, if bits == [] then mosi0 else bits[|bits| - 1])
    else if p % 3 == 0 then Level(false, false, if p == 0 then mosi0 else bits[p / 3 - 1])
    else Level(false, p % 3 == 2, bits[p / 3])
  }

  function Wave(mosi0: bool, bits: seq<bool>): (r: seq<Level>)
    ensures |r| == 3 * |bits| + 2
  {
    seq(3 * |bits| + 2, p requires 0 <= p < 3 * |bits| + 2 => LevelAt(mosi0, bits, p))
  }

  class Master {
    var ce0: bool
    var sclk: bool
    var mosi: bool
    var trace: seq<Level>

    constructor ()
      ensures ce0 && !sclk && trace == []
    {
      ce0, sclk, mosi, trace := true, false, false, [];
    }

    method SetPins(ce0: bool, sclk: bool, mosi: bool)
      modifies this
      ensures this.ce0 == ce0 && this.sclk == sclk && this.mosi == mosi
      ensures trace == old(trace) + [Level(ce0, sclk, mosi)]
    {
      this.ce0, this.sclk, this.mosi := ce0, sclk, mosi;
      trace := trace + [Level(ce0, sclk, mosi)];
    }

    /** spi_emulated_xmit_bit. */
    method XmitBit(bitIn: bool)
      modifies this
      ensures ce0 == old(ce0) && !sclk && mosi == bitIn
      ensures trace == old(trace)
        + [Level(ce0, old(sclk), bitIn), Level(ce0, true, bitIn), Level(ce0, false, bitIn)]
    {
      SetPins(ce0, sclk, bitIn);
      SetPins(ce0, true, mosi);
      SetPins(ce0, false, mosi);
    }

    /** spi_emulated_xmit, its outgoing half. */
    method Xmit(bytesIn: seq<bv8>)
      requires !sclk
      modifies this
      ensures ce0 && !sclk
      ensures trace == old(trace) + Wave(old(mosi), BitsOf(bytesIn))
    {
      hide LevelAt, BitOf;
      ghost var bits := BitsOf(bytesIn);
      ghost var wave := Wave(mosi, bits);
      WaveEnds(mosi, bits);
      SetPins(false, sclk, mosi);
      for j := 0 to |bytesIn|
        invariant !ce0 && !sclk && trace == old(trace) + wave[..24 * j + 1]
        invariant mosi == MosiBefore(old(mosi), bits, 8 * j)
      {
        XmitByte(old(mosi), bytesIn, j, old(trace));
      }
      SetPins(true, sclk, mosi);
    }

    /** The inner loop of spi_emulated_xmit, for byte j. */
    method XmitByte(ghost mosi0: bool, bytesIn: seq<bv8>, j: nat, ghost before: seq<Level>)
      requires j < |bytesIn| && !ce0 && !sclk && mosi == MosiBefore(mosi0, BitsOf(bytesIn), 8 * j)
      requires trace == before + Wave(mosi0, BitsOf(bytesIn))[..24 * j + 1]
      modifies this
      ensures !ce0 && !sclk && mosi == MosiBefore(mosi0, BitsOf(bytesIn), 8 * j + 8)
      ensures trace == before + Wave(mosi0, BitsOf(bytesIn))[..24 * j + 25]
    {
      hide LevelAt, BitOf;
      ghost var bits := BitsOf(bytesIn);
      ghost var wave := Wave(mosi0, bits);
      for i := 0 to 8
        invariant !ce0 && !sclk && trace == before + wave[..24 * j + 3 * i + 1]
        invariant mosi == MosiBefore(mosi0, bits, 8 * j + i)
      {
        BitSent(bytesIn, j, i);
        WaveStep(mosi0, bits, 8 * j + i);
        XmitBit(BitOf(bytesIn[j], i));
      }
    }
  }

  function MosiBefore(mosi0: bool, bits: seq<bool>, t: nat): bool {
    if 0 < t <= |bits| then bits[t - 1] else mosi0
  }

  lemma WaveEnds(mosi0: bool, bits: seq<bool>)
    ensures Wave(mosi0, bits)[..1] == [Level(false, false, mosi0)]
    ensures Wave(mosi0, bits)
         == Wave(mosi0, bits)[..3 * |bits| + 1] + [Level(true, false, MosiBefore(mosi0, bits, |bits|))]
  {}

  lemma BitSent(bytes: seq<bv8>, j: nat, i: nat)
    requires j < |bytes| && i < 8
    ensures BitsOf(bytes)[8 * j + i] == BitOf(bytes[j], i)
  {
    assert (8 * j + i) / 8 == j && (8 * j + i) % 8 == i;
  }

  lemma WaveStep(mosi0: bool, bits: seq<bool>, t: nat)
    requires t < |bits|
    ensures Wave(mosi0, bits)[..3 * t + 4] == Wave(mosi0, bits)[..3 * t + 1]
      + [Level(false, false, bits[t]), Level(false, true, bits[t]), Level(false, false, bits[t])]
  {
    var wave := Wave(mosi0, bits);
    assert (3 * t + 3) / 3 - 1 == t;
    assert wave[..3 * t + 4] == wave[..3 * t + 1] + [wave[3 * t + 1], wave[3 * t + 2], wave[3 * t + 3]];
  }

  /** The bit of weight 2^(7 - i) is the i-th one sent. */
  lemma BitOfIs(x: bv8, i: nat)
    requires i < 8
    ensures BitOf(x, i) <==> x / (1 << (7 - i)) % 2 == 1
  {
    if i == 0 {
    } else if i == 1 {
    } else if i == 2 {
    } else if i == 3 {
    } else if i == 4 {
    } else if i == 5 {
    } else if i == 6 {
    } else {
    }
  }

  lemma EdgeLevels(mosi0: bool, bits: seq<bool>, t: nat)
    requires t < |bits|
    ensures Wave(mosi0, bits)[3 * t + 1] == Level(false, false, bits[t])
    ensures Wave(mosi0, bits)[3 * t + 2] == Level(false, true, bits[t])
  {
    assert (3 * t + 1) / 3 == t && (3 * t + 1) % 3 == 1;
    assert (3 * t + 2) / 3 == t && (3 * t + 2) % 3 == 2;
  }

  /** At the rising edge of bit t the data pin has the bits of the bytes in order, of each byte the highest
      first. */
  lemma HighestFirst(mosi0: bool, bytes: seq<bv8>, t: nat)
    requires t < 8 * |bytes|
    ensures var wave, bit := Wave(mosi0, BitsOf(bytes)), bytes[t / 8] / (1 << (7 - t % 8)) % 2 == 1;
      wave[3 * t + 1] == Level(false, false, bit) && wave[3 * t + 2] == Level(false, true, bit)
  {
    hide BitOf, Wave;
    BitOfIs(bytes[t / 8], t % 8);
    EdgeLevels(mosi0, BitsOf(bytes), t);
  }

  // ----- the slave --------------------------------------------------------------------------

  datatype Mode = WaitCe0 | ExpectSclkDrop | ExpectSclkRize

  /** The registers of spi_emulated_slave_xmit_byte. */
  datatype Slave = Slave(mode: Mode, i: nat, byte: bv8)

  const START: Slave := Slave(WaitCe0, 0, 0)

  function Sampled(s: Slave, level: Level): Slave {
    if level.ce0 then (if s.i > 0 then s.(byte := 0, i := 0) else s)
    else
      match s.mode
      case WaitCe0 => s.(mode := if !level.sclk then ExpectSclkRize else ExpectSclkDrop)
      case ExpectSclkRize =>
        if level.sclk
        then Slave(ExpectSclkDrop, s.i + 1, s.byte | (if level.mosi then Weight(s.i) else 0))
        else s
      case ExpectSclkDrop => if !level.sclk then s.(mode := ExpectSclkRize) else s
  }

  /** The byte of one call and the samples it consumed; none when the samples run out. */
  function SlaveRun(s: Slave, samples: seq<Level>, at: nat): (Option<bv8>, nat)
    decreases |samples| - at
  {
    if at >= |samples| then (None, at)
    else
      var s1 := Sampled(s, samples[at]);
      if s1.i == 8 then (Some(s1.byte), at + 1) else SlaveRun(s1, samples, at + 1)
  }

  /** spi_emulated_slave_xmit_byte on the levels it reads from sample `at` on. */
  method SlaveXmitByte(samples: seq<Level>, at: nat) returns (byteOut: Option<bv8>, next: nat)
    requires at <= |samples|
    ensures (byteOut, next) == SlaveRun(START, samples, at)
  {
    hide Sampled;
    var s := START;
    next := at;
    while next < |samples|
      invariant at <= next <= |samples| && s.i < 8
      invariant SlaveRun(START, samples, at) == SlaveRun(s, samples, next)
    {
      s := TakeSample(s, samples[next]);
      next := next + 1;
      if s.i == 8 {
        return Some(s.byte), next;
      }
    }
    byteOut := None;
  }

  /** The body of its loop. */
  method TakeSample(s: Slave, level: Level) returns (r: Slave)
    requires s.i < 8
    ensures r == Sampled(s, level) && r.i <= 8
  {
    var mode, i, byte := s.mode, s.i, s.byte;
    if level.ce0 {
      if i > 0 {
        byte := 0;
        i := 0;
      }
      return Slave(mode, i, byte);
    }
    match mode {
      case WaitCe0 =>
        if !level.sclk {
          mode := ExpectSclkRize;
        } else {
          mode := ExpectSclkDrop;
        }
      case ExpectSclkRize =>
        if level.sclk {
          byte := byte | (if level.mosi then Weight(i) else 0);
          i := i + 1;
          mode := ExpectSclkDrop;
        }
      case ExpectSclkDrop =>
        if !level.sclk {
          mode := ExpectSclkRize;
        }
    }
    r := Slave(mode, i, byte);
  }

  /** n calls in a row, the first in state s at sample `at`: the bytes they return, and the state
      and the place of the call behind them. */
  function Calls(s: Slave, samples: seq<Level>, at: nat, n: nat): (seq<bv8>, Slave, nat)
    decreases n
  {
    if n == 0 then ([], s, at)
    else
      var (b, next) := SlaveRun(s, samples, at);
      if b.None? then ([], s, at)
      else
        var (more, s1, end) := Calls(START, samples, next, n - 1);
        ([b.value] + more, s1, end)
  }

  function Received(samples: seq<Level>, at: nat, n: nat): seq<bv8> { Calls(START, samples, at, n).0 }

  // ----- what arrives -----------------------------------------------------------------------

  /** The samples are levels of the wave in its order, at the positions `pos`. Every phase of the
      clock is hit: each high level, and one of the two low levels before it. */
  predicate Sampling(samples: seq<Level>, pos: seq<nat>, mosi0: bool, bits: seq<bool>) {
    && |samples| == |pos|
    && (forall k :: 0 <= k < |pos| ==> pos[k] < 3 * |bits| + 2 && samples[k] == LevelAt(mosi0, bits, pos[k]))
    && (forall k, l :: 0 <= k <= l < |pos| ==> pos[k] <= pos[l])
    && (forall t :: 0 <= t < |bits| ==> HitsLow(pos, t) && HitsHigh(pos, t))
  }

  predicate HitsLow(pos: seq<nat>, t: nat) { 3 * t in pos || 3 * t + 1 in pos }

  predicate HitsHigh(pos: seq<nat>, t: nat) { 3 * t + 2 in pos }

  /** The phase of a position: 2t for the low levels before bit t, 2t + 1 for its high level. */
  function PhaseOf(p: nat): nat { if p % 3 == 2 then p / 3 * 2 + 1 else p / 3 * 2 }

  function PhasesOf(pos: seq<nat>): (r: seq<nat>)
    ensures |r| == |pos| && forall k :: 0 <= k < |pos| ==> r[k] == PhaseOf(pos[k])
  {
    seq(|pos|, k requires 0 <= k < |pos| => PhaseOf(pos[k]))
  }

  predicate LevelInPhase(level: Level, phase: nat, bits: seq<bool>) {
    phase < 2 * |bits| ==>
      !level.ce0 && level.sclk == (phase % 2 == 1) && (level.sclk ==> level.mosi == bits[phase / 2])
  }

  /** Seen from sample to sample, the phases begin at the first, never skip one and come to the last. */
  predicate Phased(samples: seq<Level>, ph: seq<nat>, bits: seq<bool>) {
    && |samples| == |ph|
    && (forall k :: 0 <= k < |ph| ==> LevelInPhase(samples[k], ph[k], bits))
    && (forall k :: 0 <= k < |ph| - 1 ==> ph[k] <= ph[k + 1] <= ph[k] + 1)
    && (bits != [] ==> ph != [] && ph[0] == 0 && ph[|ph| - 1] >= 2 * |bits| - 1)
  }

  lemma PositionInPhase(mosi0: bool, bits: seq<bool>, p: nat)
    requires p < 3 * |bits| + 2
    ensures LevelInPhase(LevelAt(mosi0, bits, p), PhaseOf(p), bits) && PhaseOf(p) <= 2 * |bits|
  {
    var t, r := p / 3, p % 3;
    assert p == 3 * t + r;
  }

  /** A phase below 2n has a sample. */
  lemma PhaseHit(pos: seq<nat>, bits: seq<bool>, f: nat) returns (k: nat)
    requires forall t :: 0 <= t < |bits| ==> HitsLow(pos, t) && HitsHigh(pos, t)
    requires f < 2 * |bits|
    ensures k < |pos| && PhaseOf(pos[k]) == f
  {
    var t := f / 2;
    assert HitsLow(pos, t) && HitsHigh(pos, t);
    if f % 2 == 1 {
      k :| 0 <= k < |pos| && pos[k] == 3 * t + 2;
    } else {
      k :| 0 <= k < |pos| && (pos[k] == 3 * t || pos[k] == 3 * t + 1);
    }
  }

  lemma PhaseMonotone(p: nat, q: nat)
    requires p <= q
    ensures PhaseOf(p) <= PhaseOf(q)
  {}

  lemma SamplingIsPhased(samples: seq<Level>, pos: seq<nat>, mosi0: bool, bits: seq<bool>)
    requires Sampling(samples, pos, mosi0, bits)
    ensures Phased(samples, PhasesOf(pos), bits)
  {
    var ph := PhasesOf(pos);
    hide PhaseOf, LevelAt, LevelInPhase, HitsLow, HitsHigh;
    forall k | 0 <= k < |ph| ensures LevelInPhase(samples[k], ph[k], bits) && ph[k] <= 2 * |bits| {
      PositionInPhase(mosi0, bits, pos[k]);
    }
    forall k | 0 <= k < |ph| - 1 ensures ph[k] <= ph[k + 1] <= ph[k] + 1 {
      PhaseMonotone(pos[k], pos[k + 1]);
      if ph[k + 1] > ph[k] + 1 {
        var l := PhaseHit(pos, bits, ph[k] + 1);
        if l <= k {
          PhaseMonotone(pos[l], pos[k]);
        } else {
          PhaseMonotone(pos[k + 1], pos[l]);
        }
      }
    }
    if bits != [] {
      var first := PhaseHit(pos, bits, 0);
      PhaseMonotone(pos[0], pos[first]);
      var last := PhaseHit(pos, bits, 2 * |bits| - 1);
      PhaseMonotone(pos[last], pos[|pos| - 1]);
    }
  }

  /** The first i bits of x have been read. */
  predicate Holds(byte: bv8, x: bv8, i: nat) { byte == x & Top(i) }

  /** The slave has read i bits of the byte x, whose first bit is `first`: it stands in the low or
      the high phase of the next bit, or between the bit before and that low phase. */
  predicate Reading(s: Slave, ph: seq<nat>, at: nat, bits: seq<bool>, x: bv8, first: nat) {
    && s.i < 8 && first + 8 <= |bits| && Holds(s.byte, x, s.i) && at < |ph|
    && (s.mode.WaitCe0? ==> s.i == 0)
    && (if s.mode.ExpectSclkRize?
        then 2 * (first + s.i) <= ph[at] <= 2 * (first + s.i) + 1
        else 2 * (first + s.i) <= ph[at] + 1 <= 2 * (first + s.i) + 1)
  }

  lemma RizeStep(s: Slave, level: Level, bits: seq<bool>, phase: nat, x: bv8, t: nat)
    requires s.mode.ExpectSclkRize? && s.i < 8 && t < |bits| && Holds(s.byte, x, s.i) && bits[t] == BitOf(x, s.i)
    requires LevelInPhase(level, phase, bits) && 2 * t <= phase <= 2 * t + 1
    ensures phase == 2 * t ==> Sampled(s, level) == s
    ensures phase > 2 * t ==>
      Sampled(s, level).mode.ExpectSclkDrop? && Sampled(s, level).i == s.i + 1
      && Holds(Sampled(s, level).byte, x, s.i + 1)
  {
    TopStep(x, s.i);
  }

  lemma DropStep(s: Slave, level: Level, bits: seq<bool>, phase: nat, t: nat)
    requires !s.mode.ExpectSclkRize? && t < |bits|
    requires LevelInPhase(level, phase, bits) && 2 * t <= phase + 1 <= 2 * t + 1
    ensures Sampled(s, level) == s.(mode := if phase == 2 * t then ExpectSclkRize else ExpectSclkDrop)
  {}

  lemma PhasedAt(samples: seq<Level>, ph: seq<nat>, bits: seq<bool>, at: nat)
    requires Phased(samples, ph, bits) && at < |ph|
    ensures at < |samples| && LevelInPhase(samples[at], ph[at], bits)
    ensures ph[at] < 2 * |bits| - 1 ==> at + 1 < |ph| && ph[at] <= ph[at + 1] <= ph[at] + 1
  {}

  /** Before a rising edge a sample completes the byte or leaves the slave reading it. */
  lemma ReadRize(samples: seq<Level>, ph: seq<nat>, bits: seq<bool>, s: Slave, at: nat, x: bv8, first: nat)
    requires Phased(samples, ph, bits) && Reading(s, ph, at, bits, x, first) && s.mode.ExpectSclkRize?
    requires bits[first + s.i] == BitOf(x, s.i)
    ensures at < |samples|
    ensures Completes(s, ph, at, first) ==> Sampled(s, samples[at]).i == 8 && Sampled(s, samples[at]).byte == x
    ensures !Completes(s, ph, at, first) ==> Reading(Sampled(s, samples[at]), ph, at + 1, bits, x, first)
  {
    PhasedAt(samples, ph, bits, at);
    RizeStep(s, samples[at], bits, ph[at], x, first + s.i);
    if Completes(s, ph, at, first) {
      TopAll(x);
    } else {
      hide Holds, BitOf, Sampled, Phased, LevelInPhase;
    }
  }

  /** Before a low phase it leaves the slave reading it. */
  lemma ReadDrop(samples: seq<Level>, ph: seq<nat>, bits: seq<bool>, s: Slave, at: nat, x: bv8, first: nat)
    requires Phased(samples, ph, bits) && Reading(s, ph, at, bits, x, first) && !s.mode.ExpectSclkRize?
    requires bits[first + s.i] == BitOf(x, s.i)
    ensures at < |samples|
    ensures Reading(Sampled(s, samples[at]), ph, at + 1, bits, x, first)
  {
    PhasedAt(samples, ph, bits, at);
    hide Holds, BitOf, Sampled, Phased, LevelInPhase;
    DropStep(s, samples[at], bits, ph[at], first + s.i);
  }

  predicate Completes(s: Slave, ph: seq<nat>, at: nat, first: nat) {
    s.mode.ExpectSclkRize? && s.i == 7 && at < |ph| && ph[at] == 2 * (first + 7) + 1
  }

  /** One call reads the byte that is sent, and ends at the first sample in the high phase of its
      last bit. */
  lemma {:induction false} CallReads(samples: seq<Level>, ph: seq<nat>, bits: seq<bool>, s: Slave,
                                     at: nat, x: bv8, first: nat) returns (next: nat)
    requires Phased(samples, ph, bits) && Reading(s, ph, at, bits, x, first)
    requires forall i :: 0 <= i < 8 ==> bits[first + i] == BitOf(x, i)
    ensures SlaveRun(s, samples, at) == (Some(x), next)
    ensures at < next <= |ph| && ph[next - 1] == 2 * (first + 7) + 1
    decreases |samples| - at
  {
    hide Holds, BitOf, Sampled, LevelInPhase;
    if s.mode.ExpectSclkRize? {
      ReadRize(samples, ph, bits, s, at, x, first);
    } else {
      ReadDrop(samples, ph, bits, s, at, x, first);
    }
    if Completes(s, ph, at, first) {
      next := at + 1;
    } else {
      next := CallReads(samples, ph, bits, Sampled(s, samples[at]), at + 1, x, first);
    }
  }

  /** Eight bits for each byte. */
  predicate Carries(bits: seq<bool>, bytes: seq<bv8>) {
    && |bits| == 8 * |bytes|
    && forall j, i :: 0 <= j < |bytes| && 0 <= i < 8 ==> bits[8 * j + i] == BitOf(bytes[j], i)
  }

  lemma {:induction false} CallsRead(samples: seq<Level>, ph: seq<nat>, bits: seq<bool>, bytes: seq<bv8>,
                                     s: Slave, at: nat, j: nat) returns (end: nat)
    requires Phased(samples, ph, bits) && Carries(bits, bytes) && j <= |bytes| && Idle(s)
    requires at <= |ph| && (if at == 0 then j == 0 else j > 0 && ph[at - 1] + 1 == 16 * j && s == START)
    ensures Calls(s, samples, at, |bytes| - j) == (bytes[j..], if j < |bytes| then START else s, end)
    ensures end <= |ph| && (if end == 0 then bytes == [] else ph[end - 1] + 1 == 2 * |bits|)
    decreases |bytes| - j
  {
    end := at;
    if j < |bytes| {
      hide SlaveRun, LevelInPhase, BitOf, Top;
      StartReads(samples, ph, bits, s, at, bytes[j], 8 * j);
      var next := CallReads(samples, ph, bits, s, at, bytes[j], 8 * j);
      end := CallsRead(samples, ph, bits, bytes, START, next, j + 1);
      assert bytes[j..] == [bytes[j]] + bytes[j + 1..];
    }
  }

  /** Between bytes. */
  predicate Idle(s: Slave) { s.i == 0 && s.byte == 0 }

  lemma StartReads(samples: seq<Level>, ph: seq<nat>, bits: seq<bool>, s: Slave, at: nat, x: bv8, first: nat)
    requires Phased(samples, ph, bits) && first + 8 <= |bits| && at <= |ph| && Idle(s)
    requires if at == 0 then first == 0 else ph[at - 1] + 1 == 2 * first && s == START
    ensures Reading(s, ph, at, bits, x, first)
  {
    TopAll(x);
  }

  // ----- one transfer after another ---------------------------------------------------------

  /** A transfer as the slave sees it: samples of CE0 high before it, then samples of its wave. */
  datatype Transfer = Transfer(idle: seq<Level>, samples: seq<Level>, pos: seq<nat>, mosi0: bool, bytes: seq<bv8>)

  predicate TransferOk(t: Transfer) {
    && (forall k :: 0 <= k < |t.idle| ==> t.idle[k].ce0)
    && Sampling(t.samples, t.pos, t.mosi0, BitsOf(t.bytes))
  }

  function Stream(ts: seq<Transfer>): seq<Level> {
    if ts == [] then [] else ts[0].idle + ts[0].samples + Stream(ts[1..])
  }

  function Sent(ts: seq<Transfer>): seq<bv8> {
    if ts == [] then [] else ts[0].bytes + Sent(ts[1..])
  }

  /** The state after all samples from `at` on, for a call that does not end among them. */
  function Folded(s: Slave, samples: seq<Level>, at: nat): Slave
    decreases |samples| - at
  {
    if at >= |samples| then s else Folded(Sampled(s, samples[at]), samples, at + 1)
  }

  lemma {:induction false} RunShift(s: Slave, a: seq<Level>, b: seq<Level>, at: nat)
    ensures SlaveRun(s, a + b, |a| + at) == (SlaveRun(s, b, at).0, |a| + SlaveRun(s, b, at).1)
    decreases |b| - at
  {
    if at < |b| {
      hide Sampled;
      RunShift(Sampled(s, b[at]), a, b, at + 1);
    }
  }

  lemma {:induction false} RunPrefix(s: Slave, a: seq<Level>, b: seq<Level>, at: nat)
    requires at <= |a|
    ensures at <= SlaveRun(s, a, at).1 <= |a|
    ensures SlaveRun(s, a, at).0.Some? ==> SlaveRun(s, a + b, at) == SlaveRun(s, a, at)
    ensures SlaveRun(s, a, at).0.None? ==> SlaveRun(s, a + b, at) == SlaveRun(Folded(s, a, at), a + b, |a|)
    decreases |a| - at
  {
    if at < |a| {
      hide Sampled;
      RunPrefix(Sampled(s, a[at]), a, b, at + 1);
    }
  }

  lemma {:induction false} CallsPrefix(s: Slave, a: seq<Level>, b: seq<Level>, at: nat, n: nat)
    requires at <= |a| && |Calls(s, a, at, n).0| == n
    ensures Calls(s, a + b, at, n) == Calls(s, a, at, n) && at <= Calls(s, a, at, n).2 <= |a|
    decreases n
  {
    if n > 0 {
      hide SlaveRun;
      RunPrefix(s, a, b, at);
      CallsPrefix(START, a, b, SlaveRun(s, a, at).1, n - 1);
    }
  }

  lemma {:induction false} CallsShift(s: Slave, a: seq<Level>, b: seq<Level>, at: nat, n: nat)
    ensures Calls(s, a + b, |a| + at, n)
         == (Calls(s, b, at, n).0, Calls(s, b, at, n).1, |a| + Calls(s, b, at, n).2)
    decreases n
  {
    if n > 0 {
      hide SlaveRun;
      RunShift(s, a, b, at);
      CallsShift(START, a, b, SlaveRun(s, b, at).1, n - 1);
    }
  }

  lemma {:induction false} CallsMore(s: Slave, samples: seq<Level>, at: nat, n: nat, m: nat)
    requires |Calls(s, samples, at, n).0| == n
    ensures Calls(s, samples, at, n + m).0
         == Calls(s, samples, at, n).0
          + Calls(Calls(s, samples, at, n).1, samples, Calls(s, samples, at, n).2, m).0
    decreases n
  {
    if n > 0 {
      hide SlaveRun;
      CallsMore(START, samples, SlaveRun(s, samples, at).1, n - 1, m);
    }
  }

  /** CE0 high leaves a slave between bytes as it is. */
  lemma {:induction false} IdleStays(s: Slave, idle: seq<Level>, at: nat)
    requires Idle(s) && at <= |idle| && forall k :: 0 <= k < |idle| ==> idle[k].ce0
    ensures Folded(s, idle, at) == s && SlaveRun(s, idle, at) == (None, |idle|)
    decreases |idle| - at
  {
    if at < |idle| {
      IdleStays(s, idle, at + 1);
    }
  }

  /** Once CE0 low was sampled with SCLK low behind the last bit, SCLK stays low. */
  predicate TailOk(s: Slave, ph: seq<nat>, at: nat, bits: seq<bool>) {
    && Idle(s) && at <= |ph|
    && (forall k :: at <= k < |ph| ==> ph[k] + 1 >= 2 * |bits|)
    && (s.mode.ExpectSclkRize? ==> forall k :: at <= k < |ph| ==> ph[k] >= 2 * |bits|)
  }

  /** Behind its last bit a transfer gives the next call nothing to read. */
  lemma {:induction false} TailIsQuiet(samples: seq<Level>, pos: seq<nat>, mosi0: bool, bits: seq<bool>,
                                       s: Slave, at: nat)
    requires Sampling(samples, pos, mosi0, bits) && TailOk(s, PhasesOf(pos), at, bits)
    ensures Idle(Folded(s, samples, at)) && SlaveRun(s, samples, at) == (None, |samples|)
    decreases |samples| - at
  {
    if at < |samples| {
      TailStep(samples, pos, mosi0, bits, s, at);
      hide Sampled, Sampling, TailOk;
      TailIsQuiet(samples, pos, mosi0, bits, Sampled(s, samples[at]), at + 1);
    }
  }

  lemma TailStep(samples: seq<Level>, pos: seq<nat>, mosi0: bool, bits: seq<bool>, s: Slave, at: nat)
    requires Sampling(samples, pos, mosi0, bits) && TailOk(s, PhasesOf(pos), at, bits) && at < |samples|
    ensures TailOk(Sampled(s, samples[at]), PhasesOf(pos), at + 1, bits)
  {
    var p := pos[at];
    TailLevel(mosi0, bits, p);
    forall k | at + 1 <= k < |pos| ensures PhaseOf(pos[k]) >= PhaseOf(p) {
      PhaseMonotone(p, pos[k]);
    }
    hide LevelAt, PhaseOf, Weight;
  }

  lemma TailLevel(mosi0: bool, bits: seq<bool>, p: nat)
    requires p < 3 * |bits| + 2
    ensures PhaseOf(p) >= 2 * |bits| ==> !LevelAt(mosi0, bits, p).sclk
    ensures PhaseOf(p) + 1 == 2 * |bits| ==> LevelAt(mosi0, bits, p).sclk && !LevelAt(mosi0, bits, p).ce0
  {
    var t, r := p / 3, p % 3;
    assert p == 3 * t + r;
  }

  /** One transfer, from any state between bytes: its bytes are returned, and the next call is then
      in a state between bytes again. */
  lemma OneTransfer(s: Slave, t: Transfer) returns (s1: Slave, end: nat)
    requires Idle(s) && TransferOk(t)
    ensures Calls(s, t.samples, 0, |t.bytes|) == (t.bytes, s1, end) && Idle(s1) && end <= |t.samples|
    ensures Idle(Folded(s1, t.samples, end)) && SlaveRun(s1, t.samples, end) == (None, |t.samples|)
  {
    hide Sampling, Phased, Calls, SlaveRun, Folded, BitOf, PhaseOf, TailOk;
    var bits, ph := BitsOf(t.bytes), PhasesOf(t.pos);
    SamplingLength(t.samples, t.pos, t.mosi0, bits);
    SamplingIsPhased(t.samples, t.pos, t.mosi0, bits);
    forall j, i | 0 <= j < |t.bytes| && 0 <= i < 8 ensures bits[8 * j + i] == BitOf(t.bytes[j], i) {
      BitSent(t.bytes, j, i);
    }
    end := CallsRead(t.samples, ph, bits, t.bytes, s, 0, 0);
    assert t.bytes[0..] == t.bytes;
    s1 := Calls(s, t.samples, 0, |t.bytes|).1;
    TailBegins(t.samples, t.pos, t.mosi0, bits, s1, end);
    TailIsQuiet(t.samples, t.pos, t.mosi0, bits, s1, end);
  }

  lemma SamplingLength(samples: seq<Level>, pos: seq<nat>, mosi0: bool, bits: seq<bool>)
    requires Sampling(samples, pos, mosi0, bits)
    ensures |samples| == |pos|
  {}

  lemma TailBegins(samples: seq<Level>, pos: seq<nat>, mosi0: bool, bits: seq<bool>, s: Slave, at: nat)
    requires Sampling(samples, pos, mosi0, bits) && Idle(s) && at <= |pos|
    requires if at == 0 then bits == [] else s == START && PhasesOf(pos)[at - 1] + 1 == 2 * |bits|
    ensures TailOk(s, PhasesOf(pos), at, bits)
  {
    forall k | at <= k < |pos| ensures PhasesOf(pos)[k] + 1 >= 2 * |bits| {
      if at > 0 {
        PhaseMonotone(pos[at - 1], pos[k]);
      }
    }
  }

  /** Any number of transfers in a row, with any number of samples between them and any stuttering
      in each clock phase: the calls return exactly the strings that were sent. */
  lemma {:induction false} TransfersArrive(s: Slave, ts: seq<Transfer>)
    requires Idle(s) && forall k :: 0 <= k < |ts| ==> TransferOk(ts[k])
    ensures Calls(s, Stream(ts), 0, |Sent(ts)|).0 == Sent(ts)
    decreases |ts|
  {
    if ts != [] {
      hide Calls, SlaveRun, Folded, TransferOk, Stream, Sent;
      StreamOf(ts);
      var s1 := ThenRest(s, ts[0], Stream(ts[1..]), |Sent(ts[1..])|);
      TransfersArrive(s1, ts[1..]);
    }
  }

  /** One transfer, and the calls for what follows it. */
  lemma ThenRest(s: Slave, t: Transfer, rest: seq<Level>, m: nat) returns (s2: Slave)
    requires Idle(s) && TransferOk(t)
    ensures Idle(s2)
    ensures Calls(s, t.idle + (t.samples + rest), 0, |t.bytes| + m).0 == t.bytes + Calls(s2, rest, 0, m).0
  {
    hide Calls, SlaveRun, Folded, TransferOk;
    TransferIdle(t);
    var s1, end := OneTransfer(s, t);
    s2 := Folded(s1, t.samples, end);
    AfterTransfer(s, t, rest, s1, end, m);
    IdleBefore(s, t.idle, t.samples + rest, |t.bytes| + m);
  }

  lemma StreamOf(ts: seq<Transfer>)
    requires ts != []
    ensures Stream(ts) == ts[0].idle + (ts[0].samples + Stream(ts[1..]))
    ensures Sent(ts) == ts[0].bytes + Sent(ts[1..])
  {}

  lemma TransferIdle(t: Transfer)
    requires TransferOk(t)
    ensures forall k :: 0 <= k < |t.idle| ==> t.idle[k].ce0
  {}

  /** The calls behind a transfer go on with what follows it. */
  lemma AfterTransfer(s: Slave, t: Transfer, rest: seq<Level>, s1: Slave, end: nat, m: nat)
    requires Calls(s, t.samples, 0, |t.bytes|) == (t.bytes, s1, end) && end <= |t.samples|
    requires SlaveRun(s1, t.samples, end) == (None, |t.samples|)
    ensures Calls(s, t.samples + rest, 0, |t.bytes| + m).0
         == t.bytes + Calls(Folded(s1, t.samples, end), rest, 0, m).0
  {
    hide SlaveRun, Folded;
    var all, s2 := t.samples + rest, Folded(s1, t.samples, end);
    CallsPrefix(s, t.samples, rest, 0, |t.bytes|);
    CallsMore(s, all, 0, |t.bytes|, m);
    RunPrefix(s1, t.samples, rest, end);
    CallsShift(s2, t.samples, rest, 0, m);
    if m > 0 {
      SameCall(s1, all, end, s2, |t.samples|, m);
    }
  }

  /** Two calls that run alike are followed by the same calls. */
  lemma SameCall(s: Slave, samples: seq<Level>, at: nat, s2: Slave, at2: nat, m: nat)
    requires m > 0 && SlaveRun(s, samples, at) == SlaveRun(s2, samples, at2)
    ensures Calls(s, samples, at, m).0 == Calls(s2, samples, at2, m).0
  {}

  lemma IdleBefore(s: Slave, idle: seq<Level>, samples: seq<Level>, n: nat)
    requires Idle(s) && forall k :: 0 <= k < |idle| ==> idle[k].ce0
    ensures Calls(s, idle + samples, 0, n).0 == Calls(s, samples, 0, n).0
  {
    hide SlaveRun, Folded;
    IdleStays(s, idle, 0);
    RunPrefix(s, idle, samples, 0);
    CallsShift(s, idle, samples, 0, n);
    if n > 0 {
      SameCall(s, idle + samples, 0, s, |idle|, n);
    }
  }

  /** Whatever string the master sends, however long the slave was polling before with CE0 high, and
      however often it looks in each clock phase, its calls return exactly that string. */
  lemma TransferArrives(idle: seq<Level>, samples: seq<Level>, pos: seq<nat>, mosi0: bool, bytes: seq<bv8>)
    requires forall k :: 0 <= k < |idle| ==> idle[k].ce0
    requires Sampling(samples, pos, mosi0, BitsOf(bytes))
    ensures Received(idle + samples, 0, |bytes|) == bytes
  {
    var ts := [Transfer(idle, samples, pos, mosi0, bytes)];
    TransfersArrive(START, ts);
    assert ts[1..] == [];
    assert Sent(ts) == bytes + Sent([]) == bytes && Stream(ts) == idle + samples + Stream([]) == idle + samples;
  }

  // ----- what a returned byte is made of ----------------------------------------------------

  /** Sample e is a rising edge as the slave sees it: SCLK is high, and was low at the last sample
      before it that had CE0 low. */
  predicate RisingEdge(samples: seq<Level>, e: nat) {
    && e < |samples| && !samples[e].ce0 && samples[e].sclk
    && exists d :: 0 <= d < e && LowBefore(samples, d, e)
  }

  predicate LowBefore(samples: seq<Level>, d: nat, e: nat)
    requires d < e <= |samples|
  {
    !samples[d].ce0 && !samples[d].sclk && forall k :: d < k < e ==> samples[k].ce0
  }

  /** The i edges read so far: rising, in order, with no sample of CE0 high from the first to the
      present one, and with the bits of the byte. */
  predicate Edges(samples: seq<Level>, edges: seq<nat>, at: nat, byte: bv8) {
    && |edges| <= 8 && at <= |samples|
    && (forall j :: 0 <= j < |edges| ==> edges[j] < at && RisingEdge(samples, edges[j]))
    && (forall j, l :: 0 <= j < l < |edges| ==> edges[j] < edges[l])
    && (edges != [] ==> forall k :: edges[0] <= k < at ==> !samples[k].ce0)
    && byte == Gathered(samples, edges)
  }

  function Gathered(samples: seq<Level>, edges: seq<nat>): bv8 {
    if edges == [] then 0
    else
      var n := |edges| - 1;
      Gathered(samples, edges[..n])
      | (if edges[n] < |samples| && samples[edges[n]].mosi then Weight(n) else 0)
  }

  /** The last sample with CE0 low, if it is known to be one, had SCLK low. */
  predicate LowLast(samples: seq<Level>, at: nat) {
    exists d :: 0 <= d < at <= |samples| && LowBefore(samples, d, at)
  }

  predicate SlaveOk(s: Slave, samples: seq<Level>, edges: seq<nat>, at: nat) {
    && s.i == |edges| < 8 && Edges(samples, edges, at, s.byte)
    && (s.mode.ExpectSclkRize? ==> LowLast(samples, at))
  }

  lemma LowStays(samples: seq<Level>, at: nat)
    requires at < |samples|
    ensures samples[at].ce0 && LowLast(samples, at) ==> LowLast(samples, at + 1)
    ensures !samples[at].ce0 && !samples[at].sclk ==> LowLast(samples, at + 1)
    ensures LowLast(samples, at) && !samples[at].ce0 && samples[at].sclk ==> RisingEdge(samples, at)
  {
    if LowLast(samples, at) && samples[at].ce0 {
      var d :| 0 <= d < at && LowBefore(samples, d, at);
      assert LowBefore(samples, d, at + 1);
    }
    if !samples[at].ce0 && !samples[at].sclk {
      assert LowBefore(samples, at, at + 1);
    }
  }

  /** The edges read after the sample: none if CE0 was high, one more at an edge. */
  function EdgesAfter(s: Slave, level: Level, edges: seq<nat>, at: nat): seq<nat> {
    if level.ce0 then [] else if s.mode.ExpectSclkRize? && level.sclk then edges + [at] else edges
  }

  lemma GatheredMore(samples: seq<Level>, edges: seq<nat>, at: nat)
    requires at < |samples|
    ensures Gathered(samples, edges + [at])
         == Gathered(samples, edges) | (if samples[at].mosi then Weight(|edges|) else 0)
  {
    assert (edges + [at])[..|edges|] == edges;
  }

  /** The edges stay those of the byte, and one more rising edge is one more. */
  lemma EdgesGrow(samples: seq<Level>, edges: seq<nat>, at: nat, byte: bv8)
    requires Edges(samples, edges, at, byte) && at < |samples| && !samples[at].ce0
    ensures Edges(samples, edges, at + 1, byte)
    ensures RisingEdge(samples, at) && |edges| < 8 ==>
      Edges(samples, edges + [at], at + 1, byte | (if samples[at].mosi then Weight(|edges|) else 0))
  {
    hide RisingEdge, Weight;
    GatheredMore(samples, edges, at);
  }

  lemma EdgesStep(s: Slave, samples: seq<Level>, at: nat, edges: seq<nat>)
    requires SlaveOk(s, samples, edges, at) && at < |samples|
    ensures Sampled(s, samples[at]).i == |EdgesAfter(s, samples[at], edges, at)|
    ensures Edges(samples, EdgesAfter(s, samples[at], edges, at), at + 1, Sampled(s, samples[at]).byte)
  {
    hide Weight, LowLast, RisingEdge;
    LowStays(samples, at);
    if !samples[at].ce0 {
      EdgesGrow(samples, edges, at, s.byte);
      hide Edges;
    }
  }

  /** A byte that a call returns comes from eight rising edges, and CE0 was never sampled high from
      the first of them to the last; this holds of any samples whatever. */
  lemma {:induction false} ByteHasEdges(s: Slave, samples: seq<Level>, at: nat, edges: seq<nat>) returns (all: seq<nat>)
    requires SlaveOk(s, samples, edges, at)
    ensures SlaveRun(s, samples, at).0.Some? ==>
      |all| == 8 && Edges(samples, all, SlaveRun(s, samples, at).1, SlaveRun(s, samples, at).0.value)
    decreases |samples| - at
  {
    all := [];
    if at < |samples| {
      hide Edges, LowLast, Weight;
      var s1 := Sampled(s, samples[at]);
      var more := EdgesAfter(s, samples[at], edges, at);
      EdgesStep(s, samples, at, edges);
      LowStays(samples, at);
      if s1.i == 8 {
        all := more;
      } else {
        all := ByteHasEdges(s1, samples, at + 1, more);
      }
    }
  }

  /** The same for a call from its start. */
  lemma CallHasEdges(samples: seq<Level>, at: nat) returns (edges: seq<nat>)
    requires at <= |samples|
    ensures SlaveRun(START, samples, at).0.Some? ==>
      |edges| == 8 && Edges(samples, edges, SlaveRun(START, samples, at).1, SlaveRun(START, samples, at).0.value)
  {
    edges := ByteHasEdges(START, samples, at, []);
  }
}
