/**
 * The local rules of `OscillatorBlock` (src/blocks/oscillator.rs): its default, its
 * setters, the phase advance with its two wrap loops, and the waveform shapes. How the
 * frequency is read from the source graph is in module Signal.
 */
module Oscillators {
  import opened Blocks

  /** `crate::SAMPLE_RATE` (src/main.rs), in samples per second. */
  const SAMPLE_RATE: real := 44100.0

  /** `impl Default for OscillatorBlock`: an owned constant 440 Hz, phase 0, a sine. */
  function Default(): (b: Block)
    ensures b.OscillatorBlock? && b.phase == 0.0 && b.wave == Sinus
    ensures b.freqSource == Anonymous(ConstantBlock(440.0))
  {
    OscillatorBlock(Anonymous(ConstantBlock(440.0)), 0.0, Sinus)
  }

  /** `update_frequency`: replaces the frequency source and nothing else. */
  function UpdateFrequency(b: Block, f: Source): (r: Block)
    requires b.OscillatorBlock?
    ensures r.OscillatorBlock? && r.freqSource == f && r.phase == b.phase && r.wave == b.wave
  {
    b.(freqSource := f)
  }

  /** `update_waveform`: replaces the waveform and nothing else. */
  function UpdateWaveform(b: Block, w: Waveform): (r: Block)
    requires b.OscillatorBlock?
    ensures r.OscillatorBlock? && r.wave == w && r.freqSource == b.freqSource && r.phase == b.phase
  {
    b.(wave := w)
  }

  /** The first wrap loop: subtract 1 while the phase is above 1. */
  function WrapDown(p: real): real
    decreases if p > 1.0 then p.Floor else 0
  {
    if p > 1.0 then WrapDown(p - 1.0) else p
  }

  /** The second wrap loop: add 1 while the phase is below 0. */
  function WrapUp(p: real): real
    decreases if p < 0.0 then -p.Floor else 0
  {
    if p < 0.0 then WrapUp(p + 1.0) else p
  }

  /** The phase after both wrap loops. */
  function Wrapped(p: real): real
  {
    WrapUp(WrapDown(p))
  }

  /** `x` is a whole number. */
  predicate IsWhole(x: real)
  {
    x.Floor as real == x
  }

  /** `WrapDown` lands at or below 1 and moves `p` by a whole number of turns. */
  lemma {:induction false} WrapDownSpec(p: real)
    ensures WrapDown(p) <= 1.0
    ensures p > 1.0 ==> 0.0 < WrapDown(p)
    ensures p <= 1.0 ==> WrapDown(p) == p
    ensures WrapDown(p) <= p && IsWhole(p - WrapDown(p))
    decreases if p > 1.0 then p.Floor else 0
  {
    if p > 1.0 {
      WrapDownSpec(p - 1.0);
      var k := (p - 1.0 - WrapDown(p - 1.0)).Floor;
      assert p - WrapDown(p) == (k + 1) as real;
    }
  }

  /** `WrapUp` lands at or above 0, below 1 if it moved, and moves `p` by whole turns. */
  lemma {:induction false} WrapUpSpec(p: real)
    ensures 0.0 <= WrapUp(p)
    ensures p < 0.0 ==> WrapUp(p) < 1.0
    ensures p >= 0.0 ==> WrapUp(p) == p
    ensures p <= WrapUp(p) && IsWhole(WrapUp(p) - p)
    decreases if p < 0.0 then -p.Floor else 0
  {
    if p < 0.0 {
      WrapUpSpec(p + 1.0);
      var k := (WrapUp(p + 1.0) - (p + 1.0)).Floor;
      assert WrapUp(p) - p == (k + 1) as real;
    }
  }

  /**
   * After the wrap loops the phase lies in [0, 1] (1 itself is kept, both tests are
   * strict), it differs from the unwrapped phase by a whole number, and a phase already
   * in [0, 1] is left alone.
   */
  lemma WrappedSpec(p: real)
    ensures 0.0 <= Wrapped(p) <= 1.0
    ensures IsWhole(Wrapped(p) - p)
    ensures 0.0 <= p <= 1.0 ==> Wrapped(p) == p
  {
    var q := WrapDown(p);
    var w := WrapUp(q);
    WrapDownSpec(p);
    WrapUpSpec(q);
    var i := (p - q).Floor;
    var j := (w - q).Floor;
    assert p - q == i as real && w - q == j as real;
    assert w - p == (j - i) as real;
    assert ((j - i) as real).Floor == j - i;
  }

  /** The two wrap loops of `step`, run on the phase; they compute `Wrapped`. */
  method WrapPhase(p: real) returns (q: real)
    ensures q == Wrapped(p)
  {
    q := p;
    while q > 1.0
      invariant WrapDown(q) == WrapDown(p)
      decreases q.Floor
    {
      q := q - 1.0;
    }
    while q < 0.0
      invariant WrapUp(q) == WrapUp(WrapDown(p))
      decreases -q.Floor
    {
      q := q + 1.0;
    }
  }

  /** `f32::trunc`: the integer part, rounded toward zero. */
  function Trunc(x: real): int
  {
    if x >= 0.0 then x.Floor else -((-x).Floor)
  }

  /** `phase.fract().abs()`: the distance from `x` to its integer part. */
  function Fract(x: real): (r: real)
    ensures 0.0 <= r < 1.0
    ensures x >= 0.0 ==> x - r == x.Floor as real
    ensures x < 0.0 ==> x + r == Trunc(x) as real
  {
    var f := x - Trunc(x) as real;
    if f < 0.0 then -f else f
  }

  /** The phase at which the waveforms are read, modulo whole turns. */
  lemma FractOfPhase(p: real)
    requires 0.0 <= p <= 1.0
    ensures Fract(p) == if p == 1.0 then 0.0 else p
  {
  }

  /** `get_mono` of an oscillator: the waveform read at `phase`; `sine` is `f32::sin`. */
  function WaveOutput(sine: real -> real, wave: Waveform, phase: real): real
  {
    var fract := Fract(phase);
    match wave
    case Sinus => sine(phase * 2.0 * PI)
    case Sawtooth => 1.0 - fract
    case Square => if fract < 0.5 then 1.0 else 0.0
    case Triangle => if fract < 0.5 then 2.0 * fract else 1.0 - 2.0 * fract
  }

  /** `std::f32::consts::PI`, to the precision of an `f32`. */
  const PI: real := 3.14159265

  /**
   * The shapes of the non-sine waveforms over a turn: the sawtooth falls from 1, the square
   * is 1 for the first half turn and 0 after, and the triangle rises to 1 at the half turn
   * and then restarts from 0 down to -1.
   */
  lemma WaveShapes(sine: real -> real, phase: real)
    ensures 0.0 < WaveOutput(sine, Sawtooth, phase) <= 1.0
    ensures WaveOutput(sine, Sawtooth, phase) == 1.0 - Fract(phase)
    ensures WaveOutput(sine, Square, phase) == 1.0 <==> Fract(phase) < 0.5
    ensures WaveOutput(sine, Square, phase) == 0.0 <==> Fract(phase) >= 0.5
    ensures Fract(phase) < 0.5 ==> 0.0 <= WaveOutput(sine, Triangle, phase) < 1.0
    ensures Fract(phase) >= 0.5 ==> -1.0 < WaveOutput(sine, Triangle, phase) <= 0.0
    ensures WaveOutput(sine, Sinus, phase) == sine(2.0 * PI * phase)
  {
  }

  /** The waveforms repeat every whole turn of the phase (the sine if `sine` has period 2·PI). */
  lemma WavePeriodic(sine: real -> real, wave: Waveform, phase: real)
    requires 0.0 <= phase < 1.0
    requires forall x :: sine(x + 2.0 * PI) == sine(x)
    ensures WaveOutput(sine, wave, phase + 1.0) == WaveOutput(sine, wave, phase)
  {
    assert Fract(phase + 1.0) == phase && Fract(phase) == phase;
    assert (phase + 1.0) * 2.0 * PI == phase * 2.0 * PI + 2.0 * PI;
  }

  /**
   * The phase after one `step` when the stepped frequency source reads `freq`: the advance
   * by `freq / SAMPLE_RATE`, then the wrap loops.
   */
  function Advanced(phase: real, freq: real): (r: real)
    ensures 0.0 <= r <= 1.0
  {
    WrappedSpec(phase + freq / SAMPLE_RATE);
    Wrapped(phase + freq / SAMPLE_RATE)
  }

  /** One step moves the phase by `freq / SAMPLE_RATE` turns, modulo whole turns. */
  lemma AdvancedMovesByFrequency(phase: real, freq: real)
    ensures IsWhole(Advanced(phase, freq) - (phase + freq / SAMPLE_RATE))
    ensures 0.0 <= phase + freq / SAMPLE_RATE <= 1.0 ==> Advanced(phase, freq) == phase + freq / SAMPLE_RATE
  {
    WrappedSpec(phase + freq / SAMPLE_RATE);
  }
}
