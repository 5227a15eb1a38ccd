/**
 * Reading and stepping blocks (the `get_mono`/`get_left`/`get_right` and `step` of every
 * block, and `SignalSource::{step, get_mono, get_left, get_right}` of src/blocks/mod.rs).
 *
 * A block is read inside an arena `cells`; a Named source reads the cell it refers to. The
 * `bound` argument is the handle of the top-level cell being read (or any handle above the
 * cells `b` refers to): it decreases at each Named hop, which is why the recursion ends.
 */
module Signal {
  import opened Notes
  import opened Blocks
  import Oscillators
  import Amplifiers
  import Stereos
  import Sequencers

  /**
   * The value a block yields on a channel. Constant, Oscillator and Sequencer use the trait
   * default for left and right (their mono value); the Amplifier sums the products of its
   * pairs on the same channel; the Stereo block pans its left source by its shift.
   * A constant yields its value, an oscillator other than the sine stays within [-1, 1],
   * and a sequencer yields silence or the frequency of one of its own notes.
   */
  function Out(sine: real -> real, cells: map<Handle, Block>, b: Block, bound: Handle, ch: Channel): (x: real)
    requires Readable(cells, b, bound, ch)
    ensures b.ConstantBlock? ==> x == b.val
    ensures b.OscillatorBlock? && b.wave != Sinus ==> -1.0 <= x <= 1.0
    ensures b.SequencerBlock? ==> x == 0.0 || exists i :: 0 <= i < |b.sequence| && x == b.sequence[i].freq
    decreases bound, b, 1
  {
    match b
    case ConstantBlock(v) => v
    case OscillatorBlock(_, phase, wave) =>
      Oscillators.WaveShapes(sine, phase);
      Oscillators.WaveOutput(sine, wave, phase)
    case AmplifierBlock(ps) => Amplifiers.Sum(Products(sine, cells, b, bound, ch, |ps|))
    case StereoBlock(l, r, s) =>
      (match ch
       case Mono => Stereos.MonoMix(SourceOut(sine, cells, l, bound, Mono), SourceOut(sine, cells, r, bound, Mono))
       case Left => SourceOut(sine, cells, l, bound, Left) * (1.0 - Stereos.RightShare(SourceOut(sine, cells, s, bound, Mono)))
       case Right => SourceOut(sine, cells, l, bound, Right) * Stereos.RightShare(SourceOut(sine, cells, s, bound, Mono)))
    case SequencerBlock(notes, _, spacing, progress) =>
      var sp := SourceOut(sine, cells, spacing, bound, Mono);
      Sequencers.OutputIsNoteOrSilence(notes, progress, sp);
      Sequencers.Output(notes, progress, sp)
  }

  /** The products signal times gain of an amplifier's first `n` pairs, read on one channel. */
  function Products(sine: real -> real, cells: map<Handle, Block>, b: Block, bound: Handle, ch: Channel, n: nat): (xs: seq<real>)
    requires Readable(cells, b, bound, ch) && b.AmplifierBlock? && n <= |b.sources|
    ensures |xs| == n
    decreases bound, b, 0, n
  {
    if n == 0 then []
    else
      Products(sine, cells, b, bound, ch, n - 1) + [PairOut(sine, cells, b.sources[n - 1], bound, ch)]
  }

  /** One pair's product, its signal times its gain. */
  function PairOut(sine: real -> real, cells: map<Handle, Block>, p: Input, bound: Handle, ch: Channel): real
    requires SourceReadable(cells, p.signal, bound, ch) && SourceReadable(cells, p.gain, bound, ch)
    decreases bound, p, 3
  {
    SourceOut(sine, cells, p.signal, bound, ch) * SourceOut(sine, cells, p.gain, bound, ch)
  }

  /**
   * `SignalSource::get_*`: the same accessor on the source's `inner()` block, the owned
   * block or the cell a Named source refers to: a constant there yields its value and an
   * oscillator other than the sine stays within [-1, 1].
   */
  function SourceOut(sine: real -> real, cells: map<Handle, Block>, s: Source, bound: Handle, ch: Channel): (x: real)
    requires SourceReadable(cells, s, bound, ch)
    ensures s.Named? ==> s.handle in cells
    ensures Inner(cells, s).ConstantBlock? ==> x == Inner(cells, s).val
    ensures Inner(cells, s).OscillatorBlock? && Inner(cells, s).wave != Sinus ==> -1.0 <= x <= 1.0
    decreases bound, s, 2
  {
    match s
    case Anonymous(b) => Out(sine, cells, b, bound, ch)
    case Named(h) => Out(sine, cells, cells[h], h, ch)
  }

  /**
   * The value of the top-level cell `h`: a constant cell yields its value, and a sequencer
   * cell silence or the frequency of one of its notes.
   */
  function CellOut(sine: real -> real, cells: map<Handle, Block>, h: Handle, ch: Channel): (x: real)
    requires CellReadable(cells, h, ch)
    ensures cells[h].ConstantBlock? ==> x == cells[h].val
    ensures cells[h].SequencerBlock? ==> x == 0.0 || exists i :: 0 <= i < |cells[h].sequence| && x == cells[h].sequence[i].freq
  {
    Out(sine, cells, cells[h], h, ch)
  }

  /**
   * The block after its `step`. An oscillator first steps its frequency source and then
   * reads it; a sequencer reads its tempo source without stepping it (nor its spacing).
   * Only the block itself changes: stepping never writes to the arena, because Named
   * sources are not stepped.
   */
  function Stepped(sine: real -> real, cells: map<Handle, Block>, b: Block, bound: Handle): (r: Block)
    requires Steppable(cells, b, bound)
    ensures Skeleton(r) == Skeleton(b)
    decreases b
  {
    match b
    case ConstantBlock(_) => b
    case OscillatorBlock(f, phase, wave) =>
      var f' := SteppedSource(sine, cells, f, bound);
      SourceSkeletonReadable(cells, f, bound, Mono);
      SourceSkeletonReadable(cells, f', bound, Mono);
      OscillatorBlock(f', Oscillators.Advanced(phase, SourceOut(sine, cells, f', bound, Mono)), wave)
    case AmplifierBlock(ps) =>
      var qs := seq(|ps|, i requires 0 <= i < |ps| =>
        Input(SteppedSource(sine, cells, ps[i].signal, bound), SteppedSource(sine, cells, ps[i].gain, bound)));
      assert Skeleton(AmplifierBlock(qs)).sources == Skeleton(b).sources;
      AmplifierBlock(qs)
    case StereoBlock(l, r, s) =>
      StereoBlock(SteppedSource(sine, cells, l, bound), SteppedSource(sine, cells, r, bound), SteppedSource(sine, cells, s, bound))
    case SequencerBlock(notes, bpm, spacing, progress) =>
      SequencerBlock(notes, bpm, spacing, Sequencers.Advanced(progress, SourceOut(sine, cells, bpm, bound, Mono), |notes|))
  }

  /** `SignalSource::step`: an owned block is stepped, a Named reference is left alone. */
  function SteppedSource(sine: real -> real, cells: map<Handle, Block>, s: Source, bound: Handle): (r: Source)
    requires SourceSteppable(cells, s, bound)
    ensures SourceSkeleton(r) == SourceSkeleton(s)
    decreases s
  {
    match s
    case Anonymous(b) =>
      Anonymous(Stepped(sine, cells, b, bound))
    case Named(_) => s
  }

  /** The arena after cell `h` is stepped in place. */
  function StepCell(sine: real -> real, cells: map<Handle, Block>, h: Handle): (r: map<Handle, Block>)
    requires Acyclic(cells) && h in cells && Steppable(cells, cells[h], h)
    ensures SameSkeletons(cells, r) && Acyclic(r)
    ensures forall k :: k in cells && Steppable(cells, cells[k], k) ==> Steppable(r, r[k], k)
    ensures forall k, ch :: CellReadable(cells, k, ch) ==> CellReadable(r, k, ch)
    ensures forall k :: k in cells && k != h ==> r[k] == cells[k]
  {
    var r := cells[h := Stepped(sine, cells, cells[h], h)];
    SameSkeletonsKeepInvariants(cells, r);
    SameSkeletonsSteppable(cells, r);
    r
  }

  /** The `step` of a block, with the pair loop of the amplifier; it computes `Stepped`. */
  method Step(sine: real -> real, cells: map<Handle, Block>, b: Block, bound: Handle) returns (r: Block)
    requires Steppable(cells, b, bound)
    ensures r == Stepped(sine, cells, b, bound)
    decreases b
  {
    match b {
      case ConstantBlock(_) =>
        r := b;
      case OscillatorBlock(f, phase, wave) =>
        var f' := StepSource(sine, cells, f, bound);
        SourceSkeletonReadable(cells, f, bound, Mono);
        SourceSkeletonReadable(cells, f', bound, Mono);
        var freq := SourceOut(sine, cells, f', bound, Mono);
        var p := Oscillators.WrapPhase(phase + freq / Oscillators.SAMPLE_RATE);
        r := OscillatorBlock(f', p, wave);
      case AmplifierBlock(ps) =>
        var qs: seq<Input> := [];
        for i := 0 to |ps|
          invariant |qs| == i
          invariant forall k :: 0 <= k < i ==> qs[k] == Stepped(sine, cells, b, bound).sources[k]
        {
          var signal := StepSource(sine, cells, ps[i].signal, bound);
          var gain := StepSource(sine, cells, ps[i].gain, bound);
          qs := qs + [Input(signal, gain)];
        }
        r := AmplifierBlock(qs);
      case StereoBlock(left, right, shift) =>
        var left' := StepSource(sine, cells, left, bound);
        var right' := StepSource(sine, cells, right, bound);
        var shift' := StepSource(sine, cells, shift, bound);
        r := StereoBlock(left', right', shift');
      case SequencerBlock(notes, bpm, spacing, progress) =>
        var beats := SourceOut(sine, cells, bpm, bound, Mono) / (Oscillators.SAMPLE_RATE * 60.0);
        var p := progress + beats;
        if p > |notes| as real {
          p := p - |notes| as real;
        }
        r := SequencerBlock(notes, bpm, spacing, p);
    }
  }

  /** `SignalSource::step` on a source; it computes `SteppedSource`. */
  method StepSource(sine: real -> real, cells: map<Handle, Block>, s: Source, bound: Handle) returns (r: Source)
    requires SourceSteppable(cells, s, bound)
    ensures r == SteppedSource(sine, cells, s, bound)
    decreases s
  {
    match s {
      case Anonymous(b) =>
        var b' := Step(sine, cells, b, bound);
        r := Anonymous(b');
      case Named(_) =>
        r := s;
    }
  }

  /** A Named source is inert under `step`: its target is stepped only through the registry. */
  lemma NamedSourceInert(sine: real -> real, cells: map<Handle, Block>, h: Handle, bound: Handle, ch: Channel)
    requires h < bound && CellReadable(cells, h, ch)
    ensures SourceReadable(cells, Named(h), bound, ch)
    ensures SteppedSource(sine, cells, Named(h), bound) == Named(h)
    ensures SourceOut(sine, cells, Named(h), bound, ch) == CellOut(sine, cells, h, ch)
  {
  }

  /** The trait defaults: a block without its own `get_left`/`get_right` yields its mono value there. */
  lemma DefaultChannels(sine: real -> real, cells: map<Handle, Block>, b: Block, bound: Handle)
    requires Readable(cells, b, bound, Mono)
    requires b.ConstantBlock? || b.OscillatorBlock? || b.SequencerBlock?
    ensures Readable(cells, b, bound, Left) && Readable(cells, b, bound, Right)
    ensures Out(sine, cells, b, bound, Left) == Out(sine, cells, b, bound, Mono)
    ensures Out(sine, cells, b, bound, Right) == Out(sine, cells, b, bound, Mono)
  {
  }

  /** A constant yields its value on every channel and `step` leaves it as it is. */
  lemma ConstantBehaviour(sine: real -> real, cells: map<Handle, Block>, v: real, bound: Handle, ch: Channel)
    ensures Readable(cells, ConstantBlock(v), bound, ch) && Steppable(cells, ConstantBlock(v), bound)
    ensures Out(sine, cells, ConstantBlock(v), bound, ch) == v
    ensures Stepped(sine, cells, ConstantBlock(v), bound) == ConstantBlock(v)
    ensures SourceOut(sine, cells, DefaultSource(), bound, ch) == 0.0
  {
  }

  /** Product `i` of an amplifier is its pair `i`'s signal times its gain. */
  lemma {:induction false} ProductAt(sine: real -> real, cells: map<Handle, Block>, b: Block, bound: Handle, ch: Channel, n: nat, i: nat)
    requires Readable(cells, b, bound, ch) && b.AmplifierBlock? && i < n <= |b.sources|
    ensures SourceReadable(cells, b.sources[i].signal, bound, ch) && SourceReadable(cells, b.sources[i].gain, bound, ch)
    ensures Products(sine, cells, b, bound, ch, n)[i] == PairOut(sine, cells, b.sources[i], bound, ch)
    decreases n
  {
    if i < n - 1 {
      ProductAt(sine, cells, b, bound, ch, n - 1, i);
    }
  }

  /** Two amplifiers whose first `n` pairs agree have the same first `n` products. */
  lemma {:induction false} ProductsAgree(sine: real -> real, cells: map<Handle, Block>, b: Block, c: Block, bound: Handle, ch: Channel, n: nat)
    requires Readable(cells, b, bound, ch) && b.AmplifierBlock? && n <= |b.sources|
    requires Readable(cells, c, bound, ch) && c.AmplifierBlock? && n <= |c.sources|
    requires b.sources[..n] == c.sources[..n]
    ensures Products(sine, cells, b, bound, ch, n) == Products(sine, cells, c, bound, ch, n)
    decreases n
  {
    if n > 0 {
      assert b.sources[..n - 1] == b.sources[..n][..n - 1];
      assert c.sources[..n - 1] == c.sources[..n][..n - 1];
      assert b.sources[n - 1] == b.sources[..n][n - 1];
      assert c.sources[n - 1] == c.sources[..n][n - 1];
      ProductsAgree(sine, cells, b, c, bound, ch, n - 1);
      ProductAt(sine, cells, b, bound, ch, n, n - 1);
      ProductAt(sine, cells, c, bound, ch, n, n - 1);
      var xs := Products(sine, cells, b, bound, ch, n);
      var ys := Products(sine, cells, c, bound, ch, n);
      assert xs[..n - 1] == Products(sine, cells, b, bound, ch, n - 1);
      assert ys[..n - 1] == Products(sine, cells, c, bound, ch, n - 1);
      assert xs == xs[..n - 1] + [xs[n - 1]];
      assert ys == ys[..n - 1] + [ys[n - 1]];
      assert xs[n - 1] == ys[n - 1];
      assert xs[..n - 1] == ys[..n - 1];
    }
  }

  /** The products of an amplifier with one more pair are the old products and the new one. */
  lemma ProductsAppend(sine: real -> real, cells: map<Handle, Block>, ps: seq<Input>, p: Input, bound: Handle, ch: Channel)
    requires Readable(cells, AmplifierBlock(ps + [p]), bound, ch)
    ensures Readable(cells, AmplifierBlock(ps), bound, ch)
    ensures SourceReadable(cells, p.signal, bound, ch) && SourceReadable(cells, p.gain, bound, ch)
    ensures Products(sine, cells, AmplifierBlock(ps + [p]), bound, ch, |ps| + 1) ==
      Products(sine, cells, AmplifierBlock(ps), bound, ch, |ps|) + [PairOut(sine, cells, p, bound, ch)]
  {
    var b := AmplifierBlock(ps + [p]);
    ProductAt(sine, cells, b, bound, ch, |ps| + 1, |ps|);
    var xs := Products(sine, cells, b, bound, ch, |ps| + 1);
    assert b.sources[|ps|] == p;
    assert xs[..|ps|] == Products(sine, cells, b, bound, ch, |ps|);
    AmplifierAppendReadable(cells, ps, p, bound, ch);
    assert b.sources[..|ps|] == ps[..|ps|];
    ProductsAgree(sine, cells, b, AmplifierBlock(ps), bound, ch, |ps|);
    assert xs == xs[..|ps|] + [xs[|ps|]];
  }

  /** An amplifier's value is the sum of its pair products: appending a pair adds its product. */
  lemma AmplifierAppend(sine: real -> real, cells: map<Handle, Block>, ps: seq<Input>, p: Input, bound: Handle, ch: Channel)
    requires Readable(cells, AmplifierBlock(ps + [p]), bound, ch)
    ensures Readable(cells, AmplifierBlock(ps), bound, ch)
    ensures SourceReadable(cells, p.signal, bound, ch) && SourceReadable(cells, p.gain, bound, ch)
    ensures Out(sine, cells, AmplifierBlock(ps + [p]), bound, ch) ==
      Out(sine, cells, AmplifierBlock(ps), bound, ch) + PairOut(sine, cells, p, bound, ch)
  {
    ProductsAppend(sine, cells, ps, p, bound, ch);
    var b, c := AmplifierBlock(ps + [p]), AmplifierBlock(ps);
    var xs := Products(sine, cells, c, bound, ch, |ps|);
    var x := PairOut(sine, cells, p, bound, ch);
    assert (xs + [x])[..|xs|] == xs;
    assert Out(sine, cells, b, bound, ch) == Amplifiers.Sum(xs) + x;
  }

  /** The default amplifier, with no pairs, is silent on every channel. */
  lemma EmptyAmplifierSilent(sine: real -> real, cells: map<Handle, Block>, bound: Handle, ch: Channel)
    ensures Readable(cells, Amplifiers.Default(), bound, ch)
    ensures Out(sine, cells, Amplifiers.Default(), bound, ch) == 0.0
  {
  }

  /** One pair whose gain is a constant 1 passes its signal through on every channel. */
  lemma AmplifierIdentity(sine: real -> real, cells: map<Handle, Block>, x: Source, bound: Handle, ch: Channel)
    requires SourceReadable(cells, x, bound, ch)
    ensures Readable(cells, AmplifierBlock([Input(x, Anonymous(ConstantBlock(1.0)))]), bound, ch)
    ensures Out(sine, cells, AmplifierBlock([Input(x, Anonymous(ConstantBlock(1.0)))]), bound, ch) ==
      SourceOut(sine, cells, x, bound, ch)
  {
    var p := Input(x, Anonymous(ConstantBlock(1.0)));
    assert [] + [p] == [p];
    AmplifierAppendReadable(cells, [], p, bound, ch);
    AmplifierAppend(sine, cells, [], p, bound, ch);
  }

  /** `get_mono` of a stereo block: the left source plus half the right source. */
  lemma StereoMono(sine: real -> real, cells: map<Handle, Block>, l: Source, r: Source, s: Source, bound: Handle)
    requires Readable(cells, StereoBlock(l, r, s), bound, Mono)
    ensures Out(sine, cells, StereoBlock(l, r, s), bound, Mono) ==
      SourceOut(sine, cells, l, bound, Mono) + SourceOut(sine, cells, r, bound, Mono) / 2.0
  {
  }

  /**
   * The stereo channels never read the right source: whatever it is, the left and right
   * channels are readable as soon as they are for one right source, and swapping it changes
   * neither channel.
   */
  lemma StereoIgnoresRight(sine: real -> real, cells: map<Handle, Block>, l: Source, r1: Source, r2: Source, s: Source, bound: Handle)
    requires Readable(cells, StereoBlock(l, r1, s), bound, Left) && Readable(cells, StereoBlock(l, r1, s), bound, Right)
    ensures Readable(cells, StereoBlock(l, r2, s), bound, Left) && Readable(cells, StereoBlock(l, r2, s), bound, Right)
    ensures Out(sine, cells, StereoBlock(l, r1, s), bound, Left) == Out(sine, cells, StereoBlock(l, r2, s), bound, Left)
    ensures Out(sine, cells, StereoBlock(l, r1, s), bound, Right) == Out(sine, cells, StereoBlock(l, r2, s), bound, Right)
  {
  }

  /** The panning law at a constant shift of 0: each channel gets half of the left source. */
  lemma StereoCentred(sine: real -> real, cells: map<Handle, Block>, l: Source, r: Source, bound: Handle)
    requires Readable(cells, StereoBlock(l, r, Anonymous(ConstantBlock(0.0))), bound, Left)
    requires Readable(cells, StereoBlock(l, r, Anonymous(ConstantBlock(0.0))), bound, Right)
    ensures Out(sine, cells, StereoBlock(l, r, Anonymous(ConstantBlock(0.0))), bound, Left) ==
      SourceOut(sine, cells, l, bound, Left) / 2.0
    ensures Out(sine, cells, StereoBlock(l, r, Anonymous(ConstantBlock(0.0))), bound, Right) ==
      SourceOut(sine, cells, l, bound, Right) / 2.0
  {
    assert SourceOut(sine, cells, Anonymous(ConstantBlock(0.0)), bound, Mono) == 0.0;
  }

  /** At a constant shift of -1 the left source goes only to the left channel. */
  lemma StereoHardLeft(sine: real -> real, cells: map<Handle, Block>, l: Source, r: Source, bound: Handle)
    requires Readable(cells, StereoBlock(l, r, Anonymous(ConstantBlock(-1.0))), bound, Left)
    requires Readable(cells, StereoBlock(l, r, Anonymous(ConstantBlock(-1.0))), bound, Right)
    ensures Out(sine, cells, StereoBlock(l, r, Anonymous(ConstantBlock(-1.0))), bound, Left) ==
      SourceOut(sine, cells, l, bound, Left)
    ensures Out(sine, cells, StereoBlock(l, r, Anonymous(ConstantBlock(-1.0))), bound, Right) == 0.0
  {
    assert SourceOut(sine, cells, Anonymous(ConstantBlock(-1.0)), bound, Mono) == -1.0;
  }

  /** At a constant shift of 1 the left source goes only to the right channel. */
  lemma StereoHardRight(sine: real -> real, cells: map<Handle, Block>, l: Source, r: Source, bound: Handle)
    requires Readable(cells, StereoBlock(l, r, Anonymous(ConstantBlock(1.0))), bound, Left)
    requires Readable(cells, StereoBlock(l, r, Anonymous(ConstantBlock(1.0))), bound, Right)
    ensures Out(sine, cells, StereoBlock(l, r, Anonymous(ConstantBlock(1.0))), bound, Left) == 0.0
    ensures Out(sine, cells, StereoBlock(l, r, Anonymous(ConstantBlock(1.0))), bound, Right) ==
      SourceOut(sine, cells, l, bound, Right)
  {
    assert SourceOut(sine, cells, Anonymous(ConstantBlock(1.0)), bound, Mono) == 1.0;
  }

  /**
   * An oscillator's `step` steps its frequency source, then moves the phase by the stepped
   * source's frequency over the sample rate, modulo whole turns, into [0, 1]; the waveform
   * is kept.
   */
  lemma OscillatorStep(sine: real -> real, cells: map<Handle, Block>, b: Block, bound: Handle)
    requires Steppable(cells, b, bound) && b.OscillatorBlock?
    ensures var r := Stepped(sine, cells, b, bound);
      var f' := SteppedSource(sine, cells, b.freqSource, bound);
      && r.OscillatorBlock? && r.freqSource == f' && r.wave == b.wave
      && 0.0 <= r.phase <= 1.0
      && SourceReadable(cells, f', bound, Mono)
      && Oscillators.IsWhole(r.phase - (b.phase + SourceOut(sine, cells, f', bound, Mono) / Oscillators.SAMPLE_RATE))
  {
    var f' := SteppedSource(sine, cells, b.freqSource, bound);
    SourceSkeletonReadable(cells, b.freqSource, bound, Mono);
    SourceSkeletonReadable(cells, f', bound, Mono);
    Oscillators.AdvancedMovesByFrequency(b.phase, SourceOut(sine, cells, f', bound, Mono));
  }

  /**
   * A sequencer's `step` advances only its progress, by its tempo source's value in beats
   * per sample; its notes, its tempo source and its spacing source are not stepped.
   */
  lemma SequencerStep(sine: real -> real, cells: map<Handle, Block>, b: Block, bound: Handle)
    requires Steppable(cells, b, bound) && b.SequencerBlock?
    ensures SourceReadable(cells, b.bpm, bound, Mono)
    ensures var r := Stepped(sine, cells, b, bound);
      && r.SequencerBlock? && r.sequence == b.sequence && r.bpm == b.bpm && r.spacing == b.spacing
      && r.progress == Sequencers.Advanced(b.progress, SourceOut(sine, cells, b.bpm, bound, Mono), |b.sequence|)
  {
  }
}
