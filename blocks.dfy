/**
 * The block abstraction of src/blocks/mod.rs.
 *
 * The source keeps every block in an `Arc<Mutex<dyn SignalBlock>>` cell. Here the five
 * block structs form one sum type `Block`, and the cells that the registry owns live in an
 * arena `map<Handle, Block>`. A `Source` is either `Anonymous`, which owns its block
 * exclusively and therefore holds it inline, or `Named`, a weak handle into the arena.
 * Handles are handed out in increasing order, so a block can only name cells that were
 * allocated before it (`Acyclic`).
 */
module Blocks {
  import opened Wrappers
  import opened Notes

  /** Identity of a top-level cell in the arena. */
  type Handle = nat

  /** The oscillator waveforms of src/blocks/oscillator.rs. */
  datatype Waveform = Sinus | Sawtooth | Square | Triangle

  /** `BlockType`: the variant tag used to match blocks during hot reload. */
  datatype BlockType = Constant | Oscillator | Amplifier | Stereo | Sequencer

  /** `SignalSource`: an owned anonymous block or a weak reference to a registered one. */
  datatype Source = Anonymous(block: Block) | Named(handle: Handle)

  /** One `(SignalSource, SignalSource)` pair of an amplifier: a signal and its gain. */
  datatype Input = Input(signal: Source, gain: Source)

  /** The five `SignalBlock` implementations, with their fields. */
  datatype Block =
    | ConstantBlock(val: real)
    | OscillatorBlock(freqSource: Source, phase: real, wave: Waveform)
    | AmplifierBlock(sources: seq<Input>)
    | StereoBlock(left: Source, right: Source, shift: Source)
    | SequencerBlock(sequence: seq<Note>, bpm: Source, spacing: Source, progress: real)

  /** Which of the accessors `get_mono`, `get_left`, `get_right` is read. */
  datatype Channel = Mono | Left | Right

  /** `SignalBlock::block_type`. */
  function TypeOf(b: Block): BlockType
  {
    match b
    case ConstantBlock(_) => Constant
    case OscillatorBlock(_, _, _) => Oscillator
    case AmplifierBlock(_) => Amplifier
    case StereoBlock(_, _, _) => Stereo
    case SequencerBlock(_, _, _, _) => Sequencer
  }

  /** The strings that name each block type, long form and abbreviation. */
  function Spellings(t: BlockType): set<string>
  {
    match t
    case Constant => {"constant", "const"}
    case Oscillator => {"oscillator", "osc"}
    case Amplifier => {"amplifier", "amp"}
    case Stereo => {"stereo"}
    case Sequencer => {"sequencer", "seq"}
  }

  /** `BlockType::from_str`; `Err(())` is `None`. */
  function BlockTypeFromStr(s: string): (r: Option<BlockType>)
    ensures forall t :: r == Some(t) <==> s in Spellings(t)
  {
    match s
    case "constant" => Some(Constant)
    case "const" => Some(Constant)
    case "oscillator" => Some(Oscillator)
    case "osc" => Some(Oscillator)
    case "amplifier" => Some(Amplifier)
    case "amp" => Some(Amplifier)
    case "stereo" => Some(Stereo)
    case "sequencer" => Some(Sequencer)
    case "seq" => Some(Sequencer)
    case _ => None
  }

  /** `impl Default for SignalSource`: an owned constant 0. */
  function DefaultSource(): Source
  {
    Anonymous(ConstantBlock(0.0))
  }

  /** The amplifier's children: its pairs flattened as signal, gain, signal, gain, ... */
  function Flatten(ps: seq<Input>): (cs: seq<Source>)
    ensures |cs| == 2 * |ps|
    ensures forall k :: 0 <= k < |ps| ==> cs[2 * k] == ps[k].signal && cs[2 * k + 1] == ps[k].gain
  {
    if ps == [] then [] else Flatten(ps[..|ps| - 1]) + [ps[|ps| - 1].signal, ps[|ps| - 1].gain]
  }

  /**
   * `SignalBlock::children`: the direct children in declaration order. Constant and
   * Sequencer keep the trait default, the empty list (the sequencer's bpm and spacing
   * sources are not children).
   */
  function Children(b: Block): seq<Source>
  {
    match b
    case ConstantBlock(_) => []
    case OscillatorBlock(f, _, _) => [f]
    case AmplifierBlock(ps) => Flatten(ps)
    case StereoBlock(l, r, s) => [l, r, s]
    case SequencerBlock(_, _, _, _) => []
  }

  /**
   * The block `b` whose children are replaced, position by position, by `cs`. The source's
   * `children()` hands out the parent's own child cells, so syncing a child changes the
   * parent in place; this is that change on values.
   */
  function WithChildren(b: Block, cs: seq<Source>): (r: Block)
    requires |cs| == |Children(b)|
    ensures Children(r) == cs
    ensures TypeOf(r) == TypeOf(b)
    ensures r.OscillatorBlock? ==> r.phase == b.phase && r.wave == b.wave
    ensures r.SequencerBlock? || r.ConstantBlock? ==> r == b
  {
    match b
    case ConstantBlock(_) => b
    case OscillatorBlock(_, phase, wave) => OscillatorBlock(cs[0], phase, wave)
    case AmplifierBlock(ps) => AmplifierBlock(Paired(cs))
    case StereoBlock(_, _, _) => StereoBlock(cs[0], cs[1], cs[2])
    case SequencerBlock(_, _, _, _) => b
  }

  /** Consecutive children regrouped as signal/gain pairs: the inverse of `Flatten`. */
  function Paired(cs: seq<Source>): (qs: seq<Input>)
    requires |cs| % 2 == 0
    ensures |qs| == |cs| / 2
    ensures forall k :: 0 <= k < |qs| ==> qs[k] == Input(cs[2 * k], cs[2 * k + 1])
    ensures Flatten(qs) == cs
  {
    var qs := seq(|cs| / 2, k requires 0 <= k < |cs| / 2 => Input(cs[2 * k], cs[2 * k + 1]));
    forall j | 0 <= j < |cs| ensures Flatten(qs)[j] == cs[j] {
      var k := j / 2;
      if j % 2 == 0 {
        assert j == 2 * k && Flatten(qs)[2 * k] == qs[k].signal;
      } else {
        assert j == 2 * k + 1 && Flatten(qs)[2 * k + 1] == qs[k].gain;
      }
    }
    qs
  }

  /** `SignalSource::inner`: the owned block, or the arena cell a Named source refers to. */
  function Inner(cells: map<Handle, Block>, s: Source): Block
    requires s.Named? ==> s.handle in cells
  {
    match s
    case Anonymous(b) => b
    case Named(h) => cells[h]
  }

  /** The arena handles that `b` or any block it owns refers to by name. */
  function Refs(b: Block): set<Handle>
  {
    match b
    case ConstantBlock(_) => {}
    case OscillatorBlock(f, _, _) => SourceRefs(f)
    case AmplifierBlock(ps) =>
      set i, r | 0 <= i < |ps| && r in SourceRefs(ps[i].signal) + SourceRefs(ps[i].gain) :: r
    case StereoBlock(l, r, s) => SourceRefs(l) + SourceRefs(r) + SourceRefs(s)
    case SequencerBlock(_, bpm, spacing, _) => SourceRefs(bpm) + SourceRefs(spacing)
  }

  function SourceRefs(s: Source): set<Handle>
  {
    match s
    case Anonymous(b) => Refs(b)
    case Named(h) => {h}
  }

  /**
   * The block with its runtime state (oscillator phase, sequencer progress) cleared, in
   * itself and in every block it owns. Stepping and syncing change runtime state only, so
   * they keep the skeleton.
   */
  function Skeleton(b: Block): Block
  {
    match b
    case ConstantBlock(_) => b
    case OscillatorBlock(f, _, wave) => OscillatorBlock(SourceSkeleton(f), 0.0, wave)
    case AmplifierBlock(ps) =>
      AmplifierBlock(seq(|ps|, i requires 0 <= i < |ps| =>
        Input(SourceSkeleton(ps[i].signal), SourceSkeleton(ps[i].gain))))
    case StereoBlock(l, r, s) => StereoBlock(SourceSkeleton(l), SourceSkeleton(r), SourceSkeleton(s))
    case SequencerBlock(sq, bpm, spacing, _) =>
      SequencerBlock(sq, SourceSkeleton(bpm), SourceSkeleton(spacing), 0.0)
  }

  function SourceSkeleton(s: Source): Source
  {
    match s
    case Anonymous(b) => Anonymous(Skeleton(b))
    case Named(_) => s
  }

  /** Number of sources in `b`'s owned tree, plus one; it bounds the recursion of syncing. */
  function Size(b: Block): nat
    decreases b, 1
  {
    match b
    case ConstantBlock(_) => 1
    case OscillatorBlock(f, _, _) => 1 + SourceSize(f)
    case AmplifierBlock(ps) => 1 + InputsSize(b, |ps|)
    case StereoBlock(l, r, s) => 1 + SourceSize(l) + SourceSize(r) + SourceSize(s)
    case SequencerBlock(_, bpm, spacing, _) => 1 + SourceSize(bpm) + SourceSize(spacing)
  }

  /** The sizes of the first `n` pairs of amplifier `b`, added up. */
  function InputsSize(b: Block, n: nat): nat
    requires b.AmplifierBlock? && n <= |b.sources|
    decreases b, 0, n
  {
    if n == 0 then 0
    else InputsSize(b, n - 1) + SourceSize(b.sources[n - 1].signal) + SourceSize(b.sources[n - 1].gain)
  }

  function SourceSize(s: Source): nat
  {
    match s
    case Anonymous(b) => 1 + Size(b)
    case Named(_) => 1
  }

  /** `b` may be read in arena `cells` from the position of cell `bound` or above. */
  ghost predicate Within(b: Block, cells: map<Handle, Block>, bound: Handle)
  {
    Refs(b) <= cells.Keys && forall r :: r in Refs(b) ==> r < bound
  }

  ghost predicate SourceWithin(s: Source, cells: map<Handle, Block>, bound: Handle)
  {
    SourceRefs(s) <= cells.Keys && forall r :: r in SourceRefs(s) ==> r < bound
  }

  /** Every cell names only cells allocated before it: the block graph is a DAG. */
  ghost predicate Acyclic(cells: map<Handle, Block>)
  {
    forall h :: h in cells ==> forall r :: r in Refs(cells[h]) ==> r < h
  }

  /** No Named reference in the arena dangles. */
  ghost predicate Resolved(cells: map<Handle, Block>)
  {
    forall h :: h in cells ==> Refs(cells[h]) <= cells.Keys
  }

  /** Cell `h` and every cell it reaches through Named references, in an acyclic arena. */
  ghost function Reach(cells: map<Handle, Block>, h: Handle): (r: set<Handle>)
    ensures r <= cells.Keys
    ensures h in cells ==> h in r
    decreases h
  {
    if h !in cells then {}
    else {h} + (set r, k | r in Refs(cells[h]) && r < h && k in Reach(cells, r) :: k)
  }

  /**
   * Reading `b` on channel `ch`, from the position of cell `bound`, cannot panic: every Named
   * source the read goes through names a present cell below `bound` (`inner()` unwraps the
   * weak reference), and every sequencer the read reaches has a note to play. Only what the
   * accessor reads counts: an oscillator reads its phase alone, a sequencer its spacing, a
   * stereo block its left and right sources on mono, and its left source and (on mono) its
   * shift on the left and right channels.
   */
  ghost predicate Readable(cells: map<Handle, Block>, b: Block, bound: Handle, ch: Channel)
    decreases bound, b, 1
  {
    match b
    case ConstantBlock(_) => true
    case OscillatorBlock(_, _, _) => true
    case AmplifierBlock(ps) =>
      forall i :: 0 <= i < |ps| ==>
        SourceReadable(cells, ps[i].signal, bound, ch) && SourceReadable(cells, ps[i].gain, bound, ch)
    case StereoBlock(l, r, s) =>
      if ch == Mono then SourceReadable(cells, l, bound, Mono) && SourceReadable(cells, r, bound, Mono)
      else SourceReadable(cells, l, bound, ch) && SourceReadable(cells, s, bound, Mono)
    case SequencerBlock(sq, _, spacing, _) => |sq| > 0 && SourceReadable(cells, spacing, bound, Mono)
  }

  ghost predicate SourceReadable(cells: map<Handle, Block>, s: Source, bound: Handle, ch: Channel)
    decreases bound, s, 2
  {
    match s
    case Anonymous(b) => Readable(cells, b, bound, ch)
    case Named(h) => h < bound && h in cells && Readable(cells, cells[h], h, ch)
  }

  /** Reading cell `h` on channel `ch` cannot panic. */
  ghost predicate CellReadable(cells: map<Handle, Block>, h: Handle, ch: Channel)
  {
    h in cells && Readable(cells, cells[h], h, ch)
  }

  /**
   * Stepping `b` cannot panic: the sources the step reads, an oscillator's frequency (after
   * stepping it) and a sequencer's tempo, are readable on mono. Named sources are not
   * stepped, and a sequencer's notes are not read.
   */
  ghost predicate Steppable(cells: map<Handle, Block>, b: Block, bound: Handle)
    decreases b, 1
  {
    match b
    case ConstantBlock(_) => true
    case OscillatorBlock(f, _, _) => SourceSteppable(cells, f, bound) && SourceReadable(cells, f, bound, Mono)
    case AmplifierBlock(ps) =>
      forall i :: 0 <= i < |ps| ==>
        SourceSteppable(cells, ps[i].signal, bound) && SourceSteppable(cells, ps[i].gain, bound)
    case StereoBlock(l, r, s) =>
      SourceSteppable(cells, l, bound) && SourceSteppable(cells, r, bound) && SourceSteppable(cells, s, bound)
    case SequencerBlock(_, bpm, _, _) => SourceReadable(cells, bpm, bound, Mono)
  }

  ghost predicate SourceSteppable(cells: map<Handle, Block>, s: Source, bound: Handle)
    decreases s, 2
  {
    match s
    case Anonymous(b) => Steppable(cells, b, bound)
    case Named(_) => true
  }

  /** Two arenas hold the same cells, differing at most in runtime state. */
  ghost predicate SameSkeletons(c: map<Handle, Block>, d: map<Handle, Block>)
  {
    c.Keys == d.Keys && forall h :: h in c ==> Skeleton(c[h]) == Skeleton(d[h])
  }

  lemma {:induction false} SkeletonKeepsRefs(b: Block)
    ensures Refs(Skeleton(b)) == Refs(b)
    ensures TypeOf(Skeleton(b)) == TypeOf(b)
    ensures Children(Skeleton(b)) == seq(|Children(b)|, i requires 0 <= i < |Children(b)| => SourceSkeleton(Children(b)[i]))
    decreases b, 1
  {
    match b
    case ConstantBlock(_) =>
    case OscillatorBlock(f, _, _) =>
      SourceSkeletonKeepsRefs(f);
    case AmplifierBlock(ps) =>
      AmplifierSkeletonKeepsRefs(b);
      AmplifierSkeletonChildren(b);
    case StereoBlock(l, r, s) =>
      SourceSkeletonKeepsRefs(l);
      SourceSkeletonKeepsRefs(r);
      SourceSkeletonKeepsRefs(s);
    case SequencerBlock(_, bpm, spacing, _) =>
      SourceSkeletonKeepsRefs(bpm);
      SourceSkeletonKeepsRefs(spacing);
  }

  /** The amplifier case of `SkeletonKeepsRefs`: pair by pair, the skeleton keeps refs and sequencers. */
  lemma {:induction false} AmplifierSkeletonKeepsRefs(b: Block)
    requires b.AmplifierBlock?
    ensures Refs(Skeleton(b)) == Refs(b)
    decreases b, 0
  {
    var ps := b.sources;
    forall i | 0 <= i < |ps|
      ensures SourceRefs(SourceSkeleton(ps[i].signal)) == SourceRefs(ps[i].signal)
      ensures SourceRefs(SourceSkeleton(ps[i].gain)) == SourceRefs(ps[i].gain)
    {
      SourceSkeletonKeepsRefs(ps[i].signal);
      SourceSkeletonKeepsRefs(ps[i].gain);
    }
    var qs := Skeleton(b).sources;
    assert |qs| == |ps|;
    assert forall i | 0 <= i < |ps| :: qs[i] == Input(SourceSkeleton(ps[i].signal), SourceSkeleton(ps[i].gain));
  }

  /** The skeleton of an amplifier's children are the children of its skeleton. */
  lemma AmplifierSkeletonChildren(b: Block)
    requires b.AmplifierBlock?
    ensures Children(Skeleton(b)) == seq(|Children(b)|, i requires 0 <= i < |Children(b)| => SourceSkeleton(Children(b)[i]))
  {
    var ps := b.sources;
    var qs := Skeleton(b).sources;
    assert |qs| == |ps|;
    var cs := Children(b);
    forall j | 0 <= j < |cs| ensures Flatten(qs)[j] == SourceSkeleton(cs[j]) {
      var k := j / 2;
      assert qs[k] == Input(SourceSkeleton(ps[k].signal), SourceSkeleton(ps[k].gain));
      if j % 2 == 0 {
        assert j == 2 * k && Flatten(qs)[2 * k] == qs[k].signal && cs[2 * k] == ps[k].signal;
      } else {
        assert j == 2 * k + 1 && Flatten(qs)[2 * k + 1] == qs[k].gain && cs[2 * k + 1] == ps[k].gain;
      }
    }
  }

  lemma {:induction false} SourceSkeletonKeepsRefs(s: Source)
    ensures SourceRefs(SourceSkeleton(s)) == SourceRefs(s)
    decreases s, 2
  {
    match s
    case Anonymous(b) => SkeletonKeepsRefs(b);
    case Named(_) =>
  }

  /** Blocks with one skeleton refer to the same cells, have the same type and the same sequencers. */
  lemma SameSkeletonSameRefs(b: Block, c: Block)
    requires Skeleton(b) == Skeleton(c)
    ensures Refs(b) == Refs(c) && TypeOf(b) == TypeOf(c)
  {
    SkeletonKeepsRefs(b);
    SkeletonKeepsRefs(c);
  }

  lemma SameSourceSkeletonSameRefs(s: Source, t: Source)
    requires SourceSkeleton(s) == SourceSkeleton(t)
    ensures SourceRefs(s) == SourceRefs(t)
  {
    SourceSkeletonKeepsRefs(s);
    SourceSkeletonKeepsRefs(t);
  }

  /** Changing only runtime state keeps an arena acyclic and resolved. */
  lemma SameSkeletonsKeepInvariants(c: map<Handle, Block>, d: map<Handle, Block>)
    requires SameSkeletons(c, d)
    ensures Acyclic(c) ==> Acyclic(d)
    ensures Resolved(c) ==> Resolved(d)
  {
    forall h | h in c
      ensures Refs(d[h]) == Refs(c[h]) && TypeOf(d[h]) == TypeOf(c[h])
    {
      SameSkeletonSameRefs(c[h], d[h]);
    }
  }

  /** Changing only runtime state keeps what every cell reaches. */
  lemma {:induction false} SameSkeletonsReach(c: map<Handle, Block>, d: map<Handle, Block>, h: Handle)
    requires SameSkeletons(c, d)
    ensures Reach(c, h) == Reach(d, h)
    decreases h
  {
    if h in c {
      SameSkeletonSameRefs(c[h], d[h]);
      forall r | r in Refs(c[h]) && r < h ensures Reach(c, r) == Reach(d, r) {
        SameSkeletonsReach(c, d, r);
      }
    }
  }

  /** In an acyclic arena, what a cell's references reach is part of what the cell reaches. */
  lemma ReachStep(cells: map<Handle, Block>, k: Handle)
    requires Acyclic(cells) && k in cells
    ensures forall r :: r in Refs(cells[k]) ==> Reach(cells, r) <= Reach(cells, k)
  {
    forall r | r in Refs(cells[k]) ensures Reach(cells, r) <= Reach(cells, k) {
      assert forall j :: j in Reach(cells, r) ==> j in Reach(cells, k);
    }
  }

  /** Readability depends only on the skeleton: a read never checks runtime state. */
  lemma {:induction false} SkeletonReadable(cells: map<Handle, Block>, b: Block, bound: Handle, ch: Channel)
    ensures Readable(cells, Skeleton(b), bound, ch) == Readable(cells, b, bound, ch)
    decreases b, 1
  {
    match b
    case ConstantBlock(_) =>
    case OscillatorBlock(_, _, _) =>
    case AmplifierBlock(ps) =>
      var qs := Skeleton(b).sources;
      forall i | 0 <= i < |ps|
        ensures qs[i] == Input(SourceSkeleton(ps[i].signal), SourceSkeleton(ps[i].gain))
        ensures SourceReadable(cells, qs[i].signal, bound, ch) == SourceReadable(cells, ps[i].signal, bound, ch)
        ensures SourceReadable(cells, qs[i].gain, bound, ch) == SourceReadable(cells, ps[i].gain, bound, ch)
      {
        SourceSkeletonReadable(cells, ps[i].signal, bound, ch);
        SourceSkeletonReadable(cells, ps[i].gain, bound, ch);
      }
    case StereoBlock(l, r, s) =>
      SourceSkeletonReadable(cells, l, bound, ch);
      SourceSkeletonReadable(cells, l, bound, Mono);
      SourceSkeletonReadable(cells, r, bound, Mono);
      SourceSkeletonReadable(cells, s, bound, Mono);
    case SequencerBlock(_, _, spacing, _) =>
      SourceSkeletonReadable(cells, spacing, bound, Mono);
  }

  lemma {:induction false} SourceSkeletonReadable(cells: map<Handle, Block>, s: Source, bound: Handle, ch: Channel)
    ensures SourceReadable(cells, SourceSkeleton(s), bound, ch) == SourceReadable(cells, s, bound, ch)
    decreases s, 2
  {
    match s
    case Anonymous(b) => SkeletonReadable(cells, b, bound, ch);
    case Named(_) =>
  }

  /** Steppability depends only on the skeleton. */
  lemma {:induction false} SkeletonSteppable(cells: map<Handle, Block>, b: Block, bound: Handle)
    ensures Steppable(cells, Skeleton(b), bound) == Steppable(cells, b, bound)
    decreases b, 1
  {
    match b
    case ConstantBlock(_) =>
    case OscillatorBlock(f, _, _) =>
      SourceSkeletonSteppable(cells, f, bound);
      SourceSkeletonReadable(cells, f, bound, Mono);
    case AmplifierBlock(ps) =>
      var qs := Skeleton(b).sources;
      forall i | 0 <= i < |ps|
        ensures qs[i] == Input(SourceSkeleton(ps[i].signal), SourceSkeleton(ps[i].gain))
        ensures SourceSteppable(cells, qs[i].signal, bound) == SourceSteppable(cells, ps[i].signal, bound)
        ensures SourceSteppable(cells, qs[i].gain, bound) == SourceSteppable(cells, ps[i].gain, bound)
      {
        SourceSkeletonSteppable(cells, ps[i].signal, bound);
        SourceSkeletonSteppable(cells, ps[i].gain, bound);
      }
    case StereoBlock(l, r, s) =>
      SourceSkeletonSteppable(cells, l, bound);
      SourceSkeletonSteppable(cells, r, bound);
      SourceSkeletonSteppable(cells, s, bound);
    case SequencerBlock(_, bpm, _, _) =>
      SourceSkeletonReadable(cells, bpm, bound, Mono);
  }

  lemma {:induction false} SourceSkeletonSteppable(cells: map<Handle, Block>, s: Source, bound: Handle)
    ensures SourceSteppable(cells, SourceSkeleton(s), bound) == SourceSteppable(cells, s, bound)
    decreases s, 2
  {
    match s
    case Anonymous(b) => SkeletonSteppable(cells, b, bound);
    case Named(_) =>
  }

  /** Whether a block can be read does not depend on the runtime state of the cells it reads. */
  lemma {:induction false} SameSkeletonsReadableAt(c: map<Handle, Block>, d: map<Handle, Block>, b: Block,
                                                   bound: Handle, ch: Channel)
    requires SameSkeletons(c, d)
    ensures Readable(c, b, bound, ch) == Readable(d, b, bound, ch)
    decreases bound, b, 1
  {
    match b
    case ConstantBlock(_) =>
    case OscillatorBlock(_, _, _) =>
    case AmplifierBlock(ps) =>
      forall i | 0 <= i < |ps|
        ensures SourceReadable(c, ps[i].signal, bound, ch) == SourceReadable(d, ps[i].signal, bound, ch)
        ensures SourceReadable(c, ps[i].gain, bound, ch) == SourceReadable(d, ps[i].gain, bound, ch)
      {
        SameSkeletonsSourceReadable(c, d, ps[i].signal, bound, ch);
        SameSkeletonsSourceReadable(c, d, ps[i].gain, bound, ch);
      }
    case StereoBlock(l, r, s) =>
      SameSkeletonsSourceReadable(c, d, l, bound, ch);
      SameSkeletonsSourceReadable(c, d, l, bound, Mono);
      SameSkeletonsSourceReadable(c, d, r, bound, Mono);
      SameSkeletonsSourceReadable(c, d, s, bound, Mono);
    case SequencerBlock(_, _, spacing, _) =>
      SameSkeletonsSourceReadable(c, d, spacing, bound, Mono);
  }

  lemma {:induction false} SameSkeletonsSourceReadable(c: map<Handle, Block>, d: map<Handle, Block>, s: Source,
                                                       bound: Handle, ch: Channel)
    requires SameSkeletons(c, d)
    ensures SourceReadable(c, s, bound, ch) == SourceReadable(d, s, bound, ch)
    decreases bound, s, 2
  {
    match s
    case Anonymous(b) => SameSkeletonsReadableAt(c, d, b, bound, ch);
    case Named(h) =>
      if h < bound && h in c {
        SameSkeletonsReadableAt(c, d, c[h], h, ch);
        SkeletonReadable(d, c[h], h, ch);
        SkeletonReadable(d, d[h], h, ch);
      }
  }

  /** Whether a block can be stepped does not depend on the runtime state of the arena. */
  lemma {:induction false} SameSkeletonsSteppableAt(c: map<Handle, Block>, d: map<Handle, Block>, b: Block,
                                                    bound: Handle)
    requires SameSkeletons(c, d)
    ensures Steppable(c, b, bound) == Steppable(d, b, bound)
    decreases b, 1
  {
    match b
    case ConstantBlock(_) =>
    case OscillatorBlock(f, _, _) =>
      SameSkeletonsSourceSteppable(c, d, f, bound);
      SameSkeletonsSourceReadable(c, d, f, bound, Mono);
    case AmplifierBlock(ps) =>
      forall i | 0 <= i < |ps|
        ensures SourceSteppable(c, ps[i].signal, bound) == SourceSteppable(d, ps[i].signal, bound)
        ensures SourceSteppable(c, ps[i].gain, bound) == SourceSteppable(d, ps[i].gain, bound)
      {
        SameSkeletonsSourceSteppable(c, d, ps[i].signal, bound);
        SameSkeletonsSourceSteppable(c, d, ps[i].gain, bound);
      }
    case StereoBlock(l, r, s) =>
      SameSkeletonsSourceSteppable(c, d, l, bound);
      SameSkeletonsSourceSteppable(c, d, r, bound);
      SameSkeletonsSourceSteppable(c, d, s, bound);
    case SequencerBlock(_, bpm, _, _) =>
      SameSkeletonsSourceReadable(c, d, bpm, bound, Mono);
  }

  lemma {:induction false} SameSkeletonsSourceSteppable(c: map<Handle, Block>, d: map<Handle, Block>, s: Source,
                                                        bound: Handle)
    requires SameSkeletons(c, d)
    ensures SourceSteppable(c, s, bound) == SourceSteppable(d, s, bound)
    decreases s, 2
  {
    match s
    case Anonymous(b) => SameSkeletonsSteppableAt(c, d, b, bound);
    case Named(_) =>
  }

  /** Changing only runtime state keeps every cell readable that was readable, on every channel. */
  lemma SameSkeletonsReadable(c: map<Handle, Block>, d: map<Handle, Block>)
    requires SameSkeletons(c, d)
    ensures forall h, ch :: CellReadable(c, h, ch) ==> CellReadable(d, h, ch)
  {
    forall h, ch | CellReadable(c, h, ch) ensures CellReadable(d, h, ch) {
      SameSkeletonsReadableAt(c, d, c[h], h, ch);
      SkeletonReadable(d, c[h], h, ch);
      SkeletonReadable(d, d[h], h, ch);
    }
  }

  /** Changing only runtime state keeps every cell steppable that was steppable, and readable. */
  lemma SameSkeletonsSteppable(c: map<Handle, Block>, d: map<Handle, Block>)
    requires SameSkeletons(c, d)
    ensures forall k :: k in c && Steppable(c, c[k], k) ==> Steppable(d, d[k], k)
    ensures forall k, ch :: CellReadable(c, k, ch) ==> CellReadable(d, k, ch)
  {
    SameSkeletonsReadable(c, d);
    forall k | k in c && Steppable(c, c[k], k) ensures Steppable(d, d[k], k) {
      SameSkeletonsSteppableAt(c, d, c[k], k);
      SkeletonSteppable(d, c[k], k);
      SkeletonSteppable(d, d[k], k);
    }
  }

  /** Replacing children by children of the same skeletons keeps the parent's skeleton. */
  lemma WithChildrenSkeleton(b: Block, cs: seq<Source>)
    requires |cs| == |Children(b)|
    requires forall i :: 0 <= i < |cs| ==> SourceSkeleton(cs[i]) == SourceSkeleton(Children(b)[i])
    ensures Skeleton(WithChildren(b, cs)) == Skeleton(b)
  {
    match b
    case AmplifierBlock(ps) =>
      AmplifierWithChildrenSkeleton(b, cs);
    case OscillatorBlock(_, _, _) =>
      assert SourceSkeleton(cs[0]) == SourceSkeleton(Children(b)[0]);
    case StereoBlock(_, _, _) =>
      assert SourceSkeleton(cs[0]) == SourceSkeleton(Children(b)[0]);
      assert SourceSkeleton(cs[1]) == SourceSkeleton(Children(b)[1]);
      assert SourceSkeleton(cs[2]) == SourceSkeleton(Children(b)[2]);
    case _ =>
  }

  /** The amplifier case of `WithChildrenSkeleton`, pair by pair. */
  lemma AmplifierWithChildrenSkeleton(b: Block, cs: seq<Source>)
    requires b.AmplifierBlock? && |cs| == |Children(b)|
    requires forall i :: 0 <= i < |cs| ==> SourceSkeleton(cs[i]) == SourceSkeleton(Children(b)[i])
    ensures Skeleton(WithChildren(b, cs)) == Skeleton(b)
  {
    var ps := b.sources;
    var qs := Paired(cs);
    assert WithChildren(b, cs) == AmplifierBlock(qs);
    forall k | 0 <= k < |ps|
      ensures SourceSkeleton(qs[k].signal) == SourceSkeleton(ps[k].signal)
      ensures SourceSkeleton(qs[k].gain) == SourceSkeleton(ps[k].gain)
    {
      assert qs[k].signal == cs[2 * k] && Children(b)[2 * k] == ps[k].signal;
      assert qs[k].gain == cs[2 * k + 1] && Children(b)[2 * k + 1] == ps[k].gain;
    }
    assert Skeleton(AmplifierBlock(qs)).sources == Skeleton(b).sources;
  }

  /** An amplifier's references are those of its pairs, taken one pair at a time. */
  lemma AmplifierAppendRefs(ps: seq<Input>, p: Input)
    ensures Refs(AmplifierBlock(ps + [p])) == Refs(AmplifierBlock(ps)) + SourceRefs(p.signal) + SourceRefs(p.gain)
  {
    var qs := ps + [p];
    assert forall i :: 0 <= i < |ps| ==> qs[i] == ps[i];
    assert qs[|ps|] == p;
    forall r | r in Refs(AmplifierBlock(qs))
      ensures r in Refs(AmplifierBlock(ps)) + SourceRefs(p.signal) + SourceRefs(p.gain)
    {
      var i :| 0 <= i < |qs| && r in SourceRefs(qs[i].signal) + SourceRefs(qs[i].gain);
      if i < |ps| {
        assert r in SourceRefs(ps[i].signal) + SourceRefs(ps[i].gain);
      }
    }
    forall r | r in Refs(AmplifierBlock(ps)) + SourceRefs(p.signal) + SourceRefs(p.gain)
      ensures r in Refs(AmplifierBlock(qs))
    {
      if r in Refs(AmplifierBlock(ps)) {
        var i :| 0 <= i < |ps| && r in SourceRefs(ps[i].signal) + SourceRefs(ps[i].gain);
        assert r in SourceRefs(qs[i].signal) + SourceRefs(qs[i].gain);
      } else {
        assert r in SourceRefs(qs[|ps|].signal) + SourceRefs(qs[|ps|].gain);
      }
    }
  }

  /** An amplifier can be read on a channel exactly when each of its pairs can. */
  lemma AmplifierAppendReadable(cells: map<Handle, Block>, ps: seq<Input>, p: Input, bound: Handle, ch: Channel)
    ensures Readable(cells, AmplifierBlock(ps + [p]), bound, ch) <==>
      && Readable(cells, AmplifierBlock(ps), bound, ch)
      && SourceReadable(cells, p.signal, bound, ch) && SourceReadable(cells, p.gain, bound, ch)
  {
    var qs := ps + [p];
    assert forall i :: 0 <= i < |ps| ==> qs[i] == ps[i];
    assert qs[|ps|] == p;
  }

  /** In a resolved arena, a source whose references are present has its `inner()` block present too. */
  lemma InnerWithin(cells: map<Handle, Block>, s: Source)
    requires Resolved(cells) && SourceRefs(s) <= cells.Keys
    ensures s.Named? ==> s.handle in cells
    ensures Refs(Inner(cells, s)) <= cells.Keys
  {
    if s.Named? {
      assert s.handle in SourceRefs(s);
    }
  }

  /** Each direct child's references are among the parent's. */
  lemma ChildRefs(b: Block, i: nat)
    requires i < |Children(b)|
    ensures SourceRefs(Children(b)[i]) <= Refs(b)
  {
    match b
    case AmplifierBlock(ps) =>
      var k := i / 2;
      assert Children(b)[i] == if i % 2 == 0 then ps[k].signal else ps[k].gain;
      forall r | r in SourceRefs(Children(b)[i]) ensures r in Refs(b) {
        assert r in SourceRefs(ps[k].signal) + SourceRefs(ps[k].gain);
      }
    case _ =>
  }

  /** Each pair of an amplifier accounts for part of its size. */
  lemma {:induction false} InputsSizeBounds(b: Block, n: nat, k: nat)
    requires b.AmplifierBlock? && k < n <= |b.sources|
    ensures SourceSize(b.sources[k].signal) + SourceSize(b.sources[k].gain) <= InputsSize(b, n)
    decreases n
  {
    if k < n - 1 {
      InputsSizeBounds(b, n - 1, k);
    }
  }

  /** Each direct child is smaller than its parent: syncing recurses on a decreasing size. */
  lemma ChildrenSmaller(b: Block, i: nat)
    requires i < |Children(b)|
    ensures SourceSize(Children(b)[i]) < Size(b)
  {
    if b.AmplifierBlock? {
      var k := i / 2;
      InputsSizeBounds(b, |b.sources|, k);
      assert i == 2 * k || i == 2 * k + 1;
    }
  }

  /**
   * `SignalBlockChildren`: the FIFO that `children()` fills with `push_back` and that the
   * sync loop drains with `pop_front`.
   */
  class SignalBlockChildren {
    var queue: seq<Source>

    constructor ()
      ensures queue == []
    {
      queue := [];
    }

    method Push(child: Source)
      modifies this
      ensures queue == old(queue) + [child]
    {
      queue := queue + [child];
    }

    /** `Iterator::next`: the oldest child, or `None` once the queue is drained. */
    method Next() returns (child: Option<Source>)
      modifies this
      ensures old(queue) == [] ==> child == None && queue == []
      ensures old(queue) != [] ==> child == Some(old(queue)[0]) && queue == old(queue)[1..]
    {
      if queue == [] {
        child := None;
      } else {
        child := Some(queue[0]);
        queue := queue[1..];
      }
    }
  }

  /** `children()` of each variant: a fresh queue filled in declaration order. */
  method CollectChildren(b: Block) returns (q: SignalBlockChildren)
    ensures fresh(q) && q.queue == Children(b)
  {
    q := new SignalBlockChildren();
    match b {
      case ConstantBlock(_) =>
      case OscillatorBlock(f, _, _) =>
        q.Push(f);
      case AmplifierBlock(ps) =>
        var i := 0;
        while i < |ps|
          invariant 0 <= i <= |ps|
          invariant q.queue == Flatten(ps[..i])
        {
          q.Push(ps[i].signal);
          q.Push(ps[i].gain);
          assert ps[..i + 1][..i] == ps[..i];
          i := i + 1;
        }
        assert ps[..|ps|] == ps;
      case StereoBlock(l, r, s) =>
        q.Push(l);
        q.Push(r);
        q.Push(s);
      case SequencerBlock(_, _, _, _) =>
    }
  }

  /** Draining a children queue yields the children in the order they were pushed. */
  method Drain(q: SignalBlockChildren) returns (out: seq<Source>)
    modifies q
    ensures out == old(q.queue) && q.queue == []
  {
    out := [];
    while true
      invariant out + q.queue == old(q.queue)
      decreases |q.queue|
    {
      var child := q.Next();
      if child.None? {
        break;
      }
      out := out + [child.value];
    }
  }
}
