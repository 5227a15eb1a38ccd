/**
 * The local rules of `SequencerBlock` (src/blocks/sequencer.rs): a loop of notes played at
 * a tempo, with an optional rest at each beat boundary.
 */
module Sequencers {
  import opened Notes
  import opened Blocks
  import Oscillators

  /** `impl Default for SequencerBlock`: no notes, 120 beats per minute, no spacing, at the start. */
  function Default(): (b: Block)
    ensures b.SequencerBlock? && b.sequence == [] && b.progress == 0.0
    ensures b.bpm == Anonymous(ConstantBlock(120.0)) && b.spacing == DefaultSource()
  {
    SequencerBlock([], Anonymous(ConstantBlock(120.0)), Anonymous(ConstantBlock(0.0)), 0.0)
  }

  /** `update_sequence`: replaces the notes and nothing else. */
  function UpdateSequence(b: Block, notes: seq<Note>): (r: Block)
    requires b.SequencerBlock?
    ensures r.SequencerBlock? && r.sequence == notes
    ensures r.bpm == b.bpm && r.spacing == b.spacing && r.progress == b.progress
  {
    b.(sequence := notes)
  }

  /** `update_bpm`: replaces the tempo source and nothing else. */
  function UpdateBpm(b: Block, s: Source): (r: Block)
    requires b.SequencerBlock?
    ensures r.SequencerBlock? && r.bpm == s
    ensures r.sequence == b.sequence && r.spacing == b.spacing && r.progress == b.progress
  {
    b.(bpm := s)
  }

  /** `update_spacing`: replaces the spacing source and nothing else. */
  function UpdateSpacing(b: Block, s: Source): (r: Block)
    requires b.SequencerBlock?
    ensures r.SequencerBlock? && r.spacing == s
    ensures r.sequence == b.sequence && r.bpm == b.bpm && r.progress == b.progress
  {
    b.(spacing := s)
  }

  /** Beats per sample at one beat per minute. */
  const BEATS_PER_SAMPLE: real := 1.0 / (Oscillators.SAMPLE_RATE * 60.0)

  /**
   * The progress after one `step` when the tempo source reads `bpm`: advance by
   * `bpm / (SAMPLE_RATE * 60)` beats, then subtract the length once if the progress passed it.
   */
  function Advanced(progress: real, bpm: real, len: nat): (r: real)
    ensures progress + bpm * BEATS_PER_SAMPLE <= len as real ==> r == progress + bpm * BEATS_PER_SAMPLE
    ensures progress + bpm * BEATS_PER_SAMPLE > len as real ==> r == progress + bpm * BEATS_PER_SAMPLE - len as real
  {
    var p := progress + bpm / (Oscillators.SAMPLE_RATE * 60.0);
    if p > len as real then p - len as real else p
  }

  /**
   * The wrap subtracts the length at most once and only when the progress is strictly
   * past it: from a progress in [0, len] and an advance of at most `len` beats the progress
   * stays in [0, len], and landing exactly on `len` is not wrapped.
   */
  lemma AdvancedStaysInLoop(progress: real, bpm: real, len: nat)
    requires 0.0 <= progress <= len as real
    requires 0.0 <= bpm * BEATS_PER_SAMPLE <= len as real
    ensures 0.0 <= Advanced(progress, bpm, len) <= len as real
    ensures progress + bpm * BEATS_PER_SAMPLE == len as real ==> Advanced(progress, bpm, len) == len as real
    ensures progress + bpm * BEATS_PER_SAMPLE > len as real ==>
      Advanced(progress, bpm, len) == progress + bpm * BEATS_PER_SAMPLE - len as real
  {
  }

  /** `f32::abs`. */
  function Abs(x: real): (r: real)
    ensures r >= 0.0 && (r == x || r == -x)
  {
    if x < 0.0 then -x else x
  }

  /** `f32::round`: the nearest integer, halves rounded away from zero. */
  function Round(x: real): (r: int)
    ensures Abs(r as real - x) <= 0.5
    ensures Abs(r as real - x) == 0.5 ==> Abs(r as real) > Abs(x)
  {
    if x >= 0.0 then (x + 0.5).Floor else -((-x + 0.5).Floor)
  }

  /** The largest `usize`. */
  const USIZE_MAX: nat := 0xFFFF_FFFF_FFFF_FFFF

  /** `x as usize` for an `f32`: truncation toward zero, saturating at 0 and at `USIZE_MAX`. */
  function AsUsize(x: real): (r: nat)
    ensures r <= USIZE_MAX
    ensures 0.0 <= x < USIZE_MAX as real ==> r as real <= x < r as real + 1.0
  {
    if x <= 0.0 then 0 else if x.Floor > USIZE_MAX then USIZE_MAX else x.Floor
  }

  /** The rest rule: with a spacing of at least 0.05, the output is silent near each beat boundary. */
  predicate Resting(progress: real, spacing: real)
  {
    spacing >= 0.05 && Abs(Round(progress) as real - progress) < spacing / 2.0
  }

  /**
   * `get_mono` of a sequencer whose spacing source reads `spacing`: silent while resting,
   * otherwise the note of the current beat. The index panics on an empty sequence.
   */
  function Output(notes: seq<Note>, progress: real, spacing: real): real
    requires |notes| > 0 || Resting(progress, spacing)
  {
    if Resting(progress, spacing) then 0.0 else Frequency(notes[AsUsize(progress) % |notes|])
  }

  /** A sequencer plays only its own notes and silence. */
  lemma OutputIsNoteOrSilence(notes: seq<Note>, progress: real, spacing: real)
    requires |notes| > 0
    ensures Output(notes, progress, spacing) == 0.0 ||
      exists i :: 0 <= i < |notes| && Output(notes, progress, spacing) == notes[i].freq
  {
  }

  /** Without spacing, during beat `k` the note at `k` modulo the length sounds. */
  lemma OutputDuringBeat(notes: seq<Note>, progress: real, spacing: real, k: nat)
    requires |notes| > 0 && spacing < 0.05
    requires k as real <= progress < k as real + 1.0 && k < USIZE_MAX
    ensures Output(notes, progress, spacing) == notes[k % |notes|].freq
  {
    assert AsUsize(progress) == k;
  }

  /** With a spacing of at least 0.05, the output is silent exactly on every beat boundary. */
  lemma SilentOnBeat(notes: seq<Note>, spacing: real, k: int)
    requires |notes| > 0 && spacing >= 0.05
    ensures Output(notes, k as real, spacing) == 0.0
  {
    assert Round(k as real) == k;
  }
}
