/**
 * The local rules of `StereoBlock` (src/blocks/stereo.rs): three sources and the
 * panning law that splits the left source between the two channels.
 */
module Stereos {
  import opened Blocks

  /** `#[derive(Default)]`: left, right and shift are each the default source, a constant 0. */
  function Default(): (b: Block)
    ensures b.StereoBlock? && b.left == b.right == b.shift == DefaultSource()
    ensures Children(b) == [DefaultSource(), DefaultSource(), DefaultSource()]
  {
    StereoBlock(DefaultSource(), DefaultSource(), DefaultSource())
  }

  /** `update_left`: replaces the left source and nothing else. */
  function UpdateLeft(b: Block, s: Source): (r: Block)
    requires b.StereoBlock?
    ensures r.StereoBlock? && r.left == s && r.right == b.right && r.shift == b.shift
  {
    b.(left := s)
  }

  /** `update_right`: replaces the right source and nothing else. */
  function UpdateRight(b: Block, s: Source): (r: Block)
    requires b.StereoBlock?
    ensures r.StereoBlock? && r.right == s && r.left == b.left && r.shift == b.shift
  {
    b.(right := s)
  }

  /** `update_shift`: replaces the shift source and nothing else. */
  function UpdateShift(b: Block, s: Source): (r: Block)
    requires b.StereoBlock?
    ensures r.StereoBlock? && r.shift == s && r.left == b.left && r.right == b.right
  {
    b.(shift := s)
  }

  /**
   * The share of the signal sent to the right channel for a shift value: a shift of -1 is
   * fully left, 0 is centred and 1 is fully right; the left channel gets the rest.
   */
  function RightShare(shift: real): (s: real)
    ensures 1.0 - s == (1.0 - shift) / 2.0
    ensures -1.0 <= shift <= 1.0 ==> 0.0 <= s <= 1.0
  {
    (shift + 1.0) / 2.0
  }

  /** `get_mono`: the left source plus half of the right source. */
  function MonoMix(left: real, right: real): real
  {
    left + right / 2.0
  }
}
