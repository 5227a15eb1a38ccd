/** `ConstantBlock` of src/blocks/constant.rs: a block that always yields its value. */
module Constants {
  import opened Blocks

  /** `ConstantBlock::new`. */
  function New(v: real): (b: Block)
    ensures b.ConstantBlock? && b.val == v
    ensures TypeOf(b) == Constant && Children(b) == [] && Refs(b) == {}
  {
    ConstantBlock(v)
  }

  /** `impl Default for ConstantBlock`: the constant 0. */
  function Default(): (b: Block)
    ensures b == New(0.0)
  {
    ConstantBlock(0.0)
  }

  /** The default source owns exactly the default constant. */
  lemma DefaultSourceIsDefaultConstant()
    ensures DefaultSource() == Anonymous(Default())
  {
  }
}
