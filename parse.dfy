/**
 * The compile step of src/parse.rs over the syntax tree that the grammar produces: each
 * assignment's initializer becomes a block, registered in a fresh mixer under its name.
 * A name on a right-hand side resolves against the blocks registered so far, and the
 * first error aborts the whole step.
 */
module Parse {
  import opened Wrappers
  import opened Blocks
  import Constants
  import Oscillators
  import Amplifiers
  import Registry
  import Mixer

  /** The block kinds a file may define. */
  datatype HarmoniconType = ConstantKind | OscillatorKind | AmplifierKind

  /** The spellings that name each kind. */
  function Spellings(t: HarmoniconType): set<string>
  {
    match t
    case ConstantKind => {"constant", "const"}
    case OscillatorKind => {"oscillator", "osc"}
    case AmplifierKind => {"amplifier", "amp"}
  }

  /** `HarmoniconType::from_str`: exactly the spellings above are accepted. */
  function HarmoniconTypeFromStr(s: string): (r: Option<HarmoniconType>)
    ensures forall t :: r == Some(t) <==> s in Spellings(t)
  {
    if s == "constant" || s == "const" then Some(ConstantKind)
    else if s == "oscillator" || s == "osc" then Some(OscillatorKind)
    else if s == "amplifier" || s == "amp" then Some(AmplifierKind)
    else None
  }

  /** The block type a definition of kind `t` produces. */
  function KindOf(t: HarmoniconType): BlockType
  {
    match t
    case ConstantKind => BlockType.Constant
    case OscillatorKind => BlockType.Oscillator
    case AmplifierKind => BlockType.Amplifier
  }

  /**
   * The syntax tree: a right-hand side is a name or an anonymous block; an initializer is a
   * list of `key: value` items or a number. The grammar guarantees that every type word
   * parses, so the tree holds the parsed kind.
   */
  datatype Rhs = NameRhs(name: string) | AnonRhs(ty: HarmoniconType, init: Init)
  datatype Init = BlockInit(items: seq<Item>) | ValueInit(value: real)
  datatype Item = Item(key: string, value: Rhs)
  datatype Assignment = Assignment(ty: HarmoniconType, name: string, init: Init)

  /**
   * The fixed texts a `TypeError` carries, what was expected and what was found; the
   * source passes them as static strings, so they form a closed set.
   */
  datatype Initializer = ConstantInitializer | OscillatorInitializer | OtherInitializer

  function InitializerText(i: Initializer): string
  {
    match i
    case ConstantInitializer => "constant initializer"
    case OscillatorInitializer => "oscillator initializer"
    case OtherInitializer => "other initializer"
  }

  /** The static text `UnknownProperty` names the block kind by: its long spelling. */
  function KindText(t: HarmoniconType): string
  {
    match t
    case ConstantKind => "constant"
    case OscillatorKind => "oscillator"
    case AmplifierKind => "amplifier"
  }

  /** The errors of the compile step (src/error.rs), with the static texts as values. */
  datatype Error =
    | TypeError(expected: Initializer, found: Initializer)
    | UnknownBlock(name: string)
    | UnknownProperty(key: string, blockType: HarmoniconType)

  const FREQUENCY_KEYS: set<string> := {"frequency", "freq"}
  const SOURCE_KEYS: set<string> := {"source", "src"}
  const MULTIPLICATOR_KEYS: set<string> := {"multiplicator", "mult"}

  /**
   * `parse_param_rhs`: a name becomes a Named source to the block registered under it, an
   * anonymous block an owned source. Whatever it builds refers only to registered cells.
   */
  function ParamRhs(rhs: Rhs, blocks: map<string, Handle>): (r: Result<Source, Error>)
    ensures r.Success? ==> SourceRefs(r.value) <= blocks.Values
    decreases rhs, 0
  {
    match rhs
    case NameRhs(name) =>
      if name in blocks then Success(Named(blocks[name])) else Failure(UnknownBlock(name))
    case AnonRhs(ty, init) =>
      var b := Initialized(ty, init, blocks);
      if b.Success? then Success(Anonymous(b.value)) else Failure(b.error)
  }

  /**
   * `parse_anon_init`, and the same dispatch in `parse_stage2`: the initializer is read as
   * the declared kind. A block it builds has that kind and refers only to registered cells.
   */
  function Initialized(ty: HarmoniconType, init: Init, blocks: map<string, Handle>): (r: Result<Block, Error>)
    ensures r.Success? ==> TypeOf(r.value) == KindOf(ty) && Refs(r.value) <= blocks.Values
    decreases init, 3
  {
    match ty
    case ConstantKind => ConstInit(init)
    case OscillatorKind => OscInit(init, blocks)
    case AmplifierKind => AmpInit(init, blocks)
  }

  /** `parse_const_init`: a number makes a constant block. */
  function ConstInit(init: Init): (r: Result<Block, Error>)
    ensures r.Success? ==> r.value.ConstantBlock? && Refs(r.value) == {}
  {
    if init.ValueInit? then Success(Constants.New(init.value))
    else Failure(TypeError(ConstantInitializer, OtherInitializer))
  }

  /** `parse_osc_init`: the items are applied, in order, to a default oscillator. */
  function OscInit(init: Init, blocks: map<string, Handle>): (r: Result<Block, Error>)
    ensures r.Success? ==> r.value.OscillatorBlock? && Refs(r.value) <= blocks.Values
    decreases init, 2
  {
    if !init.BlockInit? then Failure(TypeError(OscillatorInitializer, OtherInitializer))
    else OscItems(init, |init.items|, blocks)
  }

  /**
   * The first `n` items of an oscillator initializer applied to the default oscillator:
   * the value is resolved first, then the key is checked; the first error wins. Only the
   * frequency can be set, so phase and waveform stay at their defaults.
   */
  function OscItems(init: Init, n: nat, blocks: map<string, Handle>): (r: Result<Block, Error>)
    requires init.BlockInit? && n <= |init.items|
    ensures r.Success? ==> r.value.OscillatorBlock? && Refs(r.value) <= blocks.Values
    ensures r.Success? ==> r.value.phase == 0.0 && r.value.wave == Sinus
    decreases init, 1, n
  {
    if n == 0 then Success(Oscillators.Default())
    else
      var prev := OscItems(init, n - 1, blocks);
      if prev.Failure? then prev
      else
        var item := init.items[n - 1];
        assert item in init.items;
        var rhs := ParamRhs(item.value, blocks);
        if rhs.Failure? then Failure(rhs.error)
        else if item.key in FREQUENCY_KEYS then Success(Oscillators.UpdateFrequency(prev.value, rhs.value))
        else Failure(UnknownProperty(item.key, OscillatorKind))
  }

  /** `parse_amp_init`: the items are applied, in order, to an empty amplifier. */
  function AmpInit(init: Init, blocks: map<string, Handle>): (r: Result<Block, Error>)
    ensures r.Success? ==> r.value.AmplifierBlock? && Refs(r.value) <= blocks.Values
    decreases init, 2
  {
    if !init.BlockInit? then Failure(TypeError(OscillatorInitializer, OtherInitializer))
    else AmpItems(init, |init.items|, blocks)
  }

  /**
   * The first `n` items of an amplifier initializer: `source` sets the signal of the first
   * pair and `multiplicator` its gain; the value is resolved before the key is checked.
   */
  function AmpItems(init: Init, n: nat, blocks: map<string, Handle>): (r: Result<Block, Error>)
    requires init.BlockInit? && n <= |init.items|
    ensures r.Success? ==> r.value.AmplifierBlock? && Refs(r.value) <= blocks.Values
    decreases init, 1, n
  {
    if n == 0 then Success(Amplifiers.Default())
    else
      var prev := AmpItems(init, n - 1, blocks);
      if prev.Failure? then prev
      else
        var item := init.items[n - 1];
        assert item in init.items;
        var rhs := ParamRhs(item.value, blocks);
        if rhs.Failure? then Failure(rhs.error)
        else if item.key in SOURCE_KEYS || item.key in MULTIPLICATOR_KEYS then
          var first := item.key in SOURCE_KEYS;
          Amplifiers.UpdatedSourcesRefs(prev.value.sources, 0, first, rhs.value);
          Success(AmplifierBlock(Amplifiers.UpdatedSources(prev.value.sources, 0, first, rhs.value)))
        else Failure(UnknownProperty(item.key, AmplifierKind))
  }

  /** Once an item fails, the rest of the initializer is not looked at. */
  lemma {:induction false} OscItemsAbort(init: Init, i: nat, n: nat, blocks: map<string, Handle>)
    requires init.BlockInit? && i <= n <= |init.items| && OscItems(init, i, blocks).Failure?
    ensures OscItems(init, n, blocks) == OscItems(init, i, blocks)
    decreases n
  {
    if n > i {
      OscItemsAbort(init, i, n - 1, blocks);
    }
  }

  lemma {:induction false} AmpItemsAbort(init: Init, i: nat, n: nat, blocks: map<string, Handle>)
    requires init.BlockInit? && i <= n <= |init.items| && AmpItems(init, i, blocks).Failure?
    ensures AmpItems(init, n, blocks) == AmpItems(init, i, blocks)
    decreases n
  {
    if n > i {
      AmpItemsAbort(init, i, n - 1, blocks);
    }
  }

  /** `parse_osc_init` with its loop over the items; it computes `OscInit`. */
  method ParseOscInit(init: Init, blocks: map<string, Handle>) returns (r: Result<Block, Error>)
    ensures r == OscInit(init, blocks)
  {
    if !init.BlockInit? {
      return Failure(TypeError(OscillatorInitializer, OtherInitializer));
    }
    var osc := Oscillators.Default();
    var i := 0;
    while i < |init.items|
      invariant i <= |init.items|
      invariant OscItems(init, i, blocks) == Success(osc)
    {
      var item := init.items[i];
      var rhs := ParamRhs(item.value, blocks);
      if rhs.Failure? {
        OscItemsAbort(init, i + 1, |init.items|, blocks);
        return Failure(rhs.error);
      }
      if item.key in FREQUENCY_KEYS {
        osc := Oscillators.UpdateFrequency(osc, rhs.value);
      } else {
        OscItemsAbort(init, i + 1, |init.items|, blocks);
        return Failure(UnknownProperty(item.key, OscillatorKind));
      }
      i := i + 1;
    }
    r := Success(osc);
  }

  /** `parse_amp_init` with its loop over the items; it computes `AmpInit`. */
  method ParseAmpInit(init: Init, blocks: map<string, Handle>) returns (r: Result<Block, Error>)
    ensures r == AmpInit(init, blocks)
  {
    if !init.BlockInit? {
      return Failure(TypeError(OscillatorInitializer, OtherInitializer));
    }
    var amp := Amplifiers.Default();
    var i := 0;
    while i < |init.items|
      invariant i <= |init.items|
      invariant AmpItems(init, i, blocks) == Success(amp)
    {
      var item := init.items[i];
      var rhs := ParamRhs(item.value, blocks);
      if rhs.Failure? {
        AmpItemsAbort(init, i + 1, |init.items|, blocks);
        return Failure(rhs.error);
      }
      if item.key in SOURCE_KEYS {
        amp := Amplifiers.UpdateSource(amp, 0, true, rhs.value);
      } else if item.key in MULTIPLICATOR_KEYS {
        amp := Amplifiers.UpdateSource(amp, 0, false, rhs.value);
      } else {
        AmpItemsAbort(init, i + 1, |init.items|, blocks);
        return Failure(UnknownProperty(item.key, AmplifierKind));
      }
      i := i + 1;
    }
    r := Success(amp);
  }

  /**
   * The registry after the first `n` assignments, or the first error. Every block refers
   * only to blocks defined before it, so the arena is acyclic and holds exactly the
   * registered cells.
   */
  function Compiled(file: seq<Assignment>, n: nat): (r: Result<Registry.Table, Error>)
    requires n <= |file|
    ensures r.Success? ==> Registry.WellFormed(r.value, {})
  {
    if n == 0 then Success(Mixer.Empty())
    else
      var prev := Compiled(file, n - 1);
      if prev.Failure? then prev
      else
        var a := file[n - 1];
        var b := Initialized(a.ty, a.init, prev.value.blocks);
        if b.Failure? then Failure(b.error)
        else
          Registry.RegisteredSpec(prev.value, {}, a.name, b.value);
          Success(Registry.Registered(prev.value, {}, a.name, b.value))
  }

  /** The first failing assignment decides the result: nothing after it is compiled. */
  lemma {:induction false} CompiledAbort(file: seq<Assignment>, i: nat, n: nat)
    requires i <= n <= |file| && Compiled(file, i).Failure?
    ensures Compiled(file, n) == Compiled(file, i)
    decreases n
  {
    if n > i {
      CompiledAbort(file, i, n - 1);
    }
  }

  /** The dispatch of `parse_stage2` on the declared kind; it computes `Initialized`. */
  method ParseInit(ty: HarmoniconType, init: Init, blocks: map<string, Handle>) returns (b: Result<Block, Error>)
    ensures b == Initialized(ty, init, blocks)
  {
    match ty {
      case ConstantKind => b := ConstInit(init);
      case OscillatorKind => b := ParseOscInit(init, blocks);
      case AmplifierKind => b := ParseAmpInit(init, blocks);
    }
  }

  /** `parse_stage2`: a fresh mixer gets every assignment in order; any error aborts and no mixer is returned. */
  method ParseStage2(file: seq<Assignment>) returns (r: Result<Mixer.HarmoniconMixer, Error>)
    ensures r.Success? ==> fresh(r.value) && r.value.Valid() && Compiled(file, |file|) == Success(r.value.Table())
    ensures r.Failure? ==> Compiled(file, |file|) == Failure(r.error)
  {
    var mixer := new Mixer.HarmoniconMixer();
    var i := 0;
    while i < |file|
      invariant i <= |file| && fresh(mixer) && mixer.Valid()
      invariant Compiled(file, i) == Success(mixer.Table())
    {
      var a := file[i];
      var b := ParseInit(a.ty, a.init, mixer.blocks);
      if b.Failure? {
        CompiledAbort(file, i + 1, |file|);
        return Failure(b.error);
      }
      ghost var before := mixer.Table();
      var _ := mixer.RegisterBlock(a.name, b.value);
      assert Compiled(file, i + 1) == Success(Registry.Registered(before, {}, a.name, b.value));
      i := i + 1;
    }
    r := Success(mixer);
  }

  /** The names defined by the first `n` assignments. */
  function Names(file: seq<Assignment>, n: nat): set<string>
    requires n <= |file|
  {
    set i | 0 <= i < n :: file[i].name
  }

  /** After `n` assignments the registry holds exactly the names they defined. */
  lemma {:induction false} CompiledNames(file: seq<Assignment>, n: nat)
    requires n <= |file| && Compiled(file, n).Success?
    ensures Compiled(file, n).value.blocks.Keys == Names(file, n)
  {
    if n > 0 {
      CompiledNames(file, n - 1);
      assert Names(file, n) == Names(file, n - 1) + {file[n - 1].name};
    }
  }

  /**
   * A value is resolved before its key is checked: an item naming an unregistered block
   * fails with `UnknownBlock`, whatever its key.
   */
  lemma UnknownNameFirst(ty: HarmoniconType, items: seq<Item>, blocks: map<string, Handle>, name: string)
    requires ty != ConstantKind && |items| > 0 && items[0].value == NameRhs(name) && name !in blocks
    ensures Initialized(ty, BlockInit(items), blocks) == Failure(UnknownBlock(name))
  {
    var init := BlockInit(items);
    assert init.items[0] == items[0];
    if ty == OscillatorKind {
      assert OscItems(init, 1, blocks) == Failure(UnknownBlock(name));
      OscItemsAbort(init, 1, |items|, blocks);
    } else {
      assert AmpItems(init, 1, blocks) == Failure(UnknownBlock(name));
      AmpItemsAbort(init, 1, |items|, blocks);
    }
  }

  /**
   * A key the block kind does not know fails with `UnknownProperty`, naming the key and the
   * kind: the oscillator knows only `frequency`/`freq`, the amplifier only
   * `source`/`src` and `multiplicator`/`mult`.
   */
  lemma UnknownKeyFirst(ty: HarmoniconType, items: seq<Item>, blocks: map<string, Handle>)
    requires ty != ConstantKind && |items| > 0 && ParamRhs(items[0].value, blocks).Success?
    requires ty == OscillatorKind ==> items[0].key !in FREQUENCY_KEYS
    requires ty == AmplifierKind ==> items[0].key !in SOURCE_KEYS + MULTIPLICATOR_KEYS
    ensures Initialized(ty, BlockInit(items), blocks)
         == Failure(UnknownProperty(items[0].key, ty))
  {
    var init := BlockInit(items);
    assert init.items[0] == items[0];
    if ty == OscillatorKind {
      OscItemsAbort(init, 1, |items|, blocks);
    } else {
      AmpItemsAbort(init, 1, |items|, blocks);
    }
  }

  /**
   * An initializer of the wrong form is a `TypeError`; the amplifier reports that it
   * expected an "oscillator initializer", as the oscillator does.
   */
  lemma WrongInitializer(items: seq<Item>, v: real, blocks: map<string, Handle>)
    ensures Initialized(ConstantKind, BlockInit(items), blocks)
         == Failure(TypeError(ConstantInitializer, OtherInitializer))
    ensures Initialized(OscillatorKind, ValueInit(v), blocks)
         == Failure(TypeError(OscillatorInitializer, OtherInitializer))
    ensures Initialized(AmplifierKind, ValueInit(v), blocks)
         == Failure(TypeError(OscillatorInitializer, OtherInitializer))
  {
  }

  /**
   * A file whose assignment `k` uses, in its first item, a name that no earlier assignment
   * defined fails with `UnknownBlock`: names resolve only backwards, so a block cannot
   * refer to itself or to a later block.
   */
  lemma ForwardReferenceFails(file: seq<Assignment>, k: nat, name: string)
    requires k < |file| && Compiled(file, k).Success?
    requires file[k].ty != ConstantKind && file[k].init.BlockInit? && |file[k].init.items| > 0
    requires file[k].init.items[0].value == NameRhs(name)
    requires forall i :: 0 <= i < k ==> file[i].name != name
    ensures Compiled(file, |file|) == Failure(UnknownBlock(name))
  {
    CompiledNames(file, k);
    var t := Compiled(file, k).value;
    assert name !in Names(file, k);
    UnknownNameFirst(file[k].ty, file[k].init.items, t.blocks, name);
    assert Compiled(file, k + 1) == Failure(UnknownBlock(name));
    CompiledAbort(file, k + 1, |file|);
  }

  /** No name is defined twice among the first `n` assignments. */
  predicate DistinctNames(file: seq<Assignment>, n: nat)
    requires n <= |file|
  {
    forall i, j :: 0 <= i < j < n ==> file[i].name != file[j].name
  }

  /**
   * When no name is defined twice, no block is ever dropped, so every Named reference in
   * the compiled registry resolves.
   */
  lemma {:induction false} DistinctNamesResolve(file: seq<Assignment>, n: nat)
    requires n <= |file| && DistinctNames(file, n) && Compiled(file, n).Success?
    ensures Resolved(Compiled(file, n).value.cells)
  {
    if n > 0 {
      var prev := Compiled(file, n - 1).value;
      DistinctNamesResolve(file, n - 1);
      CompiledNames(file, n - 1);
      var a := file[n - 1];
      assert a.name !in prev.blocks;
      var b := Initialized(a.ty, a.init, prev.blocks).value;
      var t := Compiled(file, n).value;
      assert t == Registry.Registered(prev, {}, a.name, b);
      forall h | h in prev.cells ensures h in t.cells && t.cells[h] == prev.cells[h] {
        var m :| m in prev.blocks && prev.blocks[m] == h;
        assert t.blocks[m] == h;
        assert h in t.blocks.Values;
      }
    }
  }

  /**
   * Redefining a name drops the first block, and a Named reference taken to it before
   * dangles: here `b` refers to the first `a`, which the second `a` replaces.
   */
  lemma RedefinitionDangles()
    ensures var file := [
        Assignment(ConstantKind, "a", ValueInit(1.0)),
        Assignment(OscillatorKind, "b", BlockInit([Item("freq", NameRhs("a"))])),
        Assignment(ConstantKind, "a", ValueInit(2.0))];
      && Compiled(file, 3).Success?
      && !Resolved(Compiled(file, 3).value.cells)
  {
    var file := [
        Assignment(ConstantKind, "a", ValueInit(1.0)),
        Assignment(OscillatorKind, "b", BlockInit([Item("freq", NameRhs("a"))])),
        Assignment(ConstantKind, "a", ValueInit(2.0))];
    var t0 := Mixer.Empty();
    var a1 := ConstantBlock(1.0);
    assert Compiled(file, 1) == Success(Registry.Registered(t0, {}, "a", a1));
    var t1 := Registry.Registered(t0, {}, "a", a1);
    assert t1.blocks == map["a" := 0] && t1.next == 1;
    var b := OscillatorBlock(Named(0), 0.0, Sinus);
    assert Initialized(OscillatorKind, file[1].init, t1.blocks) == Success(b);
    assert Compiled(file, 2) == Success(Registry.Registered(t1, {}, "b", b));
    var t2 := Registry.Registered(t1, {}, "b", b);
    Registry.RegisteredSpec(t1, {}, "b", b);
    var a2 := ConstantBlock(2.0);
    assert Compiled(file, 3) == Success(Registry.Registered(t2, {}, "a", a2));
    var t3 := Registry.Registered(t2, {}, "a", a2);
    Registry.RegisteredSpec(t2, {}, "a", a2);
    assert t2.blocks["a"] == 0 && t2.blocks["b"] == 1;
    assert 0 !in t3.cells && t3.cells[1] == b;
    assert 0 in Refs(t3.cells[1]);
  }
}
