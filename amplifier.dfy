/**
 * The local rules of `AmplifierBlock` (src/blocks/amplifier.rs): a list of
 * (signal, gain) pairs whose products are summed. `update_source` grows the list with
 * neutral pairs before it assigns into it.
 */
module Amplifiers {
  import opened Blocks

  /** `impl Default for AmplifierBlock`: no pairs. */
  function Default(): (b: Block)
    ensures b.AmplifierBlock? && |b.sources| == 0 && Children(b) == []
  {
    AmplifierBlock([])
  }

  /** The pair `update_source` pushes to fill a gap: an owned constant 0 times an owned constant 1. */
  function GapPair(): Input
  {
    Input(DefaultSource(), Anonymous(ConstantBlock(1.0)))
  }

  /** The `while` loop of `update_source`: push gap pairs until index `n` exists. */
  function Padded(ps: seq<Input>, n: nat): seq<Input>
    decreases n + 1 - |ps|
  {
    if |ps| <= n then Padded(ps + [GapPair()], n) else ps
  }

  lemma {:induction false} PaddedSpec(ps: seq<Input>, n: nat)
    ensures |Padded(ps, n)| == if |ps| <= n then n + 1 else |ps|
    ensures Padded(ps, n)[..|ps|] == ps
    ensures forall i :: |ps| <= i < |Padded(ps, n)| ==> Padded(ps, n)[i] == GapPair()
    decreases n + 1 - |ps|
  {
    if |ps| <= n {
      var ps' := ps + [GapPair()];
      PaddedSpec(ps', n);
      assert Padded(ps', n)[..|ps'|][..|ps|] == ps;
    }
  }

  /** The pairs after `update_source(n, first, source)`. */
  function UpdatedSources(ps: seq<Input>, n: nat, first: bool, source: Source): seq<Input>
  {
    var qs := Padded(ps, n);
    PaddedSpec(ps, n);
    if first then qs[n := qs[n].(signal := source)] else qs[n := qs[n].(gain := source)]
  }

  /**
   * `update_source` leaves max(old length, n + 1) pairs; pairs other than `n` keep their
   * old value or are gap pairs; pair `n` gets `source` as its signal (`first`) or its gain,
   * and keeps its other half, which is the gap pair's when `n` was out of range.
   */
  lemma UpdatedSourcesSpec(ps: seq<Input>, n: nat, first: bool, source: Source)
    ensures |UpdatedSources(ps, n, first, source)| == if n < |ps| then |ps| else n + 1
    ensures forall i :: 0 <= i < |ps| && i != n ==> UpdatedSources(ps, n, first, source)[i] == ps[i]
    ensures forall i :: |ps| <= i < n ==> UpdatedSources(ps, n, first, source)[i] == GapPair()
    ensures var old_ := if n < |ps| then ps[n] else GapPair();
      UpdatedSources(ps, n, first, source)[n] ==
        if first then Input(source, old_.gain) else Input(old_.signal, source)
  {
    PaddedSpec(ps, n);
    var qs := Padded(ps, n);
    forall i | 0 <= i < |ps| ensures qs[i] == ps[i] {
      assert qs[..|ps|][i] == qs[i];
    }
  }

  /** The references of the updated amplifier: the old ones and those of `source`. */
  lemma UpdatedSourcesRefs(ps: seq<Input>, n: nat, first: bool, source: Source)
    ensures Refs(AmplifierBlock(UpdatedSources(ps, n, first, source))) <= Refs(AmplifierBlock(ps)) + SourceRefs(source)
  {
    UpdatedSourcesSpec(ps, n, first, source);
    var qs := UpdatedSources(ps, n, first, source);
    forall r | r in Refs(AmplifierBlock(qs))
      ensures r in Refs(AmplifierBlock(ps)) + SourceRefs(source)
    {
      var i :| 0 <= i < |qs| && r in SourceRefs(qs[i].signal) + SourceRefs(qs[i].gain);
      if i < |ps| && i != n {
        assert r in SourceRefs(ps[i].signal) + SourceRefs(ps[i].gain);
      } else if i == n && n < |ps| {
        assert r in SourceRefs(ps[i].signal) + SourceRefs(ps[i].gain) + SourceRefs(source);
      }
    }
  }

  /**
   * An amplifier readable on a channel stays readable there after `update_source` with a
   * source readable on that channel: the gap pairs are constants.
   */
  lemma UpdatedSourcesReadable(cells: map<Handle, Block>, ps: seq<Input>, n: nat, first: bool, source: Source,
                               bound: Handle, ch: Channel)
    requires Readable(cells, AmplifierBlock(ps), bound, ch) && SourceReadable(cells, source, bound, ch)
    ensures Readable(cells, AmplifierBlock(UpdatedSources(ps, n, first, source)), bound, ch)
  {
    UpdatedSourcesSpec(ps, n, first, source);
    var qs := UpdatedSources(ps, n, first, source);
    forall i | 0 <= i < |qs|
      ensures SourceReadable(cells, qs[i].signal, bound, ch) && SourceReadable(cells, qs[i].gain, bound, ch)
    {
      if i < |ps| {
        assert SourceReadable(cells, ps[i].signal, bound, ch) && SourceReadable(cells, ps[i].gain, bound, ch);
      }
    }
  }

  /** `update_source` on an amplifier, with its gap-filling loop. */
  method UpdateSource(b: Block, n: nat, first: bool, source: Source) returns (r: Block)
    requires b.AmplifierBlock?
    ensures r == AmplifierBlock(UpdatedSources(b.sources, n, first, source))
  {
    var sources := b.sources;
    while |sources| <= n
      invariant Padded(sources, n) == Padded(b.sources, n)
      decreases n + 1 - |sources|
    {
      sources := sources + [GapPair()];
    }
    if first {
      sources := sources[n := sources[n].(signal := source)];
    } else {
      sources := sources[n := sources[n].(gain := source)];
    }
    r := AmplifierBlock(sources);
  }

  /** The sum `Iterator::sum` folds over the pair products. */
  function Sum(xs: seq<real>): real
  {
    if xs == [] then 0.0 else Sum(xs[..|xs| - 1]) + xs[|xs| - 1]
  }

  /** The sum of no products is 0 and the sum of one product is that product. */
  lemma SumSmall(x: real)
    ensures Sum([]) == 0.0 && Sum([x]) == x
  {
    assert [x][..0] == [];
  }
}
