/**
 * `HarmoniconMixer` (src/mixer.rs): the registry the compile step fills, played as an
 * infinite mono source whose samples are the value of the block named "out".
 */
module Mixer {
  import opened Wrappers
  import opened Blocks
  import Signal
  import Registry

  /** The mixer is a mono source at the engine's sample rate, with no end. */
  const CHANNELS: nat := 1
  const SAMPLE_RATE: nat := 44100
  const TOTAL_DURATION: Option<real> := None

  /** The name whose block the mixer plays. */
  const OUT: string := "out"

  /** `new()`: no block registered. */
  function Empty(): (t: Registry.Table)
    ensures Registry.WellFormed(t, {}) && forall n :: Registry.Lookup(t, n) == None
  {
    Registry.Table(map[], map[], 0)
  }

  class HarmoniconMixer {
    var blocks: map<string, Handle>
    var cells: map<Handle, Block>
    var next: Handle

    ghost function Table(): Registry.Table
      reads this
    {
      Registry.Table(blocks, cells, next)
    }

    /** Only the registered cells are alive: the mixer is their only owner. */
    ghost predicate Valid()
      reads this
    {
      Registry.WellFormed(Table(), {})
    }

    constructor()
      ensures Valid() && Table() == Empty()
    {
      blocks := map[];
      cells := map[];
      next := 0;
    }

    /**
     * `register_block`: the block gets a fresh cell under `name`, replacing any previous
     * entry, and that cell is returned. The block may refer only to cells that exist.
     */
    method RegisterBlock(name: string, b: Block) returns (h: Handle)
      requires Valid() && forall r :: r in Refs(b) ==> r < next
      modifies this
      ensures Table() == Registry.Registered(old(Table()), {}, name, b) && Valid()
      ensures h == old(next) && blocks[name] == h && cells[h] == b
    {
      Registry.RegisteredSpec(Table(), {}, name, b);
      h := next;
      blocks := blocks[name := h];
      cells := Registry.Retained(cells, blocks.Values + {})[h := b];
      next := next + 1;
    }

    /** `get_block`: the live cell registered under `name`, or nothing. */
    function GetBlock(name: string): (r: Option<Handle>)
      requires Valid()
      reads this
      ensures r == Registry.Lookup(Table(), name)
      ensures r.Some? ==> r.value in cells
    {
      if name in blocks then Some(blocks[name]) else None
    }

    /**
     * `next`: every registry entry is stepped once, in the map's order, and the sample is
     * the mono value of the block named "out", which must be registered.
     */
    method Next(sine: real -> real) returns (sample: Option<real>, ghost order: seq<string>)
      requires Valid() && Registry.Runnable(cells, blocks) && OUT in blocks && CellReadable(cells, blocks[OUT], Mono)
      modifies this
      ensures Registry.Enumerates(order, blocks) && blocks == old(blocks) && next == old(next)
      ensures cells == Registry.Frame(sine, old(cells), blocks, order)
      ensures Valid() && Registry.Runnable(cells, blocks) && CellReadable(cells, blocks[OUT], Mono)
      ensures sample == Some(Signal.CellOut(sine, cells, blocks[OUT], Mono))
    {
      var stepped;
      stepped, order := Registry.StepEntries(sine, cells, blocks);
      Registry.SameSkeletonsWellFormed(Table(), stepped, {});
      sample := Some(Signal.CellOut(sine, stepped, blocks[OUT], Mono));
      cells := stepped;
    }
  }
}
