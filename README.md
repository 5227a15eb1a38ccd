# harmonicon signal graph, modelled in Dafny

harmonicon is a small synthesizer. A text file declares named signal blocks and wires
them into a graph. The engine steps every block once per audio sample and reads the output
block's value.

This project models the engine's core:

- **Blocks.** The five kinds are constant, oscillator, amplifier, sequencer and stereo
  panner. Each has its own `step`, its `get_mono`/`get_left`/`get_right` outputs, its
  children and its `sync_from` state transfer.
- **Sources.** A block's input is either an owned anonymous block or a non-owning
  reference to a block registered under a name.
- **Registries.** `HarmoniconMixer` (`src/mixer.rs`) and `HarmoniconDriver`
  (`src/driver.rs`) hold blocks by name and step every entry for each sample. The
  driver also produces stereo frames, and it hot-reloads a freshly compiled graph while
  carrying the running state across.
- **Compile step.** `parse_stage2` (`src/parse.rs`) turns the syntax tree into a mixer.
- **Notes.** The note names and frequencies of `src/note.rs`.

Shared blocks behind `Arc<Mutex<_>>` are modelled as an arena, `map<Handle, Block>`,
where `Handle` is a natural number. A named source holds the handle of its cell, and an
anonymous source holds its block by value. Dropping the last owning name of a block removes
its cell (`Registry.Retained`). A `Weak` reference that no longer upgrades is a handle with
no cell.

The graph is acyclic because a block can only refer to blocks registered before it. The
model keeps this as an invariant: every handle a cell refers to is smaller than the cell's
own handle. Each recursive walk (output, step, sync) descends through these
smaller handles.

Walks over a Rust `HashMap` visit the entries in an order the program does not fix.
The model makes that order an explicit ghost sequence of names that enumerates the map
(`Registry.Enumerates`), and each result is stated for every such order. This covers
stepping all blocks, in `next`, and transferring state, in `update`.

The audio sample type is `f32`, modelled as `real`. Sine is a parameter `sine: real -> real`
of every member that computes an output.

The modules follow the source files:

| module | file | source |
|---|---|---|
| `Notes` | notes.dfy | src/note.rs |
| `Blocks` | blocks.dfy | src/blocks/mod.rs (the shared types and invariants) |
| `Constants` | constant.dfy | src/blocks/constant.rs |
| `Oscillators` | oscillator.dfy | src/blocks/oscillator.rs |
| `Amplifiers` | amplifier.dfy | src/blocks/amplifier.rs |
| `Sequencers` | sequencer.dfy | src/blocks/sequencer.rs |
| `Stereos` | stereo.dfy | src/blocks/stereo.rs |
| `Signal` | signal.dfy | output and step over all kinds; the `step`/`get_*` methods of every block file |
| `Sync` | sync.dfy | `sync_from`/`sync_children_from` |
| `Registry` | registry.dfy | the name table shared by the mixer and the driver |
| `Mixer` | mixer.dfy | src/mixer.rs |
| `Driver` | driver.dfy | src/driver.rs |
| `Parse` | parse.dfy | src/parse.rs, stage 2 |
| `Wrappers` | wrappers.dfy | `Option` and `Result` |

## Model

| member | source | states |
|---|---|---|
| Notes.FromStr | src/note.rs:24-36 | exactly the seven note letters and `-` parse; every parsed note has a non-negative frequency, and frequency 0 is exactly the rest `-` |
| Notes.FromStrReference | src/note.rs:7-14 | `A` is 440 Hz and `-` is the silent note of frequency 0 |
| Notes.FromStrRejectsOtherSpellings | src/note.rs:24-36 | `B`, lower-case letters and the empty string are rejected |
| Notes.NotesAscending | src/note.rs:7-14 | the note constants rise strictly from C to H, all above 0 |
| Notes.FromStrInjective | src/note.rs:24-36 | two spellings that parse to the same note are the same spelling |
| Blocks.BlockTypeFromStr | src/blocks/mod.rs:113-123 | a string parses to a block type exactly when it is one of that type's spellings |
| Blocks.Flatten | src/blocks/amplifier.rs:59-66 | an amplifier's children are its input pairs in order, signal then gain, two per pair |
| Blocks.Paired | src/blocks/amplifier.rs:59-66 | regrouping an even list of children into pairs is the inverse of flattening |
| Blocks.WithChildren | src/blocks/mod.rs:37-45 | replacing a block's children yields exactly the given children and keeps the kind and the oscillator's phase and waveform |
| Blocks.SameSkeletonsKeepInvariants | src/blocks/mod.rs:70-84 | changing only runtime state (phase, progress) keeps the graph acyclic and free of dangling references |
| Blocks.SameSkeletonsReach | src/blocks/mod.rs:70-84 | changing only runtime state leaves the set of cells a cell reaches through references unchanged |
| Blocks.SkeletonReadable | src/blocks/mod.rs:86-96 | whether a block can be read on a channel without a panic does not depend on its own runtime state (phase, progress) |
| Blocks.SourceSkeletonReadable | src/blocks/mod.rs:86-96 | the same for a source |
| Blocks.SkeletonSteppable | src/blocks/mod.rs:78-84 | whether a block can be stepped without a panic does not depend on its own runtime state |
| Blocks.SourceSkeletonSteppable | src/blocks/mod.rs:78-84 | the same for a source |
| Blocks.SameSkeletonsReadableAt | src/blocks/mod.rs:86-96 | whether a block can be read on a channel is the same in two arenas that differ only in runtime state |
| Blocks.SameSkeletonsSourceReadable | src/blocks/mod.rs:86-96 | the same for a source |
| Blocks.SameSkeletonsSteppableAt | src/blocks/mod.rs:78-84 | whether a block can be stepped is the same in two arenas that differ only in runtime state |
| Blocks.SameSkeletonsSourceSteppable | src/blocks/mod.rs:78-84 | the same for a source |
| Blocks.SameSkeletonsReadable | src/blocks/mod.rs:70-96 | a cell whose output can be read on a channel without a panic can still be read there after runtime state changed |
| Blocks.SameSkeletonsSteppable | src/blocks/mod.rs:70-84 | a cell that can be stepped without a panic, and a cell that can be read on a channel, stay so after runtime state changed |
| Blocks.AmplifierAppendRefs | src/blocks/amplifier.rs:59-66 | appending an input pair adds exactly that pair's references to the amplifier's |
| Blocks.AmplifierAppendReadable | src/blocks/amplifier.rs:33-49 | an amplifier with one more pair can be read on a channel exactly when the shorter one can and both sources of the new pair can |
| Blocks.InnerWithin | src/blocks/mod.rs:70-76 | in a resolved arena, `inner` of a named source finds a live cell whose references are live |
| Blocks.SignalBlockChildren.constructor | src/blocks/mod.rs:100-102 | a new children queue is empty |
| Blocks.SignalBlockChildren.Push | src/blocks/mod.rs:104-106 | pushing appends the child at the back of the queue |
| Blocks.SignalBlockChildren.Next | src/blocks/mod.rs:135-137 | the iterator yields the front child and removes it, or nothing once the queue is empty |
| Blocks.CollectChildren | src/blocks/mod.rs:33-35 | a block's children are pushed in the order `children` lists them |
| Blocks.Drain | src/blocks/mod.rs:132-138 | iterating the queue to the end yields its contents in order and leaves it empty |
| Constants.New | src/blocks/constant.rs:8-10 | a constant block holds the given value and has no children or references |
| Constants.Default | src/blocks/constant.rs:24-28 | the default constant is the constant 0 |
| Constants.DefaultSourceIsDefaultConstant | src/blocks/mod.rs:126-130 | the default source owns a default constant block |
| Oscillators.Default | src/blocks/oscillator.rs:83-91 | the default oscillator is a sine at phase 0 driven by an owned constant 440 Hz |
| Oscillators.UpdateFrequency | src/blocks/oscillator.rs:22-24 | only the frequency source changes |
| Oscillators.UpdateWaveform | src/blocks/oscillator.rs:26-28 | only the waveform changes |
| Oscillators.WrapDownSpec | src/blocks/oscillator.rs:40-42 | subtracting 1 while above 1 ends in (0, 1], differs from the input by a whole number, and leaves inputs up to 1 alone |
| Oscillators.WrapUpSpec | src/blocks/oscillator.rs:43-45 | adding 1 while below 0 ends in [0, 1), differs by a whole number, and leaves non-negative inputs alone |
| Oscillators.WrappedSpec | src/blocks/oscillator.rs:40-45 | the wrapped phase lies in [0, 1], differs from the input by a whole number, and is the input itself when that already lies in [0, 1] |
| Oscillators.WrapPhase | src/blocks/oscillator.rs:40-45 | the two wrap loops compute the wrapped phase |
| Oscillators.Fract | src/blocks/oscillator.rs:48-57 | `fract` lies in [0, 1) and is the distance to the integer toward zero |
| Oscillators.FractOfPhase | src/blocks/oscillator.rs:48-57 | on a wrapped phase, `fract` is the phase itself except that 1 maps to 0 |
| Oscillators.WaveShapes | src/blocks/oscillator.rs:48-57 | sawtooth is `1 - fract` in (0, 1]; square is 1 on the first half-period and 0 on the second; triangle lies in [0, 1) then in (-1, 0]; sinus is `sin(2πφ)` |
| Oscillators.WavePeriodic | src/blocks/oscillator.rs:48-57 | every waveform has period 1 in the phase, given a sine of period 2π |
| Oscillators.Advanced | src/blocks/oscillator.rs:33-46 | the phase after a step lies in [0, 1] |
| Oscillators.AdvancedMovesByFrequency | src/blocks/oscillator.rs:33-46 | a step moves the phase by frequency/44100 modulo whole periods, and by exactly that when the sum stays in [0, 1] |
| Amplifiers.Default | src/blocks/amplifier.rs:69-75 | the default amplifier has no inputs and no children |
| Amplifiers.PaddedSpec | src/blocks/amplifier.rs:13-15 | padding keeps the existing pairs and appends default pairs until index n exists |
| Amplifiers.UpdatedSourcesSpec | src/blocks/amplifier.rs:12-22 | setting slot n of input n leaves every other input unchanged, fills any gap with default pairs, and replaces only the chosen half of input n |
| Amplifiers.UpdatedSourcesRefs | src/blocks/amplifier.rs:12-22 | the updated amplifier refers to nothing beyond its old references and the new source |
| Amplifiers.UpdatedSourcesReadable | src/blocks/amplifier.rs:12-22 | an amplifier that can be read on a channel can still be read there after a source readable on that channel is set; the gap pairs are constants |
| Amplifiers.UpdateSource | src/blocks/amplifier.rs:12-22 | the padding loop and the slot update compute the updated inputs |
| Amplifiers.SumSmall | src/blocks/amplifier.rs:33-37 | the sum of no products is 0 and of one product is that product |
| Sequencers.Default | src/blocks/sequencer.rs:57-66 | the default sequencer has no notes, progress 0, 120 bpm and the default spacing |
| Sequencers.UpdateSequence | src/blocks/sequencer.rs:14-16 | only the note sequence changes |
| Sequencers.UpdateBpm | src/blocks/sequencer.rs:18-20 | only the bpm source changes |
| Sequencers.UpdateSpacing | src/blocks/sequencer.rs:22-24 | only the spacing source changes |
| Sequencers.Advanced | src/blocks/sequencer.rs:29-34 | a step that stays within the loop adds exactly bpm/60/44100 beats; one that passes its end adds that and subtracts the loop length once |
| Sequencers.AdvancedStaysInLoop | src/blocks/sequencer.rs:29-34 | progress stays within [0, loop length], and wraps back by exactly one loop once it passes the end |
| Sequencers.Round | src/blocks/sequencer.rs:36-42 | rounding is to the nearest integer, halves away from zero |
| Sequencers.AsUsize | src/blocks/sequencer.rs:36-42 | the saturating cast to `usize` never exceeds `usize::MAX` and is the floor for inputs in range |
| Sequencers.OutputIsNoteOrSilence | src/blocks/sequencer.rs:36-42 | a sequencer outputs silence or the frequency of one of its notes |
| Sequencers.OutputDuringBeat | src/blocks/sequencer.rs:36-42 | with spacing below 0.05, during beat k the output is note k modulo the sequence length |
| Sequencers.SilentOnBeat | src/blocks/sequencer.rs:36-42 | with spacing at least 0.05, the output is silent on every whole beat |
| Stereos.Default | src/blocks/stereo.rs:4-9 | the default panner has default sources for left, right and shift, which are its three children |
| Stereos.UpdateLeft | src/blocks/stereo.rs:13-15 | only the left source changes |
| Stereos.UpdateRight | src/blocks/stereo.rs:17-19 | only the right source changes |
| Stereos.UpdateShift | src/blocks/stereo.rs:21-23 | only the shift source changes |
| Stereos.RightShare | src/blocks/stereo.rs:38-46 | the left share is (1 - shift)/2, so a shift in [-1, 1] gives a right share in [0, 1] |
| Signal.Out | src/blocks/mod.rs:16-31 | the value of a block on a channel. It is the reference definition for the reading lemmas below (DefaultChannels, AmplifierAppend, StereoIgnoresRight, the Stereo lemmas), for the phase and progress in OscillatorStep and SequencerStep, and for the samples of Mixer.HarmoniconMixer.Next and Driver.HarmoniconDriver.Next. It is defined exactly when the read on that channel cannot panic (`Blocks.Readable`). A constant yields its value, an oscillator other than the sine stays within [-1, 1], and a sequencer yields silence or the frequency of one of its own notes |
| Signal.SourceOut | src/blocks/mod.rs:86-96 | `get_*` of a source reads the same channel of its `inner()` block: the owned block, or the cell a named source refers to, which must exist. A constant there yields its value, and an oscillator other than the sine stays within [-1, 1] |
| Signal.CellOut | src/driver.rs:115-116 | the value of a top-level cell on a channel, as the driver reads its output's left and right and the mixer reads "out" on mono. A constant cell yields its value, and a sequencer cell silence or the frequency of one of its notes |
| Signal.Products | src/blocks/amplifier.rs:33-49 | one product per input pair, over the first n pairs |
| Signal.ProductAt | src/blocks/amplifier.rs:33-49 | product i is pair i's signal times its gain, both read on the same channel |
| Signal.ProductsAgree | src/blocks/amplifier.rs:33-49 | two amplifiers whose first n pairs agree have the same first n products |
| Signal.Stepped | src/blocks/mod.rs:78-84 | stepping changes only runtime state, never the graph's shape; it needs only that the sources the step reads, an oscillator's frequency and a sequencer's bpm, can be read on mono |
| Signal.SteppedSource | src/blocks/mod.rs:78-84 | stepping a source keeps its shape |
| Signal.StepCell | src/blocks/mod.rs:78-84 | stepping one cell changes only that cell, keeps the arena acyclic, and keeps every cell that could be stepped or read steppable or readable |
| Signal.Step | src/blocks/mod.rs:78-84 | the per-kind step methods compute the stepped block |
| Signal.StepSource | src/blocks/mod.rs:78-84 | stepping a source steps its anonymous block and leaves a named one alone |
| Signal.NamedSourceInert | src/blocks/mod.rs:78-96 | a named source is not stepped through its reference, and on every channel its output is the referenced cell's |
| Signal.DefaultChannels | src/blocks/mod.rs:25-31 | constants, oscillators and sequencers that can be read on mono can be read on the left and right channels too, and output the same value there |
| Signal.ConstantBehaviour | src/blocks/constant.rs:15-21 | a constant outputs its value on every channel and stepping leaves it unchanged; the default source outputs 0 |
| Signal.ProductsAppend | src/blocks/amplifier.rs:33-49 | appending a pair appends the product of its signal and gain (`PairOut`); the shorter amplifier and the new pair's sources can then be read |
| Signal.AmplifierAppend | src/blocks/amplifier.rs:33-49 | an amplifier outputs the sum over its pairs of signal times gain (`PairOut`), on every channel |
| Signal.EmptyAmplifierSilent | src/blocks/amplifier.rs:69-75 | the default amplifier outputs 0 |
| Signal.AmplifierIdentity | src/blocks/amplifier.rs:33-49 | one pair with gain 1 passes its signal through unchanged |
| Signal.StereoMono | src/blocks/stereo.rs:34-36 | the mono output is left plus half of right, as written |
| Signal.StereoIgnoresRight | src/blocks/stereo.rs:38-46 | the left and right outputs neither read the right source nor depend on it: with any other right source they can still be read and yield the same values |
| Signal.StereoCentred | src/blocks/stereo.rs:38-46 | at shift 0, each side outputs half of the left source |
| Signal.StereoHardLeft | src/blocks/stereo.rs:38-46 | at shift -1, all of the left source goes left and nothing goes right |
| Signal.StereoHardRight | src/blocks/stereo.rs:38-46 | at shift 1, nothing goes left and all of the left source goes right |
| Signal.OscillatorStep | src/blocks/oscillator.rs:33-46 | an oscillator steps its frequency source first, then moves its phase by the new frequency/44100 into [0, 1] |
| Signal.SequencerStep | src/blocks/sequencer.rs:29-34 | a sequencer advances its progress by its bpm source's current value and keeps its sources and notes; a step reads the bpm source and nothing else, so a sequencer without notes can be stepped |
| Sync.SyncValue | src/blocks/mod.rs:21-23 | the value a block offers for transfer: an oscillator's phase, a sequencer's progress, otherwise 0 |
| Sync.OwnSynced | src/blocks/mod.rs:37-45 | taking a peer's state changes no children and keeps the shape |
| Sync.Synced | src/blocks/mod.rs:37-45 | transferring state keeps the block's and the arena's shape and touches no cell at or above the block's own handle |
| Sync.SyncedHead | src/blocks/mod.rs:37-45 | one pass of the zip keeps the child's shape and touches no cell at or above the bound; a named child, or a child whose paired old child has another type, is returned as is |
| Sync.SyncedChildren | src/blocks/mod.rs:37-45 | the zip returns one child per new child, each of its old shape, and touches no cell at or above the bound |
| Sync.SyncedSource | src/blocks/mod.rs:37-45 | syncing a source keeps its shape and touches no cell at or above the bound; a named source itself is returned as is, its cell being synced in the arena |
| Sync.SyncedCell | src/blocks/mod.rs:37-45 | syncing one cell keeps the arena's shape and touches no later cell |
| Sync.SyncedOscillator | src/blocks/oscillator.rs:59-65 | an oscillator takes its peer's phase when the peer is an oscillator and keeps its waveform |
| Sync.SyncedSequencer | src/blocks/sequencer.rs:48-50 | a sequencer takes its peer's sync value as progress, which is 0 from a constant |
| Sync.SyncedConstant | src/blocks/constant.rs:14-22 | a constant does not change (its `sync_from` is read as a no-op, see Left out) |
| Sync.SyncedChildrenKeeps | src/blocks/mod.rs:37-45 | a named child, a child without a peer and a child whose peer has another type are kept as they are |
| Sync.SyncedTookState | src/blocks/mod.rs:37-45 | a synced block takes its peer's state as its kind prescribes |
| Sync.SyncedChildTakes | src/blocks/mod.rs:37-45 | an owned child whose old child at the same position has the same type becomes its own full `sync_from` of that old child, recursing into the child's children, and so takes the old child's state |
| Sync.SyncedChildTakesNamed | src/blocks/mod.rs:37-45 | the cell of a named child whose old child at the same position has the same type becomes its own full `sync_from` of that old child, recursing into the cell's children, when no other child reaches the cell |
| Sync.SyncedChildrenTakes | src/blocks/mod.rs:37-45 | in the zip, owned child i becomes its own full `sync_from` of old child i when both exist and their types agree, whatever the earlier pairs wrote to the arena |
| Sync.SyncedShapeOnly | src/blocks/mod.rs:37-45 | the block a sync returns is the same in any two arenas that differ only in runtime state: named children come back unchanged and the type test reads only types |
| Sync.SyncedChildrenTakesNamed | src/blocks/mod.rs:37-45 | in the zip, the cell of named child i becomes its own full `sync_from` of old child i when their types agree and no other child reaches it |
| Sync.UnreferencedUnreached | src/blocks/mod.rs:37-45 | a cell that no cell refers to is reached from no other cell |
| Sync.SyncedFrame | src/blocks/mod.rs:37-45 | a sync never changes a cell that none of the block's references reaches |
| Sync.SyncedChildrenFrame | src/blocks/mod.rs:37-45 | the zip never changes a cell that no child's references reach |
| Sync.SyncedCellFrame | src/blocks/mod.rs:37-45 | syncing one cell leaves every other unreferenced cell unchanged |
| Sync.SyncedCellState | src/blocks/mod.rs:37-45 | the synced cell took its peer's state as its kind prescribes |
| Sync.SyncedCellChildTakes | src/blocks/mod.rs:37-45 | syncing a cell also syncs its owned children: an owned child whose old child at the same position has the same type becomes its own full `sync_from` of that child, down through its own children |
| Sync.SyncedCellChildTakesNamed | src/blocks/mod.rs:37-45 | syncing a cell replaces the cell of a named child by its own full `sync_from` of the old child at the same position, down through its children, when their types agree and no other child reaches it |
| Registry.Retained | src/driver.rs:46-57 | dropping the names of a block removes exactly the cells no name or pinned handle keeps |
| Registry.SameSkeletonsWellFormed | src/driver.rs:105-120 | changing only runtime state keeps the table well formed and free of dangling references |
| Registry.RegisteredSpec | src/driver.rs:46-50 | registering binds the name to a new cell holding the block and leaves every other name's binding and cell alone; a replaced block that nothing else owns is dropped |
| Registry.AliasedSpec | src/driver.rs:52-57 | aliasing an existing name makes both names find the same cell; an unknown name changes nothing; no cell's contents change |
| Registry.Frame | src/driver.rs:111-113 | stepping the entries in some order keeps the arena's shape, keeps every entry steppable and every readable cell readable, and changes no cell that no visited name binds |
| Registry.FrameSnoc | src/driver.rs:111-113 | stepping one more entry steps its cell in the arena produced so far |
| Registry.StepEntries | src/driver.rs:111-113 | the loop over the map steps every entry once, in an enumeration of the map |
| Registry.AliasedCellSteppedTwice | src/driver.rs:52-57 | a block registered under two names is stepped twice per sample |
| Registry.FrameOfTwo | src/driver.rs:111-113 | stepping two entries that bind the same cell steps that cell twice |
| Mixer.Empty | src/mixer.rs:15-19 | a new mixer is well formed and knows no name |
| Mixer.HarmoniconMixer.constructor | src/mixer.rs:15-19 | a new mixer holds the empty table |
| Mixer.HarmoniconMixer.RegisterBlock | src/mixer.rs:21-25 | registration behaves as in the registry, with nothing pinned |
| Mixer.HarmoniconMixer.GetBlock | src/mixer.rs:27-29 | lookup by name finds a live cell |
| Mixer.HarmoniconMixer.Next | src/mixer.rs:55-64 | each sample steps every entry once, then yields the mono output of the block named `out`; the mixer can play the next sample as well |
| Driver.Reloaded | src/driver.rs:69-78 | transferring state over the new graph's entries keeps its shape and its readiness for further transfers |
| Driver.ReloadedName | src/driver.rs:69-78 | transferring one entry keeps the shape |
| Driver.ReloadedSnoc | src/driver.rs:69-78 | one more transferred entry syncs its cell in the arena produced so far |
| Driver.ReloadedFrame | src/driver.rs:69-78 | entries that bind other cells leave an unreferenced cell unchanged |
| Driver.ReloadedCell | src/driver.rs:69-78 | an unreferenced cell bound by one matching name has taken its old counterpart's state once that name is visited, and is unchanged before |
| Driver.ReloadedNameFrame | src/driver.rs:69-78 | transferring one entry leaves every other unreferenced cell unchanged |
| Driver.ReloadedNameState | src/driver.rs:69-78 | transferring one entry lets its cell take the old cell's state |
| Driver.ReloadCarriesState | src/driver.rs:69-78 | after a reload, a block whose name existed before has taken the old block's phase or progress, whatever the order of the entries |
| Driver.ReloadKeepsUnmatched | src/driver.rs:69-78 | a block whose names are all new keeps its freshly compiled state |
| Driver.Reload | src/driver.rs:69-78 | the transfer loop computes the reloaded arena in an enumeration of the new entries |
| Driver.Updated | src/driver.rs:63-79 | with no channel or nothing queued the graph is kept; otherwise the first queued graph replaces it, with state carried over, and is consumed |
| Driver.ReloadedReady | src/driver.rs:69-78 | a graph with state carried over is still ready to play |
| Driver.HarmoniconDriver.constructor | src/driver.rs:21-28 | a new driver has no names, no pending sample, no channel, and a default constant as its output, and can play |
| Driver.HarmoniconDriver.SetUpdateRx | src/driver.rs:37-39 | installs the channel and changes nothing else |
| Driver.HarmoniconDriver.SetOutput | src/driver.rs:41-43 | sets the output and releases the old output block unless a name keeps it |
| Driver.HarmoniconDriver.RegisterBlock | src/driver.rs:46-50 | registration behaves as in the registry, with the output pinned |
| Driver.HarmoniconDriver.AliasBlock | src/driver.rs:52-57 | aliasing behaves as in the registry and reports the shared block exactly when the name is known |
| Driver.HarmoniconDriver.GetBlock | src/driver.rs:59-61 | lookup by name finds a live cell |
| Driver.HarmoniconDriver.Update | src/driver.rs:63-79 | one update step on the driver's own graph; a graph taken from the channel is ready to play and has no dangling references |
| Driver.HarmoniconDriver.StepAll | src/driver.rs:111-113 | every entry is stepped once, names, output and pending sample are unchanged, and the graph stays ready to play |
| Driver.HarmoniconDriver.Next | src/driver.rs:105-120 | a pending right sample is returned first; otherwise the driver updates, steps every entry, returns the left sample and keeps the right one pending; a sample is always produced |
| Driver.TwoPulls | src/driver.rs:105-120 | two pulls return one stereo frame, left then right, of the same stepped state |
| Parse.HarmoniconTypeFromStr | src/parse.rs:27-35 | a word parses to a kind exactly when it is one of that kind's spellings |
| Parse.ParamRhs | src/parse.rs:51-64 | a name resolves only to a registered block; anything built refers only to registered cells |
| Parse.Initialized | src/parse.rs:38-49 | an initialised block has the declared kind and refers only to registered cells |
| Parse.ConstInit | src/parse.rs:109-116 | a constant initialiser yields a constant with no references |
| Parse.OscInit | src/parse.rs:66-85 | an oscillator initialiser yields an oscillator referring only to registered cells |
| Parse.OscItems | src/parse.rs:71-82 | the items only set the frequency; phase and waveform keep their defaults |
| Parse.OscItemsAbort | src/parse.rs:71-82 | the first failing item decides the result |
| Parse.ParseOscInit | src/parse.rs:66-85 | the item loop computes the oscillator initialiser |
| Parse.AmpInit | src/parse.rs:87-107 | an amplifier initialiser yields an amplifier referring only to registered cells |
| Parse.AmpItems | src/parse.rs:92-104 | the items build an amplifier referring only to registered cells |
| Parse.AmpItemsAbort | src/parse.rs:92-104 | the first failing item decides the result |
| Parse.ParseAmpInit | src/parse.rs:87-107 | the item loop computes the amplifier initialiser |
| Parse.Compiled | src/parse.rs:119-143 | every successful compiled prefix is a well-formed table |
| Parse.CompiledAbort | src/parse.rs:119-143 | the first failing assignment decides the result of the whole file |
| Parse.ParseInit | src/parse.rs:135-139 | dispatch on the declared kind computes the initialised block |
| Parse.ParseStage2 | src/parse.rs:119-143 | the compile loop returns a fresh mixer holding the compiled table, or the first error |
| Parse.CompiledNames | src/parse.rs:119-143 | the compiled table's names are exactly the assigned names |
| Parse.UnknownNameFirst | src/parse.rs:51-57 | a first item naming an unregistered block fails with `UnknownBlock` |
| Parse.UnknownKeyFirst | src/parse.rs:78-81 | a first item with a key the kind does not know fails with `UnknownProperty` naming the key and kind |
| Parse.WrongInitializer | src/parse.rs:66-116 | a mismatched initialiser fails with `TypeError`; the amplifier reports the oscillator's text, as written |
| Parse.ForwardReferenceFails | src/parse.rs:119-143 | a reference to a name assigned only later fails the whole file with `UnknownBlock` |
| Parse.DistinctNamesResolve | src/parse.rs:119-143 | a file with distinct names compiles to a graph without dangling references |
| Parse.RedefinitionDangles | src/parse.rs:119-143 | redefining a name that another block refers to leaves that reference dangling |

## Left out

- The grammar and stage 1 of parsing (`parse_stage1`, the pest rules) are not part of this model. The syntax tree is taken as given. It holds the parsed block kind, since the grammar admits only known type words.
- `HarmoniconError::SyntaxError` and the I/O errors of `parse_from_file` belong to stage 1 and file reading, which are not modelled.
- `HarmoniconDriver::parse_from_file` is not modelled. It reads a file and calls stage 2, which yields a mixer, not a driver.
- src/reload.rs is not part of this model: the file watcher, its thread and its channel. The channel becomes a sequence of compiled graphs, and every queued graph is assumed ready to play (`Driver.Queued`).
- src/main.rs is not part of this model: audio output through rodio and command-line handling. The `Source` trait's constants are kept: 2 channels for the driver, 1 for the mixer, 44100 Hz, no total duration.
- `Mutex` locking and concurrency are not modelled. The arena replaces `Arc` and `Weak`, and the caller's own clone of a registered block is not an owner.
- Floating point is modelled as real arithmetic, so `f32` rounding, NaN and infinities are not captured. `sin` is the uninterpreted parameter `sine`.
- Signal.Out: requires a note of every sequencer that the read on that channel reaches (`Blocks.Readable`). Only what an accessor reads counts: a stereo block's left and right channels do not read its right source, an oscillator's output does not read its frequency source, and a sequencer's output does not read its bpm source. The source divides by zero only when a sequencer with no notes is read outside a rest, so a note-less sequencer read while resting is excluded, although the source would return silence. Stepping needs readability only of the sources the step reads (`Blocks.Steppable`).
- Driver.HarmoniconDriver.Update: requires, when a graph is waiting, that the running graph has no dangling reference, since `inner` panics in the source when syncing reads a reference that no longer upgrades.
- Mixer.HarmoniconMixer.Next: requires a block named `out`, where the source's `unwrap` panics.
- Driver.HarmoniconDriver.SetOutput: requires the handle of a live cell. A caller in the source may pass any block, including one that is not registered.
- Driver.HarmoniconDriver.RegisterBlock: requires the block to refer only to earlier cells, which is how the compile step builds graphs. A hand-built cycle of `Arc`s is not representable.
- Driver.ReloadCarriesState: stated for a cell that exactly one name binds and that no other block refers to. A shared cell may be synced once per name, or through a referring block, in an order the map fixes.
- Sync.SyncedChildTakesNamed: stated for a named child whose cell no other child of the block reaches. A cell that two children reach is synced once per path, and the arena keeps the last write.
- Sync.SyncedChildrenTakesNamed: the same condition, for the zip.
- Sync.SyncedCellChildTakesNamed: the same condition, for a top-level cell.
- Blocks.SignalBlockChildren.Next: modelled on a queue of sources rather than borrowed `Arc`s.
- The zip in `sync_children_from` is modelled over the child lists that `children` returns (`Blocks.Children`), not over the `SignalBlockChildren` iterator; `Blocks.CollectChildren` and `Blocks.Drain` show that the iterator yields exactly that list, in order.
- src/blocks/constant.rs implements none of the trait's required `get_mono`, `block_type` and `sync_from` (src/blocks/mod.rs:16-19 give them no default); it has a `get` of its own. The model reads `get` as `get_mono`, the block's type as Constant, and `sync_from` as a no-op, since a constant has no runtime state and no children. The mixer's `.get()` on "out" (src/mixer.rs:60) is likewise read as `get_mono`.
- In the compile step, `update_source` and `update_multiplicator` are read as setting the signal and the gain of input 0, and a named source carries only the handle, not the name text.
- The triangle waveform follows the code, `1 - 2·fract` on the second half-period, which drops from 1 to 0 at the half-period.
- The stereo mono output follows the code: left plus half of right.
- Error texts are kept as a closed set of values, not as strings.
