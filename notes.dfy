/**
 * The fixed seven-letter scale of src/note.rs. A `Note` is only its frequency in Hz;
 * `f32` is modelled as `real`, so the constants are exact decimals.
 */
module Notes {
  import opened Wrappers

  /** `struct Note(f32)`: a pitch given by its frequency in Hz. */
  datatype Note = Note(freq: real)

  const C: Note := Note(261.6256)
  const D: Note := Note(293.6648)
  const E: Note := Note(329.6276)
  const F: Note := Note(349.2282)
  const G: Note := Note(391.9954)
  const A: Note := Note(440.0)
  const H: Note := Note(493.8833)
  /** The rest: a note that sounds at 0 Hz. */
  const SILENT: Note := Note(0.0)

  /** The spellings `Note::from_str` accepts: the seven letters of the German scale and "-". */
  const Spellings: set<string> := {"C", "D", "E", "F", "G", "A", "H", "-"}

  /** `Note::frequency`. */
  function Frequency(n: Note): real
  {
    n.freq
  }

  /** `Note::from_str`; the source's `Err(())` is `None`. */
  function FromStr(s: string): (r: Option<Note>)
    ensures r.Some? <==> s in Spellings
    ensures r.Some? ==> r.value.freq >= 0.0
    ensures r.Some? && r.value.freq == 0.0 <==> s == "-"
  {
    match s
    case "C" => Some(C)
    case "D" => Some(D)
    case "E" => Some(E)
    case "F" => Some(F)
    case "G" => Some(G)
    case "A" => Some(A)
    case "H" => Some(H)
    case "-" => Some(SILENT)
    case _ => None
  }

  /** The reference pitch: "A" is 440 Hz and "-" is the silent note at 0 Hz. */
  lemma FromStrReference()
    ensures FromStr("A").Some? && Frequency(FromStr("A").value) == 440.0
    ensures FromStr("-") == Some(SILENT) && Frequency(SILENT) == 0.0
  {
  }

  /** English "B" and lower-case letters are not notes of this scale. */
  lemma FromStrRejectsOtherSpellings()
    ensures FromStr("B") == None && FromStr("a") == None && FromStr("c") == None && FromStr("") == None
  {
  }

  /** The named notes are audible and strictly ascending, C < D < E < F < G < A < H. */
  lemma NotesAscending()
    ensures 0.0 < C.freq < D.freq < E.freq < F.freq < G.freq < A.freq < H.freq
  {
  }

  /** Different spellings give different notes, so a parsed note determines its spelling. */
  lemma FromStrInjective(s: string, t: string)
    requires FromStr(s).Some? && FromStr(s) == FromStr(t)
    ensures s == t
  {
  }
}
