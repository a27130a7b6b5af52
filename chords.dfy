/** The translator's fixed vocabulary tables and the mapping from a literal
    value to a chord. */
module Chords {
  import opened Syntax

  /** A chord name such as "Em" or "Am". */
  type Chord = string

  /** The five chords every output chord is drawn from, in the order that
      integer residues index them. */
  const BasicChords: seq<Chord> := ["Em", "G", "C", "D", "Am"]

  /** The keys of the table of fixed progressions. */
  datatype Construct = IfKey | ElseKey | WhileKey | ReturnKey | AssignmentKey

  /** The table of fixed progressions, one per statement construct ("while"
      is defined but no node kind ever uses it). */
  function SpecialProgression(k: Construct): (cs: seq<Chord>)
    ensures AllInVocabulary(cs)
  {
    match k
    case IfKey => ["Em", "G"]
    case ElseKey => ["Am", "C"]
    case WhileKey => ["D", "Em", "D"]
    case ReturnKey => ["G", "Em", "C"]
    case AssignmentKey => ["C", "G"]
  }

  /** The operator names the table of operator chords has an entry for. */
  const RegisteredOperators: set<string> := {"Add", "Sub", "Mult", "Div", "Eq"}

  /** The table of operator chords, keyed by the class name of an operator:
      the pair registered for `name`, or None when it has no entry. */
  function OperatorChords(name: string): (r: Option<seq<Chord>>)
    ensures r.Some? <==> name in RegisteredOperators
    ensures r.Some? ==> |r.value| == 2 && AllInVocabulary(r.value)
  {
    if name == "Add" then Some(["G", "C"])
    else if name == "Sub" then Some(["Em", "Am"])
    else if name == "Mult" then Some(["D", "G"])
    else if name == "Div" then Some(["Am", "Em"])
    else if name == "Eq" then Some(["C", "C"])
    else None
  }

  /** The registered pairs: Add is "G C", Sub "Em Am", Mult "D G", Div "Am Em"
      and Eq "C C"; Mod, Pow and the other operators have no entry. */
  lemma OperatorPairs()
    ensures OperatorChords("Add") == Some(["G", "C"]) && OperatorChords("Sub") == Some(["Em", "Am"])
    ensures OperatorChords("Mult") == Some(["D", "G"]) && OperatorChords("Div") == Some(["Am", "Em"])
    ensures OperatorChords("Eq") == Some(["C", "C"])
    ensures OperatorChords("Mod") == None && OperatorChords("Pow") == None
  {
  }

  predicate InVocabulary(c: Chord) {
    c in BasicChords
  }

  predicate AllInVocabulary(cs: seq<Chord>) {
    forall c :: c in cs ==> InVocabulary(c)
  }

  /** The chord for a literal value. Python's `%` floors, which for the
      positive divisor 5 agrees with Dafny's Euclidean `%`: the index is in
      0..4 for negative integers too. */
  function ValueToChord(v: Value): (r: Chord)
    ensures InVocabulary(r)
    ensures v.BoolLit? ==> (r == "Em" <==> v.b) && (r == "Am" <==> !v.b)
    ensures v.OtherLit? ==> r == "C"
  {
    match v
    case BoolLit(b) => if b then "Em" else "Am"
    case IntLit(n) => BasicChords[n % |BasicChords|]
    case StrLit(s) => BasicChords[|s| % |BasicChords|]
    case OtherLit => "C"
  }

  /** An integer picks the chord at its residue modulo 5, whatever its sign:
      for n == 5 * q + k with 0 <= k < 5 the chord is BasicChords[k]. */
  lemma IntChordByResidue(n: int, q: int, k: int)
    requires 0 <= k < 5 && n == 5 * q + k
    ensures ValueToChord(IntLit(n)) == BasicChords[k]
  {
  }

  /** Integers five apart give the same chord. */
  lemma IntChordPeriodic(n: int)
    ensures ValueToChord(IntLit(n + 5)) == ValueToChord(IntLit(n))
  {
  }

  /** A string gives the chord of the integer that is its length. */
  lemma StrChordIsLengthChord(s: string)
    ensures ValueToChord(StrLit(s)) == ValueToChord(IntLit(|s|))
  {
  }

  /** Booleans are tested before integers: True (which Python also treats as
      the integer 1) gives "Em", not the "G" of 1, and False (the integer 0)
      gives "Am", not the "Em" of 0. */
  lemma BoolShadowsInt(b: bool)
    ensures ValueToChord(BoolLit(b)) == (if b then "Em" else "Am")
    ensures ValueToChord(BoolLit(b)) != ValueToChord(IntLit(if b then 1 else 0))
  {
  }
}
