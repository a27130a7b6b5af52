# code2fret in Dafny

A model of `GuitarTranslator` from `code2fret.py`, which "plays" a Python
function as guitar chords. It walks the syntax tree of every function
definition. Each known node kind gives fixed chords interleaved with its
children's chords, in source order: an `if` plays Em G before its test and
Am C between its body and its else branch; a comparison plays C C once, after
its left operand, whatever its operators, and its comparators follow with
nothing between them; a binary operation plays its operator's pair between
its operands only when the operator is Add, Sub, Mult or Div; and a literal
or a name plays a single chord of its own. The resulting flat chord list is
then labelled "Bar b, Beat k", four beats to the bar.

Files and modules:

- `syntax.dfy` (`Syntax`): the syntax tree as a datatype. It has `Num`,
  `Name`, `Assign`, `If`, `Compare`, `Return`, `BinOp`, and `Other` for every
  other node kind. There is also the classification of a literal's value as
  bool, int, str or other.
- `chords.dfy` (`Chords`): the five-chord vocabulary, the two fixed tables
  (progressions per statement kind, chord pairs per operator class name) and
  `_value_to_chord`.
- `translator.dfy` (`Translator`): `_process_node` as the mutually recursive
  functions `ProcessNode` (one node) and `ProcessAll` (a statement block or a
  comparator list, in order). It also holds a lemma per node kind;
  `LeafChords` covers both leaves and `UnmatchedChords` every other kind.
- `tab.dfy` (`Tab`): `function_to_guitar`. The loops that gather the chords
  are methods with loop invariants, and so is the loop that attaches bar/beat
  labels. Lemmas relate the labels to chord positions.
- `fizzbuzz.dfy` (`FizzBuzzExample`): the repository's sample function as a
  concrete tree, with its full chord list and timed tab.

Modelling decisions:

- Python's `hash` of an identifier is salted per run. It is the parameter
  `h: string -> int` and nothing is assumed of it. `SameChordsForSameResidues`
  shows that the output depends on `h` only through `h(id) % 5` for the names
  the walk reads.
- Python's `%` floors. For the positive divisor 5 it agrees with Dafny's
  Euclidean `%`, so `v % 5` and `hash % 5` are written directly. The index is
  in 0..4 for negative values too.
- The two dictionaries are never changed after construction, so they are
  functions. `SpecialProgression` is keyed by a small datatype, because the
  source only looks it up with fixed keys. `OperatorChords` is keyed by
  operator class name and returns `None` for a name with no entry.
- `ast.walk` is replaced by its result: the input is the list of function
  bodies in the order the walk visits the definitions. The walk visits nested
  definitions too, breadth first. `Statements` joins those bodies.
  `function_to_guitar` is split into three methods:
  - `ExtendWithStatements` is the inner loop over one body;
  - `GatherChords` is the loop over the definitions;
  - `FunctionToGuitar` adds the timing loop.
- A timing label is the integer pair `Timing(bar, beat)`, not the formatted
  string.
- Four behaviours of the code are easy to overlook, and the model keeps them:
  - `operator_maps` also registers `Eq` (code2fret.py:20), besides the four
    arithmetic operators. No Python `BinOp` operator class has that name, so
    only the comparison case uses that entry.
  - `_value_to_chord` maps a `str` value to `basic_chords[len(value) % 5]`
    (code2fret.py:28-29), not to its fallback `C`. A string literal in a
    parsed function never reaches it and gives the unmatched-kind `Em`.
  - Every `FunctionDef` the walk finds is translated, nested ones included
    (code2fret.py:91-94), not only the outermost one.
  - Timing labels strictly increase: position i gets bar i//4 + 1 and beat
    i%4 + 1 (code2fret.py:98), so no two chords share a label.
- In the sample tree, the string constants and the `and` expression are
  `Other` nodes. Python's parser never reports a string constant or a boolean
  as a numeric-literal node. `Num` with a bool or str value is still modelled
  exactly as `_value_to_chord` handles it.

## Model

| member | source | states |
|---|---|---|
| `Chords.SpecialProgression` | code2fret.py:8-14 | every fixed progression (if, else, while, return, assignment) is made of vocabulary chords |
| `Chords.OperatorChords` | code2fret.py:15-21 | an operator name has an entry exactly when it is Add, Sub, Mult, Div or Eq; each entry is a pair of vocabulary chords. The concrete pairs (Add G C, Sub Em Am, Mult D G, Div Am Em, Eq C C; none for Mod and Pow) are spelled out by the helper lemma `Chords.OperatorPairs` |
| `Chords.ValueToChord` | code2fret.py:23-30 | every literal maps to a vocabulary chord; a bool maps to Em iff it is True and to Am iff it is False; any value that is not bool, int or str maps to C |
| `Chords.BoolShadowsInt` | code2fret.py:24-27 | bools are tested before ints: True gives Em rather than the G of the integer 1, False gives Am rather than the Em of 0 |
| `Chords.IntChordByResidue` | code2fret.py:26-27 | an integer n = 5q + k with 0 <= k < 5 (any sign of q) maps to the k-th basic chord |
| `Chords.IntChordPeriodic` | code2fret.py:26-27 | integers five apart map to the same chord |
| `Chords.StrChordIsLengthChord` | code2fret.py:28-29 | a string maps to the chord of the integer equal to its length |
| `Translator.ProcessNode` | code2fret.py:32-81 | every chord produced for any node lies in the five-chord vocabulary. The one-step leaf cases (a literal gives its value's chord, a name the basic chord at its hash modulo 5, an unmatched kind Em) are spelled out by the helper lemmas `Translator.LeafChords` and `Translator.UnmatchedChords` |
| `Translator.ProcessAll` | code2fret.py:49-54 | every chord produced for a list of nodes lies in the vocabulary |
| `Translator.ProcessNodeNonEmpty` | code2fret.py:32-81 | every node, of every kind, yields at least one chord |
| `Translator.ProcessAllLength` | code2fret.py:49-50 | a list of n nodes yields at least n chords |
| `Translator.ProcessAllAppend` | code2fret.py:49-50 | the chords of a joined list are the chords of its parts, joined in order |
| `Translator.ProcessAllSnoc` | code2fret.py:49-50 | appending one statement appends exactly that statement's chords |
| `Translator.IfChords` | code2fret.py:45-55 | an if gives Em G, the test's chords, the body's chords, then Am C and the else branch's chords only when there is an else branch; its length is 2 + test + body iff the else branch is empty |
| `Translator.CompareChords` | code2fret.py:57-63 | a comparison gives left's chords, C C, then each comparator's chords; the result is the same whatever the comparison operators are |
| `Translator.ReturnChords` | code2fret.py:65-70 | a return starts with G Em C, followed by the value's chords when there is one; it has exactly 3 chords iff it is a bare return |
| `Translator.AssignChords` | code2fret.py:39-43 | an assignment gives C G then the value's chords; the targets never affect the result |
| `Translator.BinOpChords` | code2fret.py:72-79 | a binary operation gives left's chords, the operator's registered pair, then right's chords; an unregistered operator adds nothing, and the result is exactly the operands' chords iff the operator is not registered |
| `Translator.ChordsDependExactlyOnNamesRead` | code2fret.py:32-81 | a node plays the same under two hash functions iff they agree modulo 5 on every identifier in `NamesRead(node)`, the names the walk hashes; a name nobody reads never matters and every name read does |
| `Translator.DifferentResiduesDifferentChords` | code2fret.py:36-37 | if two hash functions differ modulo 5 on a name the walk reads, the node's chords differ |
| `Translator.DifferentResiduesDifferentChordsAll` | code2fret.py:49-54 | the same for a list of nodes |
| `Translator.LengthIndependentOfHash` | code2fret.py:32-81 | how many chords a node gives does not depend on the hash |
| `Translator.LengthIndependentOfHashAll` | code2fret.py:49-54 | the same for a list of nodes |
| `Translator.SameChordsForSameResidues` | code2fret.py:36-37 | two hash functions that agree modulo 5 on every identifier a node reads give that node the same chords |
| `Translator.SameChordsForSameResiduesAll` | code2fret.py:49-54 | the same for a list of nodes |
| `Tab.TimingOf` | code2fret.py:98 | the label of position i has a bar of at least 1 and a beat in 1..4 |
| `Tab.PositionOfTiming` | code2fret.py:98 | the label of position i stands for position i: (bar - 1) * 4 + (beat - 1) = i |
| `Tab.TimingOfPosition` | code2fret.py:98 | every label with bar >= 1 and beat in 1..4 is the label of exactly the position it stands for |
| `Tab.BeforeIsPositionOrder` | code2fret.py:96-99 | on valid labels, the lexicographic (bar, beat) order is the order of positions |
| `Tab.TimingIncreasing` | code2fret.py:96-99 | the label of i comes before the label of j iff i < j |
| `Tab.StatementsSnoc` | code2fret.py:91-94 | adding one more definition appends its body to the statements walked |
| `Tab.ExtendWithStatements` | code2fret.py:93-94 | extending the chord list statement by statement appends exactly the body's chords |
| `Tab.GatherChords` | code2fret.py:89-94 | the gathered list is the chords of every statement of every definition, in order |
| `Tab.FunctionToGuitar` | code2fret.py:83-101 | the timed list has one entry per chord, in order. Entry i holds chord i with label (i/4 + 1, i%4 + 1), which depends on the position alone. Every chord is in the vocabulary, every label is valid, and consecutive labels strictly increase |
| `FizzBuzzExample.DivisibleTestChords` | code2fret.py:104-108 | `n % k == 0` gives n's chord, k's chord, C C, Em; Mod adds nothing |
| `FizzBuzzExample.ReturnStringChords` | code2fret.py:105 | `return "FizzBuzz"` gives G Em C Em |
| `FizzBuzzExample.ElifChords` | code2fret.py:106-109 | an `elif n % k == 0: return "..."` followed by an else branch gives Em G, the test, the return, Am C, then the rest |
| `FizzBuzzExample.LastElifChords` | code2fret.py:108-109 | the last elif, which has no else branch |
| `FizzBuzzExample.FirstElifChords` | code2fret.py:106-109 | the elif chain |
| `FizzBuzzExample.ReturnNameChords` | code2fret.py:110 | `return n` gives G Em C and n's chord |
| `FizzBuzzExample.IfStatementChords` | code2fret.py:104-109 | the whole if/elif/elif statement |
| `FizzBuzzExample.FizzBuzzChords` | code2fret.py:103-110 | translating fizzbuzz gives exactly the 37-chord list `FizzBuzzTune(n)`, for every hash |
| `FizzBuzzExample.FizzBuzzTab` | code2fret.py:112-116 | the fizzbuzz tab has 37 entries, entry i holding the i-th chord of the 37-chord list at the label of position i. It opens with Em and G at bar 1, beats 1 and 2, and ends with n's chord alone on bar 10 |

## Left out

- Obtaining the tree: `inspect.getsource`, `textwrap.dedent`, `ast.parse` and
  `ast.walk` (code2fret.py:85-91) are the parser's work. The model takes the
  function bodies, in visiting order, as input.
- Python's `hash` (code2fret.py:37) is salted per run, so it is the parameter
  `h`. Nothing is proved about which chord a name gets beyond what holds for
  every `h`.
- Which Python versions report which constants as `ast.Num` is not modelled.
  `Num` carries a value already classified as bool, int, str or other.
- Float and complex literal values are classified as "other" and give C. No
  floating-point arithmetic is involved.
- The formatted label string (code2fret.py:98) and the printing loop
  (code2fret.py:115-116) are output. Labels are integer pairs.
- Node children the walk never reads: assignment targets and comparison
  operators are kept but ignored. Children of `Other` nodes are not
  represented at all.
- The "while" progression (code2fret.py:11) is in the table but no node kind
  uses it. A `while` loop is an `Other` node and gives Em.
- ProcessNode: Python's recursion limit is not modelled. `_process_node` calls
  itself once per nesting level, so a node nested more than about 1,000 deep
  (a sum of 1,500 terms, say) raises RecursionError in CPython, while
  `ProcessNode` is total and `ProcessNodeNonEmpty` gives it a chord list.
