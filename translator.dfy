/** The recursive walk that turns a syntax node into its list of chords.

    `h` stands for Python's `hash` on identifier names, which is salted per
    run; the model takes it as a parameter and never assumes anything of it. */
module Translator {
  import opened Syntax
  import opened Chords

  /** The chords for one node: fixed progressions for the node kinds the
      translator knows, its children's chords in order, and "Em" for any
      other kind. */
  function ProcessNode(h: string -> int, node: Node): (r: seq<Chord>)
    ensures AllInVocabulary(r)
    decreases node
  {
    match node
    case Num(v) => [ValueToChord(v)]
    case Name(id) => [BasicChords[h(id) % |BasicChords|]]
    case Assign(_, value) => SpecialProgression(AssignmentKey) + ProcessNode(h, value)
    case If(test, body, orelse) =>
      SpecialProgression(IfKey) + ProcessNode(h, test) + ProcessAll(h, body)
      + (if |orelse| > 0 then SpecialProgression(ElseKey) + ProcessAll(h, orelse) else [])
    case Compare(left, _, comparators) =>
      ProcessNode(h, left) + OperatorChords("Eq").value + ProcessAll(h, comparators)
    case Return(returned) =>
      SpecialProgression(ReturnKey) + (match returned case Some(v) => ProcessNode(h, v) case None => [])
    case BinOp(left, op, right) =>
      ProcessNode(h, left) + (match OperatorChords(op) case Some(cs) => cs case None => []) + ProcessNode(h, right)
    case Other(_) => ["Em"]
  }

  /** The chords of a list of nodes (a statement block or a comparator list),
      one node after another. */
  function ProcessAll(h: string -> int, nodes: seq<Node>): (r: seq<Chord>)
    ensures AllInVocabulary(r)
    decreases nodes
  {
    if nodes == [] then [] else ProcessNode(h, nodes[0]) + ProcessAll(h, nodes[1..])
  }

  /** Every node yields at least one chord. */
  lemma {:induction false} ProcessNodeNonEmpty(h: string -> int, node: Node)
    ensures |ProcessNode(h, node)| >= 1
    decreases node
  {
    match node
    case Num(_) =>
    case Name(_) =>
    case Assign(_, value) =>
    case If(_, _, _) =>
    case Compare(_, _, _) =>
    case Return(_) =>
    case BinOp(left, _, _) =>
      ProcessNodeNonEmpty(h, left);
    case Other(_) =>
  }

  /** A list of nodes yields at least one chord per node. */
  lemma {:induction false} ProcessAllLength(h: string -> int, nodes: seq<Node>)
    ensures |ProcessAll(h, nodes)| >= |nodes|
    decreases nodes
  {
    if nodes != [] {
      ProcessNodeNonEmpty(h, nodes[0]);
      ProcessAllLength(h, nodes[1..]);
    }
  }

  /** A list's chords are its parts' chords joined in order. */
  lemma {:induction false} ProcessAllAppend(h: string -> int, a: seq<Node>, b: seq<Node>)
    ensures ProcessAll(h, a + b) == ProcessAll(h, a) + ProcessAll(h, b)
    decreases a
  {
    if a == [] {
      assert a + b == b;
    } else {
      assert (a + b)[1..] == a[1..] + b;
      ProcessAllAppend(h, a[1..], b);
    }
  }

  /** Appending one node appends that node's chords. */
  lemma ProcessAllSnoc(h: string -> int, a: seq<Node>, n: Node)
    ensures ProcessAll(h, a + [n]) == ProcessAll(h, a) + ProcessNode(h, n)
  {
    ProcessAllAppend(h, a, [n]);
    assert ProcessAll(h, [n]) == ProcessNode(h, n) + ProcessAll(h, []);
  }

  /** An `if` gives "Em G", the test's chords, the body's chords, and then
      "Am C" and the else-branch's chords exactly when there is an else
      branch; so its length is 2 + |test| + |body| iff the else branch is
      empty. */
  lemma IfChords(h: string -> int, test: Node, body: seq<Node>, orelse: seq<Node>)
    ensures orelse == [] ==>
      ProcessNode(h, If(test, body, orelse)) == ["Em", "G"] + ProcessNode(h, test) + ProcessAll(h, body)
    ensures orelse != [] ==>
      ProcessNode(h, If(test, body, orelse))
        == ["Em", "G"] + ProcessNode(h, test) + ProcessAll(h, body) + ["Am", "C"] + ProcessAll(h, orelse)
    ensures |ProcessNode(h, If(test, body, orelse))| == 2 + |ProcessNode(h, test)| + |ProcessAll(h, body)|
      <==> orelse == []
  {
  }

  /** A comparison gives the left operand's chords, "C C", then each
      comparator's chords; the operators never matter, so "<" sounds like
      "==". */
  lemma CompareChords(h: string -> int, left: Node, ops: seq<string>, ops': seq<string>, comparators: seq<Node>)
    ensures ProcessNode(h, Compare(left, ops, comparators))
      == ProcessNode(h, left) + ["C", "C"] + ProcessAll(h, comparators)
    ensures ProcessNode(h, Compare(left, ops, comparators)) == ProcessNode(h, Compare(left, ops', comparators))
  {
  }

  /** A return gives "G Em C" followed by the returned value's chords; a bare
      return gives exactly those three chords, and only a bare one does. */
  lemma ReturnChords(h: string -> int, returned: Option<Node>)
    ensures ProcessNode(h, Return(returned))[..3] == ["G", "Em", "C"]
    ensures returned.Some? ==> ProcessNode(h, Return(returned))[3..] == ProcessNode(h, returned.value)
    ensures |ProcessNode(h, Return(returned))| == 3 <==> returned.None?
  {
    if returned.Some? {
      ProcessNodeNonEmpty(h, returned.value);
    }
  }

  /** An assignment gives "C G" followed by the assigned value's chords; the
      targets are never read. */
  lemma AssignChords(h: string -> int, targets: seq<Node>, targets': seq<Node>, value: Node)
    ensures ProcessNode(h, Assign(targets, value)) == ["C", "G"] + ProcessNode(h, value)
    ensures ProcessNode(h, Assign(targets, value)) == ProcessNode(h, Assign(targets', value))
  {
  }

  /** A binary operation gives the left operand's chords, the operator's pair
      only when its class name is registered, then the right operand's chords:
      the result is just the operands' chords iff the operator is not
      registered (as for Mod or Pow). */
  lemma BinOpChords(h: string -> int, left: Node, op: string, right: Node)
    ensures op in RegisteredOperators ==>
      ProcessNode(h, BinOp(left, op, right)) == ProcessNode(h, left) + OperatorChords(op).value + ProcessNode(h, right)
    ensures op !in RegisteredOperators ==>
      ProcessNode(h, BinOp(left, op, right)) == ProcessNode(h, left) + ProcessNode(h, right)
    ensures |ProcessNode(h, BinOp(left, op, right))| == |ProcessNode(h, left)| + |ProcessNode(h, right)|
      <==> op !in RegisteredOperators
  {
    var l, r := ProcessNode(h, left), ProcessNode(h, right);
    if op in RegisteredOperators {
      assert ProcessNode(h, BinOp(left, op, right)) == l + OperatorChords(op).value + r;
    } else {
      assert ProcessNode(h, BinOp(left, op, right)) == l + [] + r;
    }
  }

  /** Leaves give one chord each: a literal its value's chord, a name the
      vocabulary chord at its hash's residue modulo 5. */
  lemma LeafChords(h: string -> int, v: Value, id: string)
    ensures ProcessNode(h, Num(v)) == [ValueToChord(v)]
    ensures ProcessNode(h, Name(id)) == [BasicChords[h(id) % |BasicChords|]]
  {
  }

  /** Any node kind the walk does not know (a loop, a boolean operation, a
      call, a nested definition, ...) gives exactly "Em". */
  lemma UnmatchedChords(h: string -> int, kind: string)
    ensures ProcessNode(h, Other(kind)) == ["Em"]
  {
  }

  /** The identifiers whose hash the walk of a node consults. */
  function NamesRead(node: Node): set<string>
    decreases node
  {
    match node
    case Num(_) => {}
    case Name(id) => {id}
    case Assign(_, value) => NamesRead(value)
    case If(test, body, orelse) => NamesRead(test) + NamesReadAll(body) + NamesReadAll(orelse)
    case Compare(left, _, comparators) => NamesRead(left) + NamesReadAll(comparators)
    case Return(returned) => (match returned case Some(v) => NamesRead(v) case None => {})
    case BinOp(left, _, right) => NamesRead(left) + NamesRead(right)
    case Other(_) => {}
  }

  function NamesReadAll(nodes: seq<Node>): (ids: set<string>)
    ensures forall i :: 0 <= i < |nodes| ==> NamesRead(nodes[i]) <= ids
    decreases nodes
  {
    if nodes == [] then {} else NamesRead(nodes[0]) + NamesReadAll(nodes[1..])
  }

  /** Two hash functions that agree modulo 5 on every name a node reads give
      the same chords for it: the output is reproducible across runs exactly
      as far as the hash residues of those names are. */
  lemma {:induction false} SameChordsForSameResidues(h: string -> int, h': string -> int, node: Node)
    requires forall id :: id in NamesRead(node) ==> h(id) % 5 == h'(id) % 5
    ensures ProcessNode(h, node) == ProcessNode(h', node)
    decreases node
  {
    match node
    case Num(_) =>
    case Name(id) =>
    case Assign(_, value) =>
      SameChordsForSameResidues(h, h', value);
    case If(test, body, orelse) =>
      SameChordsForSameResidues(h, h', test);
      SameChordsForSameResiduesAll(h, h', body);
      SameChordsForSameResiduesAll(h, h', orelse);
    case Compare(left, _, comparators) =>
      SameChordsForSameResidues(h, h', left);
      SameChordsForSameResiduesAll(h, h', comparators);
    case Return(returned) =>
      if returned.Some? {
        SameChordsForSameResidues(h, h', returned.value);
      }
    case BinOp(left, _, right) =>
      SameChordsForSameResidues(h, h', left);
      SameChordsForSameResidues(h, h', right);
    case Other(_) =>
  }

  lemma {:induction false} SameChordsForSameResiduesAll(h: string -> int, h': string -> int, nodes: seq<Node>)
    requires forall id :: id in NamesReadAll(nodes) ==> h(id) % 5 == h'(id) % 5
    ensures ProcessAll(h, nodes) == ProcessAll(h', nodes)
    decreases nodes
  {
    if nodes != [] {
      SameChordsForSameResidues(h, h', nodes[0]);
      SameChordsForSameResiduesAll(h, h', nodes[1..]);
    }
  }
  /** How many chords a node gives does not depend on the hash. */
  lemma {:induction false} LengthIndependentOfHash(h: string -> int, h': string -> int, node: Node)
    ensures |ProcessNode(h, node)| == |ProcessNode(h', node)|
    decreases node
  {
    match node
    case Num(_) =>
    case Name(_) =>
    case Assign(_, value) =>
      LengthIndependentOfHash(h, h', value);
    case If(test, body, orelse) =>
      LengthIndependentOfHash(h, h', test);
      LengthIndependentOfHashAll(h, h', body);
      LengthIndependentOfHashAll(h, h', orelse);
    case Compare(left, _, comparators) =>
      LengthIndependentOfHash(h, h', left);
      LengthIndependentOfHashAll(h, h', comparators);
    case Return(returned) =>
      if returned.Some? {
        LengthIndependentOfHash(h, h', returned.value);
      }
    case BinOp(left, _, right) =>
      LengthIndependentOfHash(h, h', left);
      LengthIndependentOfHash(h, h', right);
    case Other(_) =>
  }

  lemma {:induction false} LengthIndependentOfHashAll(h: string -> int, h': string -> int, nodes: seq<Node>)
    ensures |ProcessAll(h, nodes)| == |ProcessAll(h', nodes)|
    decreases nodes
  {
    if nodes != [] {
      LengthIndependentOfHash(h, h', nodes[0]);
      LengthIndependentOfHashAll(h, h', nodes[1..]);
    }
  }

  /** Two joined lists differ when their first parts have the same length
      and either part differs. */
  lemma JoinDiffers(a: seq<Chord>, a': seq<Chord>, b: seq<Chord>, b': seq<Chord>)
    requires |a| == |a'|
    ensures a != a' || b != b' ==> a + b != a' + b'
  {
    assert (a + b)[..|a|] == a && (a' + b')[..|a|] == a';
    assert (a + b)[|a|..] == b && (a' + b')[|a|..] == b';
  }

  /** An `if` whose test, body or else branch plays differently under two
      hash functions plays differently as a whole. */
  lemma IfDiffers(h: string -> int, h': string -> int, test: Node, body: seq<Node>, orelse: seq<Node>)
    requires ProcessNode(h, test) != ProcessNode(h', test) || ProcessAll(h, body) != ProcessAll(h', body)
      || ProcessAll(h, orelse) != ProcessAll(h', orelse)
    ensures ProcessNode(h, If(test, body, orelse)) != ProcessNode(h', If(test, body, orelse))
  {
    var pre := SpecialProgression(IfKey);
    var t, t' := ProcessNode(h, test), ProcessNode(h', test);
    var b, b' := ProcessAll(h, body), ProcessAll(h', body);
    var e := if |orelse| > 0 then SpecialProgression(ElseKey) + ProcessAll(h, orelse) else [];
    var e' := if |orelse| > 0 then SpecialProgression(ElseKey) + ProcessAll(h', orelse) else [];
    LengthIndependentOfHash(h, h', test);
    LengthIndependentOfHashAll(h, h', body);
    if |orelse| > 0 {
      JoinDiffers(SpecialProgression(ElseKey), SpecialProgression(ElseKey), ProcessAll(h, orelse), ProcessAll(h', orelse));
    }
    JoinDiffers(pre, pre, t, t');
    JoinDiffers(pre + t, pre + t', b, b');
    JoinDiffers(pre + t + b, pre + t' + b', e, e');
  }

  /** A comparison whose left operand or comparators play differently plays
      differently. */
  lemma CompareDiffers(h: string -> int, h': string -> int, left: Node, ops: seq<string>, comparators: seq<Node>)
    requires ProcessNode(h, left) != ProcessNode(h', left) || ProcessAll(h, comparators) != ProcessAll(h', comparators)
    ensures ProcessNode(h, Compare(left, ops, comparators)) != ProcessNode(h', Compare(left, ops, comparators))
  {
    var l, l' := ProcessNode(h, left), ProcessNode(h', left);
    var eq := OperatorChords("Eq").value;
    LengthIndependentOfHash(h, h', left);
    JoinDiffers(l, l', eq, eq);
    JoinDiffers(l + eq, l' + eq, ProcessAll(h, comparators), ProcessAll(h', comparators));
  }

  /** A binary operation whose operands play differently plays differently. */
  lemma BinOpDiffers(h: string -> int, h': string -> int, left: Node, op: string, right: Node)
    requires ProcessNode(h, left) != ProcessNode(h', left) || ProcessNode(h, right) != ProcessNode(h', right)
    ensures ProcessNode(h, BinOp(left, op, right)) != ProcessNode(h', BinOp(left, op, right))
  {
    var l, l' := ProcessNode(h, left), ProcessNode(h', left);
    var o := match OperatorChords(op) case Some(cs) => cs case None => [];
    LengthIndependentOfHash(h, h', left);
    JoinDiffers(l, l', o, o);
    JoinDiffers(l + o, l' + o, ProcessNode(h, right), ProcessNode(h', right));
  }

  /** If two hash functions differ modulo 5 on a name the walk of a node
      reads, the node's chords differ: the position of that name carries a
      different basic chord. */
  lemma {:induction false} DifferentResiduesDifferentChords(h: string -> int, h': string -> int, node: Node, id: string)
    requires id in NamesRead(node) && h(id) % 5 != h'(id) % 5
    ensures ProcessNode(h, node) != ProcessNode(h', node)
    decreases node
  {
    match node
    case Name(x) =>
      assert BasicChords[h(x) % |BasicChords|] != BasicChords[h'(x) % |BasicChords|];
    case Assign(_, value) =>
      DifferentResiduesDifferentChords(h, h', value, id);
      JoinDiffers(SpecialProgression(AssignmentKey), SpecialProgression(AssignmentKey), ProcessNode(h, value), ProcessNode(h', value));
    case If(test, body, orelse) =>
      if id in NamesRead(test) {
        DifferentResiduesDifferentChords(h, h', test, id);
      } else if id in NamesReadAll(body) {
        DifferentResiduesDifferentChordsAll(h, h', body, id);
      } else {
        DifferentResiduesDifferentChordsAll(h, h', orelse, id);
      }
      IfDiffers(h, h', test, body, orelse);
    case Compare(left, ops, comparators) =>
      if id in NamesRead(left) {
        DifferentResiduesDifferentChords(h, h', left, id);
      } else {
        DifferentResiduesDifferentChordsAll(h, h', comparators, id);
      }
      CompareDiffers(h, h', left, ops, comparators);
    case Return(returned) =>
      var v := returned.value;
      DifferentResiduesDifferentChords(h, h', v, id);
      JoinDiffers(SpecialProgression(ReturnKey), SpecialProgression(ReturnKey), ProcessNode(h, v), ProcessNode(h', v));
    case BinOp(left, op, right) =>
      if id in NamesRead(left) {
        DifferentResiduesDifferentChords(h, h', left, id);
      } else {
        DifferentResiduesDifferentChords(h, h', right, id);
      }
      BinOpDiffers(h, h', left, op, right);
  }

  lemma {:induction false} DifferentResiduesDifferentChordsAll(h: string -> int, h': string -> int, nodes: seq<Node>, id: string)
    requires id in NamesReadAll(nodes) && h(id) % 5 != h'(id) % 5
    ensures ProcessAll(h, nodes) != ProcessAll(h', nodes)
    decreases nodes
  {
    LengthIndependentOfHash(h, h', nodes[0]);
    if id in NamesRead(nodes[0]) {
      DifferentResiduesDifferentChords(h, h', nodes[0], id);
    } else {
      DifferentResiduesDifferentChordsAll(h, h', nodes[1..], id);
    }
    JoinDiffers(ProcessNode(h, nodes[0]), ProcessNode(h', nodes[0]), ProcessAll(h, nodes[1..]), ProcessAll(h', nodes[1..]));
  }

  /** A node's chords are the same under two hash functions exactly when
      they agree modulo 5 on every name the walk of the node reads: those
      names, and no others, decide what the walk plays. */
  lemma ChordsDependExactlyOnNamesRead(h: string -> int, h': string -> int, node: Node)
    ensures ProcessNode(h, node) == ProcessNode(h', node)
      <==> forall id :: id in NamesRead(node) ==> h(id) % 5 == h'(id) % 5
  {
    if exists id :: id in NamesRead(node) && h(id) % 5 != h'(id) % 5 {
      var id :| id in NamesRead(node) && h(id) % 5 != h'(id) % 5;
      DifferentResiduesDifferentChords(h, h', node, id);
    } else {
      SameChordsForSameResidues(h, h', node);
    }
  }
}
