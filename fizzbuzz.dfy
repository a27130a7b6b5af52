/** The repository's sample input: the syntax tree of

      def fizzbuzz(n):
          if n % 3 == 0 and n % 5 == 0: return "FizzBuzz"
          elif n % 3 == 0: return "Fizz"
          elif n % 5 == 0: return "Buzz"
          return n

    and the tab the translator makes of it. A string constant is not a
    numeric-literal node for Python's parser, and `and` is a BoolOp, so both
    fall to the default kind. */
module FizzBuzzExample {
  import opened Syntax
  import opened Chords
  import opened Translator
  import opened Tab

  /** `n % k == 0` */
  function DivisibleTest(k: int): Node {
    Compare(BinOp(Name("n"), "Mod", Num(IntLit(k))), ["Eq"], [Num(IntLit(0))])
  }

  function ReturnString(): Node {
    Return(Some(Other("Constant")))
  }

  function FizzBuzzBody(): seq<Node> {
    [ If(Other("BoolOp"), [ReturnString()],
        [If(DivisibleTest(3), [ReturnString()],
           [If(DivisibleTest(5), [ReturnString()], [])])]),
      Return(Some(Name("n")))
    ]
  }

  /** `n % k == 0` sounds like n's chord, k's chord, "C C", then "Em" for 0:
      the Mod operator is not registered and adds nothing. */
  lemma DivisibleTestChords(h: string -> int, k: int)
    ensures ProcessNode(h, DivisibleTest(k)) ==
      [BasicChords[h("n") % 5], ValueToChord(IntLit(k))] + ["C", "C"] + ["Em"]
  {
    BinOpChords(h, Name("n"), "Mod", Num(IntLit(k)));
    assert [Num(IntLit(0))][1..] == [];
  }

  /** `return "..."`: the string constant falls to the default kind. */
  lemma ReturnStringChords(h: string -> int)
    ensures ProcessAll(h, [ReturnString()]) == ["G", "Em", "C"] + ["Em"]
  {
    assert [ReturnString()][1..] == [];
  }

  /** `if n % k == 0: return "..."` followed by a non-empty else branch. */
  lemma ElifChords(h: string -> int, k: int, orelse: seq<Node>)
    requires orelse != []
    ensures ProcessAll(h, [If(DivisibleTest(k), [ReturnString()], orelse)]) ==
      ["Em", "G"] + ProcessNode(h, DivisibleTest(k)) + ProcessAll(h, [ReturnString()])
      + ["Am", "C"] + ProcessAll(h, orelse)
  {
    IfChords(h, DivisibleTest(k), [ReturnString()], orelse);
    assert [If(DivisibleTest(k), [ReturnString()], orelse)][1..] == [];
  }

  /** `elif n % 5 == 0: return "Buzz"`, the last link of the chain. */
  lemma LastElifChords(h: string -> int)
    ensures ProcessAll(h, [If(DivisibleTest(5), [ReturnString()], [])]) ==
      ["Em", "G"] + ([BasicChords[h("n") % 5], "Em"] + ["C", "C"] + ["Em"]) + (["G", "Em", "C"] + ["Em"])
  {
    var node := If(DivisibleTest(5), [ReturnString()], []);
    IfChords(h, DivisibleTest(5), [ReturnString()], []);
    DivisibleTestChords(h, 5);
    ReturnStringChords(h);
    assert [node][1..] == [];
  }

  /** `elif n % 3 == 0: return "Fizz"` and the rest of the chain. */
  lemma FirstElifChords(h: string -> int)
    ensures var n := BasicChords[h("n") % 5];
      ProcessAll(h, [If(DivisibleTest(3), [ReturnString()], [If(DivisibleTest(5), [ReturnString()], [])])]) ==
        ["Em", "G"] + ([n, "D"] + ["C", "C"] + ["Em"]) + (["G", "Em", "C"] + ["Em"])
        + ["Am", "C"]
        + (["Em", "G"] + ([n, "Em"] + ["C", "C"] + ["Em"]) + (["G", "Em", "C"] + ["Em"]))
  {
    ElifChords(h, 3, [If(DivisibleTest(5), [ReturnString()], [])]);
    DivisibleTestChords(h, 3);
    ReturnStringChords(h);
    LastElifChords(h);
  }

  /** `return n` */
  lemma ReturnNameChords(h: string -> int)
    ensures ProcessAll(h, [Return(Some(Name("n")))]) == ["G", "Em", "C"] + [BasicChords[h("n") % 5]]
  {
    var last := Return(Some(Name("n")));
    assert [last][1..] == [];
    assert ProcessNode(h, Name("n")) == [BasicChords[h("n") % 5]];
  }

  /** The whole if/elif/elif statement. */
  lemma IfStatementChords(h: string -> int)
    ensures var n := BasicChords[h("n") % 5];
      ProcessAll(h, [FizzBuzzBody()[0]]) ==
        ["Em", "G"] + ["Em"] + (["G", "Em", "C"] + ["Em"])
        + ["Am", "C"]
        + (["Em", "G"] + ([n, "D"] + ["C", "C"] + ["Em"]) + (["G", "Em", "C"] + ["Em"])
           + ["Am", "C"]
           + (["Em", "G"] + ([n, "Em"] + ["C", "C"] + ["Em"]) + (["G", "Em", "C"] + ["Em"])))
  {
    var middle := If(DivisibleTest(3), [ReturnString()], [If(DivisibleTest(5), [ReturnString()], [])]);
    var outer := If(Other("BoolOp"), [ReturnString()], [middle]);
    assert FizzBuzzBody()[0] == outer;
    IfChords(h, Other("BoolOp"), [ReturnString()], [middle]);
    ReturnStringChords(h);
    FirstElifChords(h);
    assert [outer][1..] == [];
  }

  /** The 37 chords of fizzbuzz, one line per source line; `n` is the chord
      that the run's hash of the name "n" selects. */
  function FizzBuzzTune(n: Chord): seq<Chord> {
    ["Em", "G"] + ["Em"] + ["G", "Em", "C", "Em"]
    + ["Am", "C"] + ["Em", "G"] + [n, "D", "C", "C", "Em"] + ["G", "Em", "C", "Em"]
    + ["Am", "C"] + ["Em", "G"] + [n, "Em", "C", "C", "Em"] + ["G", "Em", "C", "Em"]
    + ["G", "Em", "C", n]
  }

  /** Translating the fizzbuzz body gives its 37 chords for every hash. */
  lemma FizzBuzzChords(h: string -> int)
    ensures ProcessAll(h, FizzBuzzBody()) == FizzBuzzTune(BasicChords[h("n") % 5])
  {
    var body := FizzBuzzBody();
    var n := BasicChords[h("n") % 5];
    assert ProcessAll(h, body) == Nested(n) by {
      assert body == [body[0]] + [body[1]];
      assert body[1] == Return(Some(Name("n")));
      IfStatementChords(h);
      ReturnNameChords(h);
      ProcessAllAppend(h, [body[0]], [body[1]]);
    }
    NestedIsFlat(n);
  }

  /** The fizzbuzz chords grouped the way the statements nest. */
  function Nested(n: Chord): seq<Chord> {
    (["Em", "G"] + ["Em"] + (["G", "Em", "C"] + ["Em"])
     + ["Am", "C"]
     + (["Em", "G"] + ([n, "D"] + ["C", "C"] + ["Em"]) + (["G", "Em", "C"] + ["Em"])
        + ["Am", "C"]
        + (["Em", "G"] + ([n, "Em"] + ["C", "C"] + ["Em"]) + (["G", "Em", "C"] + ["Em"]))))
    + (["G", "Em", "C"] + [n])
  }

  lemma NestedIsFlat(n: Chord)
    ensures Nested(n) == FizzBuzzTune(n)
  {
  }

  /** Translating fizzbuzz gives 37 timed chords: entry i holds the i-th
      chord of the fizzbuzz chord list at the label of position i. It opens
      with the `if` pair on bar 1, beats 1 and 2, and ends with the final
      return's chords, the last one alone on bar 10. */
  method FizzBuzzTab(h: string -> int) returns (timed: seq<TimedChord>)
    ensures |timed| == 37
    ensures forall i :: 0 <= i < 37 ==> timed[i] == TimedChord(TimingOf(i), FizzBuzzTune(BasicChords[h("n") % 5])[i])
    ensures timed[0] == TimedChord(Timing(1, 1), "Em") && timed[1] == TimedChord(Timing(1, 2), "G")
    ensures timed[36] == TimedChord(Timing(10, 1), BasicChords[h("n") % 5])
  {
    ghost var n := BasicChords[h("n") % 5];
    ghost var expected := FizzBuzzTune(n);
    assert |expected| == 37 && expected[0] == "Em" && expected[1] == "G" && expected[36] == n;
    FizzBuzzChords(h);
    assert Statements([FizzBuzzBody()]) == FizzBuzzBody() + Statements([]);
    timed := FunctionToGuitar(h, [FizzBuzzBody()]);
    assert |timed| == 37;
    assert timed[0].chord == expected[0];
    assert timed[1].chord == expected[1];
    assert timed[36].chord == expected[36];
    assert TimingOf(0) == Timing(1, 1) && TimingOf(1) == Timing(1, 2) && TimingOf(36) == Timing(10, 1);
  }
}
