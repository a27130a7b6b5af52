/** Turning whole function bodies into a timed chord list: the chords of every
    statement of every function definition, each labelled with a bar and a
    beat, four beats to the bar. */
module Tab {
  import opened Syntax
  import opened Chords
  import opened Translator

  /** A position label "Bar bar, Beat beat"; the text itself is not modelled. */
  datatype Timing = Timing(bar: int, beat: int)

  datatype TimedChord = TimedChord(timing: Timing, chord: Chord)

  predicate ValidTiming(t: Timing) {
    1 <= t.bar && 1 <= t.beat <= 4
  }

  /** The 0-based index a label stands for. */
  function Position(t: Timing): int {
    (t.bar - 1) * 4 + (t.beat - 1)
  }

  /** Lexicographic order on (bar, beat). */
  predicate Before(t: Timing, u: Timing) {
    t.bar < u.bar || (t.bar == u.bar && t.beat < u.beat)
  }

  /** The label of the chord at index i: bar i / 4 + 1, beat i % 4 + 1. */
  function TimingOf(i: nat): (t: Timing)
    ensures ValidTiming(t)
  {
    Timing(i / 4 + 1, i % 4 + 1)
  }

  /** The label of index i stands for index i. */
  lemma PositionOfTiming(i: nat)
    ensures Position(TimingOf(i)) == i
  {
    assert i == 4 * (i / 4) + i % 4;
  }

  /** Every valid label is the label of the index it stands for, so labels and
      indices correspond one to one. */
  lemma TimingOfPosition(t: Timing)
    requires ValidTiming(t)
    ensures Position(t) >= 0 && TimingOf(Position(t)) == t
  {
    var p := Position(t);
    assert p == 4 * (t.bar - 1) + (t.beat - 1);
    assert p / 4 == t.bar - 1 && p % 4 == t.beat - 1;
  }

  /** On valid labels, the (bar, beat) order is the order of the indices. */
  lemma {:induction false} BeforeIsPositionOrder(t: Timing, u: Timing)
    requires ValidTiming(t) && ValidTiming(u)
    ensures Before(t, u) <==> Position(t) < Position(u)
  {
    if t.bar < u.bar {
      assert (t.bar - 1) * 4 + 4 <= (u.bar - 1) * 4;
    } else if t.bar > u.bar {
      assert (u.bar - 1) * 4 + 4 <= (t.bar - 1) * 4;
    }
  }

  /** Labels strictly increase with the index, and only with it. */
  lemma TimingIncreasing(i: nat, j: nat)
    ensures Before(TimingOf(i), TimingOf(j)) <==> i < j
  {
    PositionOfTiming(i);
    PositionOfTiming(j);
    BeforeIsPositionOrder(TimingOf(i), TimingOf(j));
  }

  /** The statements of the function definitions, one body after another in
      the order the definitions are visited. */
  function Statements(bodies: seq<seq<Node>>): seq<Node>
    decreases bodies
  {
    if bodies == [] then [] else bodies[0] + Statements(bodies[1..])
  }

  lemma {:induction false} StatementsSnoc(bodies: seq<seq<Node>>, body: seq<Node>)
    ensures Statements(bodies + [body]) == Statements(bodies) + body
    decreases bodies
  {
    if bodies == [] {
      assert Statements([body]) == body + Statements([]);
    } else {
      assert (bodies + [body])[1..] == bodies[1..] + [body];
      StatementsSnoc(bodies[1..], body);
    }
  }

  /** `chords` extended with the chords of each statement of `body` in turn. */
  method ExtendWithStatements(h: string -> int, chords: seq<Chord>, body: seq<Node>) returns (extended: seq<Chord>)
    ensures extended == chords + ProcessAll(h, body)
  {
    extended := chords;
    for j := 0 to |body|
      invariant extended == chords + ProcessAll(h, body[..j])
    {
      assert ProcessAll(h, body[..j + 1]) == ProcessAll(h, body[..j]) + ProcessNode(h, body[j]) by {
        assert body[..j + 1] == body[..j] + [body[j]];
        ProcessAllSnoc(h, body[..j], body[j]);
      }
      extended := extended + ProcessNode(h, body[j]);
    }
    assert body[..|body|] == body;
  }

  /** The chords of every statement of every function definition, gathered
      by extending one list body by body. */
  method GatherChords(h: string -> int, bodies: seq<seq<Node>>) returns (chords: seq<Chord>)
    ensures chords == ProcessAll(h, Statements(bodies))
  {
    chords := [];
    for k := 0 to |bodies|
      invariant chords == ProcessAll(h, Statements(bodies[..k]))
    {
      chords := ExtendWithStatements(h, chords, bodies[k]);
      assert bodies[..k + 1] == bodies[..k] + [bodies[k]];
      StatementsSnoc(bodies[..k], bodies[k]);
      ProcessAllAppend(h, Statements(bodies[..k]), bodies[k]);
    }
    assert bodies[..|bodies|] == bodies;
  }

  /** The timed chord list for the function definitions with the given bodies:
      the chords of all their statements in order, the chord at index i
      labelled TimingOf(i). */
  method FunctionToGuitar(h: string -> int, bodies: seq<seq<Node>>) returns (timed: seq<TimedChord>)
    ensures |timed| == |ProcessAll(h, Statements(bodies))|
    ensures forall i :: 0 <= i < |timed| ==>
      timed[i].chord == ProcessAll(h, Statements(bodies))[i] && timed[i].timing == TimingOf(i)
    ensures forall i :: 0 <= i < |timed| ==> InVocabulary(timed[i].chord) && ValidTiming(timed[i].timing)
    ensures forall i :: 0 <= i < |timed| - 1 ==> Before(timed[i].timing, timed[i + 1].timing)
  {
    var chords := GatherChords(h, bodies);
    timed := [];
    for i := 0 to |chords|
      invariant |timed| == i
      invariant forall m :: 0 <= m < i ==> timed[m] == TimedChord(TimingOf(m), chords[m])
    {
      timed := timed + [TimedChord(TimingOf(i), chords[i])];
    }
    forall i | 0 <= i < |timed| - 1
      ensures Before(timed[i].timing, timed[i + 1].timing)
    {
      TimingIncreasing(i, i + 1);
    }
  }
}
