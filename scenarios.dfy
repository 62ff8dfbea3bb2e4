/**
 * Concrete automata and inputs: the definition file of the example usage,
 * what loading it builds, and what the search yields on it; and small
 * automata that show how the epsilon symbol `0` and multi-character input
 * symbols behave.
 */
module Scenarios {
  import opened Wrappers
  import opened Automata
  import opened LineGrammar
  import opened Loading
  import opened Transduction

  /** The example definition file, one string per line. */
  const ExampleLines: seq<string> := ["0 1 a x 0.5", "0 1 b y 1.5", "1 2 c z 2.5", "2 3.5"]

  const ArcA := Arc("a", "x", "1", 0.5)
  const ArcB := Arc("b", "y", "1", 1.5)
  const ArcC := Arc("c", "z", "2", 2.5)

  /**
   * What loading the example builds: state 2 was created by the third line
   * as a non-final target, so the final-state line for it changes nothing.
   */
  const ExampleAutomaton := Automaton(
    map["0" := State(false, 0.0, [ArcA, ArcB]), "1" := State(false, 0.0, [ArcC]), "2" := State(false, 0.0, [])],
    Some("0"))

  /** No epsilon arcs: every state may have rank 0. */
  const FlatRank: map<string, nat> := map["0" := 0, "1" := 0, "2" := 0]

  lemma ParseHalf0()
    ensures IsDecimal("0.5") && ParseDecimal("0.5") == 0.5
  {
    assert "0" + "." + "5" == "0.5";
    ParseDecimalOfParts("0", "5");
  }

  lemma ParseHalf1()
    ensures IsDecimal("1.5") && ParseDecimal("1.5") == 1.5
  {
    assert "1" + "." + "5" == "1.5";
    ParseDecimalOfParts("1", "5");
  }

  lemma ParseHalf2()
    ensures IsDecimal("2.5") && ParseDecimal("2.5") == 2.5
  {
    assert "2" + "." + "5" == "2.5";
    ParseDecimalOfParts("2", "5");
  }

  lemma ParseHalf3()
    ensures IsDecimal("3.5") && ParseDecimal("3.5") == 3.5
  {
    assert "3" + "." + "5" == "3.5";
    ParseDecimalOfParts("3", "5");
  }

  lemma ClassifyFirstLine()
    ensures Classify("0 1 a x 0.5") == TransitionLine("0", "1", "a", "x", 0.5)
  {
    ParseHalf0();
    assert "0 1 a x 0.5" == "0" + " " + "1" + " " + "a" + " " + "x" + " " + "0.5";
    ClassifyFive("0", "1", "a", "x", "0.5");
  }

  lemma ClassifySecondLine()
    ensures Classify("0 1 b y 1.5") == TransitionLine("0", "1", "b", "y", 1.5)
  {
    ParseHalf1();
    assert "0 1 b y 1.5" == "0" + " " + "1" + " " + "b" + " " + "y" + " " + "1.5";
    ClassifyFive("0", "1", "b", "y", "1.5");
  }

  lemma ClassifyThirdLine()
    ensures Classify("1 2 c z 2.5") == TransitionLine("1", "2", "c", "z", 2.5)
  {
    ParseHalf2();
    assert "1 2 c z 2.5" == "1" + " " + "2" + " " + "c" + " " + "z" + " " + "2.5";
    ClassifyFive("1", "2", "c", "z", "2.5");
  }

  lemma ClassifyFourthLine()
    ensures Classify("2 3.5") == FinalLine("2", 3.5)
  {
    ParseHalf3();
    var ts, gaps := ["2", "3.5"], [" "];
    assert IsGap(gaps[0]);
    assert "" + Spaced(ts, gaps) + "" == "2 3.5";
    ClassifyFinalLine("", ts, gaps, "");
  }

  lemma ClassifyFive(from: string, to: string, input: string, output: string, weight: string)
    requires IsDigits(from) && IsDigits(to) && IsWord(input) && IsWord(output) && IsDecimal(weight)
    ensures Classify(from + " " + to + " " + input + " " + output + " " + weight)
         == TransitionLine(from, to, input, output, ParseDecimal(weight))
  {
    var ts, gaps := [from, to, input, output, weight], [" ", " ", " ", " "];
    assert "" + Spaced(ts, gaps) + "" == from + " " + to + " " + input + " " + output + " " + weight by {
      assert Spaced(ts[4..], gaps[4..]) == weight;
      assert Spaced(ts[3..], gaps[3..]) == output + " " + weight;
      assert Spaced(ts[2..], gaps[2..]) == input + " " + output + " " + weight;
      assert Spaced(ts[1..], gaps[1..]) == to + " " + input + " " + output + " " + weight;
    }
    assert IsLayout("", gaps, "", |ts|) by {
      assert forall i :: 0 <= i < |gaps| ==> gaps[i] == " ";
    }
    ClassifyTransitionLine("", ts, gaps, "");
  }

  /** The automaton after the first line, and after the second. */
  const AfterFirstLine := Automaton(map["0" := State(false, 0.0, [ArcA]), "1" := State(false, 0.0, [])], Some("0"))
  const AfterSecondLine := Automaton(map["0" := State(false, 0.0, [ArcA, ArcB]), "1" := State(false, 0.0, [])], Some("0"))

  lemma FirstLineBuilds()
    ensures Connect(Empty, "0", "a", "x", "1", 0.5) == AfterFirstLine
  {
    var r := Connect(Empty, "0", "a", "x", "1", 0.5);
    assert r.states.Keys == AfterFirstLine.states.Keys;
    assert r.states["0"] == AfterFirstLine.states["0"];
    assert r.states["1"] == AfterFirstLine.states["1"];
  }

  lemma SecondLineBuilds()
    ensures Connect(AfterFirstLine, "0", "b", "y", "1", 1.5) == AfterSecondLine
  {
    var r := Connect(AfterFirstLine, "0", "b", "y", "1", 1.5);
    assert [ArcA] + [ArcB] == [ArcA, ArcB];
    assert r.states.Keys == AfterSecondLine.states.Keys;
    assert r.states["0"] == AfterSecondLine.states["0"];
    assert r.states["1"] == AfterSecondLine.states["1"];
  }

  lemma ThirdLineBuilds()
    ensures Connect(AfterSecondLine, "1", "c", "z", "2", 2.5) == ExampleAutomaton
  {
    var r := Connect(AfterSecondLine, "1", "c", "z", "2", 2.5);
    assert r.states.Keys == ExampleAutomaton.states.Keys;
    assert r.states["0"] == ExampleAutomaton.states["0"];
    assert r.states["1"] == ExampleAutomaton.states["1"];
    assert r.states["2"] == ExampleAutomaton.states["2"];
  }

  /** Loading a line that is not invalid applies it and goes on with the rest. */
  lemma LoadLine(a: Automaton, line: string, rest: seq<string>)
    requires !Classify(line).Invalid?
    ensures Load(a, [line] + rest) == Load(Apply(a, Classify(line)), rest)
  {
    assert ([line] + rest)[0] == line && ([line] + rest)[1..] == rest;
  }

  lemma LoadFourthLine()
    ensures Load(ExampleAutomaton, ["2 3.5"]) == LoadResult(ExampleAutomaton, Loaded)
  {
    ClassifyFourthLine();
    LoadLine(ExampleAutomaton, "2 3.5", []);
    assert ["2 3.5"] + [] == ["2 3.5"];
  }

  lemma LoadThirdLine()
    ensures Load(AfterSecondLine, ["1 2 c z 2.5", "2 3.5"]) == LoadResult(ExampleAutomaton, Loaded)
  {
    ClassifyThirdLine();
    ThirdLineBuilds();
    LoadLine(AfterSecondLine, "1 2 c z 2.5", ["2 3.5"]);
    LoadFourthLine();
  }

  lemma LoadSecondLine()
    ensures Load(AfterFirstLine, ["0 1 b y 1.5", "1 2 c z 2.5", "2 3.5"]) == LoadResult(ExampleAutomaton, Loaded)
  {
    ClassifySecondLine();
    SecondLineBuilds();
    LoadLine(AfterFirstLine, "0 1 b y 1.5", ["1 2 c z 2.5", "2 3.5"]);
    LoadThirdLine();
  }

  /**
   * Loading the example file succeeds and leaves state 2 non-final: the
   * final-state line comes after state 2 was created as a target.
   */
  lemma LoadExample()
    ensures Load(Empty, ExampleLines) == LoadResult(ExampleAutomaton, Loaded)
  {
    ClassifyFirstLine();
    FirstLineBuilds();
    LoadLine(Empty, "0 1 a x 0.5", ["0 1 b y 1.5", "1 2 c z 2.5", "2 3.5"]);
    LoadSecondLine();
  }

  /** The loaded example is a well-formed automaton without epsilon arcs. */
  lemma ExampleSearchable()
    ensures WellFormed(ExampleAutomaton) && EpsilonRanked(ExampleAutomaton.states, FlatRank)
  {
    var states := ExampleAutomaton.states;
    assert states.Keys == {"0", "1", "2"};
    forall n, a | n in states && a in states[n].arcs
      ensures a.target in states && a.input != Epsilon
    {
      assert a == ArcA || a == ArcB || a == ArcC;
    }
  }

  /** On the loaded example no input is accepted, `"ac"` included. */
  lemma ExampleAcceptsNothing(input: string)
    ensures WellFormed(ExampleAutomaton) && EpsilonRanked(ExampleAutomaton.states, FlatRank)
    ensures Transduce(ExampleAutomaton, FlatRank, input) == []
  {
    ExampleSearchable();
    NoFinalStateNoResults(ExampleAutomaton.states, FlatRank, "0", input);
  }

  /**
   * Transducing `"a"` on the loaded example reaches state 1 with the input
   * used up; state 1 is not final and has an arc, so the source's consuming
   * step reads the first character of an empty string there.
   */
  lemma SourceFailsOnExample()
    ensures Step(ArcA, "") in StepsFrom(ExampleAutomaton.states["0"].arcs, "a")
    ensures ConsumingStepsAsWritten(ExampleAutomaton.states["1"], "").None?
  {
    assert ArcA.input == ["a"[0]] && "a"[1..] == "";
  }

  // ---------------------------------------------------------------------
  // The epsilon symbol `0` and multi-character symbols.

  const Loop01 := Arc("0", "a", "1", 1.0)
  const Loop12 := Arc("0", "b", "2", 1.0)

  /** 0 --0/a--> 1 --0/b--> 2, with 1 and 2 final at weight 0. */
  const ZeroStates: map<string, State> :=
    map["0" := State(false, 0.0, [Loop01]), "1" := State(true, 0.0, [Loop12]), "2" := State(true, 0.0, [])]

  const ZeroRank: map<string, nat> := map["0" := 2, "1" := 1, "2" := 0]

  /** Such an automaton exists. */
  lemma ZeroSearchable()
    ensures ZeroShaped(ZeroStates) && Searchable(ZeroStates, ZeroRank)
  {
  }

  /** 0 --0/a--> 1 --0/b--> 2, with 1 and 2 final at weight 0 (other states may exist). */
  predicate ZeroShaped(states: map<string, State>)
  {
    && "0" in states && states["0"] == State(false, 0.0, [Loop01])
    && "1" in states && states["1"] == State(true, 0.0, [Loop12])
    && "2" in states && states["2"] == State(true, 0.0, [])
  }

  lemma RunFromTwo(states: map<string, State>, rank: map<string, nat>, input: string)
    requires Searchable(states, rank) && ZeroShaped(states)
    ensures Run(states, rank, "2", input) == if input == [] then [("", 0.0)] else []
  {
    assert StepsFrom([], input) == [];
  }

  lemma RunFromOneOnEmpty(states: map<string, State>, rank: map<string, nat>)
    requires Searchable(states, rank) && ZeroShaped(states)
    ensures Run(states, rank, "1", "") == [("", 0.0), ("b", 1.0)]
  {
    assert Run(states, rank, "2", "") == [("", 0.0)] by {
      RunFromTwo(states, rank, "");
    }
    assert Run(states, rank, "1", "") == [("", 0.0)] + Extend(Loop12, [("", 0.0)]) by {
      SingleArcRun(states, rank, "1", "", Loop12);
    }
    assert Extend(Loop12, [("", 0.0)]) == [("b", 1.0)] by {
      assert "b" + "" == "b";
    }
  }

  lemma RunFromOneOnZero(states: map<string, State>, rank: map<string, nat>)
    requires Searchable(states, rank) && ZeroShaped(states)
    ensures Run(states, rank, "1", "0") == [("b", 1.0)]
  {
    ArcOnZero(states, rank, "1", Loop12);
    RunFromTwo(states, rank, "");
    RunFromTwo(states, rank, "0");
    ExtendSecondArc();
  }

  lemma ExtendSecondArc()
    ensures Extend(Loop12, [("", 0.0)]) + Extend(Loop12, []) == [("b", 1.0)]
  {
    assert "b" + "" == "b";
  }

  /** The input `"0"` at a state whose one arc is labelled `0`. */
  lemma ArcOnZero(states: map<string, State>, rank: map<string, nat>, node: string, a: Arc)
    requires Searchable(states, rank) && node in states && states[node].arcs == [a] && a.input == Epsilon
    ensures a.target in states
    ensures Run(states, rank, node, "0") == Extend(a, Run(states, rank, a.target, "")) + Extend(a, Run(states, rank, a.target, "0"))
  {
    var input := "0";
    assert input[1..] == "" && input == Epsilon && Epsilon == [input[0]] by {
      EpsilonIsCharacterZero();
    }
    EpsilonArcFollowedTwice(states, rank, node, input, a);
  }

  lemma EpsilonIsCharacterZero()
    ensures Epsilon == ['0'] && "0"[0] == '0' && |"0"| == 1
  {
  }

  /**
   * On input `"0"` each arc labelled `0` is followed twice: once consuming
   * the character `0` and once as an epsilon arc. The path that consumes at
   * the second arc and the one that consumes at the first and then takes
   * the second as epsilon both yield `("ab", 2.0)`.
   */
  lemma ZeroIsBothEpsilonAndCharacter(states: map<string, State>, rank: map<string, nat>)
    requires Searchable(states, rank) && ZeroShaped(states)
    ensures Run(states, rank, "0", "0") == [("a", 1.0), ("ab", 2.0), ("ab", 2.0)]
  {
    ArcOnZero(states, rank, "0", Loop01);
    RunFromOneOnEmpty(states, rank);
    RunFromOneOnZero(states, rank);
    ExtendFirstArc();
  }

  lemma ExtendFirstArc()
    ensures Extend(Loop01, [("", 0.0), ("b", 1.0)]) + Extend(Loop01, [("b", 1.0)]) == [("a", 1.0), ("ab", 2.0), ("ab", 2.0)]
  {
    assert "a" + "" == "a" && "a" + "b" == "ab";
  }

  const Pair := Arc("ab", "x", "1", 1.0)

  /** An arc whose input symbol has two characters is never followed. */
  lemma MultiCharacterArcNeverFollowed(input: string)
    ensures Searchable(map["0" := State(false, 0.0, [Pair]), "1" := State(true, 0.0, [])], map["0" := 0, "1" := 0])
    ensures Run(map["0" := State(false, 0.0, [Pair]), "1" := State(true, 0.0, [])], map["0" := 0, "1" := 0], "0", input) == []
  {
    var states := map["0" := State(false, 0.0, [Pair]), "1" := State(true, 0.0, [])];
    var rank: map<string, nat> := map["0" := 0, "1" := 0];
    assert Searchable(states, rank);
    assert StepsFrom([Pair], input) == [];
  }
}
