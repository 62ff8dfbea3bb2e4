/**
 * The transduction search: from a state and the remaining input, the
 * ordered sequence of every (output, weight) an accepting path produces.
 *
 * The search accepts when the input is used up at a final state, follows
 * each arc whose input symbol is exactly the next character (consuming it),
 * and follows each epsilon arc (consuming nothing). Results are the
 * acceptance first, then the consuming arcs, then the epsilon arcs, each in
 * declaration order, and each arc's results are prefixed with its output
 * and increased by its weight.
 */
module Transduction {
  import opened Wrappers
  import opened Automata

  /** One result: an output string and its total weight. */
  type Out = (string, real)

  /** Taking `arc` from some state, leaving `rest` of the input. */
  datatype Step = Step(arc: Arc, rest: string)

  /**
   * A witness that the epsilon arcs form no cycle: every epsilon arc leads to
   * a state of strictly lower rank.
   */
  ghost predicate EpsilonRanked(states: map<string, State>, rank: map<string, nat>)
  {
    && states.Keys <= rank.Keys
    && forall n, a :: n in states && a in states[n].arcs && a.input == Epsilon ==>
         a.target in rank && rank[a.target] < rank[n]
  }

  /** What the search needs of an automaton: closed arcs and no epsilon cycle. */
  ghost predicate Searchable(states: map<string, State>, rank: map<string, nat>)
  {
    Closed(states) && EpsilonRanked(states, rank)
  }

  /**
   * Whether `s` is a legal move on `input`: a consuming arc whose symbol is
   * the next character, or an epsilon arc that leaves the input as it is.
   */
  predicate Moves(s: Step, input: string)
  {
    || (input != [] && s.arc.input == [input[0]] && s.rest == input[1..])
    || (s.arc.input == Epsilon && s.rest == input)
  }

  /** The arcs of `arcs` whose input symbol is `symbol`, in order. */
  function Filter(arcs: seq<Arc>, symbol: string): (r: seq<Arc>)
    ensures forall a :: a in r <==> a in arcs && a.input == symbol
    ensures |r| <= |arcs|
  {
    if arcs == [] then []
    else (if arcs[0].input == symbol then [arcs[0]] else []) + Filter(arcs[1..], symbol)
  }

  /** Pairs each arc with the same remaining input. */
  function Attach(arcs: seq<Arc>, rest: string): (r: seq<Step>)
    ensures |r| == |arcs|
    ensures forall i :: 0 <= i < |r| ==> r[i] == Step(arcs[i], rest)
  {
    seq(|arcs|, i requires 0 <= i < |arcs| => Step(arcs[i], rest))
  }

  /**
   * The consuming steps: only when the input is non-empty, the arcs whose
   * symbol is exactly the next character, each leaving the input's tail.
   */
  function ConsumingSteps(arcs: seq<Arc>, input: string): (r: seq<Step>)
    ensures input == [] ==> r == []
    ensures forall s :: s in r <==> s.arc in arcs && input != [] && s.arc.input == [input[0]] && s.rest == input[1..]
  {
    if input == [] then [] else Attach(Filter(arcs, [input[0]]), input[1..])
  }

  /** The epsilon steps, each leaving the input unchanged. */
  function EpsilonSteps(arcs: seq<Arc>, input: string): (r: seq<Step>)
    ensures forall s :: s in r <==> s.arc in arcs && s.arc.input == Epsilon && s.rest == input
  {
    Attach(Filter(arcs, Epsilon), input)
  }

  /** Every step the search takes from a state, consuming ones first. */
  function StepsFrom(arcs: seq<Arc>, input: string): (r: seq<Step>)
    ensures forall s :: s in r <==> s.arc in arcs && Moves(s, input)
  {
    ConsumingSteps(arcs, input) + EpsilonSteps(arcs, input)
  }

  /** Prefixes a result with an arc's output and adds the arc's weight. */
  function Compose(a: Arc, x: Out): Out
  {
    (a.output + x.0, a.weight + x.1)
  }

  /** Composes every result of a sub-search with the arc that led there. */
  function Extend(a: Arc, xs: seq<Out>): (r: seq<Out>)
    ensures |r| == |xs|
    ensures forall i :: 0 <= i < |xs| ==> r[i] == Compose(a, xs[i])
  {
    seq(|xs|, i requires 0 <= i < |xs| => Compose(a, xs[i]))
  }

  /** All results of the search from `node` on `input`, in order. */
  function Run(states: map<string, State>, rank: map<string, nat>, node: string, input: string): seq<Out>
    requires Searchable(states, rank) && node in states
    decreases |input|, rank[node], 1, 0
  {
    var st := states[node];
    (if input == [] && st.isFinal then [("", st.finalWeight)] else [])
    + Explore(states, rank, node, input, StepsFrom(st.arcs, input))
  }

  /** The concatenated results of following each of `steps` from `node`. */
  function Explore(states: map<string, State>, rank: map<string, nat>, node: string, input: string, steps: seq<Step>): seq<Out>
    requires Searchable(states, rank) && node in states
    requires forall s :: s in steps ==> s.arc in states[node].arcs && Moves(s, input)
    decreases |input|, rank[node], 0, |steps|
  {
    if steps == [] then []
    else
      var s := steps[0];
      StepShrinks(states, rank, node, input, s);
      Extend(s.arc, Run(states, rank, s.arc.target, s.rest))
      + Explore(states, rank, node, input, steps[1..])
  }

  /** A legal step leads to a state, and shortens the input or lowers the rank. */
  lemma StepShrinks(states: map<string, State>, rank: map<string, nat>, node: string, input: string, s: Step)
    requires Searchable(states, rank) && node in states
    requires s.arc in states[node].arcs && Moves(s, input)
    ensures s.arc.target in states
    ensures |s.rest| < |input| || (s.rest == input && rank[s.arc.target] < rank[node])
  {
    assert Closed(states) && EpsilonRanked(states, rank);
    if !(input != [] && s.arc.input == [input[0]] && s.rest == input[1..]) {
      assert s.arc.input == Epsilon;
    }
  }

  /**
   * The intended `transduce`: the search from the start state, and nothing
   * when no state has been declared.
   */
  function Transduce(a: Automaton, rank: map<string, nat>, input: string): (r: seq<Out>)
    requires WellFormed(a) && EpsilonRanked(a.states, rank)
    ensures a.start.None? ==> r == []
  {
    match a.start
    case None => []
    case Some(s) => Run(a.states, rank, s, input)
  }

  // ---------------------------------------------------------------------
  // Accepting paths: the independent description of what the search finds.

  /**
   * `path` is a walk from `node` that uses only legal moves on the input
   * and ends at a final state with the input used up.
   */
  ghost predicate IsRun(states: map<string, State>, node: string, input: string, path: seq<Step>)
    decreases |path|
  {
    && node in states
    && if path == [] then input == [] && states[node].isFinal
       else
         && path[0].arc in states[node].arcs
         && Moves(path[0], input)
         && IsRun(states, path[0].arc.target, path[0].rest, path[1..])
  }

  /** The concatenation of the outputs along a path. */
  function PathOutput(path: seq<Step>): string
  {
    if path == [] then "" else path[0].arc.output + PathOutput(path[1..])
  }

  /** The sum of the arc weights along a path. */
  function PathWeight(path: seq<Step>): real
  {
    if path == [] then 0.0 else path[0].arc.weight + PathWeight(path[1..])
  }

  /** The state a path from `node` ends in. */
  function Last(node: string, path: seq<Step>): string
    decreases |path|
  {
    if path == [] then node else Last(path[0].arc.target, path[1..])
  }

  lemma {:induction false} RunEndsInState(states: map<string, State>, node: string, input: string, path: seq<Step>)
    requires IsRun(states, node, input, path)
    ensures Last(node, path) in states && states[Last(node, path)].isFinal
    decreases |path|
  {
    if path != [] {
      RunEndsInState(states, path[0].arc.target, path[0].rest, path[1..]);
    }
  }

  /** What an accepting path yields: its outputs, and its weights plus the final weight. */
  ghost function PathValue(states: map<string, State>, node: string, input: string, path: seq<Step>): Out
    requires IsRun(states, node, input, path)
  {
    RunEndsInState(states, node, input, path);
    (PathOutput(path), PathWeight(path) + states[Last(node, path)].finalWeight)
  }

  /** Prepending a legal step to an accepting path gives an accepting path, whose value is composed with the step's arc. */
  lemma ConsRun(states: map<string, State>, node: string, input: string, s: Step, tail: seq<Step>)
    requires node in states && s.arc in states[node].arcs && Moves(s, input)
    requires IsRun(states, s.arc.target, s.rest, tail)
    ensures IsRun(states, node, input, [s] + tail)
    ensures PathValue(states, node, input, [s] + tail) == Compose(s.arc, PathValue(states, s.arc.target, s.rest, tail))
  {
    var path := [s] + tail;
    assert path[0] == s && path[1..] == tail;
  }

  /** `path` is an accepting path from `node` on `input` whose value is `x`. */
  ghost predicate Yields(states: map<string, State>, node: string, input: string, path: seq<Step>, x: Out)
  {
    IsRun(states, node, input, path) && x == PathValue(states, node, input, path)
  }

  /** A result of `Explore` comes from one of its steps: the `i`-th, through its result `y`. */
  lemma {:induction false} ExploreMember(states: map<string, State>, rank: map<string, nat>, node: string, input: string,
                                          steps: seq<Step>, x: Out) returns (i: nat, y: Out)
    requires Searchable(states, rank) && node in states
    requires forall s :: s in steps ==> s.arc in states[node].arcs && Moves(s, input)
    requires x in Explore(states, rank, node, input, steps)
    ensures i < |steps| && steps[i].arc.target in states
    ensures y in Run(states, rank, steps[i].arc.target, steps[i].rest) && x == Compose(steps[i].arc, y)
    decreases |steps|
  {
    var s := steps[0];
    StepShrinks(states, rank, node, input, s);
    var ys := Run(states, rank, s.arc.target, s.rest);
    if x in Extend(s.arc, ys) {
      i := 0;
      y := ExtendMember(s.arc, ys, x);
    } else {
      var j, z := ExploreMember(states, rank, node, input, steps[1..], x);
      i, y := j + 1, z;
      assert steps[1..][j] == steps[i];
    }
  }

  /** A member of `Extend(a, ys)` is `a` composed with a member of `ys`. */
  lemma ExtendMember(a: Arc, ys: seq<Out>, x: Out) returns (y: Out)
    requires x in Extend(a, ys)
    ensures y in ys && x == Compose(a, y)
  {
    var k :| 0 <= k < |ys| && Extend(a, ys)[k] == x;
    y := ys[k];
  }

  /** Every step's results appear, composed with its arc, in `Explore`. */
  lemma {:induction false} ExploreHas(states: map<string, State>, rank: map<string, nat>, node: string, input: string,
                                       steps: seq<Step>, i: nat, y: Out)
    requires Searchable(states, rank) && node in states
    requires forall s :: s in steps ==> s.arc in states[node].arcs && Moves(s, input)
    requires i < |steps| && steps[i].arc.target in states
    requires y in Run(states, rank, steps[i].arc.target, steps[i].rest)
    ensures Compose(steps[i].arc, y) in Explore(states, rank, node, input, steps)
    decreases |steps|
  {
    var s := steps[0];
    var head := Extend(s.arc, Run(states, rank, s.arc.target, s.rest));
    if i == 0 {
      var k :| 0 <= k < |Run(states, rank, s.arc.target, s.rest)| && Run(states, rank, s.arc.target, s.rest)[k] == y;
      assert head[k] == Compose(s.arc, y);
    } else {
      assert steps[1..][i - 1] == steps[i];
      ExploreHas(states, rank, node, input, steps[1..], i - 1, y);
    }
  }

  /**
   * Soundness: every result of the search is the value of an accepting
   * path — its output is the concatenation of the arcs' outputs, its weight
   * the sum of their weights plus the final weight where the path ends.
   */
  lemma {:induction false} RunSound(states: map<string, State>, rank: map<string, nat>, node: string, input: string, x: Out)
    requires Searchable(states, rank) && node in states
    requires x in Run(states, rank, node, input)
    ensures exists path :: Yields(states, node, input, path, x)
    decreases |input|, rank[node], 1
  {
    var st := states[node];
    var accept: seq<Out> := if input == [] && st.isFinal then [("", st.finalWeight)] else [];
    var steps := StepsFrom(st.arcs, input);
    assert Run(states, rank, node, input) == accept + Explore(states, rank, node, input, steps);
    if x in accept {
      assert Yields(states, node, input, [], x);
    } else {
      var i, y := ExploreMember(states, rank, node, input, steps, x);
      assert steps[i] in steps;
      RunSoundThrough(states, rank, node, input, steps[i], y);
    }
  }

  /** A result reached through the legal step `s` is the value of a path starting with `s`. */
  lemma {:induction false} RunSoundThrough(states: map<string, State>, rank: map<string, nat>, node: string, input: string,
                                            s: Step, y: Out)
    requires Searchable(states, rank) && node in states
    requires s.arc in states[node].arcs && Moves(s, input)
    requires s.arc.target in states && y in Run(states, rank, s.arc.target, s.rest)
    ensures exists path :: Yields(states, node, input, path, Compose(s.arc, y))
    decreases |input|, rank[node], 0
  {
    StepShrinks(states, rank, node, input, s);
    RunSound(states, rank, s.arc.target, s.rest, y);
    var tail :| Yields(states, s.arc.target, s.rest, tail, y);
    ConsRun(states, node, input, s, tail);
    assert Yields(states, node, input, [s] + tail, Compose(s.arc, y));
  }

  /** Completeness: the value of every accepting path is among the results. */
  lemma {:induction false} RunComplete(states: map<string, State>, rank: map<string, nat>, node: string, input: string,
                                        path: seq<Step>)
    requires Searchable(states, rank)
    requires IsRun(states, node, input, path)
    ensures PathValue(states, node, input, path) in Run(states, rank, node, input)
    decreases |path|
  {
    if path != [] {
      var s, tail := path[0], path[1..];
      RunComplete(states, rank, s.arc.target, s.rest, tail);
      ConsRun(states, node, input, s, tail);
      assert [s] + tail == path;
      StepIntoRun(states, rank, node, input, s, PathValue(states, s.arc.target, s.rest, tail));
    }
  }

  /** A result reached through the legal step `s`, composed with its arc, is a result from `node`. */
  lemma StepIntoRun(states: map<string, State>, rank: map<string, nat>, node: string, input: string, s: Step, y: Out)
    requires Searchable(states, rank) && node in states
    requires s.arc in states[node].arcs && Moves(s, input)
    requires s.arc.target in states && y in Run(states, rank, s.arc.target, s.rest)
    ensures Compose(s.arc, y) in Run(states, rank, node, input)
  {
    var st := states[node];
    var steps := StepsFrom(st.arcs, input);
    assert s in steps;
    var i :| 0 <= i < |steps| && steps[i] == s;
    ExploreHas(states, rank, node, input, steps, i, y);
    var accept: seq<Out> := if input == [] && st.isFinal then [("", st.finalWeight)] else [];
    assert Run(states, rank, node, input) == accept + Explore(states, rank, node, input, steps);
  }

  /**
   * The results of `Transduce` are exactly the values of the accepting paths
   * from the start state.
   */
  lemma TransduceFindsExactlyAcceptingPaths(a: Automaton, rank: map<string, nat>, input: string, x: Out)
    requires WellFormed(a) && EpsilonRanked(a.states, rank)
    ensures x in Transduce(a, rank, input) <==>
      a.start.Some? && exists path :: Yields(a.states, a.start.value, input, path, x)
  {
    if a.start.Some? {
      if x in Transduce(a, rank, input) {
        RunSound(a.states, rank, a.start.value, input, x);
      }
      if exists path :: Yields(a.states, a.start.value, input, path, x) {
        var path :| Yields(a.states, a.start.value, input, path, x);
        RunComplete(a.states, rank, a.start.value, input, path);
      }
    }
  }

  /**
   * On an empty input every accepting path uses epsilon arcs only: no
   * character of the empty input is ever read.
   */
  lemma {:induction false} EmptyInputFollowsOnlyEpsilon(states: map<string, State>, node: string, path: seq<Step>)
    requires IsRun(states, node, "", path)
    ensures forall i :: 0 <= i < |path| ==> path[i].arc.input == Epsilon && path[i].rest == ""
    decreases |path|
  {
    if path != [] {
      EmptyInputFollowsOnlyEpsilon(states, path[0].arc.target, path[1..]);
      forall i | 0 <= i < |path| ensures path[i].arc.input == Epsilon && path[i].rest == "" {
        if i > 0 { assert path[i] == path[1..][i - 1]; }
      }
    }
  }

  /**
   * Every arc on an accepting path has a one-character input symbol: arcs
   * with longer (or empty) symbols are never followed.
   */
  lemma {:induction false} PathArcsHaveOneCharacter(states: map<string, State>, node: string, input: string, path: seq<Step>)
    requires IsRun(states, node, input, path)
    ensures forall i :: 0 <= i < |path| ==> |path[i].arc.input| == 1
    ensures |path| >= |input|
    decreases |path|
  {
    if path != [] {
      PathArcsHaveOneCharacter(states, path[0].arc.target, path[0].rest, path[1..]);
      forall i | 0 <= i < |path| ensures |path[i].arc.input| == 1 {
        if i > 0 { assert path[i] == path[1..][i - 1]; }
      }
    }
  }

  /** With no final state reachable at all, the search yields nothing. */
  lemma NoFinalStateNoResults(states: map<string, State>, rank: map<string, nat>, node: string, input: string)
    requires Searchable(states, rank) && node in states
    requires forall n :: n in states ==> !states[n].isFinal
    ensures Run(states, rank, node, input) == []
  {
    if Run(states, rank, node, input) != [] {
      var x := Run(states, rank, node, input)[0];
      RunSound(states, rank, node, input, x);
      var path :| Yields(states, node, input, path, x);
      RunEndsInState(states, node, input, path);
    }
  }

  /**
   * The search's results come in a fixed order: the acceptance (if any),
   * then everything through the consuming steps, then everything through
   * the epsilon steps.
   */
  lemma RunInOrder(states: map<string, State>, rank: map<string, nat>, node: string, input: string)
    requires Searchable(states, rank) && node in states
    ensures Run(states, rank, node, input)
         == (if input == [] && states[node].isFinal then [("", states[node].finalWeight)] else [])
          + (Explore(states, rank, node, input, ConsumingSteps(states[node].arcs, input))
           + Explore(states, rank, node, input, EpsilonSteps(states[node].arcs, input)))
  {
    ExploreAllSteps(states, rank, node, input);
  }

  /** Exploring all steps from a state is exploring its consuming steps, then its epsilon steps. */
  lemma ExploreAllSteps(states: map<string, State>, rank: map<string, nat>, node: string, input: string)
    requires Searchable(states, rank) && node in states
    ensures Explore(states, rank, node, input, StepsFrom(states[node].arcs, input))
         == Explore(states, rank, node, input, ConsumingSteps(states[node].arcs, input))
          + Explore(states, rank, node, input, EpsilonSteps(states[node].arcs, input))
  {
    var arcs := states[node].arcs;
    var xs, ys := ConsumingSteps(arcs, input), EpsilonSteps(arcs, input);
    assert StepsFrom(arcs, input) == xs + ys;
    forall s: Step | s in xs + ys ensures s.arc in arcs && Moves(s, input) {
      assert s in StepsFrom(arcs, input);
    }
    ExploreAppend(states, rank, node, input, xs, ys);
  }

  /**
   * Arcs are matched in declaration order: an arc appended after the others
   * is matched after them.
   */
  lemma {:induction false} FilterAppend(arcs: seq<Arc>, x: Arc, symbol: string)
    ensures Filter(arcs + [x], symbol) == Filter(arcs, symbol) + (if x.input == symbol then [x] else [])
    decreases |arcs|
  {
    if arcs == [] {
      assert arcs + [x] == [x];
      assert [x][1..] == [];
    } else {
      assert (arcs + [x])[0] == arcs[0] && (arcs + [x])[1..] == arcs[1..] + [x];
      FilterAppend(arcs[1..], x, symbol);
    }
  }

  /** The steps one arc offers: consuming the next character, as epsilon, or both. */
  lemma StepsOfOneArc(a: Arc, input: string)
    ensures ConsumingSteps([a], input) == if input != [] && a.input == [input[0]] then [Step(a, input[1..])] else []
    ensures EpsilonSteps([a], input) == if a.input == Epsilon then [Step(a, input)] else []
  {
    assert [a][1..] == [];
    assert Filter([a], a.input) == [a];
  }

  /**
   * From a state with a single arc, the search yields the acceptance (if
   * any), then the results through the arc consuming the next character,
   * then those through the arc taken as epsilon. An arc labelled `0` on an
   * input starting with `0` is therefore followed both ways.
   */
  lemma SingleArcRun(states: map<string, State>, rank: map<string, nat>, node: string, input: string, a: Arc)
    requires Searchable(states, rank) && node in states && states[node].arcs == [a]
    ensures a.target in states
    ensures Run(states, rank, node, input)
         == (if input == [] && states[node].isFinal then [("", states[node].finalWeight)] else [])
          + ((if input != [] && a.input == [input[0]] then Extend(a, Run(states, rank, a.target, input[1..])) else [])
           + (if a.input == Epsilon then Extend(a, Run(states, rank, a.target, input)) else []))
  {
    assert a in states[node].arcs;
    RunInOrder(states, rank, node, input);
    StepsOfOneArc(a, input);
    ExploreSingle(states, rank, node, input, ConsumingSteps([a], input));
    ExploreSingle(states, rank, node, input, EpsilonSteps([a], input));
  }

  /**
   * An arc labelled `0` out of a state with no other arc, on an input that
   * starts with the character `0`: it is followed consuming that character,
   * and then again as an epsilon arc.
   */
  lemma EpsilonArcFollowedTwice(states: map<string, State>, rank: map<string, nat>, node: string, input: string, a: Arc)
    requires Searchable(states, rank) && node in states && states[node].arcs == [a]
    requires a.input == Epsilon && input != [] && a.input == [input[0]]
    ensures a.target in states
    ensures Run(states, rank, node, input)
         == Extend(a, Run(states, rank, a.target, input[1..])) + Extend(a, Run(states, rank, a.target, input))
  {
    SingleArcRun(states, rank, node, input, a);
  }

  /** Exploring two lists of steps one after the other. */
  lemma {:induction false} ExploreAppend(states: map<string, State>, rank: map<string, nat>, node: string, input: string,
                                          xs: seq<Step>, ys: seq<Step>)
    requires Searchable(states, rank) && node in states
    requires forall s :: s in xs + ys ==> s.arc in states[node].arcs && Moves(s, input)
    ensures Explore(states, rank, node, input, xs + ys)
         == Explore(states, rank, node, input, xs) + Explore(states, rank, node, input, ys)
    decreases |xs|
  {
    if xs == [] {
      assert xs + ys == ys;
    } else {
      assert (xs + ys)[0] == xs[0] && (xs + ys)[1..] == xs[1..] + ys;
      ExploreAppend(states, rank, node, input, xs[1..], ys);
    }
  }

  /** Exploring at most one step. */
  lemma ExploreSingle(states: map<string, State>, rank: map<string, nat>, node: string, input: string, xs: seq<Step>)
    requires Searchable(states, rank) && node in states && |xs| <= 1
    requires forall s :: s in xs ==> s.arc in states[node].arcs && Moves(s, input)
    ensures xs != [] ==> xs[0].arc.target in states
    ensures Explore(states, rank, node, input, xs)
         == if xs == [] then [] else Extend(xs[0].arc, Run(states, rank, xs[0].arc.target, xs[0].rest))
  {
    if xs != [] {
      assert xs[1..] == [];
      StepShrinks(states, rank, node, input, xs[0]);
    }
  }

  // ---------------------------------------------------------------------
  // The consuming step as the source writes it.

  /**
   * The consuming steps exactly as written in the source: the next
   * character is read whenever the state does not accept, and reading the
   * first character of an empty input raises (`None`). The read happens only
   * if there is at least one arc to compare it with.
   */
  function ConsumingStepsAsWritten(st: State, input: string): (r: Option<seq<Step>>)
  {
    if input == [] && st.isFinal then Some([])
    else if input == [] then (if st.arcs == [] then Some([]) else None)
    else Some(Attach(Filter(st.arcs, [input[0]]), input[1..]))
  }

  /**
   * The source's consuming step fails on an empty input at a non-final state
   * that has an arc, and agrees with the guarded `ConsumingSteps` everywhere else.
   */
  lemma AsWrittenFailsOnlyOnEmptyInput(st: State, input: string)
    ensures ConsumingStepsAsWritten(st, input).None? <==> input == [] && !st.isFinal && st.arcs != []
    ensures ConsumingStepsAsWritten(st, input).Some? ==> ConsumingStepsAsWritten(st, input).value == ConsumingSteps(st.arcs, input)
  {
  }
}
