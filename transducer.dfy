/**
 * The transducer object: its map of states and its start state, updated in
 * place by the builder operations and by the loader.
 */
module Transducer {
  import opened Wrappers
  import opened Automata
  import opened LineGrammar
  import opened Loading

  class Fst {
    var states: map<string, State>
    var start: Option<string>

    /** The automaton the object currently holds. */
    function Model(): Automaton
      reads this
    {
      Automaton(states, start)
    }

    ghost predicate Valid()
      reads this
    {
      WellFormed(Model())
    }

    /** A transducer with no states and no start state. */
    constructor ()
      ensures Valid() && Model() == Empty
    {
      states := map[];
      start := None;
    }

    /**
     * Declares a state unless its name is taken (first declaration wins);
     * the first state ever created becomes the start state.
     */
    method AddState(name: string, isFinal: bool := false, finalWeight: real := 0.0)
      requires Valid()
      modifies this
      ensures Valid()
      ensures Model() == Declare(old(Model()), name, isFinal, finalWeight)
      ensures name in old(states) ==> states == old(states) && start == old(start)
    {
      if name !in states {
        states := states[name := State(isFinal, finalWeight, [])];
        if start.None? {
          start := Some(name);
        }
      }
    }

    /**
     * Adds an arc, first creating a missing source and then a missing
     * target, and appends it to the source's arcs.
     */
    method AddTransition(from: string, input: string, output: string, to: string, weight: real := 1.0)
      requires Valid()
      modifies this
      ensures Valid()
      ensures Model() == Connect(old(Model()), from, input, output, to, weight)
      ensures states[from].arcs == (if from in old(states) then old(states)[from].arcs else []) + [Arc(input, output, to, weight)]
    {
      if from !in states {
        AddState(from);
      }
      if to !in states {
        AddState(to);
      }
      var source := states[from];
      states := states[from := source.(arcs := source.arcs + [Arc(input, output, to, weight)])];
    }

    /**
     * Processes the lines in order, calling the builder for each transition
     * and final-state line; stops at the first invalid line and reports it.
     */
    method LoadLines(lines: seq<string>) returns (outcome: Outcome)
      requires Valid()
      modifies this
      ensures Valid()
      ensures LoadResult(Model(), outcome) == Load(old(Model()), lines)
    {
      var i := 0;
      while i < |lines|
        invariant 0 <= i <= |lines|
        invariant Valid()
        invariant Load(old(Model()), lines) == Load(Model(), lines[i..])
      {
        assert lines[i..][0] == lines[i] && lines[i..][1..] == lines[i + 1..];
        match Classify(lines[i]) {
          case Skip =>
          case TransitionLine(from, to, input, output, weight) =>
            AddTransition(from, input, output, to, weight);
          case FinalLine(name, weight) =>
            AddState(name, isFinal := true, finalWeight := weight);
          case Invalid(text) =>
            return InvalidLine(text);
        }
        i := i + 1;
      }
      outcome := Loaded;
    }
  }
}
