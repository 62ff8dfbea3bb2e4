/**
 * The data model of a weighted finite-state transducer and the two
 * operations that build one: declaring a state and adding a transition.
 *
 * A state is identified by its name. Arcs store the name of their target,
 * which is always a key of the automaton's map, so following an arc is a
 * map lookup.
 */
module Automata {
  import opened Wrappers

  /** The input symbol that marks an epsilon arc (one that consumes nothing). */
  const Epsilon: string := "0"

  /** An outgoing transition `(input, output, target, weight)`. */
  datatype Arc = Arc(input: string, output: string, target: string, weight: real)

  /** A state: its final flag, its final weight and its outgoing arcs in declaration order. */
  datatype State = State(isFinal: bool, finalWeight: real, arcs: seq<Arc>)

  /** All states by name, and the start state (the first state ever created). */
  datatype Automaton = Automaton(states: map<string, State>, start: Option<string>)

  /** The automaton before anything is declared. */
  const Empty: Automaton := Automaton(map[], None)

  /** Every arc leads to a declared state. */
  ghost predicate Closed(states: map<string, State>)
  {
    forall n, a :: n in states && a in states[n].arcs ==> a.target in states
  }

  /**
   * The builder's invariant: arcs are closed, and the start state is set
   * exactly when some state exists, to one of them.
   */
  ghost predicate WellFormed(a: Automaton)
  {
    && Closed(a.states)
    && (a.start.None? <==> a.states == map[])
    && (a.start.Some? ==> a.start.value in a.states)
  }

  /**
   * Declares a state. A name already present is left alone (the first
   * declaration wins); a new one is added with no arcs and becomes the start
   * state when it is the first state of the automaton.
   */
  function Declare(a: Automaton, name: string, isFinal: bool, finalWeight: real): (r: Automaton)
    ensures name in a.states ==> r == a
    ensures r.states.Keys == a.states.Keys + {name}
    ensures forall n :: n in a.states ==> r.states[n] == a.states[n]
    ensures name !in a.states ==> r.states[name] == State(isFinal, finalWeight, [])
    ensures a.start.Some? ==> r.start == a.start
    ensures a.start.None? && name !in a.states ==> r.start == Some(name)
    ensures WellFormed(a) ==> WellFormed(r)
  {
    if name in a.states then a
    else
      var start := if a.start.None? then Some(name) else a.start;
      Automaton(a.states[name := State(isFinal, finalWeight, [])], start)
  }

  /**
   * Adds the arc `from --input/output, weight--> to`. Missing endpoints are
   * declared first (source before target) as non-final with weight 0; the
   * arc is appended to the end of the source's list.
   */
  function Connect(a: Automaton, from: string, input: string, output: string, to: string, weight: real): (r: Automaton)
    ensures r.states.Keys == a.states.Keys + {from, to}
    ensures a.start.Some? ==> r.start == a.start
    ensures a.start.None? && from !in a.states ==> r.start == Some(from)
    ensures forall n :: n in r.states && n !in a.states ==> !r.states[n].isFinal && r.states[n].finalWeight == 0.0
    ensures forall n :: n in a.states ==>
      r.states[n].isFinal == a.states[n].isFinal && r.states[n].finalWeight == a.states[n].finalWeight
    ensures forall n :: n in r.states && n != from ==>
      r.states[n].arcs == if n in a.states then a.states[n].arcs else []
    ensures r.states[from].arcs == (if from in a.states then a.states[from].arcs else []) + [Arc(input, output, to, weight)]
    ensures WellFormed(a) ==> WellFormed(r)
  {
    var a1 := Declare(a, from, false, 0.0);
    var a2 := Declare(a1, to, false, 0.0);
    var s := a2.states[from];
    var r := a2.(states := a2.states[from := s.(arcs := s.arcs + [Arc(input, output, to, weight)])]);
    assert WellFormed(a) ==> Closed(r.states) by {
      if WellFormed(a) {
        forall n, arc | n in r.states && arc in r.states[n].arcs ensures arc.target in r.states {
          if n == from && arc !in s.arcs {
            assert arc == Arc(input, output, to, weight);
          }
        }
      }
    }
    r
  }
}
