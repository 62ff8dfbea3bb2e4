/**
 * What loading a definition file does to an automaton, line by line.
 *
 * Lines are processed in order. A transition line adds an arc (creating
 * its endpoints), a final-state line declares a final state, skipped lines
 * do nothing, and the first invalid line stops loading with an error that
 * carries the stripped line; the lines before it have taken effect and the
 * lines after it are never looked at.
 */
module Loading {
  import opened Automata
  import opened LineGrammar

  /** How loading ended: every line processed, or stopped at an invalid line. */
  datatype Outcome = Loaded | InvalidLine(line: string)

  datatype LoadResult = LoadResult(automaton: Automaton, outcome: Outcome)

  /**
   * The effect of one classified line. A final-state line for a state that
   * already exists changes nothing, since the first declaration wins.
   */
  function Apply(a: Automaton, l: Line): (r: Automaton)
    ensures l.Skip? || l.Invalid? ==> r == a
    ensures l.FinalLine? && l.name in a.states ==> r == a
    ensures l.FinalLine? && l.name !in a.states ==> l.name in r.states && r.states[l.name] == State(true, l.weight, [])
    ensures l.TransitionLine? ==> l.from in r.states && l.to in r.states
    ensures forall n :: n in a.states ==>
      n in r.states && r.states[n].isFinal == a.states[n].isFinal && r.states[n].finalWeight == a.states[n].finalWeight
    ensures a.start.Some? ==> r.start == a.start
    ensures WellFormed(a) ==> WellFormed(r)
  {
    match l
    case TransitionLine(from, to, input, output, weight) => Connect(a, from, input, output, to, weight)
    case FinalLine(name, weight) => Declare(a, name, true, weight)
    case _ => a
  }

  /**
   * Loads `lines` into `a`. Loading never removes a state, never changes
   * the final flag or weight of a state that already exists, never moves a
   * start state that is set, and keeps the builder's invariant.
   */
  function Load(a: Automaton, lines: seq<string>): (r: LoadResult)
    ensures WellFormed(a) ==> WellFormed(r.automaton)
    ensures a.start.Some? ==> r.automaton.start == a.start
    ensures forall n :: n in a.states ==>
      && n in r.automaton.states
      && r.automaton.states[n].isFinal == a.states[n].isFinal
      && r.automaton.states[n].finalWeight == a.states[n].finalWeight
    decreases |lines|
  {
    if lines == [] then LoadResult(a, Loaded)
    else
      match Classify(lines[0])
      case Invalid(text) => LoadResult(a, InvalidLine(text))
      case l => Load(Apply(a, l), lines[1..])
  }

  /** Loading two blocks of lines is loading the first, then — if it succeeded — the second. */
  lemma {:induction false} LoadAppend(a: Automaton, xs: seq<string>, ys: seq<string>)
    ensures Load(a, xs + ys)
         == if Load(a, xs).outcome.Loaded? then Load(Load(a, xs).automaton, ys) else Load(a, xs)
    decreases |xs|
  {
    if xs == [] {
      assert xs + ys == ys;
    } else {
      assert (xs + ys)[0] == xs[0] && (xs + ys)[1..] == xs[1..] + ys;
      match Classify(xs[0])
      case Invalid(_) =>
      case l => LoadAppend(Apply(a, l), xs[1..], ys);
    }
  }

  /**
   * An invalid line stops loading: the result is the automaton the earlier
   * lines built, with an error carrying the stripped line, whatever follows.
   */
  lemma LoadStopsAtInvalidLine(a: Automaton, before: seq<string>, bad: string, after: seq<string>)
    requires Load(a, before).outcome == Loaded
    requires Classify(bad).Invalid?
    ensures Load(a, before + [bad] + after) == LoadResult(Load(a, before).automaton, InvalidLine(Strip(bad)))
  {
    var rest := [bad] + after;
    assert before + [bad] + after == before + rest;
    LoadAppend(a, before, rest);
    assert rest[0] == bad;
    var b := Load(a, before).automaton;
    assert Load(b, rest) == LoadResult(b, InvalidLine(Strip(bad)));
  }

  /** Skipped lines (blank or comments) have no effect anywhere in the file. */
  lemma LoadIgnoresSkippedLine(a: Automaton, before: seq<string>, skipped: string, after: seq<string>)
    requires Classify(skipped).Skip?
    ensures Load(a, before + [skipped] + after) == Load(a, before + after)
  {
    assert before + [skipped] + after == before + ([skipped] + after);
    LoadAppend(a, before, [skipped] + after);
    LoadAppend(a, before, after);
    assert ([skipped] + after)[1..] == after;
  }
}
