# A weighted finite-state transducer, modelled in Dafny

This project models `fst.py`, a small library for weighted finite-state
transducers (FSTs). It has three parts.

- **The automaton builder** (`State`, `FST.add_state`, `FST.add_transition`).
  - An FST holds a map from state name to a state: a final flag, a final
    weight, and an ordered list of arcs `(input, output, target, weight)`.
  - It also holds a start state, which is the first state ever created.
  - The pure functions `Automata.Declare` and `Automata.Connect` say what
    one builder call does to an `Automata.Automaton` value.
  - The class `Transducer.Fst` keeps the two fields and updates them in
    place. Its methods are proved to produce exactly what those functions
    describe.
  - Arcs store the target state's name. The builder's invariant
    (`Automata.WellFormed`) says that every arc target is a state, and that
    the start state is set exactly when some state exists.
- **The transduction search** (`FST.transduce_node`), modelled by
  `Transduction.Run`. From a state and the remaining input it returns every
  `(output, weight)` pair, in the order the source's generator yields them:
  - first the acceptance `("", final weight)`, when the input is used up at
    a final state;
  - then the results through arcs that consume the next character;
  - then the results through arcs labelled `0`, which are epsilon arcs and
    consume nothing.

  The source assumes there are no epsilon cycles. The model asks for a rank
  on states that strictly drops along every `0` arc (`EpsilonRanked`); this
  rank is also what makes the search terminate. The search is proved sound
  and complete against an independent description of accepting paths
  (`IsRun`, `PathValue`).
- **The definition-file loader** (the line loop of `FST.load_from_file`),
  modelled over a sequence of lines.
  - `LineGrammar.Classify` strips a line, then skips it if it is blank or a
    `#` comment.
  - Otherwise it reads the line as a transition `from to input output
    [weight]` or a final state `state [weight]`, or marks it invalid.
  - The two anchored regular expressions of the source become predicates
    on whitespace-separated tokens (`IsTransitionShape`, `IsFinalShape`).
    Digits, word characters and decimals contain no whitespace, so a field
    never spans a `\s+` run. `TokensOfSpaced` and `ClassifySpaced` prove
    that a line made of tokens, with any whitespace around it and any
    non-empty whitespace between the tokens, is split back into exactly those
    tokens and classified by them. The newline that `readlines` keeps is part
    of that surrounding whitespace.
  - `Loading.Load` and `Transducer.Fst.LoadLines` apply the lines in order
    and stop at the first invalid line.

Weights are exact reals: `ParseDecimal` reads `\d+(\.\d+)?` as the integer
part plus the fraction digits over a power of ten.

`FST.transduce` (fst.py:42-43) calls a name that is not bound, so as
written it fails and returns nothing. `Transduction.Transduce` models what
it evidently means: the search from the start state, or no results when
there is no start state.

The example file in the comment at fst.py:96-100 ends with `2 3.5`. Reading
that line as "state 2 becomes final" does not match the code. State `2` was
already created by the third line as a non-final arc target, and `add_state`
leaves existing states alone. So after loading, no state is final and
nothing is accepted (`Scenarios.LoadExample`,
`Scenarios.ExampleAcceptsNothing`). The model follows the code.

## Model

| member | source | states |
|---|---|---|
| `Automata.Declare` | fst.py:22-31 | A name already present leaves the automaton unchanged: first declaration wins, whatever the flag and weight. Otherwise exactly that name is added, as a state with the given flag and weight and no arcs. A start state that is set is kept; with none set, the new state becomes the start. The builder's invariant is preserved. |
| `Automata.Connect` | fst.py:33-40 | Both endpoints end up as states, and no other key is added. A created endpoint is non-final with weight 0. Existing final flags and weights are unchanged, and so are the arc lists of every state but the source. The source's list gains exactly one arc at its end. On an empty automaton the source becomes the start; otherwise the start is unchanged. Every arc target is a state afterwards. |
| `Transducer.Fst.constructor` | fst.py:17-19 | A new transducer has no states and no start state. |
| `Transducer.Fst.AddState` | fst.py:22-31 | The object's new map and start are `Declare` of the old ones. An existing name leaves both fields untouched. The invariant is kept. Flag and weight default to false and 0.0. |
| `Transducer.Fst.AddTransition` | fst.py:33-40 | The new state is `Connect` of the old one, with the weight defaulting to 1.0. The source's arc list is its old list (or empty) plus the new arc. The invariant is kept. |
| `Transducer.Fst.LoadLines` | fst.py:66-87 | The loop applies the lines in order. The object's final state and the reported outcome equal `Load` of the old state and the lines: the first invalid line stops it and is reported. |
| `Transduction.Filter` | fst.py:51-52 | Keeps exactly the arcs whose input symbol is the given one. |
| `Transduction.FilterAppend` | fst.py:51-52 | Arcs are matched in declaration order: an arc appended last is matched after all the earlier ones. |
| `Transduction.ConsumingSteps` | fst.py:51 | On an empty input there is no consuming step. Otherwise the steps are exactly the arcs whose symbol equals the next character, each with that character consumed. |
| `Transduction.EpsilonSteps` | fst.py:52 | The steps are exactly the arcs labelled `0`, each with the input unchanged. |
| `Transduction.StepsFrom` | fst.py:51-52 | A step is offered exactly when its arc belongs to the state and it is a legal move: consuming the next character, or an epsilon arc with the input unchanged. |
| `Transduction.ConsRun` | fst.py:55-56 | Prefixing a legal step to an accepting path from the step's target gives an accepting path. Its value is the arc's output followed by the rest's output, with the arc's weight added to the rest's weight. |
| `Transduction.Run` | fst.py:46-56 | No contract of its own: the search, as the acceptance followed by the explored steps. `RunSound`, `RunComplete` and `RunInOrder` describe its results. |
| `Transduction.Explore` | fst.py:54-56 | No contract of its own: the results of each step, composed with its arc, one step after another. `ExploreAppend`, `ExploreMember` and `ExploreHas` describe it. |
| `Transduction.Transduce` | fst.py:42-43 | With no start state there are no results. The results are those of the search from the start state (see the next row). |
| `Transduction.TransduceFindsExactlyAcceptingPaths` | fst.py:42-56 | A pair is among the results exactly when some accepting path from the start state yields it. |
| `Transduction.RunSound` | fst.py:46-56 | Every result is the value of an accepting path. The path makes only legal moves, ends at a final state with the input used up, and its value is the concatenated outputs paired with the summed weights plus the final weight. |
| `Transduction.RunComplete` | fst.py:46-56 | The value of every accepting path is among the results. |
| `Transduction.RunEndsInState` | fst.py:48-49 | An accepting path ends at a state that is final. |
| `Transduction.RunInOrder` | fst.py:48-54 | The results come in a fixed order: the acceptance first (only with the input used up at a final state), then all results through consuming steps, then all results through epsilon steps. |
| `Transduction.ExploreAppend` | fst.py:54-56 | Exploring two lists of steps gives the results of the first list, followed by those of the second. |
| `Transduction.ExploreMember` | fst.py:54-56 | Every explored result is some step's arc composed with a result from that step's target. |
| `Transduction.ExploreHas` | fst.py:54-56 | Every step's results, composed with its arc, appear among the explored results. |
| `Transduction.SingleArcRun` | fst.py:48-56 | From a state with one arc, the results are the acceptance, then the results through the arc consuming the next character, then the results through the arc taken as epsilon. |
| `Transduction.EpsilonArcFollowedTwice` | fst.py:51-54 | An arc labelled `0`, on an input starting with the character `0`, is followed twice: once consuming the `0`, and once as epsilon with the input unchanged. |
| `Transduction.EmptyInputFollowsOnlyEpsilon` | fst.py:51-52 | On an empty input, every arc of an accepting path is an epsilon arc and the input stays empty. |
| `Transduction.PathArcsHaveOneCharacter` | fst.py:51-52 | Every arc on an accepting path has a one-character input symbol. Arcs with longer or empty symbols are never followed. A path has at least as many steps as the input has characters. |
| `Transduction.NoFinalStateNoResults` | fst.py:48-49 | When no state is final, the search yields nothing, on any input. |
| `Transduction.ConsumingStepsAsWritten` | fst.py:48-51 | No contract of its own: the source's consuming step, `None` where it would raise `IndexError`. `AsWrittenFailsOnlyOnEmptyInput` states when that happens. |
| `Transduction.AsWrittenFailsOnlyOnEmptyInput` | fst.py:48-51 | The source's consuming step fails exactly on an empty input at a non-final state that has an arc. Everywhere else it agrees with the guarded `ConsumingSteps`. |
| `LineGrammar.StripLeft` | fst.py:67 | The result is a suffix of the input. Everything removed is whitespace, and the result does not start with whitespace. |
| `LineGrammar.StripRight` | fst.py:67 | The result is a prefix of the input. Everything removed is whitespace, and the result does not end with whitespace. |
| `LineGrammar.Strip` | fst.py:67 | The result neither starts nor ends with whitespace. A line already free of surrounding whitespace is unchanged. |
| `LineGrammar.Tokens` | fst.py:62-63 | Every piece is a non-empty run of non-whitespace characters. Which pieces, in which order, is stated by `TokensOfSpaced`. |
| `LineGrammar.TokensOfSpaced` | fst.py:62-63 | A line made of tokens, with any whitespace (the newline included) before and after and a non-empty whitespace run between each two tokens, splits into exactly those tokens, in order. |
| `LineGrammar.StripOfSpaced` | fst.py:67-69 | Stripping such a line removes exactly the whitespace before and after the tokens. What remains is not blank and starts with the first token's first character. |
| `LineGrammar.DecimalIsToken` | fst.py:62 | A decimal contains no whitespace. |
| `LineGrammar.DigitsValueBelow` | fst.py:78 | A digit string of length n denotes a number below 10^n. |
| `LineGrammar.DigitsValueOfNumeral` | fst.py:78 | Reading back the decimal numeral of n gives n. |
| `LineGrammar.ParseDecimal` | fst.py:78 | The value lies between the integer part and the next integer. Without a fraction, it is the integer part. |
| `LineGrammar.ParseDecimalOfParts` | fst.py:78 | `whole.fraction` is a decimal. Its value is the integer part plus the fraction digits over ten to their count. |
| `LineGrammar.IsTransitionShape` | fst.py:62 | No contract of its own: four or five tokens, two digit strings, two words and an optional decimal, as the transition pattern's fields. |
| `LineGrammar.IsFinalShape` | fst.py:63 | No contract of its own: one or two tokens, a digit string and an optional decimal, as the final-state pattern's fields. |
| `LineGrammar.Classify` | fst.py:66-69 | A line is skipped exactly when its stripped text is empty or starts with `#`. An invalid line carries its stripped text. A transition has digit-string endpoints, word symbols and a non-negative weight. A final-state line has a digit-string name and a non-negative weight. |
| `LineGrammar.ClassifyTokens` | fst.py:70-87 | A line is invalid exactly when its tokens fit neither shape, and then it carries the line. A transition has digit-string endpoints, word symbols and a non-negative weight; a final-state line has a digit-string name and a non-negative weight. |
| `LineGrammar.ClassifySpaced` | fst.py:67-71 | A line made of tokens, spaced in any way, whose first token does not start with `#`, is classified by exactly those tokens. An invalid one carries the line without its surrounding whitespace. |
| `LineGrammar.ClassifyTransitionLine` | fst.py:73-78 | Every token list of the transition shape, spaced in any way, is read back as that transition. With four tokens, the weight is 1.0. |
| `LineGrammar.ClassifyFinalLine` | fst.py:81-83 | Every token list of the final-state shape, spaced in any way, is read back as that final state. With one token, the weight is 0.0. |
| `LineGrammar.ClassifyWrongTokenCount` | fst.py:86-87 | A line of three tokens, or of more than five, spaced in any way, is invalid and carries its text without the surrounding whitespace. |
| `Loading.Apply` | fst.py:73-85 | Skipped and invalid lines change nothing. A final-state line for an existing state is a no-op; for a new name it creates a final state with no arcs. A transition line creates both endpoints. No existing flag or weight changes, a set start is kept, and the invariant is preserved. |
| `Loading.Load` | fst.py:66-87 | Loading preserves the invariant and keeps a set start state. It removes no state and changes no existing state's final flag or weight. |
| `Loading.LoadAppend` | fst.py:66-87 | Loading two blocks of lines is loading the first, then the second only if the first succeeded. |
| `Loading.LoadStopsAtInvalidLine` | fst.py:86-87 | An invalid line stops loading with its stripped text. The lines before it have taken effect, and the lines after it have none. |
| `Loading.LoadIgnoresSkippedLine` | fst.py:68-69 | A blank or comment line anywhere in the file has no effect. |
| `Scenarios.ClassifyFirstLine` | fst.py:97 | `0 1 a x 0.5` is the transition 0 to 1, a/x, weight 0.5. |
| `Scenarios.ClassifyFourthLine` | fst.py:100 | `2 3.5` is a final-state line for 2 with weight 3.5. |
| `Scenarios.LoadExample` | fst.py:96-100 | Loading the example file succeeds. It gives states 0, 1 and 2, all non-final, the arcs a/x and b/y from 0 to 1 and c/z from 1 to 2, and start 0. |
| `Scenarios.ExampleAcceptsNothing` | fst.py:96-100 | The loaded example satisfies the search's precondition and accepts no input, `ac` included. |
| `Scenarios.SourceFailsOnExample` | fst.py:51 | On the example, input `a` reaches state 1 with the input used up, and there the source's consuming step fails. |
| `Scenarios.ZeroIsBothEpsilonAndCharacter` | fst.py:51-54 | Take the chain 0 -0/a-> 1 -0/b-> 2, with 1 and 2 final at weight 0. On input `0` it yields `("a", 1.0)`, `("ab", 2.0)`, `("ab", 2.0)`: the second result comes from two different paths. |
| `Scenarios.MultiCharacterArcNeverFollowed` | fst.py:51 | A state whose only arc has the two-character symbol `ab` accepts nothing through it, on any input. |

## Left out

- File opening and `readlines` (fst.py:60-61): the loader takes the file's lines as a sequence of strings.
- The pattern compilation (fst.py:62-63) is not modelled as a regex engine. The two patterns are stated as token shapes; `\d` and `\w` are the ASCII classes, not Python's Unicode classes.
- All `print` diagnostics (fst.py:12, 20, 28-31, 65, 79, 84), `__repr__` (fst.py:89-90) and the `__main__` driver (fst.py:93-108), which calls a method that does not exist.
- `float(...)` rounding: weights and their sums are exact reals.
- The laziness of the generator (fst.py:49, 56): the model returns the whole ordered sequence of results.
- Epsilon cycles: the search requires an epsilon rank (a rank dropping along every `0` arc). The non-termination the source would show on an epsilon cycle is not modelled.
- `State` objects and their identity. A state is a value in the map, and `State.add_transition` (fst.py:11-13) becomes replacing the map entry, inside `Connect` and `Fst.AddTransition`. Arcs name their target instead of pointing to it. The source never shares a `State` between two names, so no aliasing is lost.
- `ValueError` is modelled as the `InvalidLine` outcome carrying the stripped line, not as an exception. Its message prefix is not modelled.
- `Transduction.Transduce`: models the evidently intended behaviour of fst.py:42-43 and not the unbound-name failure as written.

## Findings

| source | as written | input that shows it | evidently intended | confidence | as-written member | corrected member |
|---|---|---|---|---|---|---|
| fst.py:48-51 | When the input is empty and the state is not final, the list comprehension reads `input_string[0]` as it tests the first arc, so a state with at least one arc raises `IndexError` (one with no arcs does not) | Load the example file and transduce `a`: the arc a/x reaches state 1 with empty input; state 1 is not final and has the arc c/z | Consume only when input remains; on empty input follow epsilon arcs only | not executed | `Transduction.AsWrittenFailsOnlyOnEmptyInput` | `Transduction.ConsumingSteps` |
