/**
 * The line grammar of the definition file, at the level of whitespace
 * separated tokens.
 *
 * A line is stripped of surrounding whitespace; an empty line or one that
 * starts with `#` is skipped. Otherwise it is a transition line
 * `from to input output [weight]` (two digit strings, two word tokens, an
 * optional decimal) or a final-state line `state [weight]` (a digit string
 * and an optional decimal). Because digits, word characters and decimals
 * contain no whitespace, the two anchored patterns of the loader match
 * exactly the lines whose tokens have these shapes.
 */
module LineGrammar {

  // ---------------------------------------------------------------------
  // Whitespace, stripping and tokens.

  /** The characters Python treats as whitespace. */
  predicate IsSpace(c: char)
  {
    || c == ' '
    || ('\t' <= c <= '\r')
    || ('\U{1c}' <= c <= '\U{1f}')
    || c == '\U{85}' || c == '\U{a0}' || c == '\U{1680}'
    || ('\U{2000}' <= c <= '\U{200a}')
    || c == '\U{2028}' || c == '\U{2029}' || c == '\U{202f}' || c == '\U{205f}' || c == '\U{3000}'
  }

  /** Removes the longest whitespace prefix. */
  function StripLeft(s: string): (r: string)
    ensures |r| <= |s| && r == s[|s| - |r|..]
    ensures forall i :: 0 <= i < |s| - |r| ==> IsSpace(s[i])
    ensures r == [] || !IsSpace(r[0])
  {
    if s != [] && IsSpace(s[0]) then StripLeft(s[1..]) else s
  }

  /** Removes the longest whitespace suffix. */
  function StripRight(s: string): (r: string)
    ensures |r| <= |s| && r == s[..|r|]
    ensures forall i :: |r| <= i < |s| ==> IsSpace(s[i])
    ensures r == [] || !IsSpace(r[|r| - 1])
  {
    if s != [] && IsSpace(s[|s| - 1]) then StripRight(s[..|s| - 1]) else s
  }

  /** `str.strip()`: removes leading and trailing whitespace. */
  function Strip(s: string): (r: string)
    ensures r == [] || (!IsSpace(r[0]) && !IsSpace(r[|r| - 1]))
    ensures (s == [] || (!IsSpace(s[0]) && !IsSpace(s[|s| - 1]))) ==> r == s
  {
    StripRight(StripLeft(s))
  }

  /** A token: non-empty and free of whitespace. */
  predicate IsToken(t: string)
  {
    t != [] && forall i :: 0 <= i < |t| ==> !IsSpace(t[i])
  }

  /** The length of the longest whitespace-free prefix. */
  function WordLength(s: string): (n: nat)
    ensures n <= |s|
    ensures forall i :: 0 <= i < n ==> !IsSpace(s[i])
    ensures n < |s| ==> IsSpace(s[n])
  {
    if s == [] || IsSpace(s[0]) then 0 else 1 + WordLength(s[1..])
  }

  /** The maximal whitespace-free pieces of `s`, in order. */
  function Tokens(s: string): (ts: seq<string>)
    ensures forall i :: 0 <= i < |ts| ==> IsToken(ts[i])
    decreases |s|
  {
    if s == [] then []
    else if IsSpace(s[0]) then Tokens(s[1..])
    else
      var n := WordLength(s);
      [s[..n]] + Tokens(s[n..])
  }

  /** Whitespace only (possibly nothing): what may surround a line. */
  predicate IsBlank(w: string)
  {
    forall i :: 0 <= i < |w| ==> IsSpace(w[i])
  }

  /** A separator between two fields: `\s+`. */
  predicate IsGap(w: string)
  {
    w != [] && IsBlank(w)
  }

  /** How a line is laid out around `n` tokens: blank margins and `n - 1` separators. */
  predicate IsLayout(lead: string, gaps: seq<string>, trail: string, n: nat)
  {
    IsBlank(lead) && IsBlank(trail) && |gaps| + 1 == n
    && forall i :: 0 <= i < |gaps| ==> IsGap(gaps[i])
  }

  /** Writes tokens with the given separators between them. */
  function Spaced(ts: seq<string>, gaps: seq<string>): string
    requires |ts| > 0 && |gaps| + 1 == |ts|
  {
    if |ts| == 1 then ts[0] else ts[0] + gaps[0] + Spaced(ts[1..], gaps[1..])
  }

  lemma {:induction false} WordLengthOfToken(t: string, rest: string)
    requires IsToken(t)
    requires rest == [] || IsSpace(rest[0])
    ensures WordLength(t + rest) == |t|
    decreases |t|
  {
    if |t| > 1 {
      assert (t + rest)[1..] == t[1..] + rest;
      WordLengthOfToken(t[1..], rest);
    }
  }

  /** Leading whitespace yields no token. */
  lemma {:induction false} TokensSkipBlank(w: string, s: string)
    requires IsBlank(w)
    ensures Tokens(w + s) == Tokens(s)
    decreases |w|
  {
    if w == [] {
      assert w + s == s;
    } else {
      assert (w + s)[1..] == w[1..] + s;
      TokensSkipBlank(w[1..], s);
    }
  }

  /** A token followed by whitespace or the end of the line is split off whole. */
  lemma TokensOfTokenThen(t: string, rest: string)
    requires IsToken(t)
    requires rest == [] || IsSpace(rest[0])
    ensures Tokens(t + rest) == [t] + Tokens(rest)
  {
    WordLengthOfToken(t, rest);
    assert (t + rest)[..|t|] == t && (t + rest)[|t|..] == rest;
  }

  /**
   * Tokenizing a line laid out from tokens, with any whitespace around it
   * and any non-empty whitespace between the tokens, gives the tokens back.
   */
  lemma {:induction false} TokensOfSpaced(lead: string, ts: seq<string>, gaps: seq<string>, trail: string)
    requires |ts| > 0 && forall i :: 0 <= i < |ts| ==> IsToken(ts[i])
    requires IsLayout(lead, gaps, trail, |ts|)
    ensures Tokens(lead + Spaced(ts, gaps) + trail) == ts
    decreases |ts|
  {
    var t := ts[0];
    if |ts| == 1 {
      assert lead + Spaced(ts, gaps) + trail == lead + (t + trail);
      TokensSkipBlank(lead, t + trail);
      TokensOfTokenThen(t, trail);
      TokensSkipBlank(trail, []);
      assert trail + [] == trail;
    } else {
      var rest := gaps[0] + Spaced(ts[1..], gaps[1..]) + trail;
      assert lead + Spaced(ts, gaps) + trail == lead + (t + rest);
      TokensSkipBlank(lead, t + rest);
      assert rest[0] == gaps[0][0];
      TokensOfTokenThen(t, rest);
      assert IsLayout(gaps[0], gaps[1..], trail, |ts[1..]|) by {
        forall i | 0 <= i < |gaps[1..]| ensures IsGap(gaps[1..][i]) {
          assert gaps[1..][i] == gaps[i + 1];
        }
      }
      TokensOfSpaced(gaps[0], ts[1..], gaps[1..], trail);
      assert [t] + ts[1..] == ts;
    }
  }

  /** A line laid out from tokens starts with the first token's first character and ends with the last token's last one. */
  lemma {:induction false} SpacedEnds(ts: seq<string>, gaps: seq<string>)
    requires |ts| > 0 && |gaps| + 1 == |ts|
    requires ts[0] != [] && ts[|ts| - 1] != []
    requires forall i :: 0 <= i < |ts| ==> IsToken(ts[i])
    ensures |Spaced(ts, gaps)| > 0 && Spaced(ts, gaps)[0] == ts[0][0]
    ensures Spaced(ts, gaps)[|Spaced(ts, gaps)| - 1] == ts[|ts| - 1][|ts[|ts| - 1]| - 1]
    decreases |ts|
  {
    if |ts| > 1 {
      SpacedEnds(ts[1..], gaps[1..]);
    }
  }

  lemma {:induction false} StripLeftBlank(w: string, x: string)
    requires IsBlank(w) && (x == [] || !IsSpace(x[0]))
    ensures StripLeft(w + x) == x
    decreases |w|
  {
    if w == [] {
      assert w + x == x;
    } else {
      assert (w + x)[1..] == w[1..] + x;
      StripLeftBlank(w[1..], x);
    }
  }

  lemma {:induction false} StripRightBlank(x: string, w: string)
    requires IsBlank(w) && (x == [] || !IsSpace(x[|x| - 1]))
    ensures StripRight(x + w) == x
    decreases |w|
  {
    if w == [] {
      assert x + w == x;
    } else {
      assert (x + w)[..|x + w| - 1] == x + w[..|w| - 1];
      StripRightBlank(x, w[..|w| - 1]);
    }
  }

  /**
   * Stripping a line laid out from tokens removes exactly its margins; what
   * remains is not blank and starts with the first token's first character.
   */
  lemma StripOfSpaced(lead: string, ts: seq<string>, gaps: seq<string>, trail: string)
    requires |ts| > 0 && forall i :: 0 <= i < |ts| ==> IsToken(ts[i])
    requires IsLayout(lead, gaps, trail, |ts|)
    ensures Strip(lead + Spaced(ts, gaps) + trail) == Spaced(ts, gaps)
    ensures Spaced(ts, gaps) != [] && Spaced(ts, gaps)[0] == ts[0][0]
  {
    var body := Spaced(ts, gaps);
    assert IsToken(ts[0]) && IsToken(ts[|ts| - 1]);
    SpacedEnds(ts, gaps);
    var last := ts[|ts| - 1];
    assert !IsSpace(last[|last| - 1]);
    assert lead + body + trail == lead + (body + trail);
    StripLeftBlank(lead, body + trail);
    StripRightBlank(body, trail);
  }

  // ---------------------------------------------------------------------
  // Digit strings, words and decimals.

  predicate IsDigit(c: char)
  {
    '0' <= c <= '9'
  }

  /** `\d+` */
  predicate IsDigits(t: string)
  {
    t != [] && forall i :: 0 <= i < |t| ==> IsDigit(t[i])
  }

  /** `\w+`: letters, digits and underscore. */
  predicate IsWord(t: string)
  {
    t != [] && forall i :: 0 <= i < |t| ==> IsDigit(t[i]) || 'a' <= t[i] <= 'z' || 'A' <= t[i] <= 'Z' || t[i] == '_'
  }

  /** The position of the first `.`, or the length when there is none. */
  function DotIndex(t: string): (k: nat)
    ensures k <= |t|
    ensures forall i :: 0 <= i < k ==> t[i] != '.'
    ensures k < |t| ==> t[k] == '.'
  {
    if t == [] || t[0] == '.' then 0 else 1 + DotIndex(t[1..])
  }

  /** `\d+(\.\d+)?` */
  predicate IsDecimal(t: string)
  {
    var k := DotIndex(t);
    IsDigits(t[..k]) && (k < |t| ==> IsDigits(t[k + 1..]))
  }

  function Pow10(n: nat): (p: nat)
    ensures p >= 1
  {
    if n == 0 then 1 else 10 * Pow10(n - 1)
  }

  /** The number a digit string denotes. */
  function DigitsValue(t: string): nat
    requires forall i :: 0 <= i < |t| ==> IsDigit(t[i])
  {
    if t == [] then 0
    else
      assert IsDigit(t[|t| - 1]);
      10 * DigitsValue(t[..|t| - 1]) + (t[|t| - 1] as int - '0' as int) as nat
  }

  /** A digit string of length `n` denotes less than 10^n. */
  lemma {:induction false} DigitsValueBelow(t: string)
    requires forall i :: 0 <= i < |t| ==> IsDigit(t[i])
    ensures DigitsValue(t) < Pow10(|t|)
    decreases |t|
  {
    if t != [] {
      DigitsValueBelow(t[..|t| - 1]);
    }
  }

  /** The decimal numeral of `n` (the printer `DigitsValue` inverts). */
  function Numeral(n: nat): (t: string)
    ensures IsDigits(t)
  {
    if n < 10 then ['0' + n as char] else Numeral(n / 10) + ['0' + (n % 10) as char]
  }

  lemma {:induction false} DigitsValueOfNumeral(n: nat)
    ensures DigitsValue(Numeral(n)) == n
  {
    var t := Numeral(n);
    if n >= 10 {
      DigitsValueOfNumeral(n / 10);
      assert t[..|t| - 1] == Numeral(n / 10);
    }
  }

  /**
   * `float(t)` for a decimal token, exactly: the integer part plus the
   * fraction digits over ten to their count. The result lies between the
   * integer part and the next integer.
   */
  function ParseDecimal(t: string): (r: real)
    requires IsDecimal(t)
    ensures DigitsValue(t[..DotIndex(t)]) as real <= r < DigitsValue(t[..DotIndex(t)]) as real + 1.0
    ensures DotIndex(t) == |t| ==> r == DigitsValue(t) as real
  {
    var k := DotIndex(t);
    var whole := DigitsValue(t[..k]) as real;
    if k == |t| then
      assert t[..k] == t;
      whole
    else
      var fraction := t[k + 1..];
      DigitsValueBelow(fraction);
      FractionBelowOne(DigitsValue(fraction), Pow10(|fraction|));
      whole + DigitsValue(fraction) as real / Pow10(|fraction|) as real
  }

  lemma FractionBelowOne(n: nat, p: nat)
    requires n < p
    ensures 0.0 <= n as real / p as real < 1.0
  {
    assert n as real < p as real;
  }

  /** A numeral with a fraction part parses to the integer part plus the scaled fraction. */
  lemma ParseDecimalOfParts(whole: string, fraction: string)
    requires IsDigits(whole) && IsDigits(fraction)
    ensures IsDecimal(whole + "." + fraction)
    ensures ParseDecimal(whole + "." + fraction)
      == DigitsValue(whole) as real + DigitsValue(fraction) as real / Pow10(|fraction|) as real
  {
    var t := whole + "." + fraction;
    DotOfParts(whole, fraction);
    var k := DotIndex(t);
    assert t[..k] == whole;
    assert t[k + 1..] == fraction;
    assert IsDecimal(t);
    assert k != |t|;
  }

  lemma {:induction false} DotOfParts(whole: string, fraction: string)
    requires IsDigits(whole)
    ensures DotIndex(whole + "." + fraction) == |whole|
    decreases |whole|
  {
    var t := whole + "." + fraction;
    if |whole| > 1 {
      assert t[1..] == whole[1..] + "." + fraction;
      DotOfParts(whole[1..], fraction);
    }
  }

  // ---------------------------------------------------------------------
  // Lines.

  /** What a definition line says. */
  datatype Line =
    | Skip
    | TransitionLine(from: string, to: string, input: string, output: string, weight: real)
    | FinalLine(name: string, weight: real)
    | Invalid(text: string)

  /** `(\d+)\s+(\d+)\s+(\w+)\s+(\w+)(\s+\d+(\.\d+)?)?` as tokens. */
  predicate IsTransitionShape(ts: seq<string>)
  {
    && (|ts| == 4 || |ts| == 5)
    && IsDigits(ts[0]) && IsDigits(ts[1]) && IsWord(ts[2]) && IsWord(ts[3])
    && (|ts| == 5 ==> IsDecimal(ts[4]))
  }

  /** `(\d+)(\s+\d+(\.\d+)?)?` as tokens. */
  predicate IsFinalShape(ts: seq<string>)
  {
    && (|ts| == 1 || |ts| == 2)
    && IsDigits(ts[0])
    && (|ts| == 2 ==> IsDecimal(ts[1]))
  }

  /**
   * Classifies one raw line: skipped, a transition (weight 1.0 when
   * omitted), a final state (weight 0.0 when omitted), or invalid, carrying
   * the stripped line.
   */
  function Classify(raw: string): (l: Line)
    ensures l.Skip? <==> Strip(raw) == [] || Strip(raw)[0] == '#'
    ensures l.Invalid? ==> l.text == Strip(raw) && l.text != [] && l.text[0] != '#'
    ensures l.TransitionLine? ==>
      IsDigits(l.from) && IsDigits(l.to) && IsWord(l.input) && IsWord(l.output) && l.weight >= 0.0
    ensures l.FinalLine? ==> IsDigits(l.name) && l.weight >= 0.0
  {
    var line := Strip(raw);
    if line == [] || line[0] == '#' then Skip else ClassifyTokens(Tokens(line), line)
  }

  /** Matches the tokens of a kept line against the transition shape, then the final-state shape. */
  function ClassifyTokens(ts: seq<string>, line: string): (l: Line)
    ensures l.Invalid? <==> !IsTransitionShape(ts) && !IsFinalShape(ts)
    ensures l.Invalid? ==> l.text == line
    ensures !l.Skip?
    ensures l.TransitionLine? ==>
      IsDigits(l.from) && IsDigits(l.to) && IsWord(l.input) && IsWord(l.output) && l.weight >= 0.0
    ensures l.FinalLine? ==> IsDigits(l.name) && l.weight >= 0.0
  {
    if IsTransitionShape(ts) then
      TransitionLine(ts[0], ts[1], ts[2], ts[3], if |ts| == 5 then ParseDecimal(ts[4]) else 1.0)
    else if IsFinalShape(ts) then
      FinalLine(ts[0], if |ts| == 2 then ParseDecimal(ts[1]) else 0.0)
    else Invalid(line)
  }

  /** Digit strings and words contain no whitespace. */
  lemma WordIsToken(t: string)
    requires IsWord(t)
    ensures IsToken(t)
  {
    forall i | 0 <= i < |t| ensures !IsSpace(t[i]) {
      assert IsDigit(t[i]) || 'a' <= t[i] <= 'z' || 'A' <= t[i] <= 'Z' || t[i] == '_';
    }
  }

  lemma DigitsIsToken(t: string)
    requires IsDigits(t)
    ensures IsToken(t)
  {
    assert IsWord(t);
    WordIsToken(t);
  }

  /** Decimals contain no whitespace. */
  lemma DecimalIsToken(t: string)
    requires IsDecimal(t)
    ensures IsToken(t)
  {
    var k := DotIndex(t);
    DigitsIsToken(t[..k]);
    if k < |t| { DigitsIsToken(t[k + 1..]); }
    forall i | 0 <= i < |t| ensures !IsSpace(t[i]) {
      if i < k { assert t[i] == t[..k][i]; }
      else if i > k { assert t[i] == t[k + 1..][i - k - 1]; }
    }
  }

  /** The tokens of a transition shape are tokens. */
  lemma TransitionShapeTokens(ts: seq<string>)
    requires IsTransitionShape(ts)
    ensures forall i :: 0 <= i < |ts| ==> IsToken(ts[i])
  {
    DigitsIsToken(ts[0]);
    DigitsIsToken(ts[1]);
    WordIsToken(ts[2]);
    WordIsToken(ts[3]);
    if |ts| == 5 { DecimalIsToken(ts[4]); }
  }

  /** The tokens of a final-state shape are tokens. */
  lemma FinalShapeTokens(ts: seq<string>)
    requires IsFinalShape(ts)
    ensures forall i :: 0 <= i < |ts| ==> IsToken(ts[i])
  {
    DigitsIsToken(ts[0]);
    if |ts| == 2 { DecimalIsToken(ts[1]); }
  }

  /**
   * A line laid out from tokens, the first not starting with `#`, is
   * classified by exactly those tokens, and an invalid one carries the line
   * without its margins.
   */
  lemma ClassifySpaced(lead: string, ts: seq<string>, gaps: seq<string>, trail: string)
    requires |ts| > 0 && forall i :: 0 <= i < |ts| ==> IsToken(ts[i])
    requires IsLayout(lead, gaps, trail, |ts|)
    requires ts[0] != [] && ts[0][0] != '#'
    ensures Classify(lead + Spaced(ts, gaps) + trail) == ClassifyTokens(ts, Spaced(ts, gaps))
  {
    var raw := lead + Spaced(ts, gaps) + trail;
    assert Strip(raw) == Spaced(ts, gaps) && Spaced(ts, gaps)[0] != '#' by {
      StripOfSpaced(lead, ts, gaps, trail);
    }
    assert Tokens(Spaced(ts, gaps)) == ts by {
      TokensOfSpaced([], ts, gaps, []);
      assert [] + Spaced(ts, gaps) + [] == Spaced(ts, gaps);
    }
  }

  /**
   * A transition-shaped line is read back as that transition, however it is
   * spaced.
   */
  lemma ClassifyTransitionLine(lead: string, ts: seq<string>, gaps: seq<string>, trail: string)
    requires IsTransitionShape(ts) && IsLayout(lead, gaps, trail, |ts|)
    ensures Classify(lead + Spaced(ts, gaps) + trail)
         == TransitionLine(ts[0], ts[1], ts[2], ts[3], if |ts| == 5 then ParseDecimal(ts[4]) else 1.0)
  {
    TransitionShapeTokens(ts);
    assert IsDigit(ts[0][0]);
    ClassifySpaced(lead, ts, gaps, trail);
  }

  /** A final-state line is read back as that final state, however it is spaced. */
  lemma ClassifyFinalLine(lead: string, ts: seq<string>, gaps: seq<string>, trail: string)
    requires IsFinalShape(ts) && IsLayout(lead, gaps, trail, |ts|)
    ensures Classify(lead + Spaced(ts, gaps) + trail) == FinalLine(ts[0], if |ts| == 2 then ParseDecimal(ts[1]) else 0.0)
  {
    FinalShapeTokens(ts);
    assert IsDigit(ts[0][0]);
    ClassifySpaced(lead, ts, gaps, trail);
    assert !IsTransitionShape(ts);
  }

  /**
   * A line of three tokens, or of more than five, fits neither shape: it is
   * invalid and carries the line without its margins.
   */
  lemma ClassifyWrongTokenCount(lead: string, ts: seq<string>, gaps: seq<string>, trail: string)
    requires |ts| == 3 || |ts| > 5
    requires forall i :: 0 <= i < |ts| ==> IsToken(ts[i])
    requires IsLayout(lead, gaps, trail, |ts|)
    requires ts[0] != [] && ts[0][0] != '#'
    ensures Classify(lead + Spaced(ts, gaps) + trail) == Invalid(Spaced(ts, gaps))
  {
    assert !IsTransitionShape(ts) && !IsFinalShape(ts);
    ClassifySpaced(lead, ts, gaps, trail);
  }
}
