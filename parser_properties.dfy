/** What `parseeq` guarantees about its variables, turn by turn and over a
    whole line: the shape of the stack in each state (so that the `IndexError`
    and the error of `action_write` cannot happen), the depth of the stack,
    the side of the equation, and the signs of the counts. */
module ParserProperties {
  import opened Outcome
  import opened CharClasses
  import opened Counts
  import opened FormulaParser
  import opened JumpTable

  /** The shape of the variables after a successful turn. */
  predicate Shape(c: Config) {
    && (c.side == 1 || c.side == -1)
    && c.state.Some?
    && (c.state == Some(New) ==> c.stack == [])
    && (c.state == Some(Push) ==> |c.stack| > 0 && c.stack[|c.stack| - 1] == Group(map[]))
    && (c.state == Some(Write) ==> |c.stack| > 0 && c.stack[|c.stack| - 1].Text?)
  }

  /** The signs of the counts: every open group is signed by the current
      side, every finished molecule is all non-negative or all
      non-positive, before `=` they are all non-negative, and after the
      first molecule with a negative count every molecule is non-positive. */
  predicate Signs(c: Config) {
    && StackSigned(c.stack, c.side)
    && (forall j :: 0 <= j < |c.results| ==> AllNonNegative(c.results[j]) || AllNonPositive(c.results[j]))
    && (c.side == 1 ==> forall j :: 0 <= j < |c.results| ==> AllNonNegative(c.results[j]))
    && (forall a, b :: 0 <= a < b < |c.results| && !AllNonNegative(c.results[a]) ==> AllNonPositive(c.results[b]))
  }

  predicate StackSigned(stack: seq<Slot>, side: int) {
    forall j :: 0 <= j < |stack| && stack[j].Group? ==> SignedBy(stack[j].counts, side)
  }

  /** How a character changes the depth of the stack. */
  function Delta(x: char): int {
    if x == '(' then 1 else if x == ')' then -1 else 0
  }

  /** The number of times `ch` occurs in `s`. */
  function Occurrences(ch: char, s: string): nat
    decreases |s|
  {
    if |s| == 0 then 0
    else Occurrences(ch, s[..|s| - 1]) + (if s[|s| - 1] == ch then 1 else 0)
  }

  function TopText(stack: seq<Slot>): string {
    if |stack| > 0 && stack[|stack| - 1].Text? then stack[|stack| - 1].text else ""
  }

  lemma StartShape()
    ensures Start() == Success(Config([], [], 1, Some(New)))
    ensures Shape(Start().value) && Signs(Start().value)
  {
  }

  /** A successful turn keeps the shape, and no turn from a well-shaped state
      reads the top of an empty stack. */
  lemma StepKeepsShape(c: Config, i: nat, x: char)
    requires Shape(c)
    ensures Step(c, i, x).Success? ==> Shape(Step(c, i, x).value)
    ensures Step(c, i, x) != Failure(EmptyStack)
  {
    StepByTable(c, i, x);
    match Transition(c.state, InputKindOf(Some(x)))
    case None =>
    case Some(None) =>
    case Some(Some(p)) =>
      var d := c.(state := Some(p));
      match p
      case New =>
        if NewAction(d, i, Some(x)).Success? {
          assert NewAction(d, i, Some(x)).value.stack == [];
        }
      case Push =>
      case Write =>
        assert c.state == Some(Push) || c.state == Some(Write);
      case Merge =>
  }

  /** In `PUSH` or `WRITE`, any character other than a parenthesis or a
      separator is appended to the text on top: the error of `action_write`
      for a non-empty group on top cannot happen. */
  lemma WriteSucceeds(c: Config, i: nat, x: char)
    requires Shape(c)
    requires c.state == Some(Push) || c.state == Some(Write)
    requires InputKindOf(Some(x)) == OtherChar
    ensures Step(c, i, x) ==
      Success(c.(state := Some(Write), stack := WithTop(c.stack, Text(TopText(c.stack) + [x]))))
  {
    StepByTable(c, i, x);
    assert Transition(c.state, OtherChar) == Some(Some(Write));
    if c.state == Some(Push) {
      assert TopText(c.stack) + [x] == [x];
    }
  }

  /** `(` adds exactly one entry to the stack, `)` removes exactly one, and
      every other character leaves its depth alone. */
  lemma StepDepth(c: Config, i: nat, x: char)
    requires Step(c, i, x).Success?
    ensures |Step(c, i, x).value.stack| == |c.stack| + Delta(x)
  {
    StepByTable(c, i, x);
  }

  /** Only `=` changes the side, and always to `-1`. */
  lemma StepSide(c: Config, i: nat, x: char)
    requires Step(c, i, x).Success?
    ensures Step(c, i, x).value.side == if x == '=' then -1 else c.side
  {
    StepByTable(c, i, x);
  }

  /** A turn either leaves the finished molecules alone or appends one whose
      counts are signed by the current side. */
  lemma StepResults(c: Config, i: nat, x: char)
    requires Shape(c) && Signs(c)
    requires Step(c, i, x).Success?
    ensures var r := Step(c, i, x).value.results;
      r == c.results || (r[..|r| - 1] == c.results && |r| > 0 && SignedBy(r[|r| - 1], c.side))
  {
    StepByTable(c, i, x);
  }

  lemma StackSignedReplace(stack: seq<Slot>, k: nat, slot: Slot, side: int)
    requires StackSigned(stack, side) && k <= |stack|
    requires slot.Group? ==> SignedBy(slot.counts, side)
    ensures StackSigned(stack[..k] + [slot], side)
  {
    var s' := stack[..k] + [slot];
    forall j | 0 <= j < |s'| && s'[j].Group?
      ensures SignedBy(s'[j].counts, side)
    {
      if j < k {
        assert s'[j] == stack[j];
      }
    }
  }

  /** A molecule finished on a side is appended to the results. */
  lemma AppendKeepsSigns(c: Config, m: Counts)
    requires Signs(c) && (c.side == 1 || c.side == -1) && SignedBy(m, c.side)
    ensures Signs(c.(stack := [], results := c.results + [m]))
  {
    SignedBySide(m, c.side);
    var r := c.results + [m];
    forall a, b | 0 <= a < b < |r| && !AllNonNegative(r[a])
      ensures AllNonPositive(r[b])
    {
      if b < |c.results| {
        assert r[a] == c.results[a] && r[b] == c.results[b];
      } else {
        assert r[a] == c.results[a];
      }
    }
    assert forall j :: 0 <= j < |c.results| ==> r[j] == c.results[j];
  }

  /** A symbol with its count, on a side, is signed by that side. */
  lemma SymbolSigned(t: string, num: nat, side: int)
    requires side == 1 || side == -1
    ensures SignedBy(map[t := num * side], side)
  {
    assert (num * side) * side == num;
  }

  lemma MergeKeepsSigns(c: Config, i: nat, x: char)
    requires Signs(c) && (c.side == 1 || c.side == -1)
    requires MergeAction(c, i, x).Success?
    ensures Signs(MergeAction(c, i, x).value)
  {
    var s := c.stack;
    var n := |s|;
    if n == 1 && s[0].Group? {
      AppendKeepsSigns(c, s[0].counts);
    } else if n >= 2 && s[n - 1].Text? && s[n - 2].Text?
         && IsDigitDotText(s[n - 1].text) && IsAlphaText(s[n - 2].text) {
      var num := CountOf(s[n - 1].text).value;
      SymbolSigned(s[n - 2].text, num, c.side);
      StackSignedReplace(s, n - 2, Group(map[s[n - 2].text := num * c.side]), c.side);
    } else if n >= 2 && s[n - 1].Text? && s[n - 2].Group? {
      var a := s[n - 1].text;
      var m := s[n - 2].counts;
      assert SignedBy(m, c.side);
      if IsDigitDotText(a) {
        ScaleKeepsSign(m, CountOf(a).value, c.side);
        StackSignedReplace(s, n - 2, Group(Scale(m, CountOf(a).value)), c.side);
      } else {
        BumpKeepsSign(m, a, c.side);
        StackSignedReplace(s, n - 2, Group(Bump(m, a, c.side)), c.side);
      }
    } else {
      assert SignedBy(s[n - 1].counts, c.side) && SignedBy(s[n - 2].counts, c.side);
      AddIntoKeepsSign(s[n - 2].counts, s[n - 1].counts, c.side);
      StackSignedReplace(s, n - 2, Group(AddInto(s[n - 2].counts, s[n - 1].counts)), c.side);
    }
  }

  /** A successful turn keeps the signs of the counts. */
  lemma StepKeepsSigns(c: Config, i: nat, x: char)
    requires Shape(c) && Signs(c)
    requires Step(c, i, x).Success?
    ensures Signs(Step(c, i, x).value)
  {
    StepByTable(c, i, x);
    var p :| Transition(c.state, InputKindOf(Some(x))) == Some(Some(p));
    var d := c.(state := Some(p));
    match p
    case New =>
    case Push =>
      StackSignedReplace(c.stack, |c.stack|, Group(map[]), c.side);
      assert c.stack[..|c.stack|] == c.stack;
    case Write =>
      var top := c.stack[|c.stack| - 1];
      if top.Group? {
        StackSignedReplace(c.stack, |c.stack| - 1, Text([x]), c.side);
      } else {
        StackSignedReplace(c.stack, |c.stack| - 1, Text(top.text + [x]), c.side);
      }
    case Merge =>
      MergeKeepsSigns(d, i, x);
  }

  /** Over a whole line that parses: the shape and signs hold, the depth of
      the stack is the number of `(` less the number of `)`, and the side is
      `-1` exactly when the line holds an `=`. */
  lemma {:induction false} RunInvariant(line: string)
    requires Run(line).Success?
    ensures Shape(Run(line).value) && Signs(Run(line).value)
    ensures |Run(line).value.stack| == Occurrences('(', line) - Occurrences(')', line)
    ensures Run(line).value.side == if '=' in line then -1 else 1
    decreases |line|
  {
    if |line| == 0 {
      StartShape();
    } else {
      var p := line[..|line| - 1];
      var x := line[|line| - 1];
      RunInvariant(p);
      StepInvariant(Run(p).value, |line|, x);
      InLast(line, '=');
    }
  }

  lemma InLast(s: string, ch: char)
    requires |s| > 0
    ensures ch in s <==> ch in s[..|s| - 1] || s[|s| - 1] == ch
  {
    assert s == s[..|s| - 1] + [s[|s| - 1]];
  }

  /** The four facts of `RunInvariant` for one turn. */
  lemma StepInvariant(c: Config, i: nat, x: char)
    requires Shape(c) && Signs(c) && Step(c, i, x).Success?
    ensures Shape(Step(c, i, x).value) && Signs(Step(c, i, x).value)
    ensures |Step(c, i, x).value.stack| == |c.stack| + Delta(x)
    ensures Step(c, i, x).value.side == if x == '=' then -1 else c.side
  {
    StepKeepsShape(c, i, x);
    StepKeepsSigns(c, i, x);
    StepDepth(c, i, x);
    StepSide(c, i, x);
  }

  /** `parseeq` never reads the top of an empty stack. */
  lemma {:induction false} NeverEmptyStack(line: string)
    ensures Run(line) != Failure(EmptyStack)
    ensures Parse(line) != Failure(EmptyStack)
    decreases |line|
  {
    if |line| > 0 {
      var p := line[..|line| - 1];
      NeverEmptyStack(p);
      if Run(p).Success? {
        RunInvariant(p);
        StepKeepsShape(Run(p).value, |line|, line[|line| - 1]);
      }
    }
  }

  /** Every prefix of a line that parses also parses, and its molecules are
      the first molecules of the whole line. */
  lemma {:induction false} RunPrefix(line: string, k: nat)
    requires k <= |line| && Run(line).Success?
    ensures Run(line[..k]).Success?
    ensures Run(line[..k]).value.results <= Run(line).value.results
    decreases |line|
  {
    if k < |line| {
      var p := line[..|line| - 1];
      assert p[..k] == line[..k];
      RunPrefix(p, k);
      RunInvariant(p);
      StepResults(Run(p).value, |line|, line[|line| - 1]);
    } else {
      assert line[..k] == line;
    }
  }

  /** In every prefix of a line that parses, no more groups are closed than
      opened. */
  lemma BalancedPrefixes(line: string, k: nat)
    requires k <= |line| && Run(line).Success?
    ensures Occurrences(')', line[..k]) <= Occurrences('(', line[..k])
  {
    RunPrefix(line, k);
    RunInvariant(line[..k]);
  }

  /** A turn on the right-hand side only adds molecules with non-positive
      counts. */
  lemma StepAfterEquals(c: Config, i: nat, x: char)
    requires Shape(c) && Signs(c) && c.side == -1 && Step(c, i, x).Success?
    ensures var rs := Step(c, i, x).value.results;
      c.results <= rs && forall r :: |c.results| <= r < |rs| ==> AllNonPositive(rs[r])
  {
    StepResults(c, i, x);
    var rs := Step(c, i, x).value.results;
    if rs != c.results {
      SignedBySide(rs[|rs| - 1], c.side);
    }
  }

  /** After a turn on `=` every molecule finished later has only
      non-positive counts. */
  lemma {:induction false} LaterNonPositive(line: string, k: nat)
    requires k <= |line| && Run(line).Success? && '=' in line[..k]
    ensures Run(line[..k]).Success?
    ensures forall r :: |Run(line[..k]).value.results| <= r < |Run(line).value.results| ==>
      AllNonPositive(Run(line).value.results[r])
    decreases |line|
  {
    RunPrefix(line, k);
    if k < |line| {
      var p := line[..|line| - 1];
      assert p[..k] == line[..k];
      RunPrefix(line, |line| - 1);
      LaterNonPositive(p, k);
      var c := Run(p).value;
      RunInvariant(p);
      assert '=' in p by {
        InPrefix(line, k, '=');
      }
      assert Run(line) == Step(c, |line|, line[|line| - 1]);
      StepAfterEquals(c, |line|, line[|line| - 1]);
    } else {
      assert line[..k] == line;
    }
  }

  /** A turn on `+` or `=` finishes no molecule. */
  lemma SeparatorKeepsResults(c: Config, i: nat, x: char)
    requires (x == '+' || x == '=') && Step(c, i, x).Success?
    ensures Step(c, i, x).value.results == c.results
  {
    StepByTable(c, i, x);
  }

  /** Sides of the equation: with `line[j]` the first `=`, the molecules
      finished before it (the reactants) have non-negative counts and those
      finished after it (the products) non-positive counts. */
  lemma SidesOfEquation(line: string, j: nat)
    requires Run(line).Success?
    requires j < |line| && line[j] == '=' && '=' !in line[..j]
    ensures Run(line[..j]).Success?
    ensures var rs := Run(line).value.results;
      var before := |Run(line[..j]).value.results|;
      && before <= |rs|
      && (forall r :: 0 <= r < before ==> AllNonNegative(rs[r]))
      && (forall r :: before <= r < |rs| ==> AllNonPositive(rs[r]))
  {
    RunPrefix(line, j);
    RunPrefix(line, j + 1);
    RunInvariant(line[..j]);
    var c := Run(line[..j]).value;
    RunTurn(line, j + 1);
    SeparatorKeepsResults(c, j + 1, '=');
    LaterNonPositive(line, j + 1);
    var rs := Run(line).value.results;
    assert forall r :: 0 <= r < |c.results| ==> rs[r] == c.results[r];
  }

  /** More than one `=` is accepted: the side stays `-1`. */
  lemma RepeatedEquals(c: Config, i: nat)
    requires Shape(c) && c.state == Some(Merge) && c.stack == [] && c.side == -1
    ensures Step(c, i, '=') == Success(c.(state := Some(New)))
  {
    StepByTable(c, i, '=');
  }

  /** A `+` or `=` closing a group that has an open parent is reported at
      its position. */
  lemma SeparatorInsideGroupFails(c: Config, i: nat, x: char)
    requires c.state == Some(Merge) && |c.stack| > 0 && (x == '+' || x == '=')
    ensures Step(c, i, x) == Failure(ErrorAt(i))
  {
    StepByTable(c, i, x);
  }

  /** A `+` or `=` right after an opening parenthesis or inside a symbol is
      the invalid jump, whose missing action raises `KeyError`. */
  lemma SeparatorInsideTextFails(c: Config, i: nat, x: char)
    requires c.state == Some(Push) || c.state == Some(Write)
    requires x == '+' || x == '='
    ensures Step(c, i, x) == Failure(NoAction)
  {
    StepByTable(c, i, x);
  }

  /** A character for which the jump list has no row is reported at its
      position; so is every character not preceded by `(` at the start of a
      molecule. */
  lemma NoJumpFails(c: Config, i: nat, x: char)
    requires Transition(c.state, InputKindOf(Some(x))) == None
    ensures Step(c, i, x) == Failure(ErrorAt(i))
    ensures c.state == Some(New) ==> x != '('
  {
    StepByTable(c, i, x);
  }

  lemma InPrefix(s: string, k: nat, ch: char)
    requires k < |s| && ch in s[..k]
    ensures ch in s[..|s| - 1]
  {
    var j :| 0 <= j < k && s[..k][j] == ch;
    assert s[..|s| - 1][j] == ch;
  }
}
