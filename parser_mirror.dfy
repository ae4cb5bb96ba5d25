/** The side of the equation negates the products: parsing a line with its
    first separator `+` replaced by `=` runs through the same states, with
    every count the line records after that separator negated.  This is
    what `side` (parseeq.py:140, 171-172) is multiplied in for at
    parseeq.py:207 and 218. */
module ParserMirror {
  import opened Outcome
  import opened CharClasses
  import opened Counts
  import opened FormulaParser
  import opened JumpTable
  import opened ParserProperties

  /** The two stacks agree on texts and hold negated counts in groups. */
  predicate SlotMirror(a: Slot, b: Slot) {
    match a
    case Text(t) => b == Text(t)
    case Group(m) => b == Group(Scale(m, -1))
  }

  predicate StackMirror(s: seq<Slot>, t: seq<Slot>) {
    |s| == |t| && forall j :: 0 <= j < |s| ==> SlotMirror(s[j], t[j])
  }

  /** `d` is `c` on the other side of the equation: the same state, the
      opposite side, the stack slot by slot with group counts negated, the
      first `k` molecules the same and every later one negated. */
  predicate Mirrored(c: Config, d: Config, k: nat) {
    && c.state == d.state
    && d.side == -c.side
    && StackMirror(c.stack, d.stack)
    && |c.results| == |d.results|
    && k <= |c.results|
    && c.results[..k] == d.results[..k]
    && (forall r :: k <= r < |c.results| ==> d.results[r] == Scale(c.results[r], -1))
  }

  /** Two outcomes of the same turns: the same error, or mirrored
      variables. */
  predicate OutcomesMirrored(a: Result<Config>, b: Result<Config>, k: nat) {
    match a
    case Failure(e) => b == Failure(e)
    case Success(c) => b.Success? && Mirrored(c, b.value, k)
  }

  lemma NewMirrored(c: Config, d: Config, k: nat, i: nat, x: char)
    requires Mirrored(c, d, k) && x != '='
    ensures OutcomesMirrored(NewAction(c, i, Some(x)), NewAction(d, i, Some(x)), k)
  {
  }

  lemma PushMirrored(c: Config, d: Config, k: nat, i: nat, x: char)
    requires Mirrored(c, d, k)
    ensures OutcomesMirrored(PushAction(c, i, x), PushAction(d, i, x), k)
  {
    if x == '(' {
      NegateKeys(map[]);
      var s := c.stack + [Group(map[])];
      var t := d.stack + [Group(map[])];
      forall j | 0 <= j < |s|
        ensures SlotMirror(s[j], t[j])
      {
        if j < |c.stack| {
          assert s[j] == c.stack[j] && t[j] == d.stack[j];
        }
      }
    }
  }

  lemma WriteMirrored(c: Config, d: Config, k: nat, i: nat, x: char)
    requires Mirrored(c, d, k)
    ensures OutcomesMirrored(WriteAction(c, i, x), WriteAction(d, i, x), k)
  {
    var n := |c.stack|;
    if n > 0 {
      var top := c.stack[n - 1];
      var slot := if top.Group? then Text([x]) else Text(top.text + [x]);
      if top.Group? {
        NegateKeys(top.counts);
      }
      var s := WithTop(c.stack, slot);
      var t := WithTop(d.stack, slot);
      forall j | 0 <= j < n
        ensures SlotMirror(s[j], t[j])
      {
        if j < n - 1 {
          assert s[j] == c.stack[j] && t[j] == d.stack[j];
        }
      }
    }
  }

  /** The stacks with their top two slots replaced by mirrored slots stay
      mirrored. */
  lemma ReplaceTopTwo(s: seq<Slot>, t: seq<Slot>, a: Slot, b: Slot)
    requires StackMirror(s, t) && |s| >= 2 && SlotMirror(a, b)
    ensures StackMirror(s[..|s| - 2] + [a], t[..|t| - 2] + [b])
  {
    var s' := s[..|s| - 2] + [a];
    var t' := t[..|t| - 2] + [b];
    forall j | 0 <= j < |s'|
      ensures SlotMirror(s'[j], t'[j])
    {
      if j < |s| - 2 {
        assert s'[j] == s[j] && t'[j] == t[j];
      }
    }
  }

  /** Finishing a molecule on both runs, negated on the second. */
  lemma FinishMirrored(c: Config, d: Config, k: nat, m: Counts)
    requires Mirrored(c, d, k)
    ensures Mirrored(c.(stack := [], results := c.results + [m]), d.(stack := [], results := d.results + [Scale(m, -1)]), k)
  {
    var rc := c.results + [m];
    var rd := d.results + [Scale(m, -1)];
    assert rc[..k] == c.results[..k] && rd[..k] == d.results[..k];
    forall r | k <= r < |rc|
      ensures rd[r] == Scale(rc[r], -1)
    {
      if r < |c.results| {
        assert rc[r] == c.results[r] && rd[r] == d.results[r];
      }
    }
  }

  lemma MergeMirrored(c: Config, d: Config, k: nat, i: nat, x: char)
    requires Mirrored(c, d, k)
    ensures OutcomesMirrored(MergeAction(c, i, x), MergeAction(d, i, x), k)
  {
    var s := c.stack;
    var t := d.stack;
    var n := |s|;
    if x != ')' {
    } else if n == 1 && s[0].Group? {
      assert t[0] == Group(Scale(s[0].counts, -1));
      FinishMirrored(c, d, k, s[0].counts);
    } else if n >= 2 && s[n - 1].Text? && s[n - 2].Text?
           && IsDigitDotText(s[n - 1].text) && IsAlphaText(s[n - 2].text) {
      assert t[n - 1] == s[n - 1] && t[n - 2] == s[n - 2];
      match CountOf(s[n - 1].text)
      case None =>
      case Some(num) =>
        var a := s[n - 2].text;
        SingletonNegated(a, num * c.side);
        assert num * d.side == -(num * c.side);
        ReplaceTopTwo(s, t, Group(map[a := num * c.side]), Group(map[a := num * d.side]));
    } else if n >= 2 && s[n - 1].Text? && s[n - 2].Group? {
      var a := s[n - 1].text;
      var m := s[n - 2].counts;
      assert t[n - 1] == Text(a) && t[n - 2] == Group(Scale(m, -1));
      if IsDigitDotText(a) {
        match CountOf(a)
        case None =>
        case Some(num) =>
          ScaleNegated(m, num);
          ReplaceTopTwo(s, t, Group(Scale(m, num)), Group(Scale(Scale(m, -1), num)));
      } else {
        BumpNegated(m, a, c.side);
        ReplaceTopTwo(s, t, Group(Bump(m, a, c.side)), Group(Bump(Scale(m, -1), a, d.side)));
      }
    } else if n >= 2 && s[n - 1].Group? && s[n - 2].Group? {
      var p := s[n - 2].counts;
      var q := s[n - 1].counts;
      assert t[n - 1] == Group(Scale(q, -1)) && t[n - 2] == Group(Scale(p, -1));
      ScaleDistributes(p, q, -1);
      ReplaceTopTwo(s, t, Group(AddInto(p, q)), Group(AddInto(Scale(p, -1), Scale(q, -1))));
    } else {
      assert !(n >= 2 && t[n - 1].Group? && t[n - 2].Group?);
    }
  }

  /** A turn on any character but `=` keeps two mirrored runs mirrored:
      both fail with the same error, or both go on, and a molecule finished
      on one is finished negated on the other. */
  lemma StepMirrored(c: Config, d: Config, k: nat, i: nat, x: char)
    requires Mirrored(c, d, k) && x != '='
    ensures OutcomesMirrored(Step(c, i, x), Step(d, i, x), k)
  {
    StepByTable(c, i, x);
    StepByTable(d, i, x);
    match Transition(c.state, InputKindOf(Some(x)))
    case None =>
    case Some(None) =>
    case Some(Some(p)) =>
      var c' := c.(state := Some(p));
      var d' := d.(state := Some(p));
      assert Mirrored(c', d', k);
      match p
      case New => NewMirrored(c', d', k, i, x);
      case Push => PushMirrored(c', d', k, i, x);
      case Write => WriteMirrored(c', d', k, i, x);
      case Merge => MergeMirrored(c', d', k, i, x);
  }

  /** The separator itself: from variables on the left-hand side, `+` and
      `=` both fail the same way or lead to mirrored variables. */
  lemma SeparatorMirrored(c: Config, i: nat)
    requires c.side == 1
    ensures OutcomesMirrored(Step(c, i, '+'), Step(c, i, '='), |c.results|)
  {
    StepByTable(c, i, '+');
    StepByTable(c, i, '=');
    assert c.results[..|c.results|] == c.results;
  }

  /** The runs over the line so far, with `+` or with `=` at its end. */
  lemma SeparatorRunsMirrored(left: string)
    requires Run(left).Success? && Run(left).value.side == 1
    ensures OutcomesMirrored(Run(left + "+"), Run(left + "="), |Run(left).value.results|)
  {
    assert (left + "+")[..|left|] == left;
    assert (left + "=")[..|left|] == left;
    SeparatorMirrored(Run(left).value, |left| + 1);
  }

  /** The run over one more character. */
  lemma RunSnoc(p: string, x: char)
    ensures Run(p + [x]) == if Run(p).Failure? then Run(p) else Step(Run(p).value, |p| + 1, x)
  {
    assert (p + [x])[..|p|] == p;
  }

  /** One more character, not `=`, on two mirrored runs. */
  lemma NextRunsMirrored(p: string, q: string, x: char, k: nat)
    requires |p| == |q| && x != '=' && OutcomesMirrored(Run(p), Run(q), k)
    ensures OutcomesMirrored(Run(p + [x]), Run(q + [x]), k)
  {
    RunSnoc(p, x);
    RunSnoc(q, x);
    if Run(p).Success? {
      StepMirrored(Run(p).value, Run(q).value, k, |p| + 1, x);
    }
  }

  /** One line without `=`, with `+` and with `=` at position `|left|`. */
  lemma {:induction false} RunsMirrored(left: string, right: string)
    requires Run(left).Success? && Run(left).value.side == 1 && '=' !in right
    ensures OutcomesMirrored(Run(left + "+" + right), Run(left + "=" + right), |Run(left).value.results|)
    decreases |right|
  {
    if |right| == 0 {
      assert left + "+" + right == left + "+";
      assert left + "=" + right == left + "=";
      SeparatorRunsMirrored(left);
    } else {
      var shorter := right[..|right| - 1];
      var x := right[|right| - 1];
      assert right == shorter + [x];
      assert x != '=';
      assert '=' !in shorter;
      RunsMirrored(left, shorter);
      assert left + "+" + right == (left + "+" + shorter) + [x];
      assert left + "=" + right == (left + "=" + shorter) + [x];
      NextRunsMirrored(left + "+" + shorter, left + "=" + shorter, x, |Run(left).value.results|);
    }
  }

  /** Products are negated: for a line `left + sep + right` with no `=` in
      `left` or `right`, writing `=` for the separator `+` leaves the outcome
      as it was, except that every molecule finished after the separator has
      every count negated. */
  lemma EqualsNegatesProducts(left: string, right: string)
    requires '=' !in left && '=' !in right
    ensures Parse(left + "+" + right).Failure? <==> Parse(left + "=" + right).Failure?
    ensures Parse(left + "+" + right).Failure? ==> Parse(left + "=" + right) == Parse(left + "+" + right)
    ensures Parse(left + "+" + right).Success? ==>
      && Parse(left).Success?
      && var k := |Parse(left).value|;
         var a := Parse(left + "+" + right).value;
         var b := Parse(left + "=" + right).value;
         && |a| == |b| && k <= |a|
         && a[..k] == b[..k] == Parse(left).value
         && forall r :: k <= r < |a| ==> b[r] == Scale(a[r], -1)
  {
    var plus := left + "+" + right;
    var equals := left + "=" + right;
    assert plus[..|left|] == left && equals[..|left|] == left;
    if Run(left).Failure? {
      FailureIsFinal(plus, |left|);
      FailureIsFinal(equals, |left|);
    } else {
      RunInvariant(left);
      RunsMirrored(left, right);
      if Run(plus).Success? {
        RunPrefix(plus, |left|);
      }
    }
  }
}
