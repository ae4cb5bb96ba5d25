/** The equation rewriter `preprocesseq` (parseeq.py): it inserts grouping
    parentheses into an equation line, choosing what to insert before each
    character from an ordered table of rules keyed on the previous emitted
    character and the current one. */
module Rewriter {
  import opened Outcome
  import opened CharClasses

  // ---------------------------------------------------------------------
  // The rule table
  // ---------------------------------------------------------------------

  /** The three one-character predicates the table uses as patterns. */
  datatype Test = Uppercase | Lowercase | DigitOrDot

  /** A pattern of the table: a predicate, a string of characters, or
      Python's `None`, which in the first column matches the start of the
      line and in the second its end. */
  datatype Pat = Holds(test: Test) | Among(chars: CharSet) | Boundary

  /** One row: the two patterns and what to insert before the current
      character, `None` marking the pair as illegal. */
  datatype Rule = Rule(before: Pat, current: Pat, insert: Option<string>)

  predicate Passes(t: Test, c: char) {
    match t
    case Uppercase => IsUpper(c)
    case Lowercase => IsLower(c)
    case DigitOrDot => IsDigitDot(c)
  }

  /** Whether pattern `p` matches `x`, where `x` is `None` before the first
      character (first column) or past the last one (second column). */
  predicate Matches(p: Pat, x: Option<char>) {
    match p
    case Holds(t) => x.Some? && Passes(t, x.value)
    case Among(cs) => x.Some? && x.value in Chars(cs)
    case Boundary => x.None?
  }

  /** Rows of the table, in order. */
  datatype Rows = End | Row(first: Rule, rest: Rows)

  /** The rows of `a` followed by those of `b`. */
  function Concat(a: Rows, b: Rows): Rows {
    match a
    case End => b
    case Row(r, rest) => Row(r, Concat(rest, b))
  }

  /** The rows whose first column is `str.isupper`. */
  function UpperRows(): Rows {
    Row(Rule(Holds(Uppercase), Holds(Uppercase), Some(")(")),
    Row(Rule(Holds(Uppercase), Holds(Lowercase), Some("")),
    Row(Rule(Holds(Uppercase), Holds(DigitOrDot), Some("(")),
    Row(Rule(Holds(Uppercase), Among(OpenParen), Some(")(")),
    Row(Rule(Holds(Uppercase), Among(CloseParen), Some(")")),
    Row(Rule(Holds(Uppercase), Among(Separators), Some("))")),
    Row(Rule(Holds(Uppercase), Boundary, Some("))")),
    End)))))))
  }

  /** The rows whose first column is `str.islower`. */
  function LowerRows(): Rows {
    Row(Rule(Holds(Lowercase), Holds(Uppercase), Some(")(")),
    Row(Rule(Holds(Lowercase), Holds(Lowercase), Some("")),
    Row(Rule(Holds(Lowercase), Holds(DigitOrDot), Some("(")),
    Row(Rule(Holds(Lowercase), Among(OpenParen), Some(")(")),
    Row(Rule(Holds(Lowercase), Among(CloseParen), Some(")")),
    Row(Rule(Holds(Lowercase), Among(Separators), Some("))")),
    Row(Rule(Holds(Lowercase), Boundary, Some("))")),
    End)))))))
  }

  /** The rows whose first column is `isdigitdot`. */
  function DigitRows(): Rows {
    Row(Rule(Holds(DigitOrDot), Holds(Uppercase), Some("))(")),
    Row(Rule(Holds(DigitOrDot), Holds(Lowercase), None),
    Row(Rule(Holds(DigitOrDot), Holds(DigitOrDot), Some("")),
    Row(Rule(Holds(DigitOrDot), Among(OpenParen), Some("))(")),
    Row(Rule(Holds(DigitOrDot), Among(CloseParen), Some("))")),
    Row(Rule(Holds(DigitOrDot), Among(Separators), Some(")))")),
    Row(Rule(Holds(DigitOrDot), Boundary, Some(")))")),
    End)))))))
  }

  /** The rows whose first column is `'('`. */
  function OpenRows(): Rows {
    Row(Rule(Among(OpenParen), Holds(Uppercase), Some("(")),
    Row(Rule(Among(OpenParen), Holds(Lowercase), None),
    Row(Rule(Among(OpenParen), Holds(DigitOrDot), None),
    Row(Rule(Among(OpenParen), Among(Parens), Some("")),
    Row(Rule(Among(OpenParen), Among(Separators), None),
    Row(Rule(Among(OpenParen), Boundary, None),
    End))))))
  }

  /** The rows whose first column is `')'`. */
  function CloseRows(): Rows {
    Row(Rule(Among(CloseParen), Holds(Uppercase), Some("(")),
    Row(Rule(Among(CloseParen), Holds(Lowercase), None),
    Row(Rule(Among(CloseParen), Holds(DigitOrDot), Some("(")),
    Row(Rule(Among(CloseParen), Among(Parens), Some("")),
    Row(Rule(Among(CloseParen), Among(Separators), Some("))")),
    Row(Rule(Among(CloseParen), Boundary, Some("))")),
    End))))))
  }

  /** The rows whose first column is `'+='`. */
  function SeparatorRows(): Rows {
    Row(Rule(Among(Separators), Holds(Uppercase), Some("((")),
    Row(Rule(Among(Separators), Holds(Lowercase), None),
    Row(Rule(Among(Separators), Holds(DigitOrDot), None),
    Row(Rule(Among(Separators), Among(OpenParen), Some("((")),
    Row(Rule(Among(Separators), Among(CloseParen), None),
    Row(Rule(Among(Separators), Among(Separators), None),
    Row(Rule(Among(Separators), Boundary, None),
    End)))))))
  }

  /** The rows whose first column is `None` (nothing emitted yet). */
  function StartRows(): Rows {
    Row(Rule(Boundary, Holds(Uppercase), Some("((")),
    Row(Rule(Boundary, Holds(Lowercase), None),
    Row(Rule(Boundary, Holds(DigitOrDot), None),
    Row(Rule(Boundary, Among(OpenParen), Some("((")),
    Row(Rule(Boundary, Among(CloseParen), None),
    Row(Rule(Boundary, Among(Separators), None),
    Row(Rule(Boundary, Boundary, None),
    End)))))))
  }

  /** The block of rows whose first column is the pattern of kind `k`. */
  function Block(k: Kind): Rows {
    match k
    case UpperKind => UpperRows()
    case LowerKind => LowerRows()
    case NumberKind => DigitRows()
    case OpenKind => OpenRows()
    case CloseKind => CloseRows()
    case SeparatorKind => SeparatorRows()
    case EdgeKind => StartRows()
    case OtherKind => End
  }

  /** The first column shared by the rows of `Block(k)`. */
  function Head(k: Kind): Pat {
    match k
    case UpperKind => Holds(Uppercase)
    case LowerKind => Holds(Lowercase)
    case NumberKind => Holds(DigitOrDot)
    case OpenKind => Among(OpenParen)
    case CloseKind => Among(CloseParen)
    case SeparatorKind => Among(Separators)
    case EdgeKind | OtherKind => Boundary
  }

  /** The order of the blocks in the source's table. */
  function BlockOrder(): seq<Kind> {
    [UpperKind, LowerKind, NumberKind, OpenKind, CloseKind, SeparatorKind, EdgeKind]
  }

  /** The blocks of the kinds `ks`, one after the other. */
  function Blocks(ks: seq<Kind>): Rows {
    if ks == [] then End else Concat(Block(ks[0]), Blocks(ks[1..]))
  }

  /** The whole table, in the source's order. */
  function Rules(): Rows {
    Blocks(BlockOrder())
  }

  /** The first row matching the pair: `None` if no row matches, otherwise
      that row's insertion (itself `None` for an illegal pair). */
  function FirstMatch(rules: Rows, prev: Option<char>, cur: Option<char>): Option<Option<string>>
  {
    match rules
    case End => None
    case Row(r, rest) =>
      if Matches(r.before, prev) && Matches(r.current, cur) then Some(r.insert)
      else FirstMatch(rest, prev, cur)
  }

  // ---------------------------------------------------------------------
  // The table read by character kinds
  // ---------------------------------------------------------------------

  /** Every pattern of the table depends on a character only through its
      kind; `EdgeKind` stands for the start or the end of the line. */
  datatype Kind = UpperKind | LowerKind | NumberKind | OpenKind | CloseKind | SeparatorKind | EdgeKind | OtherKind

  function KindOf(x: Option<char>): Kind {
    match x
    case None => EdgeKind
    case Some(c) =>
      if IsUpper(c) then UpperKind
      else if IsLower(c) then LowerKind
      else if IsDigitDot(c) then NumberKind
      else if c == '(' then OpenKind
      else if c == ')' then CloseKind
      else if c == '+' || c == '=' then SeparatorKind
      else OtherKind
  }

  predicate Accepts(p: Pat, k: Kind) {
    match p
    case Holds(Uppercase) => k == UpperKind
    case Holds(Lowercase) => k == LowerKind
    case Holds(DigitOrDot) => k == NumberKind
    case Among(OpenParen) => k == OpenKind
    case Among(CloseParen) => k == CloseKind
    case Among(Parens) => k == OpenKind || k == CloseKind
    case Among(Separators) => k == SeparatorKind
    case Boundary => k == EdgeKind
  }

  /** No pattern of the table separates two characters of the same kind. */
  lemma MatchesByKind(p: Pat, x: Option<char>)
    ensures Matches(p, x) == Accepts(p, KindOf(x))
  {
  }

  function FirstMatchKind(rules: Rows, k1: Kind, k2: Kind): Option<Option<string>>
  {
    match rules
    case End => None
    case Row(r, rest) =>
      if Accepts(r.before, k1) && Accepts(r.current, k2) then Some(r.insert)
      else FirstMatchKind(rest, k1, k2)
  }

  lemma {:induction false} FirstMatchByKind(rules: Rows, prev: Option<char>, cur: Option<char>)
    ensures FirstMatch(rules, prev, cur) == FirstMatchKind(rules, KindOf(prev), KindOf(cur))
  {
    if rules.Row? {
      MatchesByKind(rules.first.before, prev);
      MatchesByKind(rules.first.current, cur);
      FirstMatchByKind(rules.rest, prev, cur);
    }
  }

  function Or(a: Option<Option<string>>, b: Option<Option<string>>): Option<Option<string>> {
    if a.Some? then a else b
  }

  lemma {:induction false} FirstMatchKindConcat(a: Rows, b: Rows, k1: Kind, k2: Kind)
    ensures FirstMatchKind(Concat(a, b), k1, k2) == Or(FirstMatchKind(a, k1, k2), FirstMatchKind(b, k1, k2))
  {
    if a.Row? {
      FirstMatchKindConcat(a.rest, b, k1, k2);
    }
  }

  lemma {:induction false} NoRowAcceptsOther(rules: Rows, k1: Kind, k2: Kind)
    requires k1 == OtherKind || k2 == OtherKind
    ensures FirstMatchKind(rules, k1, k2) == None
  {
    if rules.Row? {
      NoRowAcceptsOther(rules.rest, k1, k2);
    }
  }

  /** The table as a grid over (previous kind, current kind): `None` where
      no row applies, `Some(None)` for an illegal pair, `Some(Some(s))` for
      the insertion `s`.  Rows for a lowercase previous character repeat
      those for an uppercase one, and rows for a separator repeat those for
      the start of the line. */
  function Table(k1: Kind, k2: Kind): Option<Option<string>> {
    if k1 == OtherKind || k2 == OtherKind then None
    else match k1
      case UpperKind | LowerKind =>
        Some(Some(match k2
          case UpperKind => ")(" case LowerKind => "" case NumberKind => "("
          case OpenKind => ")(" case CloseKind => ")" case _ => "))"))
      case NumberKind =>
        if k2 == LowerKind then Some(None)
        else Some(Some(match k2
          case UpperKind => "))(" case NumberKind => "" case OpenKind => "))("
          case CloseKind => "))" case _ => ")))"))
      case OpenKind =>
        (match k2
          case UpperKind => Some(Some("(")) case OpenKind | CloseKind => Some(Some(""))
          case _ => Some(None))
      case CloseKind =>
        (match k2
          case UpperKind | NumberKind => Some(Some("(")) case OpenKind | CloseKind => Some(Some(""))
          case LowerKind => Some(None) case _ => Some(Some("))")))
      case _ =>
        (match k2
          case UpperKind | OpenKind => Some(Some("((")) case _ => Some(None))
  }

  /** Every row of `rules` has first column `p`. */
  predicate Headed(rules: Rows, p: Pat) {
    match rules
    case End => true
    case Row(r, rest) => r.before == p && Headed(rest, p)
  }

  lemma {:induction false} HeadedRejects(rules: Rows, p: Pat, k1: Kind, k2: Kind)
    requires Headed(rules, p) && !Accepts(p, k1)
    ensures FirstMatchKind(rules, k1, k2) == None
  {
    if rules.Row? {
      HeadedRejects(rules.rest, p, k1, k2);
    }
  }

  lemma BlocksHeaded(k: Kind)
    requires k != OtherKind
    ensures Headed(Block(k), Head(k))
  {
    match k
    case UpperKind =>
    case LowerKind =>
    case NumberKind =>
    case OpenKind =>
    case CloseKind =>
    case SeparatorKind =>
    case EdgeKind =>
  }

  /** The first column of block `k` accepts exactly the characters of kind `k`. */
  lemma HeadAccepts(k: Kind, k1: Kind)
    requires k != OtherKind
    ensures Accepts(Head(k), k1) <==> k1 == k
  {
  }

  /** Searching consecutive blocks comes down to searching the block of the
      previous character's kind. */
  lemma {:induction false} BlocksSearch(ks: seq<Kind>, k1: Kind, k2: Kind)
    requires OtherKind !in ks
    ensures FirstMatchKind(Blocks(ks), k1, k2) == if k1 in ks then FirstMatchKind(Block(k1), k1, k2) else None
  {
    if ks != [] {
      var k, rest := ks[0], ks[1..];
      assert ks == [k] + rest;
      FirstMatchKindConcat(Block(k), Blocks(rest), k1, k2);
      BlocksSearch(rest, k1, k2);
      if k != k1 {
        BlocksHeaded(k);
        HeadAccepts(k, k1);
        HeadedRejects(Block(k), Head(k), k1, k2);
      }
    }
  }

  lemma UpperBlockValues(k2: Kind)
    requires k2 != OtherKind
    ensures FirstMatchKind(UpperRows(), UpperKind, k2) == Table(UpperKind, k2)
  {
    match k2
    case UpperKind =>
    case LowerKind =>
    case NumberKind =>
    case OpenKind =>
    case CloseKind =>
    case SeparatorKind =>
    case EdgeKind =>
  }

  lemma LowerBlockValues(k2: Kind)
    requires k2 != OtherKind
    ensures FirstMatchKind(LowerRows(), LowerKind, k2) == Table(LowerKind, k2)
  {
    match k2
    case UpperKind =>
    case LowerKind =>
    case NumberKind =>
    case OpenKind =>
    case CloseKind =>
    case SeparatorKind =>
    case EdgeKind =>
  }

  lemma NumberBlockValues(k2: Kind)
    requires k2 != OtherKind
    ensures FirstMatchKind(DigitRows(), NumberKind, k2) == Table(NumberKind, k2)
  {
    match k2
    case UpperKind =>
    case LowerKind =>
    case NumberKind =>
    case OpenKind =>
    case CloseKind =>
    case SeparatorKind =>
    case EdgeKind =>
  }

  lemma OpenBlockValues(k2: Kind)
    requires k2 != OtherKind
    ensures FirstMatchKind(OpenRows(), OpenKind, k2) == Table(OpenKind, k2)
  {
    match k2
    case UpperKind =>
    case LowerKind =>
    case NumberKind =>
    case OpenKind =>
    case CloseKind =>
    case SeparatorKind =>
    case EdgeKind =>
  }

  lemma CloseBlockValues(k2: Kind)
    requires k2 != OtherKind
    ensures FirstMatchKind(CloseRows(), CloseKind, k2) == Table(CloseKind, k2)
  {
    match k2
    case UpperKind =>
    case LowerKind =>
    case NumberKind =>
    case OpenKind =>
    case CloseKind =>
    case SeparatorKind =>
    case EdgeKind =>
  }

  lemma SeparatorBlockValues(k2: Kind)
    requires k2 != OtherKind
    ensures FirstMatchKind(SeparatorRows(), SeparatorKind, k2) == Table(SeparatorKind, k2)
  {
    match k2
    case UpperKind =>
    case LowerKind =>
    case NumberKind =>
    case OpenKind =>
    case CloseKind =>
    case SeparatorKind =>
    case EdgeKind =>
  }

  lemma EdgeBlockValues(k2: Kind)
    requires k2 != OtherKind
    ensures FirstMatchKind(StartRows(), EdgeKind, k2) == Table(EdgeKind, k2)
  {
    match k2
    case UpperKind =>
    case LowerKind =>
    case NumberKind =>
    case OpenKind =>
    case CloseKind =>
    case SeparatorKind =>
    case EdgeKind =>
  }

  lemma OrderCovers(k: Kind)
    ensures OtherKind !in BlockOrder()
    ensures k != OtherKind ==> k in BlockOrder()
  {
    var order := BlockOrder();
    assert order[0] == UpperKind && order[1] == LowerKind && order[2] == NumberKind && order[3] == OpenKind;
    assert order[4] == CloseKind && order[5] == SeparatorKind && order[6] == EdgeKind;
  }

  /** The ordered table and the grid agree on every pair of kinds. */
  lemma TableAgrees(k1: Kind, k2: Kind)
    ensures FirstMatchKind(Rules(), k1, k2) == Table(k1, k2)
  {
    if k1 == OtherKind || k2 == OtherKind {
      NoRowAcceptsOther(Rules(), k1, k2);
    } else {
      OrderCovers(k1);
      BlocksSearch(BlockOrder(), k1, k2);
      match k1
      case UpperKind => UpperBlockValues(k2);
      case LowerKind => LowerBlockValues(k2);
      case NumberKind => NumberBlockValues(k2);
      case OpenKind => OpenBlockValues(k2);
      case CloseKind => CloseBlockValues(k2);
      case SeparatorKind => SeparatorBlockValues(k2);
      case EdgeKind => EdgeBlockValues(k2);
    }
  }

  /** The rule that applies to a previous character (`None`: nothing emitted
      yet) and a current one (`None`: end of line), found by searching the
      ordered table. */
  function RuleFor(prev: Option<char>, cur: Option<char>): Option<Option<string>> {
    FirstMatch(Rules(), prev, cur)
  }

  /** Searching the ordered table gives the grid's entry for the kinds of the
      two characters. */
  lemma RuleForIsTable(prev: Option<char>, cur: Option<char>)
    ensures RuleFor(prev, cur) == Table(KindOf(prev), KindOf(cur))
  {
    FirstMatchByKind(Rules(), prev, cur);
    TableAgrees(KindOf(prev), KindOf(cur));
  }

  /** The table has a row for every pair of kinds that does not involve a
      character outside its classes; an illegal pair still has a row. */
  lemma RowExistsExactlyForKnownKinds(prev: Option<char>, cur: Option<char>)
    ensures RuleFor(prev, cur).None? <==> KindOf(prev) == OtherKind || KindOf(cur) == OtherKind
  {
    RuleForIsTable(prev, cur);
  }

  predicate ParensOnly(s: string) {
    forall k :: 0 <= k < |s| ==> s[k] == '(' || s[k] == ')'
  }

  /** Every insertion of `rules` is made of parentheses only. */
  predicate InsertsParens(rules: Rows) {
    match rules
    case End => true
    case Row(r, rest) => (r.insert.Some? ==> ParensOnly(r.insert.value)) && InsertsParens(rest)
  }

  lemma {:induction false} FirstMatchInsertsParens(rules: Rows, prev: Option<char>, cur: Option<char>)
    requires InsertsParens(rules)
    requires FirstMatch(rules, prev, cur).Some? && FirstMatch(rules, prev, cur).value.Some?
    ensures ParensOnly(FirstMatch(rules, prev, cur).value.value)
  {
    if !(Matches(rules.first.before, prev) && Matches(rules.first.current, cur)) {
      FirstMatchInsertsParens(rules.rest, prev, cur);
    }
  }

  lemma {:induction false} ConcatInsertsParens(a: Rows, b: Rows)
    requires InsertsParens(a) && InsertsParens(b)
    ensures InsertsParens(Concat(a, b))
  {
    if a.Row? {
      ConcatInsertsParens(a.rest, b);
    }
  }

  lemma BlockInsertsParens(k: Kind)
    ensures InsertsParens(Block(k))
  {
    match k
    case UpperKind =>
    case LowerKind =>
    case NumberKind =>
    case OpenKind =>
    case CloseKind =>
    case SeparatorKind =>
    case EdgeKind =>
    case OtherKind =>
  }

  lemma {:induction false} BlocksInsertParens(ks: seq<Kind>)
    ensures InsertsParens(Blocks(ks))
  {
    if ks != [] {
      BlockInsertsParens(ks[0]);
      BlocksInsertParens(ks[1..]);
      ConcatInsertsParens(Block(ks[0]), Blocks(ks[1..]));
    }
  }

  // ---------------------------------------------------------------------
  // The rewrite
  // ---------------------------------------------------------------------

  /** `buf[-1]`: the last character emitted; each step appends the current
      character after its insertion, so this is the previous non-space
      character of the line, and `None` while nothing has been emitted. */
  function Last(buf: string): Option<char> {
    if |buf| == 0 then None else Some(buf[|buf| - 1])
  }

  /** The current position of the scan: a character, or `None` at the end. */
  function At(line: string, i: nat): Option<char>
    requires i <= |line|
  {
    if i < |line| then Some(line[i]) else None
  }

  /** The rewrite, driven by the rows `rules`, of the unread part `rest` of
      the line, where `pos` is the index of `rest[0]` in the whole line and
      `buf` what has been emitted so far. */
  function Rewrite(rules: Rows, rest: string, pos: nat, buf: string): Result<string>
    decreases |rest|
  {
    if rest == [] then
      match FirstMatch(rules, Last(buf), None)
      case Some(Some(ins)) => Success(buf + ins)
      case _ => Failure(IllegalCharacter(pos))
    else if IsSpace(rest[0]) then Rewrite(rules, rest[1..], pos + 1, buf)
    else
      match FirstMatch(rules, Last(buf), Some(rest[0]))
      case Some(Some(ins)) => Rewrite(rules, rest[1..], pos + 1, buf + ins + [rest[0]])
      case _ => Failure(IllegalCharacter(pos))
  }

  /** `preprocesseq(line)`. */
  function Preprocess(line: string): Result<string> {
    Rewrite(Rules(), line, 0, "")
  }

  /** The inner `for` loop: the first row of the table matching the pair. */
  method MatchRule(prev: Option<char>, cur: Option<char>) returns (m: Option<Option<string>>)
    ensures m == RuleFor(prev, cur)
  {
    var rows := Rules();
    while rows.Row?
      invariant FirstMatch(rows, prev, cur) == FirstMatch(Rules(), prev, cur)
      decreases rows
    {
      var r := rows.first;
      if Matches(r.before, prev) && Matches(r.current, cur) {
        return Some(r.insert);
      }
      rows := rows.rest;
    }
    return None;
  }

  /** The loop of `preprocesseq`, over the index `i` and the buffer `buf`. */
  method PreprocessEq(line: string) returns (r: Result<string>)
    ensures r == Preprocess(line)
  {
    var buf := "";
    var i := 0;
    var n := |line|;
    while i <= n
      invariant 0 <= i <= n + 1
      invariant i <= n ==> Rewrite(Rules(), line[i..], i, buf) == Preprocess(line)
      invariant i == n + 1 ==> Success(buf) == Preprocess(line)
      decreases n + 1 - i
    {
      if i < n && IsSpace(line[i]) {
        assert line[i..][1..] == line[i + 1..];
        i := i + 1;
        continue;
      }
      var m := MatchRule(Last(buf), At(line, i));
      if m.None? || m.value.None? {
        return Failure(IllegalCharacter(i));
      }
      buf := buf + m.value.value;
      if i < n {
        assert line[i..][1..] == line[i + 1..];
        buf := buf + [line[i]];
      }
      i := i + 1;
    }
    return Success(buf);
  }

  // ---------------------------------------------------------------------
  // Only parentheses are inserted
  // ---------------------------------------------------------------------

  /** `s` without its parentheses. */
  function Unparen(s: string): string {
    if s == [] then []
    else (if s[0] == '(' || s[0] == ')' then [] else [s[0]]) + Unparen(s[1..])
  }

  /** `s` without its whitespace. */
  function Despace(s: string): string {
    if s == [] then []
    else (if IsSpace(s[0]) then [] else [s[0]]) + Despace(s[1..])
  }

  predicate NoSpace(s: string) {
    forall k :: 0 <= k < |s| ==> !IsSpace(s[k])
  }

  lemma {:induction false} UnparenAppend(a: string, b: string)
    ensures Unparen(a + b) == Unparen(a) + Unparen(b)
  {
    if a == [] {
      assert a + b == b;
    } else {
      assert (a + b)[0] == a[0];
      assert (a + b)[1..] == a[1..] + b;
      UnparenAppend(a[1..], b);
    }
  }

  lemma NoSpaceAppend(a: string, b: string)
    requires NoSpace(a) && NoSpace(b)
    ensures NoSpace(a + b)
  {
    assert forall k :: 0 <= k < |a + b| ==> (a + b)[k] == if k < |a| then a[k] else b[k - |a|];
  }

  lemma {:induction false} ParensOnlyVanish(s: string)
    requires ParensOnly(s)
    ensures Unparen(s) == "" && NoSpace(s)
  {
    if s != [] {
      ParensOnlyVanish(s[1..]);
    }
  }

  lemma {:induction false} RewriteOnlyInserts(rules: Rows, rest: string, pos: nat, buf: string)
    requires InsertsParens(rules) && NoSpace(buf)
    requires Rewrite(rules, rest, pos, buf).Success?
    ensures Unparen(Rewrite(rules, rest, pos, buf).value) == Unparen(buf) + Unparen(Despace(rest))
    ensures NoSpace(Rewrite(rules, rest, pos, buf).value)
  {
    if rest == [] {
      var ins := FirstMatch(rules, Last(buf), None).value.value;
      FirstMatchInsertsParens(rules, Last(buf), None);
      ParensOnlyVanish(ins);
      UnparenAppend(buf, ins);
      NoSpaceAppend(buf, ins);
    } else if IsSpace(rest[0]) {
      assert Despace(rest) == Despace(rest[1..]);
      RewriteOnlyInserts(rules, rest[1..], pos + 1, buf);
    } else {
      var c := rest[0];
      var ins := FirstMatch(rules, Last(buf), Some(c)).value.value;
      FirstMatchInsertsParens(rules, Last(buf), Some(c));
      ParensOnlyVanish(ins);
      EmitKeepsChars(buf, ins, c, Despace(rest[1..]));
      RewriteOnlyInserts(rules, rest[1..], pos + 1, buf + ins + [c]);
    }
  }

  /** One step of the rewrite, seen through `Unparen` and `NoSpace`. */
  lemma EmitKeepsChars(buf: string, ins: string, c: char, tail: string)
    requires Unparen(ins) == "" && NoSpace(ins) && NoSpace(buf) && !IsSpace(c)
    ensures Unparen(buf + ins + [c]) + Unparen(tail) == Unparen(buf) + Unparen([c] + tail)
    ensures NoSpace(buf + ins + [c])
  {
    NoSpaceAppend(buf, ins);
    NoSpaceAppend(buf + ins, [c]);
    UnparenAppend(buf + ins, [c]);
    UnparenAppend(buf, ins);
    UnparenAppend([c], tail);
  }

  /** `preprocesseq` only inserts parentheses and drops whitespace: removing
      the parentheses from its output gives the line without whitespace and
      parentheses, and the output holds no whitespace. */
  lemma PreprocessOnlyInsertsParens(line: string)
    requires Preprocess(line).Success?
    ensures Unparen(Preprocess(line).value) == Unparen(Despace(line))
    ensures NoSpace(Preprocess(line).value)
  {
    BlocksInsertParens(BlockOrder());
    RewriteOnlyInserts(Rules(), line, 0, "");
  }

  // ---------------------------------------------------------------------
  // Whitespace is irrelevant
  // ---------------------------------------------------------------------

  lemma {:induction false} RewriteIgnoresSpaces(rules: Rows, rest: string, p: nat, q: nat, buf: string)
    ensures Rewrite(rules, rest, p, buf).Success? <==> Rewrite(rules, Despace(rest), q, buf).Success?
    ensures Rewrite(rules, rest, p, buf).Success? ==>
      Rewrite(rules, rest, p, buf).value == Rewrite(rules, Despace(rest), q, buf).value
    decreases |rest|
  {
    if rest != [] {
      if IsSpace(rest[0]) {
        assert Despace(rest) == Despace(rest[1..]);
        RewriteIgnoresSpaces(rules, rest[1..], p + 1, q, buf);
      } else {
        var d := Despace(rest);
        assert d == [rest[0]] + Despace(rest[1..]);
        assert d != [] && d[0] == rest[0] && d[1..] == Despace(rest[1..]);
        var m := FirstMatch(rules, Last(buf), Some(rest[0]));
        if m.Some? && m.value.Some? {
          RewriteIgnoresSpaces(rules, rest[1..], p + 1, q + 1, buf + m.value.value + [rest[0]]);
        }
      }
    }
  }

  /** Whitespace changes neither whether `preprocesseq` succeeds nor what it
      returns; only the reported error positions move. */
  lemma WhitespaceIrrelevant(line: string)
    ensures Preprocess(line).Success? <==> Preprocess(Despace(line)).Success?
    ensures Preprocess(line).Success? ==> Preprocess(line) == Preprocess(Despace(line))
  {
    RewriteIgnoresSpaces(Rules(), line, 0, 0, "");
  }

  // ---------------------------------------------------------------------
  // Where the rewrite fails
  // ---------------------------------------------------------------------

  /** The last non-space character of `line[..i]`, if any. */
  function PrevNonSpace(line: string, i: nat): Option<char>
    requires i <= |line|
  {
    if i == 0 then None
    else if IsSpace(line[i - 1]) then PrevNonSpace(line, i - 1)
    else Some(line[i - 1])
  }

  /** The positions the loop consults the table at: every non-space
      character, and the end of the line. */
  predicate Inspected(line: string, i: nat)
    requires i <= |line|
  {
    i == |line| || !IsSpace(line[i])
  }

  /** `rules` have a legal row for position `i` of the line. */
  predicate AllowedBy(rules: Rows, line: string, i: nat)
    requires i <= |line|
  {
    var m := FirstMatch(rules, PrevNonSpace(line, i), At(line, i));
    m.Some? && m.value.Some?
  }

  /** The table has a legal row for position `i` of the line. */
  predicate Allowed(line: string, i: nat)
    requires i <= |line|
  {
    AllowedBy(Rules(), line, i)
  }

  lemma {:induction false} RewriteStopsAtFirstDisallowed(rules: Rows, line: string, i: nat, buf: string)
    requires i <= |line| && Last(buf) == PrevNonSpace(line, i)
    ensures Rewrite(rules, line[i..], i, buf).Success? <==>
      forall k :: i <= k <= |line| && Inspected(line, k) ==> AllowedBy(rules, line, k)
    ensures Rewrite(rules, line[i..], i, buf).Failure? ==>
      var e := Rewrite(rules, line[i..], i, buf).error;
      e.IllegalCharacter? && i <= e.pos <= |line| && Inspected(line, e.pos) && !AllowedBy(rules, line, e.pos) &&
      forall k :: i <= k < e.pos && Inspected(line, k) ==> AllowedBy(rules, line, k)
    decreases |line| - i
  {
    if i == |line| {
      assert line[i..] == [];
      assert Inspected(line, i) && At(line, i) == None;
      assert AllowedBy(rules, line, i) <==> Rewrite(rules, line[i..], i, buf).Success?;
    } else {
      assert line[i..][0] == line[i] && line[i..][1..] == line[i + 1..];
      if IsSpace(line[i]) {
        RewriteStopsAtFirstDisallowed(rules, line, i + 1, buf);
      } else {
        var m := FirstMatch(rules, Last(buf), Some(line[i]));
        assert At(line, i) == Some(line[i]);
        if m.Some? && m.value.Some? {
          assert AllowedBy(rules, line, i);
          var next := buf + m.value.value + [line[i]];
          assert Last(next) == Some(line[i]) == PrevNonSpace(line, i + 1);
          RewriteStopsAtFirstDisallowed(rules, line, i + 1, next);
        } else {
          assert Inspected(line, i) && !AllowedBy(rules, line, i);
        }
      }
    }
  }

  /** `preprocesseq` succeeds exactly when the table has a legal row at every
      position it consults; otherwise it fails only with the positioned error. */
  lemma PreprocessSucceedsIffAllowed(line: string)
    ensures Preprocess(line).Success? <==> forall k :: 0 <= k <= |line| && Inspected(line, k) ==> Allowed(line, k)
    ensures Preprocess(line).Failure? ==> Preprocess(line).error.IllegalCharacter?
  {
    assert line[0..] == line;
    RewriteStopsAtFirstDisallowed(Rules(), line, 0, "");
  }

  /** `preprocesseq` reports position `j` exactly when `j` is the first
      consulted position without a legal row: the index of the offending
      character, or the length of the line when the end is not allowed. */
  lemma PreprocessFailsAtFirstDisallowed(line: string, j: nat)
    ensures Preprocess(line) == Failure(IllegalCharacter(j)) <==>
      j <= |line| && Inspected(line, j) && !Allowed(line, j) &&
      forall k :: 0 <= k < j && Inspected(line, k) ==> Allowed(line, k)
  {
    assert line[0..] == line;
    RewriteStopsAtFirstDisallowed(Rules(), line, 0, "");
  }

  lemma {:induction false} NothingBefore(line: string, j: nat)
    requires j <= |line| && forall k :: 0 <= k < j ==> IsSpace(line[k])
    ensures PrevNonSpace(line, j) == None
  {
    if j > 0 {
      NothingBefore(line, j - 1);
    }
  }

  /** A line whose first non-space character is a lowercase letter, a digit,
      a dot, `)`, `+` or `=` fails at that character. */
  lemma BadFirstCharacterFails(line: string, j: nat)
    requires j < |line| && forall k :: 0 <= k < j ==> IsSpace(line[k])
    requires IsLower(line[j]) || IsDigitDot(line[j]) || line[j] in ")+="
    ensures Preprocess(line) == Failure(IllegalCharacter(j))
  {
    NothingBefore(line, j);
    RuleForIsTable(None, Some(line[j]));
    PreprocessFailsAtFirstDisallowed(line, j);
  }

  /** An empty or all-whitespace line fails at the end of the line. */
  lemma BlankLineFails(line: string)
    requires forall k :: 0 <= k < |line| ==> IsSpace(line[k])
    ensures Preprocess(line) == Failure(IllegalCharacter(|line|))
  {
    NothingBefore(line, |line|);
    RuleForIsTable(None, None);
    PreprocessFailsAtFirstDisallowed(line, |line|);
  }

  /** A lowercase letter right after a digit or a dot (spaces between them
      aside) is illegal, so the rewrite fails there or earlier. */
  lemma LowercaseAfterNumberFails(line: string, j: nat)
    requires j < |line| && IsLower(line[j])
    requires PrevNonSpace(line, j).Some? && IsDigitDot(PrevNonSpace(line, j).value)
    ensures Preprocess(line).Failure? && Preprocess(line).error.IllegalCharacter?
    ensures Preprocess(line).Failure? ==> Preprocess(line).error.pos <= j
  {
    RuleForIsTable(PrevNonSpace(line, j), Some(line[j]));
    assert Inspected(line, j) && !Allowed(line, j);
    PreprocessSucceedsIffAllowed(line);
    var e := Preprocess(line).error;
    PreprocessFailsAtFirstDisallowed(line, e.pos);
  }

  // ---------------------------------------------------------------------
  // The rewrite read off the grid, and the examples of the documentation
  // ---------------------------------------------------------------------

  /** The loop of `preprocesseq` over the index `i`, with the grid `Table`
      in place of the ordered search. */
  function RewriteByGrid(line: string, i: nat, buf: string): Result<string>
    requires i <= |line|
    decreases |line| - i
  {
    if i == |line| then
      match Table(KindOf(Last(buf)), EdgeKind)
      case Some(Some(ins)) => Success(buf + ins)
      case _ => Failure(IllegalCharacter(i))
    else if IsSpace(line[i]) then RewriteByGrid(line, i + 1, buf)
    else
      match Table(KindOf(Last(buf)), KindOf(Some(line[i])))
      case Some(Some(ins)) => RewriteByGrid(line, i + 1, buf + ins + [line[i]])
      case _ => Failure(IllegalCharacter(i))
  }

  /** The rewrite driven by the ordered table equals the one read off the
      grid, from any position of the line. */
  lemma {:induction false} RewriteIsByGrid(line: string, i: nat, buf: string)
    requires i <= |line|
    ensures Rewrite(Rules(), line[i..], i, buf) == RewriteByGrid(line, i, buf)
    decreases |line| - i
  {
    if i == |line| {
      RuleForIsTable(Last(buf), None);
    } else {
      assert line[i..][0] == line[i] && line[i..][1..] == line[i + 1..];
      RuleForIsTable(Last(buf), Some(line[i]));
      var m := Table(KindOf(Last(buf)), KindOf(Some(line[i])));
      if IsSpace(line[i]) {
        RewriteIsByGrid(line, i + 1, buf);
      } else if m.Some? && m.value.Some? {
        RewriteIsByGrid(line, i + 1, buf + m.value.value + [line[i]]);
      }
    }
  }

  lemma GridEmit(line: string, i: nat, buf: string, prev: Option<char>, ins: string)
    requires i < |line| && !IsSpace(line[i]) && Last(buf) == prev
    requires Table(KindOf(prev), KindOf(Some(line[i]))) == Some(Some(ins))
    ensures RewriteByGrid(line, i, buf) == RewriteByGrid(line, i + 1, buf + ins + [line[i]])
  {
  }

  lemma GridSpace(line: string, i: nat, buf: string)
    requires i < |line| && IsSpace(line[i])
    ensures RewriteByGrid(line, i, buf) == RewriteByGrid(line, i + 1, buf)
  {
  }

  lemma GridEnd(line: string, buf: string, prev: Option<char>, ins: string)
    requires Last(buf) == prev
    requires Table(KindOf(prev), EdgeKind) == Some(Some(ins))
    ensures RewriteByGrid(line, |line|, buf) == Success(buf + ins)
  {
  }

  lemma ExampleAPart1()
    ensures RewriteByGrid("A", 0, "") == Success("((A))")
  {
    var line := "A";
    GridEmit(line, 0, "", None, "((");
    assert "" + "((" + [line[0]] == "((A";
    GridEnd(line, "((A", Some('A'), "))");
    assert "((A" + "))" == "((A))";
  }

  /** The example of the documentation for "A". */
  lemma ExampleA()
    ensures Preprocess("A") == Success("((A))")
  {
    RewriteIsByGrid("A", 0, "");
    ExampleAPart1();
  }

  lemma ExampleA2Part1()
    ensures RewriteByGrid("A2", 0, "") == RewriteByGrid("A2", 2, "((A(2")
  {
    var line := "A2";
    GridEmit(line, 0, "", None, "((");
    assert "" + "((" + [line[0]] == "((A";
    GridEmit(line, 1, "((A", Some('A'), "(");
    assert "((A" + "(" + [line[1]] == "((A(2";
  }

  lemma ExampleA2Part2()
    ensures RewriteByGrid("A2", 2, "((A(2") == Success("((A(2)))")
  {
    var line := "A2";
    GridEnd(line, "((A(2", Some('2'), ")))");
    assert "((A(2" + ")))" == "((A(2)))";
  }

  /** The example of the documentation for "A2". */
  lemma ExampleA2()
    ensures Preprocess("A2") == Success("((A(2)))")
  {
    RewriteIsByGrid("A2", 0, "");
    ExampleA2Part1();
    ExampleA2Part2();
  }

  lemma ExampleABPart1()
    ensures RewriteByGrid("AB", 0, "") == RewriteByGrid("AB", 2, "((A)(B")
  {
    var line := "AB";
    GridEmit(line, 0, "", None, "((");
    assert "" + "((" + [line[0]] == "((A";
    GridEmit(line, 1, "((A", Some('A'), ")(");
    assert "((A" + ")(" + [line[1]] == "((A)(B";
  }

  lemma ExampleABPart2()
    ensures RewriteByGrid("AB", 2, "((A)(B") == Success("((A)(B))")
  {
    var line := "AB";
    GridEnd(line, "((A)(B", Some('B'), "))");
    assert "((A)(B" + "))" == "((A)(B))";
  }

  /** The example of the documentation for "AB". */
  lemma ExampleAB()
    ensures Preprocess("AB") == Success("((A)(B))")
  {
    RewriteIsByGrid("AB", 0, "");
    ExampleABPart1();
    ExampleABPart2();
  }

  lemma ExampleA2BPart1()
    ensures RewriteByGrid("A2B", 0, "") == RewriteByGrid("A2B", 2, "((A(2")
  {
    var line := "A2B";
    GridEmit(line, 0, "", None, "((");
    assert "" + "((" + [line[0]] == "((A";
    GridEmit(line, 1, "((A", Some('A'), "(");
    assert "((A" + "(" + [line[1]] == "((A(2";
  }

  lemma ExampleA2BPart2()
    ensures RewriteByGrid("A2B", 2, "((A(2") == Success("((A(2))(B))")
  {
    var line := "A2B";
    GridEmit(line, 2, "((A(2", Some('2'), "))(");
    assert "((A(2" + "))(" + [line[2]] == "((A(2))(B";
    GridEnd(line, "((A(2))(B", Some('B'), "))");
    assert "((A(2))(B" + "))" == "((A(2))(B))";
  }

  /** The example of the documentation for "A2B". */
  lemma ExampleA2B()
    ensures Preprocess("A2B") == Success("((A(2))(B))")
  {
    RewriteIsByGrid("A2B", 0, "");
    ExampleA2BPart1();
    ExampleA2BPart2();
  }

  lemma ExampleGroupPart1()
    ensures RewriteByGrid("A(A2B)3", 0, "") == RewriteByGrid("A(A2B)3", 2, "((A)((")
  {
    var line := "A(A2B)3";
    GridEmit(line, 0, "", None, "((");
    assert "" + "((" + [line[0]] == "((A";
    GridEmit(line, 1, "((A", Some('A'), ")(");
    assert "((A" + ")(" + [line[1]] == "((A)((";
  }

  lemma ExampleGroupPart2()
    ensures RewriteByGrid("A(A2B)3", 2, "((A)((") == RewriteByGrid("A(A2B)3", 4, "((A)(((A(2")
  {
    var line := "A(A2B)3";
    GridEmit(line, 2, "((A)((", Some('('), "(");
    assert "((A)((" + "(" + [line[2]] == "((A)(((A";
    GridEmit(line, 3, "((A)(((A", Some('A'), "(");
    assert "((A)(((A" + "(" + [line[3]] == "((A)(((A(2";
  }

  lemma ExampleGroupPart3()
    ensures RewriteByGrid("A(A2B)3", 4, "((A)(((A(2") == RewriteByGrid("A(A2B)3", 6, "((A)(((A(2))(B))")
  {
    var line := "A(A2B)3";
    GridEmit(line, 4, "((A)(((A(2", Some('2'), "))(");
    assert "((A)(((A(2" + "))(" + [line[4]] == "((A)(((A(2))(B";
    GridEmit(line, 5, "((A)(((A(2))(B", Some('B'), ")");
    assert "((A)(((A(2))(B" + ")" + [line[5]] == "((A)(((A(2))(B))";
  }

  lemma ExampleGroupPart4()
    ensures RewriteByGrid("A(A2B)3", 6, "((A)(((A(2))(B))") == Success("((A)(((A(2))(B))(3)))")
  {
    var line := "A(A2B)3";
    GridEmit(line, 6, "((A)(((A(2))(B))", Some(')'), "(");
    assert "((A)(((A(2))(B))" + "(" + [line[6]] == "((A)(((A(2))(B))(3";
    GridEnd(line, "((A)(((A(2))(B))(3", Some('3'), ")))");
    assert "((A)(((A(2))(B))(3" + ")))" == "((A)(((A(2))(B))(3)))";
  }

  /** The example of the documentation for "A(A2B)3". */
  lemma ExampleGroup()
    ensures Preprocess("A(A2B)3") == Success("((A)(((A(2))(B))(3)))")
  {
    RewriteIsByGrid("A(A2B)3", 0, "");
    ExampleGroupPart1();
    ExampleGroupPart2();
    ExampleGroupPart3();
    ExampleGroupPart4();
  }

  lemma ExampleGroupAfterCountPart1()
    ensures RewriteByGrid("A2(AB)3", 0, "") == RewriteByGrid("A2(AB)3", 2, "((A(2")
  {
    var line := "A2(AB)3";
    GridEmit(line, 0, "", None, "((");
    assert "" + "((" + [line[0]] == "((A";
    GridEmit(line, 1, "((A", Some('A'), "(");
    assert "((A" + "(" + [line[1]] == "((A(2";
  }

  lemma ExampleGroupAfterCountPart2()
    ensures RewriteByGrid("A2(AB)3", 2, "((A(2") == RewriteByGrid("A2(AB)3", 4, "((A(2))(((A")
  {
    var line := "A2(AB)3";
    GridEmit(line, 2, "((A(2", Some('2'), "))(");
    assert "((A(2" + "))(" + [line[2]] == "((A(2))((";
    GridEmit(line, 3, "((A(2))((", Some('('), "(");
    assert "((A(2))((" + "(" + [line[3]] == "((A(2))(((A";
  }

  lemma ExampleGroupAfterCountPart3()
    ensures RewriteByGrid("A2(AB)3", 4, "((A(2))(((A") == RewriteByGrid("A2(AB)3", 6, "((A(2))(((A)(B))")
  {
    var line := "A2(AB)3";
    GridEmit(line, 4, "((A(2))(((A", Some('A'), ")(");
    assert "((A(2))(((A" + ")(" + [line[4]] == "((A(2))(((A)(B";
    GridEmit(line, 5, "((A(2))(((A)(B", Some('B'), ")");
    assert "((A(2))(((A)(B" + ")" + [line[5]] == "((A(2))(((A)(B))";
  }

  lemma ExampleGroupAfterCountPart4()
    ensures RewriteByGrid("A2(AB)3", 6, "((A(2))(((A)(B))") == Success("((A(2))(((A)(B))(3)))")
  {
    var line := "A2(AB)3";
    GridEmit(line, 6, "((A(2))(((A)(B))", Some(')'), "(");
    assert "((A(2))(((A)(B))" + "(" + [line[6]] == "((A(2))(((A)(B))(3";
    GridEnd(line, "((A(2))(((A)(B))(3", Some('3'), ")))");
    assert "((A(2))(((A)(B))(3" + ")))" == "((A(2))(((A)(B))(3)))";
  }

  /** The example of the documentation for "A2(AB)3". */
  lemma ExampleGroupAfterCount()
    ensures Preprocess("A2(AB)3") == Success("((A(2))(((A)(B))(3)))")
  {
    RewriteIsByGrid("A2(AB)3", 0, "");
    ExampleGroupAfterCountPart1();
    ExampleGroupAfterCountPart2();
    ExampleGroupAfterCountPart3();
    ExampleGroupAfterCountPart4();
  }

  lemma ExampleLowercasePart1()
    ensures RewriteByGrid("Ah1(AhB4)2B3", 0, "") == RewriteByGrid("Ah1(AhB4)2B3", 2, "((Ah")
  {
    var line := "Ah1(AhB4)2B3";
    GridEmit(line, 0, "", None, "((");
    assert "" + "((" + [line[0]] == "((A";
    GridEmit(line, 1, "((A", Some('A'), "");
    assert "((A" + "" + [line[1]] == "((Ah";
  }

  lemma ExampleLowercasePart2()
    ensures RewriteByGrid("Ah1(AhB4)2B3", 2, "((Ah") == RewriteByGrid("Ah1(AhB4)2B3", 4, "((Ah(1))((")
  {
    var line := "Ah1(AhB4)2B3";
    GridEmit(line, 2, "((Ah", Some('h'), "(");
    assert "((Ah" + "(" + [line[2]] == "((Ah(1";
    GridEmit(line, 3, "((Ah(1", Some('1'), "))(");
    assert "((Ah(1" + "))(" + [line[3]] == "((Ah(1))((";
  }

  lemma ExampleLowercasePart3()
    ensures RewriteByGrid("Ah1(AhB4)2B3", 4, "((Ah(1))((") == RewriteByGrid("Ah1(AhB4)2B3", 6, "((Ah(1))(((Ah")
  {
    var line := "Ah1(AhB4)2B3";
    GridEmit(line, 4, "((Ah(1))((", Some('('), "(");
    assert "((Ah(1))((" + "(" + [line[4]] == "((Ah(1))(((A";
    GridEmit(line, 5, "((Ah(1))(((A", Some('A'), "");
    assert "((Ah(1))(((A" + "" + [line[5]] == "((Ah(1))(((Ah";
  }

  lemma ExampleLowercasePart4()
    ensures RewriteByGrid("Ah1(AhB4)2B3", 6, "((Ah(1))(((Ah") == RewriteByGrid("Ah1(AhB4)2B3", 8, "((Ah(1))(((Ah)(B(4")
  {
    var line := "Ah1(AhB4)2B3";
    GridEmit(line, 6, "((Ah(1))(((Ah", Some('h'), ")(");
    assert "((Ah(1))(((Ah" + ")(" + [line[6]] == "((Ah(1))(((Ah)(B";
    GridEmit(line, 7, "((Ah(1))(((Ah)(B", Some('B'), "(");
    assert "((Ah(1))(((Ah)(B" + "(" + [line[7]] == "((Ah(1))(((Ah)(B(4";
  }

  lemma ExampleLowercasePart5()
    ensures RewriteByGrid("Ah1(AhB4)2B3", 8, "((Ah(1))(((Ah)(B(4") == RewriteByGrid("Ah1(AhB4)2B3", 10, "((Ah(1))(((Ah)(B(4)))(2")
  {
    var line := "Ah1(AhB4)2B3";
    GridEmit(line, 8, "((Ah(1))(((Ah)(B(4", Some('4'), "))");
    assert "((Ah(1))(((Ah)(B(4" + "))" + [line[8]] == "((Ah(1))(((Ah)(B(4)))";
    GridEmit(line, 9, "((Ah(1))(((Ah)(B(4)))", Some(')'), "(");
    assert "((Ah(1))(((Ah)(B(4)))" + "(" + [line[9]] == "((Ah(1))(((Ah)(B(4)))(2";
  }

  lemma ExampleLowercasePart6()
    ensures RewriteByGrid("Ah1(AhB4)2B3", 10, "((Ah(1))(((Ah)(B(4)))(2") == RewriteByGrid("Ah1(AhB4)2B3", 12, "((Ah(1))(((Ah)(B(4)))(2))(B(3")
  {
    var line := "Ah1(AhB4)2B3";
    GridEmit(line, 10, "((Ah(1))(((Ah)(B(4)))(2", Some('2'), "))(");
    assert "((Ah(1))(((Ah)(B(4)))(2" + "))(" + [line[10]] == "((Ah(1))(((Ah)(B(4)))(2))(B";
    GridEmit(line, 11, "((Ah(1))(((Ah)(B(4)))(2))(B", Some('B'), "(");
    assert "((Ah(1))(((Ah)(B(4)))(2))(B" + "(" + [line[11]] == "((Ah(1))(((Ah)(B(4)))(2))(B(3";
  }

  lemma ExampleLowercasePart7()
    ensures RewriteByGrid("Ah1(AhB4)2B3", 12, "((Ah(1))(((Ah)(B(4)))(2))(B(3") == Success("((Ah(1))(((Ah)(B(4)))(2))(B(3)))")
  {
    var line := "Ah1(AhB4)2B3";
    GridEnd(line, "((Ah(1))(((Ah)(B(4)))(2))(B(3", Some('3'), ")))");
    assert "((Ah(1))(((Ah)(B(4)))(2))(B(3" + ")))" == "((Ah(1))(((Ah)(B(4)))(2))(B(3)))";
  }

  /** The example of the documentation for "Ah1(AhB4)2B3". */
  lemma ExampleLowercase()
    ensures Preprocess("Ah1(AhB4)2B3") == Success("((Ah(1))(((Ah)(B(4)))(2))(B(3)))")
  {
    RewriteIsByGrid("Ah1(AhB4)2B3", 0, "");
    ExampleLowercasePart1();
    ExampleLowercasePart2();
    ExampleLowercasePart3();
    ExampleLowercasePart4();
    ExampleLowercasePart5();
    ExampleLowercasePart6();
    ExampleLowercasePart7();
  }

  lemma ExampleEquationPart1()
    ensures RewriteByGrid("NH3 + O2 = H2NO3", 0, "") == RewriteByGrid("NH3 + O2 = H2NO3", 2, "((N)(H")
  {
    var line := "NH3 + O2 = H2NO3";
    GridEmit(line, 0, "", None, "((");
    assert "" + "((" + [line[0]] == "((N";
    GridEmit(line, 1, "((N", Some('N'), ")(");
    assert "((N" + ")(" + [line[1]] == "((N)(H";
  }

  lemma ExampleEquationPart2()
    ensures RewriteByGrid("NH3 + O2 = H2NO3", 2, "((N)(H") == RewriteByGrid("NH3 + O2 = H2NO3", 4, "((N)(H(3")
  {
    var line := "NH3 + O2 = H2NO3";
    GridEmit(line, 2, "((N)(H", Some('H'), "(");
    assert "((N)(H" + "(" + [line[2]] == "((N)(H(3";
    GridSpace(line, 3, "((N)(H(3");
  }

  lemma ExampleEquationPart3()
    ensures RewriteByGrid("NH3 + O2 = H2NO3", 4, "((N)(H(3") == RewriteByGrid("NH3 + O2 = H2NO3", 6, "((N)(H(3)))+")
  {
    var line := "NH3 + O2 = H2NO3";
    GridEmit(line, 4, "((N)(H(3", Some('3'), ")))");
    assert "((N)(H(3" + ")))" + [line[4]] == "((N)(H(3)))+";
    GridSpace(line, 5, "((N)(H(3)))+");
  }

  lemma ExampleEquationPart4()
    ensures RewriteByGrid("NH3 + O2 = H2NO3", 6, "((N)(H(3)))+") == RewriteByGrid("NH3 + O2 = H2NO3", 8, "((N)(H(3)))+((O(2")
  {
    var line := "NH3 + O2 = H2NO3";
    GridEmit(line, 6, "((N)(H(3)))+", Some('+'), "((");
    assert "((N)(H(3)))+" + "((" + [line[6]] == "((N)(H(3)))+((O";
    GridEmit(line, 7, "((N)(H(3)))+((O", Some('O'), "(");
    assert "((N)(H(3)))+((O" + "(" + [line[7]] == "((N)(H(3)))+((O(2";
  }

  lemma ExampleEquationPart5()
    ensures RewriteByGrid("NH3 + O2 = H2NO3", 8, "((N)(H(3)))+((O(2") == RewriteByGrid("NH3 + O2 = H2NO3", 10, "((N)(H(3)))+((O(2)))=")
  {
    var line := "NH3 + O2 = H2NO3";
    GridSpace(line, 8, "((N)(H(3)))+((O(2");
    GridEmit(line, 9, "((N)(H(3)))+((O(2", Some('2'), ")))");
    assert "((N)(H(3)))+((O(2" + ")))" + [line[9]] == "((N)(H(3)))+((O(2)))=";
  }

  lemma ExampleEquationPart6()
    ensures RewriteByGrid("NH3 + O2 = H2NO3", 10, "((N)(H(3)))+((O(2)))=") == RewriteByGrid("NH3 + O2 = H2NO3", 12, "((N)(H(3)))+((O(2)))=((H")
  {
    var line := "NH3 + O2 = H2NO3";
    GridSpace(line, 10, "((N)(H(3)))+((O(2)))=");
    GridEmit(line, 11, "((N)(H(3)))+((O(2)))=", Some('='), "((");
    assert "((N)(H(3)))+((O(2)))=" + "((" + [line[11]] == "((N)(H(3)))+((O(2)))=((H";
  }

  lemma ExampleEquationPart7()
    ensures RewriteByGrid("NH3 + O2 = H2NO3", 12, "((N)(H(3)))+((O(2)))=((H") == RewriteByGrid("NH3 + O2 = H2NO3", 14, "((N)(H(3)))+((O(2)))=((H(2))(N")
  {
    var line := "NH3 + O2 = H2NO3";
    GridEmit(line, 12, "((N)(H(3)))+((O(2)))=((H", Some('H'), "(");
    assert "((N)(H(3)))+((O(2)))=((H" + "(" + [line[12]] == "((N)(H(3)))+((O(2)))=((H(2";
    GridEmit(line, 13, "((N)(H(3)))+((O(2)))=((H(2", Some('2'), "))(");
    assert "((N)(H(3)))+((O(2)))=((H(2" + "))(" + [line[13]] == "((N)(H(3)))+((O(2)))=((H(2))(N";
  }

  lemma ExampleEquationPart8()
    ensures RewriteByGrid("NH3 + O2 = H2NO3", 14, "((N)(H(3)))+((O(2)))=((H(2))(N") == RewriteByGrid("NH3 + O2 = H2NO3", 16, "((N)(H(3)))+((O(2)))=((H(2))(N)(O(3")
  {
    var line := "NH3 + O2 = H2NO3";
    GridEmit(line, 14, "((N)(H(3)))+((O(2)))=((H(2))(N", Some('N'), ")(");
    assert "((N)(H(3)))+((O(2)))=((H(2))(N" + ")(" + [line[14]] == "((N)(H(3)))+((O(2)))=((H(2))(N)(O";
    GridEmit(line, 15, "((N)(H(3)))+((O(2)))=((H(2))(N)(O", Some('O'), "(");
    assert "((N)(H(3)))+((O(2)))=((H(2))(N)(O" + "(" + [line[15]] == "((N)(H(3)))+((O(2)))=((H(2))(N)(O(3";
  }

  lemma ExampleEquationPart9()
    ensures RewriteByGrid("NH3 + O2 = H2NO3", 16, "((N)(H(3)))+((O(2)))=((H(2))(N)(O(3") == Success("((N)(H(3)))+((O(2)))=((H(2))(N)(O(3)))")
  {
    var line := "NH3 + O2 = H2NO3";
    GridEnd(line, "((N)(H(3)))+((O(2)))=((H(2))(N)(O(3", Some('3'), ")))");
    assert "((N)(H(3)))+((O(2)))=((H(2))(N)(O(3" + ")))" == "((N)(H(3)))+((O(2)))=((H(2))(N)(O(3)))";
  }

  /** The example of the documentation for "NH3 + O2 = H2NO3". */
  lemma ExampleEquation()
    ensures Preprocess("NH3 + O2 = H2NO3") == Success("((N)(H(3)))+((O(2)))=((H(2))(N)(O(3)))")
  {
    RewriteIsByGrid("NH3 + O2 = H2NO3", 0, "");
    ExampleEquationPart1();
    ExampleEquationPart2();
    ExampleEquationPart3();
    ExampleEquationPart4();
    ExampleEquationPart5();
    ExampleEquationPart6();
    ExampleEquationPart7();
    ExampleEquationPart8();
    ExampleEquationPart9();
  }

  lemma ExampleUnclosedPart1()
    ensures RewriteByGrid("(A", 0, "") == RewriteByGrid("(A", 2, "((((A")
  {
    var line := "(A";
    GridEmit(line, 0, "", None, "((");
    assert "" + "((" + [line[0]] == "(((";
    GridEmit(line, 1, "(((", Some('('), "(");
    assert "(((" + "(" + [line[1]] == "((((A";
  }

  lemma ExampleUnclosedPart2()
    ensures RewriteByGrid("(A", 2, "((((A") == Success("((((A))")
  {
    var line := "(A";
    GridEnd(line, "((((A", Some('A'), "))");
    assert "((((A" + "))" == "((((A))";
  }

  /** An unclosed group: the rewrite balances only the groups it opens. */
  lemma ExampleUnclosed()
    ensures Preprocess("(A") == Success("((((A))")
  {
    RewriteIsByGrid("(A", 0, "");
    ExampleUnclosedPart1();
    ExampleUnclosedPart2();
  }
}
