/** The jump list of `parseeq` read as a table from state and kind of input
    to the next state, and the proof that the first-match search over the
    list agrees with it. */
module JumpTable {
  import opened Outcome
  import opened CharClasses
  import opened FormulaParser

  /** What the jump list can tell apart about an input. */
  datatype InputKind = NoChar | OpenChar | CloseChar | SeparatorChar | OtherChar

  function InputKindOf(x: Option<char>): InputKind {
    match x
    case None => NoChar
    case Some(ch) =>
      if ch == '(' then OpenChar
      else if ch == ')' then CloseChar
      else if ch == '+' || ch == '=' then SeparatorChar
      else OtherChar
  }

  predicate Admits(p: InputPat, k: InputKind) {
    match p
    case NoInput => k == NoChar
    case AnyInput => true
    case AnyOf(cs) =>
      match cs
      case OpenParen => k == OpenChar
      case CloseParen => k == CloseChar
      case Parens => k == OpenChar || k == CloseChar
      case Separators => k == SeparatorChar
  }

  /** Whether a pattern matches an input depends only on its kind. */
  lemma MatchesByKind(p: InputPat, x: Option<char>)
    ensures InputMatches(p, x) == Admits(p, InputKindOf(x))
  {
  }

  function FirstJumpKind(jumps: Jumps, s: Option<Phase>, k: InputKind): Option<Option<Phase>>
    decreases jumps
  {
    match jumps
    case Stop => None
    case Then(j, rest) =>
      if j.from == s && Admits(j.input, k) then Some(j.to) else FirstJumpKind(rest, s, k)
  }

  lemma {:induction false} FirstJumpByKind(jumps: Jumps, s: Option<Phase>, x: Option<char>)
    ensures FirstJump(jumps, s, x) == FirstJumpKind(jumps, s, InputKindOf(x))
    decreases jumps
  {
    match jumps
    case Stop =>
    case Then(j, rest) =>
      MatchesByKind(j.input, x);
      FirstJumpByKind(rest, s, x);
  }

  /** The jump list as a table: `None` where no row matches, `Some(None)`
      where the row is the invalid jump. */
  function Transition(s: Option<Phase>, k: InputKind): Option<Option<Phase>> {
    match s
    case None => if k == NoChar then Some(Some(New)) else None
    case Some(New) => if k == OpenChar then Some(Some(Push)) else None
    case Some(Push) => WithinGroup(k)
    case Some(Write) => WithinGroup(k)
    case Some(Merge) =>
      match k
      case OpenChar => Some(Some(Push))
      case CloseChar => Some(Some(Merge))
      case SeparatorChar => Some(Some(New))
      case _ => None
  }

  /** The rows of `PUSH` and `WRITE`, which are the same. */
  function WithinGroup(k: InputKind): Option<Option<Phase>> {
    match k
    case OpenChar => Some(Some(Push))
    case CloseChar => Some(Some(Merge))
    case SeparatorChar => Some(None)
    case _ => Some(Some(Write))
  }

  lemma JumpsFromNone(k: InputKind)
    ensures FirstJumpKind(JumpList(), None, k) == Transition(None, k)
  {
    match k
    case NoChar =>
    case OpenChar =>
    case CloseChar =>
    case SeparatorChar =>
    case OtherChar =>
  }

  lemma JumpsFromNew(k: InputKind)
    ensures FirstJumpKind(JumpList(), Some(New), k) == Transition(Some(New), k)
  {
    match k
    case NoChar =>
    case OpenChar =>
    case CloseChar =>
    case SeparatorChar =>
    case OtherChar =>
  }

  lemma JumpsFromPush(k: InputKind)
    ensures FirstJumpKind(JumpList(), Some(Push), k) == Transition(Some(Push), k)
  {
    match k
    case NoChar =>
    case OpenChar =>
    case CloseChar =>
    case SeparatorChar =>
    case OtherChar =>
  }

  lemma JumpsFromWrite(k: InputKind)
    ensures FirstJumpKind(JumpList(), Some(Write), k) == Transition(Some(Write), k)
  {
    match k
    case NoChar =>
    case OpenChar =>
    case CloseChar =>
    case SeparatorChar =>
    case OtherChar =>
  }

  lemma JumpsFromMerge(k: InputKind)
    ensures FirstJumpKind(JumpList(), Some(Merge), k) == Transition(Some(Merge), k)
  {
    match k
    case NoChar =>
    case OpenChar =>
    case CloseChar =>
    case SeparatorChar =>
    case OtherChar =>
  }

  /** The search over the jump list finds exactly the table's entry. */
  lemma JumpsAgree(s: Option<Phase>, x: Option<char>)
    ensures FirstJump(JumpList(), s, x) == Transition(s, InputKindOf(x))
  {
    FirstJumpByKind(JumpList(), s, x);
    var k := InputKindOf(x);
    match s
    case None => JumpsFromNone(k);
    case Some(New) => JumpsFromNew(k);
    case Some(Push) => JumpsFromPush(k);
    case Some(Write) => JumpsFromWrite(k);
    case Some(Merge) => JumpsFromMerge(k);
  }

  /** The first turn: the missing input in no state jumps to `New`, which is
      how `Start` begins. */
  lemma StartJump()
    ensures FirstJump(JumpList(), None, None) == Some(Some(New))
  {
    JumpsAgree(None, None);
  }

  /** One turn on a character, by the table. */
  lemma StepByTable(c: Config, i: nat, x: char)
    ensures Step(c, i, x) ==
      match Transition(c.state, InputKindOf(Some(x)))
      case None => Failure(ErrorAt(i))
      case Some(None) => Failure(NoAction)
      case Some(Some(p)) => Act(p, c.(state := Some(p)), i, x)
  {
    JumpsAgree(c.state, Some(x));
  }
}
