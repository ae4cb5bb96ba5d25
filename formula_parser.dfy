/** The state machine of `parseeq` (parseeq.py:131-253), written as
    functions: a jump list chooses the next state from the current state and
    input, and the action of that state updates the stack of open groups,
    the list of finished molecules and the side of the equation.  The
    imperative form, with the same fields updated in place, is
    `ParserMachine.Parser`; it is proved to compute `Parse`. */
module FormulaParser {
  import opened Outcome
  import opened CharClasses
  import opened Counts

  datatype Phase = New | Push | Merge | Write

  /** The second column of the jump list: `None` matches only the missing
      input before the first character, `True` matches every input, and a
      string matches the characters in it. */
  datatype InputPat = NoInput | AnyInput | AnyOf(chars: CharSet)

  /** One row of the jump list; `to == None` is the invalid jump. */
  datatype Jump = Jump(from: Option<Phase>, input: InputPat, to: Option<Phase>)

  datatype Jumps = Stop | Then(first: Jump, rest: Jumps)

  /** The jump list of parseeq.py:152-166, top to bottom. */
  function JumpList(): Jumps {
    Then(Jump(None, NoInput, Some(New)),
    Then(Jump(Some(New), AnyOf(OpenParen), Some(Push)),
    Then(Jump(Some(Push), AnyOf(OpenParen), Some(Push)),
    Then(Jump(Some(Push), AnyOf(CloseParen), Some(Merge)),
    Then(Jump(Some(Push), AnyOf(Separators), None),
    Then(Jump(Some(Push), AnyInput, Some(Write)),
    Then(Jump(Some(Write), AnyOf(OpenParen), Some(Push)),
    Then(Jump(Some(Write), AnyOf(CloseParen), Some(Merge)),
    Then(Jump(Some(Write), AnyOf(Separators), None),
    Then(Jump(Some(Write), AnyInput, Some(Write)),
    Then(Jump(Some(Merge), AnyOf(OpenParen), Some(Push)),
    Then(Jump(Some(Merge), AnyOf(CloseParen), Some(Merge)),
    Then(Jump(Some(Merge), AnyOf(Separators), Some(New)),
    Stop)))))))))))))
  }

  predicate InputMatches(p: InputPat, x: Option<char>) {
    match p
    case NoInput => x.None?
    case AnyInput => true
    case AnyOf(cs) => x.Some? && x.value in Chars(cs)
  }

  /** The first row for state `s` and input `x`: `None` when no row matches
      (the `for ... else` error), `Some(to)` otherwise. */
  function FirstJump(jumps: Jumps, s: Option<Phase>, x: Option<char>): Option<Option<Phase>>
    decreases jumps
  {
    match jumps
    case Stop => None
    case Then(j, rest) =>
      if j.from == s && InputMatches(j.input, x) then Some(j.to) else FirstJump(rest, s, x)
  }

  /** A group being read: a symbol or count still being written, or the
      counts of a finished (or freshly opened) group. */
  datatype Slot = Text(text: string) | Group(counts: Counts)

  /** The variables of `parseeq`: the stack, the finished molecules, the side
      (`1` before `=`, `-1` after) and the state. */
  datatype Config = Config(stack: seq<Slot>, results: seq<Counts>, side: int, state: Option<Phase>)

  /** The stack with its top replaced. */
  function WithTop(stack: seq<Slot>, top: Slot): seq<Slot>
    requires |stack| > 0
  {
    stack[..|stack| - 1] + [top]
  }

  /** `action_new`: a `+` or `=` ends a molecule and is only allowed when no
      group is open; `=` switches to the right-hand side; the missing first
      input creates the empty stack. */
  function NewAction(c: Config, i: nat, x: Option<char>): Result<Config> {
    if x == Some('=') then
      if |c.stack| > 0 then Failure(ErrorAt(i)) else Success(c.(side := -1))
    else if x == Some('+') then
      if |c.stack| > 0 then Failure(ErrorAt(i)) else Success(c)
    else if x.None? then
      Success(c.(stack := []))
    else
      Failure(ErrorAt(i))
  }

  /** `action_push`: `(` opens a new, empty group. */
  function PushAction(c: Config, i: nat, x: char): Result<Config> {
    if x != '(' then Failure(ErrorAt(i))
    else Success(c.(stack := c.stack + [Group(map[])]))
  }

  /** `action_write`: a character is appended to the text on top, or starts
      it when the top is a freshly opened group. */
  function WriteAction(c: Config, i: nat, x: char): Result<Config> {
    if |c.stack| == 0 then Failure(EmptyStack)
    else
      match c.stack[|c.stack| - 1]
      case Group(m) =>
        if |m| > 0 then Failure(ErrorAt(i))
        else Success(c.(stack := WithTop(c.stack, Text([x]))))
      case Text(t) =>
        Success(c.(stack := WithTop(c.stack, Text(t + [x]))))
  }

  /** `float(a)` for a text of digits and dots: integers only; a text with a
      decimal point is not modelled. */
  function CountOf(a: string): Option<nat> {
    if IsDigits(a) then Some(DigitsValue(a)) else None
  }

  /** `float(str(n)) == n`: a count written in decimal is read back as
      itself, through the branch of `action_merge` for counts. */
  lemma CountRoundTrip(n: nat)
    ensures IsDigitDotText(NatDigits(n))
    ensures CountOf(NatDigits(n)) == Some(n)
  {
    DigitsRoundTrip(n);
  }

  /** `action_merge`: `)` closes the top group, in the four cases of the
      source, tried in order. */
  function MergeAction(c: Config, i: nat, x: char): Result<Config> {
    var s := c.stack;
    var n := |s|;
    if x != ')' then Failure(ErrorAt(i))
    else if n == 1 && s[0].Group? then
      // the outermost group is a finished molecule
      Success(c.(stack := [], results := c.results + [s[0].counts]))
    else if n >= 2 && s[n - 1].Text? && s[n - 2].Text?
         && IsDigitDotText(s[n - 1].text) && IsAlphaText(s[n - 2].text) then
      // a symbol followed by its count
      match CountOf(s[n - 1].text)
      case None => Failure(DecimalCount(i))
      case Some(num) => Success(c.(stack := s[..n - 2] + [Group(map[s[n - 2].text := num * c.side])]))
    else if n >= 2 && s[n - 1].Text? && s[n - 2].Group? then
      var a := s[n - 1].text;
      var m := s[n - 2].counts;
      if IsDigitDotText(a) then
        // a count multiplying the group below
        match CountOf(a)
        case None => Failure(DecimalCount(i))
        case Some(num) => Success(c.(stack := s[..n - 2] + [Group(Scale(m, num))]))
      else
        // a symbol without a count: one more of it, on this side
        Success(c.(stack := s[..n - 2] + [Group(Bump(m, a, c.side))]))
    else if n >= 2 && s[n - 1].Group? && s[n - 2].Group? then
      // a closed subgroup merged into its parent
      Success(c.(stack := s[..n - 2] + [Group(AddInto(s[n - 2].counts, s[n - 1].counts))]))
    else
      Failure(ErrorAt(i))
  }

  /** The action of the state just entered, on a character. */
  function Act(p: Phase, c: Config, i: nat, x: char): Result<Config> {
    match p
    case New => NewAction(c, i, Some(x))
    case Push => PushAction(c, i, x)
    case Write => WriteAction(c, i, x)
    case Merge => MergeAction(c, i, x)
  }

  /** One turn of the main loop on the character `x` at position `i`: find
      the jump, enter its state, run its action. */
  function Step(c: Config, i: nat, x: char): Result<Config> {
    match FirstJump(JumpList(), c.state, Some(x))
    case None => Failure(ErrorAt(i))
    case Some(None) => Failure(NoAction)
    case Some(Some(p)) => Act(p, c.(state := Some(p)), i, x)
  }

  /** The variables before the loop.  The source starts the stack as `None`;
      nothing reads it before the first action replaces it by `[]`. */
  function Initial(): Config {
    Config([], [], 1, None)
  }

  /** The first turn, on the missing input at position 0: the first row of
      the jump list leads to `New`, whose action creates the empty stack
      (`StartJump` proves that this is the row the search finds). */
  function Start(): Result<Config> {
    NewAction(Initial().(state := Some(New)), 0, None)
  }

  /** The variables after the turns on every character of `line`; character
      `line[k]` is input `k + 1`. */
  function Run(line: string): Result<Config>
    decreases |line|
  {
    if |line| == 0 then Start()
    else
      match Run(line[..|line| - 1])
      case Failure(e) => Failure(e)
      case Success(c) => Step(c, |line|, line[|line| - 1])
  }

  /** `parseeq(line)`: the finished molecules, whatever is left open. */
  function Parse(line: string): Result<seq<Counts>> {
    match Run(line)
    case Failure(e) => Failure(e)
    case Success(c) => Success(c.results)
  }

  /** The turn on input `i` (character `line[i - 1]`) extends the run over
      the characters before it. */
  lemma RunTurn(line: string, i: nat)
    requires 1 <= i <= |line|
    ensures Run(line[..i]) ==
      match Run(line[..i - 1])
      case Failure(e) => Failure(e)
      case Success(c) => Step(c, i, line[i - 1])
  {
    assert line[..i][..i - 1] == line[..i - 1];
  }

  /** An error ends the loop: once a prefix fails, the whole line fails with
      the same error. */
  lemma {:induction false} FailureIsFinal(line: string, k: nat)
    requires k <= |line| && Run(line[..k]).Failure?
    ensures Run(line) == Run(line[..k])
    ensures Parse(line) == Failure(Run(line[..k]).error)
    decreases |line| - k
  {
    if k == |line| {
      assert line[..k] == line;
    } else {
      RunTurn(line, k + 1);
      FailureIsFinal(line, k + 1);
    }
  }

  /** The turns from input `k + 1` on, starting from the variables `c`. */
  function RunFrom(c: Config, line: string, k: nat): Result<Config>
    requires k <= |line|
    decreases |line| - k
  {
    if k == |line| then Success(c)
    else
      match Step(c, k + 1, line[k])
      case Failure(e) => Failure(e)
      case Success(d) => RunFrom(d, line, k + 1)
  }

  /** The run over a line is the run over its first `k` characters followed
      by the turns on the rest. */
  lemma {:induction false} RunByTurns(line: string, k: nat)
    requires k <= |line|
    ensures Run(line) ==
      match Run(line[..k])
      case Failure(e) => Failure(e)
      case Success(c) => RunFrom(c, line, k)
    decreases |line| - k
  {
    if k == |line| {
      assert line[..k] == line;
    } else {
      RunTurn(line, k + 1);
      RunByTurns(line, k + 1);
    }
  }
}
