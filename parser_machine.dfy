/** `parseeq` as the source runs it: the stack, the finished molecules, the
    side and the state are variables that the jump search and the four
    actions update in place.  `ParseEq` is proved to compute
    `FormulaParser.Parse`. */
module ParserMachine {
  import opened Outcome
  import opened CharClasses
  import opened Counts
  import opened FormulaParser
  import JumpTable

  /** A turn that either failed with an error (the variables are then of no
      further interest) or left the variables `c`. */
  function Settle(failure: Option<Error>, c: Config): Result<Config> {
    match failure
    case Some(e) => Failure(e)
    case None => Success(c)
  }

  class Parser {
    var stack: seq<Slot>
    var results: seq<Counts>
    var side: int
    var state: Option<Phase>

    function Snapshot(): Config
      reads this
    {
      Config(stack, results, side, state)
    }

    constructor ()
      ensures Snapshot() == Initial()
    {
      stack := [];
      results := [];
      side := 1;
      state := None;
    }

    /** The search of the jump list, top to bottom, with the `for ... else`
        of the source as the `None` result. */
    method FindJump(x: Option<char>) returns (jump: Option<Option<Phase>>)
      ensures jump == FirstJump(JumpList(), state, x)
    {
      var rows := JumpList();
      while rows.Then?
        invariant FirstJump(rows, state, x) == FirstJump(JumpList(), state, x)
        decreases rows
      {
        var row := rows.first;
        if row.from == state && InputMatches(row.input, x) {
          return Some(row.to);
        }
        rows := rows.rest;
      }
      return None;
    }

    method ActionNew(i: nat, x: Option<char>) returns (failure: Option<Error>)
      modifies this
      ensures Settle(failure, Snapshot()) == NewAction(old(Snapshot()), i, x)
    {
      if x == Some('=') {
        side := -1;
        if |stack| > 0 {
          return Some(ErrorAt(i));
        }
      } else if x == Some('+') {
        if |stack| > 0 {
          return Some(ErrorAt(i));
        }
      } else if x.None? {
        stack := [];
      } else {
        return Some(ErrorAt(i));
      }
      return None;
    }

    method ActionPush(i: nat, x: char) returns (failure: Option<Error>)
      modifies this
      ensures Settle(failure, Snapshot()) == PushAction(old(Snapshot()), i, x)
    {
      if x != '(' {
        return Some(ErrorAt(i));
      }
      stack := stack + [Group(map[])];
      return None;
    }

    method ActionWrite(i: nat, x: char) returns (failure: Option<Error>)
      modifies this
      ensures Settle(failure, Snapshot()) == WriteAction(old(Snapshot()), i, x)
    {
      if |stack| == 0 {
        return Some(EmptyStack);
      }
      var top := stack[|stack| - 1];
      if top.Group? {
        if |top.counts| > 0 {
          return Some(ErrorAt(i));
        }
        stack := WithTop(stack, Text([x]));
      } else {
        stack := WithTop(stack, Text(top.text + [x]));
      }
      return None;
    }

    method ActionMerge(i: nat, x: char) returns (failure: Option<Error>)
      modifies this
      ensures Settle(failure, Snapshot()) == MergeAction(old(Snapshot()), i, x)
    {
      var n := |stack|;
      if x != ')' {
        return Some(ErrorAt(i));
      }
      if n == 1 && stack[0].Group? {
        results := results + [stack[0].counts];
        stack := [];
      } else if n >= 2 && stack[n - 1].Text? && stack[n - 2].Text?
             && IsDigitDotText(stack[n - 1].text) && IsAlphaText(stack[n - 2].text) {
        var num := CountOf(stack[n - 1].text);
        if num.None? {
          return Some(DecimalCount(i));
        }
        stack := stack[..n - 2] + [Group(map[stack[n - 2].text := num.value * side])];
      } else if n >= 2 && stack[n - 1].Text? && stack[n - 2].Group? {
        var a := stack[n - 1].text;
        var m := stack[n - 2].counts;
        if IsDigitDotText(a) {
          var num := CountOf(a);
          if num.None? {
            return Some(DecimalCount(i));
          }
          m := ScaleCounts(m, num.value);
        } else {
          if a !in m {
            m := m[a := 0];
          }
          m := m[a := m[a] + side];
          assert m == Bump(stack[n - 2].counts, a, side);
        }
        stack := stack[..n - 2] + [Group(m)];
      } else if n >= 2 && stack[n - 1].Group? && stack[n - 2].Group? {
        var m := AddCounts(stack[n - 2].counts, stack[n - 1].counts);
        stack := stack[..n - 2] + [Group(m)];
      } else {
        return Some(ErrorAt(i));
      }
      return None;
    }

    /** One turn of the main loop on a character: the jump search, then the
        action of the state it leads to. */
    method Turn(i: nat, x: char) returns (failure: Option<Error>)
      modifies this
      ensures Settle(failure, Snapshot()) == Step(old(Snapshot()), i, x)
    {
      var jump := FindJump(Some(x));
      if jump.None? {
        return Some(ErrorAt(i));
      }
      state := jump.value;
      if state.None? {
        return Some(NoAction);
      }
      match state.value
      case New => failure := ActionNew(i, Some(x));
      case Push => failure := ActionPush(i, x);
      case Write => failure := ActionWrite(i, x);
      case Merge => failure := ActionMerge(i, x);
    }
  }

  /** `parseeq(line)`: the first turn on the missing input, then one turn per
      character; an error ends the loop. */
  method ParseEq(line: string) returns (r: Result<seq<Counts>>)
    ensures r == Parse(line)
  {
    var p := new Parser();
    // the first turn, on the missing input at position 0
    var jump := p.FindJump(None);
    JumpTable.StartJump();
    p.state := jump.value;
    var failure := p.ActionNew(0, None);
    // on the missing input `action_new` only creates the empty stack
    assert failure.None?;
    var i := 1;
    while i <= |line|
      invariant 1 <= i <= |line| + 1
      invariant Run(line[..i - 1]) == Success(p.Snapshot())
      decreases |line| + 1 - i
    {
      RunTurn(line, i);
      failure := p.Turn(i, line[i - 1]);
      if failure.Some? {
        FailureIsFinal(line, i);
        return Failure(failure.value);
      }
      i := i + 1;
    }
    assert line[..|line|] == line;
    return Success(p.results);
  }
}
