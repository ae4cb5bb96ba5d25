/** Worked runs of `parseeq` on preprocessed lines, turn by turn: each
    turn is one evaluation of `Step`, and the run chains them. */
module ParserExamples {
  import opened Outcome
  import opened CharClasses
  import opened Counts
  import opened FormulaParser
  import opened JumpTable
  import opened Rewriter

  /** A character with no jump of its own: it is written into the text on top. */
  predicate Plain(x: char) {
    x != '(' && x != ')' && x != '+' && x != '='
  }

  /** `(` opens a group, from any state but the first. */
  lemma OpenGroup(c: Config, i: nat)
    requires c.state.Some?
    ensures Step(c, i, '(') == Success(c.(stack := c.stack + [Group(map[])], state := Some(Push)))
  {
    StepByTable(c, i, '(');
  }

  /** A plain character right after `(` starts a text. */
  lemma StartText(c: Config, i: nat, rest: seq<Slot>, x: char)
    requires c.state == Some(Push) && c.stack == rest + [Group(map[])] && Plain(x)
    ensures Step(c, i, x) == Success(c.(stack := rest + [Text([x])], state := Some(Write)))
  {
    StepByTable(c, i, x);
    assert c.stack[..|c.stack| - 1] == rest;
  }

  /** A plain character after a text extends it. */
  lemma ExtendText(c: Config, i: nat, rest: seq<Slot>, t: string, x: char)
    requires c.state == Some(Write) && c.stack == rest + [Text(t)] && Plain(x)
    ensures Step(c, i, x) == Success(c.(stack := rest + [Text(t + [x])], state := Some(Write)))
  {
    StepByTable(c, i, x);
    assert c.stack[..|c.stack| - 1] == rest;
  }

  /** `)` closing the outermost group finishes a molecule. */
  lemma CloseMolecule(c: Config, i: nat, m: Counts)
    requires c.state == Some(Merge) && c.stack == [Group(m)]
    ensures Step(c, i, ')') == Success(c.(stack := [], results := c.results + [m], state := Some(Merge)))
  {
    StepByTable(c, i, ')');
  }

  /** `)` closing a subgroup merges it into its parent. */
  lemma CloseSubgroup(c: Config, i: nat, rest: seq<Slot>, p: Counts, m: Counts)
    requires c.state == Some(Merge) && c.stack == rest + [Group(p), Group(m)]
    ensures Step(c, i, ')') == Success(c.(stack := rest + [Group(AddInto(p, m))], state := Some(Merge)))
  {
    StepByTable(c, i, ')');
    assert c.stack[..|c.stack| - 2] == rest;
  }

  /** `)` after a symbol and its count makes a one-symbol group. */
  lemma CloseCount(c: Config, i: nat, rest: seq<Slot>, a: string, n: string, v: nat)
    requires c.state == Some(Write) && c.stack == rest + [Text(a), Text(n)]
    requires IsAlphaText(a) && IsDigitDotText(n) && CountOf(n) == Some(v)
    ensures Step(c, i, ')') == Success(c.(stack := rest + [Group(map[a := v * c.side])], state := Some(Merge)))
  {
    StepByTable(c, i, ')');
    assert c.stack[..|c.stack| - 2] == rest;
  }

  /** `)` after a symbol without a count, inside a group. */
  lemma MergeSymbol(c: Config, i: nat, rest: seq<Slot>, m: Counts, a: string)
    requires c.state == Some(Write) && c.stack == rest + [Group(m), Text(a)]
    requires |a| > 0 && IsUpper(a[0])
    ensures Step(c, i, ')') == Success(c.(stack := rest + [Group(Bump(m, a, c.side))], state := Some(Merge)))
  {
    assert !IsDigitDot(a[0]);
    StepByTable(c, i, ')');
    assert c.stack[..|c.stack| - 2] == rest;
  }

  /** A separator between molecules; `=` switches to the right-hand side. */
  lemma Separator(c: Config, i: nat, x: char)
    requires c.state == Some(Merge) && c.stack == [] && (x == '+' || x == '=')
    ensures Step(c, i, x) == Success(c.(side := if x == '=' then -1 else c.side, state := Some(New)))
  {
    StepByTable(c, i, x);
  }

  lemma ParseEquationTurn1(line: string)
    requires 0 < |line| && line[0] == '('
    ensures RunFrom(Config([], [], 1, Some(New)), line, 0) == RunFrom(Config([Group(map[])], [], 1, Some(Push)), line, 1)
  {
    OpenGroup(Config([], [], 1, Some(New)), 1);
    assert [] + [Group(map[])] == [Group(map[])];
  }

  lemma ParseEquationTurn2(line: string)
    requires 1 < |line| && line[1] == '('
    ensures RunFrom(Config([Group(map[])], [], 1, Some(Push)), line, 1) == RunFrom(Config([Group(map[]), Group(map[])], [], 1, Some(Push)), line, 2)
  {
    OpenGroup(Config([Group(map[])], [], 1, Some(Push)), 2);
    assert [Group(map[])] + [Group(map[])] == [Group(map[]), Group(map[])];
  }

  lemma ParseEquationTurn3(line: string)
    requires 2 < |line| && line[2] == 'N'
    ensures RunFrom(Config([Group(map[]), Group(map[])], [], 1, Some(Push)), line, 2) == RunFrom(Config([Group(map[]), Text("N")], [], 1, Some(Write)), line, 3)
  {
    assert [Group(map[]), Group(map[])] == [Group(map[])] + [Group(map[])];
    StartText(Config([Group(map[]), Group(map[])], [], 1, Some(Push)), 3, [Group(map[])], 'N');
    assert [Group(map[])] + [Text("N")] == [Group(map[]), Text("N")];
  }

  lemma ParseEquationTurn4(line: string)
    requires 3 < |line| && line[3] == ')'
    ensures RunFrom(Config([Group(map[]), Text("N")], [], 1, Some(Write)), line, 3) == RunFrom(Config([Group(map["N" := 1])], [], 1, Some(Merge)), line, 4)
  {
    assert [Group(map[]), Text("N")] == [] + [Group(map[]), Text("N")];
    MergeSymbol(Config([Group(map[]), Text("N")], [], 1, Some(Write)), 4, [], map[], "N");
    assert Bump(map[], "N", 1) == map["N" := 1];
    assert [] + [Group(map["N" := 1])] == [Group(map["N" := 1])];
  }

  lemma ParseEquationTurn5(line: string)
    requires 4 < |line| && line[4] == '('
    ensures RunFrom(Config([Group(map["N" := 1])], [], 1, Some(Merge)), line, 4) == RunFrom(Config([Group(map["N" := 1]), Group(map[])], [], 1, Some(Push)), line, 5)
  {
    OpenGroup(Config([Group(map["N" := 1])], [], 1, Some(Merge)), 5);
    assert [Group(map["N" := 1])] + [Group(map[])] == [Group(map["N" := 1]), Group(map[])];
  }

  lemma ParseEquationTurn6(line: string)
    requires 5 < |line| && line[5] == 'H'
    ensures RunFrom(Config([Group(map["N" := 1]), Group(map[])], [], 1, Some(Push)), line, 5) == RunFrom(Config([Group(map["N" := 1]), Text("H")], [], 1, Some(Write)), line, 6)
  {
    assert [Group(map["N" := 1]), Group(map[])] == [Group(map["N" := 1])] + [Group(map[])];
    StartText(Config([Group(map["N" := 1]), Group(map[])], [], 1, Some(Push)), 6, [Group(map["N" := 1])], 'H');
    assert [Group(map["N" := 1])] + [Text("H")] == [Group(map["N" := 1]), Text("H")];
  }

  lemma ParseEquationTurn7(line: string)
    requires 6 < |line| && line[6] == '('
    ensures RunFrom(Config([Group(map["N" := 1]), Text("H")], [], 1, Some(Write)), line, 6) == RunFrom(Config([Group(map["N" := 1]), Text("H"), Group(map[])], [], 1, Some(Push)), line, 7)
  {
    OpenGroup(Config([Group(map["N" := 1]), Text("H")], [], 1, Some(Write)), 7);
    assert [Group(map["N" := 1]), Text("H")] + [Group(map[])] == [Group(map["N" := 1]), Text("H"), Group(map[])];
  }

  lemma ParseEquationTurn8(line: string)
    requires 7 < |line| && line[7] == '3'
    ensures RunFrom(Config([Group(map["N" := 1]), Text("H"), Group(map[])], [], 1, Some(Push)), line, 7) == RunFrom(Config([Group(map["N" := 1]), Text("H"), Text("3")], [], 1, Some(Write)), line, 8)
  {
    assert [Group(map["N" := 1]), Text("H"), Group(map[])] == [Group(map["N" := 1]), Text("H")] + [Group(map[])];
    StartText(Config([Group(map["N" := 1]), Text("H"), Group(map[])], [], 1, Some(Push)), 8, [Group(map["N" := 1]), Text("H")], '3');
    assert [Group(map["N" := 1]), Text("H")] + [Text("3")] == [Group(map["N" := 1]), Text("H"), Text("3")];
  }

  lemma ParseEquationTurn9(line: string)
    requires 8 < |line| && line[8] == ')'
    ensures RunFrom(Config([Group(map["N" := 1]), Text("H"), Text("3")], [], 1, Some(Write)), line, 8) == RunFrom(Config([Group(map["N" := 1]), Group(map["H" := 3])], [], 1, Some(Merge)), line, 9)
  {
    assert [Group(map["N" := 1]), Text("H"), Text("3")] == [Group(map["N" := 1])] + [Text("H"), Text("3")];
    assert DigitsValue("3") == 3;
    CloseCount(Config([Group(map["N" := 1]), Text("H"), Text("3")], [], 1, Some(Write)), 9, [Group(map["N" := 1])], "H", "3", 3);
    assert [Group(map["N" := 1])] + [Group(map["H" := 3])] == [Group(map["N" := 1]), Group(map["H" := 3])];
  }

  lemma ParseEquationTurn10(line: string)
    requires 9 < |line| && line[9] == ')'
    ensures RunFrom(Config([Group(map["N" := 1]), Group(map["H" := 3])], [], 1, Some(Merge)), line, 9) == RunFrom(Config([Group(map["N" := 1, "H" := 3])], [], 1, Some(Merge)), line, 10)
  {
    assert [Group(map["N" := 1]), Group(map["H" := 3])] == [] + [Group(map["N" := 1]), Group(map["H" := 3])];
    CloseSubgroup(Config([Group(map["N" := 1]), Group(map["H" := 3])], [], 1, Some(Merge)), 10, [], map["N" := 1], map["H" := 3]);
    assert AddInto(map["N" := 1], map["H" := 3]) == map["N" := 1, "H" := 3];
    assert [] + [Group(map["N" := 1, "H" := 3])] == [Group(map["N" := 1, "H" := 3])];
  }

  lemma ParseEquationTurn11(line: string)
    requires 10 < |line| && line[10] == ')'
    ensures RunFrom(Config([Group(map["N" := 1, "H" := 3])], [], 1, Some(Merge)), line, 10) == RunFrom(Config([], [map["N" := 1, "H" := 3]], 1, Some(Merge)), line, 11)
  {
    CloseMolecule(Config([Group(map["N" := 1, "H" := 3])], [], 1, Some(Merge)), 11, map["N" := 1, "H" := 3]);
    assert [] + [map["N" := 1, "H" := 3]] == [map["N" := 1, "H" := 3]];
  }

  lemma ParseEquationTurn12(line: string)
    requires 11 < |line| && line[11] == '+'
    ensures RunFrom(Config([], [map["N" := 1, "H" := 3]], 1, Some(Merge)), line, 11) == RunFrom(Config([], [map["N" := 1, "H" := 3]], 1, Some(New)), line, 12)
  {
    Separator(Config([], [map["N" := 1, "H" := 3]], 1, Some(Merge)), 12, '+');
  }

  lemma ParseEquationTurn13(line: string)
    requires 12 < |line| && line[12] == '('
    ensures RunFrom(Config([], [map["N" := 1, "H" := 3]], 1, Some(New)), line, 12) == RunFrom(Config([Group(map[])], [map["N" := 1, "H" := 3]], 1, Some(Push)), line, 13)
  {
    OpenGroup(Config([], [map["N" := 1, "H" := 3]], 1, Some(New)), 13);
    assert [] + [Group(map[])] == [Group(map[])];
  }

  lemma ParseEquationTurn14(line: string)
    requires 13 < |line| && line[13] == '('
    ensures RunFrom(Config([Group(map[])], [map["N" := 1, "H" := 3]], 1, Some(Push)), line, 13) == RunFrom(Config([Group(map[]), Group(map[])], [map["N" := 1, "H" := 3]], 1, Some(Push)), line, 14)
  {
    OpenGroup(Config([Group(map[])], [map["N" := 1, "H" := 3]], 1, Some(Push)), 14);
    assert [Group(map[])] + [Group(map[])] == [Group(map[]), Group(map[])];
  }

  lemma ParseEquationTurn15(line: string)
    requires 14 < |line| && line[14] == 'O'
    ensures RunFrom(Config([Group(map[]), Group(map[])], [map["N" := 1, "H" := 3]], 1, Some(Push)), line, 14) == RunFrom(Config([Group(map[]), Text("O")], [map["N" := 1, "H" := 3]], 1, Some(Write)), line, 15)
  {
    assert [Group(map[]), Group(map[])] == [Group(map[])] + [Group(map[])];
    StartText(Config([Group(map[]), Group(map[])], [map["N" := 1, "H" := 3]], 1, Some(Push)), 15, [Group(map[])], 'O');
    assert [Group(map[])] + [Text("O")] == [Group(map[]), Text("O")];
  }

  lemma ParseEquationTurn16(line: string)
    requires 15 < |line| && line[15] == '('
    ensures RunFrom(Config([Group(map[]), Text("O")], [map["N" := 1, "H" := 3]], 1, Some(Write)), line, 15) == RunFrom(Config([Group(map[]), Text("O"), Group(map[])], [map["N" := 1, "H" := 3]], 1, Some(Push)), line, 16)
  {
    OpenGroup(Config([Group(map[]), Text("O")], [map["N" := 1, "H" := 3]], 1, Some(Write)), 16);
    assert [Group(map[]), Text("O")] + [Group(map[])] == [Group(map[]), Text("O"), Group(map[])];
  }

  lemma ParseEquationTurn17(line: string)
    requires 16 < |line| && line[16] == '2'
    ensures RunFrom(Config([Group(map[]), Text("O"), Group(map[])], [map["N" := 1, "H" := 3]], 1, Some(Push)), line, 16) == RunFrom(Config([Group(map[]), Text("O"), Text("2")], [map["N" := 1, "H" := 3]], 1, Some(Write)), line, 17)
  {
    assert [Group(map[]), Text("O"), Group(map[])] == [Group(map[]), Text("O")] + [Group(map[])];
    StartText(Config([Group(map[]), Text("O"), Group(map[])], [map["N" := 1, "H" := 3]], 1, Some(Push)), 17, [Group(map[]), Text("O")], '2');
    assert [Group(map[]), Text("O")] + [Text("2")] == [Group(map[]), Text("O"), Text("2")];
  }

  lemma ParseEquationTurn18(line: string)
    requires 17 < |line| && line[17] == ')'
    ensures RunFrom(Config([Group(map[]), Text("O"), Text("2")], [map["N" := 1, "H" := 3]], 1, Some(Write)), line, 17) == RunFrom(Config([Group(map[]), Group(map["O" := 2])], [map["N" := 1, "H" := 3]], 1, Some(Merge)), line, 18)
  {
    assert [Group(map[]), Text("O"), Text("2")] == [Group(map[])] + [Text("O"), Text("2")];
    assert DigitsValue("2") == 2;
    CloseCount(Config([Group(map[]), Text("O"), Text("2")], [map["N" := 1, "H" := 3]], 1, Some(Write)), 18, [Group(map[])], "O", "2", 2);
    assert [Group(map[])] + [Group(map["O" := 2])] == [Group(map[]), Group(map["O" := 2])];
  }

  lemma ParseEquationTurn19(line: string)
    requires 18 < |line| && line[18] == ')'
    ensures RunFrom(Config([Group(map[]), Group(map["O" := 2])], [map["N" := 1, "H" := 3]], 1, Some(Merge)), line, 18) == RunFrom(Config([Group(map["O" := 2])], [map["N" := 1, "H" := 3]], 1, Some(Merge)), line, 19)
  {
    assert [Group(map[]), Group(map["O" := 2])] == [] + [Group(map[]), Group(map["O" := 2])];
    CloseSubgroup(Config([Group(map[]), Group(map["O" := 2])], [map["N" := 1, "H" := 3]], 1, Some(Merge)), 19, [], map[], map["O" := 2]);
    assert AddInto(map[], map["O" := 2]) == map["O" := 2];
    assert [] + [Group(map["O" := 2])] == [Group(map["O" := 2])];
  }

  lemma ParseEquationTurn20(line: string)
    requires 19 < |line| && line[19] == ')'
    ensures RunFrom(Config([Group(map["O" := 2])], [map["N" := 1, "H" := 3]], 1, Some(Merge)), line, 19) == RunFrom(Config([], [map["N" := 1, "H" := 3], map["O" := 2]], 1, Some(Merge)), line, 20)
  {
    CloseMolecule(Config([Group(map["O" := 2])], [map["N" := 1, "H" := 3]], 1, Some(Merge)), 20, map["O" := 2]);
    assert [map["N" := 1, "H" := 3]] + [map["O" := 2]] == [map["N" := 1, "H" := 3], map["O" := 2]];
  }

  lemma ParseEquationTurn21(line: string)
    requires 20 < |line| && line[20] == '='
    ensures RunFrom(Config([], [map["N" := 1, "H" := 3], map["O" := 2]], 1, Some(Merge)), line, 20) == RunFrom(Config([], [map["N" := 1, "H" := 3], map["O" := 2]], -1, Some(New)), line, 21)
  {
    Separator(Config([], [map["N" := 1, "H" := 3], map["O" := 2]], 1, Some(Merge)), 21, '=');
  }

  lemma ParseEquationTurn22(line: string)
    requires 21 < |line| && line[21] == '('
    ensures RunFrom(Config([], [map["N" := 1, "H" := 3], map["O" := 2]], -1, Some(New)), line, 21) == RunFrom(Config([Group(map[])], [map["N" := 1, "H" := 3], map["O" := 2]], -1, Some(Push)), line, 22)
  {
    OpenGroup(Config([], [map["N" := 1, "H" := 3], map["O" := 2]], -1, Some(New)), 22);
    assert [] + [Group(map[])] == [Group(map[])];
  }

  lemma ParseEquationTurn23(line: string)
    requires 22 < |line| && line[22] == '('
    ensures RunFrom(Config([Group(map[])], [map["N" := 1, "H" := 3], map["O" := 2]], -1, Some(Push)), line, 22) == RunFrom(Config([Group(map[]), Group(map[])], [map["N" := 1, "H" := 3], map["O" := 2]], -1, Some(Push)), line, 23)
  {
    OpenGroup(Config([Group(map[])], [map["N" := 1, "H" := 3], map["O" := 2]], -1, Some(Push)), 23);
    assert [Group(map[])] + [Group(map[])] == [Group(map[]), Group(map[])];
  }

  lemma ParseEquationTurn24(line: string)
    requires 23 < |line| && line[23] == 'H'
    ensures RunFrom(Config([Group(map[]), Group(map[])], [map["N" := 1, "H" := 3], map["O" := 2]], -1, Some(Push)), line, 23) == RunFrom(Config([Group(map[]), Text("H")], [map["N" := 1, "H" := 3], map["O" := 2]], -1, Some(Write)), line, 24)
  {
    assert [Group(map[]), Group(map[])] == [Group(map[])] + [Group(map[])];
    StartText(Config([Group(map[]), Group(map[])], [map["N" := 1, "H" := 3], map["O" := 2]], -1, Some(Push)), 24, [Group(map[])], 'H');
    assert [Group(map[])] + [Text("H")] == [Group(map[]), Text("H")];
  }

  lemma ParseEquationTurn25(line: string)
    requires 24 < |line| && line[24] == '('
    ensures RunFrom(Config([Group(map[]), Text("H")], [map["N" := 1, "H" := 3], map["O" := 2]], -1, Some(Write)), line, 24) == RunFrom(Config([Group(map[]), Text("H"), Group(map[])], [map["N" := 1, "H" := 3], map["O" := 2]], -1, Some(Push)), line, 25)
  {
    OpenGroup(Config([Group(map[]), Text("H")], [map["N" := 1, "H" := 3], map["O" := 2]], -1, Some(Write)), 25);
    assert [Group(map[]), Text("H")] + [Group(map[])] == [Group(map[]), Text("H"), Group(map[])];
  }

  lemma ParseEquationTurn26(line: string)
    requires 25 < |line| && line[25] == '2'
    ensures RunFrom(Config([Group(map[]), Text("H"), Group(map[])], [map["N" := 1, "H" := 3], map["O" := 2]], -1, Some(Push)), line, 25) == RunFrom(Config([Group(map[]), Text("H"), Text("2")], [map["N" := 1, "H" := 3], map["O" := 2]], -1, Some(Write)), line, 26)
  {
    assert [Group(map[]), Text("H"), Group(map[])] == [Group(map[]), Text("H")] + [Group(map[])];
    StartText(Config([Group(map[]), Text("H"), Group(map[])], [map["N" := 1, "H" := 3], map["O" := 2]], -1, Some(Push)), 26, [Group(map[]), Text("H")], '2');
    assert [Group(map[]), Text("H")] + [Text("2")] == [Group(map[]), Text("H"), Text("2")];
  }

  lemma ParseEquationTurn27(line: string)
    requires 26 < |line| && line[26] == ')'
    ensures RunFrom(Config([Group(map[]), Text("H"), Text("2")], [map["N" := 1, "H" := 3], map["O" := 2]], -1, Some(Write)), line, 26) == RunFrom(Config([Group(map[]), Group(map["H" := -2])], [map["N" := 1, "H" := 3], map["O" := 2]], -1, Some(Merge)), line, 27)
  {
    assert [Group(map[]), Text("H"), Text("2")] == [Group(map[])] + [Text("H"), Text("2")];
    assert DigitsValue("2") == 2;
    CloseCount(Config([Group(map[]), Text("H"), Text("2")], [map["N" := 1, "H" := 3], map["O" := 2]], -1, Some(Write)), 27, [Group(map[])], "H", "2", 2);
    assert [Group(map[])] + [Group(map["H" := -2])] == [Group(map[]), Group(map["H" := -2])];
  }

  lemma ParseEquationTurn28(line: string)
    requires 27 < |line| && line[27] == ')'
    ensures RunFrom(Config([Group(map[]), Group(map["H" := -2])], [map["N" := 1, "H" := 3], map["O" := 2]], -1, Some(Merge)), line, 27) == RunFrom(Config([Group(map["H" := -2])], [map["N" := 1, "H" := 3], map["O" := 2]], -1, Some(Merge)), line, 28)
  {
    assert [Group(map[]), Group(map["H" := -2])] == [] + [Group(map[]), Group(map["H" := -2])];
    CloseSubgroup(Config([Group(map[]), Group(map["H" := -2])], [map["N" := 1, "H" := 3], map["O" := 2]], -1, Some(Merge)), 28, [], map[], map["H" := -2]);
    assert AddInto(map[], map["H" := -2]) == map["H" := -2];
    assert [] + [Group(map["H" := -2])] == [Group(map["H" := -2])];
  }

  lemma ParseEquationTurn29(line: string)
    requires 28 < |line| && line[28] == '('
    ensures RunFrom(Config([Group(map["H" := -2])], [map["N" := 1, "H" := 3], map["O" := 2]], -1, Some(Merge)), line, 28) == RunFrom(Config([Group(map["H" := -2]), Group(map[])], [map["N" := 1, "H" := 3], map["O" := 2]], -1, Some(Push)), line, 29)
  {
    OpenGroup(Config([Group(map["H" := -2])], [map["N" := 1, "H" := 3], map["O" := 2]], -1, Some(Merge)), 29);
    assert [Group(map["H" := -2])] + [Group(map[])] == [Group(map["H" := -2]), Group(map[])];
  }

  lemma ParseEquationTurn30(line: string)
    requires 29 < |line| && line[29] == 'N'
    ensures RunFrom(Config([Group(map["H" := -2]), Group(map[])], [map["N" := 1, "H" := 3], map["O" := 2]], -1, Some(Push)), line, 29) == RunFrom(Config([Group(map["H" := -2]), Text("N")], [map["N" := 1, "H" := 3], map["O" := 2]], -1, Some(Write)), line, 30)
  {
    assert [Group(map["H" := -2]), Group(map[])] == [Group(map["H" := -2])] + [Group(map[])];
    StartText(Config([Group(map["H" := -2]), Group(map[])], [map["N" := 1, "H" := 3], map["O" := 2]], -1, Some(Push)), 30, [Group(map["H" := -2])], 'N');
    assert [Group(map["H" := -2])] + [Text("N")] == [Group(map["H" := -2]), Text("N")];
  }

  lemma ParseEquationTurn31(line: string)
    requires 30 < |line| && line[30] == ')'
    ensures RunFrom(Config([Group(map["H" := -2]), Text("N")], [map["N" := 1, "H" := 3], map["O" := 2]], -1, Some(Write)), line, 30) == RunFrom(Config([Group(map["H" := -2, "N" := -1])], [map["N" := 1, "H" := 3], map["O" := 2]], -1, Some(Merge)), line, 31)
  {
    assert [Group(map["H" := -2]), Text("N")] == [] + [Group(map["H" := -2]), Text("N")];
    MergeSymbol(Config([Group(map["H" := -2]), Text("N")], [map["N" := 1, "H" := 3], map["O" := 2]], -1, Some(Write)), 31, [], map["H" := -2], "N");
    assert Bump(map["H" := -2], "N", -1) == map["H" := -2, "N" := -1];
    assert [] + [Group(map["H" := -2, "N" := -1])] == [Group(map["H" := -2, "N" := -1])];
  }

  lemma ParseEquationTurn32(line: string)
    requires 31 < |line| && line[31] == '('
    ensures RunFrom(Config([Group(map["H" := -2, "N" := -1])], [map["N" := 1, "H" := 3], map["O" := 2]], -1, Some(Merge)), line, 31) == RunFrom(Config([Group(map["H" := -2, "N" := -1]), Group(map[])], [map["N" := 1, "H" := 3], map["O" := 2]], -1, Some(Push)), line, 32)
  {
    OpenGroup(Config([Group(map["H" := -2, "N" := -1])], [map["N" := 1, "H" := 3], map["O" := 2]], -1, Some(Merge)), 32);
    assert [Group(map["H" := -2, "N" := -1])] + [Group(map[])] == [Group(map["H" := -2, "N" := -1]), Group(map[])];
  }

  lemma ParseEquationTurn33(line: string)
    requires 32 < |line| && line[32] == 'O'
    ensures RunFrom(Config([Group(map["H" := -2, "N" := -1]), Group(map[])], [map["N" := 1, "H" := 3], map["O" := 2]], -1, Some(Push)), line, 32) == RunFrom(Config([Group(map["H" := -2, "N" := -1]), Text("O")], [map["N" := 1, "H" := 3], map["O" := 2]], -1, Some(Write)), line, 33)
  {
    assert [Group(map["H" := -2, "N" := -1]), Group(map[])] == [Group(map["H" := -2, "N" := -1])] + [Group(map[])];
    StartText(Config([Group(map["H" := -2, "N" := -1]), Group(map[])], [map["N" := 1, "H" := 3], map["O" := 2]], -1, Some(Push)), 33, [Group(map["H" := -2, "N" := -1])], 'O');
    assert [Group(map["H" := -2, "N" := -1])] + [Text("O")] == [Group(map["H" := -2, "N" := -1]), Text("O")];
  }

  lemma ParseEquationTurn34(line: string)
    requires 33 < |line| && line[33] == '('
    ensures RunFrom(Config([Group(map["H" := -2, "N" := -1]), Text("O")], [map["N" := 1, "H" := 3], map["O" := 2]], -1, Some(Write)), line, 33) == RunFrom(Config([Group(map["H" := -2, "N" := -1]), Text("O"), Group(map[])], [map["N" := 1, "H" := 3], map["O" := 2]], -1, Some(Push)), line, 34)
  {
    OpenGroup(Config([Group(map["H" := -2, "N" := -1]), Text("O")], [map["N" := 1, "H" := 3], map["O" := 2]], -1, Some(Write)), 34);
    assert [Group(map["H" := -2, "N" := -1]), Text("O")] + [Group(map[])] == [Group(map["H" := -2, "N" := -1]), Text("O"), Group(map[])];
  }

  lemma ParseEquationTurn35(line: string)
    requires 34 < |line| && line[34] == '3'
    ensures RunFrom(Config([Group(map["H" := -2, "N" := -1]), Text("O"), Group(map[])], [map["N" := 1, "H" := 3], map["O" := 2]], -1, Some(Push)), line, 34) == RunFrom(Config([Group(map["H" := -2, "N" := -1]), Text("O"), Text("3")], [map["N" := 1, "H" := 3], map["O" := 2]], -1, Some(Write)), line, 35)
  {
    assert [Group(map["H" := -2, "N" := -1]), Text("O"), Group(map[])] == [Group(map["H" := -2, "N" := -1]), Text("O")] + [Group(map[])];
    StartText(Config([Group(map["H" := -2, "N" := -1]), Text("O"), Group(map[])], [map["N" := 1, "H" := 3], map["O" := 2]], -1, Some(Push)), 35, [Group(map["H" := -2, "N" := -1]), Text("O")], '3');
    assert [Group(map["H" := -2, "N" := -1]), Text("O")] + [Text("3")] == [Group(map["H" := -2, "N" := -1]), Text("O"), Text("3")];
  }

  lemma ParseEquationTurn36(line: string)
    requires 35 < |line| && line[35] == ')'
    ensures RunFrom(Config([Group(map["H" := -2, "N" := -1]), Text("O"), Text("3")], [map["N" := 1, "H" := 3], map["O" := 2]], -1, Some(Write)), line, 35) == RunFrom(Config([Group(map["H" := -2, "N" := -1]), Group(map["O" := -3])], [map["N" := 1, "H" := 3], map["O" := 2]], -1, Some(Merge)), line, 36)
  {
    assert [Group(map["H" := -2, "N" := -1]), Text("O"), Text("3")] == [Group(map["H" := -2, "N" := -1])] + [Text("O"), Text("3")];
    assert DigitsValue("3") == 3;
    CloseCount(Config([Group(map["H" := -2, "N" := -1]), Text("O"), Text("3")], [map["N" := 1, "H" := 3], map["O" := 2]], -1, Some(Write)), 36, [Group(map["H" := -2, "N" := -1])], "O", "3", 3);
    assert [Group(map["H" := -2, "N" := -1])] + [Group(map["O" := -3])] == [Group(map["H" := -2, "N" := -1]), Group(map["O" := -3])];
  }

  lemma ParseEquationTurn37(line: string)
    requires 36 < |line| && line[36] == ')'
    ensures RunFrom(Config([Group(map["H" := -2, "N" := -1]), Group(map["O" := -3])], [map["N" := 1, "H" := 3], map["O" := 2]], -1, Some(Merge)), line, 36) == RunFrom(Config([Group(map["H" := -2, "N" := -1, "O" := -3])], [map["N" := 1, "H" := 3], map["O" := 2]], -1, Some(Merge)), line, 37)
  {
    assert [Group(map["H" := -2, "N" := -1]), Group(map["O" := -3])] == [] + [Group(map["H" := -2, "N" := -1]), Group(map["O" := -3])];
    CloseSubgroup(Config([Group(map["H" := -2, "N" := -1]), Group(map["O" := -3])], [map["N" := 1, "H" := 3], map["O" := 2]], -1, Some(Merge)), 37, [], map["H" := -2, "N" := -1], map["O" := -3]);
    assert AddInto(map["H" := -2, "N" := -1], map["O" := -3]) == map["H" := -2, "N" := -1, "O" := -3];
    assert [] + [Group(map["H" := -2, "N" := -1, "O" := -3])] == [Group(map["H" := -2, "N" := -1, "O" := -3])];
  }

  lemma ParseEquationTurn38(line: string)
    requires 37 < |line| && line[37] == ')'
    ensures RunFrom(Config([Group(map["H" := -2, "N" := -1, "O" := -3])], [map["N" := 1, "H" := 3], map["O" := 2]], -1, Some(Merge)), line, 37) == RunFrom(Config([], [map["N" := 1, "H" := 3], map["O" := 2], map["H" := -2, "N" := -1, "O" := -3]], -1, Some(Merge)), line, 38)
  {
    CloseMolecule(Config([Group(map["H" := -2, "N" := -1, "O" := -3])], [map["N" := 1, "H" := 3], map["O" := 2]], -1, Some(Merge)), 38, map["H" := -2, "N" := -1, "O" := -3]);
    assert [map["N" := 1, "H" := 3], map["O" := 2]] + [map["H" := -2, "N" := -1, "O" := -3]] == [map["N" := 1, "H" := 3], map["O" := 2], map["H" := -2, "N" := -1, "O" := -3]];
  }

  /** The molecules of `NH3 + O2 = H2NO3`, products negated. */
  lemma ParseEquation()
    ensures Parse("((N)" + "(H(3)))" + "+" + "((O(2)))" + "=" + "((H(2))" + "(N)" + "(O(3)))") == Success([map["N" := 1, "H" := 3], map["O" := 2], map["H" := -2, "N" := -1, "O" := -3]])
  {
    var line := "((N)" + "(H(3)))" + "+" + "((O(2)))" + "=" + "((H(2))" + "(N)" + "(O(3)))";
    RunByTurns(line, 0);
    assert line[..0] == "";
    ParseEquationRun(line);
  }

  lemma ParseEquationRun(line: string)
    requires line == "((N)" + "(H(3)))" + "+" + "((O(2)))" + "=" + "((H(2))" + "(N)" + "(O(3)))"
    ensures RunFrom(Config([], [], 1, Some(New)), line, 0) == Success(Config([], [map["N" := 1, "H" := 3], map["O" := 2], map["H" := -2, "N" := -1, "O" := -3]], -1, Some(Merge)))
  {
    ParseEquationText1(line);
    ParseEquationPart1(line);
    ParseEquationText2(line);
    ParseEquationPart2(line);
    ParseEquationText3(line);
    ParseEquationPart3(line);
    ParseEquationText4(line);
    ParseEquationPart4(line);
  }

  lemma ParseEquationText1(line: string)
    requires line == "((N)" + "(H(3)))" + "+" + "((O(2)))" + "=" + "((H(2))" + "(N)" + "(O(3)))"
    ensures |line| == 38 && line[0] == '(' && line[1] == '(' && line[2] == 'N' && line[3] == ')' && line[4] == '(' && line[5] == 'H' && line[6] == '(' && line[7] == '3' && line[8] == ')' && line[9] == ')'
  {
  }

  lemma ParseEquationText2(line: string)
    requires line == "((N)" + "(H(3)))" + "+" + "((O(2)))" + "=" + "((H(2))" + "(N)" + "(O(3)))"
    ensures |line| == 38 && line[10] == ')' && line[11] == '+' && line[12] == '(' && line[13] == '(' && line[14] == 'O' && line[15] == '(' && line[16] == '2' && line[17] == ')' && line[18] == ')' && line[19] == ')'
  {
  }

  lemma ParseEquationText3(line: string)
    requires line == "((N)" + "(H(3)))" + "+" + "((O(2)))" + "=" + "((H(2))" + "(N)" + "(O(3)))"
    ensures |line| == 38 && line[20] == '=' && line[21] == '(' && line[22] == '(' && line[23] == 'H' && line[24] == '(' && line[25] == '2' && line[26] == ')' && line[27] == ')' && line[28] == '(' && line[29] == 'N'
  {
  }

  lemma ParseEquationText4(line: string)
    requires line == "((N)" + "(H(3)))" + "+" + "((O(2)))" + "=" + "((H(2))" + "(N)" + "(O(3)))"
    ensures |line| == 38 && line[30] == ')' && line[31] == '(' && line[32] == 'O' && line[33] == '(' && line[34] == '3' && line[35] == ')' && line[36] == ')' && line[37] == ')'
  {
  }

  lemma ParseEquationPart1(line: string)
    requires |line| == 38 && line[0] == '(' && line[1] == '(' && line[2] == 'N' && line[3] == ')' && line[4] == '(' && line[5] == 'H' && line[6] == '(' && line[7] == '3' && line[8] == ')' && line[9] == ')'
    ensures RunFrom(Config([], [], 1, Some(New)), line, 0) == RunFrom(Config([Group(map["N" := 1, "H" := 3])], [], 1, Some(Merge)), line, 10)
  {
    ParseEquationTurn1(line);
    ParseEquationTurn2(line);
    ParseEquationTurn3(line);
    ParseEquationTurn4(line);
    ParseEquationTurn5(line);
    ParseEquationTurn6(line);
    ParseEquationTurn7(line);
    ParseEquationTurn8(line);
    ParseEquationTurn9(line);
    ParseEquationTurn10(line);
  }

  lemma ParseEquationPart2(line: string)
    requires |line| == 38 && line[10] == ')' && line[11] == '+' && line[12] == '(' && line[13] == '(' && line[14] == 'O' && line[15] == '(' && line[16] == '2' && line[17] == ')' && line[18] == ')' && line[19] == ')'
    ensures RunFrom(Config([Group(map["N" := 1, "H" := 3])], [], 1, Some(Merge)), line, 10) == RunFrom(Config([], [map["N" := 1, "H" := 3], map["O" := 2]], 1, Some(Merge)), line, 20)
  {
    ParseEquationTurn11(line);
    ParseEquationTurn12(line);
    ParseEquationTurn13(line);
    ParseEquationTurn14(line);
    ParseEquationTurn15(line);
    ParseEquationTurn16(line);
    ParseEquationTurn17(line);
    ParseEquationTurn18(line);
    ParseEquationTurn19(line);
    ParseEquationTurn20(line);
  }

  lemma ParseEquationPart3(line: string)
    requires |line| == 38 && line[20] == '=' && line[21] == '(' && line[22] == '(' && line[23] == 'H' && line[24] == '(' && line[25] == '2' && line[26] == ')' && line[27] == ')' && line[28] == '(' && line[29] == 'N'
    ensures RunFrom(Config([], [map["N" := 1, "H" := 3], map["O" := 2]], 1, Some(Merge)), line, 20) == RunFrom(Config([Group(map["H" := -2]), Text("N")], [map["N" := 1, "H" := 3], map["O" := 2]], -1, Some(Write)), line, 30)
  {
    ParseEquationTurn21(line);
    ParseEquationTurn22(line);
    ParseEquationTurn23(line);
    ParseEquationTurn24(line);
    ParseEquationTurn25(line);
    ParseEquationTurn26(line);
    ParseEquationTurn27(line);
    ParseEquationTurn28(line);
    ParseEquationTurn29(line);
    ParseEquationTurn30(line);
  }

  lemma ParseEquationPart4(line: string)
    requires |line| == 38 && line[30] == ')' && line[31] == '(' && line[32] == 'O' && line[33] == '(' && line[34] == '3' && line[35] == ')' && line[36] == ')' && line[37] == ')'
    ensures RunFrom(Config([Group(map["H" := -2]), Text("N")], [map["N" := 1, "H" := 3], map["O" := 2]], -1, Some(Write)), line, 30) == RunFrom(Config([], [map["N" := 1, "H" := 3], map["O" := 2], map["H" := -2, "N" := -1, "O" := -3]], -1, Some(Merge)), line, 38)
  {
    ParseEquationTurn31(line);
    ParseEquationTurn32(line);
    ParseEquationTurn33(line);
    ParseEquationTurn34(line);
    ParseEquationTurn35(line);
    ParseEquationTurn36(line);
    ParseEquationTurn37(line);
    ParseEquationTurn38(line);
  }

  lemma ParseUnclosedTurn3(line: string)
    requires 2 < |line| && line[2] == '('
    ensures RunFrom(Config([Group(map[]), Group(map[])], [], 1, Some(Push)), line, 2) == RunFrom(Config([Group(map[]), Group(map[]), Group(map[])], [], 1, Some(Push)), line, 3)
  {
    OpenGroup(Config([Group(map[]), Group(map[])], [], 1, Some(Push)), 3);
    assert [Group(map[]), Group(map[])] + [Group(map[])] == [Group(map[]), Group(map[]), Group(map[])];
  }

  lemma ParseUnclosedTurn4(line: string)
    requires 3 < |line| && line[3] == '('
    ensures RunFrom(Config([Group(map[]), Group(map[]), Group(map[])], [], 1, Some(Push)), line, 3) == RunFrom(Config([Group(map[]), Group(map[]), Group(map[]), Group(map[])], [], 1, Some(Push)), line, 4)
  {
    OpenGroup(Config([Group(map[]), Group(map[]), Group(map[])], [], 1, Some(Push)), 4);
    assert [Group(map[]), Group(map[]), Group(map[])] + [Group(map[])] == [Group(map[]), Group(map[]), Group(map[]), Group(map[])];
  }

  lemma ParseUnclosedTurn5(line: string)
    requires 4 < |line| && line[4] == 'A'
    ensures RunFrom(Config([Group(map[]), Group(map[]), Group(map[]), Group(map[])], [], 1, Some(Push)), line, 4) == RunFrom(Config([Group(map[]), Group(map[]), Group(map[]), Text("A")], [], 1, Some(Write)), line, 5)
  {
    assert [Group(map[]), Group(map[]), Group(map[]), Group(map[])] == [Group(map[]), Group(map[]), Group(map[])] + [Group(map[])];
    StartText(Config([Group(map[]), Group(map[]), Group(map[]), Group(map[])], [], 1, Some(Push)), 5, [Group(map[]), Group(map[]), Group(map[])], 'A');
    assert [Group(map[]), Group(map[]), Group(map[])] + [Text("A")] == [Group(map[]), Group(map[]), Group(map[]), Text("A")];
  }

  lemma ParseUnclosedTurn6(line: string)
    requires 5 < |line| && line[5] == ')'
    ensures RunFrom(Config([Group(map[]), Group(map[]), Group(map[]), Text("A")], [], 1, Some(Write)), line, 5) == RunFrom(Config([Group(map[]), Group(map[]), Group(map["A" := 1])], [], 1, Some(Merge)), line, 6)
  {
    assert [Group(map[]), Group(map[]), Group(map[]), Text("A")] == [Group(map[]), Group(map[])] + [Group(map[]), Text("A")];
    MergeSymbol(Config([Group(map[]), Group(map[]), Group(map[]), Text("A")], [], 1, Some(Write)), 6, [Group(map[]), Group(map[])], map[], "A");
    assert Bump(map[], "A", 1) == map["A" := 1];
    assert [Group(map[]), Group(map[])] + [Group(map["A" := 1])] == [Group(map[]), Group(map[]), Group(map["A" := 1])];
  }

  lemma ParseUnclosedTurn7(line: string)
    requires 6 < |line| && line[6] == ')'
    ensures RunFrom(Config([Group(map[]), Group(map[]), Group(map["A" := 1])], [], 1, Some(Merge)), line, 6) == RunFrom(Config([Group(map[]), Group(map["A" := 1])], [], 1, Some(Merge)), line, 7)
  {
    assert [Group(map[]), Group(map[]), Group(map["A" := 1])] == [Group(map[])] + [Group(map[]), Group(map["A" := 1])];
    CloseSubgroup(Config([Group(map[]), Group(map[]), Group(map["A" := 1])], [], 1, Some(Merge)), 7, [Group(map[])], map[], map["A" := 1]);
    assert AddInto(map[], map["A" := 1]) == map["A" := 1];
    assert [Group(map[])] + [Group(map["A" := 1])] == [Group(map[]), Group(map["A" := 1])];
  }

  /** Molecules still open at the end are dropped: `(A` gives no molecule. */
  lemma ParseUnclosed()
    ensures Parse("((((A))") == Success([])
  {
    var line := "((((A))";
    RunByTurns(line, 0);
    assert line[..0] == "";
    ParseUnclosedRun(line);
  }

  lemma ParseUnclosedRun(line: string)
    requires line == "((((A))"
    ensures RunFrom(Config([], [], 1, Some(New)), line, 0) == Success(Config([Group(map[]), Group(map["A" := 1])], [], 1, Some(Merge)))
  {
    ParseUnclosedText1(line);
    ParseUnclosedPart1(line);
  }

  lemma ParseUnclosedText1(line: string)
    requires line == "((((A))"
    ensures |line| == 7 && line[0] == '(' && line[1] == '(' && line[2] == '(' && line[3] == '(' && line[4] == 'A' && line[5] == ')' && line[6] == ')'
  {
  }

  lemma ParseUnclosedPart1(line: string)
    requires |line| == 7 && line[0] == '(' && line[1] == '(' && line[2] == '(' && line[3] == '(' && line[4] == 'A' && line[5] == ')' && line[6] == ')'
    ensures RunFrom(Config([], [], 1, Some(New)), line, 0) == RunFrom(Config([Group(map[]), Group(map["A" := 1])], [], 1, Some(Merge)), line, 7)
  {
    ParseEquationTurn1(line);
    ParseEquationTurn2(line);
    ParseUnclosedTurn3(line);
    ParseUnclosedTurn4(line);
    ParseUnclosedTurn5(line);
    ParseUnclosedTurn6(line);
    ParseUnclosedTurn7(line);
  }

  lemma ParseRepeatedEqualsTurn3(line: string)
    requires 2 < |line| && line[2] == 'A'
    ensures RunFrom(Config([Group(map[]), Group(map[])], [], 1, Some(Push)), line, 2) == RunFrom(Config([Group(map[]), Text("A")], [], 1, Some(Write)), line, 3)
  {
    assert [Group(map[]), Group(map[])] == [Group(map[])] + [Group(map[])];
    StartText(Config([Group(map[]), Group(map[])], [], 1, Some(Push)), 3, [Group(map[])], 'A');
    assert [Group(map[])] + [Text("A")] == [Group(map[]), Text("A")];
  }

  lemma ParseRepeatedEqualsTurn4(line: string)
    requires 3 < |line| && line[3] == ')'
    ensures RunFrom(Config([Group(map[]), Text("A")], [], 1, Some(Write)), line, 3) == RunFrom(Config([Group(map["A" := 1])], [], 1, Some(Merge)), line, 4)
  {
    assert [Group(map[]), Text("A")] == [] + [Group(map[]), Text("A")];
    MergeSymbol(Config([Group(map[]), Text("A")], [], 1, Some(Write)), 4, [], map[], "A");
    assert Bump(map[], "A", 1) == map["A" := 1];
    assert [] + [Group(map["A" := 1])] == [Group(map["A" := 1])];
  }

  lemma ParseRepeatedEqualsTurn5(line: string)
    requires 4 < |line| && line[4] == ')'
    ensures RunFrom(Config([Group(map["A" := 1])], [], 1, Some(Merge)), line, 4) == RunFrom(Config([], [map["A" := 1]], 1, Some(Merge)), line, 5)
  {
    CloseMolecule(Config([Group(map["A" := 1])], [], 1, Some(Merge)), 5, map["A" := 1]);
    assert [] + [map["A" := 1]] == [map["A" := 1]];
  }

  lemma ParseRepeatedEqualsTurn6(line: string)
    requires 5 < |line| && line[5] == '='
    ensures RunFrom(Config([], [map["A" := 1]], 1, Some(Merge)), line, 5) == RunFrom(Config([], [map["A" := 1]], -1, Some(New)), line, 6)
  {
    Separator(Config([], [map["A" := 1]], 1, Some(Merge)), 6, '=');
  }

  lemma ParseRepeatedEqualsTurn7(line: string)
    requires 6 < |line| && line[6] == '('
    ensures RunFrom(Config([], [map["A" := 1]], -1, Some(New)), line, 6) == RunFrom(Config([Group(map[])], [map["A" := 1]], -1, Some(Push)), line, 7)
  {
    OpenGroup(Config([], [map["A" := 1]], -1, Some(New)), 7);
    assert [] + [Group(map[])] == [Group(map[])];
  }

  lemma ParseRepeatedEqualsTurn8(line: string)
    requires 7 < |line| && line[7] == '('
    ensures RunFrom(Config([Group(map[])], [map["A" := 1]], -1, Some(Push)), line, 7) == RunFrom(Config([Group(map[]), Group(map[])], [map["A" := 1]], -1, Some(Push)), line, 8)
  {
    OpenGroup(Config([Group(map[])], [map["A" := 1]], -1, Some(Push)), 8);
    assert [Group(map[])] + [Group(map[])] == [Group(map[]), Group(map[])];
  }

  lemma ParseRepeatedEqualsTurn9(line: string)
    requires 8 < |line| && line[8] == 'B'
    ensures RunFrom(Config([Group(map[]), Group(map[])], [map["A" := 1]], -1, Some(Push)), line, 8) == RunFrom(Config([Group(map[]), Text("B")], [map["A" := 1]], -1, Some(Write)), line, 9)
  {
    assert [Group(map[]), Group(map[])] == [Group(map[])] + [Group(map[])];
    StartText(Config([Group(map[]), Group(map[])], [map["A" := 1]], -1, Some(Push)), 9, [Group(map[])], 'B');
    assert [Group(map[])] + [Text("B")] == [Group(map[]), Text("B")];
  }

  lemma ParseRepeatedEqualsTurn10(line: string)
    requires 9 < |line| && line[9] == ')'
    ensures RunFrom(Config([Group(map[]), Text("B")], [map["A" := 1]], -1, Some(Write)), line, 9) == RunFrom(Config([Group(map["B" := -1])], [map["A" := 1]], -1, Some(Merge)), line, 10)
  {
    assert [Group(map[]), Text("B")] == [] + [Group(map[]), Text("B")];
    MergeSymbol(Config([Group(map[]), Text("B")], [map["A" := 1]], -1, Some(Write)), 10, [], map[], "B");
    assert Bump(map[], "B", -1) == map["B" := -1];
    assert [] + [Group(map["B" := -1])] == [Group(map["B" := -1])];
  }

  lemma ParseRepeatedEqualsTurn11(line: string)
    requires 10 < |line| && line[10] == ')'
    ensures RunFrom(Config([Group(map["B" := -1])], [map["A" := 1]], -1, Some(Merge)), line, 10) == RunFrom(Config([], [map["A" := 1], map["B" := -1]], -1, Some(Merge)), line, 11)
  {
    CloseMolecule(Config([Group(map["B" := -1])], [map["A" := 1]], -1, Some(Merge)), 11, map["B" := -1]);
    assert [map["A" := 1]] + [map["B" := -1]] == [map["A" := 1], map["B" := -1]];
  }

  lemma ParseRepeatedEqualsTurn12(line: string)
    requires 11 < |line| && line[11] == '='
    ensures RunFrom(Config([], [map["A" := 1], map["B" := -1]], -1, Some(Merge)), line, 11) == RunFrom(Config([], [map["A" := 1], map["B" := -1]], -1, Some(New)), line, 12)
  {
    Separator(Config([], [map["A" := 1], map["B" := -1]], -1, Some(Merge)), 12, '=');
  }

  lemma ParseRepeatedEqualsTurn13(line: string)
    requires 12 < |line| && line[12] == '('
    ensures RunFrom(Config([], [map["A" := 1], map["B" := -1]], -1, Some(New)), line, 12) == RunFrom(Config([Group(map[])], [map["A" := 1], map["B" := -1]], -1, Some(Push)), line, 13)
  {
    OpenGroup(Config([], [map["A" := 1], map["B" := -1]], -1, Some(New)), 13);
    assert [] + [Group(map[])] == [Group(map[])];
  }

  lemma ParseRepeatedEqualsTurn14(line: string)
    requires 13 < |line| && line[13] == '('
    ensures RunFrom(Config([Group(map[])], [map["A" := 1], map["B" := -1]], -1, Some(Push)), line, 13) == RunFrom(Config([Group(map[]), Group(map[])], [map["A" := 1], map["B" := -1]], -1, Some(Push)), line, 14)
  {
    OpenGroup(Config([Group(map[])], [map["A" := 1], map["B" := -1]], -1, Some(Push)), 14);
    assert [Group(map[])] + [Group(map[])] == [Group(map[]), Group(map[])];
  }

  lemma ParseRepeatedEqualsTurn15(line: string)
    requires 14 < |line| && line[14] == 'C'
    ensures RunFrom(Config([Group(map[]), Group(map[])], [map["A" := 1], map["B" := -1]], -1, Some(Push)), line, 14) == RunFrom(Config([Group(map[]), Text("C")], [map["A" := 1], map["B" := -1]], -1, Some(Write)), line, 15)
  {
    assert [Group(map[]), Group(map[])] == [Group(map[])] + [Group(map[])];
    StartText(Config([Group(map[]), Group(map[])], [map["A" := 1], map["B" := -1]], -1, Some(Push)), 15, [Group(map[])], 'C');
    assert [Group(map[])] + [Text("C")] == [Group(map[]), Text("C")];
  }

  lemma ParseRepeatedEqualsTurn16(line: string)
    requires 15 < |line| && line[15] == ')'
    ensures RunFrom(Config([Group(map[]), Text("C")], [map["A" := 1], map["B" := -1]], -1, Some(Write)), line, 15) == RunFrom(Config([Group(map["C" := -1])], [map["A" := 1], map["B" := -1]], -1, Some(Merge)), line, 16)
  {
    assert [Group(map[]), Text("C")] == [] + [Group(map[]), Text("C")];
    MergeSymbol(Config([Group(map[]), Text("C")], [map["A" := 1], map["B" := -1]], -1, Some(Write)), 16, [], map[], "C");
    assert Bump(map[], "C", -1) == map["C" := -1];
    assert [] + [Group(map["C" := -1])] == [Group(map["C" := -1])];
  }

  lemma ParseRepeatedEqualsTurn17(line: string)
    requires 16 < |line| && line[16] == ')'
    ensures RunFrom(Config([Group(map["C" := -1])], [map["A" := 1], map["B" := -1]], -1, Some(Merge)), line, 16) == RunFrom(Config([], [map["A" := 1], map["B" := -1], map["C" := -1]], -1, Some(Merge)), line, 17)
  {
    CloseMolecule(Config([Group(map["C" := -1])], [map["A" := 1], map["B" := -1]], -1, Some(Merge)), 17, map["C" := -1]);
    assert [map["A" := 1], map["B" := -1]] + [map["C" := -1]] == [map["A" := 1], map["B" := -1], map["C" := -1]];
  }

  /** A second `=` keeps counting on the right-hand side. */
  lemma ParseRepeatedEquals()
    ensures Parse("((A))" + "=" + "((B))" + "=" + "((C))") == Success([map["A" := 1], map["B" := -1], map["C" := -1]])
  {
    var line := "((A))" + "=" + "((B))" + "=" + "((C))";
    RunByTurns(line, 0);
    assert line[..0] == "";
    ParseRepeatedEqualsRun(line);
  }

  lemma ParseRepeatedEqualsRun(line: string)
    requires line == "((A))" + "=" + "((B))" + "=" + "((C))"
    ensures RunFrom(Config([], [], 1, Some(New)), line, 0) == Success(Config([], [map["A" := 1], map["B" := -1], map["C" := -1]], -1, Some(Merge)))
  {
    ParseRepeatedEqualsText1(line);
    ParseRepeatedEqualsPart1(line);
    ParseRepeatedEqualsText2(line);
    ParseRepeatedEqualsPart2(line);
  }

  lemma ParseRepeatedEqualsText1(line: string)
    requires line == "((A))" + "=" + "((B))" + "=" + "((C))"
    ensures |line| == 17 && line[0] == '(' && line[1] == '(' && line[2] == 'A' && line[3] == ')' && line[4] == ')' && line[5] == '=' && line[6] == '(' && line[7] == '(' && line[8] == 'B' && line[9] == ')'
  {
  }

  lemma ParseRepeatedEqualsText2(line: string)
    requires line == "((A))" + "=" + "((B))" + "=" + "((C))"
    ensures |line| == 17 && line[10] == ')' && line[11] == '=' && line[12] == '(' && line[13] == '(' && line[14] == 'C' && line[15] == ')' && line[16] == ')'
  {
  }

  lemma ParseRepeatedEqualsPart1(line: string)
    requires |line| == 17 && line[0] == '(' && line[1] == '(' && line[2] == 'A' && line[3] == ')' && line[4] == ')' && line[5] == '=' && line[6] == '(' && line[7] == '(' && line[8] == 'B' && line[9] == ')'
    ensures RunFrom(Config([], [], 1, Some(New)), line, 0) == RunFrom(Config([Group(map["B" := -1])], [map["A" := 1]], -1, Some(Merge)), line, 10)
  {
    ParseEquationTurn1(line);
    ParseEquationTurn2(line);
    ParseRepeatedEqualsTurn3(line);
    ParseRepeatedEqualsTurn4(line);
    ParseRepeatedEqualsTurn5(line);
    ParseRepeatedEqualsTurn6(line);
    ParseRepeatedEqualsTurn7(line);
    ParseRepeatedEqualsTurn8(line);
    ParseRepeatedEqualsTurn9(line);
    ParseRepeatedEqualsTurn10(line);
  }

  lemma ParseRepeatedEqualsPart2(line: string)
    requires |line| == 17 && line[10] == ')' && line[11] == '=' && line[12] == '(' && line[13] == '(' && line[14] == 'C' && line[15] == ')' && line[16] == ')'
    ensures RunFrom(Config([Group(map["B" := -1])], [map["A" := 1]], -1, Some(Merge)), line, 10) == RunFrom(Config([], [map["A" := 1], map["B" := -1], map["C" := -1]], -1, Some(Merge)), line, 17)
  {
    ParseRepeatedEqualsTurn11(line);
    ParseRepeatedEqualsTurn12(line);
    ParseRepeatedEqualsTurn13(line);
    ParseRepeatedEqualsTurn14(line);
    ParseRepeatedEqualsTurn15(line);
    ParseRepeatedEqualsTurn16(line);
    ParseRepeatedEqualsTurn17(line);
  }

  lemma ParseBareSymbolTurn1(line: string)
    requires 0 < |line| && line[0] == 'A'
    ensures RunFrom(Config([], [], 1, Some(New)), line, 0) == Failure(ErrorAt(1))
  {
    StepByTable(Config([], [], 1, Some(New)), 1, 'A');
  }

  /** A symbol must be inside a group: input 1 has no jump. */
  lemma ParseBareSymbol()
    ensures Parse("A") == Failure(ErrorAt(1))
  {
    var line := "A";
    RunByTurns(line, 0);
    assert line[..0] == "";
    ParseBareSymbolRun(line);
  }

  lemma ParseBareSymbolRun(line: string)
    requires line == "A"
    ensures RunFrom(Config([], [], 1, Some(New)), line, 0) == Failure(ErrorAt(1))
  {
    ParseBareSymbolText1(line);
    ParseBareSymbolPart1(line);
  }

  lemma ParseBareSymbolText1(line: string)
    requires line == "A"
    ensures |line| == 1 && line[0] == 'A'
  {
  }

  lemma ParseBareSymbolPart1(line: string)
    requires |line| == 1 && line[0] == 'A'
    ensures RunFrom(Config([], [], 1, Some(New)), line, 0) == Failure(ErrorAt(1))
  {
    ParseBareSymbolTurn1(line);
  }

  lemma ParseSeparatorInGroupTurn5(line: string)
    requires 4 < |line| && line[4] == '+'
    ensures RunFrom(Config([Group(map["A" := 1])], [], 1, Some(Merge)), line, 4) == Failure(ErrorAt(5))
  {
    StepByTable(Config([Group(map["A" := 1])], [], 1, Some(Merge)), 5, '+');
  }

  /** A `+` while a group is open is reported at its position. */
  lemma ParseSeparatorInGroup()
    ensures Parse("((A)+") == Failure(ErrorAt(5))
  {
    var line := "((A)+";
    RunByTurns(line, 0);
    assert line[..0] == "";
    ParseSeparatorInGroupRun(line);
  }

  lemma ParseSeparatorInGroupRun(line: string)
    requires line == "((A)+"
    ensures RunFrom(Config([], [], 1, Some(New)), line, 0) == Failure(ErrorAt(5))
  {
    ParseSeparatorInGroupText1(line);
    ParseSeparatorInGroupPart1(line);
  }

  lemma ParseSeparatorInGroupText1(line: string)
    requires line == "((A)+"
    ensures |line| == 5 && line[0] == '(' && line[1] == '(' && line[2] == 'A' && line[3] == ')' && line[4] == '+'
  {
  }

  lemma ParseSeparatorInGroupPart1(line: string)
    requires |line| == 5 && line[0] == '(' && line[1] == '(' && line[2] == 'A' && line[3] == ')' && line[4] == '+'
    ensures RunFrom(Config([], [], 1, Some(New)), line, 0) == Failure(ErrorAt(5))
  {
    ParseEquationTurn1(line);
    ParseEquationTurn2(line);
    ParseRepeatedEqualsTurn3(line);
    ParseRepeatedEqualsTurn4(line);
    ParseSeparatorInGroupTurn5(line);
  }

  lemma ParseSeparatorAfterOpenTurn2(line: string)
    requires 1 < |line| && line[1] == '+'
    ensures RunFrom(Config([Group(map[])], [], 1, Some(Push)), line, 1) == Failure(NoAction)
  {
    StepByTable(Config([Group(map[])], [], 1, Some(Push)), 2, '+');
  }

  /** A `+` right after `(` is the invalid jump. */
  lemma ParseSeparatorAfterOpen()
    ensures Parse("(+") == Failure(NoAction)
  {
    var line := "(+";
    RunByTurns(line, 0);
    assert line[..0] == "";
    ParseSeparatorAfterOpenRun(line);
  }

  lemma ParseSeparatorAfterOpenRun(line: string)
    requires line == "(+"
    ensures RunFrom(Config([], [], 1, Some(New)), line, 0) == Failure(NoAction)
  {
    ParseSeparatorAfterOpenText1(line);
    ParseSeparatorAfterOpenPart1(line);
  }

  lemma ParseSeparatorAfterOpenText1(line: string)
    requires line == "(+"
    ensures |line| == 2 && line[0] == '(' && line[1] == '+'
  {
  }

  lemma ParseSeparatorAfterOpenPart1(line: string)
    requires |line| == 2 && line[0] == '(' && line[1] == '+'
    ensures RunFrom(Config([], [], 1, Some(New)), line, 0) == Failure(NoAction)
  {
    ParseEquationTurn1(line);
    ParseSeparatorAfterOpenTurn2(line);
  }

  /** The rewritten equation, written in the pieces its runs are proved on. */
  lemma EquationPieces()
    ensures "((N)(H(3)))+((O(2)))=((H(2))(N)(O(3)))" == "((N)" + "(H(3)))" + "+" + "((O(2)))" + "=" + "((H(2))" + "(N)" + "(O(3)))"
  {
    assert "((N)" + "(H(3)))" == "((N)(H(3)))";
    assert "((N)(H(3)))" + "+" == "((N)(H(3)))+";
    assert "((N)(H(3)))+" + "((O(2)))" == "((N)(H(3)))+((O(2)))";
    assert "((N)(H(3)))+((O(2)))" + "=" == "((N)(H(3)))+((O(2)))=";
    assert "((N)(H(3)))+((O(2)))=" + "((H(2))" == "((N)(H(3)))+((O(2)))=((H(2))";
    assert "((N)(H(3)))+((O(2)))=((H(2))" + "(N)" == "((N)(H(3)))+((O(2)))=((H(2))(N)";
    assert "((N)(H(3)))+((O(2)))=((H(2))(N)" + "(O(3)))" == "((N)(H(3)))+((O(2)))=((H(2))(N)(O(3)))";
  }

  /** The documentation's example through both stages: `NH3 + O2 = H2NO3`
      is rewritten and parsed into its three molecules, the product
      negated. */
  lemma EquationPipeline()
    ensures Preprocess("NH3 + O2 = H2NO3").Success?
    ensures Parse(Preprocess("NH3 + O2 = H2NO3").value) ==
      Success([map["N" := 1, "H" := 3], map["O" := 2], map["H" := -2, "N" := -1, "O" := -3]])
  {
    ExampleEquation();
    EquationPieces();
    ParseEquation();
  }
}
