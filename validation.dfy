/**
 * The pseudocode validator: every line of the program is trimmed, blank lines
 * are skipped, and every other line whose trimmed text is not on a fixed
 * allow-list is reported with its 1-based line number. The allow-list has its
 * own vocabulary (IF PATH AHEAD, WHILE PATH AHEAD, END), which differs from the
 * command registry's: PICKUP and the IF ISBLOCKED family are rejected here.
 */
module Validation {
  import opened Levels
  import opened JsText
  import Interpreter

  /** One reported line. */
  datatype PseudoCodeError = PseudoCodeError(line: nat, message: string)

  /** The anchored patterns of `allowedCommands`, each represented by the strings it accepts. */
  function AllowedCommands(): (r: seq<string>)
    ensures |r| == 6
    ensures "" !in r && "PICKUP" !in r
  {
    ["MOVE", "TURN LEFT", "TURN RIGHT", "IF PATH AHEAD", "WHILE PATH AHEAD", "END"]
  }

  /** `allowedCommands.some((regex) => regex.test(trimmed))` */
  predicate IsAllowed(trimmed: string) {
    trimmed in AllowedCommands()
  }

  /** The message reported for a rejected line. */
  function InvalidCommand(trimmed: string): string {
    "Ungültiger Befehl: \"" + trimmed + "\""
  }

  /** A line is reported when its trimmed text is neither empty nor allowed. */
  predicate Rejected(line: string) {
    Trim(line) != "" && !IsAllowed(Trim(line))
  }

  /** What the validator reports for one line with 1-based number `number`. */
  function LineErrors(line: string, number: nat): seq<PseudoCodeError> {
    if Rejected(line) then [PseudoCodeError(number, InvalidCommand(Trim(line)))] else []
  }

  /** The errors reported for `lines`, in input order. */
  function Errors(lines: seq<string>): (r: seq<PseudoCodeError>)
    ensures |r| <= |lines|
    decreases |lines|
  {
    if lines == [] then []
    else Errors(lines[..|lines| - 1]) + LineErrors(lines[|lines| - 1], |lines|)
  }

  /** `validatePseudoCode(code)` */
  method ValidatePseudoCode(code: string) returns (errors: seq<PseudoCodeError>)
    ensures errors == Errors(SplitLines(code))
  {
    var lines := SplitLines(code);
    errors := [];
    for idx := 0 to |lines|
      invariant errors == Errors(lines[..idx])
    {
      assert lines[..idx + 1][..idx] == lines[..idx];
      var trimmed := Trim(lines[idx]);
      if trimmed != "" {
        var valid := trimmed in AllowedCommands();
        if !valid {
          errors := errors + [PseudoCodeError(idx + 1, InvalidCommand(trimmed))];
        }
      }
    }
    assert lines[..|lines|] == lines;
  }

  // ---------------------------------------------------------------------------
  // What the error list says about the lines
  // ---------------------------------------------------------------------------

  /** Every error names an existing, rejected line and carries its trimmed text. */
  predicate ErrorsName(e: seq<PseudoCodeError>, lines: seq<string>) {
    forall i :: 0 <= i < |e| ==>
      1 <= e[i].line <= |lines| && Rejected(lines[e[i].line - 1])
      && e[i].message == InvalidCommand(Trim(lines[e[i].line - 1]))
  }

  /** Line numbers strictly increase along the list. */
  predicate Increasing(e: seq<PseudoCodeError>) {
    forall i, j :: 0 <= i < j < |e| ==> e[i].line < e[j].line
  }

  /**
   * Every error names an existing line that is rejected, carries that line's
   * trimmed text in its message, and the line numbers strictly increase.
   */
  lemma {:induction false} ErrorsWellFormed(lines: seq<string>)
    ensures ErrorsName(Errors(lines), lines)
    ensures Increasing(Errors(lines))
    decreases |lines|
  {
    if lines != [] {
      var init, last := lines[..|lines| - 1], lines[|lines| - 1];
      ErrorsWellFormed(init);
      var e, e0 := Errors(lines), Errors(init);
      assert e == e0 + LineErrors(last, |lines|);
      forall i | 0 <= i < |e|
        ensures 1 <= e[i].line <= |lines| && Rejected(lines[e[i].line - 1])
        ensures e[i].message == InvalidCommand(Trim(lines[e[i].line - 1]))
      {
        if i < |e0| {
          assert e[i] == e0[i];
          assert 1 <= e0[i].line <= |init|;
          assert init[e0[i].line - 1] == lines[e0[i].line - 1];
        } else {
          assert e[i] == PseudoCodeError(|lines|, InvalidCommand(Trim(last)));
        }
      }
      forall i, j | 0 <= i < j < |e| ensures e[i].line < e[j].line {
        assert e[i] == e0[i];
        assert e0[i].line <= |init|;
        if j >= |e0| {
          assert e[j].line == |lines|;
        } else {
          assert e[j] == e0[j];
        }
      }
    }
  }

  /** Line k is reported exactly when it exists and is rejected. */
  lemma {:induction false} ReportedIff(lines: seq<string>, k: int)
    ensures (exists i :: 0 <= i < |Errors(lines)| && Errors(lines)[i].line == k)
            <==> 1 <= k <= |lines| && Rejected(lines[k - 1])
    decreases |lines|
  {
    var e := Errors(lines);
    if 1 <= k <= |lines| && Rejected(lines[k - 1]) {
      var init, last := lines[..|lines| - 1], lines[|lines| - 1];
      var e0 := Errors(init);
      assert e == e0 + LineErrors(last, |lines|);
      if k == |lines| {
        assert Errors(lines)[|e| - 1].line == k;
      } else {
        assert init[k - 1] == lines[k - 1];
        ReportedIff(init, k);
        var i :| 0 <= i < |e0| && e0[i].line == k;
        assert Errors(lines)[i] == e0[i];
      }
    }
    if exists i :: 0 <= i < |e| && e[i].line == k {
      var i :| 0 <= i < |e| && e[i].line == k;
      ErrorsWellFormed(lines);
      assert Errors(lines)[i].line == k;
    }
  }

  /** A blank or whitespace-only line is never reported. */
  lemma BlankLineNotReported(lines: seq<string>, k: int)
    requires 1 <= k <= |lines| && AllSpace(lines[k - 1])
    ensures forall i :: 0 <= i < |Errors(lines)| ==> Errors(lines)[i].line != k
  {
    TrimEmptyIff(lines[k - 1]);
    ReportedIff(lines, k);
  }

  /** The error list is empty exactly when no line is rejected. */
  lemma {:induction false} NoErrorsIff(lines: seq<string>)
    ensures Errors(lines) == [] <==> forall k :: 0 <= k < |lines| ==> !Rejected(lines[k])
  {
    var e := Errors(lines);
    if e != [] {
      ReportedIff(lines, e[0].line);
      assert Errors(lines)[0].line == e[0].line;
    } else {
      forall k | 0 <= k < |lines| ensures !Rejected(lines[k]) {
        ReportedIff(lines, k + 1);
      }
    }
  }

  /** Lines with equal trimmed text produce equal error lists. */
  lemma {:induction false} ErrorsDependOnTrim(a: seq<string>, b: seq<string>)
    requires |a| == |b|
    requires forall k :: 0 <= k < |a| ==> Trim(a[k]) == Trim(b[k])
    ensures Errors(a) == Errors(b)
    decreases |a|
  {
    if a != [] {
      ErrorsDependOnTrim(a[..|a| - 1], b[..|b| - 1]);
    }
  }

  /** Indenting any line by any number of spaces changes nothing. */
  lemma IndentationIrrelevant(lines: seq<string>, k: nat, n: nat)
    requires k < |lines|
    ensures Errors(lines[k := Spaces(n) + lines[k]]) == Errors(lines)
  {
    TrimIgnoresIndent(n, lines[k]);
    ErrorsDependOnTrim(lines[k := Spaces(n) + lines[k]], lines);
  }

  // ---------------------------------------------------------------------------
  // The validator's vocabulary against the interpreter and the registry
  // ---------------------------------------------------------------------------

  /** PICKUP and every IF/WHILE/ELSE header of the registry are rejected. */
  lemma RejectsRegistryVocabulary(line: string)
    requires Trim(line) in ["PICKUP", "IF ISBLOCKED", "IF NOT ISBLOCKED", "IF GETBLOCK == berry",
                            "IF GETBLOCK == free", "ELSE", "WHILE ISBLOCKED", "WHILE NOT ISBLOCKED",
                            "WHILE GETBLOCK == berry", "WHILE GETBLOCK == free"]
    ensures Rejected(line)
  {
  }

  /** Every kept line of `NonBlank` is one of its input lines. */
  lemma {:induction false} NonBlankKeepsLines(lines: seq<string>)
    ensures forall x :: x in Interpreter.NonBlank(lines) ==> x in lines
    decreases |lines|
  {
    if lines != [] {
      NonBlankKeepsLines(lines[1..]);
    }
  }

  /** An allowed line the interpreter does not act on is one of the three block words. */
  lemma AllowedIgnoredLines(x: string)
    requires IsAllowed(x) && !Interpreter.IsPrimitive(x)
    ensures x == "IF PATH AHEAD" || x == "WHILE PATH AHEAD" || x == "END"
  {
  }

  /** Lines none of which is rejected leave the interpreter only allowed lines. */
  lemma AcceptedLinesAllowed(lines: seq<string>)
    requires forall k :: 0 <= k < |lines| ==> !Rejected(lines[k])
    ensures forall x :: x in Interpreter.NonBlank(Interpreter.TrimAll(lines)) ==> IsAllowed(x)
  {
    var trimmed := Interpreter.TrimAll(lines);
    NonBlankKeepsLines(trimmed);
    forall x | x in Interpreter.NonBlank(trimmed) ensures IsAllowed(x) {
      var k :| 0 <= k < |trimmed| && trimmed[k] == x;
      assert !Rejected(lines[k]);
    }
  }

  /**
   * A program that passes validation runs only allowed lines: each line the
   * interpreter walks through is MOVE, TURN LEFT, TURN RIGHT, or one of the
   * three allowed lines the interpreter ignores.
   */
  lemma ValidProgramLinesAllowed(code: string)
    requires Errors(SplitLines(code)) == []
    ensures forall x :: x in Interpreter.ProgramLines(code) ==> IsAllowed(x)
    ensures forall x :: x in Interpreter.ProgramLines(code) && !Interpreter.IsPrimitive(x) ==>
      x == "IF PATH AHEAD" || x == "WHILE PATH AHEAD" || x == "END"
  {
    var lines := SplitLines(code);
    var program := Interpreter.ProgramLines(code);
    assert program == Interpreter.NonBlank(Interpreter.TrimAll(lines));
    NoErrorsIff(lines);
    AcceptedLinesAllowed(lines);
    forall x | x in program && !Interpreter.IsPrimitive(x)
      ensures x == "IF PATH AHEAD" || x == "WHILE PATH AHEAD" || x == "END"
    {
      AllowedIgnoredLines(x);
    }
  }

  /** The errors of a three-line program, line by line. */
  lemma ErrorsOfThree(a: string, b: string, c: string)
    ensures Errors([a, b, c]) == LineErrors(a, 1) + LineErrors(b, 2) + LineErrors(c, 3)
  {
    assert [a][..0] == [];
    assert Errors([a]) == LineErrors(a, 1);
    assert [a, b][..1] == [a];
    assert Errors([a, b]) == LineErrors(a, 1) + LineErrors(b, 2);
    assert [a, b, c][..2] == [a, b];
  }

  /** MOVE is accepted and PICKUP is reported, both already trimmed. */
  lemma MoveAndPickupLines(move: string, pickup: string)
    requires move == "MOVE" && pickup == "PICKUP"
    ensures LineErrors(move, 1) == [] && LineErrors(move, 3) == []
    ensures LineErrors(pickup, 2) == [PseudoCodeError(2, InvalidCommand(pickup))]
  {
    TrimOfTrimmed(move);
    TrimOfTrimmed(pickup);
  }

  /** The first level's own solution fails validation, on its PICKUP line. */
  lemma Level1SolutionRejected(level: Level)
    requires level == Level1()
    ensures Errors(SplitLines(level.solution)) == [PseudoCodeError(2, InvalidCommand("PICKUP"))]
  {
    var move, pickup := "MOVE", "PICKUP";
    assert level.solution == move + "\n" + (pickup + "\n" + move);
    ThreeLineProgramRejected(level.solution, move, pickup);
  }

  /** MOVE, PICKUP, MOVE is reported on its second line. */
  lemma ThreeLineProgramRejected(code: string, move: string, pickup: string)
    requires move == "MOVE" && pickup == "PICKUP"
    requires code == move + "\n" + (pickup + "\n" + move)
    ensures Errors(SplitLines(code)) == [PseudoCodeError(2, InvalidCommand(pickup))]
  {
    Interpreter.SplitThreeLines(code, move, pickup);
    MoveAndPickupLines(move, pickup);
    ErrorsOfThree(move, pickup, move);
  }
}
