/** The block-syntax rewriter: `sp.if c:` and its relatives become `with` statements, line by line. */
module BlockSyntax {
  import opened Wrappers
  import opened Text

  /** `s[:-1]`. */
  function Front(s: string): string {
    if s == "" then "" else s[..|s| - 1]
  }

  const FOR := "sp.for"
  const IF := "sp.if"
  const WHILE := "sp.while"
  const ELSE := "sp.else"

  /** The header of a rewritten block, without indentation; `None` when the line stays, an index error for a truncated loop. */
  function Rewritten(body: string, nline: string): Result<Option<string>> {
    var p := Split(Front(nline), ' ');
    var colon := EndsWith(nline, ':');
    if StartsWith(body, FOR + " ") then
      if !(colon && p[0] == FOR) then Ok(None)
      else if |p| < 3 then Rejected("list index out of range")
      else if p[2] != "in" then Ok(None)
      else Ok(Some("with sp.for_('" + p[1] + "', " + Join(p[3..], ' ') + ") as " + p[1] + ":"))
    else if StartsWith(body, IF + " ") then
      if colon && p[0] == IF then Ok(Some("with sp.if_(" + Join(p[1..], ' ') + "):")) else Ok(None)
    else if StartsWith(body, WHILE + " ") then
      if colon && p[0] == WHILE then Ok(Some("with sp.while_(" + Join(p[1..], ' ') + "):")) else Ok(None)
    else if StartsWith(body, ELSE + " ") || StartsWith(body, ELSE + ":") then
      if colon then Ok(Some("with sp.else_():")) else Ok(None)
    else Ok(None)
  }

  /** One line of the loop. */
  function RewriteLine(line: string): Result<string> {
    match Rewritten(line[Indent(line)..], Trim(line))
    case Rejected(reason) => Rejected(reason)
    case Ok(None) => Ok(line)
    case Ok(Some(header)) =>
      Ok(Spaces(Indent(line)) + header + if EndsWith(line, '\r') then "\r" else "")
  }

  /** All lines that rewrite before the first one that raises. */
  ghost predicate RewritesTo(lines: seq<string>, output: seq<string>) {
    |lines| == |output| && forall i :: 0 <= i < |lines| ==> RewriteLine(lines[i]) == Ok(output[i])
  }

  /** A line that makes the rewriter raise: a `sp.for` header that ends before its third word. */
  predicate TruncatedLoop(line: string) {
    && StartsWith(line[Indent(line)..], FOR + " ") && EndsWith(Trim(line), ':')
    && Split(Front(Trim(line)), ' ')[0] == FOR && |Split(Front(Trim(line)), ' ')| < 3
  }

  ghost predicate HasTruncatedLoop(code: string) {
    exists i :: 0 <= i < |Split(code, '\n')| && TruncatedLoop(Split(code, '\n')[i])
  }

  lemma TruncationIsInTheCode(code: string, line: string, i: nat)
    requires i < |Split(code, '\n') + [""]| && (Split(code, '\n') + [""])[i] == line && TruncatedLoop(line)
    ensures HasTruncatedLoop(code)
  {
    assert line != "";
    assert Split(code, '\n')[i] == line;
  }

  lemma OnlyTruncatedLoopsRaise(line: string)
    ensures RewriteLine(line).Rejected? <==> TruncatedLoop(line)
  {
  }

  /** The rewritten text of a text whose first pass does not raise. */
  ghost predicate Adapts(code: string, result: string) {
    exists output: seq<string> :: RewritesTo(Split(code, '\n') + [""], output) && result == Join(output, '\n')
  }

  ghost predicate IsIdentityUpTo(lineMap: map<nat, nat>, last: nat) {
    forall n :: (n in lineMap <==> 1 <= n <= last) && (n in lineMap ==> lineMap[n] == n)
  }

  /**
   `adaptBlocks`: one output line per input line plus a final empty one, and the identity
   line map; it raises exactly on a truncated loop header.
   */
  method AdaptBlocks(code: string) returns (r: Result<string>, reverseLines: map<nat, nat>)
    ensures r.Rejected? <==> HasTruncatedLoop(code)
    ensures r.Ok? ==> Adapts(code, r.value)
    ensures r.Ok? ==> IsIdentityUpTo(reverseLines, |Split(code, '\n')| + 1)
  {
    reverseLines := map[];
    var lines := Split(code, '\n') + [""];
    var lineId := 0;
    var newLines: seq<(nat, string)> := [];
    for i := 0 to |lines|
      invariant |newLines| == i == lineId
      invariant forall k :: 0 <= k < i ==> newLines[k].0 == k + 1 && RewriteLine(lines[k]) == Ok(newLines[k].1)
    {
      lineId := lineId + 1;
      var rewritten := RewriteLine(lines[i]);
      OnlyTruncatedLoopsRaise(lines[i]);
      if rewritten.Rejected? {
        TruncationIsInTheCode(code, lines[i], i);
        return Rejected(rewritten.reason), map[];
      }
      newLines := newLines + [(lineId, rewritten.value)];
    }
    var output := seq(|newLines|, i requires 0 <= i < |newLines| => newLines[i].1);
    for i := 0 to |newLines|
      invariant IsIdentityUpTo(reverseLines, i)
    {
      reverseLines := reverseLines[i + 1 := newLines[i].0];
    }
    assert RewritesTo(lines, output);
    forall i | 0 <= i < |Split(code, '\n')| ensures !TruncatedLoop(Split(code, '\n')[i]) {
      OnlyTruncatedLoopsRaise(lines[i]);
    }
    return Ok(Join(output, '\n')), reverseLines;
  }

  // ---------- what one line keeps ----------

  /** A rewritten header starts with a word the rewriter does not look for. */
  lemma HeadersStartWithWith(body: string, nline: string)
    requires Rewritten(body, nline).Ok? && Rewritten(body, nline).value.Some?
    ensures StartsWith(Rewritten(body, nline).value.value, "with ")
  {
  }

  lemma WithIsLeftAlone(body: string, nline: string)
    requires StartsWith(body, "with ")
    ensures Rewritten(body, nline) == Ok(None)
  {
    assert body[0] == 'w';
  }

  /** A line that is no block header stays as it is. */
  lemma OtherLinesStay(line: string)
    requires var body := line[Indent(line)..];
      || !EndsWith(Trim(line), ':')
      || !(StartsWith(body, FOR + " ") || StartsWith(body, IF + " ") || StartsWith(body, WHILE + " ")
           || StartsWith(body, ELSE + " ") || StartsWith(body, ELSE + ":"))
    ensures RewriteLine(line) == Ok(line)
  {
  }

  /** Rewriting keeps the leading blanks, and rewriting again changes nothing. */
  lemma RewriteKeepsIndentAndSettles(line: string)
    requires RewriteLine(line).Ok?
    ensures Indent(RewriteLine(line).value) == Indent(line)
    ensures RewriteLine(RewriteLine(line).value) == RewriteLine(line)
  {
    var rewritten := Rewritten(line[Indent(line)..], Trim(line)).value;
    if rewritten.Some? {
      HeadersStartWithWith(line[Indent(line)..], Trim(line));
      var out := RewriteLine(line).value;
      var rest := rewritten.value + if EndsWith(line, '\r') then "\r" else "";
      assert rest[0] == rewritten.value[0] == "with "[0];
      assert out == Spaces(Indent(line)) + rest;
      IndentIs(Indent(line), rest);
      assert out[Indent(line)..] == rest;
      assert rest[..5] == rewritten.value[..5];
      WithIsLeftAlone(rest, Trim(out));
    }
  }

  lemma RewrittenIsOneLine(body: string, nline: string)
    requires '\n' !in nline && Rewritten(body, nline).Ok? && Rewritten(body, nline).value.Some?
    ensures '\n' !in Rewritten(body, nline).value.value
  {
    var p := Split(Front(nline), ' ');
    PartsAreClean(Front(nline), ' ', '\n');
    if StartsWith(body, FOR + " ") {
      JoinIsClean(p[3..], ' ', '\n');
      ForHeaderIsOneLine(p[1], Join(p[3..], ' '));
    } else {
      JoinIsClean(p[1..], ' ', '\n');
    }
  }

  lemma ForHeaderIsOneLine(variable: string, range: string)
    requires '\n' !in variable && '\n' !in range
    ensures '\n' !in "with sp.for_('" + variable + "', " + range + ") as " + variable + ":"
  {
  }

  /** Rewriting brings no new line break into a line. */
  lemma RewriteIsOneLine(line: string)
    requires '\n' !in line && RewriteLine(line).Ok?
    ensures '\n' !in RewriteLine(line).value
  {
    var (body, nline) := (line[Indent(line)..], Trim(line));
    TrimIsClean(line, '\n');
    if Rewritten(body, nline).value.Some? { RewrittenIsOneLine(body, nline); }
  }

  // ---------- the whole text ----------

  lemma EmptyLineIsKept(line: string)
    requires line == ""
    ensures RewriteLine(line) == Ok(line)
  {
  }

  /** Rewritten lines stay lines, keep their indentation, and are rewritten to themselves. */
  lemma LinesSettle(lines: seq<string>, output: seq<string>)
    requires RewritesTo(lines, output) && forall i :: 0 <= i < |lines| ==> '\n' !in lines[i]
    ensures forall i :: 0 <= i < |lines| ==> '\n' !in output[i] && Indent(output[i]) == Indent(lines[i])
    ensures RewritesTo(output, output)
  {
    forall i | 0 <= i < |lines|
      ensures '\n' !in output[i] && Indent(output[i]) == Indent(lines[i]) && RewriteLine(output[i]) == Ok(output[i])
    {
      RewriteIsOneLine(lines[i]);
      RewriteKeepsIndentAndSettles(lines[i]);
    }
  }

  lemma RewritesOneMore(lines: seq<string>, output: seq<string>)
    requires RewritesTo(lines, output)
    ensures RewritesTo(lines + [""], output + [""])
  {
    var (lines', output') := (lines + [""], output + [""]);
    forall i | 0 <= i < |lines'| ensures RewriteLine(lines'[i]) == Ok(output'[i]) {
      if i < |lines| {
        assert lines'[i] == lines[i] && output'[i] == output[i];
      } else {
        EmptyLineIsKept(lines'[i]);
      }
    }
  }

  lemma SecondPass(output: seq<string>)
    requires output != [] && RewritesTo(output, output) && forall i :: 0 <= i < |output| ==> '\n' !in output[i]
    ensures Split(Join(output, '\n'), '\n') == output
    ensures Adapts(Join(output, '\n'), Join(output, '\n') + "\n")
  {
    SplitJoin(output, '\n');
    RewritesOneMore(output, output);
    JoinSnoc(output, "", '\n');
    assert Join(output + [""], '\n') == Join(output, '\n') + "\n";
  }

  /**
   A second pass adds one line break and nothing else. Every output line keeps the
   indentation of its input line, and there is one more output line than input lines.
   */
  lemma AdaptingSettles(code: string, result: string)
    requires Adapts(code, result)
    ensures Adapts(result, result + "\n")
    ensures |Split(result, '\n')| == |Split(code, '\n')| + 1
    ensures forall i :: 0 <= i < |Split(code, '\n')| ==> Indent(Split(result, '\n')[i]) == Indent(Split(code, '\n')[i])
    ensures Split(result, '\n')[|Split(code, '\n')|] == ""
  {
    var lines := Split(code, '\n') + [""];
    var output: seq<string> :| RewritesTo(lines, output) && result == Join(output, '\n');
    PartsAreClean(code, '\n', '\n');
    LinesSettle(lines, output);
    SecondPass(output);
    EmptyLineIsKept(lines[|lines| - 1]);
  }

  // ---------- what the rewritten header says ----------

  lemma TrimmedLine(n: nat, text: string, tail: string)
    requires text != "" && !IsBlank(text[0]) && !IsBlank(text[|text| - 1]) && forall c :: c in tail ==> IsBlank(c)
    ensures var line := Spaces(n) + text + tail;
      Indent(line) == n && line[n..] == text + tail && Trim(line) == text
  {
    assert Spaces(n) + text + tail == Spaces(n) + (text + tail);
    IndentIs(n, text + tail);
    TrimLeftIs(n, text + tail);
    TrimRightIs(text, tail);
  }

  /** The condition of an `sp.if` or `sp.while` is carried over character for character. */
  lemma ConditionIsCarriedOver(n: nat, keyword: string, condition: string, tail: string)
    requires keyword == IF || keyword == WHILE
    requires forall c :: c in tail ==> IsBlank(c)
    ensures RewriteLine(Spaces(n) + (keyword + " " + condition + ":") + tail)
         == Ok(Spaces(n) + ("with " + keyword + "_(" + condition + "):") + if EndsWith(tail, '\r') then "\r" else "")
  {
    var text := keyword + " " + condition + ":";
    TrimmedLine(n, text, tail);
    assert (text + tail)[..|keyword + " "|] == keyword + " ";
    ConditionHeader(keyword, condition, text + tail);
    var line := Spaces(n) + text + tail;
    assert EndsWith(line, '\r') == EndsWith(tail, '\r');
  }

  lemma ConditionHeader(keyword: string, condition: string, body: string)
    requires keyword == IF || keyword == WHILE
    requires StartsWith(body, keyword + " ")
    ensures Rewritten(body, keyword + " " + condition + ":")
         == Ok(Some("with " + keyword + "_(" + condition + "):"))
  {
    var text := keyword + " " + condition + ":";
    assert Front(text) == keyword + [' '] + condition;
    SplitFirst(keyword, condition, ' ');
    JoinSplit(condition, ' ');
    assert Split(Front(text), ' ')[1..] == Split(condition, ' ');
    assert body[3] == keyword[3] && keyword[3] != 'f' && (FOR + " ")[3] == 'f';
    if keyword == IF {
      assert "with " + IF + "_(" == "with sp.if_(";
    } else {
      assert keyword[3] == 'w' && (IF + " ")[3] == 'i';
      assert "with " + WHILE + "_(" == "with sp.while_(";
    }
  }

  /** The variable and the range of an `sp.for` are carried over character for character. */
  lemma LoopIsCarriedOver(n: nat, variable: string, range: string, tail: string)
    requires ' ' !in variable && forall c :: c in tail ==> IsBlank(c)
    ensures RewriteLine(Spaces(n) + (FOR + " " + variable + " in " + range + ":") + tail)
         == Ok(Spaces(n) + ("with sp.for_('" + variable + "', " + range + ") as " + variable + ":")
               + if EndsWith(tail, '\r') then "\r" else "")
  {
    var text := FOR + " " + variable + " in " + range + ":";
    TrimmedLine(n, text, tail);
    assert (text + tail)[..|FOR + " "|] == FOR + " ";
    LoopHeader(variable, range, text + tail);
    var line := Spaces(n) + text + tail;
    assert EndsWith(line, '\r') == EndsWith(tail, '\r');
  }

  /** A loop header whose third word is not `in` stays as it is. */
  lemma LoopWithoutInStays(n: nat, variable: string, word: string, range: string, tail: string)
    requires ' ' !in variable && ' ' !in word && word != "in" && forall c :: c in tail ==> IsBlank(c)
    ensures var line := Spaces(n) + (FOR + " " + variable + " " + word + " " + range + ":") + tail;
      RewriteLine(line) == Ok(line)
  {
    var text := FOR + " " + variable + " " + word + " " + range + ":";
    TrimmedLine(n, text, tail);
    assert (text + tail)[..|FOR + " "|] == FOR + " ";
    assert Front(text) == FOR + [' '] + (variable + [' '] + (word + [' '] + range));
    SplitFirst(FOR, variable + [' '] + (word + [' '] + range), ' ');
    SplitFirst(variable, word + [' '] + range, ' ');
    SplitFirst(word, range, ' ');
  }

  lemma LoopWithoutRangeIsTruncated(line: string, n: nat, variable: string)
    requires ' ' !in variable && line == Spaces(n) + (FOR + " " + variable + ":")
    ensures TruncatedLoop(line)
  {
    var text := FOR + " " + variable + ":";
    TrimmedLine(n, text, "");
    assert Spaces(n) + text + "" == line && text + "" == text;
    assert text[..|FOR + " "|] == FOR + " ";
    assert Front(text) == FOR + [' '] + variable;
    SplitFirst(FOR, variable, ' ');
    SplitNone(variable, ' ');
  }

  /** A loop header without a range raises, at any indentation. */
  lemma LoopWithoutRangeRaises(n: nat, variable: string)
    requires ' ' !in variable
    ensures RewriteLine(Spaces(n) + (FOR + " " + variable + ":")).Rejected?
  {
    var line := Spaces(n) + (FOR + " " + variable + ":");
    LoopWithoutRangeIsTruncated(line, n, variable);
    OnlyTruncatedLoopsRaise(line);
  }

  lemma OneLineCode(line: string)
    requires '\n' !in line && TruncatedLoop(line)
    ensures HasTruncatedLoop(line)
  {
    SplitNone(line, '\n');
    assert TruncatedLoop(Split(line, '\n')[0]);
  }

  lemma LoopLineRaises(line: string, variable: string)
    requires line == Spaces(0) + (FOR + " " + variable + ":") && ' ' !in variable && '\n' !in line
    ensures HasTruncatedLoop(line)
  {
    LoopWithoutRangeIsTruncated(line, 0, variable);
    OneLineCode(line);
  }

  /** In particular `sp.for x:`. */
  lemma TruncatedLoopsExist(line: string)
    requires line == "sp.for x:"
    ensures HasTruncatedLoop(line)
  {
    LoopLineRaises(line, line[7..8]);
  }

  /** An `sp.else` keeps nothing but its indentation. */
  lemma ElseIsRewritten(n: nat, gap: nat, tail: string)
    requires forall c :: c in tail ==> IsBlank(c)
    ensures RewriteLine(Spaces(n) + (ELSE + Spaces(gap) + ":") + tail)
         == Ok(Spaces(n) + "with sp.else_():" + if EndsWith(tail, '\r') then "\r" else "")
  {
    var text := ELSE + Spaces(gap) + ":";
    TrimmedLine(n, text, tail);
    ElseHeader(text + tail, text, gap, tail);
    var line := Spaces(n) + text + tail;
    assert EndsWith(line, '\r') == EndsWith(tail, '\r');
  }

  lemma ElseHeader(body: string, text: string, gap: nat, tail: string)
    requires text == ELSE + Spaces(gap) + ":" && body == text + tail
    ensures Rewritten(body, text) == Ok(Some("with sp.else_():"))
  {
    assert body[3] == ELSE[3] == 'e';
    assert (FOR + " ")[3] == 'f' && (IF + " ")[3] == 'i' && (WHILE + " ")[3] == 'w';
    if gap == 0 {
      assert body[..8] == ELSE + ":";
    } else {
      assert body[..8] == ELSE + " ";
    }
  }

  lemma LoopHeaderParts(variable: string, range: string)
    requires ' ' !in variable
    ensures Split(Front(FOR + " " + variable + " in " + range + ":"), ' ') == [FOR, variable, "in"] + Split(range, ' ')
  {
    var afterIn := "in" + [' '] + range;
    var afterFor := variable + [' '] + afterIn;
    assert Front(FOR + " " + variable + " in " + range + ":") == FOR + [' '] + afterFor;
    SplitFirst(FOR, afterFor, ' ');
    SplitFirst(variable, afterIn, ' ');
    SplitFirst("in", range, ' ');
    assert [FOR] + ([variable] + (["in"] + Split(range, ' '))) == [FOR, variable, "in"] + Split(range, ' ');
  }

  lemma LoopHeader(variable: string, range: string, body: string)
    requires ' ' !in variable && StartsWith(body, FOR + " ")
    ensures Rewritten(body, FOR + " " + variable + " in " + range + ":")
         == Ok(Some("with sp.for_('" + variable + "', " + range + ") as " + variable + ":"))
  {
    LoopHeaderParts(variable, range);
    JoinSplit(range, ' ');
    var p := [FOR, variable, "in"] + Split(range, ' ');
    assert p[3..] == Split(range, ' ') && p[0] == FOR && p[1] == variable && p[2] == "in";
  }
}
