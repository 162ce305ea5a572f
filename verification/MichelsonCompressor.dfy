/** The line compressor: runs of plain instruction lines become one line each. */
module MichelsonCompressor {
  import opened Wrappers
  import opened Text

  /** A line the compressor may append to the line before it. Defined on non-blank lines. */
  predicate Mergeable(line: string) {
    var row := Words(line);
    && '{' !in line && '}' !in line
    && row != [] && EndsWith(row[|row| - 1], ';')
    && !StartsWith(row[0], "parameter") && !StartsWith(row[0], "storage")
  }

  predicate Blank(line: string) { Words(line) == [] }

  /** `line` with the words of mergeable lines that follow appended. */
  function Absorb(line: string, followers: seq<string>): string
    decreases |followers|
  {
    if followers == [] then line else Absorb(line + " " + Join(Words(followers[0]), ' '), followers[1..])
  }

  /** How many leading lines are mergeable. */
  function RunLength(lines: seq<string>): (n: nat)
    ensures n <= |lines| && (forall i :: 0 <= i < n ==> Mergeable(lines[i])) && (n < |lines| ==> !Mergeable(lines[n]))
  {
    if lines == [] || !Mergeable(lines[0]) then 0 else 1 + RunLength(lines[1..])
  }

  /** The reference: every maximal run of mergeable lines becomes one line, other lines stay. */
  function Compressed(lines: seq<string>): seq<string>
    decreases |lines|
  {
    if lines == [] then []
    else if !Mergeable(lines[0]) then [lines[0]] + Compressed(lines[1..])
    else
      var n := RunLength(lines);
      [Absorb(lines[0], lines[1..n])] + Compressed(lines[n..])
  }

  /** What is still to come after an open run whose merged line so far is `open`. */
  function Continued(open: string, lines: seq<string>): seq<string> {
    var n := RunLength(lines);
    [Absorb(open, lines[..n])] + Compressed(lines[n..])
  }

  lemma OpensRun(line: string, lines: seq<string>)
    requires Mergeable(line)
    ensures Compressed([line] + lines) == Continued(line, lines)
  {
    var all := [line] + lines;
    assert all[1..] == lines;
    var n := RunLength(lines);
    assert RunLength(all) == n + 1;
    assert all[1..n + 1] == lines[..n] && all[n + 1..] == lines[n..];
  }

  lemma ContinuesRun(open: string, line: string, lines: seq<string>)
    requires Mergeable(line)
    ensures Continued(open, [line] + lines) == Continued(open + " " + Join(Words(line), ' '), lines)
  {
    var all := [line] + lines;
    assert all[1..] == lines;
    var n := RunLength(lines);
    assert RunLength(all) == n + 1;
    assert all[..n + 1][1..] == lines[..n] && all[n + 1..] == lines[n..];
  }

  lemma EndsRun(open: string, lines: seq<string>)
    requires lines == [] || !Mergeable(lines[0])
    ensures Continued(open, lines) == [open] + Compressed(lines)
  {
    assert lines[0..] == lines;
  }

  /** The whole output, given the output so far, whether its last line is an open run, and the lines to come. */
  ghost function Pending(result: seq<string>, inSeq: bool, rest: seq<string>): seq<string>
    requires inSeq ==> result != []
  {
    if inSeq then result[..|result| - 1] + Continued(result[|result| - 1], rest) else result + Compressed(rest)
  }

  lemma MergingStep(result: seq<string>, line: string, rest: seq<string>)
    requires result != [] && Mergeable(line)
    ensures Pending(result, true, [line] + rest)
         == Pending(result[..|result| - 1] + [result[|result| - 1] + " " + Join(Words(line), ' ')], true, rest)
  {
    ContinuesRun(result[|result| - 1], line, rest);
  }

  lemma AppendingStep(result: seq<string>, inSeq: bool, line: string, rest: seq<string>)
    requires (inSeq ==> result != []) && !(inSeq && Mergeable(line))
    ensures Pending(result, inSeq, [line] + rest) == Pending(result + [line], Mergeable(line), rest)
  {
    ClosingStep(result, inSeq, [line] + rest);
    if Mergeable(line) { OpensRun(line, rest); }
    assert (result + [line])[..|result|] == result;
    assert ([line] + rest)[1..] == rest;
  }

  lemma FrontAndLast<T>(s: seq<T>, tail: seq<T>)
    requires s != []
    ensures s[..|s| - 1] + ([s[|s| - 1]] + tail) == s + tail
  {
  }

  lemma ClosingStep(result: seq<string>, inSeq: bool, rest: seq<string>)
    requires (inSeq ==> result != []) && !(inSeq && rest != [] && Mergeable(rest[0]))
    ensures Pending(result, inSeq, rest) == result + Compressed(rest)
  {
    if inSeq {
      EndsRun(result[|result| - 1], rest);
      FrontAndLast(result, Compressed(rest));
    }
  }

  /** The row test of the original on one line: an index error on a blank line, else whether it is mergeable. */
  method RowTest(line: string) returns (seqOK: Result<bool>)
    ensures seqOK.Rejected? <==> Blank(line)
    ensures seqOK.Ok? ==> seqOK.value == Mergeable(line)
  {
    var row := Words(line);
    if '{' in line || '}' in line {
      BracesAreWords(line);
      return Ok(false);
    }
    if row == [] {
      return Rejected("list index out of range");
    }
    return Ok(EndsWith(row[|row| - 1], ';')
              && !StartsWith(row[0], "parameter") && !StartsWith(row[0], "storage"));
  }

  /** The compressor raises an index error exactly when some line is blank; otherwise it computes the reference. */
  method CompressMichelson(lines: seq<string>) returns (r: Result<seq<string>>)
    ensures r.Rejected? <==> exists i :: 0 <= i < |lines| && Blank(lines[i])
    ensures r.Ok? ==> r.value == Compressed(lines)
  {
    var result: seq<string> := [];
    var inSeq := false;
    for i := 0 to |lines|
      invariant forall k :: 0 <= k < i ==> !Blank(lines[k])
      invariant inSeq ==> result != []
      invariant Compressed(lines) == Pending(result, inSeq, lines[i..])
    {
      var line := lines[i];
      var seqOK := RowTest(line);
      if seqOK.Rejected? {
        return Rejected(seqOK.reason);
      }
      assert lines[i..] == [line] + lines[i + 1..];
      if inSeq && seqOK.value {
        MergingStep(result, line, lines[i + 1..]);
        result := result[..|result| - 1] + [result[|result| - 1] + " " + Join(Words(line), ' ')];
      } else {
        AppendingStep(result, inSeq, line, lines[i + 1..]);
        result := result + [line];
        inSeq := seqOK.value;
      }
    }
    ClosingStep(result, inSeq, []);
    return Ok(result);
  }

  /** A line with a brace in it is not blank. */
  lemma {:induction false} BracesAreWords(line: string)
    requires '{' in line || '}' in line
    ensures Words(line) != []
  {
    if IsSpace(line[0]) {
      assert line == [line[0]] + line[1..];
      BracesAreWords(line[1..]);
    }
  }

  // ---------- what compression keeps ----------

  function AllWords(lines: seq<string>): seq<string> {
    if lines == [] then [] else Words(lines[0]) + AllWords(lines[1..])
  }

  lemma {:induction false} AllWordsAppend(a: seq<string>, b: seq<string>)
    ensures AllWords(a + b) == AllWords(a) + AllWords(b)
  {
    if a == [] {
      assert a + b == b;
    } else {
      assert (a + b)[1..] == a[1..] + b;
      AllWordsAppend(a[1..], b);
    }
  }

  lemma MergedWords(line: string, next: string)
    ensures Words(line + " " + Join(Words(next), ' ')) == Words(line) + Words(next)
  {
    WordsConcat(line, Join(Words(next), ' '));
    WordsJoin(Words(next));
  }

  lemma {:induction false} AbsorbKeepsWords(line: string, followers: seq<string>)
    ensures Words(Absorb(line, followers)) == Words(line) + AllWords(followers)
    decreases |followers|
  {
    if followers != [] {
      var merged := line + " " + Join(Words(followers[0]), ' ');
      MergedWords(line, followers[0]);
      AbsorbKeepsWords(merged, followers[1..]);
      assert Words(merged) + AllWords(followers[1..])
          == Words(line) + (Words(followers[0]) + AllWords(followers[1..]));
    }
  }

  /** Compression loses, duplicates and reorders no token. */
  lemma {:induction false} CompressionKeepsTokens(lines: seq<string>)
    ensures AllWords(Compressed(lines)) == AllWords(lines)
    decreases |lines|
  {
    if lines == [] {
    } else if !Mergeable(lines[0]) {
      CompressionKeepsTokens(lines[1..]);
      AllWordsAppend([lines[0]], Compressed(lines[1..]));
    } else {
      var n := RunLength(lines);
      var merged := Absorb(lines[0], lines[1..n]);
      CompressionKeepsTokens(lines[n..]);
      AbsorbKeepsWords(lines[0], lines[1..n]);
      assert lines[..n][1..] == lines[1..n] && AllWords(lines[..n]) == Words(lines[0]) + AllWords(lines[1..n]);
      assert Compressed(lines) == [merged] + Compressed(lines[n..]);
      assert ([merged] + Compressed(lines[n..]))[1..] == Compressed(lines[n..]);
      assert lines == lines[..n] + lines[n..];
      AllWordsAppend(lines[..n], lines[n..]);
    }
  }

  lemma {:induction false} WordsAreClean(s: string, d: char)
    requires d !in s
    ensures forall i :: 0 <= i < |Words(s)| ==> d !in Words(s)[i]
    decreases |s|
  {
    if s == "" {
    } else if IsSpace(s[0]) {
      WordsAreClean(s[1..], d);
    } else {
      WordsAreClean(s[WordLength(s)..], d);
    }
  }

  lemma MergedIsClean(line: string, next: string, d: char)
    requires d != ' ' && d !in line && d !in next
    ensures d !in line + " " + Join(Words(next), ' ')
  {
    WordsAreClean(next, d);
    JoinIsClean(Words(next), ' ', d);
  }

  /** Appending a mergeable line to a mergeable line gives a mergeable line. */
  lemma MergeStaysMergeable(line: string, next: string)
    requires Mergeable(line) && Mergeable(next)
    ensures Mergeable(line + " " + Join(Words(next), ' '))
  {
    MergedWords(line, next);
    MergedIsClean(line, next, '{');
    MergedIsClean(line, next, '}');
  }

  lemma {:induction false} AbsorbStaysMergeable(line: string, followers: seq<string>)
    requires Mergeable(line) && forall i :: 0 <= i < |followers| ==> Mergeable(followers[i])
    ensures Mergeable(Absorb(line, followers))
    decreases |followers|
  {
    if followers != [] {
      MergeStaysMergeable(line, followers[0]);
      AbsorbStaysMergeable(line + " " + Join(Words(followers[0]), ' '), followers[1..]);
    }
  }

  ghost predicate NothingLeftToMerge(lines: seq<string>) {
    forall i :: 0 <= i < |lines| - 1 ==> !(Mergeable(lines[i]) && Mergeable(lines[i + 1]))
  }

  /** No two neighbouring output lines could still be merged, and the first line keeps its kind. */
  lemma {:induction false} CompressionMergesAll(lines: seq<string>)
    ensures NothingLeftToMerge(Compressed(lines))
    ensures lines != [] ==> Compressed(lines) != [] && Mergeable(Compressed(lines)[0]) == Mergeable(lines[0])
    decreases |lines|
  {
    if lines == [] {
    } else if !Mergeable(lines[0]) {
      CompressionMergesAll(lines[1..]);
      assert forall i :: 0 < i < |Compressed(lines)| ==> Compressed(lines)[i] == Compressed(lines[1..])[i - 1];
    } else {
      var n := RunLength(lines);
      CompressionMergesAll(lines[n..]);
      AbsorbStaysMergeable(lines[0], lines[1..n]);
      assert forall i :: 0 < i < |Compressed(lines)| ==> Compressed(lines)[i] == Compressed(lines[n..])[i - 1];
    }
  }

  /** Lines with nothing left to merge are left exactly as they are. */
  lemma {:induction false} CompressionFixes(lines: seq<string>)
    requires NothingLeftToMerge(lines)
    ensures Compressed(lines) == lines
    decreases |lines|
  {
    if lines != [] {
      CompressionFixes(lines[1..]);
      if Mergeable(lines[0]) {
        assert lines[1..] == [] || !Mergeable(lines[1]);
        assert RunLength(lines[1..]) == 0 && RunLength(lines) == 1;
        assert lines[1..1] == [];
      }
    }
  }

  /** Compressing twice is compressing once. */
  lemma CompressionIsIdempotent(lines: seq<string>)
    ensures Compressed(Compressed(lines)) == Compressed(lines)
  {
    CompressionMergesAll(lines);
    CompressionFixes(Compressed(lines));
  }

  /** The output never holds a blank line when the input holds none, so a second pass never raises either. */
  lemma {:induction false} CompressionMakesNoBlanks(lines: seq<string>)
    requires forall i :: 0 <= i < |lines| ==> !Blank(lines[i])
    ensures forall i :: 0 <= i < |Compressed(lines)| ==> !Blank(Compressed(lines)[i])
    decreases |lines|
  {
    if lines == [] {
    } else if !Mergeable(lines[0]) {
      CompressionMakesNoBlanks(lines[1..]);
    } else {
      var n := RunLength(lines);
      CompressionMakesNoBlanks(lines[n..]);
      AbsorbKeepsWords(lines[0], lines[1..n]);
    }
  }

  // ---------- which lines are merged, and into what ----------

  /** An indented line of words. */
  function Line(indent: nat, words: seq<string>): string {
    Spaces(indent) + Join(words, ' ')
  }

  /** A line of words is merged exactly when it is brace-free, its last word ends in a semicolon, and it opens no section. */
  lemma InstructionLinesMerge(indent: nat, words: seq<string>)
    requires words != [] && forall i :: 0 <= i < |words| ==> IsWord(words[i])
    ensures Words(Line(indent, words)) == words
    ensures Mergeable(Line(indent, words)) <==>
      && '{' !in Line(indent, words) && '}' !in Line(indent, words)
      && (var last := words[|words| - 1]; last[|last| - 1] == ';')
      && !StartsWith(words[0], "parameter") && !StartsWith(words[0], "storage")
  {
    WordsIndented(indent, Join(words, ' '));
    WordsJoin(words);
  }

  lemma {:induction false} AbsorbedLine(indent: nat, words: seq<string>, followers: seq<string>)
    requires words != [] && forall i :: 0 <= i < |followers| ==> !Blank(followers[i])
    ensures Absorb(Line(indent, words), followers) == Line(indent, words + AllWords(followers))
    decreases |followers|
  {
    if followers == [] {
      assert words + [] == words;
    } else {
      var (next, rest) := (Words(followers[0]), followers[1..]);
      JoinAppend(words, next, ' ');
      assert Line(indent, words) + " " + Join(next, ' ') == Line(indent, words + next);
      AbsorbedLine(indent, words + next, rest);
      assert words + next + AllWords(rest) == words + AllWords(followers);
    }
  }

  /** A run of mergeable lines becomes one line: the first line's indentation, then all words with single blanks between. */
  lemma RunsBecomeOneLine(indent: nat, words: seq<string>, followers: seq<string>, rest: seq<string>)
    requires words != [] && Mergeable(Line(indent, words))
    requires forall i :: 0 <= i < |followers| ==> Mergeable(followers[i])
    requires rest != [] ==> !Mergeable(rest[0])
    ensures Compressed([Line(indent, words)] + followers + rest)
         == [Line(indent, words + AllWords(followers))] + Compressed(rest)
  {
    var lines := [Line(indent, words)] + followers + rest;
    LongestRun(lines, 1 + |followers|);
    assert lines[1..1 + |followers|] == followers && lines[1 + |followers|..] == rest;
    AbsorbedLine(indent, words, followers);
  }

  lemma {:induction false} LongestRun(lines: seq<string>, n: nat)
    requires n <= |lines| && (forall i :: 0 <= i < n ==> Mergeable(lines[i])) && (n < |lines| ==> !Mergeable(lines[n]))
    ensures RunLength(lines) == n
  {
  }

  /** Any other line stays on its own. */
  lemma OtherLinesStay(line: string, rest: seq<string>)
    requires !Mergeable(line)
    ensures Compressed([line] + rest) == [line] + Compressed(rest)
  {
    assert ([line] + rest)[1..] == rest;
  }
}
