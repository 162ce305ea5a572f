/** The string operations the toolchain relies on: splitting, joining and trimming. */
module Text {

  // ---------- splitting on one character, and joining ----------

  /** `s.split(c)` for a one-character separator: always at least one part. */
  function Split(s: string, c: char): (parts: seq<string>)
    ensures |parts| >= 1
  {
    if s == "" then [""]
    else if s[0] == c then [""] + Split(s[1..], c)
    else
      var rest := Split(s[1..], c);
      [[s[0]] + rest[0]] + rest[1..]
  }

  /** `c.join(parts)`. */
  function Join(parts: seq<string>, c: char): string {
    if parts == [] then ""
    else if |parts| == 1 then parts[0]
    else parts[0] + [c] + Join(parts[1..], c)
  }

  lemma {:induction false} JoinSplit(s: string, c: char)
    ensures Join(Split(s, c), c) == s
  {
    if s != "" {
      JoinSplit(s[1..], c);
      var rest := Split(s[1..], c);
      if s[0] == c {
        assert ([""] + rest)[1..] == rest;
      } else {
        var parts := [[s[0]] + rest[0]] + rest[1..];
        assert parts[1..] == rest[1..];
      }
    }
  }

  /** A part without the separator is split off whole. */
  lemma {:induction false} SplitFirst(part: string, s: string, c: char)
    requires c !in part
    ensures Split(part + [c] + s, c) == [part] + Split(s, c)
  {
    var whole := part + [c] + s;
    if part == "" {
      assert whole[1..] == s;
    } else {
      assert whole[1..] == part[1..] + [c] + s;
      SplitFirst(part[1..], s, c);
      var rest := Split(whole[1..], c);
      assert rest[0] == part[1..] && rest[1..] == Split(s, c);
      assert whole[0] == part[0] && part[0] in part && [part[0]] + part[1..] == part;
    }
  }

  lemma {:induction false} SplitNone(part: string, c: char)
    requires c !in part
    ensures Split(part, c) == [part]
  {
    if part != "" {
      SplitNone(part[1..], c);
      assert part[0] in part && [part[0]] + part[1..] == part;
    }
  }

  lemma {:induction false} SplitJoin(parts: seq<string>, c: char)
    requires parts != [] && forall i :: 0 <= i < |parts| ==> c !in parts[i]
    ensures Split(Join(parts, c), c) == parts
  {
    if |parts| == 1 {
      SplitNone(parts[0], c);
    } else {
      SplitJoin(parts[1..], c);
      SplitFirst(parts[0], Join(parts[1..], c), c);
    }
  }

  /** Parts have no character the string does not have, and never the separator. */
  lemma {:induction false} PartsAreClean(s: string, c: char, d: char)
    requires d == c || d !in s
    ensures forall i :: 0 <= i < |Split(s, c)| ==> d !in Split(s, c)[i]
  {
    if s != "" { PartsAreClean(s[1..], c, d); }
  }

  lemma {:induction false} JoinIsClean(parts: seq<string>, c: char, d: char)
    requires d != c && forall i :: 0 <= i < |parts| ==> d !in parts[i]
    ensures d !in Join(parts, c)
  {
    if |parts| > 1 { JoinIsClean(parts[1..], c, d); }
  }

  lemma {:induction false} JoinSnoc(parts: seq<string>, last: string, c: char)
    requires parts != []
    ensures Join(parts + [last], c) == Join(parts, c) + [c] + last
  {
    if |parts| > 1 {
      JoinSnoc(parts[1..], last, c);
      assert (parts + [last])[1..] == parts[1..] + [last];
    } else {
      assert (parts + [last])[1..] == [last];
    }
  }

  // ---------- words ----------

  /** `str.isspace` on one character. */
  predicate IsSpace(c: char) {
    var n := c as int;
    9 <= n <= 13 || 28 <= n <= 32 || n == 0x85 || n == 0xA0 || n == 0x1680 || 0x2000 <= n <= 0x200A
    || n == 0x2028 || n == 0x2029 || n == 0x202F || n == 0x205F || n == 0x3000
  }

  predicate IsWord(w: string) {
    w != "" && forall c :: c in w ==> !IsSpace(c)
  }

  /** How many leading characters are not white space. */
  function WordLength(s: string): (n: nat)
    ensures n <= |s| && (forall i :: 0 <= i < n ==> !IsSpace(s[i])) && (n < |s| ==> IsSpace(s[n]))
  {
    if s == "" || IsSpace(s[0]) then 0 else 1 + WordLength(s[1..])
  }

  /** `s.split()`: the maximal runs without white space. */
  function Words(s: string): (words: seq<string>)
    ensures forall i :: 0 <= i < |words| ==> IsWord(words[i])
    decreases |s|
  {
    if s == "" then []
    else if IsSpace(s[0]) then Words(s[1..])
    else
      var n := WordLength(s);
      [s[..n]] + Words(s[n..])
  }

  lemma {:induction false} WordLengthIs(w: string, rest: string)
    requires forall c :: c in w ==> !IsSpace(c)
    requires rest == "" || IsSpace(rest[0])
    ensures WordLength(w + rest) == |w|
  {
    if w != "" {
      assert (w + rest)[1..] == w[1..] + rest;
      WordLengthIs(w[1..], rest);
    } else {
      assert w + rest == rest;
    }
  }

  lemma WordsOfWord(w: string, rest: string)
    requires IsWord(w) && (rest == "" || IsSpace(rest[0]))
    ensures Words(w + rest) == [w] + Words(rest)
  {
    WordLengthIs(w, rest);
    assert (w + rest)[..|w|] == w && (w + rest)[|w|..] == rest;
    assert !IsSpace((w + rest)[0]);
  }

  lemma WordsSkipSpace(s: string)
    requires s != "" && IsSpace(s[0])
    ensures Words(s) == Words(s[1..])
  {
  }

  /** A blank between two texts separates their words. */
  lemma {:induction false} WordsConcat(a: string, b: string)
    ensures Words(a + " " + b) == Words(a) + Words(b)
    decreases |a|
  {
    if a == "" {
      WordsSkipSpace(a + " " + b);
      assert (a + " " + b)[1..] == b;
    } else if IsSpace(a[0]) {
      WordsConcat(a[1..], b);
      WordsConcatSpace(a, b);
    } else {
      WordsConcat(a[WordLength(a)..], b);
      WordsConcatAtWord(a, b);
    }
  }

  lemma WordsConcatSpace(a: string, b: string)
    requires a != "" && IsSpace(a[0]) && Words(a[1..] + " " + b) == Words(a[1..]) + Words(b)
    ensures Words(a + " " + b) == Words(a) + Words(b)
  {
    WordsSkipSpace(a);
    WordsSkipSpace(a + " " + b);
    assert (a + " " + b)[1..] == a[1..] + " " + b;
  }

  lemma SplitBeforeBlank(a: string, n: nat, b: string)
    requires n <= |a|
    ensures a + " " + b == a[..n] + (a[n..] + " " + b)
    ensures (a[n..] + " " + b)[0] == if n < |a| then a[n] else ' '
  {
  }

  lemma WordsConcatAtWord(a: string, b: string)
    requires a != "" && !IsSpace(a[0])
    requires Words(a[WordLength(a)..] + " " + b) == Words(a[WordLength(a)..]) + Words(b)
    ensures Words(a + " " + b) == Words(a) + Words(b)
  {
    var n := WordLength(a);
    SplitBeforeBlank(a, n, b);
    WordsConcatWord(a, n, a[n..] + " " + b, a + " " + b, b);
  }

  lemma WordsConcatWord(a: string, n: nat, tail: string, whole: string, b: string)
    requires 0 < n <= |a| && IsWord(a[..n]) && (n < |a| ==> IsSpace(a[n]))
    requires tail != "" && IsSpace(tail[0]) && Words(tail) == Words(a[n..]) + Words(b) && whole == a[..n] + tail
    ensures Words(whole) == Words(a) + Words(b)
  {
    var (w, rest) := (a[..n], Words(a[n..]));
    assert Words(a) == [w] + rest by {
      WordsOfWord(w, a[n..]);
      assert w + a[n..] == a;
    }
    assert Words(whole) == [w] + (rest + Words(b)) by { WordsOfWord(w, tail); }
    WordBeforeWords(w, rest, Words(b));
  }

  lemma WordBeforeWords(w: string, words: seq<string>, more: seq<string>)
    ensures [w] + (words + more) == [w] + words + more
  {
  }

  lemma {:induction false} WordsIndented(n: nat, s: string)
    ensures Words(Spaces(n) + s) == Words(s)
  {
    if n == 0 {
      assert Spaces(n) + s == s;
    } else {
      assert (Spaces(n) + s)[1..] == Spaces(n - 1) + s;
      WordsIndented(n - 1, s);
    }
  }

  lemma {:induction false} JoinAppend(a: seq<string>, b: seq<string>, c: char)
    requires a != [] && b != []
    ensures Join(a + b, c) == Join(a, c) + [c] + Join(b, c)
  {
    if |a| == 1 {
      assert (a + b)[1..] == b;
    } else {
      assert (a + b)[1..] == a[1..] + b;
      JoinAppend(a[1..], b, c);
    }
  }

  /** Joining words with blanks and splitting gives the words back. */
  lemma {:induction false} WordsJoin(words: seq<string>)
    requires forall i :: 0 <= i < |words| ==> IsWord(words[i])
    ensures Words(Join(words, ' ')) == words
  {
    if |words| == 1 {
      WordsOfWord(words[0], "");
      assert words[0] + "" == words[0];
    } else if |words| > 1 {
      WordsJoin(words[1..]);
      var rest := Join(words[1..], ' ');
      assert words[0] + [' '] + rest == words[0] + " " + rest;
      WordsConcat(words[0], rest);
      WordsOfWord(words[0], "");
      assert words[0] + "" == words[0];
    }
  }

  // ---------- trimming and prefixes ----------

  predicate StartsWith(s: string, prefix: string) {
    |prefix| <= |s| && s[..|prefix|] == prefix
  }

  predicate EndsWith(s: string, c: char) {
    s != "" && s[|s| - 1] == c
  }

  function Spaces(n: nat): (s: string)
    ensures |s| == n && forall i :: 0 <= i < n ==> s[i] == ' '
  {
    seq(n, _ => ' ')
  }

  /** Leading blanks. */
  function Indent(line: string): (n: nat)
    ensures n <= |line| && (forall i :: 0 <= i < n ==> line[i] == ' ') && (n < |line| ==> line[n] != ' ')
  {
    if line == "" || line[0] != ' ' then 0 else 1 + Indent(line[1..])
  }

  lemma {:induction false} IndentIs(n: nat, rest: string)
    requires rest == "" || rest[0] != ' '
    ensures Indent(Spaces(n) + rest) == n
  {
    if n == 0 {
      assert Spaces(n) + rest == rest;
    } else {
      assert (Spaces(n) + rest)[1..] == Spaces(n - 1) + rest;
      IndentIs(n - 1, rest);
    }
  }

  predicate IsBlank(c: char) { c == ' ' || c == '\r' }

  function TrimLeft(s: string): string {
    if s == "" || !IsBlank(s[0]) then s else TrimLeft(s[1..])
  }

  function TrimRight(s: string): string {
    if s == "" || !IsBlank(s[|s| - 1]) then s else TrimRight(s[..|s| - 1])
  }

  /** `s.strip(" \r")`. */
  function Trim(s: string): string {
    TrimRight(TrimLeft(s))
  }

  lemma {:induction false} TrimLeftIs(n: nat, rest: string)
    requires rest != "" && !IsBlank(rest[0])
    ensures TrimLeft(Spaces(n) + rest) == rest
  {
    if n == 0 {
      assert Spaces(n) + rest == rest;
    } else {
      assert (Spaces(n) + rest)[1..] == Spaces(n - 1) + rest;
      TrimLeftIs(n - 1, rest);
    }
  }

  lemma {:induction false} TrimRightIs(s: string, tail: string)
    requires s != "" && !IsBlank(s[|s| - 1]) && forall c :: c in tail ==> IsBlank(c)
    ensures TrimRight(s + tail) == s
  {
    if tail == "" {
      assert s + tail == s;
    } else {
      assert (s + tail)[..|s + tail| - 1] == s + tail[..|tail| - 1];
      TrimRightIs(s, tail[..|tail| - 1]);
    }
  }

  lemma {:induction false} TrimIsClean(s: string, d: char)
    requires d !in s
    ensures d !in Trim(s)
  {
    TrimLeftIsClean(s, d);
    TrimRightIsClean(TrimLeft(s), d);
  }

  lemma {:induction false} TrimLeftIsClean(s: string, d: char)
    requires d !in s
    ensures d !in TrimLeft(s)
  {
    if s != "" && IsBlank(s[0]) { TrimLeftIsClean(s[1..], d); }
  }

  lemma {:induction false} TrimRightIsClean(s: string, d: char)
    requires d !in s
    ensures d !in TrimRight(s)
  {
    if s != "" && IsBlank(s[|s| - 1]) { TrimRightIsClean(s[..|s| - 1], d); }
  }
}
