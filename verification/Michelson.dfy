/** The Michelson pretty-printer's token loop and the line compressor, on the code's own strings. */
module Michelson {
  import opened Wrappers
  import opened Text

  /** One output line of the token loop, with the comment attached to it. */
  datatype Piece = Piece(text: string, comment: Option<string>)

  predicate IsKeyword(token: string) {
    token == "parameter" || token == "storage" || token == "code"
  }

  predicate IsDelimiter(token: string) {
    token == "{" || token == "}" || token == "};" || token == ";"
  }

  /** A token after which a new piece starts. */
  predicate EndsPiece(token: string) {
    IsKeyword(token) || IsDelimiter(token) || EndsWith(token, ';')
  }

  /** Pieces are cut between two neighbouring tokens exactly here. */
  predicate CutBetween(left: string, right: string) {
    EndsPiece(left) || IsDelimiter(right)
  }

  /** Parameter, storage and code occur only where a piece starts. */
  ghost predicate KeywordsStartPieces(tokens: seq<string>) {
    forall i :: 0 < i < |tokens| && IsKeyword(tokens[i]) ==> EndsPiece(tokens[i - 1])
  }

  ghost predicate AllWords(tokens: seq<string>) {
    forall i :: 0 <= i < |tokens| ==> IsWord(tokens[i])
  }

  /** The tokens of some pieces, in order. */
  function TokensOf(pieces: seq<Piece>): seq<string> {
    if pieces == [] then [] else TokensOf(pieces[..|pieces| - 1]) + Words(pieces[|pieces| - 1].text)
  }

  /** No cut falls inside any of these token runs. */
  ghost predicate Uncut(tokens: seq<string>) {
    forall i :: 0 < i < |tokens| ==> !CutBetween(tokens[i - 1], tokens[i])
  }

  function Last(words: seq<string>): string {
    if words == [] then "" else words[|words| - 1]
  }

  function First(words: seq<string>): Option<string> {
    if words == [] then None else Some(words[0])
  }

  /**
   The reference for the loop: no piece is empty or has a cut inside, and there is a cut
   between every two neighbours, as well as before the token that comes `next`.
   */
  ghost predicate CutsExactly(pieces: seq<Piece>, next: Option<string>) {
    pieces == [] ||
    var words := Words(pieces[|pieces| - 1].text);
    && words != [] && Uncut(words)
    && (next.Some? ==> CutBetween(Last(words), next.value))
    && CutsExactly(pieces[..|pieces| - 1], Some(words[0]))
  }

  /** Only the last piece can carry the comment, and it does unless its last token is a keyword or a delimiter. */
  ghost predicate CommentPlaced(pieces: seq<Piece>, tokens: seq<string>, comment: Option<string>) {
    && (forall k :: 0 <= k < |pieces| - 1 ==> pieces[k].comment == None)
    && (pieces != [] ==>
          pieces[|pieces| - 1].comment
          == if IsKeyword(Last(tokens)) || IsDelimiter(Last(tokens)) then None else comment)
  }

  /** What the loop keeps on lines whose keywords start their pieces. */
  ghost predicate Orderly(result: seq<Piece>, split: seq<string>, cursor: nat, tokens: seq<string>,
                          comment: Option<string>)
  {
    && KeywordsStartPieces(split)
    && CutsExactly(result, First(split))
    && (if split == [] then CommentPlaced(result, tokens, comment)
        else
          && cursor < |split| && Last(split) == Last(tokens)
          && (forall i :: 0 <= i < cursor ==> !EndsPiece(split[i]))
          && Uncut(split[..cursor])
          && forall k :: 0 <= k < |result| ==> result[k].comment == None)
  }

  /** Each piece is its own words with single blanks between. */
  ghost predicate SingleBlanks(pieces: seq<Piece>) {
    forall k :: 0 <= k < |pieces| ==> pieces[k].text == Join(Words(pieces[k].text), ' ')
  }

  /** Emitting words as one piece moves exactly those words to the output. */
  lemma EmitMovesTokens(result: seq<Piece>, words: seq<string>, comment: Option<string>, rest: seq<string>)
    requires AllWords(words)
    ensures TokensOf(result + [Piece(Join(words, ' '), comment)]) + rest == TokensOf(result) + (words + rest)
    ensures SingleBlanks(result) ==> SingleBlanks(result + [Piece(Join(words, ' '), comment)])
  {
    WordsJoin(words);
    var pieces := result + [Piece(Join(words, ' '), comment)];
    assert pieces[..|pieces| - 1] == result;
  }

  /** Emitting the first `n` tokens at a cut keeps the output cut exactly. */
  lemma EmitCuts(result: seq<Piece>, split: seq<string>, n: nat, comment: Option<string>)
    requires 0 < n <= |split| && AllWords(split) && CutsExactly(result, First(split)) && Uncut(split[..n])
    requires n < |split| ==> CutBetween(split[n - 1], split[n])
    ensures CutsExactly(result + [Piece(Join(split[..n], ' '), comment)], First(split[n..]))
  {
    WordsJoin(split[..n]);
    var pieces := result + [Piece(Join(split[..n], ' '), comment)];
    assert pieces[..|pieces| - 1] == result;
  }

  /** The tokens up to the cursor stay uncut when the token at the cursor is no delimiter. */
  lemma UncutExtends(split: seq<string>, cursor: nat)
    requires cursor < |split| && Uncut(split[..cursor]) && (forall i :: 0 <= i < cursor ==> !EndsPiece(split[i]))
    requires cursor > 0 ==> !IsDelimiter(split[cursor])
    ensures Uncut(split[..cursor + 1])
  {
    var longer := split[..cursor + 1];
    forall i | 0 < i < |longer| ensures !CutBetween(longer[i - 1], longer[i]) {
      if i < cursor { assert longer[i - 1] == split[..cursor][i - 1] && longer[i] == split[..cursor][i]; }
    }
  }

  lemma KeywordMeansStart(split: seq<string>, cursor: nat)
    requires 0 < cursor < |split| && KeywordsStartPieces(split) && IsKeyword(split[cursor])
    ensures EndsPiece(split[cursor - 1])
  {
  }

  /** Emitting the first `n` tokens without the comment, when more tokens or a delimiter decide the comment. */
  lemma EmitOrderly(result: seq<Piece>, split: seq<string>, cursor: nat, n: nat, tokens: seq<string>,
                    comment: Option<string>)
    requires AllWords(split) && Orderly(result, split, cursor, tokens, comment)
    requires 0 < n <= |split| && Uncut(split[..n])
    requires n < |split| ==> CutBetween(split[n - 1], split[n])
    requires n == |split| ==> IsKeyword(Last(split)) || IsDelimiter(Last(split))
    ensures Orderly(result + [Piece(Join(split[..n], ' '), None)], split[n..], 0, tokens, comment)
  {
    EmitCuts(result, split, n, None);
    var rest := split[n..];
    forall i | 0 < i < |rest| && IsKeyword(rest[i]) ensures EndsPiece(rest[i - 1]) {
      assert rest[i] == split[n + i] && rest[i - 1] == split[n + i - 1];
    }
  }

  lemma EmitLastOrderly(result: seq<Piece>, split: seq<string>, cursor: nat, tokens: seq<string>, comment: Option<string>)
    requires AllWords(split) && Orderly(result, split, cursor, tokens, comment) && |split| == cursor + 1
    requires !IsKeyword(split[cursor]) && !IsDelimiter(split[cursor])
    ensures Orderly(result + [Piece(Join(split, ' '), comment)], [], cursor, tokens, comment)
  {
    UncutExtends(split, cursor);
    assert split[..cursor + 1] == split;
    EmitCuts(result, split, |split|, comment);
  }

  /**
   The line makes the loop raise: a keyword is met past cursor 0, which leaves the cursor
   where it is, with at least one but no more tokens left than the cursor has already passed.
   */
  predicate Stumbles(split: seq<string>, cursor: nat)
    decreases |split|, |split| - cursor
  {
    if split == [] then false
    else if cursor >= |split| then true
    else if IsKeyword(split[cursor]) then Stumbles(split[cursor + 1..], cursor)
    else if IsDelimiter(split[cursor]) then
      if cursor != 0 then Stumbles(split[cursor..], 0) else Stumbles(split[1..], 0)
    else if |split| == cursor + 1 then false
    else if EndsWith(split[cursor], ';') then Stumbles(split[cursor + 1..], 0)
    else Stumbles(split, cursor + 1)
  }

  // ---------- on which lines the loop raises ----------

  /** A keyword that does not start a piece. */
  ghost predicate Misplaced(tokens: seq<string>, k: nat) {
    0 < k < |tokens| && IsKeyword(tokens[k]) && !EndsPiece(tokens[k - 1])
  }

  /** Where the piece that holds position `k` starts. */
  function PieceStart(tokens: seq<string>, k: nat): (s: nat)
    requires k <= |tokens|
    ensures s <= k && (s > 0 ==> EndsPiece(tokens[s - 1]))
    ensures forall i :: s <= i < k ==> !EndsPiece(tokens[i])
  {
    if k == 0 || EndsPiece(tokens[k - 1]) then k else PieceStart(tokens, k - 1)
  }

  /** The loop at position `k` of the line, with the piece that holds it not yet emitted. */
  predicate StumblesFrom(tokens: seq<string>, k: nat)
    requires k <= |tokens|
  {
    Stumbles(tokens[PieceStart(tokens, k)..], k - PieceStart(tokens, k))
  }

  lemma WalksOverDelimiter(tokens: seq<string>, k: nat, s: nat)
    requires s <= k < |tokens| && IsDelimiter(tokens[k])
    ensures Stumbles(tokens[s..], k - s) <==> Stumbles(tokens[k + 1..], 0)
  {
    assert tokens[s..][k - s] == tokens[k] && tokens[s..][k - s + 1..] == tokens[k + 1..];
    if s < k {
      assert tokens[s..][k - s..] == tokens[k..] && tokens[k..][1..] == tokens[k + 1..];
      assert Stumbles(tokens[s..], k - s) == Stumbles(tokens[k..], 0) == Stumbles(tokens[k + 1..], 0);
    }
  }

  lemma WalksOverEnd(tokens: seq<string>, k: nat, s: nat)
    requires s <= k < |tokens| && EndsPiece(tokens[k]) && (IsKeyword(tokens[k]) ==> s == k)
    ensures Stumbles(tokens[s..], k - s) <==> Stumbles(tokens[k + 1..], 0)
  {
    if IsDelimiter(tokens[k]) {
      WalksOverDelimiter(tokens, k, s);
    } else {
      assert tokens[s..][k - s] == tokens[k] && tokens[s..][k - s + 1..] == tokens[k + 1..];
    }
  }

  /** The loop walks over every token but a misplaced keyword. */
  lemma WalksOn(tokens: seq<string>, k: nat)
    requires k + 1 < |tokens| && !Misplaced(tokens, k)
    ensures StumblesFrom(tokens, k) <==> StumblesFrom(tokens, k + 1)
  {
    var s := PieceStart(tokens, k);
    if EndsPiece(tokens[k]) {
      WalksOverEnd(tokens, k, s);
    } else {
      assert tokens[s..][k - s] == tokens[k];
    }
  }

  lemma {:induction false} WalksTo(tokens: seq<string>, k: nat)
    requires k < |tokens| && forall j: nat :: j < k ==> !Misplaced(tokens, j)
    ensures Stumbles(tokens, 0) <==> StumblesFrom(tokens, k)
  {
    if k == 0 {
      assert tokens[0..] == tokens;
    } else {
      WalksTo(tokens, k - 1);
      WalksOn(tokens, k - 1);
    }
  }

  /** A line whose keywords all start their pieces never raises. */
  lemma OrderlyLinesNeverRaise(tokens: seq<string>)
    requires KeywordsStartPieces(tokens)
    ensures !Stumbles(tokens, 0)
  {
    if tokens != [] {
      var last := |tokens| - 1;
      WalksTo(tokens, last);
      var s := PieceStart(tokens, last);
      if EndsPiece(tokens[last]) {
        WalksOverEnd(tokens, last, s);
      } else {
        assert tokens[s..][last - s] == tokens[last];
      }
    }
  }

  /**
   The first misplaced keyword skips as many tokens as its piece already holds. With fewer left
   than that the loop raises, unless none are left at all; otherwise it goes on behind them.
   */
  lemma FirstMisplacedDecides(tokens: seq<string>, k: nat)
    requires Misplaced(tokens, k) && forall j: nat :: j < k ==> !Misplaced(tokens, j)
    ensures var (held, left) := (k - PieceStart(tokens, k), |tokens| - k - 1);
      && held > 0
      && (left <= held ==> (Stumbles(tokens, 0) <==> left > 0))
      && (left > held ==> (Stumbles(tokens, 0) <==> Stumbles(tokens[k + 1..], held)))
  {
    WalksTo(tokens, k);
    var s := PieceStart(tokens, k);
    assert tokens[s..][k - s] == tokens[k] && tokens[s..][k - s + 1..] == tokens[k + 1..];
    assert StumblesFrom(tokens, k) == Stumbles(tokens[k + 1..], k - s);
  }

  /** Past the skipped tokens an orderly rest never raises, if it does not begin with a keyword. */
  lemma {:induction false} OrderlyRestNeverRaises(rest: seq<string>, cursor: nat)
    requires 0 < cursor < |rest| && KeywordsStartPieces(rest) && !IsKeyword(rest[cursor])
    ensures !Stumbles(rest, cursor)
    decreases |rest| - cursor
  {
    if IsDelimiter(rest[cursor]) {
      SuffixIsOrderly(rest, cursor);
      OrderlyLinesNeverRaise(rest[cursor..]);
    } else if cursor + 1 < |rest| {
      if EndsWith(rest[cursor], ';') {
        SuffixIsOrderly(rest, cursor + 1);
        OrderlyLinesNeverRaise(rest[cursor + 1..]);
      } else {
        OrderlyRestNeverRaises(rest, cursor + 1);
      }
    }
  }

  lemma SuffixIsOrderly(tokens: seq<string>, n: nat)
    requires n <= |tokens| && forall i :: n < i < |tokens| && IsKeyword(tokens[i]) ==> EndsPiece(tokens[i - 1])
    ensures KeywordsStartPieces(tokens[n..])
  {
    var rest := tokens[n..];
    forall i | 0 < i < |rest| && IsKeyword(rest[i]) ensures EndsPiece(rest[i - 1]) {
      assert rest[i] == tokens[n + i] && rest[i - 1] == tokens[n + i - 1];
    }
  }

  /**
   A keyword at `q`, met with `held` tokens before it in its piece, makes the line raise: fewer
   tokens than that follow, but some; or the next one looked at is a keyword that does.
   */
  predicate RaisesBehind(tokens: seq<string>, q: nat, held: nat)
    requires q < |tokens|
    decreases |tokens| - q
  {
    var left := |tokens| - q - 1;
    if left <= held then left > 0
    else IsKeyword(tokens[q + 1 + held]) && RaisesBehind(tokens, q + 1 + held, held)
  }

  lemma {:induction false} BehindKeyword(tokens: seq<string>, q: nat, held: nat)
    requires q < |tokens| && held > 0 && forall j: nat :: j > q ==> !Misplaced(tokens, j)
    ensures Stumbles(tokens[q + 1..], held) <==> RaisesBehind(tokens, q, held)
    decreases |tokens| - q
  {
    var (rest, next) := (tokens[q + 1..], q + 1 + held);
    if next < |tokens| {
      assert rest[held] == tokens[next] && rest[held + 1..] == tokens[next + 1..];
      if IsKeyword(tokens[next]) {
        BehindKeyword(tokens, next, held);
      } else {
        forall i | q + 1 < i < |tokens| && IsKeyword(tokens[i]) ensures EndsPiece(tokens[i - 1]) {
          assert !Misplaced(tokens, i);
        }
        SuffixIsOrderly(tokens, q + 1);
        OrderlyRestNeverRaises(rest, held);
      }
    }
  }

  /**
   A line with one misplaced keyword raises exactly when tokens follow it but no more of them
   than its piece held; or, where the skipped tokens are followed by a keyword, when that one
   raises in the same way.
   */
  lemma OneMisplacedKeyword(tokens: seq<string>, k: nat)
    requires Misplaced(tokens, k) && forall j: nat :: j != k ==> !Misplaced(tokens, j)
    ensures var (held, left) := (k - PieceStart(tokens, k), |tokens| - k - 1);
      && (Stumbles(tokens, 0) <==> RaisesBehind(tokens, k, held))
      && ((left > held ==> !IsKeyword(tokens[k + 1 + held])) ==> (Stumbles(tokens, 0) <==> 0 < left <= held))
  {
    FirstMisplacedDecides(tokens, k);
    BehindKeyword(tokens, k, k - PieceStart(tokens, k));
  }

  /** Skipping can hide the end of a piece from the loop: the second `code` starts a piece here, and raises. */
  lemma SkippedEndRaises()
    ensures Stumbles(["a", "code", "b;", "code", "d"], 0)
  {
    var line := ["a", "code", "b;", "code", "d"];
    OneMisplacedKeyword(line, 1);
    assert RaisesBehind(line, 3, 1);
  }

  /** Concrete lines: one token before `code` and one after it raises, with two after it the loop gets through. */
  lemma MisplacedKeywordRaises()
    ensures Stumbles(["a", "code", "b"], 0) && !Stumbles(["a", "code", "b", "c"], 0)
  {
    var (short, long) := (["a", "code", "b"], ["a", "code", "b", "c"]);
    OneMisplacedKeyword(short, 1);
    OneMisplacedKeyword(long, 1);
  }

  lemma SuffixesOverlap(x: seq<string>, w: seq<string>, y: seq<string>, v: seq<string>)
    requires x + w == y + v && w != [] && x != []
    ensures |w| < |v| ==> v[|v| - |w|] == w[0] && v[|v| - |w| - 1] == x[|x| - 1]
  {
    if |w| < |v| {
      assert (x + w)[|x|] == w[0] && (x + w)[|x| - 1] == x[|x| - 1];
      assert (y + v)[|x|] == v[|v| - |w|] && (y + v)[|x| - 1] == v[|v| - |w| - 1];
    }
  }

  lemma LastToken(pieces: seq<Piece>)
    requires pieces != [] && Words(pieces[|pieces| - 1].text) != []
    ensures TokensOf(pieces) != [] && Last(TokensOf(pieces)) == Last(Words(pieces[|pieces| - 1].text))
  {
  }

  lemma LastPieceIsMinimal(p: seq<Piece>, q: seq<Piece>, next: Option<string>)
    requires p != [] && q != [] && TokensOf(p) == TokensOf(q) && CutsExactly(p, next) && CutsExactly(q, next)
    ensures |Words(p[|p| - 1].text)| >= |Words(q[|q| - 1].text)|
  {
    var before := p[..|p| - 1];
    if before != [] {
      LastToken(before);
      SuffixesOverlap(TokensOf(before), Words(p[|p| - 1].text), TokensOf(q[..|q| - 1]), Words(q[|q| - 1].text));
    }
  }

  lemma EqualLengthSuffixes(x: seq<string>, w: seq<string>, y: seq<string>, v: seq<string>)
    requires x + w == y + v && |w| == |v|
    ensures x == y && w == v
  {
    assert (x + w)[..|x|] == x && (x + w)[|x|..] == w;
    assert (y + v)[..|y|] == y && (y + v)[|y|..] == v;
  }

  /** The token runs of some pieces, one per piece. */
  function RunsOf(pieces: seq<Piece>): seq<seq<string>> {
    if pieces == [] then [] else RunsOf(pieces[..|pieces| - 1]) + [Words(pieces[|pieces| - 1].text)]
  }

  /** The cuts determine the pieces: two exact cuttings of the same tokens agree piece by piece. */
  lemma {:induction false} CuttingIsUnique(p: seq<Piece>, q: seq<Piece>, next: Option<string>)
    requires TokensOf(p) == TokensOf(q) && CutsExactly(p, next) && CutsExactly(q, next)
    ensures RunsOf(p) == RunsOf(q)
    decreases |p|
  {
    if p != [] && q != [] {
      LastPieceIsMinimal(p, q, next);
      LastPieceIsMinimal(q, p, next);
      var (p', q') := (p[..|p| - 1], q[..|q| - 1]);
      var (w, v) := (Words(p[|p| - 1].text), Words(q[|q| - 1].text));
      EqualLengthSuffixes(TokensOf(p'), w, TokensOf(q'), v);
      CuttingIsUnique(p', q', Some(w[0]));
    }
  }

  /** What the loop keeps on every line. */
  ghost predicate LoopKeeps(result: seq<Piece>, split: seq<string>, cursor: nat, tokens: seq<string>,
                            comment: Option<string>)
  {
    && AllWords(split) && tokens == TokensOf(result) + split && SingleBlanks(result)
    && (Stumbles(tokens, 0) <==> Stumbles(split, cursor))
    && (KeywordsStartPieces(tokens) ==> Orderly(result, split, cursor, tokens, comment))
  }

  /** Keyword branch. */
  lemma KeywordKeeps(result: seq<Piece>, split: seq<string>, cursor: nat, tokens: seq<string>, comment: Option<string>)
    requires LoopKeeps(result, split, cursor, tokens, comment) && cursor < |split| && IsKeyword(split[cursor])
    ensures LoopKeeps(result + [Piece(Join(split[..cursor + 1], ' '), None)], split[cursor + 1..], cursor, tokens, comment)
  {
    EmitMovesTokens(result, split[..cursor + 1], None, split[cursor + 1..]);
    assert split == split[..cursor + 1] + split[cursor + 1..];
    if KeywordsStartPieces(tokens) {
      if cursor > 0 { KeywordMeansStart(split, cursor); }
      UncutExtends(split, cursor);
      EmitOrderly(result, split, cursor, cursor + 1, tokens, comment);
    }
  }

  /** Delimiter met with tokens waiting before it. */
  lemma WaitingKeeps(result: seq<Piece>, split: seq<string>, cursor: nat, tokens: seq<string>, comment: Option<string>)
    requires LoopKeeps(result, split, cursor, tokens, comment) && 0 < cursor < |split| && IsDelimiter(split[cursor])
    ensures LoopKeeps(result + [Piece(Join(split[..cursor], ' '), None)], split[cursor..], 0, tokens, comment)
  {
    EmitMovesTokens(result, split[..cursor], None, split[cursor..]);
    assert split == split[..cursor] + split[cursor..];
    if KeywordsStartPieces(tokens) { EmitOrderly(result, split, cursor, cursor, tokens, comment); }
  }

  /** Delimiter on its own, or a token that ends in a semicolon with more to come. */
  lemma EndingKeeps(result: seq<Piece>, split: seq<string>, cursor: nat, tokens: seq<string>, comment: Option<string>)
    requires LoopKeeps(result, split, cursor, tokens, comment) && cursor < |split|
    requires (cursor == 0 && IsDelimiter(split[cursor]))
          || (cursor + 1 < |split| && EndsWith(split[cursor], ';') && !IsDelimiter(split[cursor]))
    ensures LoopKeeps(result + [Piece(Join(split[..cursor + 1], ' '), None)], split[cursor + 1..], 0, tokens, comment)
  {
    EmitMovesTokens(result, split[..cursor + 1], None, split[cursor + 1..]);
    assert split == split[..cursor + 1] + split[cursor + 1..];
    if KeywordsStartPieces(tokens) {
      UncutExtends(split, cursor);
      EmitOrderly(result, split, cursor, cursor + 1, tokens, comment);
    }
  }

  /** Last token of the line, neither keyword nor delimiter. */
  lemma LastKeeps(result: seq<Piece>, split: seq<string>, cursor: nat, tokens: seq<string>, comment: Option<string>)
    requires LoopKeeps(result, split, cursor, tokens, comment) && 0 <= cursor && |split| == cursor + 1
    requires !IsKeyword(split[cursor]) && !IsDelimiter(split[cursor])
    ensures LoopKeeps(result + [Piece(Join(split[..cursor + 1], ' '), comment)], [], cursor, tokens, comment)
  {
    assert split[..cursor + 1] == split;
    EmitMovesTokens(result, split, comment, []);
    if KeywordsStartPieces(tokens) { EmitLastOrderly(result, split, cursor, tokens, comment); }
  }

  /** Any other token is passed over. */
  lemma PassingKeeps(result: seq<Piece>, split: seq<string>, cursor: nat, tokens: seq<string>, comment: Option<string>)
    requires LoopKeeps(result, split, cursor, tokens, comment) && cursor + 1 < |split| && !EndsPiece(split[cursor])
    ensures LoopKeeps(result, split, cursor + 1, tokens, comment)
  {
    if KeywordsStartPieces(tokens) { UncutExtends(split, cursor); }
  }

  /** The loop left with nothing to split. */
  lemma Finishes(result: seq<Piece>, cursor: nat, tokens: seq<string>, comment: Option<string>)
    requires LoopKeeps(result, [], cursor, tokens, comment) && tokens != []
    ensures !Stumbles(tokens, 0) && TokensOf(result) == tokens && SingleBlanks(result)
    ensures KeywordsStartPieces(tokens) ==> CutsExactly(result, None) && CommentPlaced(result, tokens, comment)
  {
  }

  lemma Raises(result: seq<Piece>, split: seq<string>, cursor: nat, tokens: seq<string>, comment: Option<string>)
    requires LoopKeeps(result, split, cursor, tokens, comment) && split != [] && cursor >= |split|
    ensures Stumbles(tokens, 0) && !KeywordsStartPieces(tokens)
  {
  }

  lemma Starts(tokens: seq<string>, comment: Option<string>)
    requires AllWords(tokens) && tokens != []
    ensures LoopKeeps([], tokens, 0, tokens, comment)
  {
  }

  lemma CommentAlone(comment: Option<string>)
    ensures TokensOf([Piece("", comment)]) == [] && SingleBlanks([Piece("", comment)])
  {
    assert [Piece("", comment)][..0] == [];
  }

  /** One turn of the loop, at a token of the line. */
  method SplitStep(result: seq<Piece>, split: seq<string>, cursor: nat, comment: Option<string>, ghost tokens: seq<string>)
    returns (result': seq<Piece>, split': seq<string>, cursor': nat)
    requires cursor < |split| && LoopKeeps(result, split, cursor, tokens, comment)
    ensures LoopKeeps(result', split', cursor', tokens, comment)
    ensures |split'| < |split| || (split' == split && cursor' > cursor)
  {
    var token := split[cursor];
    if IsKeyword(token) {
      KeywordKeeps(result, split, cursor, tokens, comment);
      return result + [Piece(Join(split[..cursor + 1], ' '), None)], split[cursor + 1..], cursor;
    }
    if IsDelimiter(token) {
      if cursor != 0 {
        WaitingKeeps(result, split, cursor, tokens, comment);
        return result + [Piece(Join(split[..cursor], ' '), None)], split[cursor..], 0;
      }
      EndingKeeps(result, split, cursor, tokens, comment);
      return result + [Piece(Join(split[..cursor + 1], ' '), None)], split[cursor + 1..], cursor;
    }
    if |split| == cursor + 1 {
      LastKeeps(result, split, cursor, tokens, comment);
      return result + [Piece(Join(split[..cursor + 1], ' '), comment)], [], cursor;
    }
    if EndsWith(token, ';') {
      EndingKeeps(result, split, cursor, tokens, comment);
      return result + [Piece(Join(split[..cursor + 1], ' '), None)], split[cursor + 1..], 0;
    }
    PassingKeeps(result, split, cursor, tokens, comment);
    return result, split, cursor + 1;
  }

  /**
   The splitting loop on the tokens of one line. It always ends, and whenever it does not
   raise an index error no token is lost, duplicated or reordered. When keywords start their
   pieces it never raises, cuts the line exactly at the cuts, and places the comment.
   */
  method SplitLine(tokens: seq<string>, comment: Option<string>) returns (r: Result<seq<Piece>>)
    requires AllWords(tokens)
    ensures r.Rejected? <==> Stumbles(tokens, 0)
    ensures r.Ok? ==> TokensOf(r.value) == tokens && SingleBlanks(r.value)
    ensures tokens != [] && KeywordsStartPieces(tokens) ==>
      r.Ok? && CutsExactly(r.value, None) && CommentPlaced(r.value, tokens, comment)
    ensures tokens == [] ==>
      r == Ok(if comment.Some? && comment.value != "" then [Piece("", comment)] else [])
  {
    var result: seq<Piece> := [];
    var split := tokens;
    var cursor: nat := 0;
    if tokens == [] {
      if comment.Some? && comment.value != "" {
        result := result + [Piece("", comment)];
        CommentAlone(comment);
      }
      return Ok(result);
    }
    Starts(tokens, comment);
    while |split| > 0
      invariant LoopKeeps(result, split, cursor, tokens, comment)
      decreases |split|, |split| - cursor
    {
      if cursor >= |split| {
        Raises(result, split, cursor, tokens, comment);
        return Rejected("list index out of range");
      }
      result, split, cursor := SplitStep(result, split, cursor, comment, tokens);
    }
    Finishes(result, cursor, tokens, comment);
    return Ok(result);
  }
}
