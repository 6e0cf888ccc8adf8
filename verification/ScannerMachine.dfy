/**
 The character loop as it runs (bootstrap/reader.c:28-68, bootstrap/lexer.c:194-379): a reader with a small
 buffer of characters that were given back, and a state machine that collects characters in a buffer while it
 moves line and column along.
 */
module ScannerMachine {
  import opened Basics
  import opened Tokens
  import opened Places
  import opened TokenLog
  import opened Scanner
  import Words

  const UNGET_SIZE: nat := 4

  class Reader {
    const text: string
    var pos: nat
    var ungot: string       // given back, the last one first to be read again

    ghost predicate Valid()
      reads this
    {
      pos <= |text| && |ungot| <= UNGET_SIZE && NUL !in ungot
    }

    /** What is left to read. */
    ghost function Rest(): string
      reads this
      requires Valid()
    {
      Backwards(ungot) + text[pos..]
    }

    constructor (text: string)
      ensures Valid() && Rest() == text && ungot == ""
    {
      this.text := text;
      pos, ungot := 0, "";
    }

    method GetCh() returns (read: bool, c: char)
      requires Valid()
      modifies this
      ensures Valid() && read == (old(Rest()) != "")
      ensures if read then c == old(Rest())[0] && Rest() == old(Rest())[1..] else c == NUL && Rest() == ""
      ensures |ungot| == if old(|ungot|) > 0 then old(|ungot|) - 1 else 0
    {
      var n := |ungot|;
      if n > 0 {
        c := ungot[n - 1];
        BackwardsSnoc(ungot[..n - 1], c);
        assert ungot[..n - 1] + [c] == ungot;
        ungot := ungot[..n - 1];
        read := true;
      } else if pos < |text| {
        c := text[pos];
        pos := pos + 1;
        read := true;
      } else {
        read, c := false, NUL;
      }
    }

    /** A NUL cannot be given back, and a full buffer takes nothing. */
    method UngetCh(c: char)
      requires Valid()
      modifies this
      ensures Valid()
      ensures Rest() == if c == NUL || old(|ungot|) == UNGET_SIZE then old(Rest()) else [c] + old(Rest())
      ensures |ungot| == if c == NUL || old(|ungot|) == UNGET_SIZE then old(|ungot|) else old(|ungot|) + 1
    {
      if c == NUL || |ungot| == UNGET_SIZE {
        return;
      }
      BackwardsSnoc(ungot, c);
      ungot := ungot + [c];
    }
  }

  function Backwards(s: string): (r: string) {
    if s == "" then "" else [s[|s| - 1]] + Backwards(s[..|s| - 1])
  }

  lemma BackwardsSnoc(s: string, c: char)
    ensures Backwards(s + [c]) == [c] + Backwards(s)
  {
    assert (s + [c])[..|s|] == s;
  }

  datatype WatchState = WsStart | WsWord | WsDig | WsOp | WsString

  datatype LexState = LexOk | LexEof | LexError

  class CharLexer {
    const reader: Reader
    const ranges: array<Words.Range>
    var line: nat
    var col: nat

    ghost predicate Valid()
      reads this, reader, ranges
    {
      reader.Valid() && |reader.ungot| <= 1 && Words.Ranged(ranges)
    }

    ghost function Rest(): string
      reads this, reader
      requires reader.Valid()
    {
      reader.Rest()
    }

    ghost function At(): Position
      reads this
    {
      Position(line, col)
    }

    constructor (text: string)
      ensures Valid() && Rest() == text && At() == START
      ensures fresh(reader) && fresh(ranges)
    {
      var table := Words.TableRanges();
      var r := new Reader(text);
      reader, ranges := r, table;
      line, col := 1, 1;
    }

    /** The character read ahead is given back. */
    method StepBack(ghost rest: string, ghost k: nat, c: char)
      requires reader.Valid() && reader.ungot == "" && Words.Ranged(ranges) && col > 0
      requires k <= |rest| && ReadAhead(rest, k, c, Rest())
      modifies this`col, reader
      ensures Valid() && Rest() == GiveBack(rest, k) && col == old(col) - 1
    {
      hide Words.Ranged, Backwards, GiveBack, ReadAhead;
      GivesBack(rest, k, c, Rest());
      reader.UngetCh(c);
      col := col - 1;
    }

    /** What a word is; a newline begins the next line. */
    method Finish(ghost rest: string, ghost at: Position, word: string, c: char) returns (piece: Piece)
      requires reader.Valid() && reader.ungot == "" && Words.Ranged(ranges) && word != "" && !IsForeign(word[0])
      requires word == "\n" || '\n' !in word
      requires At() == Position(at.line, at.col + |word| + 1)
      requires |word| <= |rest| && ReadAhead(rest, |word|, c, Rest())
      modifies this`line, this`col, reader
      ensures Valid() && piece == WordPiece(word) && At() == Advance(at, word)
      ensures Rest() == GiveBack(rest, |word|)
    {
      hide Words.Ranged, Words.WordOf, KindOf, UpToNul, Classified, Advance, GiveBack, ReadAhead;
      StepBack(rest, |word|, c);
      var t := Words.ProcessWord(ranges, word);
      piece := Classified(t, word);
      NewlineIs(word);
      WordMoves(at, word);
      if piece.kind == TokNewline {
        line := line + 1;
        col := 1;
      }
    }

    /** A number is its digits. */
    method FinishNumber(ghost rest: string, ghost at: Position, digits: string, c: char) returns (piece: Piece)
      requires reader.Valid() && reader.ungot == "" && Words.Ranged(ranges)
      requires At() == Position(at.line, at.col + |digits| + 1) && '\n' !in digits
      requires |digits| <= |rest| && ReadAhead(rest, |digits|, c, Rest())
      modifies this`col, reader
      ensures Valid() && piece == Word(TokNumberL, digits, digits) && At() == Advance(at, digits)
      ensures Rest() == GiveBack(rest, |digits|)
    {
      hide Words.Ranged, Advance, GiveBack, ReadAhead;
      StepBack(rest, |digits|, c);
      AdvanceAlong(at, digits);
      piece := Word(TokNumberL, digits, digits);
    }

    method JoinsOperator(buf: string, read: bool, c: char) returns (more: bool)
      requires Words.Ranged(ranges) && buf != "" && !IsForeign(buf[0])
      ensures more == (read && Words.IsPunct(c) && Words.IsOperator(buf + [c]))
    {
      hide Words.Ranged, Words.IsOperator, Words.IsPunct, IsAlpha, IsDigit;
      PunctuationIs(c);
      more := read && !IsAlpha(c) && !IsDigit(c);
      if more {
        more := Words.CouldBeOperator(ranges, buf, c);
      }
    }

    /** `lexer_next_token`: one character at a time, each looked at in the state that the ones before left. */
    method NextToken() returns (st: LexState, piece: Piece)
      requires Valid()
      modifies this`line, this`col, reader
      ensures reader.Valid() && Told(old(Rest()), old(At()), st, piece, Rest(), At())
      ensures st != LexError ==> Valid()
    {
      hide Words.Ranged, CutToken, Watching, Advance, Words.IsOperator, GiveBack, UpToNul, WordPiece, Words.IsPunct;
      hide IsAlpha, IsDigit, IsBlank, Backwards, ReadAhead, Told;
      ghost var rest, at := Rest(), At();
      ghost var k := 0;
      var state, buf := WsStart, "";
      StartsWatching(rest, at);
      NulIsNothing();
      while true
        invariant Valid() && k <= |rest| && Rest() == rest[k..] && Watching(rest, at, state, k, buf, At())
        decreases LIMIT - |buf|, if state == WsStart then 1 else 0
      {
        ghost var p := At();
        if |buf| >= LIMIT {
          TooLong(rest, at, state, k, buf, p);
          return LexError, Blank("");
        }
        var read, c := reader.GetCh();
        OneAhead(rest, k, c, Rest());
        if IsForeign(c) {
          ForeignFails(rest, at, state, k, buf, p);
          return LexError, Blank("");
        }
        col := col + 1;
        match state {
          case WsStart =>
            if !read {
              EndEnds(rest, at, k, buf, p);
              return LexEof, Blank("");
            }
            Begins(rest, at, k, buf, p);
            if c == '"' {
              state := WsString;
            } else if IsBlank(c) {
              return LexOk, Blank([c]);
            } else {
              buf := buf + [c];
              state := if IsAlpha(c) then WsWord else if IsDigit(c) then WsDig else WsOp;
            }
          case WsWord =>
            if IsAlpha(c) || IsDigit(c) {
              WordGoesOn(rest, at, k, buf, p);
              buf := buf + [c];
            } else {
              WordEnds(rest, at, k, buf, p);
              piece := Finish(rest, at, buf, c);
              return LexOk, piece;
            }
          case WsDig =>
            if IsDigit(c) {
              NumberGoesOn(rest, at, k, buf, p);
              buf := buf + [c];
            } else {
              NumberEnds(rest, at, k, buf, p);
              piece := FinishNumber(rest, at, buf, c);
              return LexOk, piece;
            }
          case WsOp =>
            OperatorBegins(rest, at, k, buf, p);
            var more := JoinsOperator(buf, read, c);
            if more {
              OperatorGoesOn(rest, at, k, buf, p);
              buf := buf + [c];
            } else {
              OperatorEnds(rest, at, k, buf, p);
              piece := Finish(rest, at, buf, c);
              return LexOk, piece;
            }
          case WsString =>
            if c == '"' {
              StringEnds(rest, at, k, buf, p);
              return LexOk, Word(TokStringL, UpToNul(buf), ['"'] + buf + ['"']);
            }
            StringGoesOn(rest, at, k, buf, p, c);
            buf := buf + [c];
            if c == '\n' {
              line := line + 1;
              col := 1;
            }
        }
        if read {
          k := k + 1;
        }
      }
    }

    /** `lexer_skip_line`: up to the newline, which is given back, or the end of the text. */
    method SkipLine() returns (ghost skipped: string)
      requires Valid()
      modifies this`col, reader
      ensures Valid() && At() == Advance(old(At()), skipped)
      ensures skipped == old(Rest())[..LineEnd(old(Rest()), 0)] && Rest() == old(Rest())[LineEnd(old(Rest()), 0)..]
    {
      hide Words.Ranged, Advance, Backwards;
      ghost var rest, at := Rest(), At();
      ghost var k := 0;
      LineBegins(rest, at);
      while true
        invariant Valid() && k <= |rest| && Rest() == rest[k..]
        invariant LineEnd(rest, k) == LineEnd(rest, 0) && At() == Advance(at, rest[..k])
        decreases |rest| - k
      {
        var read, c := reader.GetCh();
        if !read {
          return rest[..k];
        }
        OneAhead(rest, k, c, Rest());
        if c == '\n' {
          GivesBack(rest, k, c, Rest());
          reader.UngetCh(c);
          return rest[..k];
        }
        AdvanceSnoc(at, rest[..k], c);
        assert rest[..k] + [c] == rest[..k + 1];
        col := col + 1;
        k := k + 1;
      }
    }

    /**
     `lexer_skip_until`: counts how much of the anchor was read, and begins again with a character that does not
     go on with it.
     */
    method SkipUntilAnchor() returns (st: LexState, ghost skipped: string)
      requires Valid()
      modifies this`line, this`col, reader
      ensures Valid() && st == if CommentEnd(old(Rest()), 0).Some? then LexOk else LexError
      ensures
        st == LexOk ==>
          && skipped == old(Rest())[..CommentEnd(old(Rest()), 0).value] && At() == Advance(old(At()), skipped)
          && Rest() == old(Rest())[CommentEnd(old(Rest()), 0).value..]
    {
      hide Words.Ranged, Advance, Backwards;
      ghost var rest, at := Rest(), At();
      ghost var k := 0;
      var matched := 0;
      LineBegins(rest, at);
      while true
        invariant Valid() && k <= |rest| && Rest() == rest[k..]
        invariant CommentEnd(rest, k) == CommentEnd(rest, 0) && At() == Advance(at, rest[..k])
        invariant 0 <= matched < |ANCHOR| && (matched == 1 <==> k > 0 && rest[k - 1] == '*') && !ClosesAt(rest, k)
        decreases |rest| - k
      {
        var read, c := reader.GetCh();
        if !read {
          return LexError, "";
        }
        OneAhead(rest, k, c, Rest());
        AdvanceSnoc(at, rest[..k], c);
        assert rest[..k] + [c] == rest[..k + 1];
        col := col + 1;
        if c == '\n' {
          line := line + 1;
          col := 1;
        }
        if c == ANCHOR[matched] {
          matched := matched + 1;
        } else {
          matched := if c == ANCHOR[0] then 1 else 0;
        }
        k := k + 1;
        if matched == |ANCHOR| {
          return LexOk, rest[..k];
        }
      }
    }

    /** Behind the start of a comment the comment is skipped. */
    method SkipBehind(token: Piece) returns (st: LexState, ghost piece: Piece)
      requires Valid() && Comments(token)
      modifies this`line, this`col, reader
      ensures Valid() && st != LexEof
      ensures SkipComment(Cut(token, old(Rest()))) == if st == LexOk then Cut(piece, Rest()) else Failed
      ensures st == LexOk ==> piece == token || piece.LineComment? || piece.BlockComment?
      ensures st == LexOk ==> At() == (if piece == token then old(At()) else Advance(old(At()), piece.skip))
      ensures st == LexOk ==> (piece.LineComment? <==> IsStart(token, "//"))
      ensures st == LexOk ==> (piece.BlockComment? <==> IsStart(token, "/*"))
    {
      hide Words.Ranged, Advance, LineEnd, CommentEnd;
      if IsStart(token, "//") {
        ghost var skipped := SkipLine();
        return LexOk, LineComment("//", skipped);
      }
      if IsStart(token, "/*") {
        ghost var skipped;
        st, skipped := SkipUntilAnchor();
        return st, BlockComment("/*", skipped);
      }
      return LexOk, token;
    }
  }

  // ----- comments -----

  const ANCHOR := "*/"

  lemma LineBegins(rest: string, at: Position)
    ensures Advance(at, rest[..0]) == at
  {
  }

  /** The token begins a comment. */
  predicate IsStart(token: Piece, start: string) {
    token.Word? && token.kind == TokOther(start)
  }

  /** Comments are known by the kinds of their starts. */
  predicate Comments(p: Piece) {
    && (IsStart(p, "//") <==> Chars(p) == "//") && (IsStart(p, "/*") <==> Chars(p) == "/*")
    && (p.Word? || p.Blank?)
  }

  lemma CommentIs(rest: string)
    requires CutToken(rest).Cut?
    ensures Comments(CutToken(rest).piece)
  {
    hide Words.WordOf, UpToNul, GiveBack, WordEnd, NumberEnd, Words.Scan;
    if IsAlpha(rest[0]) {
      WordComments(rest[..WordEnd(rest, 1)]);
    } else if BeginsOperator(rest[0]) {
      WordComments(rest[..Words.Scan(rest, 1)]);
    } else {
      assert Chars(CutToken(rest).piece)[0] == rest[0];
    }
  }

  lemma WordComments(word: string)
    ensures Comments(WordPiece(word))
  {
    hide WordPiece, Words.InTable;
    WordPieceIs(word);
    Words.Symbols3Listed();
    assert "//"[0] != "true"[0] && "//"[0] != "false"[0];
    assert "/*"[0] != "true"[0] && "/*"[0] != "false"[0];
    OnlyWord(word, "//");
    OnlyWord(word, "/*");
  }

  /** A word moves along its line, a newline to the next one. */
  lemma WordMoves(p: Position, word: string)
    requires word == "\n" || '\n' !in word
    ensures Advance(p, word) == if word == "\n" then Position(p.line + 1, 1) else Position(p.line, p.col + |word|)
  {
    if word == "\n" {
      AdvanceSnoc(p, "", '\n');
      assert "" + ['\n'] == word;
    } else {
      AdvanceAlong(p, word);
    }
  }

  // ----- what the loop knows -----

  /** A word, number or operator is what was read, on one line. */
  predicate Taken(rest: string, at: Position, k: nat, buf: string, p: Position)
    requires k <= |rest|
  {
    k > 0 && buf == rest[..k] && p == Position(at.line, at.col + k)
  }

  /**
   What the state, the buffer and the place `p` say of the first `k` characters, read from the place `at` on. A
   string that does not end collects NULs behind the end of the text.
   */
  predicate Watching(rest: string, at: Position, state: WatchState, k: nat, buf: string, p: Position)
    requires k <= |rest|
  {
    match state
    case WsStart => k == 0 && buf == "" && p == at
    case WsWord => Taken(rest, at, k, buf, p) && IsAlpha(rest[0]) && WordEnd(rest, k) == WordEnd(rest, 1)
    case WsDig => Taken(rest, at, k, buf, p) && IsDigit(rest[0]) && NumberEnd(rest, k) == NumberEnd(rest, 1)
    case WsOp =>
      Taken(rest, at, k, buf, p) && BeginsOperator(rest[0]) && Words.Scan(rest, k) == Words.Scan(rest, 1)
    case WsString =>
      && k > 0 && rest[0] == '"' && QuoteAt(rest, k) == QuoteAt(rest, 1)
      && if buf == rest[1..k] then p == Advance(at, rest[..k]) else k == |rest| && |buf| >= k
  }

  /** What was returned is what is cut off the text, and line and column moved over it. */
  predicate Told(rest: string, at: Position, st: LexState, piece: Piece, after: string, p: Position) {
    match st
    case LexOk => CutToken(rest) == Cut(piece, after) && p == Advance(at, Chars(piece))
    case LexEof => CutToken(rest) == Ended && after == rest && p == Position(at.line, at.col + 1)
    case LexError => CutToken(rest) == Failed
  }

  lemma NulIsNothing()
    ensures !IsAlpha(NUL) && !IsDigit(NUL)
  {
  }

  lemma StartsWatching(rest: string, at: Position)
    ensures Watching(rest, at, WsStart, 0, "", at)
  {
  }

  lemma TooLong(rest: string, at: Position, state: WatchState, k: nat, buf: string, p: Position)
    requires k <= |rest| && Watching(rest, at, state, k, buf, p) && |buf| >= LIMIT
    ensures forall piece, after, q :: Told(rest, at, LexError, piece, after, q)
  {
    hide WordPiece, GiveBack, UpToNul, Advance;
  }

  lemma ForeignFails(rest: string, at: Position, state: WatchState, k: nat, buf: string, p: Position)
    requires k < |rest| && Watching(rest, at, state, k, buf, p) && IsForeign(rest[k])
    ensures forall piece, after, q :: Told(rest, at, LexError, piece, after, q)
  {
    hide WordPiece, GiveBack, UpToNul, Words.IsOperator, Advance;
    if state == WsOp && Words.OperatorAt(rest, k + 1) {
      Words.OperatorsEndInPunct(rest[..k + 1]);
    }
  }

  lemma EndEnds(rest: string, at: Position, k: nat, buf: string, p: Position)
    requires k <= |rest| && Watching(rest, at, WsStart, k, buf, p) && rest[k..] == ""
    ensures Told(rest, at, LexEof, Blank(""), "", Position(p.line, p.col + 1))
  {
  }

  /** The first character decides. */
  lemma Begins(rest: string, at: Position, k: nat, buf: string, p: Position)
    requires k < |rest| && Watching(rest, at, WsStart, k, buf, p) && !IsForeign(rest[k])
    ensures k == 0
    ensures
      var c, q := rest[0], Position(p.line, p.col + 1);
      && (c == '"' ==> Watching(rest, at, WsString, 1, buf, q))
      && (IsBlank(c) ==> Told(rest, at, LexOk, Blank([c]), rest[1..], q))
      && (IsAlpha(c) ==> Watching(rest, at, WsWord, 1, buf + [c], q))
      && (IsDigit(c) ==> Watching(rest, at, WsDig, 1, buf + [c], q))
      && (BeginsOperator(c) ==> Watching(rest, at, WsOp, 1, buf + [c], q))
  {
    hide WordEnd, NumberEnd, QuoteAt, Words.Scan;
    assert rest[..1] == [rest[0]] && rest[1..1] == "";
    assert rest[0] != '\n' ==> Advance(at, [rest[0]]) == Position(at.line, at.col + 1) by {
      assert [rest[0]][1..] == "";
    }
  }

  lemma WordGoesOn(rest: string, at: Position, k: nat, buf: string, p: Position)
    requires k < |rest| && Watching(rest, at, WsWord, k, buf, p) && (IsAlpha(rest[k]) || IsDigit(rest[k]))
    ensures Watching(rest, at, WsWord, k + 1, buf + [rest[k]], Position(p.line, p.col + 1))
  {
  }

  lemma NumberGoesOn(rest: string, at: Position, k: nat, buf: string, p: Position)
    requires k < |rest| && Watching(rest, at, WsDig, k, buf, p) && IsDigit(rest[k])
    ensures Watching(rest, at, WsDig, k + 1, buf + [rest[k]], Position(p.line, p.col + 1))
  {
  }

  lemma OperatorBegins(rest: string, at: Position, k: nat, buf: string, p: Position)
    requires k <= |rest| && Watching(rest, at, WsOp, k, buf, p)
    ensures buf != "" && !IsForeign(buf[0])
  {
    hide Words.Scan;
  }

  lemma OperatorGoesOn(rest: string, at: Position, k: nat, buf: string, p: Position)
    requires k < |rest| && Watching(rest, at, WsOp, k, buf, p) && Words.IsOperator(buf + [rest[k]])
    ensures Watching(rest, at, WsOp, k + 1, buf + [rest[k]], Position(p.line, p.col + 1))
  {
    hide Words.IsOperator;
    assert buf + [rest[k]] == rest[..k + 1];
  }

  /** What a string reads becomes part of it; behind the end of the text NULs do, up to the limit. */
  lemma StringGoesOn(rest: string, at: Position, k: nat, buf: string, p: Position, c: char)
    requires k <= |rest| && Watching(rest, at, WsString, k, buf, p)
    requires k < |rest| ==> c == rest[k] && c != '"' && !IsForeign(c)
    ensures Watching(rest, at, WsString, if k < |rest| then k + 1 else k, buf + [c], Step(p, c))
  {
    hide Advance;
    if k < |rest| {
      AdvanceSnoc(at, rest[..k], c);
      assert rest[..k] + [c] == rest[..k + 1];
    }
  }

  lemma StringCuts(rest: string, at: Position, k: nat, buf: string, p: Position)
    requires k < |rest| && Watching(rest, at, WsString, k, buf, p) && rest[k] == '"' && |buf| < LIMIT
    ensures CutToken(rest) == Cut(Word(TokStringL, UpToNul(buf), rest[..k + 1]), rest[k + 1..])
    ensures buf == rest[1..k] && rest[0] == '"' && k > 0 && p == Advance(at, rest[..k])
  {
    hide Advance, UpToNul;
  }

  lemma StringEnds(rest: string, at: Position, k: nat, buf: string, p: Position)
    requires k < |rest| && Watching(rest, at, WsString, k, buf, p) && rest[k] == '"' && |buf| < LIMIT
    ensures
      var piece := Word(TokStringL, UpToNul(buf), ['"'] + buf + ['"']);
      Told(rest, at, LexOk, piece, rest[k + 1..], Position(p.line, p.col + 1))
  {
    hide Advance, UpToNul, Watching, CutToken;
    StringCuts(rest, at, k, buf, p);
    AdvanceSnoc(at, rest[..k], '"');
    assert rest[..k] + ['"'] == rest[..k + 1] == ['"'] + buf + ['"'];
  }

  /** The character behind the first `k`, if there is one, was read. */
  predicate ReadAhead(rest: string, k: nat, c: char, after: string)
    requires k <= |rest|
  {
    if k < |rest| then c == rest[k] && after == rest[k + 1..] else c == NUL && after == ""
  }

  lemma GivesBack(rest: string, k: nat, c: char, after: string)
    requires k <= |rest| && ReadAhead(rest, k, c, after)
    ensures GiveBack(rest, k) == if c == NUL then after else [c] + after
    ensures k < |rest| && c != NUL ==> GiveBack(rest, k) == rest[k..]
  {
  }

  lemma OneAhead(rest: string, k: nat, c: char, after: string)
    requires k <= |rest|
    requires if rest[k..] != "" then c == rest[k..][0] && after == rest[k..][1..] else c == NUL && after == ""
    ensures ReadAhead(rest, k, c, after)
  {
  }

  lemma WordEnds(rest: string, at: Position, k: nat, buf: string, p: Position)
    requires k <= |rest| && Watching(rest, at, WsWord, k, buf, p) && |buf| < LIMIT
    requires k < |rest| ==> !IsAlpha(rest[k]) && !IsDigit(rest[k]) && !IsForeign(rest[k])
    ensures Told(rest, at, LexOk, WordPiece(buf), GiveBack(rest, k), Advance(at, buf))
    ensures buf != "" && !IsForeign(buf[0]) && '\n' !in buf
    ensures |buf| == k && p == Position(at.line, at.col + k)
  {
    hide WordPiece, GiveBack;
    WordPieceIs(buf);
  }

  lemma NumberEnds(rest: string, at: Position, k: nat, buf: string, p: Position)
    requires k <= |rest| && Watching(rest, at, WsDig, k, buf, p) && |buf| < LIMIT
    requires k < |rest| ==> !IsDigit(rest[k]) && !IsForeign(rest[k])
    ensures Told(rest, at, LexOk, Word(TokNumberL, buf, buf), GiveBack(rest, k), Advance(at, buf)) && '\n' !in buf
    ensures |buf| == k && p == Position(at.line, at.col + k)
  {
    hide GiveBack;
  }

  lemma OperatorEnds(rest: string, at: Position, k: nat, buf: string, p: Position)
    requires k <= |rest| && Watching(rest, at, WsOp, k, buf, p) && |buf| < LIMIT
    requires k < |rest| ==> !Words.IsPunct(rest[k]) || !Words.IsOperator(buf + [rest[k]])
    requires k < |rest| ==> !IsForeign(rest[k])
    ensures Told(rest, at, LexOk, WordPiece(buf), GiveBack(rest, k), Advance(at, buf))
    ensures buf != "" && !IsForeign(buf[0]) && (buf == "\n" || '\n' !in buf)
    ensures |buf| == k && p == Position(at.line, at.col + k)
  {
    hide WordPiece, GiveBack, Words.IsOperator;
    WordPieceIs(buf);
    if k < |rest| {
      assert buf + [rest[k]] == rest[..k + 1];
      if Words.IsOperator(rest[..k + 1]) {
        Words.OperatorsEndInPunct(rest[..k + 1]);
      }
    }
    assert Words.Scan(rest, 1) == k;
    Words.ScannedIsVisible(rest);
  }
}
