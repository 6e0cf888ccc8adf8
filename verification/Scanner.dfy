/**
 The character loop (bootstrap/lexer.c:194-379, bootstrap/reader.c:28-68): how the text is cut into words,
 numbers, strings, operators, blanks and comments, with one character read ahead and given back.
 */
module Scanner {
  import opened Basics
  import opened Tokens
  import opened Places
  import opened TokenLog
  import Words

  // ----- characters -----

  predicate IsAlpha(c: char) {
    'a' <= c <= 'z' || 'A' <= c <= 'Z' || c == '_'
  }

  predicate IsDigit(c: char) {
    '0' <= c <= '9'
  }

  /** Punctuation is what is neither letter nor digit. */
  lemma PunctuationIs(c: char)
    ensures Words.IsPunct(c) <==> !IsAlpha(c) && !IsDigit(c)
  {
  }

  /** White space but for the newline. */
  predicate IsBlank(c: char) {
    c == ' ' || c as int == 9 || 11 <= c as int <= 13
  }

  /** A byte beyond ASCII, which only comments may hold. */
  predicate IsForeign(c: char) {
    c as int >= 128
  }

  predicate BeginsOperator(c: char) {
    !IsForeign(c) && !IsBlank(c) && !IsAlpha(c) && !IsDigit(c) && c != '"'
  }

  const NUL := 0 as char

  /** A word, a number or a string has fewer characters than this. */
  const LIMIT: nat := 128

  // ----- kinds -----

  /** The kind of a reserved word or operator, by its spelling. */
  function KindOf(word: string): TokenKind {
    if word == "echo" then TokEcho
    else if word == "then" then TokThen
    else if word == "else" then TokElse
    else if word == "if" then TokIf
    else if word == ":=" then TokDefine
    else if word == "=" then TokAssign
    else if word == "\n" then TokNewline
    else if word == ";" then TokSemicolon
    else if word == "(" then TokLParen
    else if word == ")" then TokRParen
    else if word == "{" then TokLBrace
    else if word == "}" then TokRBrace
    else if word == "+" then TokPlus
    else if word == "-" then TokMinus
    else if word == "*" then TokStar
    else if word == "/" then TokSlash
    else if word == "==" then TokEq
    else if word == "!=" then TokNe
    else if word == "<" then TokLt
    else if word == ">" then TokGt
    else if word == "&&" then TokAnd
    else if word == "||" then TokOr
    else if word == "!" then TokBang
    else TokOther(word)
  }

  /** And back. */
  function SpellingOf(kind: TokenKind): string {
    match kind
    case TokEcho => "echo"
    case TokThen => "then"
    case TokElse => "else"
    case TokIf => "if"
    case TokDefine => ":="
    case TokAssign => "="
    case TokNewline => "\n"
    case TokSemicolon => ";"
    case TokLParen => "("
    case TokRParen => ")"
    case TokLBrace => "{"
    case TokRBrace => "}"
    case TokPlus => "+"
    case TokMinus => "-"
    case TokStar => "*"
    case TokSlash => "/"
    case TokEq => "=="
    case TokNe => "!="
    case TokLt => "<"
    case TokGt => ">"
    case TokAnd => "&&"
    case TokOr => "||"
    case TokBang => "!"
    case TokOther(word) => word
    case _ => ""
  }

  lemma SpellingInverts(word: string)
    ensures SpellingOf(KindOf(word)) == word && KindOf(word) !in {TokUndef, TokNumberL, TokStringL, TokBoolL, TokId}
  {
  }

  /** A token's value is a C string: it ends before the first NUL. */
  function UpToNul(s: string): string {
    if s == "" || s[0] == NUL then "" else [s[0]] + UpToNul(s[1..])
  }

  function Classified(t: Words.WordToken, word: string): Piece {
    match t
    case BoolLiteral(text) => Word(TokBoolL, text, word)
    case Reserved(_) => Word(KindOf(word), "", word)
    case Identifier(text) => Word(TokId, UpToNul(text), word)
  }

  /** What a word or an operator is, by the keyword table. */
  function WordPiece(word: string): Piece {
    Classified(Words.WordOf(word), word)
  }

  /** A word of the table, and no other word, is of its kind. */
  lemma OnlyWord(word: string, known: string)
    requires Words.InTable(known) && known != "true" && known != "false"
    ensures WordPiece(word).Word? && (WordPiece(word).kind == KindOf(known) <==> word == known)
  {
    hide Words.WordOf, Words.InTable, UpToNul, KindOf, SpellingOf;
    SpellingInverts(word);
    SpellingInverts(known);
    Words.ListedIs(known);
  }

  lemma NewlineIs(word: string)
    ensures WordPiece(word).Word? && (WordPiece(word).kind == TokNewline <==> word == "\n")
  {
    hide WordPiece, Words.InTable;
    Words.Symbols1Listed();
    assert "\n"[0] != "true"[0] && "\n"[0] != "false"[0];
    OnlyWord(word, "\n");
  }

  lemma WordPieceIs(word: string)
    ensures Chars(WordPiece(word)) == word && WordPiece(word).Word?
  {
    hide Words.WordOf, KindOf, UpToNul;
  }

  // ----- spans -----

  /** Where the letters and digits end. */
  function WordEnd(rest: string, n: nat): (k: nat)
    requires n <= |rest|
    ensures n <= k <= |rest|
    ensures forall i :: n <= i < k ==> IsAlpha(rest[i]) || IsDigit(rest[i])
    ensures k < |rest| ==> !IsAlpha(rest[k]) && !IsDigit(rest[k])
    decreases |rest| - n
  {
    if n < |rest| && (IsAlpha(rest[n]) || IsDigit(rest[n])) then WordEnd(rest, n + 1) else n
  }

  function NumberEnd(rest: string, n: nat): (k: nat)
    requires n <= |rest|
    ensures n <= k <= |rest|
    ensures forall i :: n <= i < k ==> IsDigit(rest[i])
    ensures k < |rest| ==> !IsDigit(rest[k])
    decreases |rest| - n
  {
    if n < |rest| && IsDigit(rest[n]) then NumberEnd(rest, n + 1) else n
  }

  /** Where a string's closing quote is, if nothing foreign stands before it. */
  function QuoteAt(rest: string, n: nat): (k: Option<nat>)
    requires n <= |rest|
    ensures k.Some? ==> n <= k.value < |rest| && rest[k.value] == '"'
    ensures k.Some? ==> forall i :: n <= i < k.value ==> rest[i] != '"' && !IsForeign(rest[i])
    ensures k.None? ==> forall j :: n <= j < |rest| && rest[j] == '"' ==> exists i :: n <= i < j && IsForeign(rest[i])
    decreases |rest| - n
  {
    if n >= |rest| || IsForeign(rest[n]) then None
    else if rest[n] == '"' then Some(n)
    else QuoteAt(rest, n + 1)
  }

  /** Where the line ends. */
  function LineEnd(rest: string, n: nat): (k: nat)
    requires n <= |rest|
    ensures n <= k <= |rest|
    ensures forall i :: n <= i < k ==> rest[i] != '\n'
    ensures k < |rest| ==> rest[k] == '\n'
    decreases |rest| - n
  {
    if n < |rest| && rest[n] != '\n' then LineEnd(rest, n + 1) else n
  }

  predicate ClosesAt(rest: string, k: nat) {
    2 <= k <= |rest| && rest[k - 2] == '*' && rest[k - 1] == '/'
  }

  /** The position behind the first closing of a comment from `n` on. */
  function CommentEnd(rest: string, n: nat): (k: Option<nat>)
    requires n <= |rest|
    ensures k.Some? ==> n <= k.value && ClosesAt(rest, k.value)
    ensures forall j :: n <= j < (if k.Some? then k.value else |rest| + 1) ==> !ClosesAt(rest, j)
    decreases |rest| - n
  {
    if ClosesAt(rest, n) then Some(n) else if n < |rest| then CommentEnd(rest, n + 1) else None
  }

  // ----- one piece -----

  /** The next piece and what is left to read, the end of the text, or an error. */
  datatype Cut = Cut(piece: Piece, rest: string) | Ended | Failed

  /** The character at `n` was read ahead, and is given back; a NUL is lost by that. */
  function GiveBack(rest: string, n: nat): string
    requires n <= |rest|
  {
    if n < |rest| && rest[n] == NUL then rest[n + 1..] else rest[n..]
  }

  predicate ForeignAt(rest: string, n: nat) {
    n < |rest| && IsForeign(rest[n])
  }

  function CutString(rest: string): Cut
    requires rest != ""
  {
    match QuoteAt(rest, 1)
    case None => Failed
    case Some(k) =>
      if k - 1 >= LIMIT then Failed
      else Cut(Word(TokStringL, UpToNul(rest[1..k]), rest[..k + 1]), rest[k + 1..])
  }

  function CutWord(rest: string): Cut
    requires rest != ""
  {
    var n := WordEnd(rest, 1);
    if n >= LIMIT || ForeignAt(rest, n) then Failed else Cut(WordPiece(rest[..n]), GiveBack(rest, n))
  }

  function CutNumber(rest: string): Cut
    requires rest != ""
  {
    var n := NumberEnd(rest, 1);
    if n >= LIMIT || ForeignAt(rest, n) then Failed
    else Cut(Word(TokNumberL, rest[..n], rest[..n]), GiveBack(rest, n))
  }

  function CutOperator(rest: string): Cut
    requires rest != ""
  {
    var n := Words.Scan(rest, 1);
    if n >= LIMIT || ForeignAt(rest, n) then Failed else Cut(WordPiece(rest[..n]), GiveBack(rest, n))
  }

  /** `lexer_next_token`: of a comment only the start. */
  function CutToken(rest: string): Cut {
    if rest == "" then Ended
    else if IsForeign(rest[0]) then Failed
    else if rest[0] == '"' then CutString(rest)
    else if IsBlank(rest[0]) then Cut(Blank(rest[..1]), rest[1..])
    else if IsAlpha(rest[0]) then CutWord(rest)
    else if IsDigit(rest[0]) then CutNumber(rest)
    else CutOperator(rest)
  }

  /** Behind the start of a comment, the rest of the line or all up to the end of the comment is skipped. */
  function SkipComment(c: Cut): Cut {
    if !c.Cut? then c
    else if Chars(c.piece) == "//" then
      var k := LineEnd(c.rest, 0);
      Cut(LineComment("//", c.rest[..k]), c.rest[k..])
    else if Chars(c.piece) == "/*" then
      match CommentEnd(c.rest, 0)
      case None => Failed
      case Some(k) => Cut(BlockComment("/*", c.rest[..k]), c.rest[k..])
    else c
  }

  function CutPiece(rest: string): Cut {
    SkipComment(CutToken(rest))
  }

  // ----- nothing is skipped but a NUL -----

  /** The text without some of its NULs. */
  predicate Thins(raw: string, kept: string)
    decreases |raw|
  {
    if raw == "" then kept == ""
    else
      || (kept != "" && raw[0] == kept[0] && Thins(raw[1..], kept[1..]))
      || (raw[0] == NUL && Thins(raw[1..], kept))
  }

  lemma {:induction false} ThinsSame(s: string)
    ensures Thins(s, s)
    decreases |s|
  {
    if s != "" {
      ThinsSame(s[1..]);
    }
  }

  lemma {:induction false} ThinsJoin(a: string, x: string, b: string, y: string)
    requires Thins(a, x) && Thins(b, y)
    ensures Thins(a + b, x + y)
    decreases |a|
  {
    if a == "" {
      assert a + b == b && x + y == y;
    } else if x != "" && a[0] == x[0] && Thins(a[1..], x[1..]) {
      ThinsJoin(a[1..], x[1..], b, y);
      assert (a + b)[1..] == a[1..] + b && (x + y)[1..] == x[1..] + y;
    } else {
      ThinsJoin(a[1..], x, b, y);
      assert (a + b)[1..] == a[1..] + b;
    }
  }

  lemma {:induction false} ThinsAll(raw: string, kept: string)
    requires Thins(raw, kept) && NUL !in raw
    ensures raw == kept
    decreases |raw|
  {
    if raw != "" {
      ThinsAll(raw[1..], kept[1..]);
      assert raw == [raw[0]] + raw[1..] && kept == [kept[0]] + kept[1..];
    }
  }

  /** The characters that were read for a piece, with a lost NUL. */
  function Raw(rest: string): (raw: string)
    requires CutPiece(rest).Cut? && |CutPiece(rest).rest| <= |rest|
  {
    rest[..|rest| - |CutPiece(rest).rest|]
  }

  /** What a token read ahead: nothing, or a NUL. */
  lemma GivenBack(rest: string, n: nat)
    requires n <= |rest|
    ensures
      var gap := rest[n..|rest| - |GiveBack(rest, n)|];
      (gap == "" || gap == [NUL]) && rest == rest[..n] + gap + GiveBack(rest, n) && Thins(gap, "")
  {
  }

  lemma PieceTaken(rest: string, n: nat)
    requires n <= |rest|
    ensures
      var after := GiveBack(rest, n);
      && |after| <= |rest| - n
      && rest == rest[..|rest| - |after|] + after && Thins(rest[..|rest| - |after|], rest[..n])
  {
    GivenBack(rest, n);
    var after := GiveBack(rest, n);
    var gap := rest[n..|rest| - |after|];
    ThinsSame(rest[..n]);
    ThinsJoin(rest[..n], rest[..n], gap, "");
    assert rest[..n] + "" == rest[..n];
    assert rest[..n] + gap == rest[..|rest| - |after|];
  }

  /** What a token takes and what is left are the text, but for a NUL. */
  lemma TokenTaken(rest: string)
    requires CutToken(rest).Cut?
    ensures
      var c := CutToken(rest);
      && |c.rest| < |rest| && rest == rest[..|rest| - |c.rest|] + c.rest
      && Thins(rest[..|rest| - |c.rest|], Chars(c.piece))
  {
    hide Words.Scan, WordPiece, UpToNul, WordEnd, NumberEnd, QuoteAt, GiveBack, Thins;
    if rest[0] == '"' {
      var k := QuoteAt(rest, 1).value;
      ThinsSame(rest[..k + 1]);
    } else if IsBlank(rest[0]) {
      ThinsSame(rest[..1]);
    } else if IsAlpha(rest[0]) {
      WordPieceIs(rest[..WordEnd(rest, 1)]);
      PieceTaken(rest, WordEnd(rest, 1));
    } else if IsDigit(rest[0]) {
      PieceTaken(rest, NumberEnd(rest, 1));
    } else {
      WordPieceIs(rest[..Words.Scan(rest, 1)]);
      PieceTaken(rest, Words.Scan(rest, 1));
    }
  }

  /** What is skipped belongs to the piece. */
  lemma SkipTaken(rest: string, after: string, chars: string, k: nat)
    requires |after| <= |rest| && rest == rest[..|rest| - |after|] + after && Thins(rest[..|rest| - |after|], chars)
    requires k <= |after|
    ensures rest == rest[..|rest| - |after[k..]|] + after[k..]
    ensures Thins(rest[..|rest| - |after[k..]|], chars + after[..k])
  {
    var m := |rest| - |after|;
    ThinsSame(after[..k]);
    ThinsJoin(rest[..m], chars, after[..k], after[..k]);
    assert rest[..m] + after[..k] == rest[..m + k] by {
      assert rest == rest[..m] + (after[..k] + after[k..]);
    }
  }

  /** What is taken and what is left are the text, but for a NUL; and something is taken. */
  lemma CutsApart(rest: string)
    requires CutPiece(rest).Cut?
    ensures
      var c := CutPiece(rest);
      |c.rest| < |rest| && rest == Raw(rest) + c.rest && Thins(Raw(rest), Chars(c.piece))
  {
    hide CutToken, LineEnd, CommentEnd, Thins;
    TokenTaken(rest);
    var c := CutToken(rest);
    if Chars(c.piece) == "//" {
      SkipTaken(rest, c.rest, "//", LineEnd(c.rest, 0));
    } else if Chars(c.piece) == "/*" {
      SkipTaken(rest, c.rest, "/*", CommentEnd(c.rest, 0).value);
    }
  }

  // ----- the whole text -----

  /** All pieces up to the end or the first error, and whether it is the end. */
  function Pieces(rest: string): (seq<Piece>, bool)
    decreases |rest|
  {
    var c := CutPiece(rest);
    if !c.Cut? then ([], c.Ended?)
    else
      CutsApart(rest);
      var (ps, ends) := Pieces(c.rest);
      ([c.piece] + ps, ends)
  }

  /** The text of pieces one after the other. */
  function Flat(ps: seq<Piece>): string {
    if ps == [] then "" else Chars(ps[0]) + Flat(ps[1..])
  }

  /** The text is its pieces, but for the NULs that were read ahead. */
  lemma {:induction false} PiecesAreText(rest: string)
    requires Pieces(rest).1
    ensures Thins(rest, Flat(Pieces(rest).0))
    ensures NUL !in rest ==> Flat(Pieces(rest).0) == rest
    decreases |rest|
  {
    var c := CutPiece(rest);
    if c.Cut? {
      CutsApart(rest);
      PiecesAreText(c.rest);
      var ps := Pieces(rest).0;
      assert ps[1..] == Pieces(c.rest).0;
      ThinsJoin(Raw(rest), Chars(c.piece), c.rest, Flat(Pieces(c.rest).0));
    }
    if NUL !in rest {
      ThinsAll(rest, Flat(Pieces(rest).0));
    }
  }

  // ----- lines and columns in the text -----

  /** How many characters the first `r` pieces took. */
  function Offset(rest: string, r: nat): (off: nat)
    requires r <= |Pieces(rest).0|
    ensures off <= |rest|
    decreases |rest|
  {
    if r == 0 then 0
    else
      CutsApart(rest);
      |Raw(rest)| + Offset(CutPiece(rest).rest, r - 1)
  }

  /** The piece that is cut off behind the first `r`; behind all of them the text ends or fails. */
  lemma {:induction false} PieceAt(rest: string, r: nat)
    requires r <= |Pieces(rest).0|
    ensures
      var (ps, ends) := Pieces(rest);
      CutPiece(rest[Offset(rest, r)..]) ==
      if r < |ps| then Cut(ps[r], rest[Offset(rest, r + 1)..]) else if ends then Ended else Failed
    decreases |rest|
  {
    hide CutPiece;
    var c := CutPiece(rest);
    assert rest[0..] == rest;
    if c.Cut? {
      CutsApart(rest);
      var n := |Raw(rest)|;
      assert Pieces(rest).0[1..] == Pieces(c.rest).0;
      if r == 0 {
        assert Offset(c.rest, 0) == 0;
        assert rest[n..] == c.rest;
      } else {
        PieceAt(c.rest, r - 1);
        assert rest[Offset(rest, r)..] == c.rest[Offset(c.rest, r - 1)..];
        if r < |Pieces(rest).0| {
          assert rest[Offset(rest, r + 1)..] == c.rest[Offset(c.rest, r)..];
        }
      }
    }
  }

  lemma {:induction false} TextFront(ps: seq<Piece>, r: nat)
    requires 0 < r <= |ps|
    ensures Text(ps, r) == Chars(ps[0]) + Text(ps[1..], r - 1)
    decreases r
  {
    hide Chars;
    if r == 1 {
      assert Text(ps, 1) == Text(ps, 0) + Chars(ps[0]);
    } else {
      TextFront(ps, r - 1);
      assert ps[1..][r - 2] == ps[r - 1];
    }
  }

  lemma {:induction false} TextIsRead(rest: string, r: nat)
    requires r <= |Pieces(rest).0|
    ensures Thins(rest[..Offset(rest, r)], Text(Pieces(rest).0, r))
    decreases |rest|
  {
    hide CutPiece, Chars;
    if r > 0 {
      CutsApart(rest);
      var c := CutPiece(rest);
      var ps := Pieces(rest).0;
      assert ps[1..] == Pieces(c.rest).0;
      TextIsRead(c.rest, r - 1);
      TextFront(ps, r);
      var off := Offset(c.rest, r - 1);
      ThinsJoin(Raw(rest), Chars(c.piece), c.rest[..off], Text(ps[1..], r - 1));
      assert rest[..Offset(rest, r)] == Raw(rest) + c.rest[..off] by {
        assert rest == Raw(rest) + c.rest;
      }
    }
  }

  lemma {:induction false} ThinsKeepsLines(raw: string, kept: string)
    requires Thins(raw, kept)
    ensures Newlines(raw) == Newlines(kept)
    decreases |raw|
  {
    if raw != "" {
      if kept != "" && raw[0] == kept[0] && Thins(raw[1..], kept[1..]) {
        ThinsKeepsLines(raw[1..], kept[1..]);
      } else {
        ThinsKeepsLines(raw[1..], kept);
      }
    }
  }

  /** The characters behind the last newline. */
  function LastLine(s: string): string
    decreases |s|
  {
    if '\n' in s then LastLine(s[1..]) else s
  }

  lemma {:induction false} LastLineIs(s: string)
    ensures
      var n := |LastLine(s)|;
      && n <= |s| && LastLine(s) == s[|s| - n..] && '\n' !in LastLine(s)
      && (n < |s| ==> s[|s| - n - 1] == '\n')
    decreases |s|
  {
    if '\n' in s {
      LastLineIs(s[1..]);
      if '\n' !in s[1..] {
        assert s[0] == '\n';
      }
    }
  }

  lemma PlaceByLastLine(s: string, p: Position)
    requires IsPlace(s, p)
    ensures p.col == 1 + |LastLine(s)|
  {
    LastLineIs(s);
    var n := |LastLine(s)|;
    forall i | |s| - n <= i < |s|
      ensures s[i] != '\n'
    {
      assert LastLine(s)[i - (|s| - n)] == s[i];
    }
    PlaceIsUnique(s, p, Position(p.line, 1 + n));
  }

  lemma {:induction false} ThinsHasLines(raw: string, kept: string)
    requires Thins(raw, kept)
    ensures '\n' in raw <==> '\n' in kept
    ensures |kept| <= |raw|
    ensures |kept| == |raw| ==> kept == raw
    decreases |raw|
  {
    if raw != "" {
      assert raw == [raw[0]] + raw[1..];
      if kept != "" && raw[0] == kept[0] && Thins(raw[1..], kept[1..]) {
        ThinsHasLines(raw[1..], kept[1..]);
        assert kept == [kept[0]] + kept[1..];
      } else {
        ThinsHasLines(raw[1..], kept);
      }
    }
  }

  lemma {:induction false} ThinsLastLine(raw: string, kept: string)
    requires Thins(raw, kept)
    ensures Thins(LastLine(raw), LastLine(kept))
    decreases |raw|
  {
    ThinsHasLines(raw, kept);
    if '\n' in raw {
      if kept != "" && raw[0] == kept[0] && Thins(raw[1..], kept[1..]) {
        ThinsLastLine(raw[1..], kept[1..]);
      } else {
        assert raw == [raw[0]] + raw[1..];
        ThinsLastLine(raw[1..], kept);
      }
    }
  }

  /**
   Where a piece is said to stand is on the right line, and at the right column exactly if no character of
   that line was lost; the column is too small by the number of NULs that were read ahead on it.
   */
  lemma PieceStandsAt(text: string, r: nat, q: Position)
    requires r <= |Pieces(text).0| && IsPlace(text[..Offset(text, r)], q)
    ensures
      var ps := Pieces(text).0;
      var p, raw, kept := PosAt(ps, r), text[..Offset(text, r)], Text(ps, r);
      && IsPlace(kept, p) && Thins(raw, kept)
      && p.line == q.line
      && (p == q <==> LastLine(kept) == LastLine(raw))
      && q.col - p.col == |LastLine(raw)| - |LastLine(kept)| >= 0
  {
    hide Pieces, Offset, Text, PosAt, IsPlace, Thins, LastLine;
    var ps := Pieces(text).0;
    var p, raw, kept := PosAt(ps, r), text[..Offset(text, r)], Text(ps, r);
    PosAtIsPlace(ps, r);
    TextIsRead(text, r);
    LinesAgree(raw, kept, q, p);
    ThinsLastLine(raw, kept);
    ThinsHasLines(LastLine(raw), LastLine(kept));
    PlaceByLastLine(raw, q);
    PlaceByLastLine(kept, p);
  }

  lemma LinesAgree(raw: string, kept: string, q: Position, p: Position)
    requires Thins(raw, kept) && IsPlace(raw, q) && IsPlace(kept, p)
    ensures q.line == p.line
  {
    ThinsKeepsLines(raw, kept);
  }

  /** In a text without NULs every piece stands where it is said to stand. */
  lemma PiecesStandRight(text: string, r: nat)
    requires r <= |Pieces(text).0| && NUL !in text
    ensures Text(Pieces(text).0, r) == text[..Offset(text, r)]
    ensures IsPlace(text[..Offset(text, r)], PosAt(Pieces(text).0, r))
  {
    hide Pieces, Offset, Text, PosAt, IsPlace;
    TextIsRead(text, r);
    ThinsAll(text[..Offset(text, r)], Text(Pieces(text).0, r));
    PosAtIsPlace(Pieces(text).0, r);
  }

  /** A letter alone. */
  lemma LetterCuts(rest: string)
    requires rest != "" && IsAlpha(rest[0])
    requires |rest| > 1 ==> !IsAlpha(rest[1]) && !IsDigit(rest[1]) && !IsForeign(rest[1])
    ensures CutPiece(rest) == Cut(WordPiece(rest[..1]), GiveBack(rest, 1))
  {
    hide WordPiece, GiveBack;
    WordPieceIs(rest[..1]);
  }

  lemma BlankCuts(rest: string)
    requires rest != "" && IsBlank(rest[0])
    ensures CutPiece(rest) == Cut(Blank(rest[..1]), rest[1..])
  {
  }

  /** An input: in `a`, NUL, blank, `b`, the `b` is said to stand at column 3 and stands at column 4. */
  lemma NulMisplaces()
    ensures
      var text := ['a', NUL, ' ', 'b'];
      && |Pieces(text).0| == 3 && Offset(text, 2) == 3
      && PosAt(Pieces(text).0, 2) == Position(1, 3) && IsPlace(text[..3], Position(1, 4))
  {
    var text := ['a', NUL, ' ', 'b'];
    LetterCuts(text);
    assert GiveBack(text, 1) == " b" && text[..1] == "a";
    BlankCuts(" b");
    assert " b"[1..] == "b" && " b"[..1] == " ";
    LetterCuts("b");
    assert GiveBack("b", 1) == "" && "b"[..1] == "b";
    assert CutPiece("") == Ended;
    hide CutPiece, WordPiece;
    assert Pieces("") == ([], true);
    assert Pieces("b").0 == [WordPiece("b")];
    assert Pieces(" b").0 == [Blank(" "), WordPiece("b")];
    var ps := Pieces(text).0;
    assert ps == [WordPiece("a"), Blank(" "), WordPiece("b")];
    assert Offset(" b", 1) == 1;
    hide Pieces;
    NulPlaces(ps);
  }

  lemma NulPlaces(ps: seq<Piece>)
    requires ps == [WordPiece("a"), Blank(" "), WordPiece("b")]
    ensures PosAt(ps, 2) == Position(1, 3)
    ensures IsPlace(['a', NUL, ' ', 'b'][..3], Position(1, 4))
  {
    hide Words.WordOf, KindOf, UpToNul;
    assert Chars(ps[0]) == "a";
    assert Advance(START, "a") == Position(1, 2);
    assert Advance(Position(1, 2), " ") == Position(1, 3);
    assert PosAt(ps, 1) == Position(1, 2);
    assert ['a', NUL, ' ', 'b'][..3] == ['a', NUL, ' '];
    assert ['a', NUL, ' '][1..] == [NUL, ' '] && [NUL, ' '][1..] == " " && " "[1..] == "";
    assert Newlines(" ") == 0;
    assert Newlines([NUL, ' ']) == 0;
    assert Newlines(['a', NUL, ' ']) == 0;
  }
}
