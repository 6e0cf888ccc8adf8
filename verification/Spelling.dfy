/**
 Tokens and their spelling: written out with a blank behind each, tokens are lexed to themselves, and what is
 lexed from a text can be written out (bootstrap/lexer.c:194-313, bootstrap/tokens.c:11-111).
 */
module Spelling {
  import opened Basics
  import opened Tokens
  import opened Grammar
  import opened TokenLog
  import opened Scanner
  import Words

  // ----- what the lexer can hand out -----

  /** The kinds that stand for one word or operator. */
  predicate IsFixed(kind: TokenKind) {
    kind !in {TokUndef, TokNumberL, TokStringL, TokBoolL, TokId} && !kind.TokOther?
  }

  predicate IsAlphanumeric(s: string) {
    s != "" && IsAlpha(s[0]) && forall i :: 0 <= i < |s| ==> IsAlpha(s[i]) || IsDigit(s[i])
  }

  /** A name: letters and digits, or one character that means nothing else. */
  predicate IsName(s: string) {
    && |s| < LIMIT && Words.WordOf(s).Identifier?
    && (IsAlphanumeric(s) || (|s| == 1 && BeginsOperator(s[0]) && s[0] != NUL))
  }

  predicate IsNumber(s: string) {
    0 < |s| < LIMIT && forall i :: 0 <= i < |s| ==> IsDigit(s[i])
  }

  /** A token of the grammar, as the lexer makes them: only literals and names carry their text. */
  predicate Lexable(w: Token) {
    match w.kind
    case TokNumberL => IsNumber(w.text)
    case TokBoolL => w.text == "true" || w.text == "false"
    case TokId => IsName(w.text)
    case kind => IsFixed(kind) && w.text == ""
  }

  predicate AllLexable(ws: seq<Token>) {
    forall i :: 0 <= i < |ws| ==> Lexable(ws[i])
  }

  function Spell(w: Token): string {
    if IsFixed(w.kind) then SpellingOf(w.kind) else w.text
  }

  /** Every token with a blank behind it. */
  function SpellAll(ws: seq<Token>): string {
    if ws == [] then "" else Spell(ws[0]) + (" " + SpellAll(ws[1..]))
  }

  /** The tokens among pieces. */
  function TokensOf(ps: seq<Piece>): Stream {
    if ps == [] then []
    else if ps[0].Word? then [Token(ps[0].kind, ps[0].text)] + TokensOf(ps[1..])
    else TokensOf(ps[1..])
  }

  // ----- fixed words -----

  /** Every fixed kind stands for a word of the table. */
  lemma FixedIsListed(kind: TokenKind)
    requires IsFixed(kind)
    ensures Words.InTable(SpellingOf(kind)) && SpellingOf(kind) != "true" && SpellingOf(kind) != "false"
  {
    hide Words.InTable;
    Words.Symbols1Listed();
    Words.Symbols2Listed();
    Words.Symbols3Listed();
    Words.Symbols4Listed();
    Words.Symbols5Listed();
    Words.Reserved2Listed();
    Words.Reserved4Listed();
    Words.BracesListed();
  }

  predicate IsArithmeticSign(kind: TokenKind) {
    kind in {TokPlus, TokMinus, TokStar, TokSlash, TokBang}
  }

  predicate IsComparison(kind: TokenKind) {
    kind in {TokEq, TokNe, TokLt, TokGt, TokAnd, TokOr}
  }

  lemma ArithmeticKind(kind: TokenKind)
    requires IsArithmeticSign(kind)
    ensures KindOf(SpellingOf(kind)) == kind
  {
  }

  lemma ComparisonKind(kind: TokenKind)
    requires IsComparison(kind)
    ensures KindOf(SpellingOf(kind)) == kind
  {
  }

  lemma OtherKind(kind: TokenKind)
    requires IsFixed(kind) && !IsArithmeticSign(kind) && !IsComparison(kind)
    ensures KindOf(SpellingOf(kind)) == kind
  {
  }

  lemma FixedKind(kind: TokenKind)
    requires IsFixed(kind)
    ensures KindOf(SpellingOf(kind)) == kind
  {
    hide KindOf, SpellingOf, IsFixed, IsArithmeticSign, IsComparison;
    if IsArithmeticSign(kind) {
      ArithmeticKind(kind);
    } else if IsComparison(kind) {
      ComparisonKind(kind);
    } else {
      OtherKind(kind);
    }
  }

  /** It is a word of letters, or an operator of one or two characters. */
  predicate IsShort(s: string) {
    (|s| == 1 && BeginsOperator(s[0])) || (|s| == 2 && BeginsOperator(s[0]) && s[1] > ' ')
  }

  lemma FixedShape(kind: TokenKind)
    requires IsFixed(kind)
    ensures IsAlphanumeric(SpellingOf(kind)) || IsShort(SpellingOf(kind))
    ensures |SpellingOf(kind)| <= 4 && NUL !in SpellingOf(kind)
  {
  }

  lemma FixedPiece(kind: TokenKind)
    requires IsFixed(kind)
    ensures WordPiece(SpellingOf(kind)) == Word(kind, "", SpellingOf(kind))
  {
    FixedIsListed(kind);
    FixedKind(kind);
    hide Words.InTable, Words.WordOf, KindOf, SpellingOf, IsFixed, UpToNul;
    Words.ListedIs(SpellingOf(kind));
  }

  // ----- one token is cut off -----

  lemma WordCuts(s: string, rest: string)
    requires IsAlphanumeric(s) && |s| < LIMIT
    ensures CutToken(s + (" " + rest)) == Cut(WordPiece(s), " " + rest)
  {
    hide WordPiece;
    var input := s + (" " + rest);
    assert input[|s|] == ' ' && input[..|s|] == s && input[|s|..] == " " + rest;
    assert WordEnd(input, 1) == |s| by {
      hide WordEnd;
      assert forall i :: 0 <= i < |s| ==> input[i] == s[i];
    }
  }

  lemma NumberCuts(s: string, rest: string)
    requires IsNumber(s)
    ensures CutToken(s + (" " + rest)) == Cut(Word(TokNumberL, s, s), " " + rest)
  {
    var input := s + (" " + rest);
    assert input[|s|] == ' ' && input[..|s|] == s && input[|s|..] == " " + rest;
    assert NumberEnd(input, 1) == |s| by {
      hide NumberEnd;
      assert forall i :: 0 <= i < |s| ==> input[i] == s[i];
    }
  }

  lemma OperatorCuts(s: string, rest: string)
    requires (|s| == 1 || (|s| == 2 && Words.IsOperator(s))) && BeginsOperator(s[0])
    ensures CutToken(s + (" " + rest)) == Cut(WordPiece(s), " " + rest)
  {
    hide WordPiece, Words.IsOperator, Words.Scan;
    var input := s + (" " + rest);
    assert input[|s|] == ' ' && input[..|s|] == s && input[|s|..] == " " + rest;
    var n := Words.Scan(input, 1);
    assert |s| == 2 ==> Words.OperatorAt(input, 2);
    if n > |s| {
      Words.ScannedIsVisible(input);
    }
  }

  lemma TwoIsOperator(s: string)
    requires |s| == 2 && BeginsOperator(s[0]) && Words.InTable(s)
    ensures Words.IsOperator(s)
  {
    hide Words.Groups, Words.IsOperator;
    Words.OperatorsInGroups(s);
  }

  lemma FixedCuts(kind: TokenKind, rest: string)
    requires IsFixed(kind)
    ensures CutToken(SpellingOf(kind) + (" " + rest)) == Cut(Word(kind, "", SpellingOf(kind)), " " + rest)
  {
    FixedPiece(kind);
    FixedShape(kind);
    FixedIsListed(kind);
    hide SpellingOf, IsFixed, WordPiece, Words.InTable, CutToken, Words.IsOperator;
    var s := SpellingOf(kind);
    if IsAlphanumeric(s) {
      WordCuts(s, rest);
    } else {
      if |s| == 2 {
        TwoIsOperator(s);
      }
      OperatorCuts(s, rest);
    }
  }

  lemma {:induction false} NoNul(s: string)
    requires NUL !in s
    ensures UpToNul(s) == s
  {
    if s != "" {
      NoNul(s[1..]);
      assert s == [s[0]] + s[1..];
    }
  }

  lemma NameCuts(s: string, rest: string)
    requires IsName(s)
    ensures CutToken(s + (" " + rest)) == Cut(Word(TokId, s, s), " " + rest)
  {
    assert Words.WordOf(s) == Words.Identifier(s);
    hide Words.WordOf, CutToken, UpToNul;
    NoNul(s);
    assert WordPiece(s) == Word(TokId, s, s);
    if IsAlphanumeric(s) {
      WordCuts(s, rest);
    } else {
      OperatorCuts(s, rest);
    }
  }

  lemma BoolCuts(s: string, rest: string)
    requires s == "true" || s == "false"
    ensures CutToken(s + (" " + rest)) == Cut(Word(TokBoolL, s, s), " " + rest)
  {
    Words.Symbols1Listed();
    Words.Reserved2Listed();
    Words.Reserved4Listed();
    hide Words.InTable, Words.WordOf, CutToken;
    Words.ListedIs(s);
    assert WordPiece(s) == Word(TokBoolL, s, s);
    WordCuts(s, rest);
  }

  /** A token that is written out is cut off again. */
  lemma SpelledCuts(w: Token, rest: string)
    requires Lexable(w)
    ensures CutPiece(Spell(w) + (" " + rest)) == Cut(Word(w.kind, w.text, Spell(w)), " " + rest)
  {
    hide CutToken, IsName, IsNumber, SpellingOf;
    match w.kind {
      case TokNumberL => NumberCuts(w.text, rest);
      case TokBoolL => BoolCuts(w.text, rest);
      case TokId => NameCuts(w.text, rest);
      case _ => FixedCuts(w.kind, rest);
    }
    NoComment(w);
  }

  /** No token begins a comment. */
  lemma NoComment(w: Token)
    requires Lexable(w)
    ensures Spell(w) != "//" && Spell(w) != "/*"
  {
    hide Words.WordOf;
  }

  /** Written out with blanks, tokens are lexed to themselves. */
  lemma {:induction false} SpelledIsLexed(ws: seq<Token>)
    requires AllLexable(ws)
    ensures Pieces(SpellAll(ws)).1 && TokensOf(Pieces(SpellAll(ws)).0) == ws
    decreases |ws|
  {
    hide CutPiece, Lexable, Spell;
    if ws == [] {
      assert CutPiece("") == Ended by {
        EndCuts();
      }
    } else {
      var rest := SpellAll(ws[1..]);
      SpelledCuts(ws[0], rest);
      assert CutPiece(" " + rest) == Cut(Blank(" "), rest) by {
        BlankCuts(" " + rest);
        assert (" " + rest)[..1] == " " && (" " + rest)[1..] == rest;
      }
      SpelledIsLexed(ws[1..]);
      PiecesGoOn(SpellAll(ws));
      PiecesGoOn(" " + rest);
    }
  }

  lemma EndCuts()
    ensures CutPiece("") == Ended
  {
  }

  /** The pieces are the first one and the pieces of the rest. */
  lemma PiecesGoOn(text: string)
    requires CutPiece(text).Cut?
    ensures
      var c := CutPiece(text);
      && Pieces(text).1 == Pieces(c.rest).1
      && TokensOf(Pieces(text).0) ==
         (if c.piece.Word? then [Token(c.piece.kind, c.piece.text)] else []) + TokensOf(Pieces(c.rest).0)
  {
    hide CutPiece;
    var c := CutPiece(text);
    assert Pieces(text).0[1..] == Pieces(c.rest).0;
  }

  // ----- what is lexed can be written out -----

  /** A literal or a name that can be written out; only a NUL is lexed to a name without letters. */
  predicate Legible(w: Token) {
    w.kind in {TokNumberL, TokBoolL, TokId} && !(w.kind == TokId && w.text == "") ==> Lexable(w)
  }

  lemma NameIsLegible(word: string)
    requires |word| < LIMIT && Words.WordOf(word).Identifier?
    requires IsAlphanumeric(word) || (|word| == 1 && BeginsOperator(word[0]))
    ensures Legible(Token(TokId, UpToNul(word)))
  {
    hide Words.WordOf;
    if NUL in word {
      BeginsWithNul(word);
    } else {
      NoNul(word);
    }
  }

  lemma WordIsLegible(word: string)
    requires |word| < LIMIT
    requires IsAlphanumeric(word) || (word != "" && BeginsOperator(word[0]) && (|word| == 1 || Words.IsOperator(word)))
    ensures WordPiece(word).Word? && Legible(Token(WordPiece(word).kind, WordPiece(word).text))
  {
    hide KindOf, SpellingOf, UpToNul, IsAlphanumeric, BeginsOperator, IsName;
    SpellingInverts(word);
    var t := Words.WordOf(word);
    assert t.BoolLiteral? ==> t.text == word && (word == "true" || word == "false");
    if t.Identifier? {
      assert t.text == word && !Words.IsOperator(word);
      NameIsLegible(word);
    }
  }

  lemma BeginsWithNul(s: string)
    requires s != "" && s[0] == NUL
    ensures UpToNul(s) == ""
  {
  }

  /** Every token that is lexed is legible. */
  lemma CutIsLegible(rest: string)
    requires CutPiece(rest).Cut? && CutPiece(rest).piece.Word?
    ensures Legible(Token(CutPiece(rest).piece.kind, CutPiece(rest).piece.text))
  {
    hide WordPiece, Words.Scan, UpToNul, GiveBack, Words.IsOperator, WordEnd, NumberEnd, LineEnd, CommentEnd, QuoteAt;
    hide IsName;
    if IsAlpha(rest[0]) {
      WordIsLegible(rest[..WordEnd(rest, 1)]);
    } else if BeginsOperator(rest[0]) {
      var n := Words.Scan(rest, 1);
      assert n > 1 ==> Words.OperatorAt(rest, n);
      WordIsLegible(rest[..n]);
    }
  }

  predicate AllLegible(ws: seq<Token>) {
    forall i :: 0 <= i < |ws| ==> Legible(ws[i])
  }

  lemma {:induction false} LexedIsLegible(text: string)
    ensures AllLegible(TokensOf(Pieces(text).0))
    decreases |text|
  {
    hide CutPiece, Legible;
    var c := CutPiece(text);
    if c.Cut? {
      CutsApart(text);
      LexedIsLegible(c.rest);
      PiecesGoOn(text);
      if c.piece.Word? {
        CutIsLegible(text);
      }
    }
  }
}
