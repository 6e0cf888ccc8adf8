/**
 The lexer as it runs (bootstrap/lexer.c:54-192): the log of steps over the character loop. It hands out what
 the log of the text's pieces says, and fails exactly where the text has a part that is no token.
 */
module LexerMachine {
  import opened Basics
  import opened Tokens
  import opened Places
  import opened TokenLog
  import opened Scanner
  import opened ScannerMachine
  import Words

  predicate Paired(log: seq<LogStep>) {
    forall i :: 0 <= i < |log| && log[i].tok.kind == BlockStart ==> Followed(log, i)
  }

  lemma PairedAt(log: seq<LogStep>, i: nat)
    requires Paired(log) && i < |log| && log[i].tok.kind == BlockStart
    ensures i + 1 < |log| && log[i + 1].tok.kind.Sig?
  {
  }

  lemma PairedJoins(log: seq<LogStep>, p: Piece, at: Position)
    requires Paired(log) && IsMark(log, |log|)
    ensures Paired(log + StepsOf(p, at)) && IsMark(log + StepsOf(p, at), |log| + |StepsOf(p, at)|)
  {
  }

  lemma PairedEnd(log: seq<LogStep>, at: Position)
    requires Paired(log) && IsMark(log, |log|)
    ensures Paired(log + [EofStep(at)]) && IsMark(log + [EofStep(at)], |log| + 1)
  {
  }

  class Lexer {
    const text: string
    const chars: CharLexer      // the reader, line and column
    var steps: seq<LogStep>
    var stepsPos: nat
    var atEof: bool
    ghost var read: nat         // the pieces read

    ghost predicate Valid()
      reads this, chars, chars.reader, chars.ranges
    {
      && chars.Valid() && read <= |Pieces(text).0| && chars.Rest() == text[Offset(text, read)..]
      && Paired(steps) && IsMark(steps, stepsPos) && IsMark(steps, |steps|)
      && (if atEof then steps != [] && steps[|steps| - 1].tok.kind == End && Pieces(text).1 else Endless(steps))
    }

    ghost function State(): Lex
      reads this, chars
    {
      Lex(steps, stepsPos, chars.At(), atEof, read)
    }

    constructor (text: string)
      ensures Valid() && State() == FRESH && this.text == text
      ensures fresh(chars) && fresh(chars.reader) && fresh(chars.ranges)
    {
      hide Pieces, Offset, Words.Ranged;
      OffsetBegins(text);
      var scanner := new CharLexer(text);
      this.text := text;
      chars := scanner;
      steps, stepsPos, atEof, read := [], 0, false, 0;
    }

    method Mark() returns (mark: nat)
      requires Valid()
      ensures mark == stepsPos && IsMark(steps, mark)
    {
      mark := stepsPos;
    }

    method RewindTo(mark: nat)
      requires Valid() && IsMark(steps, mark)
      modifies this`stepsPos
      ensures Valid() && State() == Rewind(old(State()), mark)
    {
      hide Pieces, Offset, Paired;
      stepsPos := mark;
    }

    /** `lexer_next_significant`: it fails exactly if reading on comes to where the text fails. */
    method NextSignificant() returns (st: LexState, tok: Tok)
      requires Valid()
      modifies this, chars, chars.reader
      ensures st == LexError <==> !Pieces(text).1 && Next(Pieces(text).0, old(State())).1.eof
      ensures st != LexError ==>
        && Valid() && (tok, State()) == Next(Pieces(text).0, old(State()))
        && st == if tok.kind == End then LexEof else LexOk
    {
      hide Paired, Turn, Shown, Pieces, Offset;
      if atEof && stepsPos >= |steps| {
        return LexEof, steps[|steps| - 1].tok;
      }
      ghost var src := Pieces(text).0;
      while true
        invariant Valid() && !(atEof && stepsPos >= |steps|)
        invariant Turns(src, State()) == Next(src, old(State()))
        decreases if stepsPos < |steps| then 1 else 0, |src| - read, |steps| - stepsPos
      {
        var shown;
        LastTurnEnds(src, State());
        if stepsPos < |steps| {
          tok, shown := Replay();
          st := if tok.kind == End then LexEof else LexOk;
        } else {
          st, tok, shown := LexFresh();
        }
        if shown || st == LexError {
          return;
        }
      }
    }

    /** Replays a step; a block comment's start is replayed with its newline. */
    method Replay() returns (tok: Tok, shown: bool)
      requires Valid() && stepsPos < |steps|
      modifies this`stepsPos, this`atEof, chars`line, chars`col
      ensures Valid() && State() == Turn(Pieces(text).0, old(State())) && stepsPos > old(stepsPos)
      ensures Shown(State(), old(stepsPos)) == if shown then Some(tok) else None
      ensures atEof && stepsPos >= |steps| ==> shown
    {
      hide Paired, Pieces, Offset;
      var step := steps[stepsPos];
      tok := step.tok;
      stepsPos := stepsPos + 1;
      chars.line, chars.col := step.after.line, step.after.col;
      shown := IsShown(tok.kind);
      if tok.kind == End {
        atEof := true;
      } else if tok.kind == BlockStart {
        PairedAt(steps, stepsPos - 1);
        var end := steps[stepsPos].after;
        chars.line, chars.col := end.line, end.col;
        stepsPos := stepsPos + 1;
      }
    }

    /** Lexes the next piece, or the end of the file, and logs it. */
    method LexFresh() returns (st: LexState, tok: Tok, shown: bool)
      requires Valid() && stepsPos == |steps| && !atEof
      modifies this, chars, chars.reader
      ensures st == LexError <==> old(read) == |Pieces(text).0| && !Pieces(text).1
      ensures st != LexError ==> Valid() && State() == Turn(Pieces(text).0, old(State())) && stepsPos == |steps|
      ensures st != LexError ==> Shown(State(), old(stepsPos)) == if shown then Some(tok) else None
      ensures st != LexError ==> st == if tok.kind == End then LexEof else LexOk
      ensures st != LexError ==> if old(read) == |Pieces(text).0| then shown else read == old(read) + 1 && !atEof
    {
      hide Pieces, Offset, CutToken, CutPiece, SkipComment, Paired, Endless, StepsOf, Advance, Words.Ranged;
      hide Turn, Shown, IsMark;
      ghost var rest, src, s := chars.Rest(), Pieces(text).0, State();
      var at := Position(chars.line, chars.col);
      var token;
      st, token := chars.NextToken();
      TokenRead(text, read);
      if st == LexError {
        return LexError, Tok(End, "", at), false;
      }
      if st == LexEof {
        shown := true;
        TurnLexes(src, s, [EofStep(at)]);
        tok := LogEnd(at);
        return;
      }
      CommentIs(rest);
      tok := TokenOf(token, at);
      shown := IsShown(tok.kind);
      st := LogPiece(tok, token, at);
      if st == LexOk {
        TurnLexes(src, s, StepsOf(src[read - 1], at));
      }
    }

    /** The end is logged with the column behind a character that is not there. */
    method LogEnd(at: Position) returns (tok: Tok)
      requires Valid() && !atEof && read == |Pieces(text).0| && Pieces(text).1
      requires chars.At() == Position(at.line, at.col + 1)
      modifies this`steps, this`stepsPos, this`atEof
      ensures Valid() && steps == old(steps) + [EofStep(at)] && stepsPos == |steps| && atEof && tok == EofStep(at).tok
    {
      hide Pieces, Offset, Paired, Endless, Words.Ranged, IsMark;
      PairedEnd(steps, at);
      tok := Tok(End, "", at);
      steps := steps + [LogStep(tok, Position(chars.line, chars.col))];
      stepsPos, atEof := |steps|, true;
    }

    /** A token, and the comment behind it, is one more piece. */
    method LogPiece(tok: Tok, token: Piece, at: Position) returns (st: LexState)
      requires chars.Valid() && Comments(token) && tok == TokenOf(token, at)
      requires chars.At() == Advance(at, Chars(token)) && read <= |Pieces(text).0|
      requires CutToken(text[Offset(text, read)..]) == Cut(token, chars.Rest())
      requires Paired(steps) && IsMark(steps, |steps|) && !atEof && Endless(steps)
      modifies this`steps, this`stepsPos, this`read, chars, chars.reader
      ensures st != LexEof && (st == LexError <==> old(read) == |Pieces(text).0| && !Pieces(text).1)
      ensures st == LexOk ==> Valid() && stepsPos == |steps| && old(read) < |Pieces(text).0| && read == old(read) + 1
      ensures st == LexOk ==>
        var logged := StepsOf(Pieces(text).0[old(read)], at);
        && steps == old(steps) + logged && logged != [] && logged[0].tok == tok && tok.kind != End
        && chars.At() == LastAfter(logged)
    {
      hide Pieces, Offset, CutToken, CutPiece, SkipComment, Paired, Endless, StepsOf, Advance, Words.Ranged, IsMark;
      ghost var before, behind := steps, chars.Rest();
      ghost var piece;
      st, piece := LogToken(tok, token, at);
      PieceRead(text, read, token, behind);
      if st == LexOk {
        PairedJoins(before, piece, at);
        EndlessJoins(before, piece, at);
        StepsBeginWith(piece, at, tok);
        stepsPos := |steps|;
        read := read + 1;
      }
    }

    /** Logs a token; a comment is skipped, and its step is sealed or its newline logged behind it. */
    method LogToken(tok: Tok, token: Piece, at: Position) returns (st: LexState, ghost piece: Piece)
      requires chars.Valid() && Comments(token) && tok == TokenOf(token, at)
      requires chars.At() == Advance(at, Chars(token))
      modifies this`steps, chars, chars.reader
      ensures chars.Valid() && st != LexEof
      ensures SkipComment(Cut(token, old(chars.Rest()))) == if st == LexOk then Cut(piece, chars.Rest()) else Failed
      ensures st == LexOk ==>
        && steps == old(steps) + StepsOf(piece, at) && chars.At() == LastAfter(StepsOf(piece, at))
        && StepsOf(piece, at)[0].tok == tok
    {
      hide Advance, SkipComment, Words.Ranged, StepsOf;
      ghost var rest := chars.Rest();
      var before := steps;
      var step := LogStep(tok, Position(chars.line, chars.col));
      steps := before + [step];
      st, piece := chars.SkipBehind(token);
      if st == LexError {
        return;
      }
      var here := Position(chars.line, chars.col);
      SkippedBehind(token, piece, rest, chars.Rest());
      StepsAre(token, piece, at, here);
      if tok.kind == LineStart {
        steps := before + [LogStep(tok, here)];
      } else if tok.kind == BlockStart {
        var newline := LogStep(Tok(Sig(TokNewline), "", here), here);
        TwoSteps(before, step, newline);
        steps := steps + [newline];
      }
    }
  }

  /** What the first token behind the pieces says of them. */
  lemma TokenRead(text: string, r: nat)
    requires r <= |Pieces(text).0|
    ensures
      var (ps, ends) := Pieces(text);
      var c := CutToken(text[Offset(text, r)..]);
      && (c.Failed? ==> r == |ps| && !ends) && (c.Ended? ==> r == |ps| && ends)
  {
    hide Pieces, Offset, CutToken;
    PieceAt(text, r);
  }

  /** And the token with the comment behind it. */
  lemma PieceRead(text: string, r: nat, token: Piece, behind: string)
    requires r <= |Pieces(text).0| && CutToken(text[Offset(text, r)..]) == Cut(token, behind)
    ensures
      var (ps, ends) := Pieces(text);
      var c := SkipComment(Cut(token, behind));
      if r < |ps| then c == Cut(ps[r], text[Offset(text, r + 1)..])
      else if ends then c.Ended? else c.Failed?
  {
    hide Pieces, Offset, CutToken, SkipComment;
    PieceAt(text, r);
  }

  /** One turn that lexes a piece, or the end. */
  lemma TurnLexes(src: seq<Piece>, s: Lex, logged: seq<LogStep>)
    requires s.pos == |s.log| && logged != []
    requires logged == if s.read < |src| then StepsOf(src[s.read], s.at) else [EofStep(s.at)]
    ensures
      var more := s.read < |src|;
      Turn(src, s) ==
      Lex(s.log + logged, |s.log + logged|, LastAfter(logged), s.eof || !more, if more then s.read + 1 else s.read)
    ensures Shown(Turn(src, s), s.pos) == if IsShown(logged[0].tok.kind) then Some(logged[0].tok) else None
  {
    hide StepsOf;
  }

  lemma StepsBeginWith(p: Piece, at: Position, tok: Tok)
    requires StepsOf(p, at)[0].tok == tok
    ensures StepsOf(p, at) != [] && tok.kind != End
  {
  }

  lemma OffsetBegins(text: string)
    ensures Offset(text, 0) == 0 && text[0..] == text
  {
  }

  lemma LastTurnEnds(src: seq<Piece>, s: Lex)
    ensures s.pos == |s.log| && s.read == |src| ==> Turns(src, s).1.eof
  {
  }

  /** No step of the log is the end. */
  predicate Endless(log: seq<LogStep>) {
    forall i :: 0 <= i < |log| ==> log[i].tok.kind != End
  }

  lemma EndlessJoins(log: seq<LogStep>, p: Piece, at: Position)
    requires Endless(log)
    ensures Endless(log + StepsOf(p, at))
  {
  }

  function TokenOf(token: Piece, at: Position): Tok
    requires token.Word? || token.Blank?
  {
    if token.Blank? then Tok(Space, "", at)
    else if IsStart(token, "//") then Tok(LineStart, "", at)
    else if IsStart(token, "/*") then Tok(BlockStart, "", at)
    else Tok(Sig(token.kind), token.text, at)
  }

  /** The piece that a token begins, or is. */
  predicate BehindToken(token: Piece, piece: Piece) {
    match piece
    case LineComment(chars, _) => IsStart(token, "//") && chars == Chars(token)
    case BlockComment(chars, _) => IsStart(token, "/*") && chars == Chars(token)
    case _ => piece == token && !IsStart(token, "//") && !IsStart(token, "/*")
  }

  lemma TwoSteps(log: seq<LogStep>, a: LogStep, b: LogStep)
    ensures log + [a] + [b] == log + [a, b]
  {
  }

  lemma SkippedBehind(token: Piece, piece: Piece, rest: string, after: string)
    requires Comments(token) && SkipComment(Cut(token, rest)) == Cut(piece, after)
    ensures BehindToken(token, piece)
  {
    hide LineEnd, CommentEnd;
  }

  /** What is logged for a token, once the comment behind it is skipped. */
  lemma StepsAre(token: Piece, piece: Piece, at: Position, here: Position)
    requires (token.Word? || token.Blank?) && BehindToken(token, piece)
    requires
      var behind := Advance(at, Chars(token));
      here == if piece == token then behind else Advance(behind, piece.skip)
    ensures
      var tok, behind := TokenOf(token, at), Advance(at, Chars(token));
      StepsOf(piece, at) ==
      if tok.kind == LineStart then [LogStep(tok, here)]
      else if tok.kind == BlockStart then [LogStep(tok, behind), LogStep(Tok(Sig(TokNewline), "", here), here)]
      else [LogStep(tok, behind)]
    ensures LastAfter(StepsOf(piece, at)) == here
  {
    hide Advance;
  }

  // ----- where tokens stand in the text -----

  /** In a text without NULs every token stands where its first character does. */
  lemma TokensStandRight(text: string, i: nat) returns (r: nat)
    requires NUL !in text && i < |FullLog(Pieces(text).0)|
    ensures r <= |Pieces(text).0| && IsPlace(text[..Offset(text, r)], FullLog(Pieces(text).0)[i].tok.at)
  {
    hide Pieces, Offset, Text, FullLog, IsPlace;
    var src := Pieces(text).0;
    r := TokensArePlaced(src, i);
    PiecesStandRight(text, r);
    if !IsPlace(Text(src, r), FullLog(src)[i].tok.at) {
      r := r + 1;
      PiecesStandRight(text, r);
    }
  }

  /** So does the token that is handed out next, whatever was read, marked and rewound before. */
  lemma NextStandsRight(text: string, s: Lex)
    requires NUL !in text && Inv(Pieces(text).0, s) && InSync(Pieces(text).0, s)
    ensures
      var at := Next(Pieces(text).0, s).0.at;
      exists r :: 0 <= r <= |Pieces(text).0| && IsPlace(text[..Offset(text, r)], at)
  {
    hide Next, Pieces, Offset, FullLog, FirstShown, Inv, InSync, IsPlace;
    var src := Pieces(text).0;
    NextIsFaithful(src, s);
    var r := TokensStandRight(text, FirstShown(FullLog(src), s.pos));
  }
}
