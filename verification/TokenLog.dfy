/**
 The replayable token log (bootstrap/lexer.c:54-192): every step of lexing is logged with the line and
 column behind it, a mark is a place in the log, and a rewind replays the steps from there.

 Below the log, the source is a sequence of pieces, each a token or the start of a comment, with the
 characters that the character loop reads for it and the ones it skips behind the start of a comment.
 */
module TokenLog {
  import opened Basics
  import opened Tokens
  import opened Places

  /** What stands at an offset of the reader; `skip` is the rest of a comment. */
  datatype Piece =
    | Word(kind: TokenKind, text: string, chars: string)
    | Blank(chars: string)
    | LineComment(chars: string, skip: string)
    | BlockComment(chars: string, skip: string)

  /** The characters of a piece. */
  function Chars(p: Piece): string {
    match p
    case Word(_, _, chars) => chars
    case Blank(chars) => chars
    case LineComment(chars, skip) => chars + skip
    case BlockComment(chars, skip) => chars + skip
  }

  datatype StepKind = Sig(kind: TokenKind) | Space | LineStart | BlockStart | End

  datatype Tok = Tok(kind: StepKind, text: string, at: Position)

  datatype LogStep = LogStep(tok: Tok, after: Position)

  // ----- the lexer's state, and one call -----

  datatype Lex = Lex(log: seq<LogStep>, pos: nat, at: Position, eof: bool, read: nat)

  const FRESH: Lex := Lex([], 0, Position(1, 1), false, 0)

  /** The steps that lexing one piece logs, from the position that the lexer holds. */
  function StepsOf(p: Piece, at: Position): (steps: seq<LogStep>)
    ensures steps != []
  {
    match p
    case Word(kind, text, chars) => [LogStep(Tok(Sig(kind), text, at), Advance(at, chars))]
    case Blank(chars) => [LogStep(Tok(Space, "", at), Advance(at, chars))]
    case LineComment(chars, skip) => [LogStep(Tok(LineStart, "", at), Advance(Advance(at, chars), skip))]
    case BlockComment(chars, skip) =>
      var end := Advance(Advance(at, chars), skip);
      [LogStep(Tok(BlockStart, "", at), Advance(at, chars)), LogStep(Tok(Sig(TokNewline), "", end), end)]
  }

  /** The end of the file: the column counts one character that is not there. */
  function EofStep(at: Position): LogStep {
    LogStep(Tok(End, "", at), Position(at.line, at.col + 1))
  }

  function LastAfter(steps: seq<LogStep>): Position
    requires steps != []
  {
    steps[|steps| - 1].after
  }

  /** One turn of the loop: replay the next logged step, or lex the next piece and log it. */
  function Turn(src: seq<Piece>, s: Lex): Lex {
    if s.pos < |s.log| then
      var step := s.log[s.pos];
      if step.tok.kind == BlockStart && s.pos + 1 < |s.log| then
        s.(pos := s.pos + 2, at := s.log[s.pos + 1].after)
      else
        s.(pos := s.pos + 1, at := step.after, eof := s.eof || step.tok.kind == End)
    else
      var steps := if s.read < |src| then StepsOf(src[s.read], s.at) else [EofStep(s.at)];
      var log := s.log + steps;
      Lex(log, |log|, LastAfter(steps), s.eof || s.read >= |src|, if s.read < |src| then s.read + 1 else s.read)
  }

  predicate IsShown(k: StepKind) {
    k.Sig? || k.End?
  }

  /** The token that a turn from log position `pos` hands out, if it does not go round again. */
  function Shown(s: Lex, pos: nat): Option<Tok> {
    if pos < |s.log| && IsShown(s.log[pos].tok.kind) then Some(s.log[pos].tok) else None
  }

  /** `lexer_next_significant`: at the end of the file, the last token again and again. */
  function Next(src: seq<Piece>, s: Lex): (Tok, Lex) {
    if s.eof && s.pos >= |s.log| && s.log != [] then (s.log[|s.log| - 1].tok, s) else Turns(src, s)
  }

  function Turns(src: seq<Piece>, s: Lex): (Tok, Lex)
    decreases if s.pos < |s.log| then 1 else 0, |src| - s.read, |s.log| - s.pos
  {
    var s' := Turn(src, s);
    var tok := Shown(s', if s.pos < |s.log| then s.pos else |s.log|);
    if tok.Some? then (tok.value, s') else Turns(src, s')
  }

  function Rewind(s: Lex, mark: nat): Lex {
    s.(pos := mark)
  }

  // ----- the log that the source determines -----

  /** Where the piece at a reader offset really stands. */
  function PosAt(src: seq<Piece>, r: nat): Position
    requires r <= |src|
  {
    if r == 0 then Position(1, 1) else LastAfter(StepsOf(src[r - 1], PosAt(src, r - 1)))
  }

  function TrueLog(src: seq<Piece>, r: nat): seq<LogStep>
    requires r <= |src|
  {
    if r == 0 then [] else TrueLog(src, r - 1) + StepsOf(src[r - 1], PosAt(src, r - 1))
  }

  function FullLog(src: seq<Piece>): (log: seq<LogStep>)
    ensures log != []
  {
    TrueLog(src, |src|) + [EofStep(PosAt(src, |src|))]
  }

  /** The text of the first `r` pieces. */
  function Text(src: seq<Piece>, r: nat): string
    requires r <= |src|
  {
    if r == 0 then "" else Text(src, r - 1) + Chars(src[r - 1])
  }

  /** The first step from `pos` on that is handed out; the newline that stands for a comment is not. */
  function FirstShown(log: seq<LogStep>, pos: nat): (i: nat)
    requires log != []
    ensures i < |log|
    decreases |log| - pos
  {
    if pos >= |log| then |log| - 1
    else if IsShown(log[pos].tok.kind) then pos
    else if log[pos].tok.kind == BlockStart then FirstShown(log, pos + 2)
    else FirstShown(log, pos + 1)
  }

  /** A mark is never between the start of a comment and the newline that stands for it. */
  predicate IsMark(log: seq<LogStep>, pos: nat) {
    pos <= |log| && (pos > 0 ==> log[pos - 1].tok.kind != BlockStart)
  }

  predicate Inv(src: seq<Piece>, s: Lex) {
    && s.read <= |src| && IsMark(s.log, s.pos)
    && if s.eof then s.read == |src| && s.log == FullLog(src) else s.log == TrueLog(src, s.read)
  }

  /** Fresh lexing would resume with the position of the reader's offset. */
  predicate InSync(src: seq<Piece>, s: Lex)
    requires s.read <= |src|
  {
    !s.eof && s.pos == |s.log| ==> s.at == PosAt(src, s.read)
  }

  /** A block comment's start is logged together with its newline; the end is logged last. */
  predicate Closed(log: seq<LogStep>) {
    forall i :: 0 <= i < |log| ==> log[i].tok.kind != End && (log[i].tok.kind == BlockStart ==> Followed(log, i))
  }

  predicate Followed(log: seq<LogStep>, i: nat) {
    i + 1 < |log| && log[i + 1].tok.kind.Sig?
  }

  lemma ClosedAt(log: seq<LogStep>, i: nat)
    requires Closed(log) && i < |log|
    ensures log[i].tok.kind != End
    ensures log[i].tok.kind == BlockStart ==> i + 1 < |log| && log[i + 1].tok.kind.Sig?
  {
  }

  lemma StepsAreClosed(p: Piece, at: Position)
    ensures StepsOf(p, at) != [] && Closed(StepsOf(p, at))
    ensures StepsOf(p, at)[|StepsOf(p, at)| - 1].tok.kind != BlockStart
    ensures |StepsOf(p, at)| == if StepsOf(p, at)[0].tok.kind == BlockStart then 2 else 1
    ensures |StepsOf(p, at)| == 2 ==> StepsOf(p, at)[1].tok.kind.Sig?
  {
  }

  lemma {:induction false} TrueLogIsClosed(src: seq<Piece>, r: nat)
    requires r <= |src|
    ensures Closed(TrueLog(src, r))
    ensures r > 0 ==> TrueLog(src, r) != []
    ensures TrueLog(src, r) != [] ==> LastAfter(TrueLog(src, r)) == PosAt(src, r)
    ensures TrueLog(src, r) != [] ==> TrueLog(src, r)[|TrueLog(src, r)| - 1].tok.kind != BlockStart
  {
    if r > 0 {
      TrueLogIsClosed(src, r - 1);
      StepsAreClosed(src[r - 1], PosAt(src, r - 1));
      ClosedJoins(TrueLog(src, r - 1), StepsOf(src[r - 1], PosAt(src, r - 1)));
      hide StepsOf, Closed;
    }
  }

  lemma ClosedJoins(log: seq<LogStep>, steps: seq<LogStep>)
    requires Closed(log) && Closed(steps) && (log != [] ==> log[|log| - 1].tok.kind != BlockStart)
    ensures Closed(log + steps)
  {
  }

  lemma {:induction false} TrueLogGrows(src: seq<Piece>, r: nat)
    requires r <= |src|
    ensures TrueLog(src, r) <= FullLog(src)
    decreases |src| - r
  {
    hide StepsOf, PosAt, EofStep;
    if r < |src| {
      TrueLogGrows(src, r + 1);
      assert TrueLog(src, r) <= TrueLog(src, r + 1);
    }
  }

  lemma FreshIsSound(src: seq<Piece>)
    ensures Inv(src, FRESH) && InSync(src, FRESH)
  {
  }

  /** What one turn from `s` should come to. */
  predicate TurnedWell(src: seq<Piece>, s: Lex, s': Lex) {
    var full := FullLog(src);
    && Inv(src, s') && InSync(src, s') && s.log <= s'.log <= full && s.pos < |s'.log|
    && s'.pos == s.pos + (if full[s.pos].tok.kind == BlockStart then 2 else 1) <= |s'.log|
    && s'.at == full[s'.pos - 1].after
    && (full[s.pos].tok.kind == BlockStart ==> full[s.pos + 1].tok.kind != End)
  }

  /** One turn keeps the log the true one, and the position in step with the reader. */
  lemma TurnIsSound(src: seq<Piece>, s: Lex)
    requires Inv(src, s) && InSync(src, s) && !(s.eof && s.pos >= |s.log|)
    ensures TurnedWell(src, s, Turn(src, s))
  {
    hide TurnedWell, Turn, FullLog, TrueLog, PosAt;
    if s.pos < |s.log| {
      ReplayTurn(src, s);
    } else if s.read < |src| {
      FreshTurn(src, s);
    } else {
      LastTurn(src, s);
    }
  }

  lemma ReplayTurn(src: seq<Piece>, s: Lex)
    requires Inv(src, s) && s.pos < |s.log|
    ensures TurnedWell(src, s, Turn(src, s))
  {
    hide TrueLog, PosAt, StepsOf, Closed, EofStep;
    TrueLogIsClosed(src, s.read);
    TrueLogGrows(src, s.read);
    if s.pos < |TrueLog(src, s.read)| {
      ClosedAt(TrueLog(src, s.read), s.pos);
    } else {
      EofIsEnd(src);
    }
  }

  lemma EofIsEnd(src: seq<Piece>)
    ensures FullLog(src)[|FullLog(src)| - 1].tok.kind == End
    ensures |FullLog(src)| == |TrueLog(src, |src|)| + 1
  {
    hide TrueLog, PosAt;
  }

  lemma LastTurn(src: seq<Piece>, s: Lex)
    requires Inv(src, s) && InSync(src, s) && !s.eof && s.pos == |s.log| && s.read == |src|
    ensures TurnedWell(src, s, Turn(src, s))
  {
    hide TrueLog, PosAt, StepsOf;
    assert Turn(src, s).log == FullLog(src);
  }

  lemma FreshTurn(src: seq<Piece>, s: Lex)
    requires Inv(src, s) && InSync(src, s) && !s.eof && s.pos == |s.log| && s.read < |src|
    ensures TurnedWell(src, s, Turn(src, s))
  {
    hide Closed, FullLog, TurnedWell, StepsOf;
    var steps := StepsOf(src[s.read], s.at);
    StepsAreClosed(src[s.read], s.at);
    TrueLogGrows(src, s.read + 1);
    FreshSteps(src, s, steps, Turn(src, s));
  }

  lemma FreshSteps(src: seq<Piece>, s: Lex, steps: seq<LogStep>, s': Lex)
    requires s.read < |src| && !s.eof && steps != [] && s.pos == |s.log|
    requires s' == Lex(s.log + steps, |s.log| + |steps|, LastAfter(steps), s.eof, s.read + 1)
    requires s.log + steps == TrueLog(src, s.read + 1) <= FullLog(src) && LastAfter(steps) == PosAt(src, s.read + 1)
    requires |steps| == (if steps[0].tok.kind == BlockStart then 2 else 1) && steps[|steps| - 1].tok.kind != BlockStart
    requires |steps| == 2 ==> steps[1].tok.kind.Sig?
    ensures TurnedWell(src, s, s')
  {
    hide TrueLog, PosAt, FullLog;
    var full := FullLog(src);
    assert full[..|s.log + steps|] == s.log + steps;
    assert full[s.pos] == (s.log + steps)[|s.log|] == steps[0];
    assert |steps| == 2 ==> full[s.pos + 1] == (s.log + steps)[|s.log| + 1] == steps[1];
  }

  /**
   The main theorem: whatever was read, marked and rewound before, a call hands out the token that stands
   at its log position in the log of the source, and holds the line and column logged there.
   */
  lemma NextIsFaithful(src: seq<Piece>, s: Lex)
    requires Inv(src, s) && InSync(src, s)
    ensures
      var (tok, s') := Next(src, s);
      var full := FullLog(src);
      var i := FirstShown(full, s.pos);
      && tok == full[i].tok && Inv(src, s') && InSync(src, s') && s.log <= s'.log
      && (s.pos < |full| ==> s'.pos == i + 1 && s'.at == full[i].after)
      && (s.pos >= |full| ==> s' == s)
  {
    hide FullLog, TrueLog, PosAt, Turn, Turns, FirstShown, StepsOf;
    if s.eof && s.pos >= |s.log| {
      FirstShownStep(FullLog(src), s.pos);
    } else {
      TurnIsSound(src, s);
      TurnsAreFaithful(src, s);
    }
  }

  lemma {:induction false} TurnsAreFaithful(src: seq<Piece>, s: Lex)
    requires Inv(src, s) && InSync(src, s) && !(s.eof && s.pos >= |s.log|)
    ensures
      var (tok, s') := Turns(src, s);
      var full := FullLog(src);
      var i := FirstShown(full, s.pos);
      && tok == full[i].tok && Inv(src, s') && InSync(src, s') && s.log <= s'.log
      && s'.pos == i + 1 && s'.at == full[i].after
    decreases if s.pos < |s.log| then 1 else 0, |src| - s.read, |s.log| - s.pos
  {
    hide FullLog, TrueLog, PosAt, Turn, FirstShown, StepsOf;
    var full := FullLog(src);
    TurnIsSound(src, s);
    EofIsEnd(src);
    var s' := Turn(src, s);
    FirstShownStep(full, s.pos);
    assert s'.log[s.pos] == full[s.pos];
    if Shown(s', s.pos).None? {
      TurnProgresses(src, s);
      TurnsAreFaithful(src, s');
    }
  }

  lemma FirstShownStep(log: seq<LogStep>, pos: nat)
    requires log != []
    ensures pos >= |log| ==> FirstShown(log, pos) == |log| - 1
    ensures pos < |log| && IsShown(log[pos].tok.kind) ==> FirstShown(log, pos) == pos
    ensures pos < |log| && !IsShown(log[pos].tok.kind) ==>
      FirstShown(log, pos) == FirstShown(log, if log[pos].tok.kind == BlockStart then pos + 2 else pos + 1)
  {
  }

  lemma TurnProgresses(src: seq<Piece>, s: Lex)
    requires s.pos <= |s.log| && s.read <= |src| && Shown(Turn(src, s), s.pos).None?
    ensures
      var s' := Turn(src, s);
      && s'.pos > s.pos
      && (if s.pos < |s.log| then s'.read == s.read && s'.log == s.log
          else s'.read == s.read + 1 <= |src| && s'.pos == |s'.log|)
  {
  }

  // ----- lines and columns -----

  lemma StepsAdvance(p: Piece, at: Position)
    ensures LastAfter(StepsOf(p, at)) == Advance(at, Chars(p))
    ensures StepsOf(p, at)[0].tok.at == at
    ensures |StepsOf(p, at)| == 2 ==> StepsOf(p, at)[1].tok.at == Advance(at, Chars(p))
  {
    hide Advance;
    if p.LineComment? || p.BlockComment? {
      AdvanceJoins(at, p.chars, p.skip);
    }
  }

  /** The position of the reader is the place of the character that it reads next. */
  lemma {:induction false} PosAtIsPlace(src: seq<Piece>, r: nat)
    requires r <= |src|
    ensures IsPlace(Text(src, r), PosAt(src, r))
  {
    if r == 0 {
      AdvanceFromStart("");
    } else {
      hide IsPlace, StepsOf, Advance;
      PosAtIsPlace(src, r - 1);
      StepsAdvance(src[r - 1], PosAt(src, r - 1));
      AdvanceIsPlace(Text(src, r - 1), PosAt(src, r - 1), Chars(src[r - 1]));
    }
  }

  /** A step that is logged for the piece at `r`, or for the end. */
  predicate IsStepOf(src: seq<Piece>, r: nat, step: LogStep)
    requires r <= |src|
  {
    if r < |src| then step in StepsOf(src[r], PosAt(src, r)) else step == EofStep(PosAt(src, r))
  }

  /** Which piece a step was logged for. */
  lemma {:induction false} StepsHavePieces(src: seq<Piece>, n: nat, i: nat) returns (r: nat)
    requires n <= |src| && i < |TrueLog(src, n)|
    ensures r < n && TrueLog(src, n)[i] in StepsOf(src[r], PosAt(src, r))
  {
    hide StepsOf, PosAt;
    var before := TrueLog(src, n - 1);
    if i < |before| {
      r := StepsHavePieces(src, n - 1, i);
      assert TrueLog(src, n)[i] == before[i];
    } else {
      r := n - 1;
      assert TrueLog(src, n)[i] == StepsOf(src[r], PosAt(src, r))[i - |before|];
    }
  }

  /**
   Every token stands where its first character does: a token at the place behind the pieces before it, the
   newline that stands for a comment at the place behind the comment.
   */
  lemma TokensArePlaced(src: seq<Piece>, i: nat) returns (r: nat)
    requires i < |FullLog(src)|
    ensures r <= |src| && IsStepOf(src, r, FullLog(src)[i])
    ensures
      var at := FullLog(src)[i].tok.at;
      IsPlace(Text(src, r), at) || (r < |src| && src[r].BlockComment? && IsPlace(Text(src, r + 1), at))
  {
    hide StepsOf, PosAt, Text, IsPlace;
    var step := FullLog(src)[i];
    if i < |TrueLog(src, |src|)| {
      r := StepsHavePieces(src, |src|, i);
      StepIsPlaced(src, r, step);
    } else {
      r := |src|;
      PosAtIsPlace(src, |src|);
    }
  }

  lemma StepIsPlaced(src: seq<Piece>, r: nat, step: LogStep)
    requires r < |src| && step in StepsOf(src[r], PosAt(src, r))
    ensures
      || IsPlace(Text(src, r), step.tok.at)
      || (src[r].BlockComment? && IsPlace(Text(src, r + 1), step.tok.at))
  {
    hide PosAt, Text, IsPlace, Advance;
    PosAtIsPlace(src, r);
    PosAtIsPlace(src, r + 1);
    StepsAdvance(src[r], PosAt(src, r));
    StepsAreClosed(src[r], PosAt(src, r));
    PosAtNext(src, r);
  }

  lemma PosAtNext(src: seq<Piece>, r: nat)
    requires r < |src|
    ensures PosAt(src, r + 1) == LastAfter(StepsOf(src[r], PosAt(src, r)))
  {
  }

  /** So does the next token, whatever was read, marked and rewound before. */
  lemma NextIsPlaced(src: seq<Piece>, s: Lex)
    requires Inv(src, s) && InSync(src, s)
    ensures
      var at := Next(src, s).0.at;
      exists r :: 0 <= r <= |src| && IsPlace(Text(src, r), at)
  {
    hide Next, FullLog, TrueLog, PosAt, StepsOf, FirstShown, Text, IsPlace;
    NextIsFaithful(src, s);
    var r := TokensArePlaced(src, FirstShown(FullLog(src), s.pos));
  }

  // ----- rewinding -----

  /**
   A rewind keeps the log and everything that is replayed from it. It keeps fresh lexing in step exactly
   when it leaves steps to replay, the file has ended, or the position held is the reader's already.
   */
  lemma RewindKeeps(src: seq<Piece>, s: Lex, mark: nat)
    requires Inv(src, s) && IsMark(s.log, mark)
    ensures Inv(src, Rewind(s, mark))
    ensures InSync(src, Rewind(s, mark)) <==> mark < |s.log| || s.eof || s.at == PosAt(src, s.read)
  {
  }

  /** A caller that only rewinds backwards need not know the position. */
  lemma BackwardRewindsAreSafe(src: seq<Piece>, s: Lex, mark: nat)
    requires Inv(src, s) && InSync(src, s) && IsMark(s.log, mark) && mark <= s.pos
    ensures Inv(src, Rewind(s, mark)) && InSync(src, Rewind(s, mark))
  {
  }

  /** The position behind the last logged step. */
  function Logged(log: seq<LogStep>): Position {
    if log == [] then Position(1, 1) else LastAfter(log)
  }

  /**
   Exactly when a rewind does no harm, for every source, state and mark: something is left to replay, or
   the end was seen, or the lexer holds the line and column of its last logged step. Otherwise the first
   step lexed afresh carries the position that the lexer holds, where the source has another one, and the
   log is no longer the one of the source.
   */
  lemma RewindIsSafeIff(src: seq<Piece>, s: Lex, mark: nat)
    requires Inv(src, s) && InSync(src, s) && IsMark(s.log, mark)
    ensures
      var (tok, s') := Next(src, Rewind(s, mark));
      var n := |s.log|;
      if mark < n || s.eof || s.at == Logged(s.log) then
        Inv(src, s') && InSync(src, s') && tok == FullLog(src)[FirstShown(FullLog(src), mark)].tok
      else
        n < |s'.log| && n < |FullLog(src)| && s'.log[n].tok.at == s.at != FullLog(src)[n].tok.at && !Inv(src, s')
  {
    hide Next, FullLog, TrueLog, PosAt, StepsOf, Closed, FirstShown;
    var r, n := Rewind(s, mark), |s.log|;
    if !s.eof {
      LoggedIs(src, s);
    }
    if mark < n || s.eof || s.at == Logged(s.log) {
      NextIsFaithful(src, r);
    } else {
      FreshStepIs(src, r);
      FullLogAt(src, s.read);
      if Inv(src, Next(src, r).1) {
        TrueLogGrows(src, Next(src, r).1.read);
      }
    }
  }

  /** Where nothing is left to replay, the position behind the log is the reader's. */
  lemma LoggedIs(src: seq<Piece>, s: Lex)
    requires Inv(src, s) && !s.eof
    ensures Logged(s.log) == PosAt(src, s.read)
  {
    TrueLogIsClosed(src, s.read);
    hide StepsOf, Closed;
  }

  lemma {:induction false} FullLogAt(src: seq<Piece>, r: nat)
    requires r <= |src|
    ensures
      var n := |TrueLog(src, r)|;
      n < |FullLog(src)| && FullLog(src)[n].tok.at == PosAt(src, r)
  {
    var n := |TrueLog(src, r)|;
    if r < |src| {
      StepsBeginAt(src[r], PosAt(src, r));
      TrueLogGrows(src, r + 1);
      assert TrueLog(src, r + 1)[n] == StepsOf(src[r], PosAt(src, r))[0];
      hide StepsOf, PosAt, FullLog;
      assert FullLog(src)[n] == TrueLog(src, r + 1)[n];
    }
  }

  lemma StepsBeginAt(p: Piece, at: Position)
    ensures StepsOf(p, at) != [] && StepsOf(p, at)[0].tok.at == at
  {
  }

  /** The first step lexed afresh carries the position that the lexer holds. */
  lemma FreshStepIs(src: seq<Piece>, s: Lex)
    requires !s.eof && s.pos == |s.log| && s.read <= |src|
    ensures
      var s' := Next(src, s).1;
      |s.log| < |s'.log| && s'.log[|s.log|].tok.at == s.at
  {
    hide Turns, StepsOf;
    if s.read < |src| {
      StepsBeginAt(src[s.read], s.at);
    }
    var s1 := Turn(src, s);
    assert s1.log[|s.log|].tok.at == s.at;
    TurnsFrom(src, s);
    TurnsGrow(src, s1);
  }

  lemma TurnsFrom(src: seq<Piece>, s: Lex)
    ensures Turns(src, s).1 == Turn(src, s) || Turns(src, s) == Turns(src, Turn(src, s))
  {
    hide Turn, Shown;
  }

  lemma {:induction false} TurnsGrow(src: seq<Piece>, s: Lex)
    ensures s.log <= Turns(src, s).1.log
    decreases if s.pos < |s.log| then 1 else 0, |src| - s.read, |s.log| - s.pos
  {
    hide StepsOf;
    var s' := Turn(src, s);
    assert s.log <= s'.log;
    if Shown(s', if s.pos < |s.log| then s.pos else |s.log|).None? {
      StepsShow(src, s);
      TurnsGrow(src, s');
    }
  }

  lemma StepsShow(src: seq<Piece>, s: Lex)
    requires Shown(Turn(src, s), if s.pos < |s.log| then s.pos else |s.log|).None?
    ensures
      var s' := Turn(src, s);
      if s.pos < |s.log| then s'.log == s.log && s'.read == s.read && s'.pos > s.pos
      else s'.read == s.read + 1 <= |src| && s'.pos == |s'.log|
  {
  }

  /**
   A run on which the last condition fails: two tokens are read, the first is replayed, and the rewind back to
   the end of the log passes over the second. The next token gets the position of an earlier one.
   */
  lemma ForwardRewindsMisplace()
    ensures
      var src := [Word(TokLParen, "", "("), Word(TokRParen, "", ")"), Word(TokPlus, "", "+")];
      var s2 := Next(src, Next(src, FRESH).1).1;
      var back := Next(src, Rewind(s2, 0)).1;
      var forth := Rewind(back, s2.pos);
      && Inv(src, forth) && s2.pos == |forth.log| == 2 && forth.at == Position(1, 2) != Logged(forth.log)
      && Next(src, s2).0.at == Position(1, 3)
      && Next(src, forth).0.at == Position(1, 2)
      && !Inv(src, Next(src, forth).1)
  {
    var src := [Word(TokLParen, "", "("), Word(TokRParen, "", ")"), Word(TokPlus, "", "+")];
    var s1 := Turn(src, FRESH);
    assert Next(src, FRESH) == (Tok(Sig(TokLParen), "", Position(1, 1)), s1);
    var s2 := Turn(src, s1);
    assert Next(src, s1) == (Tok(Sig(TokRParen), "", Position(1, 2)), s2);
    assert Next(src, s2).0 == Tok(Sig(TokPlus), "", Position(1, 3));
    var back := Turn(src, Rewind(s2, 0));
    assert Next(src, Rewind(s2, 0)).1 == back;
    FreshIsSound(src);
    NextIsFaithful(src, FRESH);
    NextIsFaithful(src, s1);
    RewindKeeps(src, s2, 0);
    NextIsFaithful(src, Rewind(s2, 0));
    RewindIsSafeIff(src, back, 2);
  }
}
