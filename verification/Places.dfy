/**
 Lines and columns: a position that is moved along character by character (bootstrap/lexer.c:194-379) is the
 place of the next character in the text.
 */
module Places {
  datatype Position = Position(line: nat, col: nat)

  const START := Position(1, 1)

  /** One character further: a newline begins the next line. */
  function Step(p: Position, c: char): Position {
    if c == '\n' then Position(p.line + 1, 1) else Position(p.line, p.col + 1)
  }

  function Advance(p: Position, chars: string): Position
    decreases |chars|
  {
    if chars == "" then p else Advance(Step(p, chars[0]), chars[1..])
  }

  /** The newlines of a text. */
  function Newlines(text: string): nat {
    if text == "" then 0 else Newlines(text[1..]) + (if text[0] == '\n' then 1 else 0)
  }

  /**
   Where the character behind the text stands: its line is one more than there are newlines, its column one
   more than there are characters behind the last of them.
   */
  predicate IsPlace(text: string, p: Position) {
    && p.line == 1 + Newlines(text)
    && 1 <= p.col <= |text| + 1
    && (forall i :: |text| - (p.col - 1) <= i < |text| ==> text[i] != '\n')
    && (p.col <= |text| ==> text[|text| - p.col] == '\n')
  }

  lemma PlaceIsUnique(text: string, p: Position, q: Position)
    requires IsPlace(text, p) && IsPlace(text, q)
    ensures p == q
  {
    assert !(p.col < q.col) by {
      assert p.col <= |text| ==> text[|text| - p.col] == '\n';
    }
    assert !(q.col < p.col) by {
      assert q.col <= |text| ==> text[|text| - q.col] == '\n';
    }
  }

  lemma {:induction false} AdvanceJoins(p: Position, a: string, b: string)
    ensures Advance(p, a + b) == Advance(Advance(p, a), b)
    decreases |a|
  {
    if a == "" {
      assert a + b == b;
    } else {
      assert (a + b)[1..] == a[1..] + b;
      AdvanceJoins(Step(p, a[0]), a[1..], b);
    }
  }

  lemma {:induction false} NewlinesJoin(a: string, b: string)
    ensures Newlines(a + b) == Newlines(a) + Newlines(b)
    decreases |a|
  {
    if a == "" {
      assert a + b == b;
    } else {
      assert (a + b)[1..] == a[1..] + b;
      NewlinesJoin(a[1..], b);
    }
  }

  /** Moving on from the place behind one text leads to the place behind both. */
  lemma {:induction false} AdvanceIsPlace(text: string, p: Position, chars: string)
    requires IsPlace(text, p)
    ensures IsPlace(text + chars, Advance(p, chars))
    decreases |chars|
  {
    if chars == "" {
      assert text + chars == text;
    } else {
      StepIsPlace(text, p, chars[0]);
      AdvanceIsPlace(text + [chars[0]], Step(p, chars[0]), chars[1..]);
      assert text + [chars[0]] + chars[1..] == text + chars;
    }
  }

  lemma StepIsPlace(text: string, p: Position, c: char)
    requires IsPlace(text, p)
    ensures IsPlace(text + [c], Step(p, c))
  {
    NewlinesJoin(text, [c]);
    assert Newlines([c]) == if c == '\n' then 1 else 0 by {
      assert [c][1..] == "";
    }
  }

  /** From the start on, the position is the place. */
  lemma AdvanceFromStart(text: string)
    ensures IsPlace(text, Advance(START, text))
  {
    assert IsPlace("", START);
    AdvanceIsPlace("", START, text);
    assert "" + text == text;
  }

  /** Along a line only the column moves. */
  lemma {:induction false} AdvanceAlong(p: Position, chars: string)
    requires '\n' !in chars
    ensures Advance(p, chars) == Position(p.line, p.col + |chars|)
    decreases |chars|
  {
    if chars != "" {
      AdvanceAlong(Step(p, chars[0]), chars[1..]);
    }
  }

  lemma AdvanceSnoc(p: Position, chars: string, c: char)
    ensures Advance(p, chars + [c]) == Step(Advance(p, chars), c)
  {
    AdvanceJoins(p, chars, [c]);
    assert Advance(Advance(p, chars), [c]) == Step(Advance(p, chars), c) by {
      assert [c][1..] == "";
    }
  }
}
