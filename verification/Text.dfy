/** Splitting and joining text at a separator: Python's str.split, Go's strings.Join. */
module Text {

  /** The pieces joined by `sep`. */
  function Join(pieces: seq<string>, sep: string): string {
    if pieces == [] then ""
    else if |pieces| == 1 then pieces[0]
    else pieces[0] + sep + Join(pieces[1..], sep)
  }

  /** The text before the first `c`, or all of it. */
  function Before(s: string, c: char): string {
    if s == "" || s[0] == c then "" else [s[0]] + Before(s[1..], c)
  }

  /** The text after the first `c`, or nothing. */
  function After(s: string, c: char): string {
    if s == "" then "" else if s[0] == c then s[1..] else After(s[1..], c)
  }

  /** The pieces between the separators; a text without one is its own only piece. */
  function Split(s: string, c: char): (pieces: seq<string>)
    ensures |pieces| > 0
  {
    if s == "" then [""]
    else
      var rest := Split(s[1..], c);
      if s[0] == c then [""] + rest
      else [[s[0]] + rest[0]] + rest[1..]
  }

  lemma {:induction false} SplitPieceHead(piece: string, tail: string, c: char)
    requires c !in piece
    ensures Split(piece + tail, c) == [piece + Split(tail, c)[0]] + Split(tail, c)[1..]
  {
    if piece == "" {
      assert piece + tail == tail;
      assert piece + Split(tail, c)[0] == Split(tail, c)[0];
    } else {
      assert (piece + tail)[1..] == piece[1..] + tail;
      SplitPieceHead(piece[1..], tail, c);
      assert [piece[0]] + (piece[1..] + Split(tail, c)[0]) == piece + Split(tail, c)[0];
    }
  }

  /** Splitting inverts joining when no piece holds the separator. */
  lemma {:induction false} SplitInvertsJoin(pieces: seq<string>, c: char)
    requires pieces != [] && forall p :: p in pieces ==> c !in p
    ensures Split(Join(pieces, [c]), c) == pieces
  {
    var first := pieces[0];
    if |pieces| == 1 {
      SplitPieceHead(first, "", c);
      assert first + "" == first;
    } else {
      var tail := [c] + Join(pieces[1..], [c]);
      assert Join(pieces, [c]) == first + tail;
      SplitPieceHead(first, tail, c);
      assert tail[1..] == Join(pieces[1..], [c]);
      SplitInvertsJoin(pieces[1..], c);
      assert Split(tail, c) == [""] + pieces[1..];
      assert first + "" == first;
    }
  }

  /** The first two pieces, whatever follows the second. */
  lemma FirstTwoPieces(first: string, second: string, rest: string, c: char)
    requires c !in first && c !in second && (rest == "" || rest[0] == c)
    ensures var pieces := Split(first + [c] + second + rest, c);
            |pieces| >= 2 && pieces[0] == first && pieces[1] == second
  {
    var tail := [c] + (second + rest);
    assert first + [c] + second + rest == first + tail;
    SplitPieceHead(first, tail, c);
    assert tail[1..] == second + rest;
    SplitPieceHead(second, rest, c);
    assert Split(rest, c)[0] == "";
    assert first + "" == first && second + "" == second;
  }

  /** There is one piece exactly when there is no separator. */
  lemma {:induction false} SplitCount(s: string, c: char)
    ensures |Split(s, c)| == 1 <==> c !in s
  {
    if s != "" {
      SplitCount(s[1..], c);
      assert s == [s[0]] + s[1..];
    }
  }

  /** A text is cut in two at the first separator after a piece without one. */
  lemma {:induction false} CutAtFirst(head: string, tail: string, c: char)
    requires c !in head
    ensures Before(head + [c] + tail, c) == head
    ensures After(head + [c] + tail, c) == tail
  {
    var s := head + [c] + tail;
    if head == "" {
      assert s[1..] == tail;
    } else {
      assert s[1..] == head[1..] + [c] + tail;
      CutAtFirst(head[1..], tail, c);
    }
  }

  /** No piece of a split holds the separator. */
  lemma {:induction false} SplitPiecesAreClean(s: string, c: char)
    ensures forall p :: p in Split(s, c) ==> c !in p
  {
    if s != "" {
      SplitPiecesAreClean(s[1..], c);
      var rest := Split(s[1..], c);
      assert rest[0] in rest;
      assert forall p :: p in rest[1..] ==> p in rest;
    }
  }
}
