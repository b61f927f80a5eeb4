/** Texts joined by a separator, and readers that take them apart again. */
module Joining {
  function Join(parts: seq<string>, sep: char): string {
    if parts == [] then ""
    else if |parts| == 1 then parts[0]
    else parts[0] + [sep] + Join(parts[1..], sep)
  }

  /** The pieces between separators; a text without one is its own only piece. */
  function Split(s: string, sep: char): (parts: seq<string>)
    ensures parts != []
  {
    if s == "" then [""]
    else
      var rest := Split(s[1..], sep);
      if s[0] == sep then [""] + rest else [[s[0]] + rest[0]] + rest[1..]
  }

  /** The pieces at the first `n` separators: the last piece may still contain some. */
  function CutFirst(s: string, sep: char, n: nat): (parts: seq<string>)
    ensures parts != []
  {
    if n == 0 || s == "" then [s]
    else if s[0] == sep then [""] + CutFirst(s[1..], sep, n - 1)
    else
      var rest := CutFirst(s[1..], sep, n);
      [[s[0]] + rest[0]] + rest[1..]
  }

  lemma {:induction false} SplitPiece(piece: string, rest: string, sep: char)
    requires sep !in piece
    ensures Split(piece + [sep] + rest, sep) == [piece] + Split(rest, sep)
    ensures Split(piece, sep) == [piece]
  {
    var s := piece + [sep] + rest;
    if piece == "" {
      assert s[1..] == rest;
    } else {
      assert s[1..] == piece[1..] + [sep] + rest;
      SplitPiece(piece[1..], rest, sep);
      assert [piece[0]] + piece[1..] == piece;
    }
  }

  lemma {:induction false} SplitJoin(parts: seq<string>, sep: char)
    requires parts != [] && forall p :: p in parts ==> sep !in p
    ensures Split(Join(parts, sep), sep) == parts
  {
    SplitPiece(parts[0], Join(parts[1..], sep), sep);
    if |parts| > 1 {
      SplitJoin(parts[1..], sep);
    }
  }

  lemma {:induction false} JoinAvoids(parts: seq<string>, sep: char, c: char)
    requires c != sep && forall p :: p in parts ==> c !in p
    ensures c !in Join(parts, sep)
  {
    if |parts| > 1 {
      JoinAvoids(parts[1..], sep, c);
    }
  }

  lemma {:induction false} CutPiece(piece: string, rest: string, sep: char, n: nat)
    requires sep !in piece && n > 0
    ensures CutFirst(piece + ([sep] + rest), sep, n) == [piece] + CutFirst(rest, sep, n - 1)
  {
    var s := piece + ([sep] + rest);
    if piece == "" {
      assert s[1..] == rest;
    } else {
      assert s[1..] == piece[1..] + ([sep] + rest);
      CutPiece(piece[1..], rest, sep, n);
      assert [piece[0]] + piece[1..] == piece;
    }
  }

  /** When only the last part may contain the separator, cutting finds the parts again. */
  lemma {:induction false} CutJoin(parts: seq<string>, sep: char)
    requires parts != [] && forall i :: 0 <= i < |parts| - 1 ==> sep !in parts[i]
    ensures CutFirst(Join(parts, sep), sep, |parts| - 1) == parts
  {
    if |parts| > 1 {
      var rest := Join(parts[1..], sep);
      assert parts[0] + [sep] + rest == parts[0] + ([sep] + rest);
      CutPiece(parts[0], rest, sep, |parts| - 1);
      CutJoin(parts[1..], sep);
    }
  }

  /** The last parts may be joined first. */
  lemma {:induction false} JoinTail(front: seq<string>, ends: seq<string>, sep: char)
    requires ends != []
    ensures Join(front + ends, sep) == Join(front + [Join(ends, sep)], sep)
  {
    if front == [] {
      assert front + ends == ends;
    } else {
      assert (front + ends)[1..] == front[1..] + ends;
      assert (front + [Join(ends, sep)])[1..] == front[1..] + [Join(ends, sep)];
      JoinTail(front[1..], ends, sep);
    }
  }
}
