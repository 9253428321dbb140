/** The string operations the pipeline relies on: Python's `str.split` on a one-character
    separator, `str.join`, and substring containment. */
module Text {

  /** `s.split(sep)` for a one-character separator: the pieces between separators, an empty
      piece for each leading, trailing or doubled separator, and `[""]` for the empty string. */
  function Split(s: string, sep: char): (parts: seq<string>)
    ensures |parts| >= 1
    ensures forall i :: 0 <= i < |parts| ==> sep !in parts[i]
    decreases |s|
  {
    if |s| == 0 then [""]
    else if s[0] == sep then [""] + Split(s[1..], sep)
    else
      var rest := Split(s[1..], sep);
      [[s[0]] + rest[0]] + rest[1..]
  }

  /** `sep.join(parts)`. */
  function Join(parts: seq<string>, sep: string): string
    decreases |parts|
  {
    if |parts| == 0 then ""
    else if |parts| == 1 then parts[0]
    else parts[0] + sep + Join(parts[1..], sep)
  }

  /** Joining the pieces of a split with the same separator gives the string back,
      so splitting loses nothing. */
  lemma {:induction false} JoinSplit(s: string, sep: char)
    ensures Join(Split(s, sep), [sep]) == s
    decreases |s|
  {
    if |s| == 0 {
    } else if s[0] == sep {
      JoinSplit(s[1..], sep);
      var rest := Split(s[1..], sep);
      assert Split(s, sep) == [""] + rest;
      assert ([""] + rest)[1..] == rest;
      assert s == [sep] + s[1..];
    } else {
      JoinSplit(s[1..], sep);
      var rest := Split(s[1..], sep);
      var parts := [[s[0]] + rest[0]] + rest[1..];
      assert Split(s, sep) == parts;
      if |rest| == 1 {
        assert Join(rest, [sep]) == rest[0];
        assert s == [s[0]] + s[1..];
      } else {
        assert parts[1..] == rest[1..];
        assert Join(rest, [sep]) == rest[0] + [sep] + Join(rest[1..], [sep]);
        assert s == [s[0]] + s[1..];
      }
    }
  }

  /** The last piece of `s.split(sep)`: `s.split(sep)[-1]`. */
  function LastPiece(s: string, sep: char): string {
    var parts := Split(s, sep);
    parts[|parts| - 1]
  }

  /** The last piece is the longest suffix of `s` free of `sep`: it holds no separator, it ends
      `s`, and it is all of `s` exactly when there is no separator to split at; otherwise a
      separator stands right before it. */
  lemma {:induction false} LastPieceIsSuffixAfterLastSeparator(s: string, sep: char)
    ensures var r := LastPiece(s, sep);
      && sep !in r
      && |r| <= |s| && s[|s| - |r|..] == r
      && (|Split(s, sep)| == 1 ==> r == s)
      && (|Split(s, sep)| > 1 ==> |r| < |s| && s[|s| - |r| - 1] == sep)
    decreases |s|
  {
    if |s| == 0 {
    } else {
      LastPieceIsSuffixAfterLastSeparator(s[1..], sep);
      var rest := Split(s[1..], sep);
      var r' := rest[|rest| - 1];
      if s[0] == sep {
        assert Split(s, sep) == [""] + rest;
        assert LastPiece(s, sep) == r';
      } else {
        var parts := [[s[0]] + rest[0]] + rest[1..];
        assert Split(s, sep) == parts;
        if |rest| == 1 {
          assert LastPiece(s, sep) == [s[0]] + r';
          assert s == [s[0]] + s[1..];
        } else {
          assert LastPiece(s, sep) == r';
        }
      }
    }
  }

  /** `a in b` for strings: `a` occurs somewhere in `b` as a contiguous piece. */
  ghost predicate IsInfix(a: string, b: string) {
    exists x: string, y: string :: b == x + a + y
  }
}
