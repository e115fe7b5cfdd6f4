/**
 * The JavaScript string operations the application relies on, over
 * `string` (a sequence of Unicode scalar values):
 * `String.prototype.split` with a string separator, `Array.prototype.join`,
 * `String.prototype.trim` and `String.prototype.substring(0, n)`.
 */
module Strings {

  /** `sep` occurs in `s` starting at index `i`. */
  predicate OccursAt(s: string, sep: string, i: nat) {
    i + |sep| <= |s| && s[i..i + |sep|] == sep
  }

  /** `sep` occurs somewhere in `s`. */
  predicate Contains(s: string, sep: string) {
    exists i: nat | i <= |s| :: OccursAt(s, sep, i)
  }

  /**
   * `s.split(sep)`: the pieces between the leftmost, non-overlapping
   * occurrences of `sep`, scanning from the left. Always at least one piece.
   */
  function Split(s: string, sep: string): (r: seq<string>)
    requires |sep| > 0
    ensures |r| >= 1
    decreases |s|
  {
    if |s| == 0 then [""]
    else if sep <= s then [""] + Split(s[|sep|..], sep)
    else
      var rest := Split(s[1..], sep);
      [[s[0]] + rest[0]] + rest[1..]
  }

  /** `parts.join(sep)`. */
  function Join(parts: seq<string>, sep: string): string {
    if |parts| == 0 then ""
    else if |parts| == 1 then parts[0]
    else parts[0] + sep + Join(parts[1..], sep)
  }

  /** Putting a character before the first piece puts it before the joined text. */
  lemma JoinConsHead(c: char, parts: seq<string>, sep: string)
    requires |parts| >= 1
    ensures Join([[c] + parts[0]] + parts[1..], sep) == [c] + Join(parts, sep)
  {
    var longer := [[c] + parts[0]] + parts[1..];
    assert longer[0] == [c] + parts[0];
    if |parts| > 1 {
      assert longer[1..] == parts[1..];
    }
  }

  /** An empty first piece joins as a leading separator. */
  lemma JoinEmptyHead(parts: seq<string>, sep: string)
    requires |parts| >= 1
    ensures Join([""] + parts, sep) == sep + Join(parts, sep)
  {
    assert ([""] + parts)[1..] == parts;
  }

  /** A split at a leading separator: an empty piece, then the split of the rest. */
  lemma SplitAtSeparator(s: string, sep: string)
    requires |sep| > 0 && |s| > 0 && sep <= s
    ensures Split(s, sep) == [""] + Split(s[|sep|..], sep)
  {
  }

  /** A split at a character that does not start the separator: it joins the first piece. */
  lemma SplitAtChar(s: string, sep: string)
    requires |sep| > 0 && |s| > 0 && !(sep <= s)
    ensures Split(s, sep) == [[s[0]] + Split(s[1..], sep)[0]] + Split(s[1..], sep)[1..]
  {
  }

  /** Joining the pieces of a split with the same separator gives back the string. */
  lemma {:induction false} JoinSplit(s: string, sep: string)
    requires |sep| > 0
    ensures Join(Split(s, sep), sep) == s
    decreases |s|
  {
    if |s| == 0 {
    } else if sep <= s {
      var tail := s[|sep|..];
      SplitAtSeparator(s, sep);
      JoinSplit(tail, sep);
      JoinEmptyHead(Split(tail, sep), sep);
      assert s == sep + tail;
    } else {
      var tail := s[1..];
      SplitAtChar(s, sep);
      JoinSplit(tail, sep);
      JoinConsHead(s[0], Split(tail, sep), sep);
      assert s == [s[0]] + tail;
    }
  }

  /** The first piece of a split is a prefix of the string. */
  lemma FirstPieceIsPrefix(s: string, sep: string)
    requires |sep| > 0
    ensures Split(s, sep)[0] <= s
  {
    var parts := Split(s, sep);
    JoinSplit(s, sep);
    if |parts| > 1 {
      assert s == parts[0] + (sep + Join(parts[1..], sep));
    }
  }

  /** Extending a string by one character moves an occurrence one place right. */
  lemma OccursAfterCons(c: char, t: string, sep: string, i: nat)
    ensures OccursAt([c] + t, sep, i + 1) ==> OccursAt(t, sep, i)
  {
    if i + 1 + |sep| <= |[c] + t| {
      assert ([c] + t)[i + 1..i + 1 + |sep|] == t[i..i + |sep|];
    }
  }

  /** No piece of a split contains the separator. */
  lemma {:induction false} SplitPiecesAvoidSeparator(s: string, sep: string)
    requires |sep| > 0
    ensures forall k :: 0 <= k < |Split(s, sep)| ==> !Contains(Split(s, sep)[k], sep)
    decreases |s|
  {
    var parts := Split(s, sep);
    if |s| == 0 {
      assert parts == [""];
      forall k | 0 <= k < |parts| ensures !Contains(parts[k], sep) {
        assert forall i: nat :: !OccursAt(parts[k], sep, i);
      }
    } else if sep <= s {
      SplitPiecesAvoidSeparator(s[|sep|..], sep);
      forall k | 0 <= k < |parts| ensures !Contains(parts[k], sep) {
        if k == 0 {
          assert forall i: nat :: !OccursAt("", sep, i);
        } else {
          assert parts[k] == Split(s[|sep|..], sep)[k - 1];
        }
      }
    } else {
      var rest := Split(s[1..], sep);
      SplitPiecesAvoidSeparator(s[1..], sep);
      FirstPieceIsPrefix(s[1..], sep);
      var head := [s[0]] + rest[0];
      assert head <= s;
      assert !Contains(rest[0], sep);
      forall i: nat ensures !OccursAt(head, sep, i) {
        if i == 0 {
          if |sep| <= |head| {
            assert head[..|sep|] == s[..|sep|];
          }
        } else {
          OccursAfterCons(s[0], rest[0], sep, i - 1);
          assert !OccursAt(rest[0], sep, i - 1);
        }
      }
      forall k | 0 <= k < |parts| ensures !Contains(parts[k], sep) {
        if k == 0 {
          assert parts[0] == head;
        } else {
          assert parts[k] == rest[k];
        }
      }
    }
  }

  /** `s.endsWith(t)`. */
  predicate EndsWith(s: string, t: string) {
    |t| <= |s| && s[|s| - |t|..] == t
  }

  /** Putting text in front keeps the end. */
  lemma EndsWithConcat(a: string, b: string, t: string)
    requires EndsWith(b, t)
    ensures EndsWith(a + b, t)
  {
    assert (a + b)[|a + b| - |t|..] == b[|b| - |t|..];
  }

  /** A prefix of a string without the separator is without it too. */
  lemma PrefixKeepsAbsence(a: string, b: string, sep: string)
    requires a <= b && !Contains(b, sep)
    ensures !Contains(a, sep)
  {
    forall i: nat | OccursAt(a, sep, i) ensures false {
      assert b[i..i + |sep|] == a[i..i + |sep|];
      assert OccursAt(b, sep, i);
    }
  }

  /** A string without the separator splits into exactly itself. */
  lemma {:induction false} SplitWithoutSeparator(s: string, sep: string)
    requires |sep| > 0
    requires !Contains(s, sep)
    ensures Split(s, sep) == [s]
    decreases |s|
  {
    if |s| == 0 {
    } else {
      assert !OccursAt(s, sep, 0);
      forall i: nat ensures !OccursAt(s[1..], sep, i) {
        if OccursAt(s[1..], sep, i) {
          assert s[1..][i..i + |sep|] == s[i + 1..i + 1 + |sep|];
          assert OccursAt(s, sep, i + 1);
        }
      }
      SplitWithoutSeparator(s[1..], sep);
      assert [s[0]] + s[1..] == s;
    }
  }

  /** An occurrence after the first character is an occurrence in the rest. */
  lemma OccursShift(s: string, sep: string, i: nat)
    requires |s| > 0
    ensures OccursAt(s, sep, i + 1) <==> OccursAt(s[1..], sep, i)
  {
    if i + 1 + |sep| <= |s| {
      assert s[1..][i..i + |sep|] == s[i + 1..i + 1 + |sep|];
    }
  }

  /**
   * Matching is leftmost: no occurrence of the separator starts inside the
   * first piece, and when there are more pieces one starts right after it.
   */
  lemma {:induction false} SplitFirstPieceEndsAtFirstOccurrence(s: string, sep: string)
    requires |sep| > 0
    ensures forall i: nat :: i < |Split(s, sep)[0]| ==> !OccursAt(s, sep, i)
    ensures |Split(s, sep)| > 1 ==> OccursAt(s, sep, |Split(s, sep)[0]|)
    decreases |s|
  {
    if |s| > 0 && !(sep <= s) {
      var rest := Split(s[1..], sep);
      SplitAtChar(s, sep);
      SplitFirstPieceEndsAtFirstOccurrence(s[1..], sep);
      forall i: nat | 0 < i < |rest[0]| + 1 ensures !OccursAt(s, sep, i) {
        OccursShift(s, sep, i - 1);
      }
      if |rest| > 1 {
        OccursShift(s, sep, |rest[0]|);
      }
    } else if |s| > 0 {
      SplitAtSeparator(s, sep);
    }
  }

  /**
   * After the first piece comes the separator, and the remaining pieces are
   * the split of the text behind that separator.
   */
  lemma {:induction false} SplitRest(s: string, sep: string)
    requires |sep| > 0 && |Split(s, sep)| > 1
    ensures |Split(s, sep)[0]| + |sep| <= |s|
    ensures Split(s, sep)[1..] == Split(s[|Split(s, sep)[0]| + |sep|..], sep)
    decreases |s|
  {
    var parts := Split(s, sep);
    if sep <= s {
      SplitAtSeparator(s, sep);
      assert parts[0] == "" && parts[1..] == Split(s[|sep|..], sep);
    } else {
      var t := s[1..];
      var rest := Split(t, sep);
      SplitAtChar(s, sep);
      assert parts[0] == [s[0]] + rest[0] && parts[1..] == rest[1..];
      SplitRest(t, sep);
      var n := |rest[0]| + |sep|;
      assert t[n..] == s[1 + n..];
    }
  }

  /** There is a single piece exactly when the separator does not occur. */
  lemma SplitSingleIffAbsent(s: string, sep: string)
    requires |sep| > 0
    ensures |Split(s, sep)| == 1 <==> !Contains(s, sep)
  {
    var parts := Split(s, sep);
    if |parts| == 1 {
      JoinSplit(s, sep);
      SplitPiecesAvoidSeparator(s, sep);
      assert s == parts[0];
    } else {
      SplitFirstPieceEndsAtFirstOccurrence(s, sep);
      FirstPieceIsPrefix(s, sep);
      assert OccursAt(s, sep, |parts[0]|);
    }
  }

  /** The characters `String.prototype.trim` removes: WhiteSpace and LineTerminator. */
  predicate IsJsWhitespace(c: char) {
    c == '\t' || c == '\n' || c == '\U{B}' || c == '\U{C}' || c == '\r' || c == ' '
    || c == '\U{A0}' || c == '\U{1680}' || ('\U{2000}' <= c <= '\U{200A}')
    || c == '\U{2028}' || c == '\U{2029}' || c == '\U{202F}' || c == '\U{205F}'
    || c == '\U{3000}' || c == '\U{FEFF}'
  }

  /** Every character of `s` is whitespace. */
  predicate AllWhitespace(s: string) {
    forall i :: 0 <= i < |s| ==> IsJsWhitespace(s[i])
  }

  /** `s` with its leading whitespace removed. */
  function TrimStart(s: string): (r: string)
    ensures |r| <= |s| && r == s[|s| - |r|..]
    ensures AllWhitespace(s[..|s| - |r|])
    ensures r == [] || !IsJsWhitespace(r[0])
  {
    if |s| > 0 && IsJsWhitespace(s[0]) then
      var r := TrimStart(s[1..]);
      assert s[..|s| - |r|] == [s[0]] + s[1..][..|s| - 1 - |r|];
      r
    else s
  }

  /** `s` with its trailing whitespace removed. */
  function TrimEnd(s: string): (r: string)
    ensures |r| <= |s| && r == s[..|r|]
    ensures AllWhitespace(s[|r|..])
    ensures r == [] || (!IsJsWhitespace(r[|r| - 1]) && r[0] == s[0])
  {
    if |s| > 0 && IsJsWhitespace(s[|s| - 1]) then
      var r := TrimEnd(s[..|s| - 1]);
      assert s[|r|..] == s[..|s| - 1][|r|..] + [s[|s| - 1]];
      r
    else s
  }

  /** `s.trim()`: no longer than `s`, and neither starting nor ending with whitespace. */
  function Trim(s: string): (r: string)
    ensures |r| <= |s|
    ensures r == [] || (!IsJsWhitespace(r[0]) && !IsJsWhitespace(r[|r| - 1]))
  {
    TrimEnd(TrimStart(s))
  }

  /** `t` is the slice of `s` at `a`, with only whitespace before and after it. */
  predicate IsPaddedSlice(s: string, t: string, a: nat) {
    a + |t| <= |s| && t == s[a..a + |t|] && AllWhitespace(s[..a]) && AllWhitespace(s[a + |t|..])
  }

  /**
   * What trim returns is the middle of `s`: a slice `s[a..a + |t|]` with only
   * whitespace before and after it.
   */
  lemma TrimIsTrimmedSlice(s: string)
    ensures exists a: nat :: IsPaddedSlice(s, Trim(s), a)
  {
    var u := TrimStart(s);
    var a := |s| - |u|;
    PaddedSliceOfTrims(s, u, TrimEnd(u), a);
    assert IsPaddedSlice(s, Trim(s), a);
  }

  /** Whitespace cut from the start, then from the end, leaves a padded slice. */
  lemma PaddedSliceOfTrims(s: string, u: string, t: string, a: nat)
    requires a <= |s| && u == s[a..] && AllWhitespace(s[..a])
    requires |t| <= |u| && t == u[..|t|] && AllWhitespace(u[|t|..])
    ensures IsPaddedSlice(s, t, a)
  {
    assert s[a..a + |t|] == t;
    assert s[a + |t|..] == u[|t|..];
  }

  /** Only whitespace: trimming the start removes everything. */
  lemma {:induction false} TrimStartOfWhitespace(s: string)
    requires AllWhitespace(s)
    ensures TrimStart(s) == []
  {
    if |s| > 0 {
      assert AllWhitespace(s[1..]) by {
        forall i | 0 <= i < |s| - 1 ensures IsJsWhitespace(s[1..][i]) {
          assert s[1..][i] == s[i + 1];
        }
      }
      TrimStartOfWhitespace(s[1..]);
    }
  }

  /** Trimming gives the empty string exactly when the string is all whitespace. */
  lemma TrimEmptyIffAllWhitespace(s: string)
    ensures Trim(s) == "" <==> AllWhitespace(s)
  {
    var u := TrimStart(s);
    if AllWhitespace(s) {
      TrimStartOfWhitespace(s);
    }
    if Trim(s) == "" {
      assert AllWhitespace(u[0..]);
      assert u == [];
      assert s[..|s|] == s;
    }
  }

  /** `s.substring(0, n)` for a non-negative `n`. */
  function Take(s: string, n: nat): (r: string)
    ensures |r| == if n < |s| then n else |s|
    ensures r <= s
  {
    if n < |s| then s[..n] else s
  }
}
