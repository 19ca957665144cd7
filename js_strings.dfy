/** The JavaScript string operations the geography decoder is built from:
    `indexOf`, `slice` with negative indices, `split` on a non-empty
    separator, and `Array.prototype.join`. */
module JsStrings {

  /** `t` occurs in `s` starting at index `j`. */
  predicate OccursAt(s: string, t: string, j: int) {
    0 <= j && j + |t| <= |s| && s[j..j + |t|] == t
  }

  lemma OccursAtShift(s: string, t: string, j: int)
    requires |s| > 0 && j >= 0
    ensures OccursAt(s[1..], t, j) <==> OccursAt(s, t, j + 1)
  {
    if 0 <= j && j + |t| <= |s| - 1 {
      assert s[1..][j..j + |t|] == s[j + 1..j + 1 + |t|];
    }
  }

  /** `s.indexOf(t)`: the first index at which `t` occurs in `s`, or -1. */
  function IndexOf(s: string, t: string): (r: int)
    ensures r == -1 || OccursAt(s, t, r)
    ensures forall j :: 0 <= j && (r == -1 || j < r) ==> !OccursAt(s, t, j)
    decreases |s|
  {
    if |s| < |t| then -1
    else if s[..|t|] == t then 0
    else
      var k := IndexOf(s[1..], t);
      assert forall j :: 0 <= j && (k == -1 || j < k) ==> !OccursAt(s[1..], t, j);
      assert !OccursAt(s, t, 0);
      forall j | 1 <= j && (k == -1 || j < k + 1)
        ensures !OccursAt(s, t, j)
      {
        OccursAtShift(s, t, j - 1);
      }
      assert k != -1 ==> OccursAt(s, t, k + 1) by {
        if k != -1 { OccursAtShift(s, t, k); }
      }
      if k == -1 then -1 else k + 1
  }

  /** No occurrence of `t` in `s`. */
  predicate Free(s: string, t: string) {
    forall j :: 0 <= j <= |s| ==> !OccursAt(s, t, j)
  }

  lemma FreeIfFirstCharAbsent(s: string, t: string)
    requires |t| > 0 && t[0] !in s
    ensures Free(s, t)
  {
    forall j | 0 <= j <= |s| ensures !OccursAt(s, t, j) {
    }
  }

  /** `s.indexOf(c)` for one character: -1 exactly when `c` does not occur,
      and otherwise an index holding `c` with no `c` before it. */
  lemma IndexOfChar(s: string, c: char)
    ensures IndexOf(s, [c]) == -1 <==> c !in s
    ensures IndexOf(s, [c]) != -1 ==>
      IndexOf(s, [c]) < |s| && s[IndexOf(s, [c])] == c && c !in s[..IndexOf(s, [c])]
  {
    var i := IndexOf(s, [c]);
    if i == -1 {
      assert c !in s by {
        forall j | 0 <= j < |s| ensures s[j] != c {
          assert !OccursAt(s, [c], j);
          assert s[j..j + 1] == [s[j]];
        }
      }
    } else {
      assert i < |s| && s[i] == c by {
        assert OccursAt(s, [c], i);
        assert s[i] == s[i..i + 1][0];
      }
      assert c !in s[..i] by {
        forall j | 0 <= j < i ensures s[..i][j] != c {
          assert !OccursAt(s, [c], j);
          assert s[j..j + 1] == [s[j]];
        }
      }
    }
  }

  /** `i` normalised as the start or end argument of `String.prototype.slice`:
      a negative index counts from the end, and the result is clamped to [0, len]. */
  function RelativeIndex(i: int, len: nat): (r: nat)
    ensures r <= len
    ensures 0 <= i <= len ==> r == i
    ensures i > len ==> r == len
    ensures i < 0 && -i <= len ==> r == len + i
    ensures i < 0 && -i > len ==> r == 0
  {
    if i < 0 then (if len + i < 0 then 0 else len + i)
    else if i > len then len
    else i
  }

  /** `s.slice(start, end)`. */
  function Slice(s: string, start: int, end: int): string {
    var from := RelativeIndex(start, |s|);
    var to := RelativeIndex(end, |s|);
    if from < to then s[from..to] else ""
  }

  /** `pieces.join(sep)`. */
  function Join(pieces: seq<string>, sep: string): string
    decreases |pieces|
  {
    if |pieces| == 0 then ""
    else if |pieces| == 1 then pieces[0]
    else pieces[0] + sep + Join(pieces[1..], sep)
  }

  /** `s.split(sep)` for a non-empty separator: the text between consecutive
      occurrences of `sep`, scanning left to right. Joining the pieces with
      `sep` gives `s` back, and no piece contains `sep`. */
  function Split(s: string, sep: string): (r: seq<string>)
    requires |sep| > 0
    ensures |r| >= 1
    ensures Join(r, sep) == s
    ensures forall k :: 0 <= k < |r| ==> Free(r[k], sep)
    decreases |s|
  {
    var i := IndexOf(s, sep);
    if i == -1 then [s]
    else
      var head := s[..i];
      var rest := Split(s[i + |sep|..], sep);
      assert Free(head, sep) by {
        forall j | 0 <= j <= |head| ensures !OccursAt(head, sep, j) {
          if OccursAt(head, sep, j) {
            assert head[j..j + |sep|] == s[j..j + |sep|];
            assert OccursAt(s, sep, j);
          }
        }
      }
      assert s == head + sep + s[i + |sep|..] by {
        assert s[i..i + |sep|] == sep;
      }
      assert ([head] + rest)[1..] == rest;
      [head] + rest
  }

  /** The number of non-overlapping occurrences of `sep` in `s`, counted
      left to right; defined independently of `Split`. */
  function Occurrences(s: string, sep: string): nat
    requires |sep| > 0
    decreases |s|
  {
    if |s| < |sep| then 0
    else if s[..|sep|] == sep then 1 + Occurrences(s[|sep|..], sep)
    else Occurrences(s[1..], sep)
  }

  lemma {:induction false} OccurrencesSkip(s: string, sep: string, i: nat)
    requires |sep| > 0 && i <= |s|
    requires forall j :: 0 <= j < i ==> !OccursAt(s, sep, j)
    ensures Occurrences(s, sep) == Occurrences(s[i..], sep)
    decreases i
  {
    if i > 0 {
      assert !OccursAt(s, sep, 0);
      assert |s| >= |sep| ==> s[..|sep|] != sep;
      forall j | 0 <= j < i - 1 ensures !OccursAt(s[1..], sep, j) {
        OccursAtShift(s, sep, j);
      }
      OccurrencesSkip(s[1..], sep, i - 1);
      assert s[1..][i - 1..] == s[i..];
    }
  }

  /** `s.split(sep)` has one more piece than `sep` has occurrences in `s`. */
  lemma {:induction false} SplitCount(s: string, sep: string)
    requires |sep| > 0
    ensures |Split(s, sep)| == Occurrences(s, sep) + 1
    decreases |s|
  {
    var i := IndexOf(s, sep);
    if i == -1 {
      OccurrencesSkip(s, sep, |s|);
      assert s[|s|..] == "";
    } else {
      OccurrencesSkip(s, sep, i);
      assert s[i..][..|sep|] == sep;
      assert s[i..][|sep|..] == s[i + |sep|..];
      SplitCount(s[i + |sep|..], sep);
    }
  }

  /** Splitting a join gives the pieces back, provided no piece contains the
      separator's first character (so no occurrence can start inside one). */
  lemma {:induction false} SplitJoin(pieces: seq<string>, sep: string)
    requires |sep| > 0 && |pieces| > 0
    requires forall k :: 0 <= k < |pieces| ==> sep[0] !in pieces[k]
    ensures Split(Join(pieces, sep), sep) == pieces
    decreases |pieces|
  {
    var p := pieces[0];
    FreeIfFirstCharAbsent(p, sep);
    if |pieces| == 1 {
      var i := IndexOf(p, sep);
      assert i == -1;
    } else {
      var rest := Join(pieces[1..], sep);
      var s := p + sep + rest;
      assert OccursAt(s, sep, |p|) by {
        assert s[|p|..|p| + |sep|] == sep;
      }
      var i := IndexOf(s, sep);
      assert i != -1 && i <= |p|;
      assert i == |p|;
      assert s[..i] == p;
      assert s[i + |sep|..] == rest;
      SplitJoin(pieces[1..], sep);
    }
  }
}
