/**
 The few Python `str` operations that `show_dict` relies on: `c * n`,
 `s.rjust(width, fill)`, the single-space separator `print` puts between
 its arguments, and the `<` comparison that `sorted` uses on keys.
 A Python `str` is a sequence of code points; a Dafny `string` is a
 sequence of Unicode scalar values, so `len` is `|s|` and characters
 compare by code point.
 */
module PyStr {

  /** `c * n` for a one-character string `c`. */
  function Repeat(c: char, n: nat): (r: string)
    ensures |r| == n
    ensures forall i :: 0 <= i < n ==> r[i] == c
  {
    if n == 0 then [] else [c] + Repeat(c, n - 1)
  }

  /** `s.rjust(width, fill)`: `s` unchanged when it is already at least
      `width` long, otherwise `s` left-padded with `fill` up to `width`. */
  function RJust(s: string, width: int, fill: char): (r: string)
    ensures width <= |s| ==> r == s
    ensures |r| == if width <= |s| then |s| else width
    ensures r[|r| - |s|..] == s
    ensures forall i :: 0 <= i < |r| - |s| ==> r[i] == fill
  {
    if width <= |s| then s else Repeat(fill, width - |s|) + s
  }

  /** The text `print(*args)` writes before its newline: the arguments
      separated by one space each (the default `sep=' '`). */
  function PrintText(args: seq<string>): (r: string)
    ensures |args| == 0 ==> r == ""
    ensures |args| == 1 ==> r == args[0]
    ensures |args| > 1 ==> |r| >= |args[0]| + 1 + |args[|args| - 1]|
    ensures |args| > 0 ==> r[..|args[0]|] == args[0]
    ensures |args| > 1 ==> r[|args[0]|] == ' '
    ensures |args| > 0 ==> r[|r| - |args[|args| - 1]|..] == args[|args| - 1]
    decreases |args|
  {
    if |args| == 0 then ""
    else if |args| == 1 then args[0]
    else args[0] + " " + PrintText(args[1..])
  }

  /** The total length of the arguments. */
  function SumLen(args: seq<string>): nat
    decreases |args|
  {
    if |args| == 0 then 0 else |args[0]| + SumLen(args[1..])
  }

  /** Reference definition of `' '.join(args)`, built from the right end:
      everything but the last argument joined, a space, the last one. */
  function JoinLeft(args: seq<string>): string
    decreases |args|
  {
    if |args| == 0 then ""
    else if |args| == 1 then args[0]
    else JoinLeft(args[..|args| - 1]) + " " + args[|args| - 1]
  }

  /** Joining `[a] + rest` puts `a` and a space in front of `rest` joined. */
  lemma {:induction false} JoinLeftCons(a: string, rest: seq<string>)
    requires |rest| > 0
    ensures JoinLeft([a] + rest) == a + " " + JoinLeft(rest)
    decreases |rest|
  {
    var s := [a] + rest;
    if |rest| == 1 {
      assert s[..|s| - 1] == [a];
    } else {
      assert s[..|s| - 1] == [a] + rest[..|rest| - 1];
      JoinLeftCons(a, rest[..|rest| - 1]);
      assert JoinLeft(s) == a + " " + JoinLeft(rest[..|rest| - 1]) + " " + rest[|rest| - 1];
    }
  }

  /** `print` writes exactly `' '.join(args)`. */
  lemma {:induction false} PrintTextIsJoin(args: seq<string>)
    ensures PrintText(args) == JoinLeft(args)
    decreases |args|
  {
    if |args| > 1 {
      PrintTextIsJoin(args[1..]);
      JoinLeftCons(args[0], args[1..]);
      assert args == [args[0]] + args[1..];
    }
  }

  /** `print` adds one space between each pair of neighbouring arguments
      and nothing else. */
  lemma {:induction false} PrintTextLength(args: seq<string>)
    requires |args| > 0
    ensures |PrintText(args)| == SumLen(args) + |args| - 1
    decreases |args|
  {
    if |args| > 1 {
      PrintTextLength(args[1..]);
    }
  }

  /** `print(a, b, c)` writes `a`, a space, `b`, a space, then `c`. */
  lemma PrintThree(a: string, b: string, c: string)
    ensures PrintText([a, b, c]) == a + " " + b + " " + c
  {
  }

  /** Python's `a < b` on `str`: the first differing code point decides,
      and a proper prefix is smaller than the longer string. */
  predicate Less(a: string, b: string)
    decreases |a|
  {
    if |a| == 0 then |b| > 0
    else if |b| == 0 then false
    else if a[0] != b[0] then a[0] < b[0]
    else Less(a[1..], b[1..])
  }

  /** Reference definition of the same order: `a` and `b` agree on their
      first `k` code points, and then either `a` ends while `b` goes on,
      or both go on and `a`'s next code point is the smaller. */
  ghost predicate LessAt(a: string, b: string, k: nat)
  {
    && k <= |a| && k <= |b|
    && a[..k] == b[..k]
    && ((k == |a| && k < |b|) || (k < |a| && k < |b| && a[k] < b[k]))
  }

  lemma {:induction false} LessIffLessAt(a: string, b: string)
    ensures Less(a, b) <==> exists k: nat :: LessAt(a, b, k)
    decreases |a|
  {
    if |a| == 0 {
      if |b| > 0 {
        assert LessAt(a, b, 0);
      }
    } else if |b| == 0 {
    } else if a[0] != b[0] {
      if a[0] < b[0] {
        assert LessAt(a, b, 0);
      }
    } else {
      LessIffLessAt(a[1..], b[1..]);
      if Less(a[1..], b[1..]) {
        var k: nat :| LessAt(a[1..], b[1..], k);
        assert a[..k + 1] == [a[0]] + a[1..][..k];
        assert b[..k + 1] == [b[0]] + b[1..][..k];
        assert LessAt(a, b, k + 1);
      } else {
        forall k: nat | LessAt(a, b, k) ensures k > 0 && LessAt(a[1..], b[1..], k - 1) {
          assert a[1..][..k - 1] == a[..k][1..];
          assert b[1..][..k - 1] == b[..k][1..];
        }
      }
    }
  }

  lemma {:induction false} LessIrreflexive(a: string)
    ensures !Less(a, a)
    decreases |a|
  {
    if |a| > 0 {
      LessIrreflexive(a[1..]);
    }
  }

  lemma {:induction false} LessAsymmetric(a: string, b: string)
    ensures Less(a, b) ==> !Less(b, a)
    decreases |a|
  {
    if |a| > 0 && |b| > 0 && a[0] == b[0] {
      LessAsymmetric(a[1..], b[1..]);
    }
  }

  lemma {:induction false} LessTransitive(a: string, b: string, c: string)
    ensures Less(a, b) && Less(b, c) ==> Less(a, c)
    decreases |a|
  {
    if |a| > 0 && |b| > 0 && |c| > 0 && a[0] == b[0] && b[0] == c[0] {
      LessTransitive(a[1..], b[1..], c[1..]);
    }
  }

  /** Two different strings are always ordered one way or the other, so
      `sorted` never has to fall back on comparing the paired values. */
  lemma {:induction false} LessTotal(a: string, b: string)
    ensures a != b ==> Less(a, b) || Less(b, a)
    decreases |a|
  {
    if |a| > 0 && |b| > 0 && a[0] == b[0] {
      LessTotal(a[1..], b[1..]);
      if a[1..] == b[1..] {
        assert a == [a[0]] + a[1..] && b == [b[0]] + b[1..];
      }
    }
  }
}
