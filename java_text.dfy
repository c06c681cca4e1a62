/**
 * The pieces of the Java platform's string handling that the SRV discovery
 * provider relies on: `String.split` with a one-character separator,
 * `Integer.valueOf` in radix 10, decimal formatting of an int,
 * `String.replace(target, "")` and `replaceFirst("\\.$", "")`.
 */
module JavaText {
  import opened Wrappers

  /** Bounds of a Java `int`. */
  const MIN_INT: int := -0x8000_0000
  const MAX_INT: int := 0x7fff_ffff

  // ---------------------------------------------------------------------
  // Searching for a separator
  // ---------------------------------------------------------------------

  /** Index of the first occurrence of `c` in `s` (`String.indexOf`). */
  function IndexOf(s: string, c: char): (i: nat)
    requires c in s
    ensures i < |s| && s[i] == c && c !in s[..i]
  {
    if s[0] == c then 0
    else
      var j := IndexOf(s[1..], c);
      assert s[..j + 1] == [s[0]] + s[1..][..j];
      1 + j
  }

  /** The longest prefix of `s` without `c`: the text before the first `c`. */
  function Before(s: string, c: char): (b: string)
    ensures c !in b
    ensures |b| <= |s| && b == s[..|b|]
    ensures |b| < |s| ==> s[|b|] == c
    ensures (c in s) <==> |b| < |s|
  {
    if c in s then s[..IndexOf(s, c)] else s
  }

  /** The text after the first `c`. */
  function After(s: string, c: char): (a: string)
    requires c in s
    ensures s == Before(s, c) + [c] + a
  {
    var i := IndexOf(s, c);
    assert s == s[..i] + [c] + s[i + 1..];
    s[i + 1..]
  }

  // ---------------------------------------------------------------------
  // Splitting on a separator
  // ---------------------------------------------------------------------

  /** Every piece of `s` between occurrences of `c`, empty pieces included. */
  function Pieces(s: string, c: char): (ps: seq<string>)
    ensures |ps| >= 1 && ps[0] == Before(s, c)
    ensures forall k :: 0 <= k < |ps| ==> c !in ps[k]
    decreases |s|
  {
    if c in s then
      var i := IndexOf(s, c);
      var rest := Pieces(s[i + 1..], c);
      var ps := [s[..i]] + rest;
      assert forall k :: 1 <= k < |ps| ==> ps[k] == rest[k - 1];
      ps
    else [s]
  }

  /** The pieces put back together with `c` between neighbours. */
  function Join(ps: seq<string>, c: char): string
    requires |ps| >= 1
  {
    if |ps| == 1 then ps[0] else ps[0] + [c] + Join(ps[1..], c)
  }

  /** `ps` without its trailing empty strings. */
  function TrimTrailingEmpty(ps: seq<string>): (r: seq<string>)
    ensures |r| <= |ps| && r == ps[..|r|]
    ensures r == [] || r[|r| - 1] != ""
    ensures forall k :: |r| <= k < |ps| ==> ps[k] == ""
  {
    if ps == [] || ps[|ps| - 1] != "" then ps
    else TrimTrailingEmpty(ps[..|ps| - 1])
  }

  /**
   * `s.split(c)` for a one-character separator: the pieces between the
   * separators with trailing empty pieces dropped, except that a string
   * with no separator at all, the empty one included, is its own only piece.
   */
  function Split(s: string, c: char): (parts: seq<string>)
    ensures forall k :: 0 <= k < |parts| ==> c !in parts[k]
  {
    if s == "" then [""] else TrimTrailingEmpty(Pieces(s, c))
  }

  // ---------------------------------------------------------------------
  // Decimal integers
  // ---------------------------------------------------------------------

  predicate IsDigit(ch: char) {
    '0' <= ch <= '9'
  }

  predicate AllDigits(s: string) {
    forall k :: 0 <= k < |s| ==> IsDigit(s[k])
  }

  function DigitValue(ch: char): nat
    requires IsDigit(ch)
  {
    ch as int - '0' as int
  }

  function Digit(d: nat): (ch: char)
    requires d < 10
    ensures IsDigit(ch) && DigitValue(ch) == d
  {
    ('0' as int + d) as char
  }

  /** The number a string of decimal digits denotes, most significant first. */
  function DigitsValue(s: string): nat
    requires AllDigits(s)
  {
    if s == "" then 0
    else 10 * DigitsValue(s[..|s| - 1]) + DigitValue(s[|s| - 1])
  }

  /**
   * `Integer.valueOf(s)`: an optional `-` or `+`, then one or more decimal
   * digits, denoting a value in the range of an `int`; anything else is a
   * `NumberFormatException`, here `None`.
   */
  function ParseInt(s: string): (r: Option<int>)
    ensures r.Some? ==> MIN_INT <= r.value <= MAX_INT
    ensures s == "" ==> r.None?
  {
    var signed := |s| > 0 && (s[0] == '-' || s[0] == '+');
    var digits := if signed then s[1..] else s;
    if digits == "" || !AllDigits(digits) then None
    else
      var magnitude: int := DigitsValue(digits);
      var v := if signed && s[0] == '-' then -magnitude else magnitude;
      if MIN_INT <= v <= MAX_INT then Some(v) else None
  }

  /** `Integer.toString(n)` for a non-negative `n`. */
  function NatToString(n: nat): (s: string)
    ensures |s| >= 1 && AllDigits(s)
    ensures DigitsValue(s) == n
    ensures |s| > 1 ==> s[0] != '0'
  {
    if n < 10 then [Digit(n)]
    else
      var prefix := NatToString(n / 10);
      var s := prefix + [Digit(n % 10)];
      assert s[..|s| - 1] == prefix;
      s
  }

  // ---------------------------------------------------------------------
  // Removing text
  // ---------------------------------------------------------------------

  /** `t` occurs in `s` starting at index `i`. */
  predicate OccursAt(s: string, t: string, i: nat) {
    i + |t| <= |s| && s[i..i + |t|] == t
  }

  /**
   * `s.replace(t, "")` for a non-empty `t`: scanning from the left, every
   * occurrence of `t` that does not overlap one already removed is removed.
   */
  function RemoveAll(s: string, t: string): (r: string)
    requires t != ""
    ensures |r| <= |s|
    decreases |s|
  {
    if |s| < |t| then s
    else if s[..|t|] == t then RemoveAll(s[|t|..], t)
    else [s[0]] + RemoveAll(s[1..], t)
  }

  /** `s.replaceFirst("\\.$", "")`: one `.` at the very end is dropped. */
  function StripTrailingDot(s: string): (r: string)
    ensures s == r + "." || s == r
    ensures r == s <==> (s == "" || s[|s| - 1] != '.')
  {
    if s != "" && s[|s| - 1] == '.' then s[..|s| - 1] else s
  }

  // ---------------------------------------------------------------------
  // Lemmas
  // ---------------------------------------------------------------------

  /** Splitting at the first separator of `a + [c] + b`, where `a` has none. */
  lemma BeforeAfterFree(a: string, c: char, b: string)
    requires c !in a
    ensures c in a + [c] + b
    ensures Before(a + [c] + b, c) == a && After(a + [c] + b, c) == b
  {
    var s := a + [c] + b;
    assert s[|a|] == c;
    var i := IndexOf(s, c);
    assert s[..i] == a;
  }

  /** Joining the pieces gives the string back. */
  lemma {:induction false} JoinPieces(s: string, c: char)
    ensures Join(Pieces(s, c), c) == s
    decreases |s|
  {
    if c in s {
      var a := After(s, c);
      JoinPieces(a, c);
      assert Pieces(s, c)[1..] == Pieces(a, c);
    }
  }

  /** Splitting a join of separator-free pieces gives the pieces back. */
  lemma {:induction false} PiecesJoin(ps: seq<string>, c: char)
    requires |ps| >= 1
    requires forall k :: 0 <= k < |ps| ==> c !in ps[k]
    ensures Pieces(Join(ps, c), c) == ps
  {
    if |ps| > 1 {
      var tail := ps[1..];
      var j := Join(tail, c);
      assert Join(ps, c) == ps[0] + [c] + j;
      assert forall k :: 0 <= k < |tail| ==> tail[k] == ps[k + 1];
      assert c !in ps[0];
      BeforeAfterFree(ps[0], c, j);
      PiecesJoin(tail, c);
      assert Pieces(ps[0] + [c] + j, c) == [ps[0]] + tail;
      assert [ps[0]] + tail == ps;
    }
  }

  /** Every string in `ps` is empty. */
  predicate AllEmpty(ps: seq<string>) {
    forall k :: 0 <= k < |ps| ==> ps[k] == ""
  }

  /** `s` holds nothing but `c`. */
  predicate AllSeparators(s: string, c: char) {
    forall k :: 0 <= k < |s| ==> s[k] == c
  }

  /** All pieces are empty exactly when the string holds nothing but separators. */
  lemma {:induction false} PiecesAllEmpty(s: string, c: char)
    ensures AllEmpty(Pieces(s, c)) <==> AllSeparators(s, c)
    decreases |s|
  {
    if c in s {
      var b, a := Before(s, c), After(s, c);
      PiecesAllEmpty(a, c);
      var ps := Pieces(s, c);
      assert ps == [b] + Pieces(a, c);
      assert AllEmpty(ps) <==> b == "" && AllEmpty(Pieces(a, c)) by {
        if AllEmpty(ps) {
          forall k | 0 <= k < |Pieces(a, c)| ensures Pieces(a, c)[k] == "" {
            assert Pieces(a, c)[k] == ps[k + 1];
          }
        }
      }
      assert AllSeparators(s, c) <==> b == "" && AllSeparators(a, c) by {
        if AllSeparators(s, c) {
          forall k | 0 <= k < |a| ensures a[k] == c {
            assert a[k] == s[|b| + 1 + k];
          }
        }
      }
    } else if s != "" {
      assert s[0] in s;
    }
  }

  /** `split` yields nothing exactly for a non-empty string of separators only. */
  lemma SplitEmpty(s: string, c: char)
    ensures Split(s, c) == [] <==> s != "" && forall k :: 0 <= k < |s| ==> s[k] == c
  {
    if s != "" {
      var ps := Pieces(s, c);
      PiecesAllEmpty(s, c);
      if TrimTrailingEmpty(ps) == [] {
        assert AllEmpty(ps);
      }
    }
  }

  /** The first part of a non-empty split is the text before the first separator. */
  lemma SplitFirst(s: string, c: char)
    requires Split(s, c) != []
    ensures Split(s, c)[0] == Before(s, c)
  {
  }

  /**
   * The second part, when there is one, is the text between the first and
   * second separators; when there is none but a separator occurs, that text
   * is empty.
   */
  lemma SplitSecond(s: string, c: char)
    ensures |Split(s, c)| > 1 ==> c in s && Split(s, c)[1] == Before(After(s, c), c)
    ensures |Split(s, c)| <= 1 && c in s ==> Before(After(s, c), c) == ""
  {
    if c in s {
      var ps := Pieces(s, c);
      assert ps[1] == Pieces(After(s, c), c)[0];
    }
  }

  /** `(a + ":" + b).split(":")` is `[a, b]` when neither holds a colon and `b` is not empty. */
  lemma SplitPair(a: string, c: char, b: string)
    requires c !in a && c !in b && b != ""
    ensures Split(a + [c] + b, c) == [a, b]
  {
    BeforeAfterFree(a, c, b);
    assert Pieces(a + [c] + b, c) == [a] + Pieces(b, c);
  }

  /** Decimal formatting and `Integer.valueOf` are inverse on non-negative ints. */
  lemma NatToStringParses(n: nat)
    requires n <= MAX_INT
    ensures ParseInt(NatToString(n)) == Some(n)
  {
    var s := NatToString(n);
    assert IsDigit(s[0]);
  }

  /** `replace` changes nothing in a string where `t` does not occur. */
  lemma {:induction false} RemoveAllWithoutOccurrence(s: string, t: string)
    requires t != ""
    requires forall i: nat :: i <= |s| ==> !OccursAt(s, t, i)
    ensures RemoveAll(s, t) == s
    decreases |s|
  {
    if |s| >= |t| {
      assert !OccursAt(s, t, 0);
      assert s[0..|t|] == s[..|t|];
      forall i: nat | i <= |s[1..]| ensures !OccursAt(s[1..], t, i) {
        assert !OccursAt(s, t, i + 1);
        if i + |t| <= |s[1..]| {
          assert s[1..][i..i + |t|] == s[i + 1..i + 1 + |t|];
        }
      }
      RemoveAllWithoutOccurrence(s[1..], t);
    }
  }

  /** An occurrence at the very start is removed and the scan goes on after it. */
  lemma RemoveAllLeading(t: string, s: string)
    requires t != ""
    ensures RemoveAll(t + s, t) == RemoveAll(s, t)
  {
    assert (t + s)[..|t|] == t;
    assert (t + s)[|t|..] == s;
  }

  /**
   * The scan keeps everything before the first occurrence of `t`, removes that
   * occurrence and goes on after it: together with
   * `RemoveAllWithoutOccurrence` this fixes `RemoveAll` on every input.
   */
  lemma {:induction false} RemoveAllFirstOccurrence(x: string, t: string, y: string)
    requires t != ""
    requires forall i: nat :: i < |x| ==> !OccursAt(x + t + y, t, i)
    ensures RemoveAll(x + t + y, t) == x + RemoveAll(y, t)
    decreases |x|
  {
    var w := x + t + y;
    if x == [] {
      assert w == t + y;
      RemoveAllLeading(t, y);
    } else {
      assert !OccursAt(w, t, 0);
      assert w[0..|t|] == w[..|t|];
      assert w[1..] == x[1..] + t + y;
      forall i: nat | i < |x[1..]| ensures !OccursAt(x[1..] + t + y, t, i) {
        assert !OccursAt(w, t, i + 1);
        if i + |t| <= |w[1..]| {
          assert w[1..][i..i + |t|] == w[i + 1..i + 1 + |t|];
        }
      }
      RemoveAllFirstOccurrence(x[1..], t, y);
      assert w[0] == x[0];
      calc {
        RemoveAll(w, t);
        [x[0]] + RemoveAll(x[1..] + t + y, t);
        [x[0]] + (x[1..] + RemoveAll(y, t));
        x + RemoveAll(y, t);
      }
    }
  }

  /** A prefix that never holds the first character of `t` passes through untouched. */
  lemma {:induction false} RemoveAllFreePrefix(x: string, s: string, t: string)
    requires t != "" && t[0] !in x
    ensures RemoveAll(x + s, t) == x + RemoveAll(s, t)
    decreases |x|
  {
    if x != "" {
      var w := x + s;
      assert w[0] == x[0];
      assert w[1..] == x[1..] + s;
      RemoveAllFreePrefix(x[1..], s, t);
      if |w| >= |t| {
        assert x[0] in x;
        assert w[..|t|][0] != t[0];
        calc {
          RemoveAll(w, t);
          [x[0]] + RemoveAll(x[1..] + s, t);
          [x[0]] + (x[1..] + RemoveAll(s, t));
          x + RemoveAll(s, t);
        }
      } else {
        assert RemoveAll(s, t) == s;
      }
    } else {
      assert x + s == s;
    }
  }
}
