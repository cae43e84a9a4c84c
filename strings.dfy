/**
 * The few JavaScript string operations the core relies on, over `seq<char>`:
 * `split` on a one-character separator, `a || b` on strings, and
 * `replace` with a string pattern (which replaces the first occurrence only).
 */
module Strings {

  /** `s.split(d)` for a one-character separator `d`: never empty, no piece holds `d`. */
  function Split(s: string, d: char): (parts: seq<string>)
    ensures |parts| >= 1
    decreases |s|
  {
    if s == [] then [[]]
    else if s[0] == d then [[]] + Split(s[1..], d)
    else
      var rest := Split(s[1..], d);
      [[s[0]] + rest[0]] + rest[1..]
  }

  /** No piece holds the separator, and text without it is a single piece. */
  lemma {:induction false} SplitPieces(s: string, d: char)
    ensures forall i :: 0 <= i < |Split(s, d)| ==> d !in Split(s, d)[i]
    ensures d !in s ==> Split(s, d) == [s]
    decreases |s|
  {
    if s != [] {
      SplitPieces(s[1..], d);
      assert [s[0]] + s[1..] == s;
      if s[0] != d {
        var rest := Split(s[1..], d);
        assert d !in [s[0]] + rest[0];
        assert Split(s, d)[1..] == rest[1..];
      }
    }
  }

  /** Text holding the separator splits into at least two pieces. */
  lemma {:induction false} SplitSeparated(s: string, d: char)
    requires d in s
    ensures |Split(s, d)| >= 2
    decreases |s|
  {
    if s[0] != d {
      assert d in s[1..] by {
        var k :| 0 <= k < |s| && s[k] == d;
        assert s[1..][k - 1] == d;
      }
      SplitSeparated(s[1..], d);
    }
  }

  /** `parts.join(d)`: the inverse of `Split`. */
  function Join(parts: seq<string>, d: char): string
    requires |parts| >= 1
    decreases |parts|
  {
    if |parts| == 1 then parts[0] else parts[0] + [d] + Join(parts[1..], d)
  }

  /** Splitting and joining again gives back the original text. */
  lemma {:induction false} JoinSplit(s: string, d: char)
    ensures Join(Split(s, d), d) == s
    decreases |s|
  {
    if s == [] {
    } else if s[0] == d {
      JoinSplit(s[1..], d);
      assert [d] + s[1..] == s;
    } else {
      var rest := Split(s[1..], d);
      JoinSplit(s[1..], d);
      if |rest| == 1 {
        assert Split(s, d) == [[s[0]] + rest[0]];
        assert [s[0]] + s[1..] == s;
      } else {
        var parts := Split(s, d);
        assert parts[1..] == rest[1..];
        calc {
          Join(parts, d);
          ([s[0]] + rest[0]) + [d] + Join(rest[1..], d);
          [s[0]] + (rest[0] + [d] + Join(rest[1..], d));
          [s[0]] + Join(rest, d);
          s;
        }
      }
    }
  }

  /** A separator-free prefix stays glued to the first piece of whatever follows it. */
  lemma {:induction false} SplitFreePrefix(a: string, t: string, d: char)
    requires d !in a
    ensures Split(a + t, d) == [a + Split(t, d)[0]] + Split(t, d)[1..]
    decreases |a|
  {
    if a != [] {
      assert (a + t)[0] == a[0];
      assert (a + t)[1..] == a[1..] + t;
      SplitFreePrefix(a[1..], t, d);
      assert [a[0]] + (a[1..] + Split(t, d)[0]) == a + Split(t, d)[0];
    } else {
      var parts := Split(t, d);
      assert a + t == t && a + parts[0] == parts[0];
      assert parts == [parts[0]] + parts[1..];
    }
  }

  /** Joining separator-free pieces and splitting again gives back the pieces. */
  lemma {:induction false} SplitJoin(parts: seq<string>, d: char)
    requires |parts| >= 1
    requires forall i :: 0 <= i < |parts| ==> d !in parts[i]
    ensures Split(Join(parts, d), d) == parts
    decreases |parts|
  {
    if |parts| > 1 {
      var tail := Join(parts[1..], d);
      SplitJoin(parts[1..], d);
      assert Join(parts, d) == parts[0] + ([d] + tail);
      SplitFreePrefix(parts[0], [d] + tail, d);
      assert ([d] + tail)[1..] == tail;
      assert Split([d] + tail, d) == [[]] + Split(tail, d);
      assert parts[0] + [] == parts[0];
    } else {
      SplitPieces(parts[0], d);
    }
  }

  /** JavaScript `a || b` on two strings: `a` unless it is the empty string. */
  function OrElse(a: string, b: string): (r: string)
    ensures r == a || r == b
    ensures r == "" <==> a == "" && b == ""
  {
    if a != "" then a else b
  }

  /** `s.replace(from, to)` with a one-character string pattern: only the first occurrence changes. */
  function ReplaceFirst(s: string, from: char, to: char): (r: string)
    ensures |r| == |s|
    ensures from !in s ==> r == s
    decreases |s|
  {
    if s == [] then []
    else if s[0] == from then [to] + s[1..]
    else [s[0]] + ReplaceFirst(s[1..], from, to)
  }

  /** Only the first `from` is replaced: what comes after it is left as it is. */
  lemma {:induction false} ReplaceFirstAt(a: string, b: string, from: char, to: char)
    requires from !in a
    ensures ReplaceFirst(a + [from] + b, from, to) == a + [to] + b
    decreases |a|
  {
    if a == [] {
      assert a + [from] + b == [from] + b;
    } else {
      assert (a + [from] + b)[1..] == a[1..] + [from] + b;
      ReplaceFirstAt(a[1..], b, from, to);
      assert [a[0]] + (a[1..] + [to] + b) == a + [to] + b;
    }
  }
}
