/**
  Python's `str.split(sep)` on a single-character separator, and an independent
  description of its first two fields by the position of the first separator.
  The target parser and the special-key parser of `SikuliXRegion` only ever use
  `split(...)[0]`, `split(...)[1]` and `split(...)[2]`.
 */
module Text {

  /** `s.split([c])` as Python computes it: never empty, `"".split(c) == [""]`. */
  function Split(s: string, c: char): (parts: seq<string>)
    ensures |parts| >= 1
    ensures forall k :: 0 <= k < |parts| ==> c !in parts[k]
  {
    if |s| == 0 then [""]
    else
      var rest := Split(s[1..], c);
      if s[0] == c then [""] + rest
      else [[s[0]] + rest[0]] + rest[1..]
  }

  /** `c.join(parts)`: the inverse of `Split`. */
  function Join(parts: seq<string>, c: char): string
    requires |parts| >= 1
  {
    if |parts| == 1 then parts[0] else parts[0] + [c] + Join(parts[1..], c)
  }

  /** Number of occurrences of `c` in `s`. */
  function Count(s: string, c: char): nat
  {
    if |s| == 0 then 0 else (if s[0] == c then 1 else 0) + Count(s[1..], c)
  }

  /** Position of the first `c` in `s`, or `|s|` when there is none. */
  function FirstIndex(s: string, c: char): (i: nat)
    ensures i <= |s|
    ensures c !in s[..i]
    ensures i < |s| <==> c in s
    ensures i < |s| ==> s[i] == c
  {
    if |s| == 0 then 0
    else if s[0] == c then 0
    else
      var j := FirstIndex(s[1..], c);
      assert s[1..][..j] == s[1..j + 1];
      1 + j
  }

  /** The text before the first `c` (all of `s` when `c` does not occur). */
  function Head(s: string, c: char): (h: string)
    ensures c !in h
  {
    s[..FirstIndex(s, c)]
  }

  /** The text after the first `c`. */
  function Tail(s: string, c: char): (t: string)
    requires c in s
    ensures s == Head(s, c) + [c] + t
  {
    var i := FirstIndex(s, c);
    assert s == s[..i] + [s[i]] + s[i + 1..];
    s[i + 1..]
  }

  /** Substring test `sub in s`. */
  predicate IsInfix(sub: string, s: string)
    decreases |s|
  {
    sub <= s || (|s| > 0 && IsInfix(sub, s[1..]))
  }

  lemma {:induction false} SplitNoSeparator(s: string, c: char)
    requires c !in s
    ensures Split(s, c) == [s]
    decreases |s|
  {
    if |s| > 0 {
      SplitNoSeparator(s[1..], c);
      assert [s[0]] + s[1..] == s;
    }
  }

  /** Splitting at a separator whose left part is free of it. */
  lemma {:induction false} SplitAt(a: string, b: string, c: char)
    requires c !in a
    ensures Split(a + [c] + b, c) == [a] + Split(b, c)
    decreases |a|
  {
    var s := a + [c] + b;
    if |a| == 0 {
      assert s[0] == c && s[1..] == b;
    } else {
      assert s[0] == a[0] && s[1..] == a[1..] + [c] + b;
      SplitAt(a[1..], b, c);
      assert [a[0]] + a[1..] == a;
    }
  }

  /** `Split` peels off `Head` and continues on `Tail`. */
  lemma SplitHeadTail(s: string, c: char)
    ensures c !in s ==> Split(s, c) == [s]
    ensures c in s ==> Split(s, c) == [Head(s, c)] + Split(Tail(s, c), c)
  {
    if c in s {
      SplitAt(Head(s, c), Tail(s, c), c);
    } else {
      SplitNoSeparator(s, c);
      assert Head(s, c) == s;
    }
  }

  /** The fields Python code reads: `[0]` is the text before the first separator, `[1]` the text between the first and second. */
  lemma SplitFields(s: string, c: char)
    ensures Split(s, c)[0] == Head(s, c)
    ensures c in s <==> |Split(s, c)| >= 2
    ensures c in s ==> Split(s, c)[1] == Head(Tail(s, c), c)
  {
    SplitHeadTail(s, c);
    if c in s {
      SplitHeadTail(Tail(s, c), c);
    } else {
      assert Head(s, c) == s;
    }
  }

  /** Joining the fields gives back the string. */
  lemma {:induction false} JoinSplit(s: string, c: char)
    ensures Join(Split(s, c), c) == s
    decreases |s|
  {
    if |s| > 0 {
      var rest := Split(s[1..], c);
      JoinSplit(s[1..], c);
      if s[0] == c {
        assert Join(Split(s, c), c) == "" + [c] + Join(rest, c);
      } else if |rest| == 1 {
        assert Join(Split(s, c), c) == [s[0]] + rest[0];
      } else {
        assert Join(rest, c) == rest[0] + [c] + Join(rest[1..], c);
        assert Join(Split(s, c), c) == [s[0]] + rest[0] + [c] + Join(rest[1..], c);
      }
      assert [s[0]] + s[1..] == s;
    }
  }

  /** Splitting a join of separator-free fields gives back the fields. */
  lemma {:induction false} SplitJoin(parts: seq<string>, c: char)
    requires |parts| >= 1
    requires forall k :: 0 <= k < |parts| ==> c !in parts[k]
    ensures Split(Join(parts, c), c) == parts
    decreases |parts|
  {
    if |parts| == 1 {
      SplitNoSeparator(parts[0], c);
    } else {
      SplitJoin(parts[1..], c);
      SplitAt(parts[0], Join(parts[1..], c), c);
      assert [parts[0]] + parts[1..] == parts;
    }
  }

  /** One more field than separators. */
  lemma {:induction false} SplitCount(s: string, c: char)
    ensures |Split(s, c)| == Count(s, c) + 1
    decreases |s|
  {
    if |s| > 0 {
      SplitCount(s[1..], c);
    }
  }
}
