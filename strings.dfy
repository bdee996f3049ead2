/**
 * String helpers with the semantics of the Python built-ins the system relies on:
 * `str.split(sep)`, `sep.join(parts)`, `str(n)` for integers, and counting the
 * occurrences of one character.
 */
module Strings {
  import opened Wrappers

  /** `sub` occurs in `s` starting at index `i`. */
  predicate OccursAt(s: string, sub: string, i: nat)
  {
    i + |sub| <= |s| && s[i..i + |sub|] == sub
  }

  /** `s` contains `sub` somewhere. */
  predicate Contains(s: string, sub: string)
  {
    exists i: nat | i <= |s| :: OccursAt(s, sub, i)
  }

  /** The first index at or after `from` where `sub` occurs in `s`. */
  function IndexFrom(s: string, sub: string, from: nat): (r: Option<nat>)
    requires |sub| > 0
    ensures r.Some? ==> from <= r.value && OccursAt(s, sub, r.value)
    ensures r.Some? ==> forall j: nat :: from <= j < r.value ==> !OccursAt(s, sub, j)
    ensures r.None? ==> forall j: nat :: from <= j ==> !OccursAt(s, sub, j)
    decreases |s| - from
  {
    if from + |sub| > |s| then None
    else if s[from..from + |sub|] == sub then Some(from)
    else IndexFrom(s, sub, from + 1)
  }

  /** Python's `s.split(sep)`: cut at every non-overlapping occurrence, left to right. */
  function Split(s: string, sep: string): (parts: seq<string>)
    requires |sep| > 0
    ensures |parts| >= 1
    decreases |s|
  {
    match IndexFrom(s, sep, 0)
    case None => [s]
    case Some(i) => [s[..i]] + Split(s[i + |sep|..], sep)
  }

  lemma Associative(a: string, b: string, c: string)
    ensures a + (b + c) == a + b + c
  {
  }

  /** Python's `sep.join(parts)`. */
  function Join(sep: string, parts: seq<string>): string
  {
    if |parts| == 0 then ""
    else if |parts| == 1 then parts[0]
    else parts[0] + sep + Join(sep, parts[1..])
  }

  /** Splitting and joining back with the same separator gives the original string. */
  lemma {:induction false} JoinSplit(s: string, sep: string)
    requires |sep| > 0
    ensures Join(sep, Split(s, sep)) == s
    decreases |s|
  {
    match IndexFrom(s, sep, 0)
    case None =>
    case Some(i) =>
      var rest := s[i + |sep|..];
      var tail := Split(rest, sep);
      JoinSplit(rest, sep);
      assert Split(s, sep) == [s[..i]] + tail;
      assert ([s[..i]] + tail)[1..] == tail;
      assert Join(sep, [s[..i]] + tail) == s[..i] + sep + Join(sep, tail);
      assert s[i..i + |sep|] == sep;
      assert s == s[..i] + s[i..i + |sep|] + rest;
  }

  /** No part produced by `Split` contains the separator. */
  lemma {:induction false} SplitPartsFree(s: string, sep: string)
    requires |sep| > 0
    ensures forall k :: 0 <= k < |Split(s, sep)| ==> !Contains(Split(s, sep)[k], sep)
    decreases |s|
  {
    match IndexFrom(s, sep, 0)
    case None =>
    case Some(i) =>
      var rest := s[i + |sep|..];
      SplitPartsFree(rest, sep);
      forall j: nat | OccursAt(s[..i], sep, j)
        ensures false
      {
        assert s[..i][j..j + |sep|] == s[j..j + |sep|];
        assert OccursAt(s, sep, j);
      }
  }

  /** A string without the separator splits into itself alone. */
  lemma SplitWhole(s: string, sep: string)
    requires |sep| > 0 && !Contains(s, sep)
    ensures Split(s, sep) == [s]
  {
  }

  /** An occurrence starting inside `a` would already occur in `a` plus all but the last separator character. */
  lemma NoEarlyOccurrence(a: string, sep: string, b: string, i: nat)
    requires |sep| > 0 && !Contains(a + sep[..|sep| - 1], sep) && i < |a|
    ensures !OccursAt(a + sep + b, sep, i)
  {
    var s, t := a + sep + b, a + sep[..|sep| - 1];
    if OccursAt(s, sep, i) {
      assert forall k | i <= k < i + |sep| :: t[k] == s[k];
      assert t[i..i + |sep|] == s[i..i + |sep|];
      assert OccursAt(t, sep, i) && i <= |t|;
    }
  }

  /** When no occurrence of the separator starts inside `a`, the first part is `a`. */
  lemma SplitFront(a: string, sep: string, b: string)
    requires |sep| > 0 && !Contains(a + sep[..|sep| - 1], sep)
    ensures Split(a + sep + b, sep) == [a] + Split(b, sep)
  {
    var s := a + sep + b;
    assert OccursAt(s, sep, |a|) by {
      assert s[|a|..|a| + |sep|] == sep;
    }
    var r := IndexFrom(s, sep, 0);
    assert r.Some?;
    var i := r.value;
    if i < |a| {
      NoEarlyOccurrence(a, sep, b, i);
    }
    assert i == |a|;
    assert s[i + |sep|..] == b;
    assert s[..i] == a;
  }

  /** Which parts `Split` gives back from a join: no separator can start inside a part. */
  predicate Separable(parts: seq<string>, sep: string)
    requires |sep| > 0
  {
    && |parts| > 0
    && (forall k :: 0 <= k < |parts| - 1 ==> !Contains(parts[k] + sep[..|sep| - 1], sep))
    && !Contains(parts[|parts| - 1], sep)
  }

  /** Joining separable parts and splitting again gives the parts back. */
  lemma {:induction false} SplitJoin(parts: seq<string>, sep: string)
    requires |sep| > 0 && Separable(parts, sep)
    ensures Split(Join(sep, parts), sep) == parts
    decreases |parts|
  {
    if |parts| == 1 {
      SplitWhole(parts[0], sep);
    } else {
      var rest := parts[1..];
      assert Separable(rest, sep) by {
        assert forall k :: 0 <= k < |rest| - 1 ==> rest[k] == parts[k + 1];
      }
      SplitJoin(rest, sep);
      SplitFront(parts[0], sep, Join(sep, rest));
    }
  }

  /** A string none of whose characters starts `sub` does not contain `sub`. */
  lemma AbsentHead(s: string, sub: string)
    requires |sub| > 0 && sub[0] !in s
    ensures !Contains(s, sub)
  {
    forall i: nat | i <= |s|
      ensures !OccursAt(s, sub, i)
    {
      if i + |sub| <= |s| {
        assert s[i..i + |sub|][0] == s[i];
      }
    }
  }

  /**
   * `a` followed by all but the last character of `sub` does not contain `sub` when
   * no character of `a` starts `sub`: an occurrence would have to start past `a`.
   */
  lemma AbsentHeadThenPrefix(a: string, sub: string)
    requires |sub| > 0 && sub[0] !in a
    ensures !Contains(a + sub[..|sub| - 1], sub)
  {
    var t := a + sub[..|sub| - 1];
    forall i: nat | i <= |t|
      ensures !OccursAt(t, sub, i)
    {
      if i + |sub| <= |t| {
        assert t[i..i + |sub|][0] == t[i] == a[i];
      }
    }
  }

  /** Joining one more part appends the separator and that part. */
  lemma {:induction false} JoinSnoc(sep: string, parts: seq<string>, x: string)
    requires |parts| > 0
    ensures Join(sep, parts + [x]) == Join(sep, parts) + sep + x
    decreases |parts|
  {
    if |parts| > 1 {
      JoinSnoc(sep, parts[1..], x);
      assert (parts + [x])[1..] == parts[1..] + [x];
    }
  }

  /** A character absent from the separator and from every part is absent from the join. */
  lemma {:induction false} JoinFree(c: char, sep: string, parts: seq<string>)
    requires c !in sep
    requires forall k :: 0 <= k < |parts| ==> c !in parts[k]
    ensures c !in Join(sep, parts)
    decreases |parts|
  {
    if |parts| > 1 {
      JoinFree(c, sep, parts[1..]);
      assert Join(sep, parts) == parts[0] + sep + Join(sep, parts[1..]);
    }
  }

  /** Joining two non-empty runs of parts puts one separator between their joins. */
  lemma {:induction false} JoinConcat(sep: string, a: seq<string>, b: seq<string>)
    requires |a| > 0 && |b| > 0
    ensures Join(sep, a + b) == Join(sep, a) + sep + Join(sep, b)
    decreases |a|
  {
    if |a| == 1 {
      assert (a + b)[1..] == b;
    } else {
      JoinConcat(sep, a[1..], b);
      assert (a + b)[1..] == a[1..] + b;
    }
  }

  /** `n` copies of `x`. */
  function Repeat(x: string, n: nat): (r: seq<string>)
    ensures |r| == n && forall k :: 0 <= k < n ==> r[k] == x
  {
    if n == 0 then [] else [x] + Repeat(x, n - 1)
  }

  /** The number of occurrences of character `m` in `s`. */
  function Count(m: char, s: string): nat
  {
    if |s| == 0 then 0 else (if s[0] == m then 1 else 0) + Count(m, s[1..])
  }

  lemma {:induction false} CountConcat(m: char, a: string, b: string)
    ensures Count(m, a + b) == Count(m, a) + Count(m, b)
    decreases |a|
  {
    if |a| > 0 {
      var ab := a + b;
      CountConcat(m, a[1..], b);
      assert ab[0] == a[0];
      assert ab[1..] == a[1..] + b;
      assert Count(m, ab) == (if a[0] == m then 1 else 0) + Count(m, a[1..] + b);
    } else {
      assert a + b == b;
    }
  }

  lemma {:induction false} CountAbsent(m: char, s: string)
    requires m !in s
    ensures Count(m, s) == 0
    decreases |s|
  {
    if |s| > 0 {
      assert s[0] in s;
      CountAbsent(m, s[1..]);
    }
  }

  lemma Distribute(n: nat, per: nat)
    ensures (n + 1) * per == per + n * per
  {
  }

  /** Joining parts adds up their counts, plus one count of the separator per gap. */
  lemma {:induction false} CountJoin(m: char, sep: string, parts: seq<string>, per: nat)
    requires Count(m, sep) == 0
    requires forall k :: 0 <= k < |parts| ==> Count(m, parts[k]) == per
    ensures Count(m, Join(sep, parts)) == |parts| * per
    decreases |parts|
  {
    if |parts| > 1 {
      var rest := parts[1..];
      CountJoin(m, sep, rest, per);
      assert Join(sep, parts) == parts[0] + sep + Join(sep, rest);
      CountConcat(m, parts[0] + sep, Join(sep, rest));
      CountConcat(m, parts[0], sep);
      assert Count(m, parts[0]) == per;
      assert Count(m, Join(sep, parts)) == per + |rest| * per;
      Distribute(|rest|, per);
    } else if |parts| == 1 {
      assert Count(m, parts[0]) == per;
    }
  }

  // ---------------------------------------------------------------------------
  // Decimal rendering of integers (Python's `'%s' % n`)

  function DigitChar(d: nat): char
    requires d < 10
  {
    "0123456789"[d]
  }

  function DigitValue(c: char): nat
  {
    if '0' <= c <= '9' then (c as int - '0' as int) as nat else 0
  }

  predicate IsDigit(c: char)
  {
    '0' <= c <= '9'
  }

  /** The decimal digits of `n`, most significant first, no leading zeros. */
  function NatToString(n: nat): (r: string)
    ensures |r| > 0 && forall k :: 0 <= k < |r| ==> IsDigit(r[k])
    ensures |r| > 1 ==> r[0] != '0'
  {
    if n < 10 then [DigitChar(n)] else NatToString(n / 10) + [DigitChar(n % 10)]
  }

  /** The decimal rendering of an integer, with a leading '-' for negatives. */
  function IntToString(i: int): (r: string)
    ensures |r| > 0
  {
    if i < 0 then "-" + NatToString(-i) else NatToString(i)
  }

  /** Reads a run of decimal digits back into a number. */
  function ParseNat(s: string): nat
  {
    if |s| == 0 then 0 else ParseNat(s[..|s| - 1]) * 10 + DigitValue(s[|s| - 1])
  }

  /** Reads back what `IntToString` writes. */
  function ParseInt(s: string): int
  {
    if |s| > 0 && s[0] == '-' then -(ParseNat(s[1..]) as int) else ParseNat(s)
  }

  lemma {:induction false} ParseNatToString(n: nat)
    ensures ParseNat(NatToString(n)) == n
  {
    var s := NatToString(n);
    if n >= 10 {
      ParseNatToString(n / 10);
      assert s[..|s| - 1] == NatToString(n / 10);
    }
  }

  /** Decimal rendering loses nothing: distinct integers render as distinct strings. */
  lemma IntToStringRoundTrip(i: int)
    ensures ParseInt(IntToString(i)) == i
  {
    var r := IntToString(i);
    if i < 0 {
      var digits := NatToString(-i);
      ParseNatToString(-i);
      assert r == "-" + digits;
      assert r[0] == '-' && r[1..] == digits;
    } else {
      var digits := NatToString(i);
      ParseNatToString(i);
      assert r == digits;
      assert IsDigit(r[0]);
    }
  }
}
