/**
 * The handful of Python `str` operations the backend leans on, over `seq<char>`:
 * `strip`, `startswith`/`endswith`, `in`, `split`/`join`, `lower`, `str(int)`.
 * Whitespace is the ASCII whitespace set; see README for the Unicode cases left out.
 */
module Strings {
  import opened Wrappers

  /** The characters `str.strip()` and the regex class `\s` treat as whitespace (ASCII part). */
  predicate IsSpace(c: char)
  {
    c == ' ' || c == '\t' || c == '\n' || c == '\r' || c == '\U{000B}' || c == '\U{000C}'
  }

  /** `not s.strip()`: the string is empty or all whitespace. */
  predicate IsBlank(s: string)
  {
    forall i :: 0 <= i < |s| ==> IsSpace(s[i])
  }

  predicate StartsWith(s: string, prefix: string)
  {
    |prefix| <= |s| && s[..|prefix|] == prefix
  }

  predicate EndsWith(s: string, suffix: string)
  {
    |suffix| <= |s| && s[|s| - |suffix|..] == suffix
  }

  /** `sub` occurs in `s` starting at index `i`. */
  predicate OccursAt(s: string, sub: string, i: nat)
  {
    i + |sub| <= |s| && s[i..i + |sub|] == sub
  }

  /** `s.find(sub, from)`: the first occurrence of `sub` at or after `from`. */
  function FindFrom(s: string, sub: string, from: nat): (r: Option<nat>)
    decreases |s| - from
    ensures r.Some? ==> from <= r.value && OccursAt(s, sub, r.value)
    ensures r.Some? ==> forall j :: from <= j < r.value ==> !OccursAt(s, sub, j)
    ensures r.None? ==> forall j :: from <= j ==> !OccursAt(s, sub, j)
  {
    if from + |sub| > |s| then None
    else if s[from..from + |sub|] == sub then Some(from)
    else FindFrom(s, sub, from + 1)
  }

  /** Python's `sub in s`. */
  predicate Contains(s: string, sub: string)
  {
    FindFrom(s, sub, 0).Some?
  }

  lemma ContainsIff(s: string, sub: string)
    ensures Contains(s, sub) <==> exists i: nat :: OccursAt(s, sub, i)
  {
    if Contains(s, sub) {
      var i := FindFrom(s, sub, 0).value;
      assert OccursAt(s, sub, i);
    }
  }

  /** An occurrence inside a slice is an occurrence in the whole string. */
  lemma OccursInSlice(s: string, sub: string, lo: nat, hi: nat, j: nat)
    requires lo <= hi <= |s|
    requires OccursAt(s[lo..hi], sub, j)
    ensures OccursAt(s, sub, lo + j)
  {
    var t := s[lo..hi];
    assert j + |sub| <= |t|;
    forall k | 0 <= k < |sub|
      ensures s[lo + j + k] == sub[k]
    {
      assert t[j..j + |sub|][k] == sub[k];
    }
    assert s[lo + j..lo + j + |sub|] == sub;
  }

  /** A string with no occurrence of `sub` keeps having none in any slice. */
  lemma NotContainsSlice(s: string, sub: string, lo: nat, hi: nat)
    requires lo <= hi <= |s|
    requires !Contains(s, sub)
    ensures !Contains(s[lo..hi], sub)
  {
    if Contains(s[lo..hi], sub) {
      var j := FindFrom(s[lo..hi], sub, 0).value;
      OccursInSlice(s, sub, lo, hi, j);
      assert false;
    }
  }

  /** Python's `s.split(sep)` for a non-empty separator. */
  function Split(s: string, sep: string): (parts: seq<string>)
    requires |sep| > 0
    ensures |parts| >= 1
    decreases |s|
  {
    match FindFrom(s, sep, 0)
    case None => [s]
    case Some(p) => [s[..p]] + Split(s[p + |sep|..], sep)
  }

  /** Python's `sep.join(parts)`. */
  function Join(parts: seq<string>, sep: string): string
  {
    if |parts| == 0 then ""
    else if |parts| == 1 then parts[0]
    else parts[0] + sep + Join(parts[1..], sep)
  }

  lemma JoinCons(head: string, tail: seq<string>, sep: string)
    requires |tail| >= 1
    ensures Join([head] + tail, sep) == head + sep + Join(tail, sep)
  {
    assert ([head] + tail)[1..] == tail;
  }

  /** Joining two non-empty lists is joining each and putting one separator between them. */
  lemma {:induction false} JoinAppend(a: seq<string>, b: seq<string>, sep: string)
    requires |a| >= 1 && |b| >= 1
    ensures Join(a + b, sep) == Join(a, sep) + sep + Join(b, sep)
    decreases |a|
  {
    if |a| == 1 {
      assert a + b == [a[0]] + b;
      JoinCons(a[0], b, sep);
    } else {
      assert a + b == [a[0]] + (a[1..] + b);
      JoinCons(a[0], a[1..] + b, sep);
      JoinAppend(a[1..], b, sep);
    }
  }

  lemma JoinSnoc(parts: seq<string>, p: string, sep: string)
    ensures Join(parts + [p], sep) == if parts == [] then p else Join(parts, sep) + sep + p
  {
    if parts == [] {
      assert parts + [p] == [p];
    } else {
      JoinAppend(parts, [p], sep);
    }
  }

  /** A join starts with its first part. */
  lemma JoinStartsWith(parts: seq<string>, sep: string)
    requires |parts| >= 1
    ensures StartsWith(Join(parts, sep), parts[0])
  {
    if |parts| > 1 {
      assert Join(parts, sep) == parts[0] + (sep + Join(parts[1..], sep));
    }
  }

  /** Where part `k` starts in a join: after the parts before it and their separators. */
  function JoinOffset(parts: seq<string>, sep: string, k: nat): nat
    requires k <= |parts|
  {
    if k == 0 then 0 else |Join(parts[..k], sep)| + |sep|
  }

  /** Every part occurs in the join at its offset. */
  lemma JoinPartAt(parts: seq<string>, sep: string, k: nat)
    requires k < |parts|
    ensures OccursAt(Join(parts, sep), parts[k], JoinOffset(parts, sep, k))
  {
    var part := parts[k];
    assert parts[k..][0] == part;
    JoinStartsWith(parts[k..], sep);
    if k == 0 {
      assert parts[k..] == parts;
    } else {
      assert parts == parts[..k] + parts[k..];
      JoinAppend(parts[..k], parts[k..], sep);
      var front := Join(parts[..k], sep) + sep;
      var back := Join(parts[k..], sep);
      assert (front + back)[|front|..|front| + |part|] == back[..|part|];
    }
  }

  lemma JoinSplitWhole(s: string, sep: string)
    requires |sep| > 0 && FindFrom(s, sep, 0).None?
    ensures Join(Split(s, sep), sep) == s
  {
    assert Split(s, sep) == [s];
  }

  /** Joining the pieces of a split with the same separator gives back the string. */
  lemma {:induction false} JoinSplit(s: string, sep: string)
    requires |sep| > 0
    ensures Join(Split(s, sep), sep) == s
    decreases |s|
  {
    var f := FindFrom(s, sep, 0);
    if f.None? {
      JoinSplitWhole(s, sep);
    } else {
      var p := f.value;
      var rest := s[p + |sep|..];
      JoinSplit(rest, sep);
      JoinSplitAt(s, sep, p);
    }
  }

  lemma JoinSplitAt(s: string, sep: string, p: nat)
    requires |sep| > 0 && FindFrom(s, sep, 0) == Some(p)
    requires Join(Split(s[p + |sep|..], sep), sep) == s[p + |sep|..]
    ensures Join(Split(s, sep), sep) == s
  {
    var rest := s[p + |sep|..];
    JoinCons(s[..p], Split(rest, sep), sep);
    assert s == s[..p] + sep + rest by {
      assert OccursAt(s, sep, p);
      assert s == s[..p] + s[p..p + |sep|] + rest;
    }
  }

  lemma StartsWithPrepend(a: string, t: string, prefix: string)
    requires StartsWith(t, prefix)
    ensures StartsWith(a + t, a + prefix)
  {
    assert (a + t)[..|a + prefix|] == a + t[..|prefix|];
  }

  /** Joining the first `k` pieces of a split gives back a prefix of the string. */
  lemma {:induction false} JoinSplitPrefix(s: string, sep: string, k: nat)
    requires |sep| > 0 && k <= |Split(s, sep)|
    ensures StartsWith(s, Join(Split(s, sep)[..k], sep))
    decreases |s|
  {
    var f := FindFrom(s, sep, 0);
    if k == 0 {
    } else if f.None? {
      assert Split(s, sep)[..k] == [s];
    } else {
      var p := f.value;
      SplitFirst(s, sep, p);
      if k > 1 {
        JoinSplitPrefix(s[p + |sep|..], sep, k - 1);
      }
      JoinSplitPrefixAt(s, sep, k, p);
    }
  }

  lemma JoinSplitPrefixAt(s: string, sep: string, k: nat, p: nat)
    requires |sep| > 0 && FindFrom(s, sep, 0) == Some(p) && 1 <= k <= |Split(s, sep)|
    requires k > 1 ==> StartsWith(s[p + |sep|..], Join(Split(s[p + |sep|..], sep)[..k - 1], sep))
    ensures StartsWith(s, Join(Split(s, sep)[..k], sep))
  {
    var rest := s[p + |sep|..];
    var pieces := Split(s, sep);
    SplitFirst(s, sep, p);
    if k == 1 {
      assert pieces[..k] == [s[..p]];
    } else {
      var tail := Split(rest, sep)[..k - 1];
      assert pieces[..k] == [s[..p]] + tail;
      JoinCons(s[..p], tail, sep);
      StartsWithPrepend(s[..p] + sep, rest, Join(tail, sep));
    }
  }

  /** Where the first separator is found, the string and its split both break in two. */
  lemma SplitFirst(s: string, sep: string, p: nat)
    requires |sep| > 0 && FindFrom(s, sep, 0) == Some(p)
    ensures Split(s, sep) == [s[..p]] + Split(s[p + |sep|..], sep)
    ensures s == s[..p] + sep + s[p + |sep|..]
  {
    assert OccursAt(s, sep, p);
    assert s == s[..p] + s[p..p + |sep|] + s[p + |sep|..];
  }

  /** No piece of a split contains the separator. */
  lemma {:induction false} SplitPiecesFree(s: string, sep: string)
    requires |sep| > 0
    ensures forall k :: 0 <= k < |Split(s, sep)| ==> !Contains(Split(s, sep)[k], sep)
    decreases |s|
  {
    match FindFrom(s, sep, 0)
    case None =>
    case Some(p) =>
      var rest := s[p + |sep|..];
      SplitPiecesFree(rest, sep);
      var head := s[..p];
      if Contains(head, sep) {
        var j := FindFrom(head, sep, 0).value;
        OccursInSlice(s, sep, 0, p, j);
        assert false;
      }
  }

  /** A string without `t` splits into pieces without `t`. */
  lemma {:induction false} SplitPiecesAvoid(s: string, sep: string, t: string)
    requires |sep| > 0 && !Contains(s, t)
    ensures forall k :: 0 <= k < |Split(s, sep)| ==> !Contains(Split(s, sep)[k], t)
    decreases |s|
  {
    match FindFrom(s, sep, 0)
    case None =>
    case Some(p) =>
      NotContainsSlice(s, t, 0, p);
      NotContainsSlice(s, t, p + |sep|, |s|);
      assert s[0..p] == s[..p];
      assert s[p + |sep|..|s|] == s[p + |sep|..];
      SplitPiecesAvoid(s[p + |sep|..], sep, t);
  }

  /** A string in which a character never occurs does not contain it. */
  lemma AbsentChar(s: string, c: char)
    requires forall k :: 0 <= k < |s| ==> s[k] != c
    ensures !Contains(s, [c])
  {
    ContainsIff(s, [c]);
    forall i: nat
      ensures !OccursAt(s, [c], i)
    {
      if i + 1 <= |s| {
        assert s[i..i + 1][0] == s[i];
      }
    }
  }

  /** A string that does not contain a character has it at no index. */
  lemma NotContainsChar(s: string, c: char)
    requires !Contains(s, [c])
    ensures forall k :: 0 <= k < |s| ==> s[k] != c
  {
    ContainsIff(s, [c]);
    forall k | 0 <= k < |s|
      ensures s[k] != c
    {
      assert !OccursAt(s, [c], k);
      assert s[k..k + 1][0] == s[k];
    }
  }

  /** The first index holding `c` is where `find` stops. */
  lemma FindFirstChar(s: string, c: char, k: nat)
    requires k < |s| && s[k] == c
    requires forall j :: 0 <= j < k ==> s[j] != c
    ensures FindFrom(s, [c], 0) == Some(k)
  {
    assert OccursAt(s, [c], k);
  }

  /** Splitting a join of parts free of a one-character separator gives the parts back. */
  lemma {:induction false} SplitJoinChar(parts: seq<string>, c: char)
    requires |parts| >= 1
    requires forall i, k :: 0 <= i < |parts| && 0 <= k < |parts[i]| ==> parts[i][k] != c
    ensures Split(Join(parts, [c]), [c]) == parts
    decreases |parts|
  {
    var p := parts[0];
    if |parts| == 1 {
      AbsentChar(p, c);
      SplitNoSep(p, [c]);
    } else {
      var rest := parts[1..];
      assert Join(parts, [c]) == p + [c] + Join(rest, [c]);
      SplitAtChar(p, c, Join(rest, [c]));
      SplitJoinChar(rest, c);
      assert parts == [p] + rest;
    }
  }

  /** The first piece of a split ends at the first occurrence of a one-character separator. */
  lemma SplitAtChar(p: string, c: char, t: string)
    requires forall k :: 0 <= k < |p| ==> p[k] != c
    ensures Split(p + [c] + t, [c]) == [p] + Split(t, [c])
  {
    var s := p + [c] + t;
    assert s[|p|] == c;
    assert forall j :: 0 <= j < |p| ==> s[j] == p[j];
    FindFirstChar(s, c, |p|);
    assert s[..|p|] == p;
    assert s[|p| + 1..] == t;
  }

  /** Splitting a string that does not contain the separator gives the string alone. */
  lemma SplitNoSep(s: string, sep: string)
    requires |sep| > 0 && !Contains(s, sep)
    ensures Split(s, sep) == [s]
  {
  }

  /** The end of the run of whitespace starting at `i` (what a greedy `\s*` consumes). */
  function SpaceRunEnd(s: string, i: nat): (k: nat)
    requires i <= |s|
    ensures i <= k <= |s| && (k == |s| || !IsSpace(s[k]))
    ensures forall m :: i <= m < k ==> IsSpace(s[m])
    decreases |s| - i
  {
    if i == |s| || !IsSpace(s[i]) then i else SpaceRunEnd(s, i + 1)
  }

  /** The end of the run of ASCII digits starting at `i` (what a greedy `\d*` consumes). */
  function DigitRunEnd(s: string, i: nat): (k: nat)
    requires i <= |s|
    ensures i <= k <= |s| && (k == |s| || !IsDigit(s[k]))
    ensures forall m :: i <= m < k ==> IsDigit(s[m])
    decreases |s| - i
  {
    if i == |s| || !IsDigit(s[i]) then i else DigitRunEnd(s, i + 1)
  }

  /** The end of the run of copies of `c` starting at `i`. */
  function CharRunEnd(s: string, i: nat, c: char): (k: nat)
    requires i <= |s|
    ensures i <= k <= |s| && (k == |s| || s[k] != c)
    ensures forall m :: i <= m < k ==> s[m] == c
    decreases |s| - i
  {
    if i == |s| || s[i] != c then i else CharRunEnd(s, i + 1, c)
  }

  /** `s.lstrip()`: index of the first non-whitespace character. */
  function StripStart(s: string): (k: nat)
    ensures k <= |s|
    ensures forall i :: 0 <= i < k ==> IsSpace(s[i])
    ensures k < |s| ==> !IsSpace(s[k])
    decreases |s|
  {
    if s == [] || !IsSpace(s[0]) then 0 else 1 + StripStart(s[1..])
  }

  /** `s.rstrip()` applied to `s[lo..]`: one past the last non-whitespace character. */
  function StripEnd(s: string, lo: nat): (k: nat)
    requires lo <= |s|
    ensures lo <= k <= |s|
    ensures forall i :: k <= i < |s| ==> IsSpace(s[i])
    ensures k > lo ==> !IsSpace(s[k - 1])
    decreases |s|
  {
    if |s| == lo || !IsSpace(s[|s| - 1]) then |s| else StripEnd(s[..|s| - 1], lo)
  }

  /** `s.strip()`: the string without leading and trailing whitespace. */
  function Strip(s: string): (r: string)
    ensures r == s[StripStart(s)..StripEnd(s, StripStart(s))]
    ensures r == [] || (!IsSpace(r[0]) && !IsSpace(r[|r| - 1]))
    ensures r == [] <==> IsBlank(s)
  {
    var a := StripStart(s);
    var b := StripEnd(s, a);
    if a == |s| then assert IsBlank(s); s[a..b]
    else
      assert !IsSpace(s[a]) && a < b;
      s[a..b]
  }

  /** `s.rstrip()`. */
  function RStrip(s: string): (r: string)
    ensures r == s[..StripEnd(s, 0)]
  {
    s[..StripEnd(s, 0)]
  }

  /** ASCII part of `str.lower()`. */
  function LowerChar(c: char): char
  {
    if 'A' <= c <= 'Z' then (c as int - 'A' as int + 'a' as int) as char else c
  }

  function Lower(s: string): (r: string)
    ensures |r| == |s| && forall i :: 0 <= i < |s| ==> r[i] == LowerChar(s[i])
  {
    seq(|s|, i requires 0 <= i < |s| => LowerChar(s[i]))
  }

  predicate IsDigit(c: char)
  {
    '0' <= c <= '9'
  }

  function DigitChar(d: nat): (c: char)
    requires d < 10
    ensures IsDigit(c)
  {
    ('0' as int + d) as char
  }

  /** `str(n)` for a natural number: its decimal digits without leading zeros. */
  function NatToString(n: nat): (r: string)
    ensures |r| >= 1
    ensures forall i :: 0 <= i < |r| ==> IsDigit(r[i])
    ensures (|r| == 1) <==> (n < 10)
  {
    if n < 10 then [DigitChar(n)] else NatToString(n / 10) + [DigitChar(n % 10)]
  }

  /** Different numbers print differently, so `str(n)` can serve as an identifier. */
  lemma {:induction false} NatToStringInjective(a: nat, b: nat)
    requires NatToString(a) == NatToString(b)
    ensures a == b
  {
    if a >= 10 && b >= 10 {
      var sa, sb := NatToString(a), NatToString(b);
      assert sa[|sa| - 1] == sb[|sb| - 1];
      assert DigitChar(a % 10) == DigitChar(b % 10);
      assert sa[..|sa| - 1] == NatToString(a / 10);
      assert sb[..|sb| - 1] == NatToString(b / 10);
      NatToStringInjective(a / 10, b / 10);
    }
  }

  /** The concatenation of a sequence of strings, as `"".join(parts)` or repeated `+=`. */
  function Concat(parts: seq<string>): string
  {
    if parts == [] then "" else Concat(parts[..|parts| - 1]) + parts[|parts| - 1]
  }

  lemma ConcatSnoc(parts: seq<string>, p: string)
    ensures Concat(parts + [p]) == Concat(parts) + p
  {
    assert (parts + [p])[..|parts|] == parts;
  }

  lemma {:induction false} ConcatAppend(a: seq<string>, b: seq<string>)
    ensures Concat(a + b) == Concat(a) + Concat(b)
    decreases |b|
  {
    if b == [] {
      assert a + b == a;
    } else {
      var init, last := b[..|b| - 1], b[|b| - 1];
      ConcatAppend(a, init);
      assert a + b == (a + init) + [last];
      ConcatSnoc(a + init, last);
      assert b == init + [last];
      ConcatSnoc(init, last);
      calc {
        Concat(a + b);
        Concat(a + init) + last;
        (Concat(a) + Concat(init)) + last;
        Concat(a) + (Concat(init) + last);
        Concat(a) + Concat(b);
      }
    }
  }
}
