/**
 * The string primitives of JavaScript that the generators rely on: `indexOf`,
 * `includes`, `lastIndexOf`, `split` on one character, `Array.prototype.join`,
 * the decimal rendering of an integer (`String(n)` and template literals) and
 * the default `Array.prototype.sort` order.
 */
module Strings {

  /** `pat` occurs in `s` starting at index `i`. */
  predicate OccursAt<T(==)>(s: seq<T>, pat: seq<T>, i: int) {
    0 <= i && i + |pat| <= |s| && s[i..i + |pat|] == pat
  }

  /**
   * `s.indexOf(pat, from)`: the first index at or after `from` where `pat`
   * starts, or -1.
   */
  function IndexOf<T(==)>(s: seq<T>, pat: seq<T>, from: nat): (r: int)
    ensures r == -1 || (from <= r && OccursAt(s, pat, r))
    ensures r == -1 ==> forall i :: from <= i ==> !OccursAt(s, pat, i)
    ensures r >= 0 ==> forall i :: from <= i < r ==> !OccursAt(s, pat, i)
    decreases |s| - from
  {
    if from + |pat| > |s| then -1
    else if s[from..from + |pat|] == pat then from
    else IndexOf(s, pat, from + 1)
  }

  /** `pat` occurs in `s` at `from` or after it: the search `indexOf` does, as a test. */
  predicate OccursFrom<T(==)>(s: seq<T>, pat: seq<T>, from: nat)
    decreases |s| - from
  {
    from + |pat| <= |s| && (s[from..from + |pat|] == pat || OccursFrom(s, pat, from + 1))
  }

  /** `s.includes(pat)`, which is `s.indexOf(pat) >= 0`. */
  predicate Includes<T(==)>(s: seq<T>, pat: seq<T>) {
    OccursFrom(s, pat, 0)
  }

  /** The search finds exactly the occurrences at or after `from`, as `indexOf` does. */
  lemma {:induction false} OccursFromIff<T>(s: seq<T>, pat: seq<T>, from: nat)
    ensures OccursFrom(s, pat, from) <==> exists i :: from <= i && OccursAt(s, pat, i)
    ensures OccursFrom(s, pat, from) <==> IndexOf(s, pat, from) >= 0
    decreases |s| - from
  {
    if from + |pat| <= |s| {
      OccursFromIff(s, pat, from + 1);
      if s[from..from + |pat|] == pat {
        assert OccursAt(s, pat, from);
      }
      if exists i :: from <= i && OccursAt(s, pat, i) {
        var i :| from <= i && OccursAt(s, pat, i);
        if i > from {
          assert from + 1 <= i;
        }
      }
    } else {
      assert forall i :: from <= i ==> !OccursAt(s, pat, i);
    }
  }

  /** `includes` holds exactly when the pattern occurs somewhere. */
  lemma IncludesIff<T>(s: seq<T>, pat: seq<T>)
    ensures Includes(s, pat) <==> exists i :: OccursAt(s, pat, i)
  {
    OccursFromIff(s, pat, 0);
  }

  lemma OccursAtChar(s: string, c: char, i: int)
    ensures OccursAt(s, [c], i) <==> 0 <= i < |s| && s[i] == c
  {
    if 0 <= i < |s| {
      assert s[i..i + 1] == [s[i]];
    }
  }

  /** `s.indexOf(c, from)` for a one-character string: the first index at or after `from` holding `c`, or -1. */
  function IndexOfChar(s: string, c: char, from: nat): (r: int)
    ensures r == -1 || (from <= r < |s| && s[r] == c)
    ensures forall i :: from <= i < |s| && (r == -1 || i < r) ==> s[i] != c
    decreases |s| - from
  {
    if from >= |s| then -1
    else if s[from] == c then from
    else IndexOfChar(s, c, from + 1)
  }

  /** The character search is `indexOf` with the one-character pattern. */
  lemma {:induction false} IndexOfCharAgrees(s: string, c: char, from: nat)
    ensures IndexOfChar(s, c, from) == IndexOf(s, [c], from)
    decreases |s| - from
  {
    if from < |s| {
      OccursAtChar(s, c, from);
      assert s[from..from + 1] == [s[from]];
      if s[from] != c {
        IndexOfCharAgrees(s, c, from + 1);
      }
    }
  }

  /** `s.lastIndexOf(c)` for a single character: the last index holding `c`, or -1. */
  function LastIndexOf(s: string, c: char): (r: int)
    ensures -1 <= r < |s|
    ensures r >= 0 ==> s[r] == c
    ensures forall i :: r < i < |s| ==> s[i] != c
  {
    if |s| == 0 then -1
    else if s[|s| - 1] == c then |s| - 1
    else LastIndexOf(s[..|s| - 1], c)
  }

  predicate StartsWith(s: string, prefix: string) {
    |prefix| <= |s| && s[..|prefix|] == prefix
  }

  predicate EndsWith(s: string, suffix: string) {
    |suffix| <= |s| && s[|s| - |suffix|..] == suffix
  }

  lemma Framed(prefix: string, middle: string, suffix: string)
    ensures StartsWith(prefix + middle + suffix, prefix)
    ensures EndsWith(prefix + middle + suffix, suffix)
  {
    var s := prefix + middle + suffix;
    assert s[..|prefix|] == prefix;
    assert s[|s| - |suffix|..] == suffix;
  }

  lemma IncludesMiddle<T>(prefix: seq<T>, middle: seq<T>, suffix: seq<T>)
    ensures Includes(prefix + middle + suffix, middle)
  {
    var s := prefix + middle + suffix;
    assert s[|prefix|..|prefix| + |middle|] == middle;
    assert OccursAt(s, middle, |prefix|);
    IncludesIff(s, middle);
  }

  /** Appending is associative. */
  lemma AppendAssoc<T>(a: seq<T>, b: seq<T>, c: seq<T>)
    ensures (a + b) + c == a + (b + c)
  {
  }

  /** A concatenation starts with its left side and ends with its right side. */
  lemma Concatenated(a: string, b: string)
    ensures StartsWith(a + b, a) && EndsWith(a + b, b)
  {
    assert (a + b)[..|a|] == a;
    assert (a + b)[|a + b| - |b|..] == b;
  }

  /** A prefix stays a prefix when text is appended. */
  lemma StartsWithAppend(s: string, prefix: string, t: string)
    requires StartsWith(s, prefix)
    ensures StartsWith(s + t, prefix)
  {
    assert (s + t)[..|prefix|] == s[..|prefix|];
  }

  /** A suffix stays a suffix when text is prepended. */
  lemma EndsWithPrepend(s: string, suffix: string, t: string)
    requires EndsWith(s, suffix)
    ensures EndsWith(t + s, suffix)
  {
    var u := t + s;
    assert u[|u| - |suffix|..] == s[|s| - |suffix|..];
  }

  /** Appending the same text to a string and to its suffix keeps the suffix. */
  lemma EndsWithAppend(s: string, suffix: string, t: string)
    requires EndsWith(s, suffix)
    ensures EndsWith(s + t, suffix + t)
  {
    var u := s + t;
    assert u[|u| - |suffix + t|..] == s[|s| - |suffix|..] + t;
  }

  /** An occurrence survives text added on either side. */
  lemma IncludesExtend<T>(s: seq<T>, pat: seq<T>, t: seq<T>)
    requires Includes(s, pat)
    ensures Includes(s + t, pat) && Includes(t + s, pat)
  {
    IncludesIff(s, pat);
    var i :| OccursAt(s, pat, i);
    assert (s + t)[i..i + |pat|] == s[i..i + |pat|];
    assert OccursAt(s + t, pat, i);
    assert (t + s)[|t| + i..|t| + i + |pat|] == s[i..i + |pat|];
    assert OccursAt(t + s, pat, |t| + i);
    IncludesIff(s + t, pat);
    IncludesIff(t + s, pat);
  }

  /** What occurs in a prefix occurs in the whole string. */
  lemma IncludesPrefix(s: string, prefix: string, pat: string)
    requires StartsWith(s, prefix) && Includes(prefix, pat)
    ensures Includes(s, pat)
  {
    assert s == prefix + s[|prefix|..];
    IncludesExtend(prefix, pat, s[|prefix|..]);
  }

  /** Each side of a concatenation occurs in it. */
  lemma IncludesParts<T>(a: seq<T>, b: seq<T>)
    ensures Includes(a + b, a) && Includes(a + b, b)
  {
    assert (a + b)[..|a|] == a;
    assert OccursAt(a + b, a, 0);
    assert (a + b)[|a|..|a| + |b|] == b;
    assert OccursAt(a + b, b, |a|);
    IncludesIff(a + b, a);
    IncludesIff(a + b, b);
  }

  /** An upper-case ASCII letter, the class `[A-Z]` of a regular expression. */
  predicate IsUpper(c: char) {
    'A' <= c <= 'Z'
  }

  // ---------------------------------------------------------------------------
  // Decimal rendering of integers.

  function DigitChar(d: nat): (c: char)
    requires d < 10
    ensures '0' <= c <= '9' && c as int - '0' as int == d
  {
    "0123456789"[d]
  }

  /** The decimal digits of `n`, most significant first, as `String(n)` writes them. */
  function NatToString(n: nat): (r: string)
    ensures |r| >= 1
    ensures forall i :: 0 <= i < |r| ==> '0' <= r[i] <= '9'
    decreases n
  {
    if n < 10 then [DigitChar(n)] else NatToString(n / 10) + [DigitChar(n % 10)]
  }

  /** `String(i)` for an integer `i`. */
  function IntToString(i: int): string {
    if i < 0 then "-" + NatToString(-i) else NatToString(i)
  }

  /** The value of a non-empty string of decimal digits: the inverse of `NatToString`. */
  function DigitsValue(s: string): int
    decreases |s|
  {
    if |s| == 0 then 0 else DigitsValue(s[..|s| - 1]) * 10 + (s[|s| - 1] as int - '0' as int)
  }

  lemma {:induction false} DigitsValueOfNatToString(n: nat)
    ensures DigitsValue(NatToString(n)) == n
    decreases n
  {
    var r := NatToString(n);
    if n >= 10 {
      DigitsValueOfNatToString(n / 10);
      assert r[..|r| - 1] == NatToString(n / 10);
    }
  }

  /** Distinct numbers have distinct decimal renderings. */
  lemma NatToStringInjective(m: nat, n: nat)
    requires NatToString(m) == NatToString(n)
    ensures m == n
  {
    DigitsValueOfNatToString(m);
    DigitsValueOfNatToString(n);
  }

  function Pow10(k: nat): (p: nat)
    ensures p >= 1
  {
    if k == 0 then 1 else 10 * Pow10(k - 1)
  }

  /** A number of at least `10^k` needs more than `k` digits. */
  lemma {:induction false} NatToStringLonger(n: nat, k: nat)
    requires n >= Pow10(k)
    ensures |NatToString(n)| > k
    decreases k
  {
    if k > 0 {
      assert n / 10 >= Pow10(k - 1);
      NatToStringLonger(n / 10, k - 1);
    }
  }

  /** A number written with at most `k` digits is below `10^k`. */
  lemma NatToStringShort(n: nat, k: nat)
    ensures |NatToString(n)| <= k ==> n < Pow10(k)
  {
    if n >= Pow10(k) {
      NatToStringLonger(n, k);
    }
  }

  // ---------------------------------------------------------------------------
  // Joining and splitting.

  /** `parts.join(sep)`. */
  function Join(parts: seq<string>, sep: string): string
    decreases |parts|
  {
    if |parts| == 0 then ""
    else if |parts| == 1 then parts[0]
    else parts[0] + sep + Join(parts[1..], sep)
  }

  lemma {:induction false} JoinAppend(parts: seq<string>, last: string, sep: string)
    requires |parts| >= 1
    ensures Join(parts + [last], sep) == Join(parts, sep) + sep + last
    decreases |parts|
  {
    if |parts| == 1 {
      assert (parts + [last])[1..] == [last];
    } else {
      assert (parts + [last])[1..] == parts[1..] + [last];
      JoinAppend(parts[1..], last, sep);
    }
  }

  lemma {:induction false} JoinConcat(a: seq<string>, b: seq<string>, sep: string)
    requires |a| >= 1 && |b| >= 1
    ensures Join(a + b, sep) == Join(a, sep) + sep + Join(b, sep)
    decreases |a|
  {
    if |a| == 1 {
      assert (a + b)[1..] == b;
    } else {
      assert (a + b)[1..] == a[1..] + b;
      JoinConcat(a[1..], b, sep);
    }
  }

  /** Splitting at one separator splits the two sides independently. */
  lemma SplitOnConcat(a: string, b: string, c: char)
    ensures SplitOn(a + [c] + b, c) == SplitOn(a, c) + SplitOn(b, c)
  {
    var A, B := SplitOn(a, c), SplitOn(b, c);
    JoinSplitOn(a, c);
    JoinSplitOn(b, c);
    JoinConcat(A, B, [c]);
    assert forall i :: 0 <= i < |A + B| ==> c !in (A + B)[i] by {
      forall i | 0 <= i < |A + B| ensures c !in (A + B)[i] {
        if i >= |A| {
          assert (A + B)[i] == B[i - |A|];
        }
      }
    }
    SplitOnJoin(A + B, c);
  }

  /** `s.split(c)` for a one-character separator: the pieces between occurrences of `c`. */
  function SplitOn(s: string, c: char): (r: seq<string>)
    ensures |r| >= 1
    ensures forall i :: 0 <= i < |r| ==> c !in r[i]
    decreases |s|
  {
    if |s| == 0 then [""]
    else
      var rest := SplitOn(s[1..], c);
      if s[0] == c then [""] + rest else [[s[0]] + rest[0]] + rest[1..]
  }

  /** Joining the pieces of a split with the separator gives the string back. */
  lemma {:induction false} JoinSplitOn(s: string, c: char)
    ensures Join(SplitOn(s, c), [c]) == s
    decreases |s|
  {
    if |s| > 0 {
      var rest := SplitOn(s[1..], c);
      JoinSplitOn(s[1..], c);
      if s[0] == c {
        assert ([""] + rest)[1..] == rest;
      } else {
        var r := [[s[0]] + rest[0]] + rest[1..];
        if |rest| == 1 {
          assert r == [[s[0]] + rest[0]];
        } else {
          assert r[1..] == rest[1..];
          assert Join(rest, [c]) == rest[0] + [c] + Join(rest[1..], [c]);
        }
      }
    }
  }

  /** Splitting a join of separator-free pieces gives the pieces back. */
  lemma {:induction false} SplitOnJoin(parts: seq<string>, c: char)
    requires |parts| >= 1
    requires forall i :: 0 <= i < |parts| ==> c !in parts[i]
    ensures SplitOn(Join(parts, [c]), c) == parts
    decreases |parts|, |parts[0]|
  {
    var p := parts[0];
    if |p| == 0 {
      if |parts| > 1 {
        var s := Join(parts, [c]);
        assert s == [c] + Join(parts[1..], [c]);
        assert s[1..] == Join(parts[1..], [c]);
        SplitOnJoin(parts[1..], c);
      }
    } else {
      var parts' := [p[1..]] + parts[1..];
      var s := Join(parts, [c]);
      var s' := Join(parts', [c]);
      if |parts| == 1 {
        assert s[1..] == s';
      } else {
        assert parts'[1..] == parts[1..];
        assert s == p + [c] + Join(parts[1..], [c]);
        assert s[1..] == s';
      }
      assert s[0] == p[0];
      assert p[0] != c;
      SplitOnJoin(parts', c);
      assert [p[0]] + p[1..] == p;
    }
  }

  // ---------------------------------------------------------------------------
  // The `(^|\/)internal(\/|$)` test used to recognise internal folders.

  /**
   * `/(^|\/)internal(\/|$)/.test(s)`: "internal" occurs at a position that
   * starts the string or follows a `/`, and ends the string or precedes a `/`.
   */
  predicate HasInternalSegment(s: string) {
    exists i | 0 <= i <= |s| :: InternalAt(s, i)
  }

  predicate InternalAt(s: string, i: int) {
    0 <= i && i + 8 <= |s| && s[i..i + 8] == "internal"
    && (i == 0 || s[i - 1] == '/') && (i + 8 == |s| || s[i + 8] == '/')
  }

  /** The regular expression matches exactly when one `/`-separated segment is "internal". */
  lemma {:induction false} HasInternalSegmentIffSegment(s: string)
    ensures HasInternalSegment(s) <==> "internal" in SplitOn(s, '/')
    decreases |s|
  {
    var parts := SplitOn(s, '/');
    var k := IndexOf(s, "/", 0);
    if k < 0 {
      // No separator at all: the only segment is s itself.
      forall i | 0 <= i < |s| ensures s[i] != '/' {
        OccursAtChar(s, '/', i);
      }
      NoSeparatorSplit(s, '/');
      assert parts == [s];
      if HasInternalSegment(s) {
        var i :| 0 <= i <= |s| && InternalAt(s, i);
        assert i == 0 && i + 8 == |s|;
        assert s == "internal";
      }
      if s == "internal" {
        assert InternalAt(s, 0);
      }
    } else {
      OccursAtChar(s, '/', k);
      forall i | 0 <= i < k ensures s[i] != '/' {
        OccursAtChar(s, '/', i);
      }
      FirstSegmentSplit(s, k, '/');
      var tail := SplitOn(s[k + 1..], '/');
      assert parts == [s[..k]] + tail;
      HasInternalSegmentTail(s, k);
      HasInternalSegmentIffSegment(s[k + 1..]);
      if HasInternalSegment(s) {
        var i :| 0 <= i <= |s| && InternalAt(s, i);
        if i == 0 {
          // "internal" holds no separator, so the first one is right after it.
          assert forall j :: 0 <= j < 8 ==> s[j] == s[0..8][j];
          assert k == 8;
          assert s[..k] == s[0..8];
        } else {
          assert s[i - 1] == '/';
          assert i > k;
          assert "internal" in tail;
        }
      }
      if "internal" in parts {
        if s[..k] == "internal" {
          assert InternalAt(s, 0);
        } else {
          assert "internal" in tail;
        }
      }
    }
  }

  /** A string without the separator splits into itself. */
  lemma {:induction false} NoSeparatorSplit(s: string, c: char)
    requires forall i :: 0 <= i < |s| ==> s[i] != c
    ensures SplitOn(s, c) == [s]
    decreases |s|
  {
    if |s| > 0 {
      NoSeparatorSplit(s[1..], c);
      assert [s[0]] + s[1..] == s;
    }
  }

  /** The first segment is everything before the first separator. */
  lemma {:induction false} FirstSegmentSplit(s: string, k: nat, c: char)
    requires k < |s| && s[k] == c
    requires forall i :: 0 <= i < k ==> s[i] != c
    ensures SplitOn(s, c) == [s[..k]] + SplitOn(s[k + 1..], c)
    decreases k
  {
    if k > 0 {
      FirstSegmentSplit(s[1..], k - 1, c);
      assert s[1..][k - 1 + 1..] == s[k + 1..];
      assert [s[0]] + s[1..][..k - 1] == s[..k];
    } else {
      assert s[1..] == s[k + 1..];
    }
  }

  /** After the first separator, the internal test reduces to the rest of the string. */
  lemma HasInternalSegmentTail(s: string, k: nat)
    requires k < |s| && s[k] == '/'
    requires forall i :: 0 <= i < k ==> s[i] != '/'
    ensures (exists i :: k < i && InternalAt(s, i)) <==> HasInternalSegment(s[k + 1..])
  {
    var t := s[k + 1..];
    if exists i :: k < i && InternalAt(s, i) {
      var i :| k < i <= |s| && InternalAt(s, i);
      assert InternalAt(t, i - k - 1) by {
        assert t[i - k - 1..i - k - 1 + 8] == s[i..i + 8];
        assert i - k - 1 == 0 || t[i - k - 2] == s[i - 1];
        assert i + 8 == |s| || t[i - k - 1 + 8] == s[i + 8];
      }
    }
    if HasInternalSegment(t) {
      var j :| 0 <= j <= |t| && InternalAt(t, j);
      assert InternalAt(s, j + k + 1) by {
        assert s[j + k + 1..j + k + 1 + 8] == t[j..j + 8];
        assert j == 0 || s[j + k] == t[j - 1];
        assert j + 8 == |t| || s[j + k + 9] == t[j + 8];
      }
    }
  }

  // ---------------------------------------------------------------------------
  // The default order of `Array.prototype.sort` on strings: JavaScript
  // compares strings by their UTF-16 code units, so a character above U+FFFF
  // (a surrogate pair starting at 0xD800) sorts before U+E000..U+FFFF.

  /** The UTF-16 code units of one character: itself below 0x10000, otherwise a surrogate pair. */
  function Utf16Char(c: char): (units: seq<int>)
    ensures 1 <= |units| <= 2
    ensures |units| == 2 <==> 0xD800 <= units[0] < 0xDC00
  {
    var n := c as int;
    if n < 0x10000 then [n] else [0xD800 + (n - 0x10000) / 0x400, 0xDC00 + (n - 0x10000) % 0x400]
  }

  /** The UTF-16 code units of a string, the sequence JavaScript stores. */
  function Utf16(s: string): seq<int>
    decreases |s|
  {
    if |s| == 0 then [] else Utf16Char(s[0]) + Utf16(s[1..])
  }

  /** `a` sorts strictly before `b`: the first differing code unit is smaller, or `a` is a proper prefix of `b`. */
  predicate UnitsLess(a: seq<int>, b: seq<int>)
    decreases |a|
  {
    if |a| == 0 then |b| > 0
    else if |b| == 0 then false
    else if a[0] != b[0] then a[0] < b[0]
    else UnitsLess(a[1..], b[1..])
  }

  /** `a` sorts strictly before `b` under the default `sort()`. */
  predicate LexLess(a: string, b: string) {
    UnitsLess(Utf16(a), Utf16(b))
  }

  /** The units of a concatenation are the units of its parts. */
  lemma {:induction false} Utf16Append(a: string, b: string)
    ensures Utf16(a + b) == Utf16(a) + Utf16(b)
    decreases |a|
  {
    if |a| > 0 {
      assert (a + b)[0] == a[0] && (a + b)[1..] == a[1..] + b;
      Utf16Append(a[1..], b);
      AppendAssoc(Utf16Char(a[0]), Utf16(a[1..]), Utf16(b));
    } else {
      assert a + b == b;
    }
  }

  lemma Utf16CharInjective(c: char, d: char)
    requires Utf16Char(c) == Utf16Char(d)
    ensures c == d
  {
    var n, m := c as int, d as int;
    if n >= 0x10000 {
      assert (n - 0x10000) / 0x400 == (m - 0x10000) / 0x400 && (n - 0x10000) % 0x400 == (m - 0x10000) % 0x400;
      assert n == 0x10000 + (n - 0x10000) / 0x400 * 0x400 + (n - 0x10000) % 0x400;
      assert m == 0x10000 + (m - 0x10000) / 0x400 * 0x400 + (m - 0x10000) % 0x400;
    }
  }

  /** The code units determine the string: no two strings share them. */
  lemma {:induction false} Utf16Injective(a: string, b: string)
    requires Utf16(a) == Utf16(b)
    ensures a == b
    decreases |a|
  {
    if |a| > 0 && |b| > 0 {
      var u, v := Utf16Char(a[0]), Utf16Char(b[0]);
      var w := Utf16(a);
      assert w == u + Utf16(a[1..]) && w == v + Utf16(b[1..]);
      assert u[0] == w[0] == v[0];
      assert |u| == |v|;
      assert u == w[..|u|] == v;
      Utf16CharInjective(a[0], b[0]);
      assert Utf16(a[1..]) == w[|u|..] == Utf16(b[1..]);
      Utf16Injective(a[1..], b[1..]);
      assert a == [a[0]] + a[1..] && b == [b[0]] + b[1..];
    }
  }

  lemma {:induction false} UnitsLessIrreflexive(a: seq<int>)
    ensures !UnitsLess(a, a)
    decreases |a|
  {
    if |a| > 0 {
      UnitsLessIrreflexive(a[1..]);
    }
  }

  lemma {:induction false} UnitsLessTotal(a: seq<int>, b: seq<int>)
    ensures a == b || UnitsLess(a, b) || UnitsLess(b, a)
    decreases |a|
  {
    if |a| > 0 && |b| > 0 && a[0] == b[0] {
      UnitsLessTotal(a[1..], b[1..]);
      if a[1..] == b[1..] {
        assert a == [a[0]] + a[1..] && b == [b[0]] + b[1..];
      }
    }
  }

  lemma {:induction false} UnitsLessTransitive(a: seq<int>, b: seq<int>, c: seq<int>)
    requires UnitsLess(a, b) && UnitsLess(b, c)
    ensures UnitsLess(a, c)
    decreases |a|
  {
    if |a| > 0 && |b| > 0 && |c| > 0 && a[0] == b[0] && b[0] == c[0] {
      UnitsLessTransitive(a[1..], b[1..], c[1..]);
    }
  }

  lemma {:induction false} UnitsLessAsymmetric(a: seq<int>, b: seq<int>)
    requires UnitsLess(a, b)
    ensures !UnitsLess(b, a)
    decreases |a|
  {
    if |a| > 0 && |b| > 0 && a[0] == b[0] {
      UnitsLessAsymmetric(a[1..], b[1..]);
    }
  }

  /** A shared prefix does not change the order. */
  lemma {:induction false} UnitsLessPrefix(p: seq<int>, a: seq<int>, b: seq<int>)
    ensures UnitsLess(p + a, p + b) == UnitsLess(a, b)
    decreases |p|
  {
    if |p| > 0 {
      assert (p + a)[0] == p[0] == (p + b)[0];
      assert (p + a)[1..] == p[1..] + a && (p + b)[1..] == p[1..] + b;
      UnitsLessPrefix(p[1..], a, b);
    } else {
      assert p + a == a && p + b == b;
    }
  }

  lemma LexLessIrreflexive(a: string)
    ensures !LexLess(a, a)
  {
    UnitsLessIrreflexive(Utf16(a));
  }

  lemma LexLessTotal(a: string, b: string)
    ensures a == b || LexLess(a, b) || LexLess(b, a)
  {
    UnitsLessTotal(Utf16(a), Utf16(b));
    if Utf16(a) == Utf16(b) {
      Utf16Injective(a, b);
    }
  }

  lemma LexLessTransitive(a: string, b: string, c: string)
    requires LexLess(a, b) && LexLess(b, c)
    ensures LexLess(a, c)
  {
    UnitsLessTransitive(Utf16(a), Utf16(b), Utf16(c));
  }

  lemma LexLessAsymmetric(a: string, b: string)
    requires LexLess(a, b)
    ensures !LexLess(b, a)
  {
    UnitsLessAsymmetric(Utf16(a), Utf16(b));
  }

  /**
   * The order is not that of code points: U+1F600 is stored as the surrogate
   * pair 0xD83D 0xDE00 and so sorts before U+FF61.
   */
  lemma AstralSortsBeforeHalfwidth()
    ensures LexLess("\U{1F600}", "\U{FF61}") && "\U{1F600}"[0] > "\U{FF61}"[0]
  {
    assert Utf16("\U{1F600}") == Utf16Char('\U{1F600}');
    assert Utf16("\U{FF61}") == Utf16Char('\U{FF61}');
  }
}
