/**
 * The Python `str` operations the modelled code relies on, over `string`
 * (a sequence of Unicode scalar values, as a Python `str` is a sequence of
 * code points): prefix and suffix tests, `in`, `replace`, `split`, `join`,
 * `strip`, slicing, `sorted` on strings and `str(int)`.
 */
module Strings {

  datatype Option<+T> = None | Some(value: T)

  /** Growing a prefix of `s` by one element (stated on any element type, so that nothing about the elements is unfolded) */
  lemma SliceSnoc<T>(s: seq<T>, i: nat)
    requires i < |s|
    ensures s[..i + 1] == s[..i] + [s[i]]
  {
  }

  lemma SliceAll<T>(s: seq<T>)
    ensures s[..|s|] == s
  {
  }

  /** `s.startswith(prefix)` */
  predicate StartsWith(s: string, prefix: string) {
    prefix <= s
  }

  /** `s.endswith(suffix)` */
  predicate EndsWith(s: string, suffix: string) {
    |suffix| <= |s| && s[|s| - |suffix|..] == suffix
  }

  /** `sub` occurs in `s` starting at index `i`. */
  predicate OccursAt(s: string, sub: string, i: int) {
    0 <= i && i + |sub| <= |s| && s[i..i + |sub|] == sub
  }

  /** `sub in s` */
  predicate Contains(s: string, sub: string)
    decreases |s|
  {
    sub <= s || (s != [] && Contains(s[1..], sub))
  }

  /** `in` holds exactly when there is an index at which `sub` occurs. */
  lemma ContainsIffOccurs(s: string, sub: string)
    ensures Contains(s, sub) <==> exists i :: OccursAt(s, sub, i)
  {
    ContainsOccurs(s, sub);
    forall i | OccursAt(s, sub, i) ensures Contains(s, sub) {
      OccursContained(s, sub, i);
    }
  }

  lemma {:induction false} ContainsOccurs(s: string, sub: string)
    ensures Contains(s, sub) ==> exists i :: OccursAt(s, sub, i)
    decreases |s|
  {
    if sub <= s {
      assert OccursAt(s, sub, 0);
    } else if s != [] && Contains(s[1..], sub) {
      ContainsOccurs(s[1..], sub);
      var i :| OccursAt(s[1..], sub, i);
      assert s[i + 1..i + 1 + |sub|] == s[1..][i..i + |sub|];
      assert OccursAt(s, sub, i + 1);
    }
  }

  lemma {:induction false} OccursContained(s: string, sub: string, i: int)
    requires OccursAt(s, sub, i)
    ensures Contains(s, sub)
    decreases i
  {
    if i == 0 {
      assert sub <= s;
    } else {
      assert s[1..][i - 1..i - 1 + |sub|] == s[i..i + |sub|];
      OccursContained(s[1..], sub, i - 1);
    }
  }

  /** `s[:n]` for a non-negative `n` */
  function Take(s: string, n: nat): (r: string)
    ensures |r| == if n < |s| then n else |s|
    ensures r <= s
  {
    if n < |s| then s[..n] else s
  }

  // ----- str.replace(pat, rep) with a non-empty `pat` -----

  /**
   * `s.replace(pat, rep)`: scanning from the left, every occurrence of
   * `pat` that does not overlap an occurrence already replaced is
   * replaced by `rep`.
   */
  function ReplaceAll(s: string, pat: string, rep: string): string
    requires pat != []
    decreases |s|
  {
    if s == [] then []
    else if pat <= s then rep + ReplaceAll(s[|pat|..], pat, rep)
    else [s[0]] + ReplaceAll(s[1..], pat, rep)
  }

  /** `s.split(sep)` with a non-empty `sep` */
  function Split(s: string, sep: string): (parts: seq<string>)
    requires sep != []
    ensures |parts| >= 1
    decreases |s|
  {
    if s == [] then [[]]
    else if sep <= s then [[]] + Split(s[|sep|..], sep)
    else
      var rest := Split(s[1..], sep);
      [[s[0]] + rest[0]] + rest[1..]
  }

  /** `sep.join(parts)` */
  function Join(parts: seq<string>, sep: string): string
    decreases |parts|
  {
    if parts == [] then []
    else if |parts| == 1 then parts[0]
    else parts[0] + sep + Join(parts[1..], sep)
  }

  lemma {:induction false} JoinHeadCons(c: char, parts: seq<string>, sep: string)
    requires parts != []
    ensures Join([[c] + parts[0]] + parts[1..], sep) == [c] + Join(parts, sep)
  {
    var ps := [[c] + parts[0]] + parts[1..];
    assert ps[1..] == parts[1..];
  }

  lemma {:induction false} JoinCons(p: string, parts: seq<string>, sep: string)
    requires parts != []
    ensures Join([p] + parts, sep) == p + sep + Join(parts, sep)
  {
    assert ([p] + parts)[1..] == parts;
  }

  /** An occurrence in `s` is one in `pre + s`, shifted by the length of `pre`. */
  lemma OccursAfter(pre: string, s: string, sub: string, i: int)
    requires OccursAt(s, sub, i)
    ensures OccursAt(pre + s, sub, i + |pre|)
  {
    assert (pre + s)[i + |pre|..i + |pre| + |sub|] == s[i..i + |sub|];
  }

  /** Where part `i` of `sep.join(parts)` starts */
  function PartStart(parts: seq<string>, sep: string, i: nat): nat
    requires i < |parts|
  {
    if i == 0 then 0 else |parts[0]| + |sep| + PartStart(parts[1..], sep, i - 1)
  }

  /** Each part starts one separator after the end of the part before it. */
  lemma {:induction false} PartStartNext(parts: seq<string>, sep: string, i: nat)
    requires i + 1 < |parts|
    ensures PartStart(parts, sep, i + 1) == PartStart(parts, sep, i) + |parts[i]| + |sep|
    decreases i
  {
    if i > 0 {
      PartStartNext(parts[1..], sep, i - 1);
      assert parts[1..][i - 1] == parts[i];
    }
  }

  /** `sep.join(parts)` is the first part, then the separator and the join of the rest. */
  lemma JoinUnfold(parts: seq<string>, sep: string)
    requires |parts| > 1
    ensures Join(parts, sep) == (parts[0] + sep) + Join(parts[1..], sep)
  {
  }

  /** The first part and, when there is a second, the separator after it open the join. */
  lemma JoinFirstPart(parts: seq<string>, sep: string)
    requires parts != []
    ensures OccursAt(Join(parts, sep), parts[0], 0)
    ensures |parts| > 1 ==> OccursAt(Join(parts, sep), sep, |parts[0]|)
  {
    var j := Join(parts, sep);
    if |parts| > 1 {
      JoinUnfold(parts, sep);
      assert j[..|parts[0]|] == parts[0];
      assert j[|parts[0]|..|parts[0]| + |sep|] == sep;
    }
  }

  /** Part `i` of `sep.join(parts)` occurs where it starts. */
  lemma {:induction false} JoinPartOccurs(parts: seq<string>, sep: string, i: nat)
    requires i < |parts|
    ensures OccursAt(Join(parts, sep), parts[i], PartStart(parts, sep, i))
    decreases i
  {
    if i == 0 {
      JoinFirstPart(parts, sep);
    } else {
      JoinUnfold(parts, sep);
      JoinPartOccurs(parts[1..], sep, i - 1);
      assert parts[1..][i - 1] == parts[i];
      OccursAfter(parts[0] + sep, Join(parts[1..], sep), parts[i], PartStart(parts[1..], sep, i - 1));
    }
  }

  /** A separator follows every part but the last. */
  lemma {:induction false} JoinSepOccurs(parts: seq<string>, sep: string, i: nat)
    requires i + 1 < |parts|
    ensures OccursAt(Join(parts, sep), sep, PartStart(parts, sep, i) + |parts[i]|)
    decreases i
  {
    if i == 0 {
      JoinFirstPart(parts, sep);
    } else {
      JoinUnfold(parts, sep);
      JoinSepOccurs(parts[1..], sep, i - 1);
      assert parts[1..][i - 1] == parts[i];
      OccursAfter(parts[0] + sep, Join(parts[1..], sep), sep, PartStart(parts[1..], sep, i - 1) + |parts[i]|);
    }
  }

  /** The last part ends the join. */
  lemma {:induction false} JoinLastEnds(parts: seq<string>, sep: string)
    requires parts != []
    ensures PartStart(parts, sep, |parts| - 1) + |parts[|parts| - 1]| == |Join(parts, sep)|
    decreases |parts|
  {
    if |parts| > 1 {
      JoinUnfold(parts, sep);
      JoinLastEnds(parts[1..], sep);
      assert parts[1..][|parts| - 2] == parts[|parts| - 1];
    }
  }

  /**
   * The layout of a join: part `i` occurs at its start, a separator
   * follows every part but the last and the next part starts right after
   * it, and the last part ends the string.
   */
  lemma JoinPart(parts: seq<string>, sep: string, i: nat)
    requires i < |parts|
    ensures OccursAt(Join(parts, sep), parts[i], PartStart(parts, sep, i))
    ensures i + 1 < |parts| ==>
      && OccursAt(Join(parts, sep), sep, PartStart(parts, sep, i) + |parts[i]|)
      && PartStart(parts, sep, i + 1) == PartStart(parts, sep, i) + |parts[i]| + |sep|
    ensures i + 1 == |parts| ==> PartStart(parts, sep, i) + |parts[i]| == |Join(parts, sep)|
  {
    JoinPartOccurs(parts, sep, i);
    if i + 1 < |parts| {
      JoinSepOccurs(parts, sep, i);
      PartStartNext(parts, sep, i);
    } else {
      JoinLastEnds(parts, sep);
    }
  }

  /** Joining the pieces of a split with the separator gives the string back. */
  lemma JoinSplit(s: string, sep: string)
    requires sep != []
    ensures Join(Split(s, sep), sep) == s
  {
    ReplaceIsJoinOfSplit(s, sep, sep);
    ReplaceBySelf(s, sep);
  }

  /** A split of a string that starts with the separator begins with an empty piece. */
  lemma SplitAtSep(s: string, sep: string)
    requires sep != [] && s != [] && sep <= s
    ensures Split(s, sep) == [[]] + Split(s[|sep|..], sep)
  {
  }

  /** A split of a string that does not start with the separator puts its first character on the first piece. */
  lemma SplitAtChar(s: string, sep: string)
    requires sep != [] && s != [] && !(sep <= s)
    ensures var rest := Split(s[1..], sep); Split(s, sep) == [[s[0]] + rest[0]] + rest[1..]
  {
  }

  /** The first piece of a split is a prefix of the string. */
  lemma {:induction false} SplitHeadIsPrefix(s: string, sep: string)
    requires sep != []
    ensures Split(s, sep)[0] <= s
  {
    if s != [] && !(sep <= s) {
      SplitHeadIsPrefix(s[1..], sep);
    }
  }

  /** No piece of a split contains the separator. */
  lemma {:induction false} SplitPiecesAvoidSep(s: string, sep: string)
    requires sep != []
    ensures forall k :: 0 <= k < |Split(s, sep)| ==> !Contains(Split(s, sep)[k], sep)
  {
    var parts := Split(s, sep);
    if s == [] {
      assert parts == [[]];
      assert !Contains([], sep);
    } else if sep <= s {
      SplitPiecesAvoidSep(s[|sep|..], sep);
      assert !Contains([], sep);
      assert parts[1..] == Split(s[|sep|..], sep);
    } else {
      var rest := Split(s[1..], sep);
      SplitPiecesAvoidSep(s[1..], sep);
      SplitHeadIsPrefix(s[1..], sep);
      var head := [s[0]] + rest[0];
      assert head <= s;
      if sep <= head {
        assert false;
      }
      assert head[1..] == rest[0];
      assert !Contains(head, sep);
      forall k | 0 <= k < |parts| ensures !Contains(parts[k], sep) {
        if k > 0 {
          assert parts[k] == rest[k];
        }
      }
    }
  }

  /** A string in which the separator does not occur splits into itself. */
  lemma {:induction false} SplitWithoutSep(s: string, sep: string)
    requires sep != [] && !Contains(s, sep)
    ensures Split(s, sep) == [s]
  {
    if s != [] {
      SplitWithoutSep(s[1..], sep);
      assert [s[0]] + s[1..] == s;
    }
  }

  /** `s.replace(pat, rep)` is `rep.join(s.split(pat))`. */
  lemma {:induction false} ReplaceIsJoinOfSplit(s: string, pat: string, rep: string)
    requires pat != []
    ensures ReplaceAll(s, pat, rep) == Join(Split(s, pat), rep)
  {
    if s == [] {
    } else if pat <= s {
      ReplaceIsJoinOfSplit(s[|pat|..], pat, rep);
      ReplaceJoinAtSep(s, pat, rep);
    } else {
      ReplaceIsJoinOfSplit(s[1..], pat, rep);
      ReplaceJoinAtChar(s, pat, rep);
    }
  }

  lemma ReplaceJoinAtSep(s: string, pat: string, rep: string)
    requires pat != [] && s != [] && pat <= s
    requires ReplaceAll(s[|pat|..], pat, rep) == Join(Split(s[|pat|..], pat), rep)
    ensures ReplaceAll(s, pat, rep) == Join(Split(s, pat), rep)
  {
    SplitAtSep(s, pat);
    JoinCons([], Split(s[|pat|..], pat), rep);
  }

  lemma ReplaceJoinAtChar(s: string, pat: string, rep: string)
    requires pat != [] && s != [] && !(pat <= s)
    requires ReplaceAll(s[1..], pat, rep) == Join(Split(s[1..], pat), rep)
    ensures ReplaceAll(s, pat, rep) == Join(Split(s, pat), rep)
  {
    SplitAtChar(s, pat);
    JoinHeadCons(s[0], Split(s[1..], pat), rep);
  }

  /** Replacing a text that does not occur changes nothing. */
  lemma ReplaceAbsent(s: string, pat: string, rep: string)
    requires pat != [] && !Contains(s, pat)
    ensures ReplaceAll(s, pat, rep) == s
  {
    ReplaceIsJoinOfSplit(s, pat, rep);
    SplitWithoutSep(s, pat);
  }

  /** Replacing a text by itself changes nothing. */
  lemma {:induction false} ReplaceBySelf(s: string, pat: string)
    requires pat != []
    ensures ReplaceAll(s, pat, pat) == s
    decreases |s|
  {
    if s == [] {
    } else if pat <= s {
      ReplaceBySelf(s[|pat|..], pat);
      assert s == pat + s[|pat|..];
    } else {
      ReplaceBySelf(s[1..], pat);
      assert s == [s[0]] + s[1..];
    }
  }

  /** Every character of a replacement result comes from `s` or from `rep`. */
  lemma {:induction false} ReplaceChars(s: string, pat: string, rep: string, c: char)
    requires pat != []
    requires c in ReplaceAll(s, pat, rep)
    ensures c in s || c in rep
  {
    if s == [] {
    } else if pat <= s {
      if c !in rep {
        ReplaceChars(s[|pat|..], pat, rep, c);
      }
    } else {
      if c != s[0] {
        ReplaceChars(s[1..], pat, rep, c);
      }
    }
  }

  // ----- str.strip -----

  /**
   * The characters Python's `str.strip()` and `str.split()` treat as
   * whitespace (`str.isspace`).
   */
  predicate IsSpace(c: char) {
    var n := c as int;
    (0x09 <= n <= 0x0D) || (0x1C <= n <= 0x20) || n == 0x85 || n == 0xA0 || n == 0x1680
    || (0x2000 <= n <= 0x200A) || n == 0x2028 || n == 0x2029 || n == 0x202F || n == 0x205F
    || n == 0x3000
  }

  /** `s.lstrip(...)` for the characters `drop` selects */
  function LStripBy(s: string, drop: char -> bool): (r: string)
    ensures |r| <= |s| && r == s[|s| - |r|..]
    ensures r != [] ==> !drop(r[0])
    ensures forall i :: 0 <= i < |s| - |r| ==> drop(s[i])
    decreases |s|
  {
    if s != [] && drop(s[0]) then LStripBy(s[1..], drop) else s
  }

  /** `s.rstrip(...)` for the characters `drop` selects */
  function RStripBy(s: string, drop: char -> bool): (r: string)
    ensures |r| <= |s| && r == s[..|r|]
    ensures r != [] ==> !drop(r[|r| - 1])
    ensures forall i :: |r| <= i < |s| ==> drop(s[i])
    decreases |s|
  {
    if s != [] && drop(s[|s| - 1]) then RStripBy(s[..|s| - 1], drop) else s
  }

  /** `s.strip(...)` for the characters `drop` selects */
  function StripBy(s: string, drop: char -> bool): string {
    RStripBy(LStripBy(s, drop), drop)
  }

  /**
   * What stripping keeps: a slice `s[a..b]` that neither starts nor ends
   * with a dropped character, with only dropped characters cut off.
   */
  lemma StripBySlice(s: string, drop: char -> bool) returns (a: nat, b: nat)
    ensures a <= b <= |s| && StripBy(s, drop) == s[a..b]
    ensures forall i :: 0 <= i < a ==> drop(s[i])
    ensures forall i :: b <= i < |s| ==> drop(s[i])
    ensures a < b ==> !drop(s[a]) && !drop(s[b - 1])
  {
    var l := LStripBy(s, drop);
    var r := RStripBy(l, drop);
    a := |s| - |l|;
    b := a + |r|;
    assert r == s[a..b];
    forall i | b <= i < |s| ensures drop(s[i]) {
      assert s[i] == l[i - a];
    }
  }

  /** `s.strip()` */
  function Strip(s: string): string {
    StripBy(s, IsSpace)
  }

  /** `s.strip(chars)` */
  function StripChars(s: string, chars: set<char>): string {
    StripBy(s, c => c in chars)
  }

  // ----- ASCII case, digits -----

  /** `s.lower()` on ASCII letters (all the modelled callers pass ASCII text). */
  function AsciiLower(s: string): (r: string)
    ensures |r| == |s|
    ensures forall i :: 0 <= i < |s| ==> !('A' <= r[i] <= 'Z')
  {
    seq(|s|, i requires 0 <= i < |s| =>
      if 'A' <= s[i] <= 'Z' then (s[i] as int + 32) as char else s[i])
  }

  function DigitChar(d: nat): (c: char)
    requires d < 10
    ensures '0' <= c <= '9'
  {
    ('0' as int + d) as char
  }

  /** `str(n)` for a natural number: its decimal digits without leading zeros */
  function NatToString(n: nat): (r: string)
    ensures r != [] && forall i :: 0 <= i < |r| ==> '0' <= r[i] <= '9'
    decreases n
  {
    if n < 10 then [DigitChar(n)] else NatToString(n / 10) + [DigitChar(n % 10)]
  }

  /** `str(i)` for an integer */
  function IntToString(i: int): string {
    if i < 0 then "-" + NatToString(-i) else NatToString(i)
  }

  /** The value of a string of decimal digits (`int(s)` on digits only). */
  function DigitsValue(s: string): nat
    requires forall i :: 0 <= i < |s| ==> '0' <= s[i] <= '9'
    decreases |s|
  {
    if s == [] then 0
    else 10 * DigitsValue(s[..|s| - 1]) + (s[|s| - 1] as int - '0' as int)
  }

  /** Reading back the decimal form of a number gives the number. */
  lemma {:induction false} NatToStringRoundTrip(n: nat)
    ensures DigitsValue(NatToString(n)) == n
  {
    if n >= 10 {
      NatToStringRoundTrip(n / 10);
      var s := NatToString(n);
      assert s[..|s| - 1] == NatToString(n / 10);
    }
  }

  // ----- string order and sorted() -----

  /** Python's `<` on `str`: lexicographic by code point. */
  predicate StrLt(a: string, b: string)
    decreases |a|
  {
    if a == [] then b != []
    else if b == [] then false
    else a[0] < b[0] || (a[0] == b[0] && StrLt(a[1..], b[1..]))
  }

  lemma {:induction false} StrLtIrreflexive(a: string)
    ensures !StrLt(a, a)
  {
    if a != [] {
      StrLtIrreflexive(a[1..]);
    }
  }

  lemma {:induction false} StrLtTransitive(a: string, b: string, c: string)
    requires StrLt(a, b) && StrLt(b, c)
    ensures StrLt(a, c)
  {
    if a != [] && a[0] == b[0] && b[0] == c[0] {
      StrLtTransitive(a[1..], b[1..], c[1..]);
    }
  }

  lemma {:induction false} StrLtTotal(a: string, b: string)
    ensures a == b || StrLt(a, b) || StrLt(b, a)
  {
    if a != [] && b != [] && a[0] == b[0] {
      StrLtTotal(a[1..], b[1..]);
      if a[1..] == b[1..] {
        assert a == [a[0]] + a[1..] && b == [b[0]] + b[1..];
      }
    }
  }

  lemma StrLtAsymmetric()
    ensures forall a, b :: StrLt(a, b) ==> !StrLt(b, a)
  {
    forall a, b | StrLt(a, b) ensures !StrLt(b, a) {
      if StrLt(b, a) {
        StrLtTransitive(a, b, a);
        StrLtIrreflexive(a);
      }
    }
  }

  /** `m` is the least element of `s` */
  predicate IsLeast(m: string, s: set<string>) {
    m in s && forall y :: y in s ==> m == y || StrLt(m, y)
  }

  /** The least element of a non-empty finite set of strings exists. */
  lemma {:induction false} MinimumExists(s: set<string>)
    requires s != {}
    ensures exists m :: IsLeast(m, s)
    decreases |s|
  {
    var x :| x in s;
    if s == {x} {
      assert IsLeast(x, s);
    } else {
      MinimumExists(s - {x});
      var m :| IsLeast(m, s - {x});
      StrLtTotal(m, x);
      if StrLt(x, m) {
        forall y | y in s ensures x == y || StrLt(x, y) {
          if y != x && y != m {
            StrLtTransitive(x, m, y);
          }
        }
        assert IsLeast(x, s);
      } else {
        assert IsLeast(m, s);
      }
    }
  }

  /** The least string of a non-empty finite set. */
  function Minimum(s: set<string>): (m: string)
    requires s != {}
    ensures IsLeast(m, s)
  {
    MinimumExists(s);
    StrLtAsymmetric();
    var m :| IsLeast(m, s);
    m
  }

  /** `sorted(names)` for a collection of distinct names */
  function SortedElements(s: set<string>): (r: seq<string>)
    ensures |r| == |s|
    ensures forall x :: x in s <==> x in r
    ensures forall i, j :: 0 <= i < j < |r| ==> StrLt(r[i], r[j])
    decreases |s|
  {
    if s == {} then []
    else
      var m := Minimum(s);
      var rest := SortedElements(s - {m});
      assert forall j :: 0 <= j < |rest| ==> rest[j] in s - {m};
      [m] + rest
  }

  lemma LeastUnique(a: string, b: string, s: set<string>)
    requires IsLeast(a, s) && IsLeast(b, s)
    ensures a == b
  {
    StrLtAsymmetric();
  }

  /** A set has exactly one strictly increasing enumeration: `sorted` is determined. */
  lemma {:induction false} SortedEnumerationUnique(s: set<string>, r: seq<string>)
    requires forall x :: x in s <==> x in r
    requires forall i, j :: 0 <= i < j < |r| ==> StrLt(r[i], r[j])
    ensures r == SortedElements(s)
    decreases |r|
  {
    if r == [] {
      assert s == {};
    } else {
      assert r[0] in s;
      var m := Minimum(s);
      forall y | y in s ensures r[0] == y || StrLt(r[0], y) {
        var j :| 0 <= j < |r| && r[j] == y;
        if j > 0 {
          assert StrLt(r[0], r[j]);
        }
      }
      LeastUnique(r[0], m, s);
      forall x | x in r[1..] ensures x in s - {m} {
        var k :| 1 <= k < |r| && r[k] == x;
        assert StrLt(r[0], r[k]);
        StrLtIrreflexive(x);
      }
      forall x | x in s - {m} ensures x in r[1..] {
        var k :| 0 <= k < |r| && r[k] == x;
        assert k != 0;
      }
      SortedEnumerationUnique(s - {m}, r[1..]);
    }
  }
}
