/** The JavaScript string operations the storefront relies on, over `seq<char>`:
    the `\s` character class and `trim()`, `includes`, `split(' ')`/`join`,
    ASCII `toLowerCase`, integer-to-decimal conversion for template literals,
    and `replace(/\s+/g, '-')`. */
module Strings {

  /** The ECMAScript WhiteSpace and LineTerminator code points: the class that
      regular-expression `\s` matches and that `String.prototype.trim` removes. */
  predicate IsSpace(c: char) {
    var n := c as int;
    n == 0x09 || n == 0x0A || n == 0x0B || n == 0x0C || n == 0x0D || n == 0x20
    || n == 0xA0 || n == 0x1680 || (0x2000 <= n <= 0x200A) || n == 0x2028 || n == 0x2029
    || n == 0x202F || n == 0x205F || n == 0x3000 || n == 0xFEFF
  }

  predicate AllSpace(s: string) {
    forall i :: 0 <= i < |s| ==> IsSpace(s[i])
  }

  predicate NoSpace(s: string) {
    forall i :: 0 <= i < |s| ==> !IsSpace(s[i])
  }

  /** `s[lo..hi]` is a valid slice of non-whitespace characters (`\S*` matched there). */
  predicate NoSpaceBetween(s: string, lo: int, hi: int) {
    0 <= lo <= hi <= |s| && forall k :: lo <= k < hi ==> !IsSpace(s[k])
  }

  /* ---------------------------------------------------------------- trim */

  /** Drops leading whitespace. */
  function TrimStart(s: string): (r: string)
    ensures |r| <= |s| && r == s[|s| - |r|..]
    ensures AllSpace(s[..|s| - |r|])
    ensures r == [] || !IsSpace(r[0])
  {
    if |s| > 0 && IsSpace(s[0]) then
      var r := TrimStart(s[1..]);
      TrimStartStep(s, r);
      r
    else s
  }

  /** A suffix of `s[1..]` after a whitespace run is a suffix of `s` after
      one, when `s` starts with whitespace. */
  lemma TrimStartStep(s: string, r: string)
    requires |s| > 0 && IsSpace(s[0])
    requires |r| <= |s| - 1 && r == s[1..][|s| - 1 - |r|..] && AllSpace(s[1..][..|s| - 1 - |r|])
    ensures r == s[|s| - |r|..] && AllSpace(s[..|s| - |r|])
  {
    var w := s[1..][..|s| - 1 - |r|];
    assert s[..|s| - |r|] == [s[0]] + w;
  }

  /** A prefix of `s[..|s| - 1]` before a whitespace run is a prefix of `s`
      before one, when `s` ends with whitespace. */
  lemma TrimEndStep(s: string, r: string)
    requires |s| > 0 && IsSpace(s[|s| - 1])
    requires |r| <= |s| - 1 && r == s[..|s| - 1][..|r|] && AllSpace(s[..|s| - 1][|r|..])
    ensures r == s[..|r|] && AllSpace(s[|r|..])
  {
    var w := s[..|s| - 1][|r|..];
    assert s[|r|..] == w + [s[|s| - 1]];
  }

  /** Drops trailing whitespace. */
  function TrimEnd(s: string): (r: string)
    ensures |r| <= |s| && r == s[..|r|]
    ensures AllSpace(s[|r|..])
    ensures r == [] || !IsSpace(r[|r| - 1])
  {
    if |s| > 0 && IsSpace(s[|s| - 1]) then
      var r := TrimEnd(s[..|s| - 1]);
      TrimEndStep(s, r);
      r
    else s
  }

  /** `s.trim()`: a slice of `s` with only whitespace cut off either end. The
      result is empty exactly when `s` is all whitespace, and otherwise starts
      and ends with a non-whitespace character. */
  function Trim(s: string): (r: string)
    ensures exists a, b :: CutBetweenSpace(s, r, a, b)
    ensures r == [] <==> AllSpace(s)
    ensures r != [] ==> !IsSpace(r[0]) && !IsSpace(r[|r| - 1])
    ensures NoSpace(s) ==> r == s
  {
    var t := TrimStart(s);
    TrimStartEmpty(s);
    TrimEndEmpty(t);
    assert t != [] ==> !AllSpace(t) by {
      if t != [] {
        assert !IsSpace(t[0]);
      }
    }
    var r := TrimEnd(t);
    assert r != [] ==> r[0] == t[0];
    TrimCut(s);
    r
  }

  /** Trimming the start and then the end cuts only whitespace off `s`. */
  lemma TrimCut(s: string)
    ensures exists a, b :: CutBetweenSpace(s, TrimEnd(TrimStart(s)), a, b)
  {
    var t := TrimStart(s);
    var r := TrimEnd(t);
    TrimSlice(s, t, r);
    assert CutBetweenSpace(s, r, |s| - |t|, |s| - |t| + |r|);
  }

  /** `r` is `s[a..b]`, and only whitespace lies before `a` and after `b`. */
  predicate CutBetweenSpace(s: string, r: string, a: int, b: int) {
    0 <= a <= b <= |s| && r == s[a..b] && AllSpace(s[..a]) && AllSpace(s[b..])
  }

  /** Trimming both ends leaves a slice of `s` between two whitespace runs. */
  lemma TrimSlice(s: string, t: string, r: string)
    requires |t| <= |s| && t == s[|s| - |t|..] && AllSpace(s[..|s| - |t|])
    requires |r| <= |t| && r == t[..|r|] && AllSpace(t[|r|..])
    ensures |s| - |t| + |r| <= |s| && r == s[|s| - |t|..|s| - |t| + |r|]
    ensures AllSpace(s[..|s| - |t|]) && AllSpace(s[|s| - |t| + |r|..])
  {
    var a := |s| - |t|;
    assert r == s[a..a + |r|] by {
      assert t == s[a..] && r == t[..|r|];
    }
    assert s[a + |r|..] == t[|r|..] by {
      assert t == s[a..];
    }
  }

  lemma {:induction false} TrimStartEmpty(s: string)
    ensures TrimStart(s) == [] <==> AllSpace(s)
  {
    if |s| > 0 && IsSpace(s[0]) {
      TrimStartEmpty(s[1..]);
      assert AllSpace(s[1..]) ==> AllSpace(s) by {
        if AllSpace(s[1..]) {
          forall i | 0 < i < |s| ensures IsSpace(s[i]) {
            assert s[i] == s[1..][i - 1];
          }
        }
      }
    }
  }

  lemma {:induction false} TrimEndEmpty(s: string)
    ensures TrimEnd(s) == [] <==> AllSpace(s)
  {
    if |s| > 0 && IsSpace(s[|s| - 1]) {
      var f := s[..|s| - 1];
      TrimEndEmpty(f);
      assert AllSpace(f) ==> AllSpace(s) by {
        if AllSpace(f) {
          forall i | 0 <= i < |s| - 1 ensures IsSpace(s[i]) {
            assert s[i] == f[i];
          }
        }
      }
    }
  }

  /** `!s.trim()`: the string is empty once trimmed. */
  predicate IsBlank(s: string) {
    Trim(s) == []
  }

  /** Trimming the start of `x + y` never reaches `y` when `x` holds some
      non-whitespace character. */
  lemma {:induction false} TrimStartAppend(x: string, y: string)
    requires !AllSpace(x)
    ensures TrimStart(x + y) == TrimStart(x) + y
    decreases |x|
  {
    assert |x| > 0;
    if IsSpace(x[0]) {
      assert (x + y)[1..] == x[1..] + y;
      assert !AllSpace(x[1..]) by {
        var k :| 0 <= k < |x| && !IsSpace(x[k]);
        assert k > 0 && x[1..][k - 1] == x[k];
      }
      TrimStartAppend(x[1..], y);
    } else {
      assert (x + y)[0] == x[0];
    }
  }

  /** Whitespace in front of a string that starts with a non-whitespace
      character is dropped entirely by `TrimStart`. */
  lemma {:induction false} TrimStartSpacePrefix(w: string, b: string)
    requires AllSpace(w)
    requires b == [] || !IsSpace(b[0])
    ensures TrimStart(w + b) == b
    decreases |w|
  {
    if |w| == 0 {
      assert w + b == b;
    } else {
      assert (w + b)[0] == w[0];
      assert (w + b)[1..] == w[1..] + b;
      TrimStartSpacePrefix(w[1..], b);
    }
  }

  /* ------------------------------------------------------------ includes */

  /** `sub` occurs in `s` starting at index `i`. */
  predicate OccursAt(s: string, sub: string, i: int) {
    0 <= i && i + |sub| <= |s| && s[i..i + |sub|] == sub
  }

  lemma ShiftOccurrences(s: string, sub: string)
    requires |s| > 0 && !(sub <= s)
    ensures (exists i :: OccursAt(s[1..], sub, i)) <==> (exists i :: OccursAt(s, sub, i))
  {
    forall i | OccursAt(s[1..], sub, i) ensures OccursAt(s, sub, i + 1) {
      assert s[1..][i..i + |sub|] == s[i + 1..i + 1 + |sub|];
    }
    forall i | OccursAt(s, sub, i) ensures OccursAt(s[1..], sub, i - 1) {
      assert s[..|sub|] == s[0..|sub|];
      assert s[1..][i - 1..i - 1 + |sub|] == s[i..i + |sub|];
    }
  }

  /** `s.includes(sub)`: some occurrence of `sub` exists in `s`. */
  function Contains(s: string, sub: string): (r: bool)
    ensures r <==> exists i :: OccursAt(s, sub, i)
  {
    if sub <= s then
      assert OccursAt(s, sub, 0);
      true
    else if |s| == 0 then
      false
    else
      ShiftOccurrences(s, sub);
      Contains(s[1..], sub)
  }

  /** A string none of whose characters is the first character of `sub` does not contain `sub`. */
  lemma NotContainsFirstChar(s: string, sub: string)
    requires |sub| > 0 && sub[0] !in s
    ensures !Contains(s, sub)
  {
    forall i ensures !OccursAt(s, sub, i) {
      if 0 <= i && i + |sub| <= |s| {
        assert s[i..i + |sub|][0] == s[i];
      }
    }
  }

  /** A prefix without the first character of `sub` adds no occurrence of
      `sub`: every occurrence in `p + s` starts inside `s`. */
  lemma PrefixAddsNoOccurrence(p: string, s: string, sub: string)
    requires |sub| > 0 && sub[0] !in p
    ensures Contains(p + s, sub) <==> Contains(s, sub)
  {
    forall i | OccursAt(p + s, sub, i) ensures OccursAt(s, sub, i - |p|) {
      assert (p + s)[i..i + |sub|][0] == (p + s)[i];
      assert (p + s)[i..i + |sub|] == s[i - |p|..i - |p| + |sub|];
    }
    forall i | OccursAt(s, sub, i) ensures OccursAt(p + s, sub, i + |p|) {
      assert (p + s)[i + |p|..i + |p| + |sub|] == s[i..i + |sub|];
    }
  }

  /** An occurrence of `sub` inside a piece of `a + b + c` is an occurrence in the whole. */
  lemma ContainsInMiddle(a: string, b: string, c: string, sub: string)
    requires Contains(b, sub)
    ensures Contains(a + b + c, sub)
  {
    var i :| OccursAt(b, sub, i);
    assert (a + b + c)[|a| + i..|a| + i + |sub|] == b[i..i + |sub|];
    assert OccursAt(a + b + c, sub, |a| + i);
  }

  /* ---------------------------------------------------------- split/join */

  /** `parts.join(sep)`. */
  function Join(sep: string, parts: seq<string>): string {
    if |parts| == 0 then ""
    else if |parts| == 1 then parts[0]
    else parts[0] + sep + Join(sep, parts[1..])
  }

  /** Appending a part appends the separator and that part. */
  lemma {:induction false} JoinAppend(sep: string, parts: seq<string>, p: string)
    requires |parts| >= 1
    ensures Join(sep, parts + [p]) == Join(sep, parts) + sep + p
    decreases |parts|
  {
    if |parts| == 1 {
      assert (parts + [p])[1..] == [p];
    } else {
      assert (parts + [p])[1..] == parts[1..] + [p];
      JoinAppend(sep, parts[1..], p);
    }
  }

  /** Every part occurs in the joined text. */
  lemma {:induction false} JoinHasPart(sep: string, parts: seq<string>, i: int) returns (before: string, after: string)
    requires 0 <= i < |parts|
    ensures Join(sep, parts) == before + parts[i] + after
    decreases |parts|
  {
    if i == 0 {
      before := "";
      after := if |parts| == 1 then "" else sep + Join(sep, parts[1..]);
    } else {
      var b, a := JoinHasPart(sep, parts[1..], i - 1);
      before := parts[0] + sep + b;
      after := a;
    }
  }

  /** `s.split(c)` for a one-character separator: the pieces between the
      occurrences of `c`, none of which contains `c`, and which `join(c)` puts
      back together into `s`. */
  function Split(s: string, c: char): (parts: seq<string>)
    ensures |parts| >= 1
    ensures forall p <- parts :: c !in p
    ensures Join([c], parts) == s
  {
    if |s| == 0 then [""]
    else
      var rest := Split(s[1..], c);
      if s[0] == c then
        assert Join([c], [""] + rest) == [c] + Join([c], rest) by {
          assert ([""] + rest)[1..] == rest;
        }
        [""] + rest
      else
        var parts := [[s[0]] + rest[0]] + rest[1..];
        assert parts[1..] == rest[1..];
        assert Join([c], parts) == [s[0]] + Join([c], rest);
        parts
  }

  /** Text without the separator splits into itself alone. */
  lemma {:induction false} SplitWithout(s: string, c: char)
    requires c !in s
    ensures Split(s, c) == [s]
  {
    if |s| > 0 {
      assert c !in s[1..];
      SplitWithout(s[1..], c);
      assert [s[0]] + s[1..] == s;
    }
  }

  /** Every part of a joined text occurs in it, whatever precedes it. */
  lemma JoinMentions(prefix: string, sep: string, parts: seq<string>, i: int)
    requires 0 <= i < |parts|
    ensures Contains(prefix + Join(sep, parts), parts[i])
  {
    var before, after := JoinHasPart(sep, parts, i);
    var whole := prefix + Join(sep, parts);
    var k := |prefix| + |before|;
    assert whole == (prefix + before) + parts[i] + after;
    assert whole[k..k + |parts[i]|] == parts[i];
    assert OccursAt(whole, parts[i], k);
  }

  /* ---------------------------------------------------------- lower case */

  function LowerChar(c: char): char {
    if 'A' <= c <= 'Z' then (c as int + 32) as char else c
  }

  /** `s.toLowerCase()` restricted to the ASCII letters: each upper-case
      letter is mapped to its lower-case form and everything else is kept. */
  function ToLower(s: string): (r: string)
    ensures |r| == |s|
    ensures forall i :: 0 <= i < |s| && 'A' <= s[i] <= 'Z' ==> r[i] as int == s[i] as int + ('a' as int - 'A' as int)
    ensures forall i :: 0 <= i < |s| && !('A' <= s[i] <= 'Z') ==> r[i] == s[i]
    ensures forall i :: 0 <= i < |s| ==> !('A' <= r[i] <= 'Z')
  {
    seq(|s|, i requires 0 <= i < |s| => LowerChar(s[i]))
  }

  /** Lower-casing twice is lower-casing once. */
  lemma ToLowerIdempotent(s: string)
    ensures ToLower(ToLower(s)) == ToLower(s)
  {
  }

  /* ------------------------------------------------------ number to text */

  predicate IsDigit(c: char) {
    '0' <= c <= '9'
  }

  function DigitChar(d: nat): (c: char)
    requires d < 10
    ensures IsDigit(c)
  {
    ('0' as int + d) as char
  }

  /** The number a string of decimal digits denotes. */
  function ParseDigits(s: string): nat
    requires forall i :: 0 <= i < |s| ==> IsDigit(s[i])
  {
    if |s| == 0 then 0
    else
      assert IsDigit(s[|s| - 1]);
      ParseDigits(s[..|s| - 1]) * 10 + (s[|s| - 1] as int - '0' as int)
  }

  /** The decimal text of a natural number, as a template literal prints it:
      non-empty, all digits, no leading zero, and denoting `n` again. */
  function NatToString(n: nat): (r: string)
    ensures |r| >= 1
    ensures forall i :: 0 <= i < |r| ==> IsDigit(r[i])
    ensures |r| > 1 ==> r[0] != '0'
    ensures ParseDigits(r) == n
  {
    if n < 10 then [DigitChar(n)]
    else
      var front := NatToString(n / 10);
      var r := front + [DigitChar(n % 10)];
      assert r[..|r| - 1] == front;
      r
  }

  /** The decimal text of an integer, with a leading `-` when it is negative. */
  function IntToString(i: int): string {
    if i < 0 then "-" + NatToString(-i) else NatToString(i)
  }

  /* ------------------------------------------------ replace(/\s+/g, '-') */

  /** `s.replace(/\s+/g, '-')`: every maximal run of whitespace becomes a
      single hyphen. */
  function HyphenateSpaces(s: string): string
    decreases |s|
  {
    if |s| == 0 then ""
    else if IsSpace(s[0]) then "-" + HyphenateSpaces(TrimStart(s[1..]))
    else [s[0]] + HyphenateSpaces(s[1..])
  }

  /** The rewritten text holds no whitespace, is no longer than the original,
      and a text without whitespace is left as it is. */
  lemma {:induction false} HyphenateSpacesShape(s: string)
    ensures NoSpace(HyphenateSpaces(s))
    ensures |HyphenateSpaces(s)| <= |s|
    ensures NoSpace(s) ==> HyphenateSpaces(s) == s
    decreases |s|
  {
    if |s| == 0 {
    } else if IsSpace(s[0]) {
      HyphenateSpacesShape(TrimStart(s[1..]));
      assert !IsSpace('-');
    } else {
      HyphenateSpacesShape(s[1..]);
      assert NoSpace(s) ==> NoSpace(s[1..]);
      assert [s[0]] + s[1..] == s;
    }
  }

  /** For `a` that starts with whitespace and ends with a non-whitespace
      character, the leading run of `a + y` is skipped the same way with or
      without `y`; the rest `u` is a shorter string of the same kind. */
  lemma LeadingRunDropped(a: string, y: string) returns (u: string)
    requires |a| > 0 && IsSpace(a[0]) && !IsSpace(a[|a| - 1])
    ensures |u| < |a| && |u| > 0 && !IsSpace(u[|u| - 1])
    ensures HyphenateSpaces(a) == "-" + HyphenateSpaces(u)
    ensures HyphenateSpaces(a + y) == "-" + HyphenateSpaces(u + y)
  {
    var t := a[1..];
    assert t[|t| - 1] == a[|a| - 1];
    assert !AllSpace(t);
    assert (a + y)[1..] == t + y;
    TrimStartAppend(t, y);
    u := TrimStart(t);
    assert t[..|t|] == t;
    assert u[|u| - 1] == t[|t| - 1];
  }

  /** A whitespace run `w` between a part ending in a non-whitespace character
      and a part starting with one turns into exactly one hyphen, and the two
      parts are rewritten independently. */
  lemma {:induction false} HyphenateRun(a: string, w: string, b: string)
    requires a == [] || !IsSpace(a[|a| - 1])
    requires |w| > 0 && AllSpace(w)
    requires b == [] || !IsSpace(b[0])
    ensures HyphenateSpaces(a + w + b) == HyphenateSpaces(a) + "-" + HyphenateSpaces(b)
    decreases |a|, 1
  {
    if |a| == 0 {
      calc {
        HyphenateSpaces(a + w + b);
        { assert a + w + b == w + b; }
        HyphenateSpaces(w + b);
        { HyphenateRunFirst(w, b); }
        "-" + HyphenateSpaces(b);
      }
    } else if IsSpace(a[0]) {
      HyphenateRunAfterSpace(a, w, b);
    } else {
      HyphenateRunAfterChar(a, w, b);
    }
  }

  lemma {:induction false} HyphenateRunAfterSpace(a: string, w: string, b: string)
    requires |a| > 0 && IsSpace(a[0]) && !IsSpace(a[|a| - 1])
    requires |w| > 0 && AllSpace(w)
    requires b == [] || !IsSpace(b[0])
    ensures HyphenateSpaces(a + w + b) == HyphenateSpaces(a) + "-" + HyphenateSpaces(b)
    decreases |a|, 0
  {
    var u := LeadingRunDropped(a, w + b);
    var hu, hb := HyphenateSpaces(u), HyphenateSpaces(b);
    calc {
      HyphenateSpaces(a + w + b);
      { assert a + w + b == a + (w + b); }
      HyphenateSpaces(a + (w + b));
      "-" + HyphenateSpaces(u + (w + b));
      { assert u + (w + b) == u + w + b; }
      "-" + HyphenateSpaces(u + w + b);
      { HyphenateRun(u, w, b); }
      "-" + (hu + "-" + hb);
      { ConcatAssoc("-", hu, "-", hb); }
      "-" + hu + "-" + hb;
      HyphenateSpaces(a) + "-" + hb;
    }
  }

  lemma {:induction false} HyphenateRunAfterChar(a: string, w: string, b: string)
    requires |a| > 0 && !IsSpace(a[0]) && !IsSpace(a[|a| - 1])
    requires |w| > 0 && AllSpace(w)
    requires b == [] || !IsSpace(b[0])
    ensures HyphenateSpaces(a + w + b) == HyphenateSpaces(a) + "-" + HyphenateSpaces(b)
    decreases |a|, 0
  {
    var t, y := a[1..], w + b;
    var ht, hb := HyphenateSpaces(t), HyphenateSpaces(b);
    calc {
      HyphenateSpaces(a + w + b);
      { assert a + w + b == a + y; }
      HyphenateSpaces(a + y);
      { HyphenateKeepsFirst(a, y); }
      [a[0]] + HyphenateSpaces(t + y);
      { assert t + y == t + w + b; }
      [a[0]] + HyphenateSpaces(t + w + b);
      { HyphenateRun(t, w, b); }
      [a[0]] + (ht + "-" + hb);
      { ConcatAssoc([a[0]], ht, "-", hb); }
      [a[0]] + ht + "-" + hb;
      { HyphenateKeepsFirst(a, y); }
      HyphenateSpaces(a) + "-" + hb;
    }
  }

  lemma ConcatAssoc(x: string, y: string, z: string, v: string)
    ensures x + (y + z + v) == x + y + z + v
  {
  }

  lemma HyphenateRunFirst(w: string, b: string)
    requires |w| > 0 && AllSpace(w)
    requires b == [] || !IsSpace(b[0])
    ensures HyphenateSpaces(w + b) == "-" + HyphenateSpaces(b)
  {
    assert (w + b)[0] == w[0];
    assert (w + b)[1..] == w[1..] + b;
    TrimStartSpacePrefix(w[1..], b);
  }

  lemma HyphenateKeepsFirst(a: string, y: string)
    requires |a| > 0 && !IsSpace(a[0])
    ensures HyphenateSpaces(a + y) == [a[0]] + HyphenateSpaces(a[1..] + y)
    ensures HyphenateSpaces(a) == [a[0]] + HyphenateSpaces(a[1..])
  {
    assert (a + y)[0] == a[0];
    assert (a + y)[1..] == a[1..] + y;
  }
}
