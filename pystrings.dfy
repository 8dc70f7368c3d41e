/**
 * The handful of Python `str` operations the orchestration code relies on,
 * written out with Python's semantics: slicing with negative bounds,
 * `startswith`/`endswith`, `replace`, `join`, `strip`, `rsplit(sep, 1)`,
 * `split(":")[0]` and `str(int)`.
 */
module PyStrings {

  predicate StartsWith(s: string, p: string) {
    |p| <= |s| && s[..|p|] == p
  }

  predicate EndsWith(s: string, q: string) {
    |q| <= |s| && s[|s| - |q|..] == q
  }

  /** `pat` occurs in `s` starting at index `i`. */
  predicate OccursAt(s: string, pat: string, i: int) {
    0 <= i && i + |pat| <= |s| && s[i..i + |pat|] == pat
  }

  /** `pat in s` */
  predicate Occurs(s: string, pat: string) {
    exists i | 0 <= i <= |s| :: OccursAt(s, pat, i)
  }

  // ---------------------------------------------------------------- slicing

  /** How Python normalises one bound of `s[a:b]` for a sequence of length n. */
  function SliceBound(i: int, n: nat): nat {
    if i < 0 then (if n + i < 0 then 0 else n + i)
    else if i > n then n
    else i
  }

  /** `s[start:stop]`, negative bounds counting from the end, both clamped. */
  function Slice(s: string, start: int, stop: int): (r: string)
    ensures |r| <= |s|
    ensures 0 <= start <= stop <= |s| ==> r == s[start..stop]
    ensures 0 <= start && stop == 0 ==> r == ""
    ensures 0 <= start <= |s| && 0 < -stop <= |s| - start ==> r == s[start..|s| + stop]
  {
    var a := SliceBound(start, |s|);
    var b := SliceBound(stop, |s|);
    if a < b then s[a..b] else ""
  }

  // -------------------------------------------------------------- replacing

  /** `s.replace(pat, rep)`: every non-overlapping occurrence, left to right. */
  function ReplaceAll(s: string, pat: string, rep: string): string
    requires pat != ""
    decreases |s|
  {
    if |s| < |pat| then s
    else if s[..|pat|] == pat then rep + ReplaceAll(s[|pat|..], pat, rep)
    else [s[0]] + ReplaceAll(s[1..], pat, rep)
  }

  /** A pattern that does not occur is not replaced: the string comes back as it was. */
  lemma {:induction false} ReplaceAllAbsent(s: string, pat: string, rep: string)
    requires pat != "" && !Occurs(s, pat)
    ensures ReplaceAll(s, pat, rep) == s
    decreases |s|
  {
    if |s| >= |pat| {
      assert !OccursAt(s, pat, 0);
      assert s[..|pat|] != pat;
      if Occurs(s[1..], pat) {
        var i :| 0 <= i <= |s[1..]| && OccursAt(s[1..], pat, i);
        assert s[1..][i..i + |pat|] == s[i + 1..i + 1 + |pat|];
        assert OccursAt(s, pat, i + 1);
        assert false;
      }
      ReplaceAllAbsent(s[1..], pat, rep);
      assert [s[0]] + s[1..] == s;
    }
  }

  /** No character of `s` opens the pattern, so the pattern cannot occur. */
  lemma NoFirstCharNoOccurrence(s: string, pat: string)
    requires pat != ""
    requires forall k :: 0 <= k < |s| ==> s[k] != pat[0]
    ensures !Occurs(s, pat)
  {
    forall i | 0 <= i <= |s| ensures !OccursAt(s, pat, i) {
      if i + |pat| <= |s| {
        assert s[i..i + |pat|][0] == s[i];
      }
    }
  }

  /** An occurrence of `pat` at the front is replaced by `rep`. */
  lemma ReplaceAllHead(pat: string, rest: string, rep: string)
    requires pat != ""
    ensures ReplaceAll(pat + rest, pat, rep) == rep + ReplaceAll(rest, pat, rep)
  {
    var s := pat + rest;
    assert s[..|pat|] == pat;
    assert s[|pat|..] == rest;
  }

  /** A front part in which the pattern's first character never appears passes through unchanged. */
  lemma {:induction false} ReplaceAllSkip(front: string, rest: string, pat: string, rep: string)
    requires pat != ""
    requires forall k :: 0 <= k < |front| ==> front[k] != pat[0]
    ensures ReplaceAll(front + rest, pat, rep) == front + ReplaceAll(rest, pat, rep)
    decreases |front|
  {
    if front == [] {
      assert front + rest == rest;
    } else {
      var s := front + rest;
      if |s| < |pat| {
        assert ReplaceAll(rest, pat, rep) == rest;
      } else {
        assert s[..|pat|][0] == front[0];
        assert s[..|pat|] != pat;
        assert s[1..] == front[1..] + rest;
        assert forall k :: 0 <= k < |front| - 1 ==> front[1..][k] == front[k + 1];
        ReplaceAllSkip(front[1..], rest, pat, rep);
        calc {
          ReplaceAll(s, pat, rep);
          [s[0]] + ReplaceAll(s[1..], pat, rep);
          [front[0]] + (front[1..] + ReplaceAll(rest, pat, rep));
          { assert front == [front[0]] + front[1..]; }
          front + ReplaceAll(rest, pat, rep);
        }
      }
    }
  }

  /** `s.replace(a, b)` for two one-character strings: a character-wise map. */
  function ReplaceChar(s: string, a: char, b: char): (r: string)
    ensures |r| == |s|
    ensures forall k :: 0 <= k < |s| ==> r[k] == (if s[k] == a then b else s[k])
  {
    if s == [] then [] else [if s[0] == a then b else s[0]] + ReplaceChar(s[1..], a, b)
  }

  // ----------------------------------------------------------------- joining

  /** `sep.join(parts)` */
  function Join(parts: seq<string>, sep: string): string
    decreases |parts|
  {
    if parts == [] then ""
    else if |parts| == 1 then parts[0]
    else parts[0] + sep + Join(parts[1..], sep)
  }

  /** Joining n + 1 parts is joining the first n, a separator and the last. */
  lemma {:induction false} JoinSnoc(parts: seq<string>, sep: string)
    requires |parts| >= 2
    ensures Join(parts, sep) == Join(parts[..|parts| - 1], sep) + sep + parts[|parts| - 1]
    decreases |parts|
  {
    if |parts| > 2 {
      JoinSnoc(parts[1..], sep);
      assert parts[1..][..|parts| - 2] == parts[..|parts| - 1][1..];
    } else {
      assert parts[..1] == [parts[0]];
    }
  }

  /** The last occurrence of `pat` starting at or before index `i`, or -1. */
  function RFindFrom(s: string, pat: string, i: int): (r: int)
    ensures r == -1 || (r <= i && OccursAt(s, pat, r))
    ensures forall j :: r < j <= i ==> !OccursAt(s, pat, j)
    decreases i + 1
  {
    if i < 0 then -1
    else if OccursAt(s, pat, i) then i
    else RFindFrom(s, pat, i - 1)
  }

  /** `s.rfind(pat)`: the start of the last occurrence, or -1. */
  function RFind(s: string, pat: string): (r: int)
    ensures r == -1 || OccursAt(s, pat, r)
    ensures forall j :: r < j ==> !OccursAt(s, pat, j)
  {
    RFindFrom(s, pat, |s| - |pat|)
  }

  /** `rep.join(s.rsplit(pat, 1))`: the last occurrence of `pat`, if any, becomes `rep`. */
  function ReplaceLast(s: string, pat: string, rep: string): string {
    var i := RFind(s, pat);
    if i < 0 then s else s[..i] + rep + s[i + |pat|..]
  }

  /**
   * When the last part holds no ", ", the last ", " of the joined string is the
   * separator in front of that part, so it is the one `rsplit` turns into `rep`.
   */
  lemma ReplaceLastSeparator(parts: seq<string>, rep: string)
    requires |parts| >= 2
    requires !Occurs(parts[|parts| - 1], ", ")
    ensures ReplaceLast(Join(parts, ", "), ", ", rep)
         == Join(parts[..|parts| - 1], ", ") + rep + parts[|parts| - 1]
  {
    var front := Join(parts[..|parts| - 1], ", ");
    var last := parts[|parts| - 1];
    JoinSnoc(parts, ", ");
    LastSeparatorAt(front, last);
    var s := front + ", " + last;
    assert s[..|front|] == front;
    assert s[|front| + 2..] == last;
  }

  /** The ", " in front of a last part that holds none is the last one. */
  lemma LastSeparatorAt(front: string, last: string)
    requires !Occurs(last, ", ")
    ensures RFind(front + ", " + last, ", ") == |front|
  {
    var s := front + ", " + last;
    var k := |front|;
    assert s[k..k + 2] == ", ";
    assert OccursAt(s, ", ", k);
    forall j | k < j ensures !OccursAt(s, ", ", j) {
      if j == k + 1 && j + 2 <= |s| {
        assert s[j..j + 2][0] == s[k + 1] == ' ';
      } else if j + 2 <= |s| {
        assert !OccursAt(last, ", ", j - k - 2);
        assert s[j..j + 2] == last[j - k - 2..j - k];
      }
    }
  }

  // --------------------------------------------------------------- stripping

  /** Python's `str.isspace` for one character: the separators `strip()` removes. */
  predicate IsSpace(c: char) {
    ('\U{9}' <= c <= '\U{D}') || ('\U{1C}' <= c <= '\U{20}')
    || c == '\U{85}' || c == '\U{A0}' || c == '\U{1680}'
    || ('\U{2000}' <= c <= '\U{200A}')
    || c == '\U{2028}' || c == '\U{2029}' || c == '\U{202F}' || c == '\U{205F}' || c == '\U{3000}'
  }

  predicate AllSpace(s: string) {
    forall k :: 0 <= k < |s| ==> IsSpace(s[k])
  }

  /** Neither end of `s` is whitespace. */
  predicate Trimmed(s: string) {
    s == "" || (!IsSpace(s[0]) && !IsSpace(s[|s| - 1]))
  }

  function StripLeft(s: string): (r: string)
    ensures r == "" || !IsSpace(r[0])
    decreases |s|
  {
    if s != [] && IsSpace(s[0]) then StripLeft(s[1..]) else s
  }

  /** What StripLeft removes is a whitespace prefix: the result is a suffix of its input. */
  lemma {:induction false} StripLeftRemovesSpace(s: string)
    ensures var r := StripLeft(s);
      |r| <= |s| && r == s[|s| - |r|..] && AllSpace(s[..|s| - |r|])
    decreases |s|
  {
    if s != [] && IsSpace(s[0]) {
      var r := StripLeft(s[1..]);
      StripLeftRemovesSpace(s[1..]);
      assert s[..|s| - |r|] == [s[0]] + s[1..][..|s| - 1 - |r|];
    }
  }

  function StripRight(s: string): (r: string)
    ensures |r| <= |s| && r == s[..|r|] && AllSpace(s[|r|..])
    ensures r == "" || !IsSpace(r[|r| - 1])
    decreases |s|
  {
    if s != [] && IsSpace(s[|s| - 1]) then
      var r := StripRight(s[..|s| - 1]);
      assert s[|r|..] == s[..|s| - 1][|r|..] + [s[|s| - 1]];
      r
    else s
  }

  /** `s.strip()` */
  function Strip(s: string): (r: string)
    ensures Trimmed(r)
  {
    var l := StripLeft(s);
    var r := StripRight(l);
    assert r != "" ==> r[0] == l[0];
    r
  }

  /** Stripping removes exactly the whitespace around a trimmed core. */
  lemma {:induction false} StripPadded(pre: string, t: string, post: string)
    requires AllSpace(pre) && AllSpace(post) && Trimmed(t)
    ensures Strip(pre + t + post) == t
  {
    var x := pre + t + post;
    assert x == pre + (t + post);
    StripLeftPadded(pre, t + post);
    var l := StripLeft(t + post);
    if t == "" {
      assert t + post == post;
      StripLeftAllSpace(post);
      assert l == "";
    } else {
      assert (t + post)[0] == t[0];
      assert l == t + post;
      StripRightPadded(t, post);
    }
    assert StripRight(l) == t;
    assert Strip(x) == StripRight(StripLeft(x));
  }

  lemma {:induction false} StripLeftPadded(pre: string, s: string)
    requires AllSpace(pre)
    ensures StripLeft(pre + s) == StripLeft(s)
    decreases |pre|
  {
    if pre == [] {
      assert pre + s == s;
    } else {
      var x := pre + s;
      assert x[0] == pre[0] && IsSpace(pre[0]);
      assert x[1..] == pre[1..] + s;
      assert AllSpace(pre[1..]) by {
        forall k | 0 <= k < |pre| - 1 ensures IsSpace(pre[1..][k]) {
          assert pre[1..][k] == pre[k + 1];
        }
      }
      StripLeftPadded(pre[1..], s);
      calc {
        StripLeft(x);
        StripLeft(x[1..]);
        StripLeft(pre[1..] + s);
        StripLeft(s);
      }
    }
  }

  lemma {:induction false} StripLeftAllSpace(s: string)
    requires AllSpace(s)
    ensures StripLeft(s) == ""
    decreases |s|
  {
    if s != [] {
      StripLeftAllSpace(s[1..]);
    }
  }

  lemma {:induction false} StripRightPadded(t: string, post: string)
    requires AllSpace(post) && t != "" && !IsSpace(t[|t| - 1])
    ensures StripRight(t + post) == t
    decreases |post|
  {
    if post == [] {
      assert t + post == t;
    } else {
      var s := t + post;
      assert s[..|s| - 1] == t + post[..|post| - 1];
      StripRightPadded(t, post[..|post| - 1]);
    }
  }

  // ------------------------------------------------------------- conversions

  /** `t.split(":")[0]`: everything before the first colon. */
  function BeforeColon(t: string): (r: string)
    ensures StartsWith(t, r)
    ensures forall k :: 0 <= k < |r| ==> r[k] != ':'
    ensures |r| < |t| ==> t[|r|] == ':'
  {
    if t == [] || t[0] == ':' then [] else [t[0]] + BeforeColon(t[1..])
  }

  /** A colon-free name keeps its identity in front of a `:tag` suffix. */
  lemma {:induction false} BeforeColonOfTagged(name: string, suffix: string)
    requires forall k :: 0 <= k < |name| ==> name[k] != ':'
    ensures BeforeColon(name + ":" + suffix) == name
    decreases |name|
  {
    if name != [] {
      assert (name + ":" + suffix)[1..] == name[1..] + ":" + suffix;
      BeforeColonOfTagged(name[1..], suffix);
    }
  }

  predicate IsDigit(c: char) {
    '0' <= c <= '9'
  }

  function DigitChar(d: nat): (c: char)
    requires d < 10
    ensures IsDigit(c)
  {
    "0123456789"[d]
  }

  function NatToString(n: nat): (r: string)
    ensures |r| >= 1 && forall k :: 0 <= k < |r| ==> IsDigit(r[k])
    decreases n
  {
    if n < 10 then [DigitChar(n)] else NatToString(n / 10) + [DigitChar(n % 10)]
  }

  /** `str(i)` for an int: decimal digits with a leading '-' when negative. */
  function IntToString(i: int): (r: string)
    ensures r != "" && forall k :: 0 <= k < |r| ==> IsDigit(r[k]) || r[k] == '-'
  {
    if i < 0 then "-" + NatToString(-i) else NatToString(i)
  }

  function DigitValue(c: char): (d: nat)
    requires IsDigit(c)
    ensures d < 10
  {
    c as int - '0' as int
  }

  predicate AllDigits(s: string) {
    forall k :: 0 <= k < |s| ==> IsDigit(s[k])
  }

  /** The number a string of decimal digits denotes, most significant digit first. */
  function DecimalValue(s: string): nat
    requires AllDigits(s)
    decreases |s|
  {
    if s == [] then 0 else DecimalValue(s[..|s| - 1]) * 10 + DigitValue(s[|s| - 1])
  }

  lemma DigitRoundTrip(d: nat)
    requires d < 10
    ensures DigitValue(DigitChar(d)) == d
  {
    assert "0123456789"[d] as int == '0' as int + d by {
      if d == 0 {} else if d == 1 {} else if d == 2 {} else if d == 3 {} else if d == 4 {}
      else if d == 5 {} else if d == 6 {} else if d == 7 {} else if d == 8 {} else {}
    }
  }

  /** `str(n)` of a natural number is its canonical decimal form: it denotes n and has no leading zero. */
  lemma {:induction false} NatToStringValue(n: nat)
    ensures DecimalValue(NatToString(n)) == n
    ensures NatToString(n)[0] == '0' ==> n == 0
    decreases n
  {
    var r := NatToString(n);
    if n < 10 {
      DigitRoundTrip(n);
      assert r[..0] == [];
      if r[0] == '0' {
        assert DigitValue(r[0]) == 0;
      }
    } else {
      var front := NatToString(n / 10);
      NatToStringValue(n / 10);
      DigitRoundTrip(n % 10);
      assert r[..|r| - 1] == front;
      assert r[0] == front[0];
    }
  }

  /**
   * `str(i)` denotes i: the decimal digits of |i|, with a leading '-' exactly
   * when i is negative, and no leading zero.
   */
  lemma IntToStringValue(i: int)
    ensures var r := IntToString(i);
      (i >= 0 ==> AllDigits(r) && DecimalValue(r) == i && (r[0] == '0' ==> r == "0"))
      && (i < 0 ==> r[0] == '-' && AllDigits(r[1..]) && DecimalValue(r[1..]) == -i && r[1] != '0')
  {
    if i >= 0 {
      NatToStringValue(i);
      if NatToString(i)[0] == '0' {
        assert NatToString(0) == "0";
      }
    } else {
      var r := IntToString(i);
      assert r[1..] == NatToString(-i);
      NatToStringValue(-i);
    }
  }
}
