/**
 * The few Python string operations the benchmark driver relies on:
 * `str.strip()`, the `in` substring test, `str(n)` and `int(digits)` for
 * non-negative numbers, `"="*50`, `"\n".join(...)` and `split("/")[-1]`.
 */
module Text {

  /** Python's `str.isspace` for one character: the characters `strip()` removes. */
  predicate IsWhitespace(c: char) {
    c == ' ' || ('\t' <= c <= '\r') || (0x1c <= c as int <= 0x1f)
    || c as int == 0x85 || c as int == 0xa0 || c as int == 0x1680
    || (0x2000 <= c as int <= 0x200a) || c as int == 0x2028 || c as int == 0x2029
    || c as int == 0x202f || c as int == 0x205f || c as int == 0x3000
  }

  /** `s.lstrip()`: the longest suffix of `s` that does not start with whitespace. */
  function LStrip(s: string): (r: string)
    ensures |r| <= |s| && r == s[|s| - |r|..]
    ensures forall i :: 0 <= i < |s| - |r| ==> IsWhitespace(s[i])
    ensures r == [] || !IsWhitespace(r[0])
  {
    if s != [] && IsWhitespace(s[0]) then LStrip(s[1..]) else s
  }

  /** `s.rstrip()`: the longest prefix of `s` that does not end with whitespace. */
  function RStrip(s: string): (r: string)
    ensures |r| <= |s| && r == s[..|r|]
    ensures forall i :: |r| <= i < |s| ==> IsWhitespace(s[i])
    ensures r == [] || !IsWhitespace(r[|r| - 1])
  {
    if s != [] && IsWhitespace(s[|s| - 1]) then RStrip(s[..|s| - 1]) else s
  }

  /** `s.strip()` */
  function Strip(s: string): string {
    RStrip(LStrip(s))
  }

  /** `s.strip()` is empty exactly when every character of `s` is whitespace. */
  lemma StripEmptyIff(s: string)
    ensures Strip(s) == [] <==> forall i :: 0 <= i < |s| ==> IsWhitespace(s[i])
  {
    var l := LStrip(s);
    if Strip(s) == [] {
      assert l == [];
    } else {
      var k := |s| - |l|;
      assert l[0] == s[k] && !IsWhitespace(s[k]);
    }
  }

  /** `sub` occurs in `s` starting at index `i`. */
  predicate OccursAt(s: string, sub: string, i: nat) {
    i + |sub| <= |s| && s[i..i + |sub|] == sub
  }

  /** Python's `sub in s`. */
  predicate Contains(s: string, sub: string) {
    exists i: nat | i <= |s| :: OccursAt(s, sub, i)
  }

  /** Whatever sits between two strings occurs in their concatenation. */
  lemma ContainsWithin(a: string, sub: string, b: string)
    ensures Contains(a + sub + b, sub)
  {
    var s := a + sub + b;
    assert s[|a|..|a| + |sub|] == sub;
    assert OccursAt(s, sub, |a|);
  }

  /** Each of three concatenated parts occurs in their concatenation. */
  lemma ContainsParts(a: string, b: string, c: string)
    ensures Contains(a + b + c, a) && Contains(a + b + c, b) && Contains(a + b + c, c)
  {
    ContainsWithin(a, b, c);
    ContainsWithin("", a, b + c);
    assert "" + a + (b + c) == a + b + c;
    ContainsWithin(a + b, c, "");
    assert a + b + c + "" == a + b + c;
  }

  /** Containment is transitive: what occurs in a part of `s` occurs in `s`. */
  lemma ContainsTrans(s: string, mid: string, sub: string)
    requires Contains(s, mid) && Contains(mid, sub)
    ensures Contains(s, sub)
  {
    var i: nat :| i <= |s| && OccursAt(s, mid, i);
    var j: nat :| j <= |mid| && OccursAt(mid, sub, j);
    assert mid == s[i..i + |mid|];
    forall t | 0 <= t < |sub| ensures s[i + j + t] == sub[t] {
      assert sub[t] == mid[j + t] == s[i + j + t];
    }
    assert s[i + j..i + j + |sub|] == sub;
    assert OccursAt(s, sub, i + j);
  }

  /** `"PASS" in "FAIL"` is false and `"PASS" in "PASS"` is true. */
  lemma FailIsNotPass()
    ensures !Contains("FAIL", "PASS") && Contains("PASS", "PASS")
  {
    assert OccursAt("PASS", "PASS", 0);
    forall i: nat | i <= |"FAIL"| ensures !OccursAt("FAIL", "PASS", i) {
      if i == 0 {
        assert "FAIL"[0] != "PASS"[0];
      }
    }
  }

  /** `c * n` for a one-character string `c`. */
  function Repeat(c: char, n: nat): (r: string)
    ensures |r| == n && forall i :: 0 <= i < n ==> r[i] == c
  {
    seq(n, _ => c)
  }

  /** `sep.join(parts)` */
  function Join(sep: string, parts: seq<string>): string {
    if parts == [] then []
    else if |parts| == 1 then parts[0]
    else parts[0] + sep + Join(sep, parts[1..])
  }

  /** `name.split("/")[-1]`: the text after the last `/`, or the whole name when it has none. */
  function LastSegment(name: string): (r: string)
    ensures '/' !in r
    ensures |r| <= |name| && r == name[|name| - |r|..]
    ensures |r| < |name| ==> name[|name| - |r| - 1] == '/'
  {
    if name == [] then []
    else if name[|name| - 1] == '/' then []
    else LastSegment(name[..|name| - 1]) + [name[|name| - 1]]
  }

  /** For an `owner/repo` name, and for any name with slashes, only the part after the last slash survives. */
  lemma LastSegmentOfPath(owner: string, repo: string)
    requires '/' !in repo
    ensures LastSegment(owner + "/" + repo) == repo
    ensures LastSegment(repo) == repo
  {
    var s := owner + "/" + repo;
    assert s[|s| - |repo| - 1] == '/';
  }

  predicate IsDigit(c: char) {
    '0' <= c <= '9'
  }

  predicate AllDigits(s: string) {
    forall i :: 0 <= i < |s| ==> IsDigit(s[i])
  }

  function DigitChar(d: nat): (c: char)
    requires d < 10
    ensures IsDigit(c)
  {
    ('0' as int + d) as char
  }

  /** `str(n)` for a non-negative integer: its decimal digits, without leading zeros. */
  function Decimal(n: nat): (r: string)
    ensures r != [] && AllDigits(r)
    ensures r[0] == '0' ==> n == 0
  {
    if n < 10 then [DigitChar(n)] else Decimal(n / 10) + [DigitChar(n % 10)]
  }

  /** `int(d)` for a run of ASCII digits; leading zeros are allowed, as in Python. */
  function DigitsValue(d: string): nat
    requires AllDigits(d)
  {
    if d == [] then 0 else 10 * DigitsValue(d[..|d| - 1]) + (d[|d| - 1] as int - '0' as int)
  }

  /** `int(str(n)) == n` */
  lemma {:induction false} DigitsValueOfDecimal(n: nat)
    ensures DigitsValue(Decimal(n)) == n
  {
    if n >= 10 {
      var d := Decimal(n);
      assert d[..|d| - 1] == Decimal(n / 10);
      DigitsValueOfDecimal(n / 10);
    }
  }
}
