/** The string operations the handlers rely on, with PHP's and MySQL's
    meanings: trim, empty, decimal rendering, left padding, lower-casing,
    substring search and the ordering of names. */
module Text {

  /** The characters PHP's trim() strips by default. */
  predicate IsTrimChar(c: char)
  {
    c == ' ' || c == '\t' || c == '\n' || c == '\r' || c == '\0' || c == '\U{000B}'
  }

  /** How many trim characters `s` starts with. */
  function TrimStart(s: string): (k: nat)
    ensures k <= |s|
    ensures forall i :: 0 <= i < k ==> IsTrimChar(s[i])
    ensures k < |s| ==> !IsTrimChar(s[k])
  {
    if s == [] || !IsTrimChar(s[0]) then 0 else 1 + TrimStart(s[1..])
  }

  /** Where the trailing run of trim characters of `s` begins. */
  function TrimEnd(s: string): (k: nat)
    ensures k <= |s|
    ensures forall i :: k <= i < |s| ==> IsTrimChar(s[i])
    ensures k > 0 ==> !IsTrimChar(s[k - 1])
  {
    if s == [] || !IsTrimChar(s[|s| - 1]) then |s| else TrimEnd(s[..|s| - 1])
  }

  /** PHP's trim(): `s` without its leading and trailing trim characters. */
  function Trim(s: string): (r: string)
    ensures r == [] || (!IsTrimChar(r[0]) && !IsTrimChar(r[|r| - 1]))
    ensures IsInfixAt(r, s, TrimStart(s))
    ensures forall i :: TrimStart(s) + |r| <= i < |s| ==> IsTrimChar(s[i])
  {
    var a := TrimStart(s);
    var t := s[a..];
    var r := t[..TrimEnd(t)];
    assert r == s[a..a + |r|];
    r
  }

  lemma TrimOfTrimmed(s: string)
    requires s == [] || (!IsTrimChar(s[0]) && !IsTrimChar(s[|s| - 1]))
    ensures Trim(s) == s
  {
  }

  /** A leading trim character is stripped. */
  lemma TrimCons(c: char, s: string)
    requires IsTrimChar(c)
    ensures Trim([c] + s) == Trim(s)
  {
    var cs := [c] + s;
    assert cs[1..] == s;
    assert TrimStart(cs) == 1 + TrimStart(s);
    assert cs[TrimStart(cs)..] == s[TrimStart(s)..];
  }

  /** A trailing trim character is stripped. */
  lemma TrimSnoc(s: string, c: char)
    requires IsTrimChar(c)
    ensures Trim(s + [c]) == Trim(s)
  {
    var sc := s + [c];
    var a := TrimStart(s);
    TrimStartSnoc(s, c);
    if a < |s| {
      var t := s[a..];
      assert sc[a..] == t + [c];
      assert (t + [c])[..|t|] == t;
    } else {
      assert sc[TrimStart(sc)..] == [];
      assert s[a..] == [];
    }
  }

  lemma {:induction false} TrimStartSnoc(s: string, c: char)
    requires IsTrimChar(c)
    ensures TrimStart(s) < |s| ==> TrimStart(s + [c]) == TrimStart(s)
    ensures TrimStart(s) == |s| ==> TrimStart(s + [c]) == |s| + 1
  {
    var sc := s + [c];
    if s == [] {
      assert sc == [c] && sc[1..] == [];
    } else {
      assert sc[0] == s[0];
      assert sc[1..] == s[1..] + [c];
      if IsTrimChar(s[0]) {
        TrimStartSnoc(s[1..], c);
      }
    }
  }

  /** PHP's empty() on a string: true for "" and for "0". */
  predicate PhpEmpty(s: string)
  {
    s == "" || s == "0"
  }

  // ---------------------------------------------------------------
  // Decimal numerals

  function DigitChar(d: nat): (c: char)
    requires d < 10
    ensures '0' <= c <= '9'
  {
    ['0', '1', '2', '3', '4', '5', '6', '7', '8', '9'][d]
  }

  function DigitValue(c: char): (d: nat)
    requires '0' <= c <= '9'
    ensures d < 10
  {
    c as int - '0' as int
  }

  lemma DigitRoundTrip(d: nat)
    requires d < 10
    ensures DigitValue(DigitChar(d)) == d
  {
  }

  predicate AllDigits(s: string)
  {
    forall i :: 0 <= i < |s| ==> '0' <= s[i] <= '9'
  }

  /** The decimal representation of `n`, without leading zeros, as PHP's
      string conversion of an integer writes it. */
  function NatToString(n: nat): (r: string)
    ensures |r| >= 1 && AllDigits(r)
    ensures |r| > 1 ==> r[0] != '0'
  {
    if n < 10 then [DigitChar(n)]
    else NatToString(n / 10) + [DigitChar(n % 10)]
  }

  /** The value of a string of decimal digits (leading zeros allowed). */
  function DigitsValue(s: string): nat
    requires AllDigits(s)
  {
    if s == [] then 0
    else DigitsValue(s[..|s| - 1]) * 10 + DigitValue(s[|s| - 1])
  }

  lemma {:induction false} NatToStringRoundTrip(n: nat)
    ensures DigitsValue(NatToString(n)) == n
  {
    if n >= 10 {
      var s := NatToString(n);
      assert s[..|s| - 1] == NatToString(n / 10);
      NatToStringRoundTrip(n / 10);
      DigitRoundTrip(n % 10);
    } else {
      DigitRoundTrip(n);
    }
  }

  /** Leading zeros do not change the value of a numeral. */
  lemma {:induction false} LeadingZerosValue(z: nat, s: string)
    requires AllDigits(s)
    ensures AllDigits(seq(z, _ => '0') + s)
    ensures DigitsValue(seq(z, _ => '0') + s) == DigitsValue(s)
    decreases |s|
  {
    var zs: string := seq(z, _ => '0');
    var t := zs + s;
    if s == [] {
      assert t == zs;
      ZerosValue(z);
    } else {
      assert t[..|t| - 1] == zs + s[..|s| - 1];
      LeadingZerosValue(z, s[..|s| - 1]);
    }
  }

  lemma {:induction false} ZerosValue(z: nat)
    ensures DigitsValue(seq(z, _ => '0')) == 0
  {
    if z > 0 {
      assert seq(z, _ => '0')[..z - 1] == seq(z - 1, _ => '0');
      ZerosValue(z - 1);
    }
  }

  /** The decimal representation of an integer, with a '-' for negatives. */
  function IntToString(i: int): (r: string)
    ensures i >= 0 ==> r == NatToString(i)
    ensures i < 0 ==> r == "-" + NatToString(-i)
  {
    if i >= 0 then NatToString(i) else "-" + NatToString(-i)
  }

  // ---------------------------------------------------------------
  // PHP's conversion of a string to an integer

  /** The whitespace PHP skips before a numeric string. */
  predicate IsNumericSpace(c: char)
  {
    c == ' ' || c == '\t' || c == '\n' || c == '\r' || c == '\U{B}' || c == '\U{C}'
  }

  /** The length of the run of leading numeric whitespace. */
  function SpaceRun(s: string): (k: nat)
    ensures k <= |s|
    ensures forall i :: 0 <= i < k ==> IsNumericSpace(s[i])
    ensures k < |s| ==> !IsNumericSpace(s[k])
  {
    if s == [] || !IsNumericSpace(s[0]) then 0 else 1 + SpaceRun(s[1..])
  }

  /** The length of the run of leading decimal digits. */
  function DigitRun(s: string): (k: nat)
    ensures k <= |s|
    ensures AllDigits(s[..k])
    ensures k < |s| ==> !('0' <= s[k] <= '9')
  {
    if s == [] || !('0' <= s[0] <= '9') then 0
    else
      var k := 1 + DigitRun(s[1..]);
      assert s[..k] == [s[0]] + s[1..][..k - 1];
      k
  }

  /** The integer a string converts to: leading whitespace, an optional
      sign and the longest run of digits after it; no digits reads as 0. */
  function StringIntVal(s: string): int
  {
    var t := s[SpaceRun(s)..];
    if t != [] && (t[0] == '-' || t[0] == '+') then
      var u := t[1..];
      var v: int := DigitsValue(u[..DigitRun(u)]);
      if t[0] == '-' then -v else v
    else DigitsValue(t[..DigitRun(t)])
  }

  /** The range of a 64-bit PHP integer. */
  const PhpIntMax: int := 0x7FFF_FFFF_FFFF_FFFF
  const PhpIntMin: int := -0x8000_0000_0000_0000

  /** intval of a string: the value read, held to the integer range
      (a numeral past either end gives that end). */
  function PhpIntVal(s: string): (r: int)
    ensures PhpIntMin <= r <= PhpIntMax
    ensures PhpIntMin <= StringIntVal(s) <= PhpIntMax ==> r == StringIntVal(s)
    ensures StringIntVal(s) > PhpIntMax ==> r == PhpIntMax
    ensures StringIntVal(s) < PhpIntMin ==> r == PhpIntMin
  {
    var v := StringIntVal(s);
    if v > PhpIntMax then PhpIntMax else if v < PhpIntMin then PhpIntMin else v
  }

  /** A numeral within range reads back as itself; a longer one reads as
      the largest integer. */
  lemma PhpIntValOfNumeral(n: nat)
    ensures n <= PhpIntMax ==> PhpIntVal(NatToString(n)) == n
    ensures n > PhpIntMax ==> PhpIntVal(NatToString(n)) == PhpIntMax
  {
    StringIntValOfNumeral(n);
  }

  /** The conversion reads back every decimal numeral, unsigned or
      signed, skips leading whitespace, and stops at the first character
      that is not a digit. */
  lemma StringIntValOfNumeral(n: nat)
    ensures StringIntVal(NatToString(n)) == n
  {
    var d := NatToString(n);
    NatToStringRoundTrip(n);
    DigitRunOfNumeral(d, []);
    assert d + [] == d;
  }

  lemma StringIntValOfNegative(n: nat)
    ensures StringIntVal("-" + NatToString(n)) == -(n as int)
  {
    var d := NatToString(n);
    NatToStringRoundTrip(n);
    DigitRunOfNumeral(d, []);
    assert d + [] == d;
    var neg := "-" + d;
    assert SpaceRun(neg) == 0;
    assert neg[0..][1..] == d;
  }

  lemma StringIntValStopsAtNonDigit(n: nat, tail: string)
    requires tail == [] || !('0' <= tail[0] <= '9')
    ensures StringIntVal(NatToString(n) + tail) == n
  {
    var d := NatToString(n);
    NatToStringRoundTrip(n);
    DigitRunOfNumeral(d, tail);
    var t := d + tail;
    assert t[SpaceRun(t)..] == t;
    assert t[0] == d[0];
  }

  /** Leading whitespace does not change the value. */
  lemma LeadingSpaceSkipped(t: string)
    ensures StringIntVal(" " + t) == StringIntVal(t)
  {
    var s := " " + t;
    assert s[1..] == t;
    assert SpaceRun(s) == 1 + SpaceRun(t);
    assert s[SpaceRun(s)..] == t[SpaceRun(t)..];
  }

  lemma DigitRunOfNumeral(d: string, tail: string)
    requires |d| >= 1 && AllDigits(d)
    requires tail == [] || !('0' <= tail[0] <= '9')
    ensures SpaceRun(d + tail) == 0
    ensures DigitRun(d + tail) == |d| && (d + tail)[..|d|] == d
  {
    DigitRunPrefix(d, tail);
  }

  lemma {:induction false} DigitRunPrefix(d: string, tail: string)
    requires AllDigits(d)
    requires tail == [] || !('0' <= tail[0] <= '9')
    ensures DigitRun(d + tail) == |d|
    ensures (d + tail)[..|d|] == d
  {
    if d != [] {
      assert (d + tail)[1..] == d[1..] + tail;
      DigitRunPrefix(d[1..], tail);
    } else {
      assert d + tail == tail;
    }
  }

  /** PHP's str_pad(s, width, [c], STR_PAD_LEFT). */
  function PadLeft(s: string, width: nat, c: char): (r: string)
    ensures |r| == if |s| >= width then |s| else width
    ensures r[|r| - |s|..] == s
    ensures forall i :: 0 <= i < |r| - |s| ==> r[i] == c
  {
    if |s| >= width then s else seq(width - |s|, _ => c) + s
  }

  // ---------------------------------------------------------------
  // Case and substring search

  function LowerChar(c: char): char
  {
    if 'A' <= c <= 'Z' then (c as int + 32) as char else c
  }

  /** ASCII lower-casing, as PHP's strtolower() does for ASCII input. */
  function Lower(s: string): (r: string)
    ensures |r| == |s|
    ensures forall i :: 0 <= i < |s| ==> r[i] == LowerChar(s[i])
  {
    seq(|s|, i requires 0 <= i < |s| => LowerChar(s[i]))
  }

  predicate IsInfixAt(needle: string, hay: string, i: int)
  {
    0 <= i && i + |needle| <= |hay| && hay[i..i + |needle|] == needle
  }

  /** `needle` occurs somewhere in `hay`. */
  predicate Contains(hay: string, needle: string)
  {
    exists i :: 0 <= i <= |hay| - |needle| && IsInfixAt(needle, hay, i)
  }

  // ---------------------------------------------------------------
  // SQL LIKE

  predicate IsLikeSpecial(c: char)
  {
    c == '%' || c == '_' || c == '\\'
  }

  /** A pattern with no wildcard and no escape character. */
  predicate Plain(p: string)
  {
    forall i :: 0 <= i < |p| ==> !IsLikeSpecial(p[i])
  }

  /** `s LIKE p` with MySQL's default escape: `%` matches any run of
      characters, `_` exactly one, and a backslash makes the character after
      it literal (a backslash that ends the pattern stands for itself). */
  predicate LikeMatch(s: string, p: string)
    decreases |s| + |p|
  {
    if p == [] then s == []
    else if p[0] == '%' then LikeMatch(s, p[1..]) || (s != [] && LikeMatch(s[1..], p))
    else if s == [] then false
    else if p[0] == '_' then LikeMatch(s[1..], p[1..])
    else if p[0] == '\\' && |p| >= 2 then s[0] == p[1] && LikeMatch(s[1..], p[2..])
    else s[0] == p[0] && LikeMatch(s[1..], p[1..])
  }

  /** `hay LIKE pattern` under a case-insensitive collation. */
  predicate Like(hay: string, pattern: string)
  {
    LikeMatch(Lower(hay), Lower(pattern))
  }

  /** `hay LIKE '%needle%'`, the pattern built around a search text;
      wildcards inside `needle` keep their meaning. */
  predicate LikeContains(hay: string, needle: string)
  {
    Like(hay, "%" + needle + "%")
  }

  lemma {:induction false} PercentMatchesAll(s: string)
    ensures LikeMatch(s, "%")
    decreases |s|
  {
    if s != [] {
      PercentMatchesAll(s[1..]);
    }
  }

  /** A plain pattern followed by `%` matches exactly the texts it starts. */
  lemma {:induction false} PlainThenPercent(s: string, q: string)
    requires Plain(q)
    ensures LikeMatch(s, q + "%") <==> |q| <= |s| && s[..|q|] == q
    decreases |q|
  {
    if q == [] {
      assert q + "%" == "%";
      PercentMatchesAll(s);
    } else {
      var p := q + "%";
      assert p[0] == q[0] && !IsLikeSpecial(q[0]);
      assert p[1..] == q[1..] + "%";
      assert Plain(q[1..]) by {
        forall i | 0 <= i < |q[1..]| ensures !IsLikeSpecial(q[1..][i]) {
          assert q[1..][i] == q[i + 1];
        }
      }
      if s != [] {
        PlainThenPercent(s[1..], q[1..]);
        if |q| <= |s| && s[..|q|] == q {
          assert s[1..][..|q| - 1] == s[..|q|][1..];
        }
        if LikeMatch(s, p) {
          assert s[..|q|] == [s[0]] + s[1..][..|q| - 1];
          assert q == [q[0]] + q[1..];
        }
      }
    }
  }

  /** A leading `%` lets the rest of the pattern start anywhere. */
  lemma {:induction false} PercentThen(s: string, r: string)
    ensures LikeMatch(s, "%" + r) <==> exists k :: 0 <= k <= |s| && LikeMatch(s[k..], r)
    decreases |s|
  {
    var p := "%" + r;
    assert p[0] == '%' && p[1..] == r;
    if s == [] {
      assert s[0..] == s;
    } else {
      PercentThen(s[1..], r);
      if LikeMatch(s, p) {
        if LikeMatch(s, r) {
          assert s[0..] == s;
        } else {
          var k :| 0 <= k <= |s[1..]| && LikeMatch(s[1..][k..], r);
          assert s[1..][k..] == s[k + 1..];
        }
      }
      if exists k :: 0 <= k <= |s| && LikeMatch(s[k..], r) {
        var k :| 0 <= k <= |s| && LikeMatch(s[k..], r);
        if k == 0 {
          assert s[0..] == s;
        } else {
          assert s[1..][k - 1..] == s[k..];
        }
      }
    }
  }

  lemma LowerConcat(a: string, b: string)
    ensures Lower(a + b) == Lower(a) + Lower(b)
  {
    assert forall i :: 0 <= i < |a + b| ==> Lower(a + b)[i] == (Lower(a) + Lower(b))[i];
  }

  lemma LowerKeepsPlain(p: string)
    requires Plain(p)
    ensures Plain(Lower(p))
  {
  }

  /** For a search text without `%`, `_` or a backslash, the LIKE search is
      a case-insensitive substring test. */
  lemma {:induction false} PlainLikeContains(hay: string, needle: string)
    requires Plain(needle)
    ensures LikeContains(hay, needle) <==> Contains(Lower(hay), Lower(needle))
  {
    var s, q := Lower(hay), Lower(needle);
    LowerConcat("%" + needle, "%");
    LowerConcat("%", needle);
    assert Lower("%") == "%";
    assert Lower("%" + needle + "%") == "%" + (q + "%");
    LowerKeepsPlain(needle);
    PercentThen(s, q + "%");
    forall k | 0 <= k <= |s|
      ensures LikeMatch(s[k..], q + "%") <==> k + |q| <= |s| && IsInfixAt(q, s, k)
    {
      PlainThenPercent(s[k..], q);
      if k + |q| <= |s| {
        assert s[k..][..|q|] == s[k..k + |q|];
      }
    }
  }

  lemma EmptyLikeContains(hay: string)
    ensures LikeContains(hay, "")
  {
    PlainLikeContains(hay, "");
    assert IsInfixAt(Lower(""), Lower(hay), 0);
  }

  /** The search text keeps its wildcards: `_` alone matches every
      non-empty text, and `%` alone every text. */
  lemma WildcardSearches(hay: string)
    ensures LikeContains(hay, "_") <==> hay != []
    ensures LikeContains(hay, "%")
  {
    var s := Lower(hay);
    LowerConcat("%" + "_", "%");
    LowerConcat("%", "_");
    assert Lower("%") == "%" && Lower("_") == "_";
    var p := "%" + "_" + "%";
    assert Lower(p) == p;
    assert p[0] == '%' && p[1..] == "_%";
    assert "_%"[0] == '_' && "_%"[1..] == "%";
    if hay == [] {
      assert !LikeMatch(s, "_%");
      assert !LikeMatch(s, p);
    } else {
      PercentMatchesAll(s[1..]);
      assert LikeMatch(s, "_%");
      assert LikeMatch(s, p);
    }
    LowerConcat("%" + "%", "%");
    LowerConcat("%", "%");
    var all := "%" + "%" + "%";
    assert Lower(all) == all;
    assert all[0] == '%' && all[1..] == "%%";
    assert "%%"[0] == '%' && "%%"[1..] == "%";
    PercentMatchesAll(s);
  }

  // ---------------------------------------------------------------
  // Ordering of names (ORDER BY nome ASC, by code point)

  /** Lexicographic order by code point. */
  predicate StrLe(a: string, b: string)
  {
    if a == [] then true
    else if b == [] then false
    else if a[0] != b[0] then a[0] < b[0]
    else StrLe(a[1..], b[1..])
  }

  lemma {:induction false} StrLeTotal(a: string, b: string)
    ensures StrLe(a, b) || StrLe(b, a)
  {
    if a != [] && b != [] && a[0] == b[0] {
      StrLeTotal(a[1..], b[1..]);
    }
  }

  lemma {:induction false} StrLeTransitive(a: string, b: string, c: string)
    requires StrLe(a, b) && StrLe(b, c)
    ensures StrLe(a, c)
  {
    if a != [] && b != [] && c != [] && a[0] == b[0] && b[0] == c[0] {
      StrLeTransitive(a[1..], b[1..], c[1..]);
    }
  }

  lemma {:induction false} StrLeAntisymmetric(a: string, b: string)
    requires StrLe(a, b) && StrLe(b, a)
    ensures a == b
  {
    if a != [] && b != [] {
      StrLeAntisymmetric(a[1..], b[1..]);
    }
  }
}
