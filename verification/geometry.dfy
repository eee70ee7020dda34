/**
 * The two static text helpers on (E)WKT geometry that the base driver and the
 * feature store share: detecting the geometry type and cutting coordinate
 * digits with a regular expression.
 */
module GeometryText {
  import opened PhpValues
  import opened Wrappers

  predicate StartsWith(s: string, prefix: string) {
    |prefix| <= |s| && s[..|prefix|] == prefix
  }

  /** `strpos($s, $c)` for one character: the first index holding `c`, or
      None where PHP returns false. */
  function IndexOf(s: string, c: char): (r: Option<nat>)
    ensures r.Some? ==> r.value < |s| && s[r.value] == c && c !in s[..r.value]
    ensures r.None? ==> c !in s
  {
    if s == [] then None
    else if s[0] == c then Some(0)
    else
      match IndexOf(s[1..], c)
      case Some(i) =>
        assert s[..i + 1] == [s[0]] + s[1..][..i];
        Some(i + 1)
      case None => None
  }

  /** The text `getWktType` inspects: an EWKT text (one starting with "SRID")
      loses everything up to and including its first ';'. Without a ';',
      `strpos` yields false, `false + 1` is 1, and only the first character
      is dropped. */
  function WktBody(wkt: string): (body: string)
    ensures !StartsWith(wkt, "SRID") ==> body == wkt
    ensures StartsWith(wkt, "SRID") && IndexOf(wkt, ';').Some? ==>
              body == wkt[IndexOf(wkt, ';').value + 1..]
  {
    if StartsWith(wkt, "SRID") then
      var cut := match IndexOf(wkt, ';') case Some(i) => i + 1 case None => 1;
      wkt[cut..]
    else wkt
  }

  /** `getWktType`: the part of the body before its first '(', not trimmed;
      the empty string when there is no '(' (`substr($wkt, 0, false)`). */
  function WktType(wkt: string): (r: string)
    ensures '(' !in r
    ensures '(' !in WktBody(wkt) ==> r == ""
    ensures '(' in WktBody(wkt) ==> StartsWith(WktBody(wkt), r + "(")
  {
    var body := WktBody(wkt);
    match IndexOf(body, '(')
    case Some(i) =>
      assert body[..i + 1] == body[..i] + "(";
      body[..i]
    case None => ""
  }

  lemma {:induction false} IndexOfFirst(s: string, c: char, i: nat)
    requires i < |s| && s[i] == c
    requires forall k :: 0 <= k < i ==> s[k] != c
    ensures IndexOf(s, c) == Some(i)
  {
    if i > 0 {
      IndexOfFirst(s[1..], c, i - 1);
    }
  }

  /** On WKT text the type is everything before the first '('. */
  lemma {:induction false} WktTypeOfWkt(wkt: string, i: nat)
    requires !StartsWith(wkt, "SRID")
    requires i < |wkt| && wkt[i] == '(' && forall k :: 0 <= k < i ==> wkt[k] != '('
    ensures WktType(wkt) == wkt[..i]
  {
    IndexOfFirst(wkt, '(', i);
  }

  /** On EWKT text the type is everything between the first ';' and the
      first '(' after it. */
  lemma {:induction false} WktTypeOfEwkt(ewkt: string, j: nat, i: nat)
    requires StartsWith(ewkt, "SRID")
    requires j < |ewkt| && ewkt[j] == ';' && forall k :: 0 <= k < j ==> ewkt[k] != ';'
    requires j + 1 + i < |ewkt| && ewkt[j + 1 + i] == '('
    requires forall k :: j + 1 <= k < j + 1 + i ==> ewkt[k] != '('
    ensures WktType(ewkt) == ewkt[j + 1..j + 1 + i]
  {
    IndexOfFirst(ewkt, ';', j);
    var body := ewkt[j + 1..];
    IndexOfFirst(body, '(', i);
  }

  lemma NotEwkt(wkt: string)
    requires |wkt| >= 4 && wkt[0] != 'S'
    ensures !StartsWith(wkt, "SRID")
  {
    assert wkt[..4][0] == wkt[0];
  }

  lemma EwktExampleShape(e: string)
    requires e == "SRID=4326;POINT(1 2)"
    ensures StartsWith(e, "SRID")
    ensures e[9] == ';' && forall k :: 0 <= k < 9 ==> e[k] != ';'
    ensures e[15] == '(' && forall k :: 10 <= k < 15 ==> e[k] != '('
    ensures e[10..15] == "POINT"
  {
  }

  /** An EWKT text: the SRID prefix is skipped. */
  lemma WktTypeEwktExample()
    ensures WktType("SRID=4326;POINT(1 2)") == "POINT"
  {
    var e := "SRID=4326;POINT(1 2)";
    EwktExampleShape(e);
    WktTypeOfEwkt(e, 9, 5);
  }

  /** A WKT text whose type name is `t`: the type is `t` exactly, with no
      trimming. */
  lemma WktTypeOfPrefix(t: string, rest: string)
    requires t != [] && t[0] != 'S' && '(' !in t
    ensures WktType(t + "(" + rest) == t
  {
    var w := t + "(" + rest;
    if |w| >= 4 {
      assert w[..4][0] == w[0] == t[0];
    }
    assert forall k :: 0 <= k < |t| ==> w[k] == t[k];
    WktTypeOfWkt(w, |t|);
    assert w[..|t|] == t;
  }

  /** A WKT polygon: the type is the text before its first '('. */
  lemma WktTypeWktExample(p: string)
    requires p == "POLYGON((0 0,1 1,1 0,0 0))"
    ensures WktType(p) == "POLYGON"
  {
    var t := p[..7];
    assert t == "POLYGON" && p[7] == '(';
    assert p == t + "(" + p[8..];
    WktTypeOfPrefix(t, p[8..]);
  }

  /** The type is not trimmed: a space before '(' stays part of it. */
  lemma WktTypeUntrimmed(p: string)
    requires p == "POINT (1 2)"
    ensures WktType(p) == "POINT "
  {
    WktTypeOfPrefix("POINT ", p[7..]);
    assert p == "POINT " + "(" + p[7..];
  }

  /** Text without a parenthesis gives the empty string, not an error. */
  lemma WktTypeWithoutParenthesis()
    ensures WktType("POINT EMPTY") == ""
  {
    var q := "POINT EMPTY";
    NotEwkt(q);
    assert WktBody(q) == q;
    assert forall k :: 0 <= k < |q| ==> q[k] != '(';
  }

  /** End of the run of digits that starts at position `i`. */
  function DigitRunEnd(s: string, i: nat): (j: nat)
    requires i <= |s|
    ensures i <= j <= |s|
    ensures forall k :: i <= k < j ==> IsDigit(s[k])
    ensures j < |s| ==> !IsDigit(s[j])
    decreases |s| - i
  {
    if i < |s| && IsDigit(s[i]) then DigitRunEnd(s, i + 1) else i
  }

  /** A successful match at the start of the subject: `s[..keep]` is what the
      replacement `$1.$2` writes back and `s[..end]` is the whole match. */
  datatype Match = Match(keep: nat, end: nat)

  /**
   * Tries the effective pattern `(\d+)\.(\d<lit>)\d+` at the start of `s`,
   * where `<lit>` is the interpolated precision taken as literal text. The
   * first `\d+` can only stop right before the '.', so it takes the whole
   * run of digits; the last `\d+` is greedy and takes its whole run too.
   */
  function MatchAt(s: string, lit: string): (r: Option<Match>)
    ensures r.Some? ==> 0 < r.value.keep < r.value.end <= |s|
  {
    var e := DigitRunEnd(s, 0);
    var q := e + 2 + |lit|;
    if 0 < e && q < |s| && s[e] == '.' && IsDigit(s[e + 1]) && s[e + 2..q] == lit
       && IsDigit(s[q])
    then Some(Match(q, DigitRunEnd(s, q)))
    else None
  }

  /** What a match consists of: digits, a point, a digit, the precision
      text, and the whole run of digits that follows. */
  lemma MatchAtShape(s: string, lit: string)
    requires MatchAt(s, lit).Some?
    ensures var m := MatchAt(s, lit).value; var e := m.keep - 2 - |lit|;
      && 0 < e && m.keep == e + 2 + |lit| < m.end <= |s|
      && (forall k :: 0 <= k < e ==> IsDigit(s[k]))
      && s[e] == '.' && IsDigit(s[e + 1]) && s[e + 2..m.keep] == lit
      && (forall k :: m.keep <= k < m.end ==> IsDigit(s[k]))
      && (m.end < |s| ==> !IsDigit(s[m.end]))
  {
  }

  /** `preg_replace` of the effective pattern by `$1.$2`: scans left to right,
      replaces the leftmost match, and resumes after it. */
  function Replace(s: string, lit: string): (r: string)
    ensures |r| <= |s|
    decreases |s|
  {
    if s == [] then []
    else
      match MatchAt(s, lit)
      case Some(m) => s[..m.keep] + Replace(s[m.end..], lit)
      case None => [s[0]] + Replace(s[1..], lit)
  }

  /** `roundGeometry($geometry, $round)`. The pattern sits in a double-quoted
      string, so `{$round}` is interpolated: with the default 2 the pattern is
      `(\d+)\.(\d2)\d+`, a digit followed by the character '2', and not
      `\d{2}`. */
  function RoundGeometry(geometry: string, round: int): (r: string)
    ensures |r| <= |geometry|
    ensures NonDigits(r) == NonDigits(geometry)
  {
    ReplaceKeepsNonDigits(geometry, IntToString(round));
    Replace(geometry, IntToString(round))
  }

  /** The characters of `s` that are not decimal digits, in order. */
  function NonDigits(s: string): string {
    if s == [] then []
    else if IsDigit(s[0]) then NonDigits(s[1..])
    else [s[0]] + NonDigits(s[1..])
  }

  lemma {:induction false} NonDigitsAppend(a: string, b: string)
    ensures NonDigits(a + b) == NonDigits(a) + NonDigits(b)
  {
    if a == [] {
      assert a + b == b;
    } else {
      assert (a + b)[1..] == a[1..] + b;
      NonDigitsAppend(a[1..], b);
    }
  }

  lemma {:induction false} NonDigitsOfDigits(s: string)
    requires forall k :: 0 <= k < |s| ==> IsDigit(s[k])
    ensures NonDigits(s) == []
  {
    if s != [] {
      NonDigitsOfDigits(s[1..]);
    }
  }

  /** Rounding only deletes digits: every other character (parentheses,
      commas, spaces, points, letters) survives, in order. */
  lemma {:induction false} ReplaceKeepsNonDigits(s: string, lit: string)
    ensures NonDigits(Replace(s, lit)) == NonDigits(s)
    decreases |s|
  {
    if s != [] {
      match MatchAt(s, lit)
      case Some(m) =>
        ReplaceMatch(s, lit, m);
        ReplaceKeepsNonDigits(s[m.end..], lit);
        NonDigitsOfMatch(s, lit, m);
        NonDigitsAppend(s[..m.keep], Replace(s[m.end..], lit));
      case None =>
        ReplaceSkip(s, lit);
        ReplaceKeepsNonDigits(s[1..], lit);
        NonDigitsAppend([s[0]], Replace(s[1..], lit));
    }
  }

  /** A match deletes only digits. */
  lemma MatchedDigits(s: string, lit: string)
    requires MatchAt(s, lit).Some?
    ensures forall k :: MatchAt(s, lit).value.keep <= k < MatchAt(s, lit).value.end ==> IsDigit(s[k])
  {
  }

  /** The digits a match deletes carry no other character. */
  lemma NonDigitsOfMatch(s: string, lit: string, m: Match)
    requires MatchAt(s, lit) == Some(m)
    ensures NonDigits(s) == NonDigits(s[..m.keep]) + NonDigits(s[m.end..])
  {
    MatchedDigits(s, lit);
    NonDigitsOfDigitRun(s, m.keep, m.end);
  }

  /** Cutting a run of digits out of a text leaves its other characters. */
  lemma {:induction false} NonDigitsOfDigitRun(s: string, keep: nat, end: nat)
    requires keep <= end <= |s|
    requires forall k :: keep <= k < end ==> IsDigit(s[k])
    ensures NonDigits(s) == NonDigits(s[..keep]) + NonDigits(s[end..])
  {
    var head, mid, tail := s[..keep], s[keep..end], s[end..];
    assert forall k :: 0 <= k < |mid| ==> mid[k] == s[keep + k];
    NonDigitsOfDigits(mid);
    assert s == head + mid + tail;
    NonDigitsAppend(head + mid, tail);
    NonDigitsAppend(head, mid);
  }

  /** Text without a decimal point cannot match and comes back unchanged. */
  lemma {:induction false} ReplaceWithoutPoint(s: string, lit: string)
    requires '.' !in s
    ensures Replace(s, lit) == s
    decreases |s|
  {
    if s != [] {
      assert MatchAt(s, lit).None?;
      ReplaceWithoutPoint(s[1..], lit);
    }
  }

  lemma {:induction false} DigitRunEndOver(s: string, i: nat, j: nat)
    requires i <= j <= |s|
    requires forall k :: i <= k < j ==> IsDigit(s[k])
    requires j < |s| ==> !IsDigit(s[j])
    ensures DigitRunEnd(s, i) == j
    decreases j - i
  {
    if i < j {
      DigitRunEndOver(s, i + 1, j);
    }
  }

  /** With the default precision the interpolated pattern text is "2". */
  lemma RoundTwo(g: string)
    ensures RoundGeometry(g, 2) == Replace(g, "2")
  {
    assert IntToString(2) == "2";
  }

  /** Where the precision-2 pattern matches a number whose second fractional
      digit is '2': from its start to the end of its digits. */
  lemma MatchShape(a: string, d: char, b: string, rest: string)
    requires |a| > 0 && forall k :: 0 <= k < |a| ==> IsDigit(a[k])
    requires IsDigit(d)
    requires |b| > 0 && forall k :: 0 <= k < |b| ==> IsDigit(b[k])
    requires rest == [] || !IsDigit(rest[0])
    ensures MatchAt(a + ['.', d, '2'] + b + rest, "2") == Some(Match(|a| + 3, |a| + 3 + |b|))
  {
    var s := a + ['.', d, '2'] + b + rest;
    var e := |a| + 3 + |b|;
    assert forall k :: 0 <= k < |a| ==> s[k] == a[k];
    DigitRunEndOver(s, 0, |a|);
    assert forall k :: |a| + 3 <= k < e ==> s[k] == b[k - |a| - 3];
    DigitRunEndOver(s, |a| + 3, e);
    assert s[|a| + 2..|a| + 3] == "2";
  }

  /** A number whose second fractional digit is the character '2' loses every
      fractional digit after it, and the scan goes on after the number. */
  lemma CutsAfterDigitTwo(a: string, d: char, b: string, rest: string)
    requires |a| > 0 && forall k :: 0 <= k < |a| ==> IsDigit(a[k])
    requires IsDigit(d)
    requires |b| > 0 && forall k :: 0 <= k < |b| ==> IsDigit(b[k])
    requires rest == [] || !IsDigit(rest[0])
    ensures RoundGeometry(a + ['.', d, '2'] + b + rest, 2) == a + ['.', d, '2'] + RoundGeometry(rest, 2)
  {
    var s := a + ['.', d, '2'] + b + rest;
    var e := |a| + 3 + |b|;
    RoundTwo(s);
    RoundTwo(rest);
    MatchShape(a, d, b, rest);
    ReplaceMatch(s, "2", Match(|a| + 3, e));
    assert s[..|a| + 3] == a + ['.', d, '2'];
    assert s[e..] == rest;
  }

  /** A scan step where no match starts: the first character is kept. */
  lemma ReplaceSkip(s: string, lit: string)
    requires s != [] && MatchAt(s, lit).None?
    ensures Replace(s, lit) == [s[0]] + Replace(s[1..], lit)
  {
  }

  /** A scan step at a match: its kept part is written and the scan resumes
      after the match. */
  lemma ReplaceMatch(s: string, lit: string, m: Match)
    requires MatchAt(s, lit) == Some(m)
    ensures Replace(s, lit) == s[..m.keep] + Replace(s[m.end..], lit)
  {
  }

  /** A point with a digit before it and the character '2' two places after
      it: where the precision-2 pattern can match. */
  predicate PointBeforeTwoAt(s: string, k: nat) {
    0 < k && k + 2 < |s| && IsDigit(s[k - 1]) && s[k] == '.' && s[k + 2] == '2'
  }

  /** Every match of the precision-2 pattern has such a point. */
  lemma MatchNeedsPointBeforeTwo(s: string)
    ensures MatchAt(s, "2").Some? ==>
              MatchAt(s, "2").value.keep >= 4 && PointBeforeTwoAt(s, MatchAt(s, "2").value.keep - 3)
  {
    if MatchAt(s, "2").Some? {
      MatchAtShape(s, "2");
      var m := MatchAt(s, "2").value;
      assert s[m.keep - 1] == s[m.keep - 1..m.keep][0];
    }
  }

  /** A text without such a point is left as it is. */
  lemma {:induction false} NoPointBeforeTwoKept(s: string)
    requires forall k: nat :: !PointBeforeTwoAt(s, k)
    ensures RoundGeometry(s, 2) == s
    decreases |s|
  {
    assert IntToString(2) == "2";
    if s != [] {
      MatchNeedsPointBeforeTwo(s);
      forall k: nat ensures !PointBeforeTwoAt(s[1..], k) {
        if 0 < k {
          assert PointBeforeTwoAt(s[1..], k) ==> PointBeforeTwoAt(s, k + 1);
        }
      }
      NoPointBeforeTwoKept(s[1..]);
      ReplaceSkip(s, "2");
    }
  }

  /** "1.23456" is left as it is: its second fractional digit is not '2'. */
  lemma RoundGeometryKeepExample(s: string)
    requires s == "1.23456"
    ensures RoundGeometry(s, 2) == s
  {
    forall k: nat ensures !PointBeforeTwoAt(s, k) {
      if 0 < k && k + 2 < |s| && s[k] == '.' {
        assert k == 1;
      }
    }
    NoPointBeforeTwoKept(s);
  }

  /** A point with two long coordinates is left as it is: neither number
      has '2' as its second fractional digit. */
  lemma RoundGeometryPointExample(s: string)
    requires s == "POINT(1.23456 7.89123)"
    ensures RoundGeometry(s, 2) == s
  {
    forall k: nat ensures !PointBeforeTwoAt(s, k) {
      if 0 < k && k + 2 < |s| && s[k] == '.' {
        assert k == 7 || k == 15;
      }
    }
    NoPointBeforeTwoKept(s);
  }

  /** One pass over a text shaped like "1.123.424": the first number is cut,
      and the scan resumes at the second point, whose digits before it were
      consumed, so the second number is left as it is. */
  lemma FirstPassCutsFirstNumber(x: char, y: char, z: char, d: char, e: char)
    requires IsDigit(x) && IsDigit(y) && IsDigit(z) && IsDigit(d) && IsDigit(e)
    ensures RoundGeometry([x, '.', y, '2', z, '.', d, '2', e], 2) == [x, '.', y, '2', '.', d, '2', e]
  {
    var rest := ['.', d, '2', e];
    assert [x, '.', y, '2', z, '.', d, '2', e] == [x] + ['.', y, '2'] + [z] + rest;
    CutsAfterDigitTwo([x], y, [z], rest);
    forall k: nat ensures !PointBeforeTwoAt(rest, k) {
      if 0 < k < |rest| {
        assert rest[k] != '.';
      }
    }
    NoPointBeforeTwoKept(rest);
    assert [x] + ['.', y, '2'] + rest == [x, '.', y, '2', '.', d, '2', e];
  }

  /** The scan over "1.12.424" finds no match at its first two characters:
      the first number has no digit after its '2'. */
  lemma SecondPassSkipsFirstNumber(x: char, y: char, d: char, e: char)
    requires IsDigit(x) && IsDigit(y) && IsDigit(d) && IsDigit(e)
    ensures Replace([x, '.', y, '2', '.', d, '2', e], "2") == [x, '.'] + Replace([y, '2', '.', d, '2', e], "2")
  {
    var t := [x, '.', y, '2', '.', d, '2', e];
    SkipsShortNumber(t);
    assert t[..2] == [x, '.'] && t[2..] == [y, '2', '.', d, '2', e];
  }

  /** A one-digit integer part whose fraction is followed by a non-digit
      after one more character cannot start a match: the scan writes the
      digit and the point unchanged. */
  lemma SkipsShortNumber(s: string)
    requires |s| > 4 && IsDigit(s[0]) && s[1] == '.' && !IsDigit(s[4])
    ensures Replace(s, "2") == s[..2] + Replace(s[2..], "2")
  {
    DigitRunEndOver(s, 0, 1);
    assert MatchAt(s, "2").None?;
    ReplaceSkip(s, "2");
    var u := s[1..];
    assert DigitRunEnd(u, 0) == 0;
    ReplaceSkip(u, "2");
    assert u[1..] == s[2..];
  }

  /** The tail "y2.d2e" of the first pass's result loses its last digit. */
  lemma SecondNumberCut(y: char, d: char, e: char)
    requires IsDigit(y) && IsDigit(d) && IsDigit(e)
    ensures Replace([y, '2', '.', d, '2', e], "2") == [y, '2', '.', d, '2']
  {
    var v := [y, '2', '.', d, '2', e];
    assert v == [y, '2'] + ['.', d, '2'] + [e] + [];
    MatchShape([y, '2'], d, [e], []);
    ReplaceMatch(v, "2", Match(5, 6));
    assert v[6..] == [];
  }

  /** A second pass over the result: the second number now matches. */
  lemma SecondPassCutsSecondNumber(x: char, y: char, d: char, e: char)
    requires IsDigit(x) && IsDigit(y) && IsDigit(d) && IsDigit(e)
    ensures RoundGeometry([x, '.', y, '2', '.', d, '2', e], 2) == [x, '.', y, '2', '.', d, '2']
  {
    SecondPassSkipsFirstNumber(x, y, d, e);
    SecondNumberCut(y, d, e);
    RoundTwo([x, '.', y, '2', '.', d, '2', e]);
  }

  /** Rounding is not idempotent: on every text shaped like "1.123.424" the
      second pass finds a match that the first pass created by moving the
      scan position. */
  lemma RoundGeometryNotIdempotent(x: char, y: char, z: char, d: char, e: char)
    requires IsDigit(x) && IsDigit(y) && IsDigit(z) && IsDigit(d) && IsDigit(e)
    ensures var s := [x, '.', y, '2', z, '.', d, '2', e];
            RoundGeometry(RoundGeometry(s, 2), 2) != RoundGeometry(s, 2)
  {
    FirstPassCutsFirstNumber(x, y, z, d, e);
    SecondPassCutsSecondNumber(x, y, d, e);
  }
}
