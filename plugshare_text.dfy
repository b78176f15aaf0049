/**
 * Model of the text helpers of evlens/data/plugshare.py:
 * CheckIn._get_power_number, the `_get_checkin_count` helper of
 * scrape_location, the zero-padding of an integer location id, and the
 * last-path-segment split of parse_location_link.
 *
 * Cell values are modelled by `Value`: Null stands for Python's None and
 * for numpy's NaN, which pandas treats alike.
 */
module PlugshareText {
  import opened Wrappers
  import opened Text

  datatype Value = Null | Int(n: int) | Float(x: real) | Str(s: string)

  /** One row of a DataFrame: column name to cell value. */
  type Record = map<string, Value>

  /** A DataFrame as its rows, in index order. */
  type Frame = seq<Record>

  // ----- _get_power_number -----

  /** Index of the first decimal digit of s, or |s| when there is none. */
  function FirstDigit(s: string): (i: nat)
    ensures i <= |s| && NoDigits(s[..i]) && (i < |s| ==> IsDigit(s[i]))
  {
    if |s| == 0 || IsDigit(s[0]) then 0
    else
      var j := FirstDigit(s[1..]);
      assert s[..j + 1] == [s[0]] + s[1..][..j];
      j + 1
  }

  /** Length of the run of digits s starts with. */
  function DigitRun(s: string): (n: nat)
    ensures n <= |s| && AllDigits(s[..n]) && (n < |s| ==> !IsDigit(s[n]))
  {
    if |s| == 0 || !IsDigit(s[0]) then 0
    else
      var j := DigitRun(s[1..]);
      assert s[..j + 1] == [s[0]] + s[1..][..j];
      j + 1
  }

  /** s[i..j] is the leftmost maximal run of digits in s: what re.search(r"\d+", s) matches. */
  ghost predicate FirstDigitRun(s: string, i: int, j: int) {
    0 <= i < j <= |s| && NoDigits(s[..i]) && AllDigits(s[i..j]) && (j == |s| || !IsDigit(s[j]))
  }

  /** A digit preceded only by non-digits is the first digit. */
  lemma {:induction false} FirstDigitIs(s: string, i: nat)
    requires i < |s| && NoDigits(s[..i]) && IsDigit(s[i])
    ensures FirstDigit(s) == i
  {
    if i > 0 {
      assert s[..i][0] == s[0];
      assert s[1..][..i - 1] == s[..i][1..];
      FirstDigitIs(s[1..], i - 1);
    }
  }

  /** A run of digits followed by a non-digit, or by the end, is the whole leading run. */
  lemma {:induction false} DigitRunIs(s: string, n: nat)
    requires n <= |s| && AllDigits(s[..n]) && (n < |s| ==> !IsDigit(s[n]))
    ensures DigitRun(s) == n
  {
    if n > 0 {
      assert s[..n][0] == s[0];
      assert s[1..][..n - 1] == s[..n][1..];
      DigitRunIs(s[1..], n - 1);
    }
  }

  /** The leftmost maximal run is the one FirstDigit and DigitRun find. */
  lemma FirstDigitRunIs(s: string, i: int, j: int)
    requires FirstDigitRun(s, i, j)
    ensures FirstDigit(s) == i && DigitRun(s[i..]) == j - i
  {
    assert s[i..j][0] == s[i];
    FirstDigitIs(s, i);
    assert s[i..][..j - i] == s[i..j];
    assert j < |s| ==> s[i..][j - i] == s[j];
    DigitRunIs(s[i..], j - i);
  }

  /**
   * CheckIn._get_power_number: missing stays missing, a number is returned
   * as it is, and text gives the value of its first run of digits, or
   * missing when it has no digit (PowerNumberOfText).
   */
  function PowerNumber(v: Value): (r: Value)
    ensures v.Null? ==> r == Null
    ensures v.Int? || v.Float? ==> r == v
    ensures v.Str? ==> r.Null? || r.Int?
  {
    match v
    case Null => Null
    case Int(_) => v
    case Float(_) => v
    case Str(s) =>
      var i := FirstDigit(s);
      if i == |s| then Null
      else
        var n := DigitRun(s[i..]);
        assert s[i..][..n] == s[i..i + n];
        Int(DigitsValue(s[i..i + n]))
  }

  /** Text gives missing exactly when it has no digit, and otherwise the value of its leftmost maximal run. */
  lemma PowerNumberOfText(s: string)
    ensures PowerNumber(Str(s)) == Null <==> NoDigits(s)
    ensures forall i, j :: FirstDigitRun(s, i, j) ==> PowerNumber(Str(s)) == Int(DigitsValue(s[i..j]))
  {
    var i := FirstDigit(s);
    if i == |s| {
      assert s[..i] == s;
    } else {
      assert IsDigit(s[i]);
    }
    forall i', j' | FirstDigitRun(s, i', j') ensures PowerNumber(Str(s)) == Int(DigitsValue(s[i'..j'])) {
      FirstDigitRunIs(s, i', j');
    }
  }

  /** Text made of digit-free words around a decimal number reads back as that number. */
  lemma PowerNumberReadsDecimal(prefix: string, n: nat, suffix: string)
    requires NoDigits(prefix)
    requires |suffix| == 0 || !IsDigit(suffix[0])
    ensures PowerNumber(Str(prefix + Decimal(n) + suffix)) == Int(n)
  {
    var d := Decimal(n);
    var s := prefix + d + suffix;
    var i, j := |prefix|, |prefix| + |d|;
    assert s[..i] == prefix;
    assert s[i..j] == d;
    assert j < |s| ==> s[j] == suffix[0];
    assert FirstDigitRun(s, i, j);
    PowerNumberOfText(s);
    DecimalRoundTrip(n);
  }

  lemma PowerNumberExample()
    ensures PowerNumber(Str("110 Kilowatts")) == Int(110)
  {
    assert Decimal(110) == "110" by {
      assert Decimal(11) == "11" by { assert Decimal(1) == "1"; }
    }
    assert "110 Kilowatts" == "" + Decimal(110) + " Kilowatts";
    PowerNumberReadsDecimal("", 110, " Kilowatts");
  }

  // ----- _get_checkin_count -----

  /** Python's str.isspace, which is what `\s` matches in a str pattern. */
  predicate IsSpace(c: char) {
    c == ' ' || '\t' <= c <= '\r' || '\U{1C}' <= c <= '\U{1F}' || c == '\U{85}' || c == '\U{A0}' ||
    c == '\U{1680}' || '\U{2000}' <= c <= '\U{200A}' || c == '\U{2028}' || c == '\U{2029}' ||
    c == '\U{202F}' || c == '\U{205F}' || c == '\U{3000}'
  }

  predicate AllSpace(s: string) {
    forall k :: 0 <= k < |s| ==> IsSpace(s[k])
  }

  /** The end of the run of whitespace starting at i. */
  function SkipSpace(s: string, i: nat): (j: nat)
    requires i <= |s|
    ensures i <= j <= |s| && AllSpace(s[i..j]) && (j < |s| ==> !IsSpace(s[j]))
    decreases |s| - i
  {
    if i == |s| || !IsSpace(s[i]) then i
    else
      var j := SkipSpace(s, i + 1);
      assert s[i..j] == [s[i]] + s[i + 1..j];
      j
  }

  /** The end of the run of digits starting at i. */
  function SkipDigits(s: string, i: nat): (j: nat)
    requires i <= |s|
    ensures i <= j <= |s| && AllDigits(s[i..j]) && (j < |s| ==> !IsDigit(s[j]))
    decreases |s| - i
  {
    if i == |s| || !IsDigit(s[i]) then i
    else
      var j := SkipDigits(s, i + 1);
      assert s[i..j] == [s[i]] + s[i + 1..j];
      j
  }

  /**
   * `\(\s*(\d+)\s*\)` matches s at p, with s[p] the '(', s[p+1..q] the
   * leading whitespace, s[q..e] the captured digits, s[e..f] the trailing
   * whitespace and s[f] the ')'.
   */
  ghost predicate CountMatch(s: string, p: int, q: int, e: int, f: int) {
    0 <= p < q < e <= f < |s| &&
    s[p] == '(' && AllSpace(s[p + 1..q]) && AllDigits(s[q..e]) && AllSpace(s[e..f]) && s[f] == ')'
  }

  /** A run of some class ends exactly where the first character outside it stands. */
  lemma SkipSpaceEnd(s: string, i: nat, j: nat)
    requires i <= j < |s| && AllSpace(s[i..j]) && !IsSpace(s[j])
    ensures SkipSpace(s, i) == j
    decreases j - i
  {
    if i < j {
      assert IsSpace(s[i..j][0]);
      assert s[i + 1..j] == s[i..j][1..];
      SkipSpaceEnd(s, i + 1, j);
    }
  }

  lemma SkipDigitsEnd(s: string, i: nat, j: nat)
    requires i <= j <= |s| && AllDigits(s[i..j]) && (j < |s| ==> !IsDigit(s[j]))
    ensures SkipDigits(s, i) == j
    decreases j - i
  {
    if i < j {
      assert IsDigit(s[i..j][0]);
      assert s[i + 1..j] == s[i..j][1..];
      SkipDigitsEnd(s, i + 1, j);
    }
  }

  /** The pattern anchored at p, matched greedily as the regex engine does. */
  function CountAt(s: string, p: nat): (r: Option<nat>)
    requires p <= |s|
    ensures r.Some? ==> p < |s| && s[p] == '('
  {
    if p < |s| && s[p] == '(' then
      var q := SkipSpace(s, p + 1);
      var e := SkipDigits(s, q);
      var f := SkipSpace(s, e);
      if q < e && f < |s| && s[f] == ')' then Some(DigitsValue(s[q..e])) else None
    else None
  }

  /**
   * The greedy match is the only one: the pattern matches at p exactly when
   * CountAt finds a count there, and any split of a match captures the same
   * digits, since \s and \d share no character.
   */
  lemma CountAtMatches(s: string, p: nat)
    requires p <= |s|
    ensures CountAt(s, p).Some? <==> exists q, e, f :: CountMatch(s, p, q, e, f)
    ensures forall q, e, f :: CountMatch(s, p, q, e, f) ==> CountAt(s, p) == Some(DigitsValue(s[q..e]))
  {
    forall q, e, f | CountMatch(s, p, q, e, f) ensures CountAt(s, p) == Some(DigitsValue(s[q..e])) {
      CountMatchDeterministic(s, p, q, e, f);
    }
    if CountAt(s, p).Some? {
      var q := SkipSpace(s, p + 1);
      var e := SkipDigits(s, q);
      var f := SkipSpace(s, e);
      assert CountMatch(s, p, q, e, f);
    }
  }

  /** Every match at p splits the text where the greedy skips stop. */
  lemma CountMatchDeterministic(s: string, p: nat, q: nat, e: nat, f: nat)
    requires CountMatch(s, p, q, e, f)
    ensures SkipSpace(s, p + 1) == q && SkipDigits(s, q) == e && SkipSpace(s, e) == f
  {
    assert IsDigit(s[q..e][0]);
    SkipSpaceEnd(s, p + 1, q);
    SkipDigitsEnd(s, q, e);
    if e < f { assert IsSpace(s[e..f][0]); }
    SkipSpaceEnd(s, e, f);
  }

  /** No position in [p, k) starts a match. */
  ghost predicate NoCountIn(s: string, p: nat, k: nat)
    requires k <= |s|
  {
    forall k' :: p <= k' < k ==> CountAt(s, k').None?
  }

  /** The first position at or after p where the pattern matches, or |s|: the scan re.search performs. */
  function FindCount(s: string, p: nat): (k: nat)
    requires p <= |s|
    ensures p <= k <= |s| && NoCountIn(s, p, k)
    ensures k < |s| ==> CountAt(s, k).Some?
    decreases |s| - p
  {
    if p == |s| || CountAt(s, p).Some? then p else FindCount(s, p + 1)
  }

  /**
   * _get_checkin_count: the number inside the leftmost parenthesised count,
   * or missing when the text has none.
   */
  function CheckinCount(s: string): (r: Option<nat>)
    ensures r.None? <==> NoCountIn(s, 0, |s|)
    ensures r.Some? ==> exists k: nat :: k < |s| && NoCountIn(s, 0, k) && CountAt(s, k) == r
  {
    var k := FindCount(s, 0);
    if k == |s| then None else CountAt(s, k)
  }

  /** The first parenthesised number after text without '(' is the count found. */
  lemma CheckinCountReadsDecimal(prefix: string, sp1: string, n: nat, sp2: string, suffix: string)
    requires '(' !in prefix && AllSpace(sp1) && AllSpace(sp2)
    ensures CheckinCount(prefix + "(" + sp1 + Decimal(n) + sp2 + ")" + suffix) == Some(n)
  {
    var d := Decimal(n);
    var s := prefix + "(" + sp1 + d + sp2 + ")" + suffix;
    var p := |prefix|;
    var q := p + 1 + |sp1|;
    var e := q + |d|;
    var f := e + |sp2|;
    assert s[p + 1..q] == sp1 && s[q..e] == d && s[e..f] == sp2;
    assert CountMatch(s, p, q, e, f);
    assert CountAt(s, p) == Some(n) by { CountAtMatches(s, p); DecimalRoundTrip(n); }
    assert NoCountIn(s, 0, p) by {
      forall k | 0 <= k < p ensures CountAt(s, k).None? {
        assert s[k] == prefix[k];
      }
    }
    FindCountIs(s, 0, p);
  }

  /** A match preceded by none is the one FindCount stops at. */
  lemma FindCountIs(s: string, p: nat, k: nat)
    requires p <= k < |s| && NoCountIn(s, p, k) && CountAt(s, k).Some?
    ensures FindCount(s, p) == k
    decreases k - p
  {
    if p < k {
      assert CountAt(s, p).None?;
      FindCountIs(s, p + 1, k);
    }
  }

  // ----- Location ids and links -----

  /** What scrape_location receives as location_id: an int, or the string it expects. */
  datatype LocationIdArg = IdInt(n: int) | IdStr(s: string)

  /**
   * scrape_location's location_id: an int becomes str(id).zfill(6), a
   * string is used unchanged.
   */
  function NormalizeLocationId(id: LocationIdArg): (r: string)
    ensures id.IdStr? ==> r == id.s
    ensures id.IdInt? ==> |r| == if |IntToStr(id.n)| >= 6 then |IntToStr(id.n)| else 6
    ensures id.IdInt? && id.n >= 0 ==> AllDigits(r) && DigitsValue(r) == id.n
    ensures id.IdInt? && id.n < 0 ==> r[0] == '-' && AllDigits(r[1..]) && DigitsValue(r[1..]) == -id.n
  {
    match id
    case IdStr(s) => s
    case IdInt(n) =>
      PaddedIdValue(n);
      ZFill(IntToStr(n), 6)
  }

  lemma PaddedIdValue(n: int)
    ensures var r := ZFill(IntToStr(n), 6);
      (n >= 0 ==> AllDigits(r) && DigitsValue(r) == n) &&
      (n < 0 ==> r[0] == '-' && AllDigits(r[1..]) && DigitsValue(r[1..]) == -n)
  {
    var r := ZFill(IntToStr(n), 6);
    if n >= 0 {
      var d := Decimal(n);
      if |d| < 6 {
        assert r == Zeros(6 - |d|) + d;
        LeadingZeros(6 - |d|, d);
      }
      DecimalRoundTrip(n);
    } else {
      var d := Decimal(-n);
      var t := IntToStr(n);
      assert t[1..] == d;
      if |t| < 6 {
        assert r == ['-'] + Zeros(6 - |t|) + t[1..];
        assert r[1..] == Zeros(6 - |t|) + d;
        LeadingZeros(6 - |t|, d);
      }
      DecimalRoundTrip(-n);
    }
  }

  /** Leading zeros do not change the value int() reads. */
  lemma {:induction false} LeadingZeros(k: nat, d: string)
    requires AllDigits(d)
    ensures AllDigits(Zeros(k) + d) && DigitsValue(Zeros(k) + d) == DigitsValue(d)
  {
    if k > 0 {
      LeadingZeros(k - 1, d);
      assert Zeros(k) + d == ['0'] + (Zeros(k - 1) + d);
      LeadingZero(Zeros(k - 1) + d);
    } else {
      assert Zeros(k) + d == d;
    }
  }

  lemma {:induction false} LeadingZero(d: string)
    requires AllDigits(d)
    ensures AllDigits(['0'] + d) && DigitsValue(['0'] + d) == DigitsValue(d)
    decreases |d|
  {
    if |d| > 0 {
      var z := ['0'] + d;
      assert z[..|z| - 1] == ['0'] + d[..|d| - 1];
      LeadingZero(d[..|d| - 1]);
    }
  }

  /** A six-digit id is used as it is, and a shorter one is padded to six digits. */
  lemma NormalizeLocationIdExamples()
    ensures NormalizeLocationId(IdInt(42)) == "000042"
    ensures NormalizeLocationId(IdStr("42")) == "42"
  {
    assert Decimal(42) == "42" by { assert Decimal(4) == "4"; }
  }

  /** parse_location_link: path.rsplit("/", 1)[-1], the text after the last '/', or the whole path. */
  function LastPathSegment(path: string): (r: string)
    ensures '/' !in r && |r| <= |path| && r == path[|path| - |r|..]
    ensures |r| < |path| ==> path[|path| - |r| - 1] == '/'
  {
    if |path| == 0 || path[|path| - 1] == '/' then ""
    else
      var init := path[..|path| - 1];
      var r := LastPathSegment(init);
      assert init[|init| - |r|..] + [path[|path| - 1]] == path[|path| - |r| - 1..];
      assert |r| < |init| ==> init[|init| - |r| - 1] == path[|path| - |r| - 2];
      r + [path[|path| - 1]]
  }

  /** The segment after a final '/' is recovered whatever precedes it. */
  lemma {:induction false} LastPathSegmentAfterSlash(p: string, seg: string)
    requires '/' !in seg
    ensures LastPathSegment(p + "/" + seg) == seg
  {
    var s := p + "/" + seg;
    if |seg| > 0 {
      var init := seg[..|seg| - 1];
      assert s[..|s| - 1] == p + "/" + init;
      assert s[|s| - 1] == seg[|seg| - 1];
      LastPathSegmentAfterSlash(p, init);
      assert init + [seg[|seg| - 1]] == seg;
    }
  }

  lemma LastPathSegmentExample()
    ensures LastPathSegment("/location/123456") == "123456"
  {
    assert "/location/123456" == "/location" + "/" + "123456";
    LastPathSegmentAfterSlash("/location", "123456");
  }
}
