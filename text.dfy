/**
 * The few Python 2 string operations the scraper relies on, stated over
 * `seq<char>`: `unicode.strip()`, ASCII `lower()`, the `in` substring test,
 * `str.split(sep)`, slicing with negative bounds and `int()` on a string.
 */
module Text {

  datatype Option<T> = None | Some(value: T)

  // ---------------------------------------------------------------------------
  // Whitespace and strip()

  /** The characters Python 2.7's `unicode.strip()` removes (its `isspace()` set). */
  predicate IsSpace(c: char) {
    ('\t' <= c <= '\r') || ('\U{1C}' <= c <= ' ') || c == '\U{85}' || c == '\U{A0}'
    || c == '\U{1680}' || c == '\U{180E}' || ('\U{2000}' <= c <= '\U{200A}')
    || c == '\U{2028}' || c == '\U{2029}' || c == '\U{202F}' || c == '\U{205F}' || c == '\U{3000}'
  }

  predicate AllSpace(s: string) {
    forall i :: 0 <= i < |s| ==> IsSpace(s[i])
  }

  /** Neither end of `s` is whitespace (vacuously true of the empty string). */
  predicate Trimmed(s: string) {
    s == [] || (!IsSpace(s[0]) && !IsSpace(s[|s| - 1]))
  }

  function StripLeft(s: string): string {
    if |s| > 0 && IsSpace(s[0]) then StripLeft(s[1..]) else s
  }

  function StripRight(s: string): string {
    if |s| > 0 && IsSpace(s[|s| - 1]) then StripRight(s[..|s| - 1]) else s
  }

  /** `s.strip()`: `s` without its leading and trailing whitespace. */
  function Strip(s: string): string {
    StripRight(StripLeft(s))
  }

  /** StripLeft removes a whitespace prefix and stops at the first other character. */
  lemma {:induction false} StripLeftSpec(s: string)
    ensures var r := StripLeft(s);
      |r| <= |s| && r == s[|s| - |r|..] && AllSpace(s[..|s| - |r|])
      && (r == [] || !IsSpace(r[0]))
    decreases |s|
  {
    if |s| > 0 && IsSpace(s[0]) {
      var t := s[1..];
      StripLeftSpec(t);
      var r := StripLeft(t);
      assert t[..|t| - |r|] == s[1..|s| - |r|];
      var p := s[..|s| - |r|];
      forall i | 0 <= i < |p|
        ensures IsSpace(p[i])
      {
        if 0 < i {
          assert p[i] == t[..|t| - |r|][i - 1];
        }
      }
    }
  }

  /** StripRight removes a whitespace suffix and stops at the last other character. */
  lemma {:induction false} StripRightSpec(s: string)
    ensures var r := StripRight(s);
      |r| <= |s| && r == s[..|r|] && AllSpace(s[|r|..])
      && (r == [] || !IsSpace(r[|r| - 1]))
    decreases |s|
  {
    if |s| > 0 && IsSpace(s[|s| - 1]) {
      var t := s[..|s| - 1];
      StripRightSpec(t);
      var r := StripRight(t);
      assert t[|r|..] == s[|r|..|s| - 1];
      var p := s[|r|..];
      forall i | 0 <= i < |p|
        ensures IsSpace(p[i])
      {
        if |r| + i < |s| - 1 {
          assert p[i] == t[|r|..][i];
        }
      }
    }
  }

  /** strip() leaves no whitespace at either end, and removes only whitespace from the ends. */
  lemma StripSpec(s: string)
    ensures Trimmed(Strip(s))
    ensures var r := Strip(s);
      exists i :: 0 <= i <= |s| - |r| && r == s[i..i + |r|]
                  && AllSpace(s[..i]) && AllSpace(s[i + |r|..])
  {
    var l := StripLeft(s);
    var r := StripRight(l);
    StripLeftSpec(s);
    StripRightSpec(l);
    var i := |s| - |l|;
    assert r == s[i..i + |r|];
    assert s[..i] == s[..|s| - |l|];
    assert s[i + |r|..] == l[|r|..];
    assert r == [] || r[0] == l[0];
  }

  /** Stripping a string whose ends are not whitespace leaves it as it is. */
  lemma StripTrimmed(s: string)
    requires Trimmed(s)
    ensures Strip(s) == s
  {
  }

  /** Whitespace padding on both sides is exactly what strip() removes. */
  lemma {:induction false} StripPadded(a: string, s: string, b: string)
    requires AllSpace(a) && AllSpace(b) && Trimmed(s)
    ensures Strip(a + s + b) == s
  {
    assert a + s + b == a + (s + b);
    if s == [] {
      assert a + s + b == a + b;
      assert AllSpace(a + b);
      StripLeftAllSpace(a + b);
      assert StripRight([]) == [];
    } else {
      StripLeftPadded(a, s + b);
      StripRightPadded(s, b);
    }
  }

  lemma StripLeftAllSpace(a: string)
    requires AllSpace(a)
    ensures StripLeft(a) == []
  {
    StripLeftSpec(a);
  }

  lemma {:induction false} StripLeftPadded(a: string, t: string)
    requires AllSpace(a) && (t == [] || !IsSpace(t[0]))
    ensures StripLeft(a + t) == t
    decreases |a|
  {
    if a != [] {
      assert (a + t)[1..] == a[1..] + t;
      StripLeftPadded(a[1..], t);
    }
  }

  lemma {:induction false} StripRightPadded(s: string, b: string)
    requires AllSpace(b) && (s == [] || !IsSpace(s[|s| - 1]))
    ensures StripRight(s + b) == s
    decreases |b|
  {
    if b != [] {
      assert (s + b)[..|s + b| - 1] == s + b[..|b| - 1];
      StripRightPadded(s, b[..|b| - 1]);
    }
  }

  // ---------------------------------------------------------------------------
  // lower()

  /** Lower-casing of one character; letters outside A-Z are left alone. */
  function LowerChar(c: char): char {
    if 'A' <= c <= 'Z' then (c as int + 32) as char else c
  }

  function Lower(s: string): (r: string)
    ensures |r| == |s|
    ensures forall i :: 0 <= i < |s| ==> r[i] == LowerChar(s[i])
  {
    if s == [] then [] else [LowerChar(s[0])] + Lower(s[1..])
  }

  // ---------------------------------------------------------------------------
  // Substring search: `pat in s`

  predicate OccursAt(s: string, pat: string, k: int) {
    0 <= k && k + |pat| <= |s| && s[k..k + |pat|] == pat
  }

  /** The first index at which `pat` occurs in `s` (as `s.find(pat)`), if any. */
  function Find(s: string, pat: string): (r: Option<nat>)
    ensures r.Some? ==> r.value + |pat| <= |s|
    decreases |s|
  {
    if |pat| <= |s| && s[..|pat|] == pat then Some(0)
    else if |s| <= |pat| then None
    else
      match Find(s[1..], pat)
      case None => None
      case Some(k) => Some(k + 1)
  }

  /** `r` is the first occurrence of `pat` in `s`, or none when `pat` occurs nowhere. */
  ghost predicate FirstOccurrence(s: string, pat: string, r: Option<nat>) {
    && (r.Some? ==> OccursAt(s, pat, r.value)
                    && forall j :: 0 <= j < r.value ==> !OccursAt(s, pat, j))
    && (r.None? ==> forall j :: !OccursAt(s, pat, j))
  }

  /** Find gives the first occurrence, or none when `pat` occurs nowhere. */
  lemma {:induction false} FindSpec(s: string, pat: string)
    ensures FirstOccurrence(s, pat, Find(s, pat))
    decreases |s|
  {
    if |pat| <= |s| && s[..|pat|] == pat {
      assert OccursAt(s, pat, 0);
    } else if |s| > |pat| {
      FindSpec(s[1..], pat);
      FindShift(s, pat);
    } else {
      assert !OccursAt(s, pat, 0);
    }
  }

  /** Past a non-matching first position, the search goes on one character later. */
  lemma FindShift(s: string, pat: string)
    requires |s| > |pat| && s[..|pat|] != pat
    requires FirstOccurrence(s[1..], pat, Find(s[1..], pat))
    ensures FirstOccurrence(s, pat, Find(s, pat))
  {
    assert s[0..|pat|] == s[..|pat|];
    assert !OccursAt(s, pat, 0);
    forall j | 0 < j
      ensures OccursAt(s, pat, j) <==> OccursAt(s[1..], pat, j - 1)
    {
      OccursAtShift(s, pat, j);
    }
  }

  /** An occurrence at `j > 0` is an occurrence at `j - 1` in the string without its first character. */
  lemma OccursAtShift(s: string, pat: string, j: int)
    requires 0 < j && |s| > 0
    ensures OccursAt(s, pat, j) <==> OccursAt(s[1..], pat, j - 1)
  {
    if j + |pat| <= |s| {
      var a := s[j..j + |pat|];
      var b := s[1..][j - 1..j - 1 + |pat|];
      assert |a| == |b|;
      assert forall i :: 0 <= i < |a| ==> a[i] == s[j + i] == b[i];
      assert a == b;
    }
  }

  /** Python's `pat in s` on strings. */
  predicate Contains(s: string, pat: string) {
    Find(s, pat).Some?
  }

  // ---------------------------------------------------------------------------
  // str.split(sep) and its inverse, sep.join(parts)

  function Join(parts: seq<string>, sep: string): string {
    if |parts| == 0 then ""
    else if |parts| == 1 then parts[0]
    else parts[0] + sep + Join(parts[1..], sep)
  }

  /**
   * `s.split(sep)`: cut `s` at every occurrence of `sep`, scanning left to
   * right without overlap.  There is always at least one piece.
   */
  function Split(s: string, sep: string): (parts: seq<string>)
    requires |sep| > 0
    ensures |parts| >= 1
    decreases |s|
  {
    match Find(s, sep)
    case None => [s]
    case Some(k) => [s[..k]] + Split(s[k + |sep|..], sep)
  }

  /** Joining the pieces of a split with its separator gives the string back. */
  lemma {:induction false} JoinSplit(s: string, sep: string)
    requires |sep| > 0
    ensures Join(Split(s, sep), sep) == s
    decreases |s|
  {
    FindSpec(s, sep);
    if Find(s, sep).Some? {
      var k := Find(s, sep).value;
      assert OccursAt(s, sep, k);
      var rest := s[k + |sep|..];
      JoinSplit(rest, sep);
      var parts := Split(rest, sep);
      assert Split(s, sep) == [s[..k]] + parts;
      assert Join([s[..k]] + parts, sep) == s[..k] + sep + Join(parts, sep) by {
        assert ([s[..k]] + parts)[1..] == parts;
      }
      assert s == s[..k] + s[k..k + |sep|] + rest;
    }
  }

  /** No piece of a split contains the separator. */
  lemma {:induction false} SplitPiecesFree(s: string, sep: string)
    requires |sep| > 0
    ensures forall i :: 0 <= i < |Split(s, sep)| ==> !Contains(Split(s, sep)[i], sep)
    decreases |s|
  {
    FindSpec(s, sep);
    match Find(s, sep)
    case None =>
    case Some(k) =>
      var rest := s[k + |sep|..];
      SplitPiecesFree(rest, sep);
      BeforeFirstFree(s, sep, k);
      assert Split(s, sep) == [s[..k]] + Split(rest, sep);
  }

  /** The text before the first occurrence of `pat` does not contain `pat`. */
  lemma BeforeFirstFree(s: string, pat: string, k: nat)
    requires |pat| > 0 && FirstOccurrence(s, pat, Some(k))
    ensures !Contains(s[..k], pat)
  {
    FindSpec(s[..k], pat);
    forall j | 0 <= j ensures !OccursAt(s[..k], pat, j) {
      if j + |pat| <= k {
        assert s[..k][j..j + |pat|] == s[j..j + |pat|];
        assert !OccursAt(s, pat, j);
      }
    }
  }

  /** The separator the chart statistics use. */
  const Sep: string := " / "

  /** The pieces of a chart's `<small>` text: stripped, then split on " / ". */
  function StatPieces(small: string): (ts: seq<string>)
    ensures |ts| >= 1
  {
    Split(Strip(small), Sep)
  }

  /** A piece free of '/' cannot hold the separator. */
  lemma NoSepWithoutSlash(a: string)
    requires '/' !in a
    ensures Find(a, Sep) == None
  {
    forall k | 0 <= k ensures !OccursAt(a, Sep, k) {
      if k + 3 <= |a| {
        assert a[k..k + 3][1] == a[k + 1] && a[k + 1] in a;
      }
    }
    FindSpec(a, Sep);
  }

  /** In `a + " / " + b` with no '/' in `a`, the first separator starts right after `a`. */
  lemma FirstSepAfterSlashFree(a: string, b: string)
    requires '/' !in a
    ensures Find(a + Sep + b, Sep) == Some(|a|)
  {
    var s := a + Sep + b;
    assert s[|a|..|a| + 3] == Sep;
    assert OccursAt(s, Sep, |a|);
    forall k | 0 <= k < |a| ensures !OccursAt(s, Sep, k) {
      assert s[k..k + 3][1] == s[k + 1];
      assert k + 1 < |a| ==> s[k + 1] == a[k + 1] && a[k + 1] in a;
    }
    FindSpec(s, Sep);
  }

  /** Splitting the " / "-join of '/'-free tokens gives the tokens back. */
  lemma {:induction false} SplitJoin(ts: seq<string>)
    requires |ts| >= 1
    requires forall i :: 0 <= i < |ts| ==> '/' !in ts[i]
    ensures Split(Join(ts, Sep), Sep) == ts
    decreases |ts|
  {
    if |ts| == 1 {
      NoSepWithoutSlash(ts[0]);
    } else {
      var rest := Join(ts[1..], Sep);
      var s := ts[0] + Sep + rest;
      assert Join(ts, Sep) == s;
      FirstSepAfterSlashFree(ts[0], rest);
      assert s[..|ts[0]|] == ts[0];
      assert s[|ts[0]| + |Sep|..] == rest;
      SplitJoin(ts[1..]);
      assert ts == [ts[0]] + ts[1..];
    }
  }

  // ---------------------------------------------------------------------------
  // Slicing: s[start:stop] with Python's handling of negative and large bounds

  /** A slice bound as Python normalises it against a length `n`. */
  function SliceBound(i: int, n: nat): (b: nat)
    ensures b <= n
  {
    if i < 0 then (if i + n < 0 then 0 else i + n) else if i > n then n else i
  }

  function Slice(s: string, start: int, stop: int): string {
    var lo := SliceBound(start, |s|);
    var hi := SliceBound(stop, |s|);
    if lo < hi then s[lo..hi] else ""
  }

  /**
   * `attr[16:-2]`: the translation text inside an onmouseover attribute, the
   * attribute with its first 16 and its last 2 characters removed.
   */
  function HoverText(attr: string): (r: string)
    ensures |attr| >= 18 ==> r == attr[16..|attr| - 2]
    ensures |attr| < 18 ==> r == ""
    ensures |r| == if |attr| >= 18 then |attr| - 18 else 0
  {
    Slice(attr, 16, -2)
  }

  /** Whatever the 16-character prefix and 2-character suffix, the middle is recovered. */
  lemma HoverTextInner(prefix: string, t: string, suffix: string)
    requires |prefix| == 16 && |suffix| == 2
    ensures HoverText(prefix + t + suffix) == t
  {
    var a := prefix + t + suffix;
    assert a[16..|a| - 2] == t;
  }

  // ---------------------------------------------------------------------------
  // int(s)

  predicate IsDigit(c: char) {
    '0' <= c <= '9'
  }

  predicate AllDigits(s: string) {
    forall i :: 0 <= i < |s| ==> IsDigit(s[i])
  }

  /** The value of a string of decimal digits, most significant first. */
  function DigitsValue(s: string): nat
    requires AllDigits(s)
  {
    if s == [] then 0 else DigitsValue(s[..|s| - 1]) * 10 + (s[|s| - 1] as int - '0' as int)
  }

  /**
   * Python 2's `int(s)` on a unicode string, in base 10: surrounding
   * whitespace is ignored, then an optional sign, more whitespace after the
   * sign, and at least one decimal digit.  `None` stands for the ValueError
   * raised on every other string.
   */
  function PyInt(s: string): Option<int> {
    var t := Strip(s);
    if |t| > 0 && (t[0] == '+' || t[0] == '-') then
      var d := StripLeft(t[1..]);
      if |d| > 0 && AllDigits(d) then
        var v: int := DigitsValue(d);
        Some(if t[0] == '-' then -v else v)
      else None
    else if |t| > 0 && AllDigits(t) then Some(DigitsValue(t))
    else None
  }

  /** `int(s)`, with 0 where the conversion raises ValueError. */
  function IntOr0(s: string): int {
    match PyInt(s)
    case Some(n) => n
    case None => 0
  }

  function Digit(n: nat): (c: char)
    requires n < 10
    ensures IsDigit(c) && c as int - '0' as int == n
  {
    ('0' as int + n) as char
  }

  /** The decimal digits of `n`, without leading zeros. */
  function ShowNat(n: nat): (r: string)
    ensures |r| >= 1 && AllDigits(r) && DigitsValue(r) == n
    ensures r[0] != '0' || n == 0
  {
    if n < 10 then [Digit(n)]
    else
      var r := ShowNat(n / 10) + [Digit(n % 10)];
      assert r[..|r| - 1] == ShowNat(n / 10);
      r
  }

  /** `str(n)` for an integer. */
  function ShowInt(n: int): (r: string)
    ensures |r| >= 1 && Trimmed(r) && '/' !in r
  {
    if n < 0 then "-" + ShowNat(-n) else ShowNat(n)
  }

  /** Non-empty trimmed pieces joined with " / " give a trimmed string. */
  lemma {:induction false} JoinTrimmed(ts: seq<string>)
    requires |ts| >= 1
    requires forall i :: 0 <= i < |ts| ==> |ts[i]| >= 1 && Trimmed(ts[i])
    ensures |Join(ts, Sep)| >= 1 && Trimmed(Join(ts, Sep))
    ensures Join(ts, Sep)[0] == ts[0][0]
    ensures Join(ts, Sep)[|Join(ts, Sep)| - 1] == ts[|ts| - 1][|ts[|ts| - 1]| - 1]
  {
    if |ts| > 1 {
      var rest := Join(ts[1..], Sep);
      JoinTrimmed(ts[1..]);
      assert Join(ts, Sep) == ts[0] + Sep + rest;
    }
  }

  /** `int(str(n)) == n`: the conversion reads back what `str` writes. */
  lemma PyIntShowInt(n: int)
    ensures PyInt(ShowInt(n)) == Some(n)
  {
    var s := ShowInt(n);
    StripTrimmed(s);
    if n < 0 {
      assert s[1..] == ShowNat(-n);
    }
  }

  /**
   * Any signed number the way a page may print it: whitespace around it and
   * between the sign and the digits is skipped, and a '-' gives a negative
   * number that nothing clamps at zero.
   */
  lemma PyIntSigned(a: string, sign: char, b: string, n: nat, e: string)
    requires sign == '-' || sign == '+'
    requires AllSpace(a) && AllSpace(b) && AllSpace(e)
    ensures PyInt(a + [sign] + b + ShowNat(n) + e) == Some(if sign == '-' then -(n as int) else n)
  {
    PyIntSignedDigits(a, sign, b, ShowNat(n), e);
  }

  lemma PyIntSignedDigits(a: string, sign: char, b: string, digits: string, e: string)
    requires sign == '-' || sign == '+'
    requires AllSpace(a) && AllSpace(b) && AllSpace(e)
    requires |digits| >= 1 && AllDigits(digits)
    ensures PyInt(a + [sign] + b + digits + e) ==
      Some(if sign == '-' then -(DigitsValue(digits) as int) else DigitsValue(digits))
  {
    var r := b + digits;
    SignedStrip(a, sign, b, digits, e);
    StripLeftPadded(b, digits);
    PyIntOfSigned(a + [sign] + b + digits + e, sign, r, digits);
  }

  /** A stripped text that is a sign, then whitespace, then digits, reads as that signed number. */
  lemma PyIntOfSigned(x: string, sign: char, r: string, digits: string)
    requires sign == '-' || sign == '+'
    requires Strip(x) == [sign] + r && StripLeft(r) == digits
    requires |digits| >= 1 && AllDigits(digits)
    ensures PyInt(x) == Some(if sign == '-' then -(DigitsValue(digits) as int) else DigitsValue(digits))
  {
    assert ([sign] + r)[1..] == r;
  }

  lemma SignedStrip(a: string, sign: char, b: string, digits: string, e: string)
    requires sign == '-' || sign == '+'
    requires AllSpace(a) && AllSpace(e)
    requires |digits| >= 1 && IsDigit(digits[|digits| - 1])
    ensures Strip(a + [sign] + b + digits + e) == [sign] + (b + digits)
  {
    var t := [sign] + b + digits;
    assert t[|t| - 1] == digits[|digits| - 1];
    assert a + [sign] + b + digits + e == a + t + e;
    assert t == [sign] + (b + digits);
    StripPadded(a, t, e);
  }

  predicate NoDigit(s: string) {
    forall i :: 0 <= i < |s| ==> !IsDigit(s[i])
  }

  /** A string without a decimal digit never converts, so `IntOr0` gives 0. */
  lemma PyIntNoDigit(s: string)
    requires NoDigit(s)
    ensures PyInt(s) == None && IntOr0(s) == 0
  {
    StripLeftNoDigit(s);
    StripRightNoDigit(StripLeft(s));
    var t := Strip(s);
    if |t| > 0 && (t[0] == '+' || t[0] == '-') {
      assert NoDigit(t[1..]);
      StripLeftNoDigit(t[1..]);
    }
  }

  lemma StripLeftNoDigit(s: string)
    requires NoDigit(s)
    ensures NoDigit(StripLeft(s))
  {
    StripLeftSpec(s);
    var l := StripLeft(s);
    assert forall j :: 0 <= j < |l| ==> l[j] == s[|s| - |l| + j];
  }

  lemma StripRightNoDigit(s: string)
    requires NoDigit(s)
    ensures NoDigit(StripRight(s))
  {
    StripRightSpec(s);
  }
}
