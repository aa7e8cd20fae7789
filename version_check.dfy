/** `CheckVersion` (go_hds_restapi.go:2293-2371): the REST API version of
    the storage system, "first.mid.last", must be at least the minimum
    version "1.5.0" (line 214). The Go function ends the process with exit
    code 203 when a part is not an integer and 204 when the version is too
    old; a version without two dots makes its slice expressions panic. Those
    three endings are the errors here. Versions are ASCII, so a character
    index is a byte index. */
module VersionCheck {
  import opened Wrappers

  /** The oldest supported REST API version (`VersionMinimum`). */
  const VersionMinimum: string := "1.5.0"

  /** 2^63: `strconv.ParseInt(s, 10, 64)` accepts -2^63 .. 2^63 - 1. */
  const Int64Bound: nat := 0x8000_0000_0000_0000

  /** The three ways the check ends the run. */
  datatype VersionError =
    | SlicePanic(version: string)      // a slice bound out of range (runtime panic)
    | NotConvertible(version: string)  // exit code 203
    | TooOld                           // exit code 204
  {
    /** The process exit code Go uses; a panic exits with 2. */
    function ExitCode(): (code: int)
      ensures SlicePanic? <==> code == 2
      ensures NotConvertible? <==> code == 203
      ensures TooOld? <==> code == 204
    {
      match this
      case SlicePanic(_) => 2
      case NotConvertible(_) => 203
      case TooOld => 204
    }
  }

  /** `strings.Index(s, ".")`: the first index of `c`, or -1. */
  function IndexOf(s: string, c: char): (k: int)
    ensures -1 <= k < |s|
    ensures k == -1 <==> c !in s
    ensures k >= 0 ==> s[k] == c && c !in s[..k]
  {
    if s == [] then -1
    else if s[0] == c then 0
    else
      var k := IndexOf(s[1..], c);
      assert s == [s[0]] + s[1..];
      if k < 0 then -1
      else
        assert s[..k + 1] == [s[0]] + s[1..][..k];
        k + 1
  }

  /** `strings.LastIndex(s, ".")`: the last index of `c`, or -1. */
  function LastIndexOf(s: string, c: char): (k: int)
    ensures -1 <= k < |s|
    ensures k == -1 <==> c !in s
    ensures k >= 0 ==> s[k] == c && c !in s[k + 1..]
  {
    if s == [] then -1
    else
      var k := LastIndexOf(s[1..], c);
      if k >= 0 then
        assert s[k + 1] == s[1..][k] && s[k + 2..] == s[1..][k + 1..];
        k + 1
      else if s[0] == c then 0
      else
        assert s == [s[0]] + s[1..];
        -1
  }

  predicate IsDigit(c: char) {
    '0' <= c <= '9'
  }

  predicate AllDigits(s: string) {
    forall i :: 0 <= i < |s| ==> IsDigit(s[i])
  }

  /** The value of a string of decimal digits. */
  function DigitsValue(s: string): nat
    requires AllDigits(s)
  {
    if s == [] then 0
    else DigitsValue(s[..|s| - 1]) * 10 + (s[|s| - 1] - '0') as nat
  }

  /** `strconv.ParseInt(s, 10, 64)`: an optional sign, then at least one
      decimal digit and nothing else, within the 64-bit range; `None` is
      the error it returns. */
  function ParseInt(s: string): Option<int>
  {
    var negative := |s| > 0 && s[0] == '-';
    var digits := if |s| > 0 && (s[0] == '+' || s[0] == '-') then s[1..] else s;
    if digits == [] || !AllDigits(digits) then None
    else
      var n := DigitsValue(digits);
      if negative then (if n <= Int64Bound then Some(-(n as int)) else None)
      else (if n < Int64Bound then Some(n) else None)
  }

  /** One part of a version, converted or rejected with exit code 203. */
  function Convert(part: string, version: string): (r: Result<int, VersionError>)
    ensures r.Success? <==> ParseInt(part).Some?
    ensures r.Success? ==> r.value == ParseInt(part).value
    ensures r.Failure? ==> r.error == NotConvertible(version)
  {
    match ParseInt(part)
    case Some(n) => Success(n)
    case None => Failure(NotConvertible(version))
  }

  /** The part before the first dot, sliced and converted. */
  function FirstPart(v: string): Result<int, VersionError>
  {
    var hi := IndexOf(v, '.');
    if 0 <= hi then Convert(v[..hi], v) else Failure(SlicePanic(v))
  }

  /** The part between the first and the last dot, sliced and converted. */
  function MidPart(v: string): Result<int, VersionError>
  {
    var lo, hi := IndexOf(v, '.') + 1, LastIndexOf(v, '.');
    if 0 <= lo <= hi then Convert(v[lo..hi], v) else Failure(SlicePanic(v))
  }

  /** The part after the last dot, sliced and converted. */
  function LastPart(v: string): Result<int, VersionError>
  {
    var lo := LastIndexOf(v, '.') + 1;
    if 0 <= lo then Convert(v[lo..], v) else Failure(SlicePanic(v))
  }

  /** The three parts of a version in the code's order: each is sliced and
      converted before the next one is sliced. */
  function ParseVersion(v: string): Result<(int, int, int), VersionError>
  {
    var major :- FirstPart(v);
    var mid :- MidPart(v);
    var minor :- LastPart(v);
    Success((major, mid, minor))
  }

  /** `CheckVersion`: the actual version is parsed, then the minimum; then
      the parts are compared from the first to the last. */
  function CheckVersion(actual: string, minimum: string): (r: Outcome<VersionError>)
  {
    match ParseVersion(actual)
    case Failure(e) => Fail(e)
    case Success(a) =>
      match ParseVersion(minimum)
      case Failure(e) => Fail(e)
      case Success(m) => Compare(a, m)
  }

  /** The comparison of the parsed parts: too old when the first part is
      lower, or it is equal and the middle part is lower, or both are equal
      and the last part is lower. */
  function Compare(a: (int, int, int), m: (int, int, int)): Outcome<VersionError>
  {
    if a.0 < m.0 then Fail(TooOld)
    else if a.0 == m.0 && a.1 < m.1 then Fail(TooOld)
    else if a.0 == m.0 && a.1 == m.1 && a.2 < m.2 then Fail(TooOld)
    else Pass
  }

  // ---------------------------------------------------------------------
  // Properties
  // ---------------------------------------------------------------------

  /** Lexicographic order on sequences of integers of equal length. */
  predicate LexAtLeast(a: seq<int>, b: seq<int>)
    requires |a| == |b|
  {
    a == [] || a[0] > b[0] || (a[0] == b[0] && LexAtLeast(a[1..], b[1..]))
  }

  /** The comparison passes exactly when the actual parts are at least the
      minimum parts in lexicographic order, and otherwise ends with exit
      code 204. */
  lemma CompareIsLexOrder(a: (int, int, int), m: (int, int, int))
    ensures Compare(a, m) == Pass <==> LexAtLeast([a.0, a.1, a.2], [m.0, m.1, m.2])
    ensures Compare(a, m) != Pass ==> Compare(a, m) == Fail(TooOld)
  {
    var x, y := [a.0, a.1, a.2], [m.0, m.1, m.2];
    assert x[1..] == [a.1, a.2] && y[1..] == [m.1, m.2];
    assert x[1..][1..] == [a.2] && y[1..][1..] == [m.2];
    assert x[1..][1..][1..] == [] && y[1..][1..][1..] == [];
    assert LexAtLeast(x[1..][1..], y[1..][1..]) <==> a.2 >= m.2;
    assert LexAtLeast(x[1..], y[1..]) <==> a.1 > m.1 || (a.1 == m.1 && a.2 >= m.2);
  }

  /** An unparsable actual version is reported before the minimum is even
      looked at, and the minimum's errors come next. */
  lemma ActualErrorsFirst(actual: string, minimum: string)
    ensures ParseVersion(actual).Failure? ==> CheckVersion(actual, minimum) == Fail(ParseVersion(actual).error)
    ensures ParseVersion(actual).Success? && ParseVersion(minimum).Failure? ==>
              CheckVersion(actual, minimum) == Fail(ParseVersion(minimum).error)
    ensures ParseVersion(actual).Success? && ParseVersion(minimum).Success? ==>
              CheckVersion(actual, minimum) == Compare(ParseVersion(actual).value, ParseVersion(minimum).value)
  {
  }

  /** A version without a dot, or with a single dot after an integer, makes
      the slicing panic. */
  lemma FewerThanTwoDotsPanic(v: string)
    requires '.' !in v || (IndexOf(v, '.') == LastIndexOf(v, '.') && ParseInt(v[..IndexOf(v, '.')]).Some?)
    ensures ParseVersion(v) == Failure(SlicePanic(v))
  {
  }

  /** What `ParseInt` accepts: a value in the 64-bit range, written as
      decimal digits with at most one leading sign. */
  lemma ParseIntAccepts(s: string)
    requires ParseInt(s).Some?
    ensures -(Int64Bound as int) <= ParseInt(s).value < Int64Bound
    ensures |s| >= 1
    ensures var digits := if s[0] == '+' || s[0] == '-' then s[1..] else s;
            && |digits| >= 1 && AllDigits(digits)
            && ParseInt(s).value == (if s[0] == '-' then -(DigitsValue(digits) as int) else DigitsValue(digits))
  {
  }

  /** The converse of `ParseIntAccepts`: a part written as an optional sign
      and a rest converts exactly when the rest is decimal digits whose
      value is in the 64-bit range, and then to the signed value. */
  lemma ConvertSignedNumeral(sign: string, digits: string, version: string)
    requires sign == "" || sign == "+" || sign == "-"
    requires sign == "" && digits != [] ==> digits[0] != '+' && digits[0] != '-'
    ensures Convert(sign + digits, version).Success? <==>
              && |digits| >= 1 && AllDigits(digits)
              && if sign == "-" then DigitsValue(digits) <= Int64Bound else DigitsValue(digits) < Int64Bound
    ensures Convert(sign + digits, version).Success? ==>
              Convert(sign + digits, version).value == if sign == "-" then -(DigitsValue(digits) as int) else DigitsValue(digits)
    ensures Convert(sign + digits, version).Failure? ==> Convert(sign + digits, version).error == NotConvertible(version)
  {
    var s := sign + digits;
    if sign != "" {
      assert s[0] == sign[0] && s[1..] == digits;
    } else {
      assert s == digits;
    }
  }

  /** A plus sign, a negative zero and leading zeros are all accepted. */
  lemma ConvertExamples(version: string)
    ensures Convert("+5", version) == Success(5)
    ensures Convert("-0", version) == Success(0)
    ensures Convert("007", version) == Success(7)
  {
    assert Convert("+5", version) == Success(5) by {
      assert DigitsValue("5") == 5 by {
        assert "5"[..0] == [];
      }
      ConvertSignedNumeral("+", "5", version);
    }
    assert Convert("-0", version) == Success(0) by {
      assert DigitsValue("0") == 0 by {
        assert "0"[..0] == [];
      }
      ConvertSignedNumeral("-", "0", version);
    }
    assert Convert("007", version) == Success(7) by {
      assert DigitsValue("007") == 7 by {
        assert "007"[..2] == "00" && "00"[..1] == "0" && "0"[..0] == [];
      }
      ConvertSignedNumeral("", "007", version);
    }
  }

  /** The decimal text of a natural number, without sign or leading zeros. */
  function Decimal(n: nat): (s: string)
    ensures |s| >= 1 && AllDigits(s)
    ensures DigitsValue(s) == n
  {
    if n < 10 then ['0' + n as char]
    else
      var front := Decimal(n / 10);
      var s := front + ['0' + (n % 10) as char];
      assert s[..|s| - 1] == front;
      s
  }

  /** Decimal text is read back as the number it shows. */
  lemma DecimalParses(n: nat)
    requires n < Int64Bound
    ensures ParseInt(Decimal(n)) == Some(n)
    ensures '.' !in Decimal(n)
  {
    var s := Decimal(n);
    assert IsDigit(s[0]);
    assert forall i :: 0 <= i < |s| ==> IsDigit(s[i]);
  }

  /** The version text of three natural numbers. */
  function VersionText(major: nat, mid: nat, minor: nat): string
  {
    Decimal(major) + "." + Decimal(mid) + "." + Decimal(minor)
  }

  /** The first dot of a text that starts with a dot-free part. */
  lemma IndexAfterPart(a: string, rest: string)
    requires '.' !in a
    ensures IndexOf(a + "." + rest, '.') == |a|
  {
    var v := a + "." + rest;
    assert v[|a|] == '.' && v[..|a|] == a;
  }

  /** The last dot of a text that ends with a dot-free part. */
  lemma LastIndexBeforePart(front: string, c: string)
    requires '.' !in c
    ensures LastIndexOf(front + "." + c, '.') == |front|
  {
    var v := front + "." + c;
    assert v[|front|] == '.' && v[|front| + 1..] == c;
  }

  /** Where the dots and the parts of a three-part version are. */
  lemma ThreeParts(a: string, b: string, c: string)
    requires '.' !in a && '.' !in b && '.' !in c
    ensures var v := a + "." + b + "." + c;
            && 0 <= IndexOf(v, '.') < LastIndexOf(v, '.')
            && v[..IndexOf(v, '.')] == a
            && v[IndexOf(v, '.') + 1..LastIndexOf(v, '.')] == b
            && v[LastIndexOf(v, '.') + 1..] == c
  {
    var v := a + "." + b + "." + c;
    ThreePartSlices(a, b, c);
  }

  /** The slices of a three-part version at known dot positions. */
  lemma ThreePartSlices(a: string, b: string, c: string)
    requires '.' !in a && '.' !in b && '.' !in c
    ensures var v := a + "." + b + "." + c;
            && IndexOf(v, '.') == |a| && LastIndexOf(v, '.') == |a| + 1 + |b|
            && v[..|a|] == a && v[|a| + 1..|a| + 1 + |b|] == b && v[|a| + 1 + |b| + 1..] == c
  {
    var v := a + "." + b + "." + c;
    assert v == a + "." + (b + "." + c);
    IndexAfterPart(a, b + "." + c);
    assert v == (a + "." + b) + "." + c;
    LastIndexBeforePart(a + "." + b, c);
  }

  /** The first part of a version that starts with a number. */
  lemma FirstPartOf(v: string, a: string, n: int)
    requires IndexOf(v, '.') >= 0 && v[..IndexOf(v, '.')] == a && ParseInt(a) == Some(n)
    ensures FirstPart(v) == Success(n)
  {
    var hi := IndexOf(v, '.');
    var r := Convert(v[..hi], v);
    assert r.Success? && r.value == n;
    assert FirstPart(v) == r;
  }

  /** The middle part of a version whose dots enclose a number. */
  lemma MidPartOf(v: string, b: string, n: int)
    requires 0 <= IndexOf(v, '.') < LastIndexOf(v, '.')
    requires v[IndexOf(v, '.') + 1..LastIndexOf(v, '.')] == b && ParseInt(b) == Some(n)
    ensures MidPart(v) == Success(n)
  {
    var lo, hi := IndexOf(v, '.') + 1, LastIndexOf(v, '.');
    var r := Convert(v[lo..hi], v);
    assert r.Success? && r.value == n;
    assert MidPart(v) == r;
  }

  /** The last part of a version that ends with a number. */
  lemma LastPartOf(v: string, c: string, n: int)
    requires LastIndexOf(v, '.') >= 0 && v[LastIndexOf(v, '.') + 1..] == c && ParseInt(c) == Some(n)
    ensures LastPart(v) == Success(n)
  {
    var lo := LastIndexOf(v, '.') + 1;
    var r := Convert(v[lo..], v);
    assert r.Success? && r.value == n;
    assert LastPart(v) == r;
  }

  /** The three parts, each converted, make the version. */
  lemma ParseVersionOfParts(v: string, major: int, mid: int, minor: int)
    requires FirstPart(v) == Success(major) && MidPart(v) == Success(mid) && LastPart(v) == Success(minor)
    ensures ParseVersion(v) == Success((major, mid, minor))
  {
  }

  /** Three numbers written as a version are parsed back as those numbers. */
  lemma VersionTextParses(major: nat, mid: nat, minor: nat)
    requires major < Int64Bound && mid < Int64Bound && minor < Int64Bound
    ensures ParseVersion(VersionText(major, mid, minor)) == Success((major, mid, minor))
  {
    var a, b, c := Decimal(major), Decimal(mid), Decimal(minor);
    DecimalParses(major);
    DecimalParses(mid);
    DecimalParses(minor);
    var v := a + "." + b + "." + c;
    assert v == VersionText(major, mid, minor);
    ThreeParts(a, b, c);
    FirstPartOf(v, a, major);
    MidPartOf(v, b, mid);
    LastPartOf(v, c, minor);
    ParseVersionOfParts(v, major, mid, minor);
  }

  /** The minimum version "1.5.0" is itself well formed. */
  lemma MinimumParses()
    ensures ParseVersion(VersionMinimum) == Success((1, 5, 0))
  {
    assert VersionText(1, 5, 0) == VersionMinimum;
    VersionTextParses(1, 5, 0);
  }

  /** Any version written as three numbers passes against the minimum
      exactly when it is at least 1.5.0, comparing numbers and not text:
      "1.11.2" passes although "11" sorts before "5" as text. */
  lemma SupportedVersions(major: nat, mid: nat, minor: nat)
    requires major < Int64Bound && mid < Int64Bound && minor < Int64Bound
    ensures CheckVersion(VersionText(major, mid, minor), VersionMinimum) == Pass
            <==> major > 1 || (major == 1 && (mid > 5 || (mid == 5 && minor >= 0)))
  {
    VersionTextParses(major, mid, minor);
    MinimumParses();
    ActualErrorsFirst(VersionText(major, mid, minor), VersionMinimum);
    CompareIsLexOrder((major, mid, minor), (1, 5, 0));
    var x := [major as int, mid as int, minor as int];
    assert x[1..] == [mid as int, minor as int] && x[1..][1..] == [minor as int];
  }

    /** A newer minor level passes. */
  lemma NewerVersionPasses()
    ensures CheckVersion("1.11.2", VersionMinimum) == Pass
  {
    assert Decimal(11) == "11";
    assert VersionText(1, 11, 2) == "1.11.2";
    SupportedVersions(1, 11, 2);
  }

  /** The minimum itself passes. */
  lemma MinimumVersionPasses()
    ensures CheckVersion("1.5.0", VersionMinimum) == Pass
  {
    MinimumParses();
    ActualErrorsFirst(VersionMinimum, VersionMinimum);
  }

  /** An older minor level ends the run with exit code 204. */
  lemma OlderVersionFails()
    ensures CheckVersion("1.4.9", VersionMinimum) == Fail(TooOld)
  {
    assert Decimal(4) == "4";
    assert VersionText(1, 4, 9) == "1.4.9";
    VersionTextParses(1, 4, 9);
    MinimumParses();
    ActualErrorsFirst("1.4.9", VersionMinimum);
  }

  /** A part that is not a number ends the run with exit code 203. */
  lemma NotConvertibleExample()
    ensures CheckVersion("1.x.0", VersionMinimum) == Fail(NotConvertible("1.x.0"))
  {
    var v := "1" + "." + "x" + "." + "0";
    assert v == "1.x.0";
    ThreePartSlices("1", "x", "0");
    assert DigitsValue("1") == 1;
    FirstPartOf(v, "1", 1);
    assert ParseInt("x") == None;
    assert MidPart(v) == Failure(NotConvertible(v));
  }

  /** A version with two parts makes the middle slice panic. */
  lemma TwoPartVersionPanics()
    ensures CheckVersion("1.5", VersionMinimum) == Fail(SlicePanic("1.5"))
  {
    var v := "1.5";
    assert DigitsValue("1") == 1;
    assert IndexOf(v, '.') == 1 && LastIndexOf(v, '.') == 1;
    assert v[..1] == "1";
    FirstPartOf(v, "1", 1);
    assert MidPart(v) == Failure(SlicePanic(v));
  }
}
