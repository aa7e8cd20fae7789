/** The per-LUN text of `LunsGetReserve` (go_hds_restapi.go:531-597): the
    LDEV id as a zero-padded, colon-split hex number, the list of the host
    reservations that are set, and the log line that shows both. */
module LunFormat {

  // ---------------------------------------------------------------------
  // Numerals
  // ---------------------------------------------------------------------

  /** The character of digit `d`; past nine the lower-case letters, as
      `strconv.FormatInt` writes them. */
  function DigitChar(d: nat): (c: char)
    requires d < 16
    ensures IsDigit(c, d + 1) && DigitValue(c) == d
  {
    if d < 10 then ('0' as int + d) as char else ('a' as int + d - 10) as char
  }

  /** `c` is a digit of the given base. */
  predicate IsDigit(c: char, base: nat)
  {
    ('0' <= c <= '9' && (c as int - '0' as int) < base)
    || ('a' <= c <= 'f' && (c as int - 'a' as int) + 10 < base)
  }

  /** The value of a digit character. */
  function DigitValue(c: char): nat
    requires IsDigit(c, 16)
  {
    if '0' <= c <= '9' then c as int - '0' as int else c as int - 'a' as int + 10
  }

  /** Every character of `s` is a digit of the base. */
  predicate AllDigitsOf(s: string, base: nat)
  {
    forall i :: 0 <= i < |s| ==> IsDigit(s[i], base)
  }

  /** `strconv.FormatInt` of a non-negative number: its digits in the base,
      most significant first, with no leading zero. */
  function Numeral(n: nat, base: nat): (s: string)
    requires 2 <= base <= 16
    ensures |s| >= 1 && AllDigitsOf(s, base)
    ensures s[0] == '0' ==> n == 0
  {
    if n < base then [DigitChar(n)]
    else
      DivideByBase(n, base);
      Numeral(n / base, base) + [DigitChar(n % base)]
  }

  /** Division of a number of at least one base by the base. */
  lemma DivideByBase(n: nat, base: nat)
    requires 2 <= base <= n
    ensures 1 <= n / base < n && n % base < base
    ensures n == base * (n / base) + n % base
  {
  }

  /** The number a string of digits denotes, read most significant first. */
  function NumeralValue(s: string, base: nat): nat
    requires 2 <= base <= 16 && AllDigitsOf(s, base)
  {
    if s == [] then 0
    else base * NumeralValue(s[..|s| - 1], base) + DigitValue(s[|s| - 1])
  }

  /** `strconv.FormatInt(x, 16)`: a minus sign before the digits of a
      negative number. */
  function FormatHex(x: int): (s: string)
    ensures x >= 0 ==> s == Numeral(x, 16)
    ensures x < 0 ==> s == "-" + Numeral(-x, 16)
  {
    if x < 0 then "-" + Numeral(-x, 16) else Numeral(x, 16)
  }

  /** `k` zero characters. */
  function Zeros(k: nat): (z: string)
    ensures |z| == k && forall i :: 0 <= i < k ==> z[i] == '0'
  {
    seq(k, _ => '0')
  }

  /** `t` with zeros in front up to `width` characters; a longer `t` is
      left as it is. */
  function ZeroPadded(t: string, width: nat): (r: string)
    ensures |r| == if |t| < width then width else |t|
    ensures r[|r| - |t|..] == t
    ensures forall i :: 0 <= i < |r| - |t| ==> r[i] == '0'
  {
    if |t| < width then Zeros(width - |t|) + t else t
  }

  // ---------------------------------------------------------------------
  // LDEV text
  // ---------------------------------------------------------------------

  /** A zero put in front of `k` zeros and `t`. */
  lemma OneMoreZero(k: nat, t: string)
    ensures "0" + (Zeros(k) + t) == Zeros(k + 1) + t
  {
    assert "0" + Zeros(k) == Zeros(k + 1);
  }

  /** `s[:len(s)-2] + ":" + s[len(s)-2:]`. */
  function ColonForm(s: string): (r: string)
    requires |s| >= 2
    ensures |r| == |s| + 1 && r[|r| - 3] == ':'
    ensures r[..|r| - 3] + r[|r| - 2..] == s
  {
    var r := s[..|s| - 2] + ":" + s[|s| - 2..];
    assert r[..|r| - 3] == s[..|s| - 2] && r[|r| - 2..] == s[|s| - 2..];
    r
  }

  /** The LDEV text of an id: its hex numeral padded to four digits and
      split by a colon before the last two. */
  function LdevText(ldevId: int): string
  {
    ColonForm(ZeroPadded(FormatHex(ldevId), 4))
  }

  /** The LDEV string of `LunsGetReserve`, built as the source builds it:
      the hex numeral, a loop that puts one zero in front at a time, then
      the colon. */
  method LdevString(ldevId: int) returns (ldev: string)
    ensures ldev == LdevText(ldevId)
  {
    ldev := FormatHex(ldevId);
    if |ldev| < 4 {
      ldev := PutZeros(ldev);
    }
    assert ldev == ZeroPadded(FormatHex(ldevId), 4);
    ghost var padded := ldev;
    ldev := ldev[..|ldev| - 2] + ":" + ldev[|ldev| - 2..];
    assert ldev == ColonForm(padded);
  }

  /** The padding loop of the LDEV string: one zero put in front at a
      time until there are four characters. */
  method PutZeros(digits: string) returns (ldev: string)
    requires |digits| < 4
    ensures ldev == ZeroPadded(digits, 4)
  {
    ldev := digits;
    var len := 4 - |ldev|;
    for i := 0 to len
      invariant ldev == Zeros(i) + digits
    {
      OneMoreZero(i, digits);
      ldev := "0" + ldev;
    }
  }

  // ---------------------------------------------------------------------
  // Reservations
  // ---------------------------------------------------------------------

  /** `strconv.FormatBool`. */
  function FormatBool(b: bool): string
  {
    if b then "true" else "false"
  }

  /** The reservation flags of a LUN, as (name, value) pairs in the order the
      map happens to be walked. */
  type Flags = seq<(string, bool)>

  /** The names of the flags that are set, in walk order. */
  function SetKeys(flags: Flags): (keys: seq<string>)
    ensures |keys| <= |flags|
  {
    if flags == [] then []
    else
      var front := SetKeys(flags[..|flags| - 1]);
      if flags[|flags| - 1].1 then front + [flags[|flags| - 1].0] else front
  }

  /** The text the loop has built after the set flags `keys`: empty before
      the first, then "(k=true" and "; k=true" for each further one. */
  function Listing(keys: seq<string>): string
  {
    if keys == [] then ""
    else if |keys| == 1 then "(" + keys[0] + "=" + FormatBool(true)
    else Listing(keys[..|keys| - 1]) + "; " + keys[|keys| - 1] + "=" + FormatBool(true)
  }

  /** The loop over `luHostReserve` and the closing parenthesis: the
      listing of the set flags, and whether any flag is set. */
  method ReserveText(flags: Flags) returns (reserveString: string, reserveSet: bool)
    ensures reserveSet <==> exists i :: 0 <= i < |flags| && flags[i].1
    ensures reserveSet <==> SetKeys(flags) != []
    ensures reserveString == Listing(SetKeys(flags)) + ")"
  {
    reserveString := "";
    reserveSet := false;
    for i := 0 to |flags|
      invariant reserveSet <==> exists j :: 0 <= j < i && flags[j].1
      invariant reserveString == Listing(SetKeys(flags[..i]))
      invariant reserveSet <==> SetKeys(flags[..i]) != []
    {
      assert flags[..i + 1][..i] == flags[..i];
      var (key, reserve) := flags[i];
      if reserve {
        reserveSet := true;
        if reserveString == "" {
          reserveString := "(" + key + "=" + FormatBool(reserve);
        } else {
          reserveString := reserveString + "; " + key + "=" + FormatBool(reserve);
        }
      }
    }
    assert flags[..|flags|] == flags;
    reserveString := reserveString + ")";
  }

  // ---------------------------------------------------------------------
  // The log line
  // ---------------------------------------------------------------------

  /** The fields of one LUN that the log line uses. */
  datatype Lun = Lun(lun: nat, ldevId: int, hostReserve: Flags)

  /** `%04.f` of a whole, non-negative LUN number: its decimal digits,
      zero-padded to four. */
  function LunNumber(lun: nat): string
  {
    ZeroPadded(Numeral(lun, 10), 4)
  }

  /** What the log line shows for the reservations: the listing of the set
      flags, or "none" when no flag is set. */
  function ReservationText(flags: Flags): string
  {
    var reserved := SetKeys(flags);
    if reserved != [] then Listing(reserved) + ")" else "none"
  }

  /** The text of the two `Info.Printf` formats "LUN: %04.f LDEV: %s
      reservations: %s" and "... reservations: none", given the LUN
      number already formatted. */
  function LogLine(number: string, ldev: string, reservations: string): string
  {
    "LUN: " + number + " LDEV: " + ldev + " reservations: " + reservations
  }

  /** The log line of one LUN. */
  function ReportLine(l: Lun): string
  {
    LogLine(LunNumber(l.lun), LdevText(l.ldevId), ReservationText(l.hostReserve))
  }

  /** The body of the loop over the LUNs of one host group. */
  method LunReport(l: Lun) returns (line: string)
    ensures line == ReportLine(l)
  {
    var reserveString, reserveSet := ReserveText(l.hostReserve);
    var ldev := LdevString(l.ldevId);
    if reserveSet {
      line := LogLine(LunNumber(l.lun), ldev, reserveString);
    } else {
      line := LogLine(LunNumber(l.lun), ldev, "none");
    }
  }

  // ---------------------------------------------------------------------
  // Properties
  // ---------------------------------------------------------------------

  /** Digits read back as the number they were written from. */
  lemma {:induction false} NumeralRoundTrip(n: nat, base: nat)
    requires 2 <= base <= 16
    ensures NumeralValue(Numeral(n, base), base) == n
  {
    var s := Numeral(n, base);
    if n < base {
      assert s[..0] == [];
    } else {
      DivideByBase(n, base);
      var front := Numeral(n / base, base);
      assert s == front + [DigitChar(n % base)];
      assert s[..|s| - 1] == front;
      NumeralRoundTrip(n / base, base);
      assert NumeralValue(s, base) == base * NumeralValue(front, base) + DigitValue(DigitChar(n % base));
    }
  }
  /** The hex text of an id reads back as the id: a minus sign exactly
      when the id is negative, then the digits of its magnitude. */
  lemma FormatHexReadsBack(x: int)
    ensures var s := FormatHex(x);
            && |s| >= 1
            && (s[0] == '-' <==> x < 0)
            && var digits := if x < 0 then s[1..] else s;
               |digits| >= 1 && AllDigitsOf(digits, 16)
               && NumeralValue(digits, 16) == if x < 0 then -x else x
  {
    var s := FormatHex(x);
    var m := if x < 0 then -x else x;
    NumeralRoundTrip(m, 16);
    if x < 0 {
      assert s[1..] == Numeral(m, 16);
    } else {
      assert IsDigit(s[0], 16);
    }
  }


  /** A numeral of a number below base^k has at most k digits. */
  lemma {:induction false} NumeralLength(n: nat, base: nat, k: nat)
    requires 2 <= base <= 16 && k >= 1 && n < Power(base, k)
    ensures |Numeral(n, base)| <= k
  {
    if n >= base {
      assert Power(base, 1) == base;
      DivideByBase(n, base);
      QuotientBelow(n, base, Power(base, k - 1));
      NumeralLength(n / base, base, k - 1);
    }
  }

  /** Below base * p, the quotient by the base is below p. */
  lemma QuotientBelow(n: nat, base: nat, p: nat)
    requires 2 <= base && n < base * p
    ensures n / base < p
  {
    var q, r := n / base, n % base;
    assert n == base * q + r;
    assert base * (p - q) == base * p - base * q > 0;
  }

  /** From base * p on, the quotient by the base is at least p. */
  lemma QuotientAtLeast(n: nat, base: nat, p: nat)
    requires 2 <= base && n >= base * p
    ensures n / base >= p
  {
    var q, r := n / base, n % base;
    assert n == base * q + r && r < base;
    assert base * (q + 1) > base * p;
  }

  /** `base` to the `k`. */
  function Power(base: nat, k: nat): nat
  {
    if k == 0 then 1 else base * Power(base, k - 1)
  }

  /** Zeros in front do not change the value of a numeral. */
  lemma {:induction false} LeadingZeros(k: nat, t: string, base: nat)
    requires 2 <= base <= 16 && AllDigitsOf(t, base)
    ensures AllDigitsOf(Zeros(k) + t, base)
    ensures NumeralValue(Zeros(k) + t, base) == NumeralValue(t, base)
  {
    var s := Zeros(k) + t;
    assert AllDigitsOf(s, base) by {
      assert forall i :: 0 <= i < |s| ==> s[i] == if i < k then '0' else t[i - k];
    }
    if t == [] {
      assert s == Zeros(k);
      ZerosValue(k, base);
    } else {
      var front := t[..|t| - 1];
      assert s[..|s| - 1] == Zeros(k) + front;
      LeadingZeros(k, front, base);
    }
  }

  /** A run of zeros is worth zero. */
  lemma {:induction false} ZerosValue(k: nat, base: nat)
    requires 2 <= base <= 16
    ensures AllDigitsOf(Zeros(k), base) && NumeralValue(Zeros(k), base) == 0
  {
    if k > 0 {
      assert Zeros(k)[..k - 1] == Zeros(k - 1);
      ZerosValue(k - 1, base);
    }
  }

  /** The LDEV text of a valid id is at least five characters, has the colon
      third from the end, and without the colon reads back as the id in hex;
      ids below 0x10000 take exactly five characters. */
  lemma LdevReadsBack(ldevId: nat)
    ensures var s := LdevText(ldevId);
            && |s| >= 5 && s[|s| - 3] == ':'
            && AllDigitsOf(s[..|s| - 3] + s[|s| - 2..], 16)
            && NumeralValue(s[..|s| - 3] + s[|s| - 2..], 16) == ldevId
            && (ldevId < 0x10000 <==> |s| == 5)
  {
    var s := LdevText(ldevId);
    var t := Numeral(ldevId, 16);
    var padded := ZeroPadded(t, 4);
    assert s == ColonForm(padded);
    assert s[..|s| - 3] + s[|s| - 2..] == padded;
    assert AllDigitsOf(padded, 16) && NumeralValue(padded, 16) == ldevId by {
      NumeralRoundTrip(ldevId, 16);
      if |t| < 4 {
        LeadingZeros(4 - |t|, t, 16);
      }
    }
    assert ldevId < 0x10000 <==> |t| <= 4 by {
      if ldevId < 0x10000 {
        assert Power(16, 4) == 0x10000;
        NumeralLength(ldevId, 16, 4);
      } else {
        LongNumeral(ldevId, 16, 4);
      }
    }
  }

  /** A number of at least base^k has more than k digits. */
  lemma {:induction false} LongNumeral(n: nat, base: nat, k: nat)
    requires 2 <= base <= 16 && n >= Power(base, k)
    ensures |Numeral(n, base)| > k
  {
    if k > 0 {
      PowerAtLeastBase(base, k);
      DivideByBase(n, base);
      QuotientAtLeast(n, base, Power(base, k - 1));
      LongNumeral(n / base, base, k - 1);
    }
  }

  /** A positive power is at least its base. */
  lemma {:induction false} PowerAtLeastBase(base: nat, k: nat)
    requires 2 <= base && k >= 1
    ensures Power(base, k) >= base
  {
    if k > 1 {
      PowerAtLeastBase(base, k - 1);
    }
  }

  /** The sample LUN's LDEV 13312 (0x3400) shows as "34:00". */
  lemma SampleLdev()
    ensures LdevText(13312) == "34:00"
  {
    assert Numeral(13312, 16) == "3400" by {
      assert Numeral(13, 16) == "d";
      assert Numeral(208, 16) == "d0";
      assert Numeral(3328, 16) == "d00";
    }
    assert ZeroPadded("3400", 4) == "3400";
  }

  /** A one-digit LDEV id is padded with three zeros: 5 shows as "00:05". */
  lemma ShortLdev()
    ensures LdevText(5) == "00:05"
  {
    assert Numeral(5, 16) == "5";
    assert Zeros(3) == "000";
    assert ZeroPadded("5", 4) == "0005";
  }

  /** The set keys are exactly the names of the flags that are set. */
  lemma {:induction false} SetKeysAreSetFlags(flags: Flags)
    ensures forall k :: k in SetKeys(flags) <==> (k, true) in flags
  {
    if flags != [] {
      var n := |flags| - 1;
      var front := flags[..n];
      SetKeysAreSetFlags(front);
      assert flags == front + [flags[n]];
      assert SetKeys(flags) == SetKeys(front) + (if flags[n].1 then [flags[n].0] else []);
    }
  }

  /** Some key is listed exactly when some flag is set. */
  lemma {:induction false} SetKeysEmptyIffNoneSet(flags: Flags)
    ensures SetKeys(flags) != [] <==> exists i :: 0 <= i < |flags| && flags[i].1
  {
    if flags != [] {
      var n := |flags| - 1;
      var front := flags[..n];
      SetKeysEmptyIffNoneSet(front);
      if flags[n].1 {
        assert SetKeys(flags) == SetKeys(front) + [flags[n].0];
      } else {
        assert SetKeys(flags) == SetKeys(front);
        assert forall i :: 0 <= i < n ==> front[i] == flags[i];
      }
    }
  }

  /** One "name=true" entry of the listing. */
  function Entry(key: string): string
  {
    key + "=" + FormatBool(true)
  }

  /** Regrouping a concatenation of three strings. */
  lemma Regroup(a: string, b: string, c: string)
    ensures a + b + c == a + (b + c)
  {
  }

  /** The entries joined by "; ", read from the front. */
  function JoinEntries(keys: seq<string>): string
    requires keys != []
  {
    if |keys| == 1 then Entry(keys[0]) else Entry(keys[0]) + "; " + JoinEntries(keys[1..])
  }

  /** Joining with one more entry at the end. */
  lemma {:induction false} JoinEntriesAppend(keys: seq<string>, key: string)
    requires keys != []
    ensures JoinEntries(keys + [key]) == JoinEntries(keys) + "; " + Entry(key)
  {
    if |keys| > 1 {
      assert (keys + [key])[1..] == keys[1..] + [key];
      JoinEntriesAppend(keys[1..], key);
    }
  }

  /** One more set flag adds "; " and its entry to the listing. */
  lemma ListingStep(keys: seq<string>)
    requires |keys| > 1
    ensures Listing(keys) == Listing(keys[..|keys| - 1]) + "; " + Entry(keys[|keys| - 1])
  {
    var before := Listing(keys[..|keys| - 1]) + "; ";
    var last := keys[|keys| - 1];
    Regroup(before, last, "=");
    Regroup(before, last + "=", FormatBool(true));
  }

  /** The reservation text built from set flags is "(" followed by their
      "name=true" entries joined by "; ". */
  lemma {:induction false} ListingIsJoined(keys: seq<string>)
    requires keys != []
    ensures Listing(keys) == "(" + JoinEntries(keys)
  {
    var last := keys[|keys| - 1];
    if |keys| == 1 {
      Regroup("(", last, "=");
      Regroup("(", last + "=", FormatBool(true));
    } else {
      var front := keys[..|keys| - 1];
      var joined := JoinEntries(front);
      assert JoinEntries(keys) == joined + "; " + Entry(last) by {
        JoinEntriesAppend(front, last);
        assert front + [last] == keys;
      }
      assert Listing(keys) == "(" + joined + "; " + Entry(last) by {
        ListingStep(keys);
        ListingIsJoined(front);
      }
      Regroup("(", joined, "; ");
      Regroup("(", joined + "; ", Entry(last));
    }
  }

  /** The reservation part of the log line: "none" exactly when no flag is
      set, and otherwise the set flags' entries joined by "; " in
      parentheses. */
  lemma ReservationTextShape(flags: Flags)
    ensures ReservationText(flags) == "none" <==> forall i :: 0 <= i < |flags| ==> !flags[i].1
    ensures SetKeys(flags) != [] ==> ReservationText(flags) == "(" + JoinEntries(SetKeys(flags)) + ")"
  {
    SetKeysEmptyIffNoneSet(flags);
    if SetKeys(flags) != [] {
      ListingIsJoined(SetKeys(flags));
      assert ReservationText(flags)[0] == '(';
    }
  }

  /** LUN 1 shows as "0001". */
  lemma FirstLunNumber()
    ensures LunNumber(1) == "0001"
  {
    assert Numeral(1, 10) == "1";
    assert Zeros(3) == "000";
    assert ZeroPadded("1", 4) == "0001";
  }

  /** No flag of the sample LUN is set, so its line ends in "none". */
  lemma SampleFlags()
    ensures ReservationText([("openSystem", false), ("persistent", false), ("pgrKey", false),
                             ("mainframe", false), ("acaReserve", false)]) == "none"
  {
    ReservationTextShape([("openSystem", false), ("persistent", false), ("pgrKey", false),
                          ("mainframe", false), ("acaReserve", false)]);
  }

  /** A single set flag among unset ones is shown alone in parentheses. */
  lemma OneSetFlag()
    ensures ReservationText([("openSystem", false), ("pgrKey", true), ("mainframe", false)]) == "(pgrKey=true)"
  {
    var flags := [("openSystem", false), ("pgrKey", true), ("mainframe", false)];
    assert SetKeys(flags) == ["pgrKey"] by {
      assert SetKeys(flags[..1]) == [] by {
        assert flags[..1][..0] == [];
      }
      assert flags[..2][..1] == flags[..1];
      assert flags[..2] == flags[..|flags| - 1];
    }
    assert FormatBool(true) == "true";
  }

  /** The set keys of a walk with two of three flags set. */
  lemma TwoSetKeys()
    ensures SetKeys([("openSystem", false), ("pgrKey", true), ("mainframe", true)]) == ["pgrKey", "mainframe"]
  {
    var flags := [("openSystem", false), ("pgrKey", true), ("mainframe", true)];
    assert SetKeys(flags[..1]) == [] by {
      assert flags[..1][..0] == [];
    }
    assert SetKeys(flags[..2]) == ["pgrKey"] by {
      assert flags[..2][..1] == flags[..1];
    }
    assert flags[..2] == flags[..|flags| - 1];
  }

  /** Two set flags are listed in walk order. */
  lemma TwoSetFlags()
    ensures ReservationText([("openSystem", false), ("pgrKey", true), ("mainframe", true)])
            == "(" + Entry("pgrKey") + "; " + Entry("mainframe") + ")"
  {
    var flags := [("openSystem", false), ("pgrKey", true), ("mainframe", true)];
    var keys := ["pgrKey", "mainframe"];
    assert SetKeys(flags) == keys by {
      TwoSetKeys();
    }
    assert Listing(keys) == "(" + JoinEntries(keys) by {
      ListingIsJoined(keys);
    }
    assert JoinEntries(keys) == Entry("pgrKey") + "; " + Entry("mainframe") by {
      assert keys[1..] == ["mainframe"];
    }
  }
}
