/** Settlement ids: a UUID off chain, its 128-bit number on chain, and the decimal that carries it there. */
module Identifiers {
  import opened Wrappers

  // ---------- numerals ----------

  predicate IsBase(b: nat) { b == 10 || b == 16 }

  function DigitChar(d: nat): char
    requires d < 16
  {
    if d < 10 then '0' + d as char else 'a' + (d - 10) as char
  }

  function DigitValue(c: char): (d: nat)
    ensures d < 16 ==> DigitChar(d) == c
  {
    if '0' <= c <= '9' then c as nat - '0' as nat
    else if 'a' <= c <= 'f' then c as nat - 'a' as nat + 10
    else 16
  }

  function Quotient(n: nat, b: nat): nat {
    if b == 10 then n / 10 else n / 16
  }

  function Remainder(n: nat, b: nat): nat {
    if b == 10 then n % 10 else n % 16
  }

  /** The lower-case numeral of a number. */
  function Numeral(n: nat, b: nat): (s: string)
    requires IsBase(b)
    ensures s != ""
  {
    if n < b then [DigitChar(n)] else Numeral(Quotient(n, b), b) + [DigitChar(Remainder(n, b))]
  }

  predicate IsNumeral(s: string, b: nat) {
    s != "" && forall i :: 0 <= i < |s| ==> DigitValue(s[i]) < b
  }

  /** One more place: `v` times the base. */
  function Shift(v: nat, b: nat): nat {
    if b == 10 then v * 10 else v * 16
  }

  function ValueOf(s: string, b: nat): nat {
    if s == "" then 0 else Shift(ValueOf(s[..|s| - 1], b), b) + DigitValue(s[|s| - 1])
  }

  /** `new BigNumber(s, b)`, absent where the original is not a number. */
  function Parse(s: string, b: nat): Option<nat> {
    if IsNumeral(s, b) then Some(ValueOf(s, b)) else None
  }

  lemma DigitsAreRead(d: nat)
    requires d < 16
    ensures DigitValue(DigitChar(d)) == d && DigitChar(d) != '-'
  {
  }

  lemma ValueOfSnoc(front: string, c: char, b: nat)
    ensures ValueOf(front + [c], b) == Shift(ValueOf(front, b), b) + DigitValue(c)
  {
    assert (front + [c])[..|front|] == front;
  }

  lemma DivMod(n: nat, b: nat)
    requires IsBase(b)
    ensures n == Shift(Quotient(n, b), b) + Remainder(n, b)
  {
  }

  lemma QuotientOfSnoc(v: nat, d: nat, b: nat)
    requires IsBase(b) && d < b
    ensures Quotient(Shift(v, b) + d, b) == v && Remainder(Shift(v, b) + d, b) == d
    ensures v > 0 ==> Shift(v, b) + d >= b
  {
  }

  lemma {:induction false} NumeralsAreNumerals(n: nat, b: nat)
    requires IsBase(b)
    ensures IsNumeral(Numeral(n, b), b)
  {
    if n < b {
      DigitsAreRead(n);
    } else {
      NumeralsAreNumerals(Quotient(n, b), b);
      DigitsAreRead(Remainder(n, b));
    }
  }

  /** Reading a numeral back gives the number. */
  lemma {:induction false} NumeralIsRead(n: nat, b: nat)
    requires IsBase(b)
    ensures Parse(Numeral(n, b), b) == Some(n)
  {
    NumeralsAreNumerals(n, b);
    if n < b {
      DigitsAreRead(n);
      ValueOfSnoc("", DigitChar(n), b);
    } else {
      NumeralIsRead(Quotient(n, b), b);
      DigitsAreRead(Remainder(n, b));
      ValueOfSnoc(Numeral(Quotient(n, b), b), DigitChar(Remainder(n, b)), b);
      DivMod(n, b);
    }
  }

  function Zeros(n: nat): (s: string)
    ensures |s| == n && forall i :: 0 <= i < n ==> s[i] == '0'
  {
    seq(n, _ => '0')
  }

  /** `s.padStart(n, '0')`. */
  function PadStart(s: string, n: nat): string {
    if |s| >= n then s else Zeros(n - |s|) + s
  }

  lemma {:induction false} ZerosAddNothing(k: nat, s: string, b: nat)
    ensures ValueOf(Zeros(k) + s, b) == ValueOf(s, b)
    decreases |s|, k
  {
    if s != "" {
      assert (Zeros(k) + s)[..|Zeros(k) + s| - 1] == Zeros(k) + s[..|s| - 1];
      ZerosAddNothing(k, s[..|s| - 1], b);
    } else if k > 0 {
      assert (Zeros(k) + s)[..k - 1] == Zeros(k - 1) + "";
      ZerosAddNothing(k - 1, "", b);
    }
  }

  lemma PaddedIsRead(n: nat, k: nat)
    ensures Parse(PadStart(Numeral(n, 16), k), 16) == Some(n)
  {
    NumeralIsRead(n, 16);
    if |Numeral(n, 16)| < k { ZerosAddNothing(k - |Numeral(n, 16)|, Numeral(n, 16), 16); }
  }

  lemma ZerosAreWritten(front: string, d: nat, b: nat)
    requires IsBase(b) && d < b && front != "" && PadStart(Numeral(0, b), |front|) == front
    ensures PadStart(Numeral(d, b), |front| + 1) == front + [DigitChar(d)]
  {
    assert Numeral(0, b) == "0";
    assert front == Zeros(|front|);
  }

  /** Numeral of a number with one more digit. */
  lemma NumeralSnoc(v: nat, d: nat, b: nat)
    requires IsBase(b) && d < b && v > 0
    ensures Numeral(Shift(v, b) + d, b) == Numeral(v, b) + [DigitChar(d)]
  {
    QuotientOfSnoc(v, d, b);
  }

  lemma SnocIsWritten(front: string, v: nat, d: nat, b: nat)
    requires IsBase(b) && d < b && front != "" && PadStart(Numeral(v, b), |front|) == front
    ensures PadStart(Numeral(Shift(v, b) + d, b), |front| + 1) == front + [DigitChar(d)]
  {
    if v == 0 {
      ZerosAreWritten(front, d, b);
    } else {
      NumeralSnoc(v, d, b);
      PadStartSnoc(Numeral(v, b), DigitChar(d), |front|);
    }
  }

  lemma SnocOfValueIsWritten(s: string, front: string, v: nat, d: nat, n: nat, b: nat)
    requires IsBase(b) && d < b && front != "" && PadStart(Numeral(v, b), |front|) == front
    requires s == front + [DigitChar(d)] && n == Shift(v, b) + d
    ensures PadStart(Numeral(n, b), |s|) == s
  {
    SnocIsWritten(front, v, d, b);
  }

  lemma LastDigit(s: string, b: nat)
    requires s != "" && DigitValue(s[|s| - 1]) < 16
    ensures var (front, d) := (s[..|s| - 1], DigitValue(s[|s| - 1]));
      s == front + [DigitChar(d)] && ValueOf(s, b) == Shift(ValueOf(front, b), b) + d
  {
  }

  lemma OneMoreIsWritten(s: string, b: nat)
    requires IsBase(b) && |s| >= 2 && DigitValue(s[|s| - 1]) < b
    requires PadStart(Numeral(ValueOf(s[..|s| - 1], b), b), |s| - 1) == s[..|s| - 1]
    ensures PadStart(Numeral(ValueOf(s, b), b), |s|) == s
  {
    var (front, d) := (s[..|s| - 1], DigitValue(s[|s| - 1]));
    LastDigit(s, b);
    SnocOfValueIsWritten(s, front, ValueOf(front, b), d, ValueOf(s, b), b);
  }

  lemma OneIsWritten(s: string, b: nat)
    requires IsBase(b) && |s| == 1 && DigitValue(s[0]) < b
    ensures PadStart(Numeral(ValueOf(s, b), b), |s|) == s
  {
    OneDigitIsWritten(DigitValue(s[0]), b);
    assert s[..0] == "" && "" + [s[0]] == s;
    assert ValueOf(s, b) == Shift(0, b) + DigitValue(s[0]);
  }

  /** Writing the value of a numeral at the numeral's own length gives the numeral back, leading zeros included. */
  lemma {:induction false} ValueIsWritten(s: string, b: nat)
    requires IsBase(b) && IsNumeral(s, b)
    ensures PadStart(Numeral(ValueOf(s, b), b), |s|) == s
    decreases |s|
  {
    if |s| == 1 {
      OneIsWritten(s, b);
    } else {
      ValueIsWritten(s[..|s| - 1], b);
      OneMoreIsWritten(s, b);
    }
  }

  lemma OneDigitIsWritten(d: nat, b: nat)
    requires IsBase(b) && d < b
    ensures PadStart(Numeral(Shift(0, b) + d, b), 1) == "" + [DigitChar(d)]
  {
  }

  lemma PadStartSnoc(s: string, c: char, n: nat)
    ensures PadStart(s + [c], n + 1) == PadStart(s, n) + [c]
  {
  }

  function Pow(b: nat, k: nat): nat {
    if k == 0 then 1 else Pow(b, k - 1) * b
  }

  /** A numeral has at most `k` digits exactly below the `k`-th power of its base. */
  lemma {:induction false} NumeralLength(n: nat, b: nat, k: nat)
    requires IsBase(b) && k >= 1
    ensures |Numeral(n, b)| <= k <==> n < Pow(b, k)
    decreases k
  {
    if k == 1 {
      assert Pow(b, 1) == b by { assert Pow(b, 0) == 1; }
      if n >= b { assert Numeral(Quotient(n, b), b) != ""; }
    } else if n < b {
      PowGrows(b, k);
    } else {
      NumeralLength(Quotient(n, b), b, k - 1);
      var p := Pow(b, k - 1);
      assert Quotient(n, b) < p <==> n < p * b by { if b == 10 {} else {} }
    }
  }

  lemma {:induction false} PowGrows(b: nat, k: nat)
    requires IsBase(b) && k >= 1
    ensures Pow(b, k) >= b
  {
    if k > 1 {
      PowGrows(b, k - 1);
      if b == 10 {} else {}
    } else {
      assert Pow(b, 0) == 1;
    }
  }

  // ---------- UUIDs ----------

  function BnToUuid(n: nat): string {
    var hex := PadStart(Numeral(n, 16), 32);
    hex[0..8] + "-" + hex[8..12] + "-" + hex[12..16] + "-" + hex[16..20] + "-" + hex[20..]
  }

  /** `uuidToHex`: the text without its dashes. */
  function UuidToHex(uuid: string): string {
    if uuid == "" then ""
    else (if uuid[0] == '-' then "" else [uuid[0]]) + UuidToHex(uuid[1..])
  }

  function UuidToBn(uuid: string): Option<nat> {
    Parse(UuidToHex(uuid), 16)
  }

  /** The decimal sent on chain. */
  function UuidToFixed(uuid: string): Option<string> {
    match UuidToBn(uuid)
    case None => None
    case Some(n) => Some(Numeral(n, 10))
  }

  /** What an event listener makes of the decimal it receives. */
  function UuidFromEvent(decimal: string): Option<string> {
    match Parse(decimal, 10)
    case None => None
    case Some(n) => Some(BnToUuid(n))
  }

  /** Lower-case canonical form: 8-4-4-4-12 hexadecimal digits. */
  predicate Canonical(uuid: string) {
    && |uuid| == 36
    && forall i :: 0 <= i < 36 ==>
         if i == 8 || i == 13 || i == 18 || i == 23 then uuid[i] == '-' else DigitValue(uuid[i]) < 16
  }

  lemma {:induction false} DashesAreStripped(a: string, b: string)
    requires '-' !in a
    ensures UuidToHex(a + "-" + b) == a + UuidToHex(b)
  {
    if a == "" {
      assert a + "-" + b == "-" + b && ("-" + b)[1..] == b;
    } else {
      assert (a + "-" + b)[1..] == a[1..] + "-" + b;
      assert a[0] in a;
      DashesAreStripped(a[1..], b);
    }
  }

  lemma {:induction false} NothingToStrip(a: string)
    requires '-' !in a
    ensures UuidToHex(a) == a
  {
    if a != "" {
      assert a[0] in a;
      NothingToStrip(a[1..]);
    }
  }

  lemma StripFormatted(hex: string)
    requires |hex| >= 32 && '-' !in hex
    ensures UuidToHex(hex[0..8] + "-" + hex[8..12] + "-" + hex[12..16] + "-" + hex[16..20] + "-" + hex[20..]) == hex
  {
    var (a, b, c, d, e) := (hex[0..8], hex[8..12], hex[12..16], hex[16..20], hex[20..]);
    assert a + "-" + b + "-" + c + "-" + d + "-" + e == a + "-" + (b + "-" + (c + "-" + (d + "-" + e)));
    DashesAreStripped(a, b + "-" + (c + "-" + (d + "-" + e)));
    DashesAreStripped(b, c + "-" + (d + "-" + e));
    DashesAreStripped(c, d + "-" + e);
    DashesAreStripped(d, e);
    NothingToStrip(e);
    assert a + (b + (c + (d + e))) == hex;
  }

  lemma NumeralsHaveNoDashes(s: string)
    requires IsNumeral(s, 16)
    ensures '-' !in s
  {
    assert DigitValue('-') == 16;
  }

  /** Formatting any number, however large, and reading it back gives the number. */
  lemma NumbersRoundTrip(n: nat)
    ensures UuidToBn(BnToUuid(n)) == Some(n)
  {
    var hex := PadStart(Numeral(n, 16), 32);
    PaddedIsRead(n, 32);
    NumeralsHaveNoDashes(hex);
    StripFormatted(hex);
  }

  lemma CanonicalIsFormatted(uuid: string) returns (hex: string)
    requires Canonical(uuid)
    ensures |hex| == 32 && IsNumeral(hex, 16)
    ensures uuid == hex[0..8] + "-" + hex[8..12] + "-" + hex[12..16] + "-" + hex[16..20] + "-" + hex[20..]
  {
    var (a, b, c, d, e) := (uuid[0..8], uuid[9..13], uuid[14..18], uuid[19..23], uuid[24..36]);
    hex := a + b + c + d + e;
    FiveParts(a, b, c, d, e);
    forall i | 0 <= i < 32 ensures DigitValue(hex[i]) < 16 {
      var j := if i < 8 then i else if i < 12 then i + 1 else if i < 16 then i + 2 else if i < 20 then i + 3 else i + 4;
      assert hex[i] == uuid[j];
    }
    assert uuid[8..9] == "-" && uuid[13..14] == "-" && uuid[18..19] == "-" && uuid[23..24] == "-";
    assert uuid == a + uuid[8..9] + b + uuid[13..14] + c + uuid[18..19] + d + uuid[23..24] + e;
  }

  lemma FiveParts(a: string, b: string, c: string, d: string, e: string)
    requires |a| == 8 && |b| == |c| == |d| == 4
    ensures var hex := a + b + c + d + e;
      hex[0..8] == a && hex[8..12] == b && hex[12..16] == c && hex[16..20] == d && hex[20..] == e
  {
  }

  /** The number of a canonical UUID formats back to it. */
  lemma IdsRoundTrip(uuid: string)
    requires Canonical(uuid)
    ensures UuidToBn(uuid).Some? && BnToUuid(UuidToBn(uuid).value) == uuid
  {
    var hex := CanonicalIsFormatted(uuid);
    NumeralsHaveNoDashes(hex);
    StripFormatted(hex);
    ValueIsWritten(hex, 16);
  }

  /** A canonical UUID survives the way on chain as a decimal and back out of an event. */
  lemma UuidsRoundTrip(uuid: string)
    requires Canonical(uuid)
    ensures UuidToFixed(uuid).Some? && UuidFromEvent(UuidToFixed(uuid).value) == Some(uuid)
  {
    IdsRoundTrip(uuid);
    NumeralIsRead(UuidToBn(uuid).value, 10);
  }

  /** What is sent on chain is the decimal of the id's number: decimal digits, no leading zero, as many as the number has. */
  lemma FixedIsDecimal(uuid: string, k: nat)
    requires Canonical(uuid) && k >= 1
    ensures UuidToFixed(uuid).Some?
    ensures var (s, n) := (UuidToFixed(uuid).value, UuidToBn(uuid).value);
      && s != "" && (forall c :: c in s ==> '0' <= c <= '9')
      && (n > 0 ==> s[0] != '0')
      && (|s| <= k <==> n < Pow(10, k))
  {
    IdsRoundTrip(uuid);
    var n := UuidToBn(uuid).value;
    NumeralsAreNumerals(n, 10);
    forall c | c in Numeral(n, 10) ensures '0' <= c <= '9' { assert DigitValue(c) < 10; }
    if n > 0 { NoLeadingZero(n, 10); }
    NumeralLength(n, 10, k);
  }

  lemma {:induction false} NoLeadingZero(n: nat, b: nat)
    requires IsBase(b) && n > 0
    ensures Numeral(n, b)[0] != '0'
  {
    if n >= b {
      NoLeadingZero(Quotient(n, b), b);
      assert Numeral(n, b)[0] == Numeral(Quotient(n, b), b)[0];
    }
  }

  /** A concrete id: hexadecimal off chain, decimal on chain. */
  lemma ConcreteNumerals()
    ensures Numeral(255, 16) == "ff" && Numeral(255, 10) == "255" && Parse("ff", 16) == Some(255)
  {
    assert Numeral(15, 16) == "f" && Numeral(2, 10) == "2";
    assert Numeral(25, 10) == Numeral(2, 10) + "5";
    assert Numeral(255, 10) == Numeral(25, 10) + "5";
    assert Numeral(255, 16) == Numeral(15, 16) + "f";
    NumeralIsRead(255, 16);
  }

  /** Distinct canonical UUIDs are distinct on chain. */
  lemma UuidsStayDistinct(u: string, v: string)
    requires Canonical(u) && Canonical(v) && UuidToFixed(u) == UuidToFixed(v)
    ensures u == v
  {
    UuidsRoundTrip(u);
    UuidsRoundTrip(v);
  }

  /** The formatted text is a UUID exactly for numbers that fit into 128 bits. */
  lemma FormatsUuidsBelow128Bits(n: nat)
    ensures Canonical(BnToUuid(n)) <==> n < Pow(2, 128)
  {
    NumeralLength(n, 16, 32);
    PowersAgree(32);
    PaddedIsRead(n, 32);
    FormattedIsCanonical(PadStart(Numeral(n, 16), 32));
  }

  lemma FormattedIsCanonical(hex: string)
    requires |hex| >= 32 && IsNumeral(hex, 16)
    ensures Canonical(hex[0..8] + "-" + hex[8..12] + "-" + hex[12..16] + "-" + hex[16..20] + "-" + hex[20..])
       <==> |hex| == 32
  {
  }

  lemma {:induction false} PowIsMonotone(b: nat, j: nat, k: nat)
    requires IsBase(b)
    ensures Pow(b, j) <= Pow(b, j + k)
  {
    if k > 0 {
      PowIsMonotone(b, j, k - 1);
      if b == 10 {} else {}
    }
  }

  lemma {:induction false} PowersAgree(k: nat)
    ensures Pow(16, k) == Pow(2, 4 * k)
  {
    if k > 0 {
      PowersAgree(k - 1);
      var m := 4 * (k - 1);
      assert Pow(2, m + 4) == Pow(2, m + 3) * 2 == Pow(2, m + 2) * 2 * 2 == Pow(2, m + 1) * 2 * 2 * 2
          == Pow(2, m) * 2 * 2 * 2 * 2;
    }
  }
}
