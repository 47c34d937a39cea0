/** Decimal text: std::to_string, the std::sto* family as StringParser.hpp calls it, and
    their agreement. Integers have the widths of a 64-bit Unix system. */
module Decimal {
  import opened Arithmetic

  predicate IsDigit(c: char) { '0' <= c <= '9' }

  predicate AllDigits(s: string) { forall i :: 0 <= i < |s| ==> IsDigit(s[i]) }

  function DigitChar(d: nat): (c: char)
    requires d < 10
    ensures IsDigit(c)
  {
    (d + '0' as int) as char
  }

  function DigitValue(c: char): (d: nat)
    requires IsDigit(c)
    ensures d < 10
  {
    c as int - '0' as int
  }

  function NatToString(n: nat): (s: string)
    ensures s != "" && AllDigits(s)
  {
    if n < 10 then [DigitChar(n)] else NatToString(n / 10) + [DigitChar(n % 10)]
  }

  // std::to_string on integers.
  function ToString(n: int): (s: string)
    ensures s != "" && forall i :: 0 <= i < |s| ==> IsDigit(s[i]) || s[i] == '-'
  {
    if n < 0 then "-" + NatToString(-n) else NatToString(n)
  }

  function NatValue(s: string): nat
    requires AllDigits(s)
  {
    if s == "" then 0 else 10 * NatValue(s[..|s| - 1]) + DigitValue(s[|s| - 1])
  }

  lemma {:induction false} NatValueOfNatToString(n: nat)
    ensures NatValue(NatToString(n)) == n
  {
    if n >= 10 {
      var front := NatToString(n / 10);
      NatValueOfNatToString(n / 10);
      assert NatToString(n)[..|front|] == front;
    }
  }

  function PowerOf10(k: nat): (p: nat)
    ensures p > 0
  {
    if k == 0 then 1 else 10 * PowerOf10(k - 1)
  }

  // How many digits there are, with no zero in front.
  lemma {:induction false} LengthOfNatToString(n: nat)
    ensures n < PowerOf10(|NatToString(n)|)
    ensures n > 0 ==> PowerOf10(|NatToString(n)| - 1) <= n
  {
    if n >= 10 {
      LengthOfNatToString(n / 10);
    }
  }

  // And which they are: the digit with `k` others behind it stands for the k-th power of 10.
  lemma {:induction false} DigitOfNatToString(n: nat, k: nat)
    requires k < |NatToString(n)|
    ensures var s := NatToString(n); s[|s| - 1 - k] as int - '0' as int == n / PowerOf10(k) % 10
  {
    if k > 0 {
      DigitOfNatToString(n / 10, k - 1);
      assert n / 10 / PowerOf10(k - 1) == n / (10 * PowerOf10(k - 1)) by { QuotientByTen(n, PowerOf10(k - 1)); }
    }
  }

  // The reading rule of strtol and its relatives in base 10: blanks, a sign, and the
  // longest run of digits; what follows is ignored.
  datatype Reading = NoNumber | Number(negative: bool, magnitude: nat)

  predicate IsBlank(c: char) { c == ' ' || '\t' <= c <= '\r' }

  function SkipBlanks(s: string): string
  {
    if s != "" && IsBlank(s[0]) then SkipBlanks(s[1..]) else s
  }

  function LeadingDigits(s: string): (d: string)
    ensures AllDigits(d) && d <= s
    ensures |d| < |s| ==> !IsDigit(s[|d|])
  {
    if s != "" && IsDigit(s[0]) then [s[0]] + LeadingDigits(s[1..]) else ""
  }

  function Read(s: string): Reading
  {
    ReadDigits(SkipBlanks(s))
  }

  function ReadDigits(t: string): Reading
  {
    var negative := t != "" && t[0] == '-';
    var body := if t != "" && (t[0] == '-' || t[0] == '+') then t[1..] else t;
    var digits := LeadingDigits(body);
    if digits == "" then NoNumber else Number(negative, NatValue(digits))
  }

  const TWO_32: nat := 0x1_0000_0000
  const TWO_63: int := 0x8000_0000_0000_0000
  const TWO_64: nat := 0x1_0000_0000_0000_0000

  predicate IsInt64(n: int) { -TWO_63 <= n < TWO_63 }

  // The exceptions of std::stol, std::stoll, std::stoul and std::stoull.
  datatype Conversion = Converted(value: int) | InvalidArgument | OutOfRange

  // std::stol and std::stoll.
  function Stoll(s: string): (r: Conversion)
    ensures r.Converted? ==> IsInt64(r.value)
  {
    match Read(s)
    case NoNumber => InvalidArgument
    case Number(negative, magnitude) =>
      var n := if negative then 0 - magnitude as int else magnitude;
      if IsInt64(n) then Converted(n) else OutOfRange
  }

  // std::stoul and std::stoull: a minus sign negates modulo 2^64.
  function Stoull(s: string): (r: Conversion)
    ensures r.Converted? ==> 0 <= r.value < TWO_64
  {
    match Read(s)
    case NoNumber => InvalidArgument
    case Number(negative, magnitude) =>
      if magnitude >= TWO_64 then OutOfRange
      else Converted(if negative && magnitude > 0 then TWO_64 - magnitude else magnitude)
  }

  function StringToTimestamp(s: string): (n: int)
    ensures IsInt64(n)
  {
    var r := Stoll(s);
    if r.Converted? then r.value else 0
  }

  function StringToSizeT(s: string): (n: nat)
    ensures n < TWO_64
  {
    var r := Stoull(s);
    if r.Converted? then r.value else 0
  }

  // The result of stoul is cut to the 32 bits of unsigned int.
  function StringToUInt(s: string): (n: nat)
    ensures n < TWO_32
  {
    StringToSizeT(s) % 0x1_0000_0000
  }

  lemma LeadingDigitsOfDigits(s: string)
    requires AllDigits(s)
    ensures LeadingDigits(s) == s
  {
  }

  lemma ReadToString(n: int)
    ensures Read(ToString(n)) == Number(n < 0, if n < 0 then -n else n)
  {
    var m: nat := if n < 0 then -n else n;
    var digits := NatToString(m);
    LeadingDigitsOfDigits(digits);
    NatValueOfNatToString(m);
    assert ToString(n)[0] == '-' || IsDigit(ToString(n)[0]);
    if n < 0 {
      assert ToString(n)[1..] == digits;
    }
  }

  lemma {:induction false} LeadingDigitsStop(x: string, c: char, y: string)
    requires !IsDigit(c)
    ensures LeadingDigits(x + [c] + y) == LeadingDigits(x)
  {
    var s := x + [c] + y;
    if x == "" {
      assert s[0] == c;
    } else {
      assert s[0] == x[0] && s[1..] == x[1..] + [c] + y;
      LeadingDigitsStop(x[1..], c, y);
    }
  }

  lemma {:induction false} SkipBlanksStops(x: string, c: char, y: string)
    requires !IsBlank(c)
    ensures SkipBlanks(x + [c] + y) == SkipBlanks(x) + [c] + y
  {
    var s := x + [c] + y;
    if x == "" {
      assert s == [c] + y && SkipBlanks(x) == "";
    } else if IsBlank(x[0]) {
      assert s[0] == x[0] && s[1..] == x[1..] + [c] + y;
      SkipBlanksStops(x[1..], c, y);
    } else {
      assert s[0] == x[0];
    }
  }

  lemma ReadDigitsStop(t: string, y: string)
    ensures ReadDigits(t + [','] + y) == ReadDigits(t)
  {
    hide LeadingDigits, NatValue;
    var s := t + [','] + y;
    if t == "" {
      assert s[0] == ',' && s == "" + [','] + y;
      LeadingDigitsStop("", ',', y);
    } else if t[0] == '-' || t[0] == '+' {
      assert s[0] == t[0] && s[1..] == t[1..] + [','] + y;
      LeadingDigitsStop(t[1..], ',', y);
    } else {
      assert s[0] == t[0];
      LeadingDigitsStop(t, ',', y);
    }
  }

  // Reading a number never looks past a comma.
  lemma ReadStopsAtComma(x: string, y: string)
    ensures Read(x + "," + y) == Read(x)
  {
    hide ReadDigits, SkipBlanks;
    SkipBlanksStops(x, ',', y);
    ReadDigitsStop(SkipBlanks(x), y);
  }

  lemma StollStopsAtComma(x: string, y: string)
    ensures Stoll(x + "," + y) == Stoll(x)
  {
    hide Read;
    ReadStopsAtComma(x, y);
  }

  // Spaces, tabs, line feeds, vertical tabs, form feeds and carriage returns.
  predicate AllBlank(s: string) { forall i :: 0 <= i < |s| ==> s[i] == ' ' || 9 <= s[i] as int <= 13 }

  lemma {:induction false} SkipsAllBlanks(blanks: string, rest: string)
    requires AllBlank(blanks) && (rest == "" || !IsBlank(rest[0]))
    ensures SkipBlanks(blanks + rest) == rest
  {
    if blanks == "" {
      assert blanks + rest == rest;
    } else {
      assert (blanks + rest)[1..] == blanks[1..] + rest;
      SkipsAllBlanks(blanks[1..], rest);
    }
  }

  lemma {:induction false} LeadingDigitsGoOn(digits: string, rest: string)
    requires AllDigits(digits) && (rest == "" || !IsDigit(rest[0]))
    ensures LeadingDigits(digits + rest) == digits
  {
    if digits == "" {
      assert digits + rest == rest;
    } else {
      assert (digits + rest)[1..] == digits[1..] + rest;
      LeadingDigitsGoOn(digits[1..], rest);
    }
  }

  lemma ReadSigned(sign: string, n: nat, rest: string)
    requires sign == "" || sign == "+" || sign == "-"
    requires rest == "" || !IsDigit(rest[0])
    ensures var t := sign + (NatToString(n) + rest);
            t != "" && !IsBlank(t[0]) && ReadDigits(t) == Number(sign == "-", n)
  {
    hide NatToString, NatValue, LeadingDigits;
    var body := NatToString(n) + rest;
    var t := sign + body;
    assert IsDigit(body[0]);
    if sign == "" {
      assert t == body;
    } else {
      assert t[0] == sign[0] && t[1..] == body;
    }
    LeadingDigitsGoOn(NatToString(n), rest);
    NatValueOfNatToString(n);
  }

  // What a number may have around it: blanks in front, a sign, and behind it anything that
  // does not begin with a digit. The unsigned readers take a minus sign modulo 2^64.
  lemma ReadAmongOthers(blanks: string, sign: string, n: nat, rest: string)
    requires AllBlank(blanks) && (sign == "" || sign == "+" || sign == "-")
    requires rest == "" || !IsDigit(rest[0])
    ensures var text := blanks + (sign + (NatToString(n) + rest));
            var value := if sign == "-" then 0 - n as int else n;
            && Stoll(text) == (if IsInt64(value) then Converted(value) else OutOfRange)
            && Stoull(text) == if n < TWO_64 then Converted(value % 0x1_0000_0000_0000_0000) else OutOfRange
  {
    hide SkipBlanks, ReadDigits, NatToString, IsBlank, AllBlank, IsDigit;
    ReadSigned(sign, n, rest);
    SkipsAllBlanks(blanks, sign + (NatToString(n) + rest));
  }

  // A printed number is read back exactly when it has a place in the type it is read into.
  lemma StollOfToString(n: int)
    ensures Stoll(ToString(n)) == if IsInt64(n) then Converted(n) else OutOfRange
    ensures IsInt64(n) ==> StringToTimestamp(ToString(n)) == n
    ensures !IsInt64(n) ==> StringToTimestamp(ToString(n)) == 0
  {
    ReadToString(n);
  }

  lemma StringToUIntOfToString(n: nat)
    requires n < TWO_64
    ensures StringToSizeT(ToString(n)) == n
    ensures StringToUInt(ToString(n)) == n <==> n < TWO_32
  {
    ReadToString(n);
  }

  lemma ToStringIsInjective(m: int, n: int)
    requires ToString(m) == ToString(n)
    ensures m == n
  {
    ReadToString(m);
    ReadToString(n);
  }
}
