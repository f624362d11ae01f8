/** How an amount is written in a response: exactly, without an exponent, and in only one way. */
module Decimals {
  import opened Common

  type Digit = d: int | 0 <= d <= 9

  /** A finite decimal, as its sign, coefficient digits and exponent. */
  datatype Decimal = Decimal(negative: bool, digits: seq<Digit>, exponent: int)

  predicate NoLeadingZero(digits: seq<Digit>) {
    digits != [] && (digits[0] == 0 ==> |digits| == 1)
  }

  function Last(digits: seq<Digit>): Digit
    requires digits != []
  {
    digits[|digits| - 1]
  }

  function Coefficient(digits: seq<Digit>): nat {
    if digits == [] then 0 else 10 * Coefficient(digits[..|digits| - 1]) + Last(digits)
  }

  function PowerOfTen(e: int): real
    decreases if e < 0 then -e else e
  {
    if e == 0 then 1.0 else if e > 0 then 10.0 * PowerOfTen(e - 1) else PowerOfTen(e + 1) / 10.0
  }

  function SignedCoefficient(d: Decimal): int {
    if d.negative then -1 * Coefficient(d.digits) else Coefficient(d.digits)
  }

  function Value(d: Decimal): real {
    SignedCoefficient(d) as real * PowerOfTen(d.exponent)
  }

  function Zeros(n: nat): seq<Digit> {
    seq(n, _ => 0)
  }

  function DigitsOf(n: nat): seq<Digit> {
    if n < 10 then [n] else DigitsOf(n / 10) + [n % 10]
  }

  // normalize rounds to the precision of its context, half to even, and drops trailing zeros.

  function TenTo(n: nat): nat {
    if n == 0 then 1 else 10 * TenTo(n - 1)
  }

  /** Whether the digits after the kept ones push the last kept digit up. */
  predicate RoundsUp(kept: seq<Digit>, rest: seq<Digit>)
    requires kept != []
  {
    var twice := 2 * Coefficient(rest);
    twice > TenTo(|rest|) || (twice == TenTo(|rest|) && Last(kept) % 2 == 1)
  }

  function Rounded(d: Decimal, precision: nat): Decimal
    requires precision > 0
  {
    if |d.digits| <= precision then d
    else
      var kept, rest := d.digits[..precision], d.digits[precision..];
      var coefficient := Coefficient(kept) + if RoundsUp(kept, rest) then 1 else 0;
      Decimal(d.negative, DigitsOf(coefficient), d.exponent + |rest|)
  }

  function DropTrailingZeros(d: Decimal): Decimal
    decreases |d.digits|
  {
    if |d.digits| > 1 && Last(d.digits) == 0
    then DropTrailingZeros(Decimal(d.negative, d.digits[..|d.digits| - 1], d.exponent + 1))
    else d
  }

  /** A zero keeps its sign and loses its exponent. */
  function Normalized(d: Decimal): Decimal {
    if d.digits == [0] then Decimal(d.negative, [0], 0) else DropTrailingZeros(d)
  }

  // format 'f'.

  /** Digits before and after the point. */
  datatype Numeral = Numeral(negative: bool, whole: seq<Digit>, fraction: seq<Digit>)

  function OrZero(digits: seq<Digit>): seq<Digit> {
    if digits == [] then [0] else digits
  }

  function LaidOut(d: Decimal): Numeral {
    var point := d.exponent + |d.digits|;
    if point < 0 then Numeral(d.negative, [0], Zeros(-point) + d.digits)
    else if point > |d.digits| then Numeral(d.negative, d.digits + Zeros(point - |d.digits|), [])
    else Numeral(d.negative, OrZero(d.digits[..point]), d.digits[point..])
  }

  function DigitChar(d: Digit): char {
    (('0' as int) + d) as char
  }

  predicate IsDigit(c: char) {
    '0' <= c <= '9'
  }

  function Chars(digits: seq<Digit>): string {
    seq(|digits|, i requires 0 <= i < |digits| => DigitChar(digits[i]))
  }

  function Text(n: Numeral): string {
    (if n.negative then "-" else "") + Chars(n.whole) + if n.fraction == [] then "" else "." + Chars(n.fraction)
  }

  function PrintAt(d: Decimal, precision: nat): string
    requires precision > 0
  {
    Text(LaidOut(Normalized(Rounded(d, precision))))
  }

  /** The precision is the number of digits the value has. */
  function Print(d: Decimal): string
    requires d.digits != []
  {
    PrintAt(d, |d.digits|)
  }

  // Reading a plain numeral back: a sign, digits, and perhaps a point and more digits.

  function Digits(s: string): Option<seq<Digit>> {
    if forall c | c in s :: IsDigit(c) then Some(DigitsIn(s)) else None
  }

  function DigitValue(c: char): Digit
    requires IsDigit(c)
  {
    (c as int) - ('0' as int)
  }

  function DigitsIn(s: string): (digits: seq<Digit>)
    requires forall c | c in s :: IsDigit(c)
    ensures |digits| == |s| && forall i :: 0 <= i < |s| ==> digits[i] == DigitValue(s[i])
  {
    if s == "" then [] else [DigitValue(s[0])] + DigitsIn(s[1..])
  }

  function PointAt(s: string): nat {
    if s == "" || s[0] == '.' then 0 else 1 + PointAt(s[1..])
  }

  lemma {:induction false} PointIsWithin(s: string)
    ensures PointAt(s) <= |s|
    ensures PointAt(s) < |s| ==> s[PointAt(s)] == '.'
    decreases |s|
  {
    if s != "" && s[0] != '.' {
      PointIsWithin(s[1..]);
    }
  }

  function ReadUnsigned(negative: bool, s: string): Option<Numeral> {
    PointIsWithin(s);
    var p := PointAt(s);
    var whole := Digits(s[..p]);
    var fraction := if p == |s| then Some([]) else Digits(s[p + 1..]);
    if whole.None? || fraction.None? || whole.value + fraction.value == [] then None
    else Some(Numeral(negative, whole.value, fraction.value))
  }

  function Read(s: string): Option<Numeral> {
    if s != "" && s[0] == '-' then ReadUnsigned(true, s[1..])
    else if s != "" && s[0] == '+' then ReadUnsigned(false, s[1..])
    else ReadUnsigned(false, s)
  }

  function DropLeadingZeros(digits: seq<Digit>): seq<Digit> {
    if |digits| > 1 && digits[0] == 0 then DropLeadingZeros(digits[1..]) else digits
  }

  function FromNumeral(n: Numeral): Decimal {
    Decimal(n.negative, DropLeadingZeros(n.whole + n.fraction), -|n.fraction|)
  }

  function Parse(s: string): Option<Decimal> {
    var n := Read(s);
    if n.None? then None else Some(FromNumeral(n.value))
  }

  // Reading undoes writing.

  lemma DigitsOfChars(digits: seq<Digit>)
    ensures Digits(Chars(digits)) == Some(digits)
    ensures forall c :: c in Chars(digits) ==> IsDigit(c)
  {
    assert DigitsIn(Chars(digits)) == digits;
  }

  lemma {:induction false} PointAfterDigits(s: string, rest: string)
    requires forall c :: c in s ==> IsDigit(c)
    requires rest == "" || rest[0] == '.'
    ensures PointAt(s + rest) == |s|
    decreases |s|
  {
    if s == "" {
      assert s + rest == rest;
    } else {
      assert (s + rest)[1..] == s[1..] + rest;
      assert s[0] in s;
      PointAfterDigits(s[1..], rest);
    }
  }

  function Unsigned(n: Numeral): string {
    Chars(n.whole) + if n.fraction == [] then "" else "." + Chars(n.fraction)
  }

  lemma ReadingUnsigned(n: Numeral)
    requires n.whole != []
    ensures ReadUnsigned(n.negative, Unsigned(n)) == Some(n)
    ensures Unsigned(n) != "" && IsDigit(Unsigned(n)[0])
  {
    var whole := Chars(n.whole);
    var rest := if n.fraction == [] then "" else "." + Chars(n.fraction);
    var s := Unsigned(n);
    DigitsOfChars(n.whole);
    DigitsOfChars(n.fraction);
    assert whole[0] in whole && IsDigit(whole[0]);
    PointAfterDigits(whole, rest);
    hide Digits, Chars, PointAt;
    assert s == whole + rest && s[..|whole|] == whole;
    if n.fraction != [] {
      assert s[|whole| + 1..] == Chars(n.fraction);
    }
  }

  lemma ReadingText(n: Numeral)
    requires n.whole != []
    ensures Read(Text(n)) == Some(n)
  {
    ReadingUnsigned(n);
    hide ReadUnsigned, Chars;
    if n.negative {
      assert Text(n) == "-" + Unsigned(n) && Text(n)[1..] == Unsigned(n);
    } else {
      assert Text(n) == Unsigned(n);
    }
  }

  // Digits and their value.

  lemma {:induction false} ExtraZero(digits: seq<Digit>)
    ensures Coefficient([0] + digits) == Coefficient(digits)
    decreases |digits|
  {
    if digits != [] {
      assert ([0] + digits)[..|digits|] == [0] + digits[..|digits| - 1];
      ExtraZero(digits[..|digits| - 1]);
    }
  }

  lemma {:induction false} LeadingZeros(n: nat, digits: seq<Digit>)
    ensures Coefficient(Zeros(n) + digits) == Coefficient(digits)
  {
    if n == 0 {
      assert Zeros(0) + digits == digits;
    } else {
      assert Zeros(n) + digits == [0] + (Zeros(n - 1) + digits);
      ExtraZero(Zeros(n - 1) + digits);
      LeadingZeros(n - 1, digits);
    }
  }

  lemma {:induction false} ZerosAreDropped(digits: seq<Digit>)
    requires digits != []
    ensures var kept := DropLeadingZeros(digits);
            NoLeadingZero(kept) && |kept| <= |digits| && digits == Zeros(|digits| - |kept|) + kept
    decreases |digits|
  {
    if |digits| > 1 && digits[0] == 0 {
      ZerosAreDropped(digits[1..]);
      var kept := DropLeadingZeros(digits[1..]);
      assert Zeros(|digits| - |kept|) == [0] + Zeros(|digits| - 1 - |kept|);
      assert digits == [0] + digits[1..];
    } else {
      assert Zeros(0) + digits == digits;
    }
  }

  lemma DroppedZeros(digits: seq<Digit>)
    requires digits != []
    ensures var kept := DropLeadingZeros(digits);
            NoLeadingZero(kept) && |kept| <= |digits| && digits == Zeros(|digits| - |kept|) + kept
            && Coefficient(kept) == Coefficient(digits)
  {
    hide Coefficient, Zeros, DropLeadingZeros;
    ZerosAreDropped(digits);
    var kept := DropLeadingZeros(digits);
    LeadingZeros(|digits| - |kept|, kept);
  }

  lemma {:induction false} CoefficientIsPositive(digits: seq<Digit>)
    requires NoLeadingZero(digits)
    ensures Coefficient(digits) == 0 <==> digits == [0]
    decreases |digits|
  {
    if |digits| > 1 {
      CoefficientIsPositive(digits[..|digits| - 1]);
    }
  }

  lemma LongerIsLarger(digits: seq<Digit>)
    requires NoLeadingZero(digits)
    ensures |digits| > 1 <==> Coefficient(digits) >= 10
    ensures |digits| > 1 ==> NoLeadingZero(digits[..|digits| - 1])
  {
    if |digits| > 1 {
      CoefficientIsPositive(digits[..|digits| - 1]);
    }
  }

  lemma {:induction false} CoefficientsDiffer(a: seq<Digit>, b: seq<Digit>)
    requires NoLeadingZero(a) && NoLeadingZero(b) && Coefficient(a) == Coefficient(b)
    ensures a == b
    decreases |a|
  {
    var a', b' := a[..|a| - 1], b[..|b| - 1];
    assert Last(a) == Last(b) && Coefficient(a') == Coefficient(b');
    LongerIsLarger(a);
    LongerIsLarger(b);
    hide Coefficient;
    if |a| > 1 {
      CoefficientsDiffer(a', b');
    }
    assert a == a' + [Last(a)] && b == b' + [Last(b)];
  }

  lemma PowerStep(e: int)
    ensures PowerOfTen(e + 1) == 10.0 * PowerOfTen(e)
  {}

  lemma {:induction false} PowerIsPositive(e: int)
    ensures PowerOfTen(e) > 0.0
    decreases if e < 0 then -e else e
  {
    if e > 0 {
      PowerIsPositive(e - 1);
    } else if e < 0 {
      PowerIsPositive(e + 1);
    }
  }

  /** Moving a zero between the digits and the exponent changes nothing. */
  lemma ZeroMoves(negative: bool, digits: seq<Digit>, e: int)
    ensures Value(Decimal(negative, digits + [0], e)) == Value(Decimal(negative, digits, e + 1))
  {
    assert (digits + [0])[..|digits|] == digits;
    var c := SignedCoefficient(Decimal(negative, digits, e));
    assert SignedCoefficient(Decimal(negative, digits + [0], e)) == 10 * c;
    PowerStep(e);
    assert (10 * c) as real == 10.0 * c as real;
    Commutes(c as real, PowerOfTen(e));
  }

  lemma Commutes(c: real, p: real)
    ensures (10.0 * c) * p == c * (10.0 * p)
  {}

  lemma {:induction false} ZerosMove(negative: bool, digits: seq<Digit>, n: nat, e: int)
    ensures Value(Decimal(negative, digits + Zeros(n), e)) == Value(Decimal(negative, digits, e + n))
    decreases n
  {
    if n == 0 {
      assert digits + Zeros(0) == digits;
    } else {
      assert digits + Zeros(n) == (digits + Zeros(n - 1)) + [0];
      ZeroMoves(negative, digits + Zeros(n - 1), e);
      ZerosMove(negative, digits, n - 1, e + 1);
    }
  }

  lemma {:induction false} DroppingKeepsValue(d: Decimal)
    requires NoLeadingZero(d.digits) && d.digits != [0]
    ensures var kept := DropTrailingZeros(d);
            && NoLeadingZero(kept.digits) && Last(kept.digits) != 0 && kept.negative == d.negative
            && Value(kept) == Value(d)
            && kept.exponent >= d.exponent && d.digits == kept.digits + Zeros(kept.exponent - d.exponent)
    decreases |d.digits|
  {
    hide Value, Coefficient;
    if |d.digits| > 1 && Last(d.digits) == 0 {
      var init := d.digits[..|d.digits| - 1];
      var shorter := Decimal(d.negative, init, d.exponent + 1);
      assert d.digits == init + [0];
      ZeroMoves(d.negative, init, d.exponent);
      DroppingKeepsValue(shorter);
      var kept := DropTrailingZeros(d);
      assert Zeros(kept.exponent - d.exponent) == Zeros(kept.exponent - d.exponent - 1) + [0];
    } else {
      assert d.digits + Zeros(0) == d.digits;
    }
  }

  lemma ZeroHasNoScale(negative: bool, e: int)
    ensures Value(Decimal(negative, [0], e)) == 0.0
  {
    assert Coefficient([0]) == 0;
  }

  lemma NormalizedKeepsValue(d: Decimal)
    requires NoLeadingZero(d.digits)
    ensures var n := Normalized(d);
            NoLeadingZero(n.digits) && n.negative == d.negative && Value(n) == Value(d)
            && if d.digits == [0] then n == Decimal(d.negative, [0], 0) else Last(n.digits) != 0
  {
    if d.digits == [0] {
      ZeroHasNoScale(d.negative, d.exponent);
      ZeroHasNoScale(d.negative, 0);
    } else {
      DroppingKeepsValue(d);
    }
  }

  lemma SameCoefficient(a: Decimal, b: Decimal)
    requires a.negative == b.negative && a.exponent == b.exponent && Coefficient(a.digits) == Coefficient(b.digits)
    ensures Value(a) == Value(b)
  {
    hide Coefficient, PowerOfTen;
  }

  lemma LayoutDigits(d: Decimal)
    requires NoLeadingZero(d.digits) && (d.digits == [0] ==> d.exponent == 0)
    ensures (var n := LaidOut(d);
             && NoLeadingZero(n.whole) && n.negative == d.negative
             && if d.exponent > 0 then n.whole + n.fraction == d.digits + Zeros(d.exponent) && n.fraction == []
                else Coefficient(n.whole + n.fraction) == Coefficient(d.digits) && |n.fraction| == -d.exponent)
  {
    var n := LaidOut(d);
    var point := d.exponent + |d.digits|;
    hide Coefficient;
    if point < 0 {
      assert n.whole + n.fraction == Zeros(1 - point) + d.digits;
      LeadingZeros(1 - point, d.digits);
    } else if point > |d.digits| {
      assert n.whole + n.fraction == n.whole;
    } else if point == 0 {
      assert d.digits[0..] == d.digits;
      ExtraZero(d.digits);
    } else {
      assert n.whole + n.fraction == d.digits;
    }
  }

  /** The layout has the digits of the decimal, give or take zeros at either end. */
  lemma LayoutKeepsValue(d: Decimal)
    requires NoLeadingZero(d.digits) && (d.digits == [0] ==> d.exponent == 0)
    ensures (var n := LaidOut(d);
             Value(FromNumeral(n)) == Value(d) && n.negative == d.negative && NoLeadingZero(n.whole))
  {
    hide LaidOut, Value, Coefficient, Zeros, DropLeadingZeros;
    var n := LaidOut(d);
    LayoutDigits(d);
    DroppedZeros(n.whole + n.fraction);
    if d.exponent > 0 {
      ZerosMove(d.negative, d.digits, d.exponent, 0);
      SameCoefficient(FromNumeral(n), Decimal(d.negative, d.digits + Zeros(d.exponent), 0));
    } else {
      SameCoefficient(FromNumeral(n), d);
    }
  }

  /** Reading what was printed gives the value back, whatever its length, and its sign even when
      it is a zero. */
  lemma ParsingUndoesPrinting(d: Decimal)
    requires NoLeadingZero(d.digits)
    ensures Parse(Print(d)).Some?
    ensures (var back := Parse(Print(d)).value;
             NoLeadingZero(back.digits) && Value(back) == Value(d) && back.negative == d.negative)
  {
    NormalizedKeepsValue(d);
    LayoutKeepsValue(Normalized(d));
    var n := LaidOut(Normalized(d));
    ReadingText(n);
    DroppedZeros(n.whole + n.fraction);
    hide Value, Text, Read;
  }

  // One value, one numeral.

  /** A sign if negative, no needless zero in front, and after a point no zero at the end. */
  predicate PlainNumeral(n: Numeral) {
    NoLeadingZero(n.whole) && (n.fraction != [] ==> Last(n.fraction) != 0)
  }

  /** Nothing but digits, a point and a minus sign can occur, so never an exponent. */
  ghost predicate Canonical(s: string) {
    exists n :: PlainNumeral(n) && Text(n) == s
  }

  lemma LayoutIsPlain(d: Decimal)
    requires NoLeadingZero(d.digits)
    ensures Print(d) == Text(LaidOut(Normalized(d)))
    ensures PlainNumeral(LaidOut(Normalized(d))) && LaidOut(Normalized(d)).negative == d.negative
  {
    NormalizedKeepsValue(d);
    LayoutKeepsValue(Normalized(d));
    assert PlainNumeral(LaidOut(Normalized(d)));
  }

  lemma PrintsAreCanonical(d: Decimal)
    requires NoLeadingZero(d.digits)
    ensures Canonical(Print(d))
  {
    LayoutIsPlain(d);
  }

  lemma ScaledAlike(a: int, b: int, e: int, n: nat)
    requires a as real * PowerOfTen(e) == b as real * PowerOfTen(e + n)
    ensures if n == 0 then a == b else a % 10 == 0
  {
    PowerIsPositive(e);
    hide PowerOfTen;
    if n > 0 {
      var c := TimesPower(b, e, n);
      assert a as real * PowerOfTen(e) == c as real * PowerOfTen(e);
      CancelPower(a as real, c as real, PowerOfTen(e));
    } else {
      CancelPower(a as real, b as real, PowerOfTen(e));
    }
  }

  lemma CancelPower(a: real, b: real, p: real)
    requires p > 0.0 && a * p == b * p
    ensures a == b
  {
    assert (a - b) * p == 0.0;
  }

  lemma TenfoldAlike(b: real, p: real, c: real, q: real)
    requires b * p == c * q
    ensures b * (10.0 * p) == (10.0 * c) * q
  {
    Commutes(b, p);
    assert (10.0 * b) * p == 10.0 * (b * p) && (10.0 * c) * q == 10.0 * (c * q);
  }

  lemma {:induction false} TimesPower(b: int, e: int, n: nat) returns (c: int)
    ensures b as real * PowerOfTen(e + n) == c as real * PowerOfTen(e)
    ensures if n == 0 then c == b else c % 10 == 0
    decreases n
  {
    hide PowerOfTen;
    if n == 0 {
      c := b;
    } else {
      var rest := TimesPower(b, e, n - 1);
      c := 10 * rest;
      PowerStep(e + n - 1);
      TenfoldAlike(b as real, PowerOfTen(e + n - 1), rest as real, PowerOfTen(e));
      assert c as real == 10.0 * rest as real;
      assert e + n - 1 + 1 == e + n;
    }
  }

  lemma ValueOfZero(d: Decimal)
    requires NoLeadingZero(d.digits)
    ensures Value(d) == 0.0 <==> d.digits == [0]
    ensures Value(d) < 0.0 <==> d.digits != [0] && d.negative
  {
    CoefficientIsPositive(d.digits);
    PowerIsPositive(d.exponent);
    ProductSign(SignedCoefficient(d) as real, PowerOfTen(d.exponent));
  }

  lemma ProductSign(c: real, p: real)
    requires p > 0.0
    ensures (c * p == 0.0 <==> c == 0.0) && (c * p < 0.0 <==> c < 0.0)
  {}

  lemma LastDigit(digits: seq<Digit>)
    requires digits != []
    ensures Coefficient(digits) % 10 == Last(digits)
    ensures (-1 * Coefficient(digits)) % 10 == 0 <==> Last(digits) == 0
  {
    var rest: int, last: int := Coefficient(digits[..|digits| - 1]), Last(digits);
    assert Coefficient(digits) == 10 * rest + last;
    hide Coefficient;
    assert -1 * (10 * rest + last) == 10 * (-rest) - last;
    TenfoldModulo(rest, last);
    TenfoldModulo(-rest - 1, 10 - last);
  }

  lemma TenfoldModulo(rest: int, last: int)
    requires 0 <= last <= 10
    ensures (10 * rest + last) % 10 == if last == 10 then 0 else last
  {}

  lemma CoefficientsAlike(a: Decimal, b: Decimal)
    requires Value(a) == Value(b) && a.exponent <= b.exponent
    ensures if a.exponent == b.exponent then SignedCoefficient(a) == SignedCoefficient(b)
            else SignedCoefficient(a) % 10 == 0
  {
    hide PowerOfTen, SignedCoefficient;
    ScaledAlike(SignedCoefficient(a), SignedCoefficient(b), a.exponent, b.exponent - a.exponent);
  }

  lemma NormalFormIsUnique(a: Decimal, b: Decimal)
    requires NoLeadingZero(a.digits) && NoLeadingZero(b.digits) && Last(a.digits) != 0 && Last(b.digits) != 0
    requires Value(a) == Value(b) && a.exponent <= b.exponent
    ensures a == b
  {
    hide Value;
    ValueOfZero(a);
    ValueOfZero(b);
    CoefficientsAlike(a, b);
    LastDigit(a.digits);
    LastDigit(b.digits);
    hide Coefficient;
    assert SignedCoefficient(a) == SignedCoefficient(b) && a.negative == b.negative;
    CoefficientsDiffer(a.digits, b.digits);
  }

  /** Two decimals print alike exactly when they have one value, at whatever scales, and are not
      the two zeros of opposite sign. */
  lemma OneValueOnePrint(a: Decimal, b: Decimal)
    requires NoLeadingZero(a.digits) && NoLeadingZero(b.digits)
    ensures Print(a) == Print(b) <==> Value(a) == Value(b) && (Value(a) == 0.0 ==> a.negative == b.negative)
  {
    hide Print, Parse, Value, Normalized;
    ParsingUndoesPrinting(a);
    ParsingUndoesPrinting(b);
    NormalizedKeepsValue(a);
    NormalizedKeepsValue(b);
    ValueOfZero(a);
    ValueOfZero(b);
    if Value(a) == Value(b) && (Value(a) == 0.0 ==> a.negative == b.negative) {
      if Value(a) != 0.0 {
        if Normalized(a).exponent <= Normalized(b).exponent {
          NormalFormIsUnique(Normalized(a), Normalized(b));
        } else {
          NormalFormIsUnique(Normalized(b), Normalized(a));
        }
      }
      assert Normalized(a) == Normalized(b);
      PrintOfNormalized(a, b);
    }
  }

  lemma PrintOfNormalized(a: Decimal, b: Decimal)
    requires a.digits != [] && b.digits != [] && Normalized(a) == Normalized(b)
    ensures Print(a) == Print(b)
  {}

  /** At any fixed precision, some two different values would print alike. */
  lemma FixedPrecisionConfuses(precision: nat)
    requires precision > 0
    ensures exists a: Decimal, b: Decimal :: NoLeadingZero(a.digits) && NoLeadingZero(b.digits) && Value(a) != Value(b)
                        && PrintAt(a, precision) == PrintAt(b, precision)
  {
    var kept: seq<Digit> := [1] + Zeros(precision - 1);
    var a := Decimal(false, kept + [1], 0);
    var b := Decimal(false, kept + [2], 0);
    CutLast(kept, 1);
    CutLast(kept, 2);
    assert Value(a) != Value(b);
    assert !RoundsUp(kept, [1]) && !RoundsUp(kept, [2]);
    assert Rounded(a, precision) == Rounded(b, precision);
  }

  lemma CutLast(kept: seq<Digit>, last: Digit)
    ensures Coefficient(kept + [last]) == 10 * Coefficient(kept) + last
    ensures (kept + [last])[..|kept|] == kept && (kept + [last])[|kept|..] == [last]
    ensures Coefficient([last]) == last && TenTo(|[last]|) == 10
  {
    assert [last][..0] == [] && TenTo(0) == 1;
    assert (kept + [last])[..|kept|] == kept;
  }

  // In characters.

  /** The ten digits are written as such. */
  lemma OneDigitPrints(digit: Digit)
    ensures Print(Decimal(false, [digit], 0)) == ["0123456789"[digit]]
  {
    var d := Decimal(false, [digit], 0);
    assert Normalized(Rounded(d, 1)) == d;
    assert [digit][..1] == [digit] && [digit][1..] == [];
    assert Chars([digit]) == ["0123456789"[digit]];
    assert "" + ["0123456789"[digit]] + "" == ["0123456789"[digit]];
  }

  predicate AllDigits(s: string) {
    forall c | c in s :: c in "0123456789"
  }

  lemma CharsAreDigits(digits: seq<Digit>)
    ensures AllDigits(Chars(digits)) && |Chars(digits)| == |digits|
    ensures forall i :: 0 <= i < |digits| ==> (Chars(digits)[i] == '0' <==> digits[i] == 0)
  {
    forall c | c in Chars(digits)
      ensures c in "0123456789"
    {
      var i :| 0 <= i < |digits| && Chars(digits)[i] == c;
      assert c == "0123456789"[digits[i]];
    }
  }

  /** A print is a minus sign if the decimal is negative, then digits with no needless zero in front,
      then perhaps a point and digits that do not end in a zero. */
  lemma PrintLooksPlain(d: Decimal) returns (whole: string, fraction: string)
    requires NoLeadingZero(d.digits)
    ensures Print(d)
         == (if d.negative then "-" else "") + whole + (if fraction == "" then "" else "." + fraction)
    ensures AllDigits(whole) && AllDigits(fraction)
    ensures whole != "" && (whole[0] == '0' ==> |whole| == 1)
    ensures fraction != "" ==> fraction[|fraction| - 1] != '0'
  {
    LayoutIsPlain(d);
    hide Print, LaidOut, Normalized, AllDigits, Chars;
    var n := LaidOut(Normalized(d));
    whole, fraction := Chars(n.whole), Chars(n.fraction);
    CharsAreDigits(n.whole);
    CharsAreDigits(n.fraction);
  }

  // Every plain numeral is some decimal's print.

  /** With only zeros before the point, what is left of the fraction says where the point goes. */
  lemma SmallLaidOut(negative: bool, fraction: seq<Digit>, kept: seq<Digit>, zeros: nat)
    requires kept != [] && fraction == Zeros(zeros) + kept
    ensures LaidOut(Decimal(negative, kept, -|fraction|)) == Numeral(negative, [0], fraction)
  {
    if zeros == 0 {
      assert fraction == kept && kept[0..] == kept;
    }
  }

  lemma MixedLaidOut(n: Numeral)
    requires n.whole != []
    ensures LaidOut(Decimal(n.negative, n.whole + n.fraction, -|n.fraction|)) == n
  {
    var all := n.whole + n.fraction;
    assert all[..|n.whole|] == n.whole && all[|n.whole|..] == n.fraction;
  }

  lemma NothingToStrip(n: Numeral)
    requires PlainNumeral(n) && n.fraction != []
    ensures Normalized(FromNumeral(n)) == FromNumeral(n)
  {
    hide Coefficient, Zeros;
    var all := n.whole + n.fraction;
    DroppedZeros(all);
    assert Last(all) == Last(n.fraction);
    LastOfSuffix(Zeros(|all| - |DropLeadingZeros(all)|), DropLeadingZeros(all));
  }

  lemma LastOfSuffix(front: seq<Digit>, back: seq<Digit>)
    requires back != []
    ensures Last(front + back) == Last(back)
  {}

  lemma ZerosInFront(fraction: seq<Digit>)
    requires fraction != [] && Last(fraction) != 0
    ensures var kept := DropLeadingZeros([0] + fraction);
            1 <= |kept| <= |fraction| && fraction == Zeros(|fraction| - |kept|) + kept
  {
    ZerosAreDropped(fraction);
    assert ([0] + fraction)[1..] == fraction;
    hide Zeros;
  }

  /** A plain numeral with a fraction has nothing to strip at its end, and is laid out as it was. */
  lemma FractionLaidOut(n: Numeral)
    requires PlainNumeral(n) && n.fraction != []
    ensures LaidOut(Normalized(FromNumeral(n))) == n
  {
    NothingToStrip(n);
    hide LaidOut, Zeros, Normalized;
    if n.whole == [0] {
      ZerosInFront(n.fraction);
      var kept := DropLeadingZeros([0] + n.fraction);
      SmallLaidOut(n.negative, n.fraction, kept, |n.fraction| - |kept|);
    } else {
      MixedLaidOut(n);
    }
  }

  lemma WholeLaidOut(n: Numeral)
    requires PlainNumeral(n) && n.fraction == []
    ensures LaidOut(Normalized(FromNumeral(n))) == n
  {
    assert n.whole + n.fraction == n.whole;
    var d := FromNumeral(n);
    if n.whole != [0] {
      DroppingKeepsValue(d);
      var kept := DropTrailingZeros(d);
      if kept.exponent == 0 {
        assert kept.digits + Zeros(0) == kept.digits;
      }
      assert kept.digits[..|kept.digits|] == kept.digits;
    }
  }

  /** Printing undoes parsing: every canonical numeral is what its own decimal prints. */
  lemma PrintingUndoesParsing(s: string)
    requires Canonical(s)
    ensures Parse(s).Some? && NoLeadingZero(Parse(s).value.digits) && Print(Parse(s).value) == s
  {
    var n :| PlainNumeral(n) && Text(n) == s;
    ReadingText(n);
    DroppedZeros(n.whole + n.fraction);
    hide Text, Read, LaidOut, Normalized, FromNumeral;
    if n.fraction == [] {
      WholeLaidOut(n);
    } else {
      FractionLaidOut(n);
    }
    assert LaidOut(Normalized(FromNumeral(n))) == n;
    assert Parse(s) == Some(FromNumeral(n));
  }

  // Amounts of the ledger, which the column hands back with all its 18 decimals.

  const AMOUNT_EXPONENT: int := -18

  lemma {:induction false} DigitsOfCount(n: nat)
    ensures NoLeadingZero(DigitsOf(n)) && Coefficient(DigitsOf(n)) == n && (DigitsOf(n) == [0] <==> n == 0)
  {
    if n >= 10 {
      DigitsOfCount(n / 10);
      assert (DigitsOf(n / 10) + [n % 10])[..|DigitsOf(n / 10)|] == DigitsOf(n / 10);
      assert DigitsOf(n)[0] == DigitsOf(n / 10)[0];
    } else {
      assert Coefficient([]) == 0 && [n][..0] == [];
    }
  }

  function FromUnits(n: int): Decimal {
    Decimal(n < 0, DigitsOf(if n < 0 then -n else n), AMOUNT_EXPONENT)
  }

  lemma FromUnitsIsExact(n: int)
    ensures var d := FromUnits(n);
            && NoLeadingZero(d.digits) && Value(d) == n as real * PowerOfTen(AMOUNT_EXPONENT)
            && (d.negative <==> n < 0)
  {
    hide PowerOfTen, Coefficient, DigitsOf, NoLeadingZero;
    DigitsOfCount(if n < 0 then -n else n);
    assert SignedCoefficient(FromUnits(n)) == n;
  }

  /** The column's unit is 10^-18. */
  lemma UnitInNumbers()
    ensures PowerOfTen(AMOUNT_EXPONENT) * 1_000_000_000_000_000_000.0 == 1.0
  {
    TenToTheMinus(6);
    TenToTheMinus(12);
    TenToTheMinus(18);
  }

  function NegativePower(n: nat): real {
    if n == 0 then 1.0 else NegativePower(n - 1) / 10.0
  }

  lemma {:induction false} TenToTheMinus(n: nat)
    ensures PowerOfTen(-1 * n) == NegativePower(n)
    decreases n
  {
    if n > 0 {
      TenToTheMinus(n - 1);
      assert -1 * n + 1 == -1 * (n - 1);
    }
  }

  /** An amount of any size is printed exactly, and different amounts differently. */
  lemma AmountsPrintExactly(a: int, b: int)
    ensures Parse(Print(FromUnits(a))).Some?
    ensures Value(Parse(Print(FromUnits(a))).value) == a as real * PowerOfTen(AMOUNT_EXPONENT)
    ensures Print(FromUnits(a)) == Print(FromUnits(b)) <==> a == b
  {
    hide Print, Parse, Value, FromUnits, PowerOfTen;
    FromUnitsIsExact(a);
    FromUnitsIsExact(b);
    ParsingUndoesPrinting(FromUnits(a));
    OneValueOnePrint(FromUnits(a), FromUnits(b));
    if Print(FromUnits(a)) == Print(FromUnits(b)) {
      PowerIsPositive(AMOUNT_EXPONENT);
      CancelPower(a as real, b as real, PowerOfTen(AMOUNT_EXPONENT));
    }
  }
}
