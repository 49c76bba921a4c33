/** status.spentUSD is text: the reconciler prints the ledger's spend with six
    decimals and Sync parses it back. Amounts are reals here; a printed amount is
    a whole number of micro-dollars. */
module SpendFormat {
  import opened Common

  const MICRO: int := 1_000_000

  // ---------------------------------------------------------------- digits

  predicate IsDigit(c: char) { '0' <= c <= '9' }

  ghost predicate AllDigits(s: string) { forall i :: 0 <= i < |s| ==> IsDigit(s[i]) }

  function DigitOf(n: nat): (c: char)
    requires n < 10
    ensures IsDigit(c)
  {
    '0' + n as char
  }

  function Value(c: char): (n: nat)
    requires IsDigit(c)
    ensures n < 10
  {
    (c - '0') as int
  }

  function Digits(n: nat): (s: string)
    ensures |s| > 0 && AllDigits(s)
  {
    if n < 10 then [DigitOf(n)] else Digits(n / 10) + [DigitOf(n % 10)]
  }

  /** Exactly w digits, with leading zeros. */
  function Padded(n: nat, w: nat): (s: string)
    ensures |s| == w && AllDigits(s)
  {
    if w == 0 then "" else Padded(n / 10, w - 1) + [DigitOf(n % 10)]
  }

  /** The number a digit string denotes; None as soon as some character is not a digit. */
  function ParseDigits(s: string): (r: Option<nat>)
    ensures r.Some? <==> AllDigits(s)
  {
    if s == "" then Some(0)
    else
      var c := s[|s| - 1];
      match ParseDigits(s[..|s| - 1])
      case None => None
      case Some(n) => if IsDigit(c) then Some(10 * n + Value(c)) else None
  }

  function Pow10(w: nat): (p: nat)
    ensures p > 0
  {
    if w == 0 then 1 else 10 * Pow10(w - 1)
  }

  lemma {:induction false} DigitsRoundTrip(n: nat)
    ensures ParseDigits(Digits(n)) == Some(n)
  {
    if n >= 10 {
      DigitsRoundTrip(n / 10);
      assert Digits(n)[..|Digits(n)| - 1] == Digits(n / 10);
    }
  }

  lemma {:induction false} PaddedRoundTrip(n: nat, w: nat)
    requires n < Pow10(w)
    ensures ParseDigits(Padded(n, w)) == Some(n)
  {
    if w > 0 {
      PaddedRoundTrip(n / 10, w - 1);
      assert Padded(n, w)[..w - 1] == Padded(n / 10, w - 1);
    }
  }

  // ---------------------------------------------------------------- rounding

  /** Nearest whole number of micro-dollars, ties to even. */
  function RoundMicros(x: real): (m: nat)
    requires x >= 0.0
    ensures m as real - 0.5 <= x * MICRO as real <= m as real + 0.5
  {
    var y := x * MICRO as real;
    var f := y.Floor;
    var rest := y - f as real;
    if rest < 0.5 then f
    else if rest > 0.5 then f + 1
    else if f % 2 == 0 then f else f + 1
  }

  /** Halfway between two micro-dollars the even one is printed. */
  lemma TiesToEven(m: nat)
    ensures RoundMicros((2 * m + 1) as real / (2 * MICRO) as real) == if m % 2 == 0 then m else m + 1
  {
    var y := (2 * m + 1) as real / (2 * MICRO) as real * MICRO as real;
    assert y == m as real + 0.5;
    assert y.Floor == m;
  }

  function FromMicros(m: int): real {
    m as real / MICRO as real
  }

  lemma RoundWholeMicros(m: nat)
    ensures FromMicros(m) >= 0.0 && RoundMicros(FromMicros(m)) == m
  {
    assert FromMicros(m) * MICRO as real == m as real;
  }

  // ---------------------------------------------------------------- printer and parser

  function PrintMicros(m: nat): string {
    Digits(m / MICRO) + "." + Padded(m % MICRO, 6)
  }

  /** strconv.FormatFloat(x, 'f', 6, 64). */
  function Print(x: real): string {
    if x < 0.0 then "-" + PrintMicros(RoundMicros(-x)) else PrintMicros(RoundMicros(x))
  }

  /** Position of the first dot, or |s|. */
  function DotAt(s: string): (i: nat)
    ensures i <= |s|
    ensures i < |s| ==> s[i] == '.'
    ensures forall j :: 0 <= j < i ==> s[j] != '.'
  {
    if s == "" then 0 else if s[0] == '.' then 0 else 1 + DotAt(s[1..])
  }

  function Decimal(whole: Option<nat>, fraction: Option<nat>, scale: nat): Option<real>
    requires scale > 0
  {
    if whole.None? || fraction.None? then None
    else Some(whole.value as real + fraction.value as real / scale as real)
  }

  function ParseUnsigned(s: string): Option<real> {
    var dot := DotAt(s);
    var frac := if dot < |s| then s[dot + 1..] else "";
    if dot + |frac| == 0 then None
    else
      Decimal(ParseDigits(s[..dot]), ParseDigits(frac), Pow10(|frac|))
  }

  /** strconv.ParseFloat on plain decimal text: an optional sign, digits, an
      optional fraction, at least one digit. */
  function Parse(s: string): Option<real> {
    if s == "" then None
    else if s[0] == '-' then
      match ParseUnsigned(s[1..])
      case Some(x) => Some(-x)
      case None => None
    else if s[0] == '+' then ParseUnsigned(s[1..])
    else ParseUnsigned(s)
  }

  lemma Pow10Six()
    ensures Pow10(6) == MICRO
  {
    assert Pow10(2) == 100;
    assert Pow10(4) == 10_000;
  }

  lemma DotAfterDigits(a: string, b: string)
    requires AllDigits(a)
    ensures DotAt(a + "." + b) == |a|
  {
    var s := a + "." + b;
    assert s[|a|] == '.';
    assert forall j :: 0 <= j < |a| ==> s[j] == a[j];
  }

  lemma ParseJoined(a: string, b: string, m: nat, n: nat)
    requires a != "" && ParseDigits(a) == Some(m) && ParseDigits(b) == Some(n)
    ensures ParseUnsigned(a + "." + b) == Decimal(Some(m), Some(n), Pow10(|b|))
  {
    var s := a + "." + b;
    DotAfterDigits(a, b);
    assert s[..|a|] == a && s[|a| + 1..] == b;
  }

  lemma SplitMicros(m: nat)
    ensures (m / MICRO) as real + (m % MICRO) as real / MICRO as real == FromMicros(m)
  {
    assert m == MICRO * (m / MICRO) + m % MICRO;
  }

  lemma ParsePrintedMicros(m: nat)
    ensures ParseUnsigned(PrintMicros(m)) == Some(FromMicros(m))
    ensures IsDigit(PrintMicros(m)[0])
  {
    var a, b := Digits(m / MICRO), Padded(m % MICRO, 6);
    Pow10Six();
    DigitsRoundTrip(m / MICRO);
    PaddedRoundTrip(m % MICRO, 6);
    ParseJoined(a, b, m / MICRO, m % MICRO);
    SplitMicros(m);
    assert PrintMicros(m)[0] == a[0];
  }

  /** What Sync reads back after the reconciler printed x: x to the nearest micro-dollar. */
  function Rounded(x: real): real {
    if x < 0.0 then -FromMicros(RoundMicros(-x)) else FromMicros(RoundMicros(x))
  }

  lemma ParsePrint(x: real)
    ensures Parse(Print(x)) == Some(Rounded(x))
    ensures -0.0000005 <= Rounded(x) - x <= 0.0000005
  {
    var m := if x < 0.0 then RoundMicros(-x) else RoundMicros(x);
    ParsePrintedMicros(m);
    var s := Print(x);
    if x < 0.0 {
      assert s[1..] == PrintMicros(m);
    } else {
      assert s == PrintMicros(m) && s[0] != '-' && s[0] != '+';
    }
  }

  /** A whole number of micro-dollars survives printing and parsing exactly. */
  lemma MicrosRoundTrip(m: nat)
    ensures Parse(Print(FromMicros(m))) == Some(FromMicros(m))
  {
    RoundWholeMicros(m);
    ParsePrint(FromMicros(m));
  }

  /** Printing again what was parsed back changes no character. */
  lemma PrintParsePrint(x: real)
    requires x >= 0.0
    ensures Print(Rounded(x)) == Print(x)
    ensures Rounded(Rounded(x)) == Rounded(x)
  {
    RoundWholeMicros(RoundMicros(x));
  }

  /** Distinct micro-dollar amounts never print alike. */
  lemma PrintInjective(m: nat, n: nat)
    requires Print(FromMicros(m)) == Print(FromMicros(n))
    ensures m == n
  {
    MicrosRoundTrip(m);
    MicrosRoundTrip(n);
    assert FromMicros(m) * MICRO as real == m as real;
    assert FromMicros(n) * MICRO as real == n as real;
  }

  // ---------------------------------------------------------------- the text itself

  lemma {:induction false} NoLeadingZero(n: nat)
    ensures n > 0 ==> Digits(n)[0] != '0'
    ensures n < 10 ==> |Digits(n)| == 1
  {
    if n >= 10 {
      NoLeadingZero(n / 10);
      assert Digits(n)[0] == Digits(n / 10)[0];
    }
  }

  /** A number without a sign as it is written: digits, a dot, six digits, and a zero in front
      only before the dot. */
  ghost predicate SixDecimals(s: string) {
    |s| > 7
    && s[|s| - 7] == '.'
    && (forall i :: 0 <= i < |s| && i != |s| - 7 ==> '0' <= s[i] <= '9')
    && (|s| > 8 ==> s[0] != '0')
  }

  lemma PrintedShape(x: real)
    ensures x >= 0.0 ==> SixDecimals(Print(x))
    ensures x < 0.0 ==> Print(x) == "-" + Print(-x)
  {
    if x >= 0.0 {
      var m := RoundMicros(x);
      NoLeadingZero(m / MICRO);
      assert m / MICRO >= 10 || |Digits(m / MICRO)| == 1;
    }
  }

  /** Digits, perhaps a dot and more digits, at least one digit in all. */
  ghost predicate PlainDecimal(s: string) {
    exists i :: 0 <= i <= |s| && AllDigits(s[..i])
      && (if i == |s| then i > 0 else s[i] == '.' && AllDigits(s[i + 1..]) && |s| > 1)
  }

  lemma UnsignedExactly(s: string)
    ensures ParseUnsigned(s).Some? <==> PlainDecimal(s)
  {
    var dot := DotAt(s);
    assert AllDigits(s[..dot]) && dot < |s| ==> s[dot] == '.';
    if PlainDecimal(s) {
      var i :| 0 <= i <= |s| && AllDigits(s[..i])
        && (if i == |s| then i > 0 else s[i] == '.' && AllDigits(s[i + 1..]) && |s| > 1);
      assert forall j :: 0 <= j < i ==> s[..i][j] == s[j];
      assert i == dot;
    }
  }

  /** What Sync can read: a plain decimal behind at most one sign, and the sign says which side of
      zero it is on. */
  lemma ParseExactly(s: string)
    ensures s != "" && s[0] != '-' && s[0] != '+' ==> (Parse(s).Some? <==> PlainDecimal(s))
    ensures Parse("-" + s).Some? <==> PlainDecimal(s)
    ensures Parse("+" + s).Some? <==> PlainDecimal(s)
    ensures PlainDecimal(s) ==>
      && s != "" && s[0] != '-' && s[0] != '+' && Parse(s).value >= 0.0
      && Parse("-" + s) == Some(-Parse(s).value) && Parse("+" + s) == Parse(s)
    ensures Parse("") == None
  {
    hide PlainDecimal, ParseUnsigned;
    UnsignedExactly(s);
    assert ("-" + s)[1..] == s && ("+" + s)[1..] == s;
    if PlainDecimal(s) {
      SignFree(s);
      UnsignedNotNegative(s);
    }
  }

  lemma UnsignedNotNegative(s: string)
    ensures ParseUnsigned(s).Some? ==> ParseUnsigned(s).value >= 0.0
  {
    hide ParseDigits, Pow10;
  }

  lemma SignFree(s: string)
    requires PlainDecimal(s)
    ensures s != "" && s[0] != '-' && s[0] != '+'
  {
    var i :| 0 <= i <= |s| && AllDigits(s[..i])
      && (if i == |s| then i > 0 else s[i] == '.' && AllDigits(s[i + 1..]) && |s| > 1);
    if i > 0 {
      assert s[..i][0] == s[0];
    }
  }
}
