// When a request keeps its body, in terms of the texts sent: what atoi makes of a decimal number, and the round trip
// of requests without and with the misspelt length header.

module HttpBodies {
  import opened Basics
  import opened Decimals
  import opened HttpRequests
  import opened HttpContexts
  import opened HttpGrammar
  import opened HttpRoundTrip

  /** The digits of a number, read on from nothing. */
  lemma {:induction false} DigitsReads(n: nat, tail: string)
    ensures Digits(Decimal(n) + tail, 0) == Digits(tail, n)
    decreases n
  {
    var text, last := Decimal(n), [Digit(n % 10)];
    assert last + tail != "" && (last + tail)[1..] == tail;
    if n >= 10 {
      DigitsReads(n / 10, last + tail);
      assert text + tail == Decimal(n / 10) + (last + tail);
    } else {
      assert text + tail == last + tail;
    }
  }

  /** The number of 64 bits nearest to `v`. */
  function Clamped(v: int): int {
    if v < -0x8000_0000_0000_0000 then -0x8000_0000_0000_0000
    else if v > 0x7FFF_FFFF_FFFF_FFFF then 0x7FFF_FFFF_FFFF_FFFF
    else v
  }

  /** A number that fits 32 bits with a sign and agrees with `v` in the low 32 bits; there is one. */
  predicate Low32(r: int, v: int) { -0x8000_0000 <= r < 0x8000_0000 && (v - r) % 0x1_0000_0000 == 0 }

  lemma CutIsLow32(v: int)
    ensures var low := v % 0x1_0000_0000; Low32(if low >= 0x8000_0000 then low - 0x1_0000_0000 else low, v)
  {}

  /** A sign and digits, without white space before them. */
  lemma AtoiReadsSigned(sign: string, digits: string, n: nat)
    requires sign in {"", "-", "+"} && digits != "" && IsDigit(digits[0]) && Digits(digits, 0) == n
    ensures Low32(Atoi(sign + digits), Clamped(if sign == "-" then 0 - n else n))
  {
    var text := sign + digits;
    assert sign == "" ==> text == digits;
    assert sign != "" ==> text[0] == sign[0] && text[1..] == digits;
    CutIsLow32(Clamped(if sign == "-" then 0 - n else n));
    hide Low32, Digits;
  }

  /** White space, a sign and the digits of a number, up to something else: the number, first brought within 64
      bits, then cut to 32. */
  lemma {:induction false} AtoiReads(space: string, sign: string, n: nat, tail: string)
    requires (forall ch :: ch in space ==> IsSpace(ch)) && sign in {"", "-", "+"}
    requires tail == "" || !IsDigit(tail[0])
    ensures Low32(Atoi(space + (sign + (Decimal(n) + tail))), Clamped(if sign == "-" then 0 - n else n))
    decreases |space|
  {
    var digits := Decimal(n) + tail;
    hide Low32, Clamped;
    if space != "" {
      var text := sign + digits;
      assert (space + text)[0] in space && (space + text)[1..] == space[1..] + text;
      AtoiReads(space[1..], sign, n, tail);
    } else {
      assert space + (sign + digits) == sign + digits;
      DecimalReadsBack(n);
      DigitsReads(n, tail);
      assert IsDigit(digits[0]);
      assert Digits(tail, n) == n;
      AtoiReadsSigned(sign, digits, n);
    }
  }

  lemma Low32OfNatural(r: int, n: nat)
    requires Low32(r, Clamped(n))
    ensures n < 0x8000_0000 ==> r == n
    ensures r > 0 <==> n < 0x8000_0000_0000_0000 && 0 < n % 0x1_0000_0000 < 0x8000_0000
  {
    if n < 0x8000_0000_0000_0000 {
      var q := (n - r) / 0x1_0000_0000;
      assert n == q * 0x1_0000_0000 + r;
    }
  }

  /** A number of less than 32 bits comes back as it is. */
  lemma AtoiOfDecimal(n: nat)
    ensures Low32(Atoi(Decimal(n)), Clamped(n))
    ensures n < 0x8000_0000 ==> Atoi(Decimal(n)) == n
    ensures Atoi(Decimal(n)) > 0 <==> n < 0x8000_0000_0000_0000 && 0 < n % 0x1_0000_0000 < 0x8000_0000
  {
    AtoiReads("", "", n, "");
    hide Atoi, Low32, Clamped;
    assert "" + ("" + (Decimal(n) + "")) == Decimal(n);
    Low32OfNatural(Atoi(Decimal(n)), n);
  }

  /** A request without the misspelt header comes back whole, body and all. */
  lemma OrdinaryRoundTrip(o: Outgoing)
    requires WellFormed(o) && "Content-Lenght" !in Names(o.headers)
    ensures Parse(PrintRequest(o), '\0', FRESH).req == Expected(o)
  {
    RoundTrip(o);
    BindBindsNames(o.headers);
  }

  /** With a number under that header, the last one counting, the body comes back exactly when its low 32 bits, taken
      with a sign, are positive and 63 bits hold it. */
  lemma NumberedRoundTrip(o: Outgoing, n: nat)
    requires WellFormed(o) && "Content-Lenght" in Bind(o.headers) && Bind(o.headers)["Content-Lenght"] == Decimal(n)
    ensures var kept := n < 0x8000_0000_0000_0000 && 0 < n % 0x1_0000_0000 < 0x8000_0000;
      Parse(PrintRequest(o), '\0', FRESH).req == Expected(o).(body := if kept then o.body else "")
  {
    AtoiOfDecimal(n);
    hide Atoi, Bind, Parse, PrintRequest, Print, Store, WellFormed;
    PrintAlike(o);
    TreeOfIsValid(o);
    TreeDecides(TreeOf(o), '\0', FRESH);
    StoredIsExpected(o);
  }
}
