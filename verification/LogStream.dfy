// FixedBuffer and LogStream: text collected in an array of fixed size, and integers written into it digit by
// digit, last digit first, then reversed in place.

module LogStreams {
  import opened Decimals

  class FixedBuffer {
    const data: array<char>
    var cur: nat

    /** The buffer is never full: every operation leaves at least one byte. */
    predicate Valid()
      reads this
    {
      cur < data.Length
    }

    function Contents(): string
      requires Valid()
      reads this, data
    {
      data[..cur]
    }

    function Avail(): nat
      requires Valid()
      reads this
    {
      data.Length - cur
    }

    constructor (size: nat)
      requires size > 0
      ensures Valid() && fresh(data) && data.Length == size && Contents() == ""
    {
      data := new char[size];
      cur := 0;
    }

    /** Stores the bytes whole, or not at all if they would fill the buffer to its end. */
    method Append(bytes: string)
      requires Valid()
      modifies `cur, data
      ensures Valid()
      ensures Contents() == old(Contents()) + if |bytes| < old(Avail()) then bytes else ""
    {
      if Avail() > |bytes| {
        ghost var was, w := Contents(), cur;
        for i := 0 to |bytes|
          invariant data[..cur] == was
          invariant data[cur..cur + i] == bytes[..i]
          modifies data
        {
          data[cur + i] := bytes[i];
        }
        cur := cur + |bytes|;
        assert Contents() == data[..w] + data[w..cur];
      } else {
        assert Contents() + "" == Contents();
      }
    }

    /** Takes in bytes already written behind the end; the end must stay in sight, which is not checked. */
    method Add(len: nat)
      requires Valid()
      modifies `cur
      ensures cur == old(cur) + len && (Valid() <==> len < old(Avail()))
      ensures Valid() ==> Contents() == old(data[..])[..cur]
    {
      cur := cur + len;
    }

    method Bzero()
      requires Valid()
      modifies `cur, data
      ensures Valid() && Contents() == "" && forall k :: 0 <= k < data.Length ==> data[k] == '\0'
    {
      for i := 0 to data.Length
        invariant forall k :: 0 <= k < i ==> data[k] == '\0'
        modifies data
      {
        data[i] := '\0';
      }
      cur := 0;
    }
  }

  // ---------- Integers ----------

  /** Division and remainder that cut toward zero. */
  function TDiv(v: int): int { if v >= 0 then v / 10 else -((-v) / 10) }

  function TMod(v: int): int { v - 10 * TDiv(v) }

  /** remainder + '0', a character left of '0' when the remainder is negative. */
  function DigitOf(v: int): char {
    var code := TMod(v) + 48;
    assert 39 <= code <= 57;
    code as char
  }

  /** What the digit loop makes of a number, most significant first. */
  function Raw(v: int): (s: string)
    ensures s != ""
    decreases if v >= 0 then v else -v
  {
    if TDiv(v) == 0 then [DigitOf(v)] else Raw(TDiv(v)) + [DigitOf(v)]
  }

  /** The usual text of an integer. */
  function SignedDecimal(v: int): string { if v < 0 then "-" + Decimal(-v) else Decimal(v) }

  lemma {:induction false} RawOfNatural(v: int)
    requires v >= 0
    ensures Raw(v) == Decimal(v)
    decreases v
  {
    if v >= 10 {
      RawOfNatural(v / 10);
    }
  }

  lemma {:induction false} RawIsAsLong(v: int)
    ensures |Raw(v)| == |Decimal(if v >= 0 then v else -v)|
    decreases if v >= 0 then v else -v
  {
    if TDiv(v) != 0 {
      RawIsAsLong(TDiv(v));
    }
  }

  /** The loop makes the usual text of exactly the integers that are not negative. */
  lemma FormatsExactlyNaturals(v: int)
    ensures Raw(v) == SignedDecimal(v) <==> v >= 0
  {
    if v >= 0 {
      RawOfNatural(v);
    } else {
      RawIsAsLong(v);
    }
  }

  /** A negative integer has the characters that lie as far below '0' as its digits lie above, and no sign. */
  lemma {:induction false} RawOfNegative(v: int)
    requires v < 0
    ensures |Raw(v)| == |Decimal(-v)|
    ensures forall i :: 0 <= i < |Raw(v)| ==> Raw(v)[i] as int == 96 - Decimal(-v)[i] as int
    decreases -v
  {
    if TDiv(v) != 0 {
      RawOfNegative(TDiv(v));
      assert Raw(v) == Raw(TDiv(v)) + [DigitOf(v)];
    }
  }

  /** -3 comes out as a lone minus sign. */
  lemma MinusThree()
    ensures Raw(-3) == "-" && SignedDecimal(-3) == "-3"
  {
  }

  const MAX_NUMERIC_SIZE := 48

  /** What the integer types hold: up to 64 bits, signed or not. */
  predicate Fits64(v: int) { -0x8000_0000_0000_0000 <= v < 0x1_0000_0000_0000_0000 }

  lemma FitsIn20(v: int)
    requires Fits64(v)
    ensures |Raw(v)| <= 20
  {
    RawIsAsLong(v);
    assert Power10(20) == 100 * Power10(18) by {
      assert Power10(19) == 10 * Power10(18);
    }
    assert Power10(18) == 1000_000 * Power10(12) by {
      assert Power10(18) == 10 * Power10(17) && Power10(17) == 10 * Power10(16) && Power10(16) == 10 * Power10(15);
      assert Power10(15) == 10 * Power10(14) && Power10(14) == 10 * Power10(13) && Power10(13) == 10 * Power10(12);
    }
    assert Power10(12) == 1000_000 * Power10(6) by {
      assert Power10(12) == 10 * Power10(11) && Power10(11) == 10 * Power10(10) && Power10(10) == 10 * Power10(9);
      assert Power10(9) == 10 * Power10(8) && Power10(8) == 10 * Power10(7) && Power10(7) == 10 * Power10(6);
    }
    assert Power10(6) == 1000_000;
    DecimalIsShort(if v >= 0 then v else -v, 20);
  }

  function Reversed(s: string): string {
    if s == "" then "" else Reversed(s[1..]) + [s[0]]
  }

  lemma {:induction false} ReversedTurnsRound(s: string)
    ensures |Reversed(s)| == |s| && forall k :: 0 <= k < |s| ==> Reversed(s)[k] == s[|s| - 1 - k]
  {
    if s != "" {
      ReversedTurnsRound(s[1..]);
    }
  }

  /** std::reverse on `a[lo..hi]`. */
  method Reverse(a: array<char>, lo: nat, hi: nat)
    requires lo <= hi <= a.Length
    modifies a
    ensures a[..lo] == old(a[..lo]) && a[lo..hi] == Reversed(old(a[lo..hi])) && a[hi..] == old(a[hi..])
  {
    ghost var was := a[..];
    var i, j := lo, hi;
    while i + 1 < j
      invariant lo <= i <= j + 1 && j <= hi && i - lo == hi - j
      invariant forall k :: lo <= k < i || j <= k < hi ==> a[k] == was[lo + hi - 1 - k]
      invariant forall k :: 0 <= k < lo || i <= k < j || hi <= k < a.Length ==> a[k] == was[k]
    {
      j := j - 1;
      a[i], a[j] := a[j], a[i];
      i := i + 1;
    }
    MirrorIsReversed(was, a[..], lo, hi);
    assert a[lo..hi] == a[..][lo..hi];
  }

  lemma MirrorIsReversed(was: string, now: string, lo: nat, hi: nat)
    requires lo <= hi <= |was| == |now|
    requires forall k :: lo <= k < hi ==> now[k] == was[lo + hi - 1 - k]
    ensures now[lo..hi] == Reversed(was[lo..hi])
  {
    ReversedTurnsRound(was[lo..hi]);
  }

  class LogStream {
    const buffer: FixedBuffer

    constructor (size: nat)
      requires size > 0
      ensures buffer.Valid() && fresh(buffer) && fresh(buffer.data) && buffer.Contents() == ""
    {
      buffer := new FixedBuffer(size);
    }

    method AppendText(text: string)
      requires buffer.Valid()
      modifies buffer, buffer.data
      ensures buffer.Valid()
      ensures buffer.Contents() == old(buffer.Contents()) + if |text| < old(buffer.Avail()) then text else ""
    {
      buffer.Append(text);
    }

    /** Writes the digits behind the end of the text and reverses them there; nothing happens with less than
        48 bytes to go. */
    method FormatInteger(value: int)
      requires buffer.Valid() && Fits64(value)
      modifies buffer, buffer.data
      ensures buffer.Valid()
      ensures buffer.Contents() == old(buffer.Contents())
                + if old(buffer.Avail()) >= 48 then Raw(value) else ""
    {
      if buffer.Avail() < MAX_NUMERIC_SIZE {
        assert buffer.Contents() + "" == buffer.Contents();
        return;
      }
      FitsIn20(value);
      LowReversed(value);
      hide Raw, Low, Reversed;
      ghost var text := buffer.Contents();
      var start := buffer.cur;
      var now := WriteDigits(buffer.data, start, value);
      assert buffer.data[..start] == text;
      Reverse(buffer.data, start, now);
      assert buffer.data[..start] == text && buffer.data[start..now] == Raw(value);
      assert buffer.data[..now] == text + Raw(value);
      buffer.Add(now - start);
    }
  }

  /** The do-while loop: digits of `value`, last one first, from `start` on. */
  method WriteDigits(data: array<char>, start: nat, value: int) returns (now: nat)
    requires start + |Low(value)| <= data.Length
    modifies data
    ensures now == start + |Low(value)|
    ensures data[..start] == old(data[..start]) && data[start..now] == Low(value)
  {
    hide Low, DigitOf, TDiv;
    ghost var digits := Low(value);
    LowStep(value);
    var v := TDiv(value);
    now := start + 1;
    data[start] := DigitOf(value);
    while v != 0
      invariant start < now <= start + |digits|
      invariant digits[now - start..] == LowRest(v)
      invariant forall k :: 0 <= k < start ==> data[k] == old(data[k])
      invariant forall k :: start <= k < now ==> data[k] == digits[k - start]
      decreases if v >= 0 then v else -v
    {
      LowStep(v);
      assert digits[now - start] == Low(v)[0] && digits[now - start + 1..] == Low(v)[1..];
      data[now] := DigitOf(v);
      now := now + 1;
      v := TDiv(v);
    }
  }

  /** The digits, last one first. */
  function Low(v: int): string
    decreases if v >= 0 then v else -v
  {
    [DigitOf(v)] + if TDiv(v) == 0 then "" else Low(TDiv(v))
  }

  lemma LowStep(v: int)
    ensures Low(v) == [DigitOf(v)] + LowRest(TDiv(v))
    ensures v > 0 ==> 0 <= TDiv(v) < v
    ensures v < 0 ==> v < TDiv(v) <= 0
  {
  }

  function LowRest(v: int): string {
    if v == 0 then "" else Low(v)
  }

  lemma {:induction false} LowReversed(v: int)
    ensures Reversed(Low(v)) == Raw(v) && |Low(v)| == |Raw(v)|
    decreases if v >= 0 then v else -v
  {
    var rest := LowRest(TDiv(v));
    assert Low(v)[1..] == rest && Low(v)[0] == DigitOf(v);
    if TDiv(v) != 0 {
      LowReversed(TDiv(v));
    }
  }
}
