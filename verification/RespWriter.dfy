/** The command writer: digits go out from the most significant one. */
module RespWriter {
  import opened Arith
  import opened Message
  import opened Resp
  import opened RespWire

  function Pow10(k: nat): (p: nat)
    ensures p > 0
  {
    if k == 0 then 1 else 10 * Pow10(k - 1)
  }

  /** The largest power of ten that is at most n. */
  function PowerBelow(n: nat): (d: nat)
    requires n > 0
    ensures d <= n < 10 * d
  {
    if n < 10 then 1 else 10 * PowerBelow(n / 10)
  }

  /** n in exactly k digits. */
  function Padded(n: nat, k: nat): (s: seq<byte>)
    ensures |s| == k
  {
    if k == 0 then [] else Padded(n / 10, k - 1) + [ZERO_DIGIT + (n % 10) as byte]
  }

  lemma {:induction false} DecimalIsPadded(n: nat)
    ensures Padded(n, |Decimal(n)|) == Decimal(n) && n < Pow10(|Decimal(n)|)
    ensures n > 0 ==> PowerBelow(n) == Pow10(|Decimal(n)| - 1)
  {
    if n >= 10 { DecimalIsPadded(n / 10); }
  }

  lemma {:induction false} SplitDigits(n: nat, d: nat)
    requires d > 0 && n < 100 * d
    ensures (n / 10) / d == n / (10 * d) && (n / 10) % d == n % (10 * d) / 10 && n % 10 == n % (10 * d) % 10
  {
    var q, r := n / (10 * d), n % (10 * d);
    assert n == 10 * d * q + r;
    assert n == 10 * (d * q + r / 10) + r % 10;
    DivModUnique(n, 10, d * q + r / 10, r % 10);
    DivModUnique(n / 10, d, q, r / 10);
  }

  /** The leading digit and what is left of the number behind it. */
  lemma {:induction false} LeadingDigit(n: nat, k: nat)
    requires k > 0 && n < Pow10(k)
    ensures var d := Pow10(k - 1);
      0 <= n / d < 10 && 0 <= n % d < d && Padded(n, k) == [ZERO_DIGIT + (n / d) as byte] + Padded(n % d, k - 1)
  {
    var d := Pow10(k - 1);
    DigitBounds(n, d);
    if k > 1 {
      var e := Pow10(k - 2);
      LeadingDigit(n / 10, k - 1);
      SplitDigits(n, e);
      assert Padded(n, k)
          == ([ZERO_DIGIT + (n / d) as byte] + Padded(n % d / 10, k - 2)) + [ZERO_DIGIT + (n % d % 10) as byte];
    }
  }

  lemma {:induction false} DigitBounds(n: nat, d: nat)
    requires d > 0 && n < 10 * d
    ensures 0 <= n / d < 10 && 0 <= n % d < d
  {
    var q := n / d;
    assert n == d * q + n % d;
    assert q >= 10 ==> d * q >= d * 10;
  }

  /** The divisor that picks the first of k digits; 0 when none is left. */
  function Divisor(k: nat): nat {
    if k == 0 then 0 else Pow10(k - 1)
  }

  lemma {:induction false} DigitStep(out: seq<byte>, n: nat, k: nat)
    requires k > 0 && n < Pow10(k)
    ensures var d := Divisor(k);
      0 <= n / d < 10 && 0 <= n % d < Pow10(k - 1) && d / 10 == Divisor(k - 1) &&
      out + Padded(n, k) == (out + [ZERO_DIGIT + (n / d) as byte]) + Padded(n % d, k - 1)
  {
    LeadingDigit(n, k);
    if k > 1 { DivModUnique(Pow10(k - 1), 10, Pow10(k - 2), 0); }
  }

  class Output {
    var data: seq<byte>

    constructor ()
      ensures data == []
    {
      data := [];
    }

    method Write(s: seq<byte>)
      modifies this
      ensures data == old(data) + s
    {
      data := data + s;
    }

    /** The digit loop, which divides by ever smaller powers of ten. */
    method WriteDigits(number: nat)
      requires number >= 10
      modifies this
      ensures data == old(data) + Decimal(number)
    {
      var n: nat, d: nat := number, PowerBelow(number);
      ghost var k: nat, out: seq<byte> := |Decimal(number)|, [];
      DecimalIsPadded(number);
      while d > 0
        invariant d == Divisor(k) && n < Pow10(k)
        invariant data == old(data) + out && out + Padded(n, k) == Decimal(number)
        decreases d
      {
        DigitStep(out, n, k);
        var c := ZERO_DIGIT + (n / d) as byte;
        data := data + [c];
        out, k := out + [c], k - 1;
        n, d := n % d, d / 10;
      }
    }

    method WriteN(id: byte, n: nat)
      modifies this
      ensures data == old(data) + LengthLine(id, n)
    {
      Write([id]);
      if n < 10 {
        Write([ZERO_DIGIT + n as byte]);
      } else {
        WriteDigits(n);
      }
      Write(CRLF);
    }

    method WriteB(id: byte, str: seq<byte>)
      modifies this
      ensures data == old(data) + BlobLine(id, str)
    {
      WriteN(id, |str|);
      Write(str);
      Write(CRLF);
    }

    method WriteCmd(cmd: seq<seq<byte>>)
      modifies this
      ensures data == old(data) + Written(cmd)
    {
      WriteN(ARRAY, |cmd|);
      ghost var before := data;
      for i := 0 to |cmd|
        invariant data == before + ArgumentBytes(cmd[..i])
      {
        WriteB(BLOB_STRING, cmd[i]);
        assert cmd[..i + 1][..i] == cmd[..i];
      }
      assert cmd[..|cmd|] == cmd;
    }
  }
}
