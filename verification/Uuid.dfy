// generateUuid: two 64-bit numbers printed in hexadecimal, each padded with
// zeros to 16 digits.
module Uuid {
  import opened Prelude
  import opened Text
  import Json

  predicate LowerHex(c: char) {
    '0' <= c <= '9' || 'a' <= c <= 'f'
  }

  predicate AllLowerHex(s: string) {
    forall i | 0 <= i < |s| :: LowerHex(s[i])
  }

  // std::hex: no leading zeros.
  function Hex(n: nat): (s: string)
    ensures s != []
    ensures AllLowerHex(s)
  {
    if n < 16 then [Json.HexDigit(n)] else Hex(n / 16) + [Json.HexDigit(n % 16)]
  }

  function Zeros(n: nat): (s: string)
    ensures |s| == n && AllLowerHex(s) && forall i | 0 <= i < n :: s[i] == '0'
  {
    if n == 0 then "" else "0" + Zeros(n - 1)
  }

  // setw(16) with setfill('0'): longer texts are not cut.
  function Pad(s: string): string {
    if |s| < 16 then Zeros(16 - |s|) + s else s
  }

  function Format(a: nat, b: nat): string {
    Pad(Hex(a)) + Pad(Hex(b))
  }

  // Value of a text of hexadecimal digits, most significant first.
  function Value(s: string): nat {
    if s == [] then 0
    else
      var d := Json.HexValue(s[|s| - 1]);
      16 * Value(s[..|s| - 1]) + (if d.Some? then d.value else 0)
  }

  function Pow16(w: nat): nat {
    if w == 0 then 1 else 16 * Pow16(w - 1)
  }

  lemma {:induction false} HexLength(n: nat, w: nat)
    requires w > 0 && n < Pow16(w)
    ensures |Hex(n)| <= w
    decreases w
  {
    if n >= 16 {
      assert Pow16(1) == 16;
      HexLength(n / 16, w - 1);
    }
  }

  lemma {:induction false} HexValue(n: nat)
    ensures Value(Hex(n)) == n
  {
    if n < 16 {
      var s := Hex(n);
      assert s[..|s| - 1] == [];
    } else {
      HexValue(n / 16);
      var s := Hex(n);
      assert s[..|s| - 1] == Hex(n / 16);
    }
  }

  lemma {:induction false} LeadingZeros(k: nat, s: string)
    ensures Value(Zeros(k) + s) == Value(s)
    decreases |s| + k
  {
    var t := Zeros(k) + s;
    if s != [] {
      assert t[..|t| - 1] == Zeros(k) + s[..|s| - 1];
      LeadingZeros(k, s[..|s| - 1]);
    } else if k > 0 {
      assert t[..|t| - 1] == Zeros(k - 1) + s;
      LeadingZeros(k - 1, s);
    }
  }

  lemma Pow16Of16()
    ensures Pow16(16) == U64
  {
    assert Pow16(4) == 0x1_0000;
    assert Pow16(8) == 0x1_0000_0000;
    assert Pow16(12) == 0x1_0000_0000_0000;
  }

  lemma PadRecovers(n: nat)
    requires n < U64
    ensures |Pad(Hex(n))| == 16 && Value(Pad(Hex(n))) == n && AllLowerHex(Pad(Hex(n)))
  {
    var h := Hex(n);
    assert |h| <= 16 by {
      Pow16Of16();
      HexLength(n, 16);
    }
    HexValue(n);
    LeadingZeros(16 - |h|, h);
  }

  // 32 lower-case digits, from which both numbers can be read back.
  lemma FormatRecovers(a: nat, b: nat)
    requires a < U64 && b < U64
    ensures |Format(a, b)| == 32 && AllLowerHex(Format(a, b))
    ensures Value(Format(a, b)[..16]) == a && Value(Format(a, b)[16..]) == b
  {
    PadRecovers(a);
    PadRecovers(b);
    assert Format(a, b)[..16] == Pad(Hex(a)) && Format(a, b)[16..] == Pad(Hex(b));
  }

  lemma FormatInjective(a: nat, b: nat, c: nat, d: nat)
    requires a < U64 && b < U64 && c < U64 && d < U64
    ensures Format(a, b) == Format(c, d) <==> a == c && b == d
  {
    FormatRecovers(a, b);
    FormatRecovers(c, d);
  }

  // A generated uuid is never empty and can be carried by the wire.
  lemma FormatOnWire(a: nat, b: nat)
    requires a < U64 && b < U64
    ensures Format(a, b) != [] && Ascii(Format(a, b))
  {
    FormatRecovers(a, b);
    var u := Format(a, b);
    assert forall i | 0 <= i < |u| :: LowerHex(u[i]);
  }
}
