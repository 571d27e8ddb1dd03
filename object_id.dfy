/** ObjectIds: a document's identifier and its 24-hex-digit text form, the only text
    `findById` accepts. A document's ObjectId is modelled by a number. */
module ObjectId {

  predicate IsHexDigit(c: char) {
    ('0' <= c <= '9') || ('a' <= c <= 'f') || ('A' <= c <= 'F')
  }

  /** The value of one hexadecimal digit, either case. */
  function HexValue(c: char): (d: nat)
    requires IsHexDigit(c)
    ensures d < 16
  {
    if '0' <= c <= '9' then c as int - '0' as int
    else if 'a' <= c <= 'f' then c as int - 'a' as int + 10
    else c as int - 'A' as int + 10
  }

  /** The lower-case digit for `d`, as ObjectIds print. */
  function HexChar(d: nat): (c: char)
    requires d < 16
    ensures IsHexDigit(c) && HexValue(c) == d
  {
    if d < 10 then ('0' as int + d) as char else ('a' as int + d - 10) as char
  }

  predicate AllHex(s: string) {
    forall i :: 0 <= i < |s| ==> IsHexDigit(s[i])
  }

  function Pow16(k: nat): (r: nat)
    ensures r >= 1
  {
    if k == 0 then 1 else 16 * Pow16(k - 1)
  }

  /** The value of a hexadecimal numeral, most significant digit first. */
  function ParseHex(s: string): nat
    requires AllHex(s)
  {
    if s == [] then 0 else ParseHex(s[..|s| - 1]) * 16 + HexValue(s[|s| - 1])
  }

  /** The `width` lowest hexadecimal digits of `n`, zero-padded. */
  function Hex(n: nat, width: nat): (r: string)
    ensures |r| == width && AllHex(r)
  {
    if width == 0 then [] else Hex(n / 16, width - 1) + [HexChar(n % 16)]
  }

  /** Reading back a numeral wide enough for `n` gives `n`. */
  lemma {:induction false} ParseHexOfHex(n: nat, width: nat)
    requires n < Pow16(width)
    ensures ParseHex(Hex(n, width)) == n
  {
    if width > 0 {
      var h := Hex(n, width);
      assert h[..width - 1] == Hex(n / 16, width - 1);
      ParseHexOfHex(n / 16, width - 1);
    }
  }

  /** Every ObjectId text is 24 hexadecimal digits. */
  const TextLength := 24

  /** Whether `findById` can cast `s` to an ObjectId. */
  predicate IsObjectIdText(s: string) {
    |s| == TextLength && AllHex(s)
  }

  /** The text form of the ObjectId `n`. */
  function Text(n: nat): (s: string)
    requires n < Pow16(TextLength)
  {
    Hex(n, TextLength)
  }

  /** The text form of an ObjectId is castable and is cast back to the same ObjectId. */
  lemma TextRoundTrip(n: nat)
    requires n < Pow16(TextLength)
    ensures IsObjectIdText(Text(n)) && ParseHex(Text(n)) == n
  {
    ParseHexOfHex(n, TextLength);
  }
}
