/** Unpadded base64 in the standard alphabet: sections 4 and 3.2 of RFC 4648, as Go's
    base64.RawStdEncoding reads and writes it. */
module Base64 {
  import opened Wrappers

  newtype byte = x: int | 0 <= x < 256
  newtype sextet = x: int | 0 <= x < 64

  function Symbol(d: sextet): (c: char)
    ensures c != '$' && c != '\n' && c != '\r' && FromSymbol(c) == Some(d)
  {
    if d < 26 then 'A' + d as char
    else if d < 52 then 'a' + (d - 26) as char
    else if d < 62 then '0' + (d - 52) as char
    else if d == 62 then '+'
    else '/'
  }

  function FromSymbol(c: char): Option<sextet> {
    if 'A' <= c <= 'Z' then Some((c as int - 'A' as int) as sextet)
    else if 'a' <= c <= 'z' then Some((c as int - 'a' as int + 26) as sextet)
    else if '0' <= c <= '9' then Some((c as int - '0' as int + 52) as sextet)
    else if c == '+' then Some(62)
    else if c == '/' then Some(63)
    else None
  }

  // Three bytes are four sextets: the bits are regrouped, none moved.

  function First(a: byte): sextet { (a as int / 4) as sextet }
  function Second(a: byte, b: byte): sextet { (a as int % 4 * 16 + b as int / 16) as sextet }
  function Third(b: byte, c: byte): sextet { (b as int % 16 * 4 + c as int / 64) as sextet }
  function Fourth(c: byte): sextet { (c as int % 64) as sextet }

  function ByteA(p: sextet, q: sextet): byte { (p as int * 4 + q as int / 16) as byte }
  function ByteB(q: sextet, r: sextet): byte { (q as int % 16 * 16 + r as int / 4) as byte }
  function ByteC(r: sextet, s: sextet): byte { (r as int % 4 * 64 + s as int) as byte }

  lemma Regrouped(a: byte, b: byte, c: byte)
    ensures ByteA(First(a), Second(a, b)) == a
    ensures ByteB(Second(a, b), Third(b, c)) == b
    ensures ByteC(Third(b, c), Fourth(c)) == c
  {
  }

  function Sextets(bytes: seq<byte>): seq<sextet> {
    if |bytes| == 0 then []
    else if |bytes| == 1 then [First(bytes[0]), Second(bytes[0], 0)]
    else if |bytes| == 2 then [First(bytes[0]), Second(bytes[0], bytes[1]), Third(bytes[1], 0)]
    else
      [First(bytes[0]), Second(bytes[0], bytes[1]), Third(bytes[1], bytes[2]), Fourth(bytes[2])] + Sextets(bytes[3..])
  }

  /** A lone sextet is an error; the unused bits at the end are not looked at. */
  function Bytes(digits: seq<sextet>): Option<seq<byte>> {
    if |digits| == 0 then Some([])
    else if |digits| == 1 then None
    else if |digits| == 2 then Some([ByteA(digits[0], digits[1])])
    else if |digits| == 3 then Some([ByteA(digits[0], digits[1]), ByteB(digits[1], digits[2])])
    else
      var rest := Bytes(digits[4..]);
      if rest.None? then None
      else Some([ByteA(digits[0], digits[1]), ByteB(digits[1], digits[2]), ByteC(digits[2], digits[3])] + rest.value)
  }

  lemma {:induction false} BytesOfSextets(bytes: seq<byte>)
    ensures Bytes(Sextets(bytes)) == Some(bytes)
  {
    hide First, Second, Third, Fourth, ByteA, ByteB, ByteC;
    if |bytes| == 1 {
      Regrouped(bytes[0], 0, 0);
      assert bytes == [bytes[0]];
    } else if |bytes| == 2 {
      Regrouped(bytes[0], bytes[1], 0);
      assert bytes == [bytes[0], bytes[1]];
    } else if |bytes| > 2 {
      Regrouped(bytes[0], bytes[1], bytes[2]);
      BytesOfSextets(bytes[3..]);
      assert Sextets(bytes)[4..] == Sextets(bytes[3..]);
      assert [bytes[0], bytes[1], bytes[2]] + bytes[3..] == bytes;
    }
  }

  function Encode(bytes: seq<byte>): (s: string)
    ensures |s| == |Sextets(bytes)| && forall i | 0 <= i < |s| :: s[i] == Symbol(Sextets(bytes)[i])
  {
    seq(|Sextets(bytes)|, i requires 0 <= i < |Sextets(bytes)| => Symbol(Sextets(bytes)[i]))
  }

  /** The digits of a text; line ends are skipped, any other stranger is an error. */
  function Digits(s: string): Option<seq<sextet>> {
    if s == [] then Some([])
    else
      var rest := Digits(s[1..]);
      if rest.None? then None
      else if s[0] == '\n' || s[0] == '\r' then rest
      else if FromSymbol(s[0]).None? then None
      else Some([FromSymbol(s[0]).value] + rest.value)
  }

  function Decode(s: string): Option<seq<byte>> {
    if Digits(s).None? then None else Bytes(Digits(s).value)
  }

  lemma {:induction false} DigitsOfSymbols(digits: seq<sextet>, s: string)
    requires |s| == |digits| && forall i | 0 <= i < |s| :: s[i] == Symbol(digits[i])
    ensures Digits(s) == Some(digits)
  {
    if digits != [] {
      DigitsOfSymbols(digits[1..], s[1..]);
      assert [digits[0]] + digits[1..] == digits;
    }
  }

  /** What is written is read back, whatever the bytes. */
  lemma DecodeEncode(bytes: seq<byte>)
    ensures Decode(Encode(bytes)) == Some(bytes)
  {
    DigitsOfSymbols(Sextets(bytes), Encode(bytes));
    BytesOfSextets(bytes);
  }
}
