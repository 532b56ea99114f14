// Base64 as section 4 of RFC 4648 defines it, by encoding and decoding, and the test the parser applies to an offer's
// text (internal/eventbus/rpc/rpc_methods.go:89-95).
module Base64s {
  import opened Common
  import opened Rpcs

  type Byte = x: int | 0 <= x < 256

  type Sextet = x: int | 0 <= x < 64

  function Symbol(v: Sextet): char {
    if v < 26 then ('A' as int + v) as char
    else if v < 52 then ('a' as int + v - 26) as char
    else if v < 62 then ('0' as int + v - 52) as char
    else if v == 62 then '+' else '/'
  }

  function ValueOf(c: char): Option<Sextet> {
    if 'A' <= c <= 'Z' then Some(c as int - 'A' as int)
    else if 'a' <= c <= 'z' then Some(c as int - 'a' as int + 26)
    else if '0' <= c <= '9' then Some(c as int - '0' as int + 52)
    else if c == '+' then Some(62) else if c == '/' then Some(63) else None
  }

  lemma SymbolsAreRead(v: Sextet)
    ensures ValueOf(Symbol(v)) == Some(v) && Symbol(v) !in {'=', '\r', '\n'}
  {
  }

  /** Three bytes make four symbols; one or two last bytes are padded. */
  function Encode(bytes: seq<Byte>): string {
    if bytes == [] then ""
    else if |bytes| == 1 then [Symbol(bytes[0] / 4), Symbol(bytes[0] % 4 * 16), '=', '=']
    else if |bytes| == 2 then
      [Symbol(bytes[0] / 4), Symbol(bytes[0] % 4 * 16 + bytes[1] / 16), Symbol(bytes[1] % 16 * 4), '=']
    else
      [Symbol(bytes[0] / 4), Symbol(bytes[0] % 4 * 16 + bytes[1] / 16), Symbol(bytes[1] % 16 * 4 + bytes[2] / 64),
       Symbol(bytes[2] % 64)] + Encode(bytes[3..])
  }

  function First(a: Sextet, b: Sextet): Byte { a * 4 + b / 16 }

  function Second(b: Sextet, c: Sextet): Byte { b % 16 * 16 + c / 4 }

  function Third(c: Sextet, d: Sextet): Byte { c % 4 * 64 + d }

  /** The bytes a text without line breaks stands for; padding ends it. */
  function Decode(t: string): Option<seq<Byte>> {
    if t == "" then Some([])
    else if |t| < 4 then None
    else
      var a, b, c, d := ValueOf(t[0]), ValueOf(t[1]), ValueOf(t[2]), ValueOf(t[3]);
      if a.None? || b.None? then None
      else if |t| == 4 && t[3] == '=' then
        if t[2] == '=' then Some([First(a.value, b.value)])
        else if c.None? then None
        else Some([First(a.value, b.value), Second(b.value, c.value)])
      else if c.None? || d.None? then None
      else
        match Decode(t[4..])
        case None => None
        case Some(rest) =>
          Some([First(a.value, b.value), Second(b.value, c.value), Third(c.value, d.value)] + rest)
  }

  /** The parser's test accepts exactly the texts that decode. */
  lemma {:induction false} QuantaDecode(t: string)
    ensures Quanta(t) <==> Decode(t).Some?
    decreases |t|
  {
    if |t| >= 4 {
      QuantaDecode(t[4..]);
      assert InAlphabet(t[0]) <==> ValueOf(t[0]).Some?;
      assert InAlphabet(t[1]) <==> ValueOf(t[1]).Some?;
      assert InAlphabet(t[2]) <==> ValueOf(t[2]).Some?;
      assert InAlphabet(t[3]) <==> ValueOf(t[3]).Some?;
      if |t| > 4 { QuantaStep(t); }
    }
  }

  lemma QuantaStep(t: string)
    requires |t| > 4
    ensures Quanta(t) <==> Quanta(t[4..]) && forall i :: 0 <= i < 4 ==> InAlphabet(t[i])
  {
    var rest := t[4..];
    assert forall i :: 0 <= i < |rest| ==> rest[i] == t[i + 4];
    if Quanta(t) {
      assert |t| >= 8;
    }
    if Quanta(rest) && forall i :: 0 <= i < 4 ==> InAlphabet(t[i]) {
      assert |rest| >= 4;
      forall i | 0 <= i < |t| - 2 ensures InAlphabet(t[i]) {
        if i >= 4 { assert t[i] == rest[i - 4]; }
      }
    }
  }

  lemma TestIsExact(s: string)
    ensures ValidBase64(s) <==> Decode(Strip(s)).Some?
  {
    QuantaDecode(Strip(s));
  }

  lemma ThreeBytes(x: Byte, y: Byte, z: Byte)
    ensures First(x / 4, x % 4 * 16 + y / 16) == x
    ensures Second(x % 4 * 16 + y / 16, y % 16 * 4 + z / 64) == y
    ensures Third(y % 16 * 4 + z / 64, z % 64) == z
  {
  }

  lemma DecodeGroup(a: Sextet, b: Sextet, c: Sextet, d: Sextet, rest: string)
    ensures Decode([Symbol(a), Symbol(b), Symbol(c), Symbol(d)] + rest) ==
            match Decode(rest)
            case None => None
            case Some(bytes) => Some([First(a, b), Second(b, c), Third(c, d)] + bytes)
  {
    var t := [Symbol(a), Symbol(b), Symbol(c), Symbol(d)] + rest;
    SymbolsAreRead(a);
    SymbolsAreRead(b);
    SymbolsAreRead(c);
    SymbolsAreRead(d);
    assert t[4..] == rest && t[0] == Symbol(a) && t[1] == Symbol(b) && t[2] == Symbol(c) && t[3] == Symbol(d);
  }

  lemma DecodePadded(a: Sextet, b: Sextet, c: Sextet)
    ensures Decode([Symbol(a), Symbol(b), '=', '=']) == Some([First(a, b)])
    ensures Decode([Symbol(a), Symbol(b), Symbol(c), '=']) == Some([First(a, b), Second(b, c)])
  {
    SymbolsAreRead(a);
    SymbolsAreRead(b);
    SymbolsAreRead(c);
  }

  lemma DecodeOne(x: Byte)
    ensures Decode([Symbol(x / 4), Symbol(x % 4 * 16), '=', '=']) == Some([x])
  {
    ThreeBytes(x, 0, 0);
    DecodePadded(x / 4, x % 4 * 16, 0);
  }

  lemma DecodeTwo(x: Byte, y: Byte)
    ensures Decode([Symbol(x / 4), Symbol(x % 4 * 16 + y / 16), Symbol(y % 16 * 4), '=']) == Some([x, y])
  {
    ThreeBytes(x, y, 0);
    DecodePadded(x / 4, x % 4 * 16 + y / 16, y % 16 * 4);
  }

  lemma DecodeThree(x: Byte, y: Byte, z: Byte, rest: string)
    ensures Decode([Symbol(x / 4), Symbol(x % 4 * 16 + y / 16), Symbol(y % 16 * 4 + z / 64), Symbol(z % 64)] + rest) ==
            match Decode(rest) case None => None case Some(bytes) => Some([x, y, z] + bytes)
  {
    ThreeBytes(x, y, z);
    DecodeGroup(x / 4, x % 4 * 16 + y / 16, y % 16 * 4 + z / 64, z % 64, rest);
  }

  /** Decoding undoes encoding. */
  lemma {:induction false} DecodeEncode(bytes: seq<Byte>)
    ensures Decode(Encode(bytes)) == Some(bytes)
  {
    if |bytes| >= 3 {
      DecodeEncode(bytes[3..]);
      DecodeThree(bytes[0], bytes[1], bytes[2], Encode(bytes[3..]));
      assert bytes == [bytes[0], bytes[1], bytes[2]] + bytes[3..];
    } else if |bytes| == 2 {
      DecodeTwo(bytes[0], bytes[1]);
      assert bytes == [bytes[0], bytes[1]];
    } else if |bytes| == 1 {
      DecodeOne(bytes[0]);
      assert bytes == [bytes[0]];
    }
  }

  predicate NoBreaks(s: string) { forall i :: 0 <= i < |s| ==> s[i] != '\r' && s[i] != '\n' }

  lemma {:induction false} StripNothing(s: string)
    requires NoBreaks(s)
    ensures Strip(s) == s
  {
    if s != "" {
      StripNothing(s[1..]);
      assert [s[0]] + s[1..] == s;
    }
  }

  lemma {:induction false} EncodingHasNoBreaks(bytes: seq<Byte>)
    ensures NoBreaks(Encode(bytes))
  {
    if |bytes| >= 3 {
      EncodingHasNoBreaks(bytes[3..]);
    }
  }

  /** Packed data always passes the test, and nothing but its own bytes comes out. */
  lemma EncodedIsValid(bytes: seq<Byte>)
    ensures ValidBase64(Encode(bytes)) && Decode(Strip(Encode(bytes))) == Some(bytes)
  {
    DecodeEncode(bytes);
    EncodingHasNoBreaks(bytes);
    StripNothing(Encode(bytes));
    TestIsExact(Encode(bytes));
  }
}
