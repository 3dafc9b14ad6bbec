/** Unpadded standard base64 (RFC 4648 sections 3.2 and 4), as Go's RawStdEncoding reads and writes it. */
module Base64 {
  import opened Wrappers

  type Byte = b: nat | b < 256

  function Symbol(n: nat): char
    requires n < 64
  {
    if n < 26 then ('A' as int + n) as char
    else if n < 52 then ('a' as int + n - 26) as char
    else if n < 62 then ('0' as int + n - 52) as char
    else if n == 62 then '+'
    else '/'
  }

  predicate InAlphabet(c: char) {
    'A' <= c <= 'Z' || 'a' <= c <= 'z' || '0' <= c <= '9' || c == '+' || c == '/'
  }

  function Sextet(c: char): (n: nat)
    requires InAlphabet(c)
    ensures n < 64
  {
    if 'A' <= c <= 'Z' then c as int - 'A' as int
    else if 'a' <= c <= 'z' then c as int - 'a' as int + 26
    else if '0' <= c <= '9' then c as int - '0' as int + 52
    else if c == '+' then 62
    else 63
  }

  lemma SymbolRoundTrip(n: nat)
    requires n < 64
    ensures InAlphabet(Symbol(n)) && Sextet(Symbol(n)) == n
  {
  }

  type Bits6 = b: nat | b < 64

  datatype Bytes3 = Bytes3(x: Byte, y: Byte, z: Byte)

  datatype Sextets4 = Sextets4(a: Bits6, b: Bits6, c: Bits6, d: Bits6)

  function Pack(t: Bytes3): Sextets4 {
    Sextets4(t.x / 4, t.x % 4 * 16 + t.y / 16, t.y % 16 * 4 + t.z / 64, t.z % 64)
  }

  function Unpack(q: Sextets4): Bytes3 {
    Bytes3(q.a as nat * 4 + q.b as nat / 16, q.b as nat % 16 * 16 + q.c as nat / 4, q.c as nat % 4 * 64 + q.d as nat)
  }

  /** Three bytes as four groups of six bits; a short end is padded with zero bits. */
  function ToSextets(bytes: seq<Byte>): seq<Bits6> {
    if |bytes| == 0 then []
    else if |bytes| == 1 then
      var q := Pack(Bytes3(bytes[0], 0, 0));
      [q.a, q.b]
    else if |bytes| == 2 then
      var q := Pack(Bytes3(bytes[0], bytes[1], 0));
      [q.a, q.b, q.c]
    else
      var q := Pack(Bytes3(bytes[0], bytes[1], bytes[2]));
      [q.a, q.b, q.c, q.d] + ToSextets(bytes[3..])
  }

  /** The unused bits of a short end are not looked at. */
  function FromSextets(s: seq<Bits6>): Option<seq<Byte>> {
    if |s| == 0 then Some([])
    else if |s| == 1 then None
    else if |s| == 2 then
      var t := Unpack(Sextets4(s[0], s[1], 0, 0));
      Some([t.x])
    else if |s| == 3 then
      var t := Unpack(Sextets4(s[0], s[1], s[2], 0));
      Some([t.x, t.y])
    else
      var t := Unpack(Sextets4(s[0], s[1], s[2], s[3]));
      match FromSextets(s[4..])
      case None => None
      case Some(rest) => Some([t.x, t.y, t.z] + rest)
  }

  function Encode(bytes: seq<Byte>): string {
    var s := ToSextets(bytes);
    seq(|s|, k requires 0 <= k < |s| => Symbol(s[k]))
  }

  /** Line breaks are ignored wherever they are. */
  function WithoutBreaks(text: string): string {
    if |text| == 0 then ""
    else (if text[0] == '\n' || text[0] == '\r' then "" else [text[0]]) + WithoutBreaks(text[1..])
  }

  function Decode(text: string): Option<seq<Byte>> {
    var t := WithoutBreaks(text);
    if exists c :: c in t && !InAlphabet(c) then None
    else FromSextets(seq(|t|, k requires 0 <= k < |t| => assert t[k] in t; Sextet(t[k])))
  }

  lemma EncodedAlphabet(bytes: seq<Byte>)
    ensures forall c :: c in Encode(bytes) ==> InAlphabet(c)
  {
  }

  lemma {:induction false} NoBreaksToDrop(text: string)
    requires forall c :: c in text ==> InAlphabet(c)
    ensures WithoutBreaks(text) == text
  {
    if |text| > 0 {
      NoBreaksToDrop(text[1..]);
      assert text[0] in text;
      assert text == [text[0]] + text[1..];
    }
  }

  lemma SplitAtFour(high: nat, low: nat)
    requires low < 16
    ensures (high * 16 + low) / 16 == high && (high * 16 + low) % 16 == low
  {
  }

  lemma SplitAtTwo(high: nat, low: nat)
    requires low < 4
    ensures (high * 4 + low) / 4 == high && (high * 4 + low) % 4 == low
  {
  }

  lemma UnpackPacked(t: Bytes3)
    ensures Unpack(Pack(t)) == t
  {
    SplitAtFour(t.x % 4, t.y / 16);
    SplitAtTwo(t.y % 16, t.z / 64);
  }

  lemma OneByte(x: Byte)
    ensures FromSextets(ToSextets([x])) == Some([x])
  {
    UnpackPacked(Bytes3(x, 0, 0));
  }

  lemma TwoBytes(x: Byte, y: Byte)
    ensures FromSextets(ToSextets([x, y])) == Some([x, y])
  {
    UnpackPacked(Bytes3(x, y, 0));
  }

  lemma ThreeBytes(x: Byte, y: Byte, z: Byte, more: seq<Byte>, rest: seq<Byte>)
    requires FromSextets(ToSextets(more)) == Some(rest)
    ensures FromSextets(ToSextets([x, y, z] + more)) == Some([x, y, z] + rest)
  {
    UnpackPacked(Bytes3(x, y, z));
    assert ([x, y, z] + more)[3..] == more;
    assert ToSextets([x, y, z] + more)[4..] == ToSextets(more);
  }

  lemma {:induction false} SextetsRoundTrip(bytes: seq<Byte>)
    ensures FromSextets(ToSextets(bytes)) == Some(bytes)
  {
    if |bytes| == 1 {
      OneByte(bytes[0]);
      assert bytes == [bytes[0]];
    } else if |bytes| == 2 {
      TwoBytes(bytes[0], bytes[1]);
      assert bytes == [bytes[0], bytes[1]];
    } else if |bytes| >= 3 {
      SextetsRoundTrip(bytes[3..]);
      ThreeBytes(bytes[0], bytes[1], bytes[2], bytes[3..], bytes[3..]);
      assert bytes == [bytes[0], bytes[1], bytes[2]] + bytes[3..];
    }
  }

  /** Every byte string comes back from its encoding. */
  lemma DecodeEncoded(bytes: seq<Byte>)
    ensures Decode(Encode(bytes)) == Some(bytes)
  {
    var s, text := ToSextets(bytes), Encode(bytes);
    EncodedAlphabet(bytes);
    NoBreaksToDrop(text);
    forall k | 0 <= k < |s| ensures Sextet(text[k]) == s[k] {
      SymbolRoundTrip(s[k]);
    }
    assert s == seq(|text|, k requires 0 <= k < |text| => assert text[k] in text; Sextet(text[k]));
    SextetsRoundTrip(bytes);
  }

  // ----- the standard itself -----

  /** The alphabet of section 4 of RFC 4648. */
  const ALPHABET := UPPER + LOWER + "0123456789+/"
  const UPPER := "ABCDEFGHIJKLMNOPQRSTUVWXYZ"
  const LOWER := "abcdefghijklmnopqrstuvwxyz"

  lemma SymbolsAreTheAlphabet(n: nat)
    requires n < 64
    ensures |ALPHABET| == 64 && Symbol(n) == ALPHABET[n]
  {
    if n < 26 {
      assert UPPER[n] as int == 'A' as int + n;
    } else if n < 52 {
      assert LOWER[n - 26] as int == 'a' as int + n - 26;
    } else {
      assert "0123456789+/"[n - 52] == Symbol(n);
    }
  }

  /** Three bytes are four groups of six bits, the first byte in the highest ones. */
  lemma BitsInOrder(t: Bytes3)
    ensures var q := Pack(t);
            65536 * t.x + 256 * t.y + t.z
            == 262144 * (q.a as nat) + 4096 * (q.b as nat) + 64 * (q.c as nat) + q.d as nat
  {
  }

  lemma {:induction false} SextetsDecodeIff(s: seq<Bits6>)
    ensures FromSextets(s).Some? <==> |s| % 4 != 1
    ensures FromSextets(s).Some? ==> |FromSextets(s).value| == |s| * 3 / 4
  {
    if |s| >= 4 {
      SextetsDecodeIff(s[4..]);
      OneMoreGroup(|s| - 4);
    }
  }

  lemma OneMoreGroup(n: nat)
    ensures (n + 4) % 4 == n % 4 && (n + 4) * 3 / 4 == n * 3 / 4 + 3
  {
  }

  lemma {:induction false} BreaksDropped(text: string, c: char)
    ensures c in WithoutBreaks(text) <==> c in text && c != '\n' && c != '\r'
  {
    if |text| > 0 {
      BreaksDropped(text[1..], c);
      assert text == [text[0]] + text[1..];
    }
  }

  /** What decodes: letters of the alphabet and line breaks, and the letters do not leave a group of one. */
  lemma DecodesIff(text: string)
    ensures Decode(text).Some? <==>
              && (forall c :: c in text ==> c in ALPHABET || c == '\n' || c == '\r')
              && |WithoutBreaks(text)| % 4 != 1
    ensures Decode(text).Some? ==> |Decode(text).value| == |WithoutBreaks(text)| * 3 / 4
  {
    var t := WithoutBreaks(text);
    forall c ensures InAlphabet(c) <==> c in ALPHABET {
      InTheAlphabet(c);
    }
    forall c ensures c in t <==> c in text && c != '\n' && c != '\r' {
      BreaksDropped(text, c);
    }
    if forall c :: c in t ==> InAlphabet(c) {
      SextetsDecodeIff(seq(|t|, k requires 0 <= k < |t| => assert t[k] in t; Sextet(t[k])));
    }
  }

  lemma InTheAlphabet(c: char)
    ensures InAlphabet(c) <==> c in ALPHABET
  {
    if InAlphabet(c) {
      SymbolsAreTheAlphabet(Sextet(c));
      assert Symbol(Sextet(c)) == c;
    }
    if c in ALPHABET {
      var k :| 0 <= k < |ALPHABET| && ALPHABET[k] == c;
      SymbolsAreTheAlphabet(k);
      SymbolRoundTrip(k);
    }
  }
}
