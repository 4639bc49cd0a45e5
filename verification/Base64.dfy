/** Base64 as in section 4 of RFC 4648, decoded the strict way: full quads, padding only at the end. */
module Base64 {
  import opened Prelude

  type Byte = x: nat | x < 256

  type Sextet = x: nat | x < 64

  function Char(v: Sextet): char {
    if v < 26 then 'A' + v as char
    else if v < 52 then 'a' + (v - 26) as char
    else if v < 62 then '0' + (v - 52) as char
    else if v == 62 then '+' else '/'
  }

  function Value(c: char): Option<Sextet> {
    if 'A' <= c <= 'Z' then Some((c - 'A') as int)
    else if 'a' <= c <= 'z' then Some((c - 'a') as int + 26)
    else if '0' <= c <= '9' then Some((c - '0') as int + 52)
    else if c == '+' then Some(62) else if c == '/' then Some(63) else None
  }

  /** The four sextets of three bytes, first to last. */
  function Quad(x: Byte, y: Byte, z: Byte): string {
    [Char(x / 4), Char(x % 4 * 16 + y / 16), Char(y % 16 * 4 + z / 64), Char(z % 64)]
  }

  function Encode(bytes: seq<Byte>): string {
    if |bytes| == 0 then ""
    else if |bytes| == 1 then Quad(bytes[0], 0, 0)[..2] + "=="
    else if |bytes| == 2 then Quad(bytes[0], bytes[1], 0)[..3] + "="
    else Quad(bytes[0], bytes[1], bytes[2]) + Encode(bytes[3..])
  }

  function First(a: Sextet, b: Sextet): Byte { a * 4 + b / 16 }

  function Second(b: Sextet, c: Sextet): Byte { b % 16 * 16 + c / 4 }

  function Third(c: Sextet, d: Sextet): Byte { c % 4 * 64 + d }

  /** Bits left over in front of the padding are dropped without a look, as the decoder does. */
  function Decode(s: string): Option<seq<Byte>> {
    if |s| == 0 then Some([])
    else if |s| < 4 || Value(s[0]).None? || Value(s[1]).None? then None
    else
      var a, b := Value(s[0]).value, Value(s[1]).value;
      if s[2..] == "==" then Some([First(a, b)])
      else if Value(s[2]).None? then None
      else
        var c := Value(s[2]).value;
        if s[3..] == "=" then Some([First(a, b), Second(b, c)])
        else if Value(s[3]).None? then None
        else
          var rest := Decode(s[4..]);
          if rest.None? then None
          else Some([First(a, b), Second(b, c), Third(c, Value(s[3]).value)] + rest.value)
  }

  lemma {:induction false} RoundTrip(bytes: seq<Byte>)
    ensures Decode(Encode(bytes)) == Some(bytes)
  {
    if |bytes| < 3 {
      ShortRoundTrip(bytes);
    } else {
      var x, y, z, rest := bytes[0], bytes[1], bytes[2], bytes[3..];
      RoundTrip(rest);
      FullQuad(x, y, z, Encode(rest));
      assert bytes == [x, y, z] + rest;
    }
  }

  lemma ShortRoundTrip(bytes: seq<Byte>)
    requires |bytes| < 3
    ensures Decode(Encode(bytes)) == Some(bytes)
  {
    if |bytes| == 1 {
      OneByte(bytes[0]);
      assert bytes == [bytes[0]];
    } else if |bytes| == 2 {
      TwoBytes(bytes[0], bytes[1]);
      assert bytes == [bytes[0], bytes[1]];
    }
  }

  lemma FullQuad(x: Byte, y: Byte, z: Byte, rest: string)
    requires Decode(rest).Some?
    ensures Decode(Quad(x, y, z) + rest) == Some([x, y, z] + Decode(rest).value)
  {
    var q, s := Quad(x, y, z), Quad(x, y, z) + rest;
    QuadValues(x, y, z);
    NoPadding(y % 16 * 4 + z / 64);
    NoPadding(z % 64);
    assert s[4..] == rest && s[..4] == q;
    assert s[0] == q[0] && s[1] == q[1] && s[2] == q[2] && s[3] == q[3];
    assert s[2..][0] == s[2] && s[3..][0] == s[3];
  }

  lemma NoPadding(v: Sextet)
    ensures Char(v) != '=' && Char(v) >= '+'
  {
  }

  lemma OneByte(x: Byte)
    ensures Decode(Quad(x, 0, 0)[..2] + "==") == Some([x])
  {
    var s := Quad(x, 0, 0)[..2] + "==";
    QuadValues(x, 0, 0);
    assert s[0] == Quad(x, 0, 0)[0] && s[1] == Quad(x, 0, 0)[1];
    assert s[2..] == "==";
  }

  lemma TwoBytes(x: Byte, y: Byte)
    ensures Decode(Quad(x, y, 0)[..3] + "=") == Some([x, y])
  {
    var s := Quad(x, y, 0)[..3] + "=";
    QuadValues(x, y, 0);
    NoPadding(y % 16 * 4 + 0 / 64);
    assert s[2..][0] == s[2] == Char(y % 16 * 4 + 0 / 64);
    assert s[3..] == "=";
  }

  lemma QuadValues(x: Byte, y: Byte, z: Byte)
    ensures var q := Quad(x, y, z);
      var a, b, c, d := x / 4, x % 4 * 16 + y / 16, y % 16 * 4 + z / 64, z % 64;
      && Value(q[0]) == Some(a) && Value(q[1]) == Some(b) && Value(q[2]) == Some(c) && Value(q[3]) == Some(d)
      && First(a, b) == x && Second(b, c) == y && Third(c, d) == z
  {
  }

  lemma {:induction false} EncodedLength(bytes: seq<Byte>)
    ensures |Encode(bytes)| == (|bytes| + 2) / 3 * 4
  {
    if |bytes| >= 3 {
      var rest := bytes[3..];
      EncodedLength(rest);
      assert |bytes| == |rest| + 3 && (|rest| + 3 + 2) / 3 == (|rest| + 2) / 3 + 1;
    }
  }

  /** Text is decoded in whole quads of at most three bytes each. */
  lemma {:induction false} DecodedLength(s: string)
    requires Decode(s).Some?
    ensures |s| % 4 == 0 && |Decode(s).value| <= |s| / 4 * 3
  {
    if |s| > 0 && s[2..] != "==" && s[3..] != "=" {
      var rest := s[4..];
      DecodedLength(rest);
      assert |s| == |rest| + 4 && |s| / 4 == |rest| / 4 + 1;
    }
  }

  lemma {:induction false} NoSpaceInside(bytes: seq<Byte>)
    ensures forall i :: 0 <= i < |Encode(bytes)| ==> '+' <= Encode(bytes)[i]
  {
    if |bytes| >= 3 {
      NoSpaceInside(bytes[3..]);
    }
  }

  /** The alphabet of the standard, in its order. */
  lemma Alphabet(v: Sextet)
    ensures v < 26 ==> Char(v) == "ABCDEFGHIJKLMNOPQRSTUVWXYZ"[v]
    ensures 26 <= v < 52 ==> Char(v) == "abcdefghijklmnopqrstuvwxyz"[v - 26]
    ensures 52 <= v ==> Char(v) == "0123456789+/"[v - 52]
  {
  }

  /** The four characters of three bytes spell the same number in base 64 as the bytes in base 256. */
  lemma QuadIsNumber(x: Byte, y: Byte, z: Byte)
    ensures var q := Quad(x, y, z);
      && |q| == 4 && (forall i :: 0 <= i < 4 ==> Value(q[i]).Some?)
      && ((Value(q[0]).value * 64 + Value(q[1]).value) * 64 + Value(q[2]).value) * 64 + Value(q[3]).value
         == (x * 256 + y) * 256 + z
  {
    ValueOfChar(x / 4);
    ValueOfChar(x % 4 * 16 + y / 16);
    ValueOfChar(y % 16 * 4 + z / 64);
    ValueOfChar(z % 64);
  }

  lemma ValueOfChar(v: Sextet)
    ensures Value(Char(v)) == Some(v)
  {
  }

  /** Bytes are encoded three by three; one or two left over stand as if zeros followed, with the rest padded. */
  lemma EncodingAt(bytes: seq<Byte>)
    ensures |bytes| >= 3 ==> Encode(bytes)[..4] == Quad(bytes[0], bytes[1], bytes[2])
                             && Encode(bytes)[4..] == Encode(bytes[3..])
    ensures |bytes| == 2 ==> |Encode(bytes)| == 4 && Encode(bytes)[..3] == Quad(bytes[0], bytes[1], 0)[..3]
                             && Encode(bytes)[3] == '='
    ensures |bytes| == 1 ==> |Encode(bytes)| == 4 && Encode(bytes)[..2] == Quad(bytes[0], 0, 0)[..2]
                             && Encode(bytes)[2] == '=' && Encode(bytes)[3] == '='
  {
  }

  /** Whole quads of the alphabet, but for `pad` signs at the end. */
  predicate PaddedText(s: string, pad: nat) {
    && |s| % 4 == 0 && pad <= |s| && pad <= 2
    && (forall i :: 0 <= i < |s| - pad ==> Value(s[i]).Some?)
    && (forall i :: |s| - pad <= i < |s| ==> s[i] == '=')
  }

  /** Exactly the texts in this form are decoded. */
  lemma {:induction false} DecodesExactly(s: string)
    ensures Decode(s).Some? <==> PaddedText(s, 0) || PaddedText(s, 1) || PaddedText(s, 2)
  {
    if |s| > 4 {
      DecodesExactly(s[4..]);
      DecodeTail(s);
      PaddedTail(s, 0);
      PaddedTail(s, 1);
      PaddedTail(s, 2);
    } else if |s| == 4 {
      OneQuad(s);
    }
  }

  lemma DecodeTail(s: string)
    requires |s| > 4
    ensures Decode(s).Some? <==>
      && Value(s[0]).Some? && Value(s[1]).Some? && Value(s[2]).Some? && Value(s[3]).Some?
      && Decode(s[4..]).Some?
  {
    assert |s[2..]| > 2 && |s[3..]| > 1;
  }

  lemma PaddedTail(s: string, pad: nat)
    requires |s| > 4 && pad <= 2
    ensures PaddedText(s, pad) <==>
      && Value(s[0]).Some? && Value(s[1]).Some? && Value(s[2]).Some? && Value(s[3]).Some?
      && PaddedText(s[4..], pad)
  {
    if !PaddedText(s, pad) && PaddedText(s[4..], pad) {
      forall i | 4 <= i < |s|
        ensures s[i] == s[4..][i - 4]
      {
      }
    }
  }

  lemma OneQuad(s: string)
    requires |s| == 4
    ensures Decode(s).Some? <==> PaddedText(s, 0) || PaddedText(s, 1) || PaddedText(s, 2)
  {
    assert s[2..] == "==" <==> s[2] == '=' && s[3] == '=';
    assert s[3..] == "=" <==> s[3] == '=';
    assert Decode(s[4..]) == Some([]);
  }
}
