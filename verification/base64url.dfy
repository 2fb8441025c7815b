/**
 Base64 with the URL- and filename-safe alphabet (section 5 of RFC 4648), as
 Python's `base64.urlsafe_b64encode` produces it: every 3 input bytes become
 4 symbols, and a final group of 1 or 2 bytes is completed with `=` padding.
 `Decode` is an independent decoder for the same format, and the unpadded
 form (the one section 4.1 of RFC 8484 asks for in the `dns` parameter) is
 defined from it.
 */
module Base64Url {
  import opened Bytes

  /** The characters of the alphabet: `A-Z a-z 0-9 - _`. */
  predicate IsSymbol(c: char)
  {
    ('A' <= c <= 'Z') || ('a' <= c <= 'z') || ('0' <= c <= '9') || c == '-' || c == '_'
  }

  /** The symbol for a 6-bit value. */
  function Symbol(i: int): (c: char)
    requires 0 <= i < 64
    ensures IsSymbol(c)
  {
    if i < 26 then ('A' as int + i) as char
    else if i < 52 then ('a' as int + (i - 26)) as char
    else if i < 62 then ('0' as int + (i - 52)) as char
    else if i == 62 then '-'
    else '_'
  }

  /** The 6-bit value of a symbol: the inverse of `Symbol`. */
  function SymbolValue(c: char): (i: int)
    requires IsSymbol(c)
    ensures 0 <= i < 64 && Symbol(i) == c
  {
    if 'A' <= c <= 'Z' then c as int - 'A' as int
    else if 'a' <= c <= 'z' then c as int - 'a' as int + 26
    else if '0' <= c <= '9' then c as int - '0' as int + 52
    else if c == '-' then 62
    else 63
  }

  lemma SymbolRoundTrip(i: int)
    requires 0 <= i < 64
    ensures SymbolValue(Symbol(i)) == i
  {
  }

  /** The number of started groups of three among `n` bytes. */
  function Groups(n: nat): nat
  {
    if n == 0 then 0 else if n <= 3 then 1 else 1 + Groups(n - 3)
  }

  /**
   How many `=` the encoding of `n` bytes ends with: the bytes missing from
   the last group, so that `Groups(n)` is the ceiling of `n / 3`.
   */
  function PadCount(n: nat): (p: nat)
    ensures p <= 2 && 3 * Groups(n) == n + p
  {
    if n == 0 then 0 else if n == 1 then 2 else if n == 2 then 1 else if n == 3 then 0 else PadCount(n - 3)
  }

  /** There is no padding exactly when the length is a multiple of three. */
  lemma {:induction false} NoPaddingIffMultipleOfThree(n: nat)
    ensures PadCount(n) == 0 <==> n % 3 == 0
  {
    if n > 3 {
      NoPaddingIffMultipleOfThree(n - 3);
    }
  }

  /** Three bytes as four symbols. */
  function EncodeGroup(b0: Byte, b1: Byte, b2: Byte): seq<char>
  {
    [Symbol(b0 / 4), Symbol((b0 % 4) * 16 + b1 / 16), Symbol((b1 % 16) * 4 + b2 / 64), Symbol(b2 % 64)]
  }

  /** The padded encoding. */
  function Encode(data: seq<Byte>): seq<char>
    decreases |data|
  {
    if |data| == 0 then []
    else if |data| == 1 then
      [Symbol(data[0] / 4), Symbol((data[0] % 4) * 16), '=', '=']
    else if |data| == 2 then
      [Symbol(data[0] / 4), Symbol((data[0] % 4) * 16 + data[1] / 16), Symbol((data[1] % 16) * 4), '=']
    else
      EncodeGroup(data[0], data[1], data[2]) + Encode(data[3..])
  }

  /**
   The shape of the encoding: four symbols for every started group of three
   bytes, all from the alphabet except the `=` that complete a short final
   group.
   */
  lemma {:induction false} EncodeShape(data: seq<Byte>)
    ensures |Encode(data)| == 4 * Groups(|data|)
    ensures forall i :: 0 <= i < |Encode(data)| - PadCount(|data|) ==> IsSymbol(Encode(data)[i])
    ensures forall i :: |Encode(data)| - PadCount(|data|) <= i < |Encode(data)| ==> Encode(data)[i] == '='
    decreases |data|
  {
    if |data| >= 3 {
      var tail := data[3..];
      EncodeShape(tail);
      var g := EncodeGroup(data[0], data[1], data[2]);
      var t := Encode(tail);
      assert Encode(data) == g + t;
      forall i | 0 <= i < |g + t| - PadCount(|data|)
        ensures IsSymbol((g + t)[i])
      {
        if i >= 4 {
          assert (g + t)[i] == t[i - 4];
        }
      }
      forall i | |g + t| - PadCount(|data|) <= i < |g + t|
        ensures (g + t)[i] == '='
      {
        assert (g + t)[i] == t[i - 4];
      }
    }
  }

  /** Four symbol values as three bytes. */
  function DecodeGroup(v0: int, v1: int, v2: int, v3: int): seq<Byte>
    requires 0 <= v0 < 64 && 0 <= v1 < 64 && 0 <= v2 < 64 && 0 <= v3 < 64
  {
    var b0: Byte := v0 * 4 + v1 / 16;
    var b1: Byte := (v1 % 16) * 16 + v2 / 4;
    var b2: Byte := (v2 % 4) * 64 + v3;
    [b0, b1, b2]
  }

  /** The last four characters, which may end in one or two `=`. */
  function DecodeLast(q: seq<char>): (r: Option<seq<Byte>>)
    requires |q| == 4
    ensures r.Some? ==> 1 <= |r.value| <= 3
  {
    if !IsSymbol(q[0]) || !IsSymbol(q[1]) then None
    else if q[2] == '=' && q[3] == '=' then
      var b0: Byte := SymbolValue(q[0]) * 4 + SymbolValue(q[1]) / 16;
      Some([b0])
    else if !IsSymbol(q[2]) then None
    else if q[3] == '=' then
      var b0: Byte := SymbolValue(q[0]) * 4 + SymbolValue(q[1]) / 16;
      var b1: Byte := (SymbolValue(q[1]) % 16) * 16 + SymbolValue(q[2]) / 4;
      Some([b0, b1])
    else if !IsSymbol(q[3]) then None
    else Some(DecodeGroup(SymbolValue(q[0]), SymbolValue(q[1]), SymbolValue(q[2]), SymbolValue(q[3])))
  }

  /**
   The padded decoding: groups of four symbols, padding only in the last
   group; anything else is rejected.
   */
  function Decode(s: seq<char>): Option<seq<Byte>>
    decreases |s|
  {
    if |s| == 0 then Some([])
    else if |s| < 4 then None
    else if |s| == 4 then DecodeLast(s)
    else if !(IsSymbol(s[0]) && IsSymbol(s[1]) && IsSymbol(s[2]) && IsSymbol(s[3])) then None
    else
      match Decode(s[4..])
      case None => None
      case Some(rest) =>
        Some(DecodeGroup(SymbolValue(s[0]), SymbolValue(s[1]), SymbolValue(s[2]), SymbolValue(s[3])) + rest)
  }

  /** The second symbol holds the low 2 bits of the first byte and the high 4 of the second. */
  lemma SplitFirst(b0: Byte, b1: Byte)
    ensures 0 <= (b0 % 4) * 16 + b1 / 16 < 64
    ensures ((b0 % 4) * 16 + b1 / 16) / 16 == b0 % 4
    ensures ((b0 % 4) * 16 + b1 / 16) % 16 == b1 / 16
  {
  }

  /** The third symbol holds the low 4 bits of the second byte and the high 2 of the third. */
  lemma SplitSecond(b1: Byte, b2: Byte)
    ensures 0 <= (b1 % 16) * 4 + b2 / 64 < 64
    ensures ((b1 % 16) * 4 + b2 / 64) / 4 == b1 % 16
    ensures ((b1 % 16) * 4 + b2 / 64) % 4 == b2 / 64
  {
  }

  /** Cutting three bytes into four 6-bit values and joining them again is the identity. */
  lemma SplitJoin(b0: Byte, b1: Byte, b2: Byte)
    ensures DecodeGroup(b0 / 4, (b0 % 4) * 16 + b1 / 16, (b1 % 16) * 4 + b2 / 64, b2 % 64) == [b0, b1, b2]
  {
    SplitFirst(b0, b1);
    SplitSecond(b1, b2);
  }

  /** Three bytes survive a trip through four symbols. */
  lemma GroupRoundTrip(b0: Byte, b1: Byte, b2: Byte)
    ensures DecodeGroup(SymbolValue(EncodeGroup(b0, b1, b2)[0]), SymbolValue(EncodeGroup(b0, b1, b2)[1]),
                        SymbolValue(EncodeGroup(b0, b1, b2)[2]), SymbolValue(EncodeGroup(b0, b1, b2)[3]))
         == [b0, b1, b2]
  {
    SymbolRoundTrip(b0 / 4);
    SymbolRoundTrip((b0 % 4) * 16 + b1 / 16);
    SymbolRoundTrip((b1 % 16) * 4 + b2 / 64);
    SymbolRoundTrip(b2 % 64);
    SplitJoin(b0, b1, b2);
  }

  /** A final single byte survives its `xx==` group. */
  lemma OneByteRoundTrip(b0: Byte)
    ensures Decode(Encode([b0])) == Some([b0])
  {
    SymbolRoundTrip(b0 / 4);
    SymbolRoundTrip((b0 % 4) * 16);
    assert ((b0 % 4) * 16) / 16 == b0 % 4;
  }

  /** A final pair of bytes survives its `xxx=` group. */
  lemma TwoByteRoundTrip(b0: Byte, b1: Byte)
    ensures Decode(Encode([b0, b1])) == Some([b0, b1])
  {
    var v1 := (b0 % 4) * 16 + b1 / 16;
    var v2 := (b1 % 16) * 4;
    SymbolRoundTrip(b0 / 4);
    SplitFirst(b0, b1);
    SplitSecond(b1, 0);
    SymbolRoundTrip(v1);
    SymbolRoundTrip(v2);
    var s := Encode([b0, b1]);
    assert s[2] != '=' && s[3] == '=';
    assert Decode(s) == DecodeLast(s);
  }

  /** A final full group decodes through `DecodeLast`. */
  lemma ThreeByteRoundTrip(b0: Byte, b1: Byte, b2: Byte)
    ensures Decode(Encode([b0, b1, b2])) == Some([b0, b1, b2])
  {
    var g := EncodeGroup(b0, b1, b2);
    GroupRoundTrip(b0, b1, b2);
    assert [b0, b1, b2][3..] == [];
    assert Encode([b0, b1, b2]) == g + [];
    assert g + [] == g;
    assert IsSymbol(g[2]) && IsSymbol(g[3]);
    assert Decode(g) == DecodeLast(g);
  }

  /** A full group in front of a non-empty tail decodes in front of the tail's decoding. */
  lemma DecodeGroupThen(b0: Byte, b1: Byte, b2: Byte, t: seq<char>, rest: seq<Byte>)
    requires |t| >= 4 && Decode(t) == Some(rest)
    ensures Decode(EncodeGroup(b0, b1, b2) + t) == Some([b0, b1, b2] + rest)
  {
    var g := EncodeGroup(b0, b1, b2);
    var s := g + t;
    GroupRoundTrip(b0, b1, b2);
    assert s[4..] == t;
    assert s[0] == g[0] && s[1] == g[1] && s[2] == g[2] && s[3] == g[3];
  }

  lemma SplitThree(data: seq<Byte>)
    requires |data| >= 3
    ensures data == [data[0], data[1], data[2]] + data[3..]
  {
  }

  /** One group in front of the tail: the inductive step of `DecodeEncode`. */
  lemma DecodeEncodeStep(data: seq<Byte>)
    requires |data| > 3 && Decode(Encode(data[3..])) == Some(data[3..])
    ensures Decode(Encode(data)) == Some(data)
  {
    var tail := data[3..];
    assert Encode(data) == EncodeGroup(data[0], data[1], data[2]) + Encode(tail);
    EncodeShape(tail);
    DecodeGroupThen(data[0], data[1], data[2], Encode(tail), tail);
    SplitThree(data);
  }

  /** Inputs of at most three bytes: one final group. */
  lemma ShortRoundTrip(data: seq<Byte>)
    requires |data| <= 3
    ensures Decode(Encode(data)) == Some(data)
  {
    if |data| == 1 {
      ShortRoundTrip1(data);
    } else if |data| == 2 {
      ShortRoundTrip2(data);
    } else if |data| == 3 {
      ShortRoundTrip3(data);
    }
  }

  lemma ShortRoundTrip1(data: seq<Byte>)
    requires |data| == 1
    ensures Decode(Encode(data)) == Some(data)
  {
    assert data == [data[0]];
    OneByteRoundTrip(data[0]);
  }

  lemma ShortRoundTrip2(data: seq<Byte>)
    requires |data| == 2
    ensures Decode(Encode(data)) == Some(data)
  {
    assert data == [data[0], data[1]];
    TwoByteRoundTrip(data[0], data[1]);
  }

  lemma ShortRoundTrip3(data: seq<Byte>)
    requires |data| == 3
    ensures Decode(Encode(data)) == Some(data)
  {
    assert data == [data[0], data[1], data[2]];
    ThreeByteRoundTrip(data[0], data[1], data[2]);
  }

  /** Decoding the encoding gives back the original bytes. */
  lemma {:induction false} DecodeEncode(data: seq<Byte>)
    ensures Decode(Encode(data)) == Some(data)
    decreases |data|
  {
    if |data| <= 3 {
      ShortRoundTrip(data);
    } else {
      DecodeEncode(data[3..]);
      DecodeEncodeStep(data);
    }
  }

  /** The `=` a decoder appends to an unpadded string of length `n` before decoding it. */
  function Padding(n: nat): (p: seq<char>)
    ensures |p| <= 2 && forall i :: 0 <= i < |p| ==> p[i] == '='
  {
    if n >= 4 then Padding(n - 4) else if n == 2 then "==" else if n == 3 then "=" else ""
  }

  /** Removing `p` characters from `g` full groups leaves a string that needs `p` of padding back. */
  lemma {:induction false} PaddingRestores(g: nat, p: nat)
    requires p <= 2 && (p == 0 || g >= 1)
    ensures |Padding(4 * g - p)| == p
    decreases g
  {
    if g >= 2 {
      PaddingRestores(g - 1, p);
      assert 4 * g - p - 4 == 4 * (g - 1) - p;
    }
  }

  /** The encoding with its trailing `=` removed: four symbols per three bytes, rounded up. */
  function EncodeUnpadded(data: seq<Byte>): (s: seq<char>)
    ensures |s| == |data| + Groups(|data|)
    ensures forall i :: 0 <= i < |s| ==> IsSymbol(s[i])
    ensures s + Padding(|s|) == Encode(data)
  {
    EncodeShape(data);
    var e := Encode(data);
    var p := PadCount(|data|);
    var s := e[..|e| - p];
    PaddingRestores(Groups(|data|), p);
    var tail, pad := e[|s|..], Padding(|s|);
    assert |tail| == p == |pad|;
    forall i | 0 <= i < p
      ensures tail[i] == pad[i]
    {
      assert tail[i] == e[|s| + i] == '=';
    }
    assert tail == pad;
    assert e == s + e[|s|..];
    s
  }

  /** Decoding of the unpadded form: restore the padding, then decode. */
  function DecodeUnpadded(s: seq<char>): Option<seq<Byte>>
  {
    Decode(s + Padding(|s|))
  }

  /** The unpadded form decodes back to the original bytes. */
  lemma UnpaddedRoundTrip(data: seq<Byte>)
    ensures DecodeUnpadded(EncodeUnpadded(data)) == Some(data)
    ensures '=' !in EncodeUnpadded(data)
  {
    DecodeEncode(data);
  }

  /**
   The padded encoding contains `=` exactly when the length is not a
   multiple of three, and then differs from the unpadded form.
   */
  lemma PaddedUnlessMultipleOfThree(data: seq<Byte>)
    ensures '=' in Encode(data) <==> |data| % 3 != 0
    ensures |data| % 3 != 0 ==> Encode(data) != EncodeUnpadded(data)
  {
    EncodeShape(data);
    NoPaddingIffMultipleOfThree(|data|);
    var e := Encode(data);
    if PadCount(|data|) != 0 {
      assert e[|e| - 1] == '=';
    } else {
      assert forall i :: 0 <= i < |e| ==> IsSymbol(e[i]);
    }
  }

  /**
   Known answers from section 10 of RFC 4648 (`f`, `fo`, `foo`, `foob`),
   and two bytes whose encoding uses both characters the URL-safe alphabet
   of section 5 puts in place of `+` and `/`.
   */
  lemma KnownAnswers()
    ensures Encode([]) == ""
    ensures Encode([102]) == "Zg=="
    ensures Encode([102, 111]) == "Zm8="
    ensures Encode([102, 111, 111]) == "Zm9v"
    ensures Encode([102, 111, 111, 98]) == "Zm9vYg=="
    ensures Encode([0xfb, 0xff]) == "-_8="
  {
    var foob: seq<Byte> := [102, 111, 111, 98];
    assert foob[3..] == [98];
  }
}
