/**
 Octets, byte strings and the small helpers every other module shares:
 an Option/Result pair for error paths, concatenation of chunk lists and the
 2-byte big-endian unsigned integer used by the TCP length prefix
 (`struct.pack('!H', n)` / `struct.unpack('!H', b)`).
 */
module Bytes {

  /** One octet. */
  type Byte = b: int | 0 <= b < 256

  /** The largest value a 2-byte unsigned prefix can carry. */
  const MaxUint16: int := 65535

  datatype Option<+T> = None | Some(value: T)

  datatype Result<+R, +E> = Success(value: R) | Failure(error: E)

  /** `b''.join(chunks)`: the in-order concatenation of a list of chunks. */
  function Concat(chunks: seq<seq<Byte>>): (r: seq<Byte>)
  {
    if |chunks| == 0 then [] else Concat(chunks[..|chunks| - 1]) + chunks[|chunks| - 1]
  }

  /** Regrouping a concatenation of three sequences. */
  lemma Associative<T>(a: seq<T>, b: seq<T>, c: seq<T>)
    ensures a + (b + c) == (a + b) + c
  {
  }

  /** The first `k + 1` elements are the head followed by the first `k` of the tail. */
  lemma TakeCons<T>(s: seq<T>, k: nat)
    requires k < |s|
    ensures s[..k + 1] == [s[0]] + s[1..][..k]
  {
  }

  /** Concatenation distributes over appending lists of chunks. */
  lemma {:induction false} ConcatAppend(a: seq<seq<Byte>>, b: seq<seq<Byte>>)
    ensures Concat(a + b) == Concat(a) + Concat(b)
    decreases |b|
  {
    if |b| == 0 {
      assert a + b == a;
    } else {
      var b' := b[..|b| - 1];
      assert (a + b)[..|a + b| - 1] == a + b';
      ConcatAppend(a, b');
    }
  }

  /** Concatenating one more chunk at the front puts its bytes first. */
  lemma ConcatCons(c: seq<Byte>, rest: seq<seq<Byte>>)
    ensures Concat([c] + rest) == c + Concat(rest)
  {
    ConcatAppend([c], rest);
    assert Concat([c]) == Concat([]) + c;
  }

  /** The two bytes of `struct.pack('!H', n)`: high byte first. */
  function PackUint16(n: int): (r: seq<Byte>)
    requires 0 <= n <= MaxUint16
    ensures |r| == 2
    ensures r[0] as int * 256 + r[1] as int == n
  {
    var hi: Byte := n / 256;
    var lo: Byte := n % 256;
    [hi, lo]
  }

  /** `struct.unpack('!H', b[:2])[0]`: the big-endian value of two bytes. */
  function UnpackUint16(hi: Byte, lo: Byte): (n: int)
    ensures 0 <= n <= MaxUint16
  {
    hi as int * 256 + lo as int
  }

  /** Unpacking a packed count gives the count back. */
  lemma UnpackPack(n: int)
    requires 0 <= n <= MaxUint16
    ensures UnpackUint16(PackUint16(n)[0], PackUint16(n)[1]) == n
  {
  }

  /** Packing an unpacked pair of bytes gives the pair back. */
  lemma PackUnpack(hi: Byte, lo: Byte)
    ensures PackUint16(UnpackUint16(hi, lo)) == [hi, lo]
  {
  }
}
