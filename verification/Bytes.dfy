/** Byte strings and the big-endian integers of the write-ahead log. */
module Bytes {

  type byte = x: int | 0 <= x < 256

  datatype Option<+T> = None | Some(value: T)

  const TWO_32: int := 0x1_0000_0000
  const TWO_63: int := 0x8000_0000_0000_0000
  const TWO_64: int := 0x1_0000_0000_0000_0000

  function Pow256(k: nat): nat {
    if k == 0 then 1 else 256 * Pow256(k - 1)
  }

  /** The low k bytes of n, most significant first. */
  function BigEndian(k: nat, n: nat): (b: seq<byte>)
    ensures |b| == k
  {
    if k == 0 then [] else BigEndian(k - 1, n / 256) + [n % 256]
  }

  function FromBigEndian(b: seq<byte>): nat {
    if b == [] then 0 else 256 * FromBigEndian(b[..|b| - 1]) + b[|b| - 1]
  }

  lemma {:induction false} BigEndianRoundTrip(k: nat, n: nat)
    requires n < Pow256(k)
    ensures FromBigEndian(BigEndian(k, n)) == n
  {
    if k > 0 {
      BigEndianRoundTrip(k - 1, n / 256);
      var b := BigEndian(k, n);
      assert b[..|b| - 1] == BigEndian(k - 1, n / 256);
    }
  }

  lemma Widths()
    ensures Pow256(4) == TWO_32
    ensures Pow256(8) == TWO_64
  {
    assert Pow256(2) == 65536;
    assert Pow256(4) == 256 * (256 * Pow256(2));
    assert Pow256(6) == 256 * (256 * Pow256(4));
    assert Pow256(8) == 256 * (256 * Pow256(6));
  }

  /** The parts of a concatenation are where the lengths before them say they are. */
  lemma Slices<T>(a: seq<T>, b: seq<T>, c: seq<T>, d: seq<T>, e: seq<T>, rest: seq<T>)
    ensures var s := a + b + c + d + e + rest; var i := |a| + |b|; var j := i + |c| + |d|;
            && s[..|a|] == a
            && s[|a|..i] == b
            && s[i..i + |c|] == c
            && s[i + |c|..j] == d
            && s[j..j + |e|] == e
  {
  }

  lemma SubsetSize<T>(a: set<T>, b: set<T>)
    requires a <= b
    ensures |a| <= |b|
  {
    assert b == a + (b - a);
  }

  lemma Assoc<T>(a: seq<T>, b: seq<T>, c: seq<T>)
    ensures a + (b + c) == (a + b) + c
  {
  }

  lemma Regroup<T>(a: seq<T>, b: seq<T>, c: seq<T>, d: seq<T>)
    ensures a + b + c + d == a + b + (c + d)
    ensures a + b + c + d == a + (b + c) + d
  {
  }

  /** A signed 64-bit value as its two's complement word, and back. */
  function ToWord(n: int): nat {
    n % TWO_64
  }

  function FromWord(w: nat): int {
    if w < TWO_63 then w else w - TWO_64
  }
}
