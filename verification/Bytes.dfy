/**
 Bytes, network-order integers and concatenation of byte strings: the vocabulary
 shared by the buffer, the codecs and the zone-file reader.
 */
module Bytes {

  type byte = x: int | 0 <= x < 256
  type bytes = seq<byte>

  datatype Option<+T> = None | Some(value: T) {
    predicate IsFailure() {
      None?
    }

    function PropagateFailure<U>(): Option<U>
      requires None?
    {
      None
    }

    function Extract(): T
      requires Some?
    {
      value
    }
  }

  /** The bytes of an ASCII literal. */
  function Ascii(s: string): bytes {
    seq(|s|, i requires 0 <= i < |s| => s[i] as int % 256)
  }

  function Flatten(ss: seq<bytes>): bytes {
    if ss == [] then [] else ss[0] + Flatten(ss[1..])
  }

  lemma {:induction false} FlattenAppend(a: seq<bytes>, b: seq<bytes>)
    ensures Flatten(a + b) == Flatten(a) + Flatten(b)
  {
    if a == [] {
      assert a + b == b;
    } else {
      assert (a + b)[1..] == a[1..] + b;
      FlattenAppend(a[1..], b);
    }
  }

  lemma FlattenSingleton(a: bytes)
    ensures Flatten([a]) == a
  {
    assert [a][1..] == [];
    assert Flatten([a]) == a + Flatten([]);
  }

  function Pow256(n: nat): (r: nat)
    ensures r >= 1
    ensures n >= 1 ==> r % 2 == 0
  {
    if n == 0 then 1 else 256 * Pow256(n - 1)
  }

  /** The n low-order bytes of u, most significant first. */
  function ToBE(u: nat, n: nat): (s: bytes)
    ensures |s| == n
  {
    if n == 0 then [] else ToBE(u / 256, n - 1) + [u % 256]
  }

  function FromBE(s: bytes): nat {
    if s == [] then 0 else 256 * FromBE(s[..|s| - 1]) + s[|s| - 1]
  }

  lemma {:induction false} FromToBE(u: nat, n: nat)
    requires u < Pow256(n)
    ensures FromBE(ToBE(u, n)) == u
  {
    if n > 0 {
      FromToBE(u / 256, n - 1);
      assert ToBE(u, n)[..n - 1] == ToBE(u / 256, n - 1);
    }
  }

  lemma {:induction false} ToFromBE(s: bytes)
    ensures FromBE(s) < Pow256(|s|)
    ensures ToBE(FromBE(s), |s|) == s
  {
    if s != [] {
      var init, lo := s[..|s| - 1], s[|s| - 1];
      ToFromBE(init);
      LowByte(FromBE(init), lo);
      assert ToBE(FromBE(s), |s|) == ToBE(FromBE(init), |init|) + [lo];
      assert s == init + [lo];
    }
  }

  lemma LowByte(hi: nat, lo: byte)
    ensures (256 * hi + lo) / 256 == hi && (256 * hi + lo) % 256 == lo
  {
  }

  /** x is representable as an n-byte two's-complement integer. */
  predicate Fits(x: int, n: nat) {
    n >= 1 && -(Pow256(n) / 2) <= x < Pow256(n) / 2
  }

  /** Two's-complement network-order image of x. */
  function EncodeInt(x: int, n: nat): (s: bytes)
    requires Fits(x, n)
    ensures |s| == n
  {
    ToBE(if x < 0 then x + Pow256(n) else x, n)
  }

  function DecodeInt(s: bytes): int {
    var u := FromBE(s);
    if u >= Pow256(|s|) / 2 then u - Pow256(|s|) else u
  }

  lemma DecodeEncodeInt(x: int, n: nat)
    requires Fits(x, n)
    ensures DecodeInt(EncodeInt(x, n)) == x
  {
    FromToBE(if x < 0 then x + Pow256(n) else x, n);
  }

  lemma EncodeDecodeInt(s: bytes)
    requires s != []
    ensures Fits(DecodeInt(s), |s|) && EncodeInt(DecodeInt(s), |s|) == s
  {
    ToFromBE(s);
  }

  lemma Widths()
    ensures Pow256(1) == 0x100 && Pow256(2) == 0x1_0000 && Pow256(4) == 0x1_0000_0000
    ensures Pow256(8) == 0x1_0000_0000_0000_0000
  {
    assert Pow256(3) == 256 * Pow256(2);
    assert Pow256(5) == 256 * Pow256(4);
    assert Pow256(6) == 256 * Pow256(5);
    assert Pow256(7) == 256 * Pow256(6);
  }
}
