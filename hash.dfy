/** size_t hash values and the bitwise exclusive or build_tree combines
  * them with. */
module Hashing {
  /** The width of size_t. */
  const Width: nat := 64

  /** A size_t value as its bits, least significant first. */
  type Hash = s: seq<bool> | |s| == Width witness Zero()

  /** The hash 0. */
  function Zero(): (r: seq<bool>)
    ensures |r| == Width
    ensures forall k :: 0 <= k < |r| ==> !r[k]
  {
    seq(Width, k => false)
  }

  /** Bitwise exclusive or. */
  function Xor(a: Hash, b: Hash): (r: Hash)
    ensures forall k :: 0 <= k < Width ==> (r[k] <==> a[k] != b[k])
  {
    XorBits(a, b)
  }

  function XorBits(a: seq<bool>, b: seq<bool>): (r: seq<bool>)
    requires |a| == |b|
    ensures |r| == |a|
    ensures forall k :: 0 <= k < |r| ==> (r[k] <==> a[k] != b[k])
  {
    if a == [] then [] else [a[0] != b[0]] + XorBits(a[1..], b[1..])
  }

  /** Bit `k` of an 8-bit value. */
  function Bit(b: bv8, k: nat): bool {
    k < 8 && (b >> (k as bv8)) & 1 == 1
  }

  /** An 8-bit value widened to size_t: the low eight bits are the
    * value's own and the upper bits are clear. */
  function OfByte(b: bv8): (r: Hash)
    ensures forall k :: 0 <= k < 8 ==> r[k] == Bit(b, k)
    ensures forall k :: 8 <= k < Width ==> !r[k]
  {
    seq(Width, k requires 0 <= k < Width => Bit(b, k))
  }
}
