/** Bytes and the byte-wise order of Go strings, shared by the tree, bytecode and allowlist models. */
module Bytes {

  type Byte = x: int | 0 <= x < 256

  /** Go's `a > b` on strings: first differing byte decides, and a string exceeds its own proper prefixes. */
  predicate Greater(a: seq<Byte>, b: seq<Byte>) {
    if a == [] then false
    else if b == [] then true
    else if a[0] != b[0] then a[0] > b[0]
    else Greater(a[1..], b[1..])
  }

  /** The order is a strict total order: of two different strings exactly one is greater. */
  lemma {:induction false} GreaterIsTotal(a: seq<Byte>, b: seq<Byte>)
    ensures a != b ==> (Greater(a, b) <==> !Greater(b, a))
    ensures a == b ==> !Greater(a, b)
  {
    if a != [] && b != [] && a[0] == b[0] {
      assert a == [a[0]] + a[1..] && b == [b[0]] + b[1..];
      GreaterIsTotal(a[1..], b[1..]);
    }
  }

  /** The first byte that differs decides. */
  lemma {:induction false} FirstDifferenceDecides(a: seq<Byte>, b: seq<Byte>, n: nat)
    requires n < |a| && n < |b| && a[..n] == b[..n] && a[n] != b[n]
    ensures Greater(a, b) <==> a[n] > b[n]
  {
    if n > 0 {
      assert a[0] == a[..n][0] && b[0] == b[..n][0];
      assert a[1..][..n - 1] == a[..n][1..] && b[1..][..n - 1] == b[..n][1..];
      FirstDifferenceDecides(a[1..], b[1..], n - 1);
    }
  }

  /** A string exceeds its own proper prefixes. */
  lemma {:induction false} GreaterThanPrefix(a: seq<Byte>, rest: seq<Byte>)
    requires rest != []
    ensures Greater(a + rest, a) && !Greater(a, a + rest)
  {
    if a == [] {
      assert a + rest == rest;
    } else {
      assert (a + rest)[1..] == a[1..] + rest;
      GreaterThanPrefix(a[1..], rest);
    }
  }
}
