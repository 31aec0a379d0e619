/** Byte strings in the order etcd keeps its keys: lexicographic, on unsigned bytes. */
module Bytes {

  type byte = b: int | 0 <= b < 256
  type bytes = seq<byte>

  const MAX_BYTE: byte := 0xff

  predicate Less(a: bytes, b: bytes) {
    b != [] && (a == [] || a[0] < b[0] || (a[0] == b[0] && Less(a[1..], b[1..])))
  }

  predicate AtMost(a: bytes, b: bytes) {
    a == b || Less(a, b)
  }

  lemma {:induction false} Irreflexive(a: bytes)
    ensures !Less(a, a)
  {
    if a != [] {
      Irreflexive(a[1..]);
    }
  }

  lemma {:induction false} Transitive(a: bytes, b: bytes, c: bytes)
    requires Less(a, b) && Less(b, c)
    ensures Less(a, c)
  {
    if a != [] && a[0] == b[0] == c[0] {
      Transitive(a[1..], b[1..], c[1..]);
    }
  }

  lemma {:induction false} Total(a: bytes, b: bytes)
    ensures Less(a, b) || a == b || Less(b, a)
  {
    if a != [] && b != [] && a[0] == b[0] {
      Total(a[1..], b[1..]);
      assert a == [a[0]] + a[1..] && b == [b[0]] + b[1..];
    }
  }

  /** The order is antisymmetric, so `AtMost` is the complement of the reversed `Less`. */
  lemma AtMostIsNotGreater(a: bytes, b: bytes)
    ensures AtMost(a, b) <==> !Less(b, a)
  {
    Total(a, b);
    Irreflexive(a);
    if Less(a, b) && Less(b, a) {
      Transitive(a, b, a);
    }
  }

  /** A string is never below its own prefix. */
  lemma {:induction false} PrefixAtMost(p: bytes, k: bytes)
    requires p <= k
    ensures AtMost(p, k)
  {
    if p != [] {
      assert p[0] == k[0];
      PrefixAtMost(p[1..], k[1..]);
      assert p[1..] == k[1..] ==> p == k by {
        assert p == [p[0]] + p[1..] && k == [k[0]] + k[1..];
      }
    }
  }
}
