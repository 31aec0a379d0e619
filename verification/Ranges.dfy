/**
 * Key ranges: `string_plus_one` (src/v3/Action.cpp), `make_request_with_ranges`
 * (etcd/v3/Action.hpp) and the range rules of proto/rpc.proto.
 */
module Ranges {
  import opened Bytes

  datatype Option<+T> = None | Some(value: T)

  /** The one-byte string `\0`, which etcd reads as "no end". */
  const NUL: bytes := [0]

  datatype Range = Range(key: bytes, rangeEnd: bytes)

  /** etcd's rule for the keys a request addresses (proto/rpc.proto:400-407). */
  predicate Selects(r: Range, k: bytes) {
    if r.rangeEnd == [] then k == r.key
    else AtMost(r.key, k) && (r.rangeEnd == NUL || Less(k, r.rangeEnd))
  }

  // ----- the bound above a prefix

  /** The bound above every string with prefix `p`, if there is one. */
  function Successor(p: bytes): Option<bytes> {
    if p == [] then None
    else match Successor(p[1..])
      case Some(t) => Some([p[0]] + t)
      case None => if p[0] < MAX_BYTE then Some([p[0] + 1]) else None
  }

  /** `t` lies strictly above every string that starts with `p`. */
  ghost predicate IsBound(p: bytes, t: bytes) {
    forall k: bytes :: p <= k ==> Less(k, t)
  }

  predicate AllMax(s: bytes) {
    forall i :: 0 <= i < |s| ==> s[i] == MAX_BYTE
  }

  lemma {:induction false} SuccessorNone(p: bytes)
    ensures Successor(p) == None <==> AllMax(p)
  {
    if p != [] {
      SuccessorNone(p[1..]);
      assert AllMax(p) <==> p[0] == MAX_BYTE && AllMax(p[1..]) by {
        assert p == [p[0]] + p[1..];
      }
    }
  }

  /** The last byte below 0xff is the one that is raised; what follows it is dropped. */
  lemma {:induction false} SuccessorAt(p: bytes, i: nat)
    requires i < |p| && p[i] < MAX_BYTE && AllMax(p[i + 1..])
    ensures Successor(p) == Some(p[..i] + [p[i] + 1])
  {
    if i == 0 {
      SuccessorNone(p[1..]);
      assert p[..0] + [p[0] + 1] == [p[0] + 1];
    } else {
      assert p[1..][i..] == p[i + 1..];
      SuccessorAt(p[1..], i - 1);
      assert p[..i] + [p[i] + 1] == [p[0]] + (p[1..][..i - 1] + [p[i] + 1]);
    }
  }

  /** Between `p` and its successor lie exactly the strings that start with `p`. */
  lemma {:induction false} SuccessorExact(p: bytes, k: bytes)
    requires Successor(p).Some?
    ensures p <= k <==> AtMost(p, k) && Less(k, Successor(p).value)
  {
    var b := Successor(p).value;
    if k == [] {
    } else {
      assert p == [p[0]] + p[1..] && k == [k[0]] + k[1..];
      assert p <= k <==> p[0] == k[0] && p[1..] <= k[1..];
      if p[0] == k[0] {
        assert AtMost(p, k) <==> AtMost(p[1..], k[1..]);
        if Successor(p[1..]).Some? {
          SuccessorExact(p[1..], k[1..]);
          assert b[1..] == Successor(p[1..]).value;
        } else {
          SuccessorNone(p[1..]);
          AboveAllMax(p[1..], k[1..]);
        }
      } else if Successor(p[1..]).None? && k[0] == p[0] + 1 {
        assert b[1..] == [];
      }
    }
  }

  /** Above an all-0xff string lie only its own extensions. */
  lemma {:induction false} AboveAllMax(p: bytes, k: bytes)
    requires AllMax(p)
    ensures p <= k <==> AtMost(p, k)
  {
    if p != [] && k != [] {
      assert p == [p[0]] + p[1..] && k == [k[0]] + k[1..];
      AboveAllMax(p[1..], k[1..]);
    }
  }

  /** No string that is not longer than an all-0xff string lies above it. */
  lemma {:induction false} NothingAbove(k: bytes, t: bytes)
    requires AllMax(k) && |t| <= |k|
    ensures !Less(k, t)
  {
    if t != [] {
      NothingAbove(k[1..], t[1..]);
    }
  }

  /** The successor is the least bound, and it exists whenever any bound does. */
  lemma SuccessorIsLeastBound(p: bytes)
    ensures Successor(p).Some? <==> exists t :: IsBound(p, t)
    ensures Successor(p).Some? ==> IsBound(p, Successor(p).value)
    ensures forall t :: Successor(p).Some? && IsBound(p, t) ==> AtMost(Successor(p).value, t)
  {
    match Successor(p) {
      case Some(b) =>
        forall k | p <= k ensures Less(k, b) {
          SuccessorExact(p, k);
        }
        assert IsBound(p, b);
        forall t | IsBound(p, t) ensures AtMost(b, t) {
          AtMostIsNotGreater(b, t);
          if Less(t, b) {
            assert AtMost(p, t);
            SuccessorExact(p, t);
            Irreflexive(t);
            assert false;
          }
        }
      case None =>
        SuccessorNone(p);
        forall t ensures !IsBound(p, t) {
          var k := p + seq(|t|, _ => MAX_BYTE);
          NothingAbove(k, t);
          assert p <= k;
        }
    }
  }

  /** A 32-bit signed reading of a size. */
  function Int32(n: int): (r: int)
    ensures -0x8000_0000 <= r < 0x8000_0000
    ensures -0x8000_0000 <= n < 0x8000_0000 ==> r == n
    ensures 0 <= n ==> r <= n
  {
    (n + 0x8000_0000) % 0x1_0000_0000 - 0x8000_0000
  }

  /** The bound a request carries: the successor, or the "no end" sentinel. */
  function PlusOne(p: bytes): bytes {
    match Successor(p) case Some(b) => b case None => NUL
  }

  /**
   * `string_plus_one`. The index is a 32-bit signed integer, so a string longer than 2^31 bytes would
   * be cut first; no protobuf message is that long.
   */
  method StringPlusOne(value: bytes) returns (r: bytes)
    ensures |value| <= 0x8000_0000 ==> r == PlusOne(value)
  {
    var i := Int32(|value| - 1);
    while 0 <= i
      invariant i < |value|
      invariant |value| <= 0x8000_0000 ==> -1 <= i && AllMax(value[i + 1..])
      decreases i
    {
      if value[i] < 0xff {
        var s := value[..i + 1];
        s := s[i := s[i] + 1];
        if |value| <= 0x8000_0000 {
          SuccessorAt(value, i);
          assert s == value[..i] + [value[i] + 1];
        }
        return s;
      }
      i := i - 1;
    }
    SuccessorNone(value);
    return NUL;
  }

  /**
   * The bound is the least string above the whole prefix exactly when there is one; the sentinel
   * stands for "no bound exists" and is never a bound itself.
   */
  lemma PlusOneBound(p: bytes)
    ensures (exists t :: IsBound(p, t)) <==> PlusOne(p) != NUL
    ensures PlusOne(p) != NUL ==> IsBound(p, PlusOne(p)) && forall t :: IsBound(p, t) ==> AtMost(PlusOne(p), t)
    ensures PlusOne(p) == NUL <==> AllMax(p)
  {
    SuccessorIsLeastBound(p);
    SuccessorNone(p);
    SuccessorIsNotNul(p);
  }

  lemma {:induction false} SuccessorIsNotNul(p: bytes)
    ensures Successor(p) != Some(NUL) && Successor(p) != Some([])
  {
    if p != [] {
      SuccessorIsNotNul(p[1..]);
      match Successor(p[1..]) {
        case Some(t) => assert ([p[0]] + t)[1..] == t;
        case None =>
      }
    }
  }

  // ----- filling in a request

  /** The two fields every ranged request has. */
  function RangesFor(key: bytes, rangeEnd: bytes, recursive: bool): Range {
    Range(if recursive && key == [] then NUL else key,
          if rangeEnd != [] then rangeEnd
          else if !recursive then []
          else if key == [] then NUL
          else PlusOne(key))
  }

  /** A protobuf request with a `key` and a `range_end`; both start out empty. */
  class RangedRequest {
    var key: bytes
    var rangeEnd: bytes

    constructor ()
      ensures AsRange() == Range([], [])
    {
      key, rangeEnd := [], [];
    }

    function AsRange(): Range
      reads this
    {
      Range(key, rangeEnd)
    }
  }

  /** `make_request_with_ranges`, on a request whose range fields are still unset. */
  method MakeRequestWithRanges(req: RangedRequest, key: bytes, rangeEnd: bytes, recursive: bool)
    requires req.AsRange() == Range([], [])
    modifies req
    ensures |key| <= 0x8000_0000 ==> req.AsRange() == RangesFor(key, rangeEnd, recursive)
  {
    if !recursive {
      req.key := key;
    } else if key == [] {
      req.key := NUL;
      req.rangeEnd := NUL;
    } else {
      req.key := key;
      var bound := StringPlusOne(key);
      req.rangeEnd := bound;
    }
    if rangeEnd != [] {
      req.rangeEnd := rangeEnd;
    }
  }

  lemma NulIsLeastKey(k: bytes)
    requires k != []
    ensures AtMost(NUL, k)
  {
    assert NUL[1..] == [] && k == [k[0]] + k[1..];
  }

  /**
   * Prefix selection is exact: a recursive request without an explicit end selects precisely the
   * stored keys (which are never empty) that start with the requested key, be that key empty,
   * all 0xff or anything else.
   */
  lemma PrefixSelectionIsExact(key: bytes, k: bytes)
    requires k != []
    ensures Selects(RangesFor(key, [], true), k) <==> key <= k
  {
    SuccessorNone(key);
    SuccessorIsNotNul(key);
    if key == [] {
      NulIsLeastKey(k);
    } else if Successor(key).Some? {
      SuccessorExact(key, k);
    } else {
      AboveAllMax(key, k);
    }
  }

  /** A plain request addresses its key alone. */
  lemma SingleSelection(key: bytes, k: bytes)
    ensures Selects(RangesFor(key, [], false), k) <==> k == key
  {
  }

  /**
   * An explicit end wins over `recursive`: with or without it the stored keys selected are those from
   * `key` up to that end.
   */
  lemma ExplicitEndWins(key: bytes, rangeEnd: bytes, recursive: bool, k: bytes)
    requires rangeEnd != [] && k != []
    ensures Selects(RangesFor(key, rangeEnd, recursive), k)
            <==> AtMost(key, k) && (rangeEnd == NUL || Less(k, rangeEnd))
  {
    if key == [] {
      NulIsLeastKey(k);
    }
  }
}
