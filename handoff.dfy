/**
 The value-level meaning of the handoff loops in state.rs.
 `ZipAssign(dst, src)` is the output array `dst` after the loop: the loop walks
 the output and the arena in step, stops at the end of the shorter one, and
 overwrites each visited output entry with `Some` of the matching arena record.
 */
module Handoff {
  import opened Wrappers

  /** No two positions of `s` hold the same element. */
  ghost predicate Distinct<T>(s: seq<T>) {
    forall i, j :: 0 <= i < j < |s| ==> s[i] != s[j]
  }

  /** No element of `a` is an element of `b`. */
  ghost predicate Disjoint<T>(a: seq<T>, b: seq<T>) {
    forall i, j :: 0 <= i < |a| && 0 <= j < |b| ==> a[i] != b[j]
  }

  /** `n` empty slots: the handoff array before the loop. */
  function Vacant<T>(n: nat): seq<Option<T>> {
    seq(n, _ => None)
  }

  /** `dst` after the zip loop has stored `Some(src[k])` at every index both reach. */
  function ZipAssign<T>(dst: seq<Option<T>>, src: seq<T>): (r: seq<Option<T>>)
    ensures |r| == |dst|
  {
    if dst == [] || src == [] then dst
    else [Some(src[0])] + ZipAssign(dst[1..], src[1..])
  }

  /** Entry `k` of the result: the source element when the zip reached it, the old entry otherwise. */
  lemma {:induction false} ZipAssignAt<T>(dst: seq<Option<T>>, src: seq<T>, k: nat)
    requires k < |dst|
    ensures ZipAssign(dst, src)[k] == if k < |src| then Some(src[k]) else dst[k]
  {
    if dst != [] && src != [] && k > 0 {
      ZipAssignAt(dst[1..], src[1..], k - 1);
    }
  }

  /** When the source is at least as long as the destination, every entry is overwritten, in order. */
  lemma {:induction false} ZipAssignFills<T>(dst: seq<Option<T>>, src: seq<T>)
    requires |dst| <= |src|
    ensures forall k :: 0 <= k < |dst| ==> ZipAssign(dst, src)[k] == Some(src[k])
  {
    forall k | 0 <= k < |dst| ensures ZipAssign(dst, src)[k] == Some(src[k]) {
      ZipAssignAt(dst, src, k);
    }
  }

  /** A filled result hands out each source element at most once exactly when the source has no repeats. */
  lemma {:induction false} ZipAssignDistinct<T>(dst: seq<Option<T>>, src: seq<T>)
    requires |dst| <= |src|
    ensures Distinct(ZipAssign(dst, src)) <==> Distinct(src[..|dst|])
  {
    ZipAssignFills(dst, src);
  }

  /** Filled results over two disjoint sources never share an entry. */
  lemma {:induction false} ZipAssignDisjoint<T>(dst: seq<Option<T>>, a: seq<T>, b: seq<T>)
    requires |dst| <= |a| && |dst| <= |b|
    requires Disjoint(a, b)
    ensures forall i, j :: 0 <= i < |dst| && 0 <= j < |dst| ==> ZipAssign(dst, a)[i] != ZipAssign(dst, b)[j]
  {
    ZipAssignFills(dst, a);
    ZipAssignFills(dst, b);
  }
}
