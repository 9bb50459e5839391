/** Bytes, and the few sequence notions shared by the other modules. */
module Bytes {

  newtype byte = b: int | 0 <= b < 0x100

  datatype Option<+T> = None | Some(value: T)

  function Min(a: nat, b: nat): nat {
    if a < b then a else b
  }

  /** `needle` lies in `hay` at index `k`. */
  predicate OccursAt(needle: seq<byte>, hay: seq<byte>, k: nat) {
    k + |needle| <= |hay| && hay[k..k + |needle|] == needle
  }

  /** `needle` is a contiguous part of `hay`. */
  predicate Occurs(needle: seq<byte>, hay: seq<byte>) {
    exists k | 0 <= k <= |hay| :: OccursAt(needle, hay, k)
  }

  /** A part stays a part when bytes are added behind. */
  lemma OccursGrows(needle: seq<byte>, hay: seq<byte>, more: seq<byte>)
    requires Occurs(needle, hay)
    ensures Occurs(needle, hay + more)
  {
    var k :| 0 <= k <= |hay| && OccursAt(needle, hay, k);
    assert (hay + more)[k..k + |needle|] == hay[k..k + |needle|];
    assert OccursAt(needle, hay + more, k);
  }

  lemma OccursPrefix(part: seq<byte>, needle: seq<byte>, hay: seq<byte>, k: nat)
    requires part <= needle && OccursAt(needle, hay, k)
    ensures OccursAt(part, hay, k)
  {
    assert needle[..|part|] == part;
    assert hay[k..k + |part|] == hay[k..k + |needle|][..|part|];
  }

  lemma OccursSuffix(head: seq<byte>, part: seq<byte>, hay: seq<byte>, k: nat)
    requires OccursAt(head + part, hay, k)
    ensures OccursAt(part, hay, k + |head|)
  {
    var needle := head + part;
    assert needle[|head|..] == part;
    assert hay[k + |head|..k + |needle|] == hay[k..k + |needle|][|head|..];
  }

  lemma OccursShift(needle: seq<byte>, front: seq<byte>, hay: seq<byte>, k: nat)
    requires k + |needle| <= |hay|
    ensures OccursAt(needle, hay, k) <==> OccursAt(needle, front + hay, |front| + k)
  {
    assert (front + hay)[|front| + k..|front| + k + |needle|] == hay[k..k + |needle|];
  }
}
