// Cutting a stream into pieces: chunks as the network delivers them, and segments that each
// carry one item. A relation is prefix-free when no segment of it starts another.

module Segments {
  import opened Strings

  function Cat(pieces: seq<string>): string {
    if pieces == [] then "" else pieces[0] + Cat(pieces[1..])
  }

  lemma {:induction false} CatSnoc(pieces: seq<string>, last: string)
    ensures Cat(pieces + [last]) == Cat(pieces) + last
    decreases pieces
  {
    if pieces == [] {
      assert [] + [last] == [last] && [last][1..] == [] && last + "" == last;
    } else {
      assert (pieces + [last])[1..] == pieces[1..] + [last];
      CatSnoc(pieces[1..], last);
      Assoc(pieces[0], Cat(pieces[1..]), last);
    }
  }

  lemma ShorterPrefix(b: string, more: string, all: string)
    requires b + more <= all
    ensures b <= all
  {
    assert b == (b + more)[..|b|];
  }

  // Segment k carries item k.
  predicate Carry<T>(carries: (string, T) -> bool, segments: seq<string>, items: seq<T>) {
    && |segments| == |items|
    && forall k | 0 <= k < |segments| :: carries(segments[k], items[k])
  }

  ghost predicate PrefixFree<T(!new)>(carries: (string, T) -> bool) {
    forall a, x, b, y | carries(a, x) && carries(b, y) && a <= b :: a == b && x == y
  }

  lemma CarrySnoc<T>(carries: (string, T) -> bool, segments: seq<string>, items: seq<T>, segment: string, item: T)
    requires Carry(carries, segments, items) && carries(segment, item)
    ensures Carry(carries, segments + [segment], items + [item])
  {
  }

  lemma CarryRest<T>(carries: (string, T) -> bool, segments: seq<string>, items: seq<T>)
    requires Carry(carries, segments, items) && segments != []
    ensures Carry(carries, segments[1..], items[1..]) && carries(segments[0], items[0])
  {
  }

  lemma DropFirst(segments: seq<string>, left: string, stream: string)
    requires segments != [] && Cat(segments) + left <= stream
    ensures segments[0] <= stream && Cat(segments[1..]) + left <= stream[|segments[0]|..]
  {
    var a, more := segments[0], Cat(segments[1..]) + left;
    Assoc(a, Cat(segments[1..]), left);
    ShorterPrefix(a, more, stream);
    assert more == (a + more)[|a|..];
  }

  lemma SameFirst<T(!new)>(carries: (string, T) -> bool, a: string, x: T, b: string, y: T, stream: string)
    requires PrefixFree(carries) && carries(a, x) && carries(b, y) && a <= stream && b <= stream
    ensures a == b && x == y
  {
    assert |a| <= |b| ==> a <= b;
    assert |b| <= |a| ==> b <= a;
  }

  // A stream divides into segments of a prefix-free relation in one way only.
  lemma {:induction false} SegmentsAgree<T(!new)>(carries: (string, T) -> bool, stream: string, k: nat,
                                            a: seq<string>, xs: seq<T>, s: string,
                                            b: seq<string>, ys: seq<T>, t: string)
    requires PrefixFree(carries) && Carry(carries, a, xs) && Carry(carries, b, ys)
    requires Cat(a) + s <= stream && Cat(b) + t <= stream && k < |a| && k < |b|
    ensures a[k] == b[k] && xs[k] == ys[k]
    decreases k
  {
    CarryRest(carries, a, xs);
    CarryRest(carries, b, ys);
    DropFirst(a, s, stream);
    DropFirst(b, t, stream);
    SameFirst(carries, a[0], xs[0], b[0], ys[0], stream);
    if k > 0 {
      SegmentsAgree(carries, stream[|a[0]|..], k - 1, a[1..], xs[1..], s, b[1..], ys[1..], t);
    }
  }
}
