// Integer spans and how many points their products have.
module Boxes {

  function Span(lo: int, hi: int): (s: set<int>)
    ensures forall i :: i in s <==> lo <= i <= hi
    decreases hi - lo
  {
    if hi < lo then {} else Span(lo, hi - 1) + {hi}
  }

  lemma {:induction false} SpanCard(lo: int, hi: int)
    requires lo <= hi + 1
    ensures |Span(lo, hi)| == hi - lo + 1
    decreases hi - lo
  {
    if lo <= hi { SpanCard(lo, hi - 1); }
  }

  function Pairs<A, B>(a: set<A>, b: set<B>): set<(A, B)> { set x, y | x in a && y in b :: (x, y) }

  lemma InPairs<A, B>(a: set<A>, b: set<B>, p: (A, B))
    ensures p in Pairs(a, b) <==> p.0 in a && p.1 in b
  {
    assert p == (p.0, p.1);
  }

  lemma {:induction false} RowCard<A, B>(x: A, b: set<B>)
    ensures |Pairs({x}, b)| == |b|
  {
    if b == {} {
      assert Pairs({x}, b) == {};
    } else {
      var y :| y in b;
      RowCard(x, b - {y});
      assert Pairs({x}, b) == Pairs({x}, b - {y}) + {(x, y)};
    }
  }

  lemma PairsSplit<A, B>(a: set<A>, x: A, b: set<B>)
    requires x in a
    ensures |Pairs(a, b)| == |Pairs(a - {x}, b)| + |Pairs({x}, b)|
  {
    assert Pairs(a, b) == Pairs(a - {x}, b) + Pairs({x}, b);
    assert Pairs(a - {x}, b) !! Pairs({x}, b);
  }

  lemma {:induction false} PairsCard<A, B>(a: set<A>, b: set<B>)
    ensures |Pairs(a, b)| == |a| * |b|
  {
    if a == {} {
      assert Pairs(a, b) == {};
    } else {
      var x :| x in a;
      PairsCard(a - {x}, b);
      RowCard(x, b);
      PairsSplit(a, x, b);
      OneMore(|a - {x}|, |b|);
    }
  }

  lemma OneMore(m: nat, n: nat)
    ensures m * n + n == (m + 1) * n
  {
  }
}
