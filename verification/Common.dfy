/** Vocabulary shared by all modules. */
module Common {

  type byte = x: int | 0 <= x < 256

  datatype Option<+T> = None | Some(value: T)

  /** What became of a sent packet (QuicDeliveryState). */
  datatype Delivery = Acked | Lost

  function Min(a: int, b: int): int { if a < b then a else b }

  function Max(a: int, b: int): int { if a < b then b else a }

  /** The integers in the half-open interval from a to b. */
  function Span(a: int, b: int): (r: set<int>)
    ensures forall x :: x in r <==> a <= x < b
  {
    set x | a <= x < b && Within(a, x, b)
  }

  predicate Within(a: int, x: int, b: int) { a <= x < b }

  /** The first integer at or after a that is missing from keys. */
  function RunEnd(keys: set<int>, a: int): (b: int)
    ensures a <= b && b !in keys && Span(a, b) <= keys
    decreases |set x | x in keys && x >= a|
  {
    if a in keys then
      assert (set x | x in keys && x >= a) == (set x | x in keys && x >= a + 1) + {a};
      RunEnd(keys, a + 1)
    else
      a
  }

  /** The contract of RunEnd has only one solution. */
  lemma RunEndUnique(keys: set<int>, a: int, b: int)
    requires a <= b && b !in keys && Span(a, b) <= keys
    ensures RunEnd(keys, a) == b
  {
    var c := RunEnd(keys, a);
    assert b < c ==> b in Span(a, c);
    assert c < b ==> c in Span(a, b);
  }

  lemma NonEmpty(p: set<int>)
    requires p != {}
    ensures exists x :: x in p
  {
    assert (forall x :: x !in p) ==> p == {};
  }

  ghost function Least(p: set<int>): (a: int)
    requires p != {}
    ensures a in p && forall x | x in p :: a <= x
    decreases |p|
  {
    NonEmpty(p);
    var x :| x in p;
    assert p == p - {x} + {x};
    if p == {x} then x else Min(x, Least(p - {x}))
  }

  lemma RemainderUnique(v: nat, d: nat, q: nat, r: nat)
    requires d > 0 && v == d * q + r && r < d
    ensures v % d == r && v / d == q
  {
    var q', r' := v / d, v % d;
    assert v == d * q' + r';
    assert q < q' ==> d * q' >= d * (q + 1) == d * q + d;
    assert q' < q ==> d * q >= d * (q' + 1) == d * q' + d;
  }
}
