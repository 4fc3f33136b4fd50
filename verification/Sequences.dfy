/** Facts about sequences of sequences that the models share. */
module Sequences {

  /** The elements of all the parts, in order. */
  function Flat<T>(parts: seq<seq<T>>): seq<T> {
    if parts == [] then [] else parts[0] + Flat(parts[1..])
  }

  lemma {:induction false} FlatConcat<T>(a: seq<seq<T>>, b: seq<seq<T>>)
    ensures Flat(a + b) == Flat(a) + Flat(b)
  {
    if a == [] {
      assert a + b == b;
    } else {
      assert (a + b)[1..] == a[1..] + b;
      FlatConcat(a[1..], b);
    }
  }

  lemma FlatAppend<T>(a: seq<seq<T>>, part: seq<T>)
    ensures Flat(a + [part]) == Flat(a) + part
  {
    FlatConcat(a, [part]);
    assert Flat([part]) == part + Flat([part][1..]) == part;
  }

  lemma Associative<T>(a: seq<T>, b: seq<T>, c: seq<T>)
    ensures (a + b) + c == a + (b + c)
  {
  }

  lemma AssociativeMiddle<T>(a: seq<T>, b: seq<T>, c: seq<T>, d: seq<T>)
    ensures (a + b) + (c + d) == a + ((b + c) + d)
  {
  }

  lemma AssociativeLast<T>(a: seq<T>, b: seq<T>, c: seq<T>, d: seq<T>)
    ensures a + (b + (c + d)) == (a + (b + c)) + d
  {
  }

  lemma AppendInside<T>(a: seq<T>, b: seq<T>, c: seq<T>, d: seq<T>, e: seq<T>, more: seq<T>)
    ensures a + (b + (c + (d + (e + more)))) == (a + (b + (c + (d + e)))) + more
  {
  }
}
