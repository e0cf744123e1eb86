/** What several of the models share. */
module Basics {

  datatype Option<T> = None | Some(value: T)

  function Min(a: int, b: int): int { if a < b then a else b }

  function Max(a: int, b: int): int { if a < b then b else a }

  ghost predicate NoDups<T>(q: seq<T>) {
    forall i, j | 0 <= i < j < |q| :: q[i] != q[j]
  }

  /** A list without an element. */
  function Without(q: seq<nat>, id: nat): (r: seq<nat>)
    ensures forall x :: x in r <==> x in q && x != id
    ensures id !in q ==> r == q
  {
    if q == [] then [] else
      var rest := Without(q[1..], id);
      assert q == [q[0]] + q[1..];
      if q[0] == id then rest else [q[0]] + rest
  }

  lemma {:induction false} WithoutNoDups(q: seq<nat>, id: nat)
    requires NoDups(q)
    ensures NoDups(Without(q, id))
  {
    if q != [] {
      var r := Without(q[1..], id);
      WithoutNoDups(q[1..], id);
      assert q[0] !in r;
      assert forall i | 0 < i < |[q[0]] + r| :: ([q[0]] + r)[i] == r[i - 1] && r[i - 1] in r;
    }
  }

  lemma WithoutHead(q: seq<nat>)
    requires q != [] && NoDups(q)
    ensures Without(q, q[0]) == q[1..] && q[0] !in q[1..]
  {
    assert q[0] !in q[1..];
  }
}
