/**
 Sockets as the servers see them. The listening socket is only a status; a
 client connection is identified by the order in which it was accepted, so
 the `connections` list of the polling and selector servers (Python's
 `list.append` and `list.remove`) never holds one twice.
 */
module Connections {
  import opened Wrappers

  /** The listening socket: not yet created, open, or closed. */
  datatype Socket = NoSocket | Open | Closed

  type ConnId = nat

  /** No connection appears twice. */
  predicate Distinct(xs: seq<ConnId>) {
    forall i, j :: 0 <= i < j < |xs| ==> xs[i] != xs[j]
  }

  /** The position of the first occurrence of `x`. */
  function IndexOf(xs: seq<ConnId>, x: ConnId): (k: nat)
    requires x in xs
    ensures k < |xs| && xs[k] == x
    ensures forall i :: 0 <= i < k ==> xs[i] != x
  {
    if xs[0] == x then 0 else 1 + IndexOf(xs[1..], x)
  }

  /** `list.remove(x)`: drop the first occurrence; `ValueError` when `x` is absent. */
  function Remove(xs: seq<ConnId>, x: ConnId): (r: Result<seq<ConnId>, PyError>)
    ensures r.Success? <==> x in xs
    ensures r.Failure? ==> r.error == ValueError
    ensures r.Success? ==> |r.value| == |xs| - 1 && multiset(r.value) == multiset(xs) - multiset{x}
  {
    if x !in xs then Failure(ValueError)
    else
      var k := IndexOf(xs, x);
      assert xs == xs[..k] + [x] + xs[k + 1..];
      Success(xs[..k] + xs[k + 1..])
  }

  /** Removing keeps the other connections in their order. */
  lemma RemoveKeepsOrder(xs: seq<ConnId>, x: ConnId)
    requires x in xs
    ensures var k := IndexOf(xs, x);
      Remove(xs, x).value == xs[..k] + xs[k + 1..]
  {
  }

  /** Removing takes out one copy of `x` and nothing else. */
  lemma RemoveMembers(xs: seq<ConnId>, x: ConnId)
    requires x in xs
    ensures forall y :: y in xs && y != x ==> y in Remove(xs, x).value
    ensures forall y :: y in Remove(xs, x).value ==> y in xs
  {
    var r := Remove(xs, x).value;
    forall y | y in xs && y != x
      ensures y in r
    {
      assert y in multiset(xs);
    }
    forall y | y in r
      ensures y in xs
    {
      assert y in multiset(r);
    }
  }

  /** In a list without repeats, removing `x` removes it entirely and leaves a list without repeats. */
  lemma RemoveDistinct(xs: seq<ConnId>, x: ConnId)
    requires x in xs
    ensures Distinct(xs) ==> Distinct(Remove(xs, x).value) && x !in Remove(xs, x).value
  {
    var k := IndexOf(xs, x);
    var r := Remove(xs, x).value;
    assert r == xs[..k] + xs[k + 1..];
    if Distinct(xs) {
      forall i, j | 0 <= i < j < |r|
        ensures r[i] != r[j]
      {
        var i', j' := if i < k then i else i + 1, if j < k then j else j + 1;
        assert r[i] == xs[i'] && r[j] == xs[j'];
      }
      forall i | 0 <= i < |r|
        ensures r[i] != x
      {
        var i' := if i < k then i else i + 1;
        assert r[i] == xs[i'];
      }
    }
  }

  /** In a list without repeats, `remove` takes a connection out of its place and leaves the rest as it was. */
  lemma RemoveFromPlace(before: seq<ConnId>, x: ConnId, after: seq<ConnId>)
    requires Distinct(before + [x] + after)
    ensures Remove(before + [x] + after, x) == Success(before + after)
  {
    var xs := before + [x] + after;
    assert xs[|before|] == x;
    var k := IndexOf(xs, x);
    assert k == |before|;
    assert xs[..k] == before && xs[k + 1..] == after;
  }

  /** `list.append` of a connection newer than all listed keeps the list free of repeats. */
  lemma AppendFresh(xs: seq<ConnId>, x: ConnId)
    requires Distinct(xs) && forall i :: 0 <= i < |xs| ==> xs[i] < x
    ensures Distinct(xs + [x])
  {
  }
}
