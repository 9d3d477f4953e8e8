/** Route lists of `pkg/ingress/routing/availablecapacity.go`: sorted by topology slot, searched by
    bisection, and what a picker makes of them. */
module CapacityRoutes {

  datatype Route = Route(leaf: nat, available: nat)

  ghost predicate Ordered(routes: seq<Route>) {
    forall i, j :: 0 <= i < j < |routes| ==> routes[i].leaf < routes[j].leaf
  }

  /** The available concurrency by leaf. */
  function Shares(routes: seq<Route>): map<nat, nat> {
    if routes == [] then map[] else Shares(routes[..|routes| - 1])[routes[|routes| - 1].leaf := routes[|routes| - 1].available]
  }

  lemma {:induction false} SharesAt(routes: seq<Route>)
    requires Ordered(routes)
    ensures forall i :: 0 <= i < |routes| ==> routes[i].leaf in Shares(routes) && Shares(routes)[routes[i].leaf] == routes[i].available
    ensures forall leaf :: leaf in Shares(routes) ==> exists i :: 0 <= i < |routes| && routes[i].leaf == leaf
  {
    if routes == [] {
    } else {
      var n := |routes| - 1;
      SharesAt(routes[..n]);
      forall leaf | leaf in Shares(routes) ensures exists i :: 0 <= i < |routes| && routes[i].leaf == leaf {
        if leaf != routes[n].leaf {
          var i :| 0 <= i < n && routes[..n][i].leaf == leaf;
          assert routes[i].leaf == leaf;
        }
      }
    }
  }

  /** The place of a leaf in a list. */
  ghost predicate IsSlot(routes: seq<Route>, leaf: nat, i: nat) {
    && i <= |routes| && (forall k :: 0 <= k < i ==> routes[k].leaf < leaf)
    && (forall k :: i <= k < |routes| ==> routes[k].leaf >= leaf)
  }

  /** routeSlot. */
  method RouteSlot(routes: seq<Route>, leaf: nat) returns (lo: nat)
    requires Ordered(routes)
    ensures IsSlot(routes, leaf, lo)
  {
    lo := 0;
    var hi := |routes|;
    while lo < hi
      invariant lo <= hi <= |routes|
      invariant forall k :: 0 <= k < lo ==> routes[k].leaf < leaf
      invariant forall k :: hi <= k < |routes| ==> routes[k].leaf >= leaf
    {
      var mid := (lo + hi) / 2;
      if routes[mid].leaf < leaf { lo := mid + 1; } else { hi := mid; }
    }
  }

  /** The list with the leaf's share set, or taken out, at its place `i`. */
  function Put(routes: seq<Route>, i: nat, leaf: nat, available: nat): seq<Route>
    requires i <= |routes|
  {
    if i < |routes| && routes[i].leaf == leaf then routes[i := Route(leaf, available)]
    else routes[..i] + [Route(leaf, available)] + routes[i..]
  }

  function Cut(routes: seq<Route>, i: nat, leaf: nat): seq<Route>
    requires i <= |routes|
  {
    if i < |routes| && routes[i].leaf == leaf then routes[..i] + routes[i + 1..] else routes
  }

  lemma {:induction false} SharesConcat(a: seq<Route>, b: seq<Route>)
    ensures Shares(a + b) == Shares(a) + Shares(b)
    decreases |b|
  {
    if b == [] {
      assert a + b == a;
    } else {
      SharesConcat(a, b[..|b| - 1]);
      assert (a + b)[..|a + b| - 1] == a + b[..|b| - 1];
    }
  }

  lemma {:induction false} NoShare(routes: seq<Route>, leaf: nat)
    requires forall k :: 0 <= k < |routes| ==> routes[k].leaf != leaf
    ensures leaf !in Shares(routes)
  {
    if routes == [] {
    } else {
      NoShare(routes[..|routes| - 1], leaf);
    }
  }

  /** A list around one of its entries, or around a gap. */
  lemma SharesAround(left: seq<Route>, mid: seq<Route>, right: seq<Route>, leaf: nat)
    requires mid == [] || (exists x :: mid == [Route(leaf, x)])
    requires (forall k :: 0 <= k < |left| ==> left[k].leaf != leaf) && forall k :: 0 <= k < |right| ==> right[k].leaf != leaf
    ensures Shares(left + mid + right) - {leaf} == Shares(left + right)
    ensures leaf in Shares(left + mid + right) <==> mid != []
    ensures mid != [] ==> Shares(left + mid + right)[leaf] == mid[0].available
  {
    SharesConcat(left + mid, right);
    SharesConcat(left, mid);
    SharesConcat(left, right);
    NoShare(left, leaf);
    NoShare(right, leaf);
    assert Shares(mid) == if mid == [] then map[] else map[leaf := mid[0].available] by {
      if mid != [] { assert mid[..0] == []; }
    }
  }

  lemma SplitAt(routes: seq<Route>, leaf: nat, i: nat) returns (left: seq<Route>, mid: seq<Route>, right: seq<Route>)
    requires Ordered(routes) && IsSlot(routes, leaf, i)
    ensures routes == left + mid + right && left == routes[..i] && Ordered(left + right)
    ensures mid == if i < |routes| && routes[i].leaf == leaf then [Route(leaf, routes[i].available)] else []
    ensures (forall k :: 0 <= k < |left| ==> left[k].leaf < leaf) && forall k :: 0 <= k < |right| ==> right[k].leaf > leaf
  {
    left := routes[..i];
    if i < |routes| && routes[i].leaf == leaf {
      mid, right := [routes[i]], routes[i + 1..];
    } else {
      mid, right := [], routes[i..];
    }
  }

  lemma MapSet(r: map<nat, nat>, s: map<nat, nat>, k: nat, v: nat)
    requires r - {k} == s - {k} && k in r && r[k] == v
    ensures r == s[k := v]
  {
    forall x | x != k ensures (x in r <==> x in s) && (x in r ==> r[x] == s[x]) {
      assert x in r <==> x in r - {k};
      assert x in s <==> x in s - {k};
    }
  }

  lemma PutOk(routes: seq<Route>, i: nat, leaf: nat, available: nat)
    requires Ordered(routes) && IsSlot(routes, leaf, i)
    ensures Ordered(Put(routes, i, leaf, available))
    ensures Shares(Put(routes, i, leaf, available)) == Shares(routes)[leaf := available]
  {
    var left, mid, right := SplitAt(routes, leaf, i);
    var r := Put(routes, i, leaf, available);
    assert r == left + [Route(leaf, available)] + right;
    SharesAround(left, mid, right, leaf);
    SharesAround(left, [Route(leaf, available)], right, leaf);
    MapSet(Shares(r), Shares(routes), leaf, available);
  }

  lemma CutOk(routes: seq<Route>, i: nat, leaf: nat)
    requires Ordered(routes) && IsSlot(routes, leaf, i)
    ensures Ordered(Cut(routes, i, leaf)) && Shares(Cut(routes, i, leaf)) == Shares(routes) - {leaf}
  {
    var left, mid, right := SplitAt(routes, leaf, i);
    assert Cut(routes, i, leaf) == left + right;
    SharesAround(left, mid, right, leaf);
  }
}
