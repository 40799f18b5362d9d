/** Child lists as sequences: where a node stands, and what taking it out and putting it back does. */
module DomList {
  ghost predicate Distinct<T>(s: seq<T>) {
    forall i, j :: 0 <= i < j < |s| ==> s[i] != s[j]
  }

  /** The position of `x` in `s`. */
  function IndexOf<T(==)>(s: seq<T>, x: T): (i: nat)
    requires x in s
    ensures i < |s| && s[i] == x && x !in s[..i]
  {
    if s[0] == x then 0
    else
      var i := IndexOf(s[1..], x);
      assert s[..i + 1] == [s[0]] + s[1..][..i];
      i + 1
  }

  /** `s` after node.remove() on `x`. */
  function Removed<T(==)>(s: seq<T>, x: T): seq<T> {
    if |s| == 0 then [] else if s[0] == x then s[1..] else [s[0]] + Removed(s[1..], x)
  }

  ghost function Members<T>(s: seq<T>): set<T> {
    set x | x in s
  }

  lemma {:induction false} IndexOnRight<T>(a: seq<T>, b: seq<T>, x: T)
    requires x !in a && x in b
    ensures IndexOf(a + b, x) == |a| + IndexOf(b, x)
  {
    if |a| == 0 {
      assert a + b == b;
    } else {
      IndexOnRight(a[1..], b, x);
      assert (a + b)[1..] == a[1..] + b;
    }
  }

  lemma {:induction false} RemovedOnRight<T>(a: seq<T>, b: seq<T>, x: T)
    requires x !in a
    ensures Removed(a + b, x) == a + Removed(b, x)
  {
    if |a| == 0 {
      assert a + b == b;
    } else {
      RemovedOnRight(a[1..], b, x);
      assert (a + b)[1..] == a[1..] + b;
      assert a == [a[0]] + a[1..];
    }
  }

  lemma {:induction false} RemovedAbsent<T>(s: seq<T>, x: T)
    requires x !in s
    ensures Removed(s, x) == s
  {
    if |s| > 0 {
      RemovedAbsent(s[1..], x);
    }
  }

  lemma {:induction false} RemovedMembers<T>(s: seq<T>, x: T)
    ensures forall y <- s :: y != x ==> y in Removed(s, x)
    ensures forall y <- Removed(s, x) :: y in s
  {
    if |s| > 0 && s[0] != x {
      RemovedMembers(s[1..], x);
    }
  }

  lemma {:induction false} RemovedDistinct<T>(s: seq<T>, x: T)
    requires Distinct(s)
    ensures Distinct(Removed(s, x)) && x !in Removed(s, x)
  {
    if |s| > 0 {
      if s[0] != x {
        RemovedDistinct(s[1..], x);
        RemovedMembers(s[1..], x);
        JoinDistinct([s[0]], Removed(s[1..], x));
      } else {
        assert s == [x] + s[1..];
        Apart([x], s[1..]);
      }
    }
  }

  lemma JoinDistinct<T>(a: seq<T>, b: seq<T>)
    requires Distinct(a) && Distinct(b) && forall x <- a :: x !in b
    ensures Distinct(a + b)
  {
    var r := a + b;
    forall i, j | 0 <= i < j < |r| ensures r[i] != r[j] {
      if i < |a| <= j {
        assert r[i] == a[i] && r[j] == b[j - |a|] && a[i] in a;
      }
    }
  }

  lemma PartsDistinct<T>(a: seq<T>, b: seq<T>)
    requires Distinct(a + b)
    ensures Distinct(a) && Distinct(b)
  {
    assert forall i :: 0 <= i < |a| ==> a[i] == (a + b)[i];
    assert forall i :: 0 <= i < |b| ==> b[i] == (a + b)[|a| + i];
  }

  lemma Apart<T>(a: seq<T>, b: seq<T>)
    requires Distinct(a + b)
    ensures forall x <- a :: x !in b
  {
    forall i, j | 0 <= i < |a| && 0 <= j < |b| ensures a[i] != b[j] {
      assert (a + b)[i] != (a + b)[|a| + j];
    }
  }

  lemma IndexDistinct<T>(s: seq<T>, i: nat)
    requires Distinct(s) && i < |s|
    ensures IndexOf(s, s[i]) == i
  {
  }

  /** The nodes of `s` that are not in `gone`, in the same order. */
  ghost function Without<T>(s: seq<T>, gone: set<T>): (r: seq<T>)
    ensures forall x <- r :: x in s && x !in gone
    ensures forall x <- s :: x !in gone ==> x in r
  {
    if |s| == 0 then []
    else if s[0] in gone then Without(s[1..], gone)
    else [s[0]] + Without(s[1..], gone)
  }

  lemma {:induction false} WithoutNone<T>(s: seq<T>, gone: set<T>)
    requires forall x <- s :: x !in gone
    ensures Without(s, gone) == s
  {
    if |s| > 0 {
      WithoutNone(s[1..], gone);
    }
  }

  /** Removing one unplaced node from what is left leaves what is left once it is placed. */
  lemma {:induction false} WithoutOneMore<T>(s: seq<T>, gone: set<T>, x: T)
    requires Distinct(s) && x in s && x !in gone
    ensures x in Without(s, gone)
    ensures Removed(Without(s, gone), x) == Without(s, gone + {x})
  {
    var rest := Without(s[1..], gone);
    if s[0] == x {
      WithoutSame(s[1..], gone, gone + {x});
    } else {
      WithoutOneMore(s[1..], gone, x);
      if s[0] !in gone {
        RemovedOnRight([s[0]], rest, x);
      }
    }
  }

  lemma {:induction false} WithoutSame<T>(s: seq<T>, g1: set<T>, g2: set<T>)
    requires forall x <- s :: x in g1 <==> x in g2
    ensures Without(s, g1) == Without(s, g2)
  {
    if |s| > 0 {
      WithoutSame(s[1..], g1, g2);
    }
  }

  lemma RemoveNext<T>(kept: seq<T>, rest: seq<T>, i: nat)
    requires i < |rest| && rest[i] !in kept
    ensures Removed(kept + rest[i..], rest[i]) == kept + rest[i + 1..]
  {
    RemovedOnRight(kept, rest[i..], rest[i]);
    assert rest[i..][1..] == rest[i + 1..];
  }

  lemma DistinctMove<T>(a: seq<T>, b: seq<T>, x: T)
    requires Distinct(a + b) && x in b
    ensures Distinct(a + [x] + Removed(b, x))
    ensures forall y <- a + [x] + Removed(b, x) :: y in a + b
  {
    Apart(a, b);
    PartsDistinct(a, b);
    RemovedDistinct(b, x);
    RemovedMembers(b, x);
    JoinDistinct(a, [x]);
    JoinDistinct(a + [x], Removed(b, x));
  }

  lemma DistinctInsert<T>(a: seq<T>, b: seq<T>, x: T)
    requires Distinct(a + b) && x !in a + b
    ensures Distinct(a + [x] + b)
  {
    Apart(a, b);
    PartsDistinct(a, b);
    JoinDistinct(a, [x]);
    JoinDistinct(a + [x], b);
  }

  /** Placing a node that is still waiting. */
  lemma PlaceWaiting<T>(placed: seq<T>, nodes: seq<T>, x: T)
    requires Distinct(nodes) && x in nodes && x !in placed
    requires Distinct(placed + Without(nodes, Members(placed)))
    ensures
      var rest, next := Without(nodes, Members(placed)), placed + [x];
      && x in rest && Removed(rest, x) == Without(nodes, Members(next))
      && Distinct(next + Removed(rest, x))
      && forall y <- next + Removed(rest, x) :: y in placed + rest
  {
    WithoutOneMore(nodes, Members(placed), x);
    assert Members(placed + [x]) == Members(placed) + {x};
    DistinctMove(placed, Without(nodes, Members(placed)), x);
  }

  /** Placing a node that was not there before. */
  lemma PlaceNew<T>(placed: seq<T>, nodes: seq<T>, x: T)
    requires x !in nodes && x !in placed
    requires Distinct(placed + Without(nodes, Members(placed)))
    ensures
      var rest, next := Without(nodes, Members(placed)), placed + [x];
      Removed(rest, x) == rest == Without(nodes, Members(next)) && Distinct(next + rest)
  {
    WithoutAbsent(placed, nodes, x);
    DistinctInsert(placed, Without(nodes, Members(placed)), x);
  }

  lemma WithoutAbsent<T>(placed: seq<T>, nodes: seq<T>, x: T)
    requires x !in nodes
    ensures
      var rest := Without(nodes, Members(placed));
      x !in rest && Removed(rest, x) == rest == Without(nodes, Members(placed + [x]))
  {
    RemovedAbsent(Without(nodes, Members(placed)), x);
    assert Members(placed + [x]) == Members(placed) + {x};
    WithoutSame(nodes, Members(placed), Members(placed) + {x});
  }

  /** Placing either kind of node: the order after it is put behind the placed ones. */
  lemma PlaceEither<T>(placed: seq<T>, nodes: seq<T>, x: T)
    requires Distinct(nodes) && x !in placed && Distinct(placed + Without(nodes, Members(placed)))
    ensures
      var rest, next := Without(nodes, Members(placed)), placed + [x];
      && Removed(rest, x) == Without(nodes, Members(next))
      && Distinct(next + Removed(rest, x))
      && forall y <- next + Removed(rest, x) :: y in placed + rest + [x]
  {
    if x in nodes {
      PlaceWaiting(placed, nodes, x);
    } else {
      PlaceNew(placed, nodes, x);
    }
  }

  /** Taking `x` out leaves the place right after `placed` where it was, in front of the first of `rest`. */
  lemma InsertSpot<T>(placed: seq<T>, rest: seq<T>, x: T)
    requires Distinct(placed + rest) && x !in placed && (|rest| > 0 ==> rest[0] != x)
    ensures
      var s := Removed(placed + rest, x);
      && s == placed + Removed(rest, x)
      && (|rest| > 0 ==> rest[0] in s && IndexOf(s, rest[0]) == |placed|)
  {
    RemovedOnRight(placed, rest, x);
    if |rest| > 0 {
      Apart(placed, rest);
      IndexOnRight(placed, Removed(rest, x), rest[0]);
    }
  }
}
