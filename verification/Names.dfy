/** sorted(set(names)): strings in lexicographic order without repetition. */
module Names {

  predicate Less(a: string, b: string) {
    if |b| == 0 then false
    else if |a| == 0 then true
    else if a[0] != b[0] then a[0] < b[0]
    else Less(a[1..], b[1..])
  }

  lemma {:induction false} LessTotal(a: string, b: string)
    ensures a == b || Less(a, b) || Less(b, a)
    ensures !(Less(a, b) && Less(b, a)) && !Less(a, a)
    decreases |a|
  {
    if |a| > 0 {
      LessTotal(a[1..], a[1..]);
      if |b| > 0 {
        LessTotal(a[1..], b[1..]);
        assert a == [a[0]] + a[1..] && b == [b[0]] + b[1..];
      }
    }
  }

  lemma {:induction false} LessTransitive(a: string, b: string, c: string)
    requires Less(a, b) && Less(b, c)
    ensures Less(a, c)
  {
    if |a| > 0 && a[0] == b[0] == c[0] {
      LessTransitive(a[1..], b[1..], c[1..]);
    }
  }

  /** A name is below another exactly when it is a proper prefix of it or has the smaller character where
      they first differ. */
  lemma {:induction false} LessIs(a: string, b: string)
    ensures Less(a, b) <==>
      a < b || exists i :: 0 <= i < |a| && i < |b| && a[..i] == b[..i] && a[i] < b[i]
  {
    if |a| > 0 && |b| > 0 {
      if a[0] == b[0] {
        LessIs(a[1..], b[1..]);
        assert a == [a[0]] + a[1..] && b == [b[0]] + b[1..];
        assert a < b <==> a[1..] < b[1..];
        if i :| 0 <= i < |a[1..]| && i < |b[1..]| && a[1..][..i] == b[1..][..i] && a[1..][i] < b[1..][i] {
          assert a[..i + 1] == [a[0]] + a[1..][..i] && b[..i + 1] == [b[0]] + b[1..][..i];
          assert a[..i + 1] == b[..i + 1] && a[i + 1] < b[i + 1];
        }
        if i :| 0 <= i < |a| && i < |b| && a[..i] == b[..i] && a[i] < b[i] {
          assert a[1..][..i - 1] == a[..i][1..] == b[..i][1..] == b[1..][..i - 1];
          assert a[1..][i - 1] < b[1..][i - 1];
        }
      } else {
        assert a[..0] == b[..0];
        if i :| 0 <= i < |a| && i < |b| && a[..i] == b[..i] && a[i] < b[i] {
          assert i > 0 ==> a[..i][0] == b[..i][0];
        }
      }
    }
  }

  function Insert(x: string, s: seq<string>): seq<string> {
    if |s| == 0 then [x]
    else if x == s[0] then s
    else if Less(x, s[0]) then [x] + s
    else [s[0]] + Insert(x, s[1..])
  }

  function SortedSet(names: seq<string>): seq<string> {
    if |names| == 0 then [] else Insert(names[|names| - 1], SortedSet(names[..|names| - 1]))
  }

  /** Each name is below all later ones. */
  ghost predicate Ascending(s: seq<string>) {
    |s| == 0 || ((forall x <- s[1..] :: Less(s[0], x)) && Ascending(s[1..]))
  }

  lemma {:induction false} InsertKeepsOrder(x: string, s: seq<string>)
    requires Ascending(s)
    ensures Ascending(Insert(x, s)) && forall y :: y in Insert(x, s) <==> y in s || y == x
  {
    if |s| > 0 {
      LessTotal(x, s[0]);
      if x == s[0] {
      } else if Less(x, s[0]) {
        forall y | y in s ensures Less(x, y) {
          if y != s[0] {
            LessTransitive(x, s[0], y);
          }
        }
        assert ([x] + s)[1..] == s;
      } else {
        InsertKeepsOrder(x, s[1..]);
        assert Insert(x, s)[1..] == Insert(x, s[1..]);
        assert forall y :: y in Insert(x, s) <==> y == s[0] || y in Insert(x, s[1..]);
      }
    }
  }

  lemma {:induction false} SortedSetIs(names: seq<string>)
    ensures Ascending(SortedSet(names)) && forall y :: y in SortedSet(names) <==> y in names
  {
    if |names| > 0 {
      var front, x := names[..|names| - 1], names[|names| - 1];
      SortedSetIs(front);
      InsertKeepsOrder(x, SortedSet(front));
      assert names == front + [x];
    }
  }

  lemma {:induction false} AscendingAt(s: seq<string>, i: nat, j: nat)
    requires Ascending(s) && i < j < |s|
    ensures Less(s[i], s[j])
  {
    if i > 0 {
      AscendingAt(s[1..], i - 1, j - 1);
    } else {
      assert s[j] == s[1..][j - 1] && s[1..][j - 1] in s[1..];
    }
  }

  lemma FirstIsMember(s: seq<string>)
    ensures |s| > 0 ==> s[0] in s
  {
  }

  /** Two ascending lists with the same members are the same list. */
  lemma {:induction false} AscendingUnique(a: seq<string>, b: seq<string>)
    requires Ascending(a) && Ascending(b) && forall y :: y in a <==> y in b
    ensures a == b
    decreases |a|
  {
    FirstIsMember(b);
    if |a| > 0 {
      assert a[0] in a && a[0] in b && b[0] in a;
      assert a[0] == b[0] by {
        LessTotal(a[0], b[0]);
      }
      LessTotal(a[0], a[0]);
      forall y ensures y in a[1..] <==> y in b[1..] {
        assert y in a <==> y == a[0] || y in a[1..];
        assert y in b <==> y == b[0] || y in b[1..];
      }
      AscendingUnique(a[1..], b[1..]);
    }
  }
}
