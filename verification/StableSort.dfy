/** What Go's sort.SliceStable promises: the result is ordered, and elements of
    equal rank keep the order they came in. */
module StableSort {

  /** The elements of one rank, in the order they come. */
  function Tied<T>(s: seq<T>, rank: T -> int, r: int): seq<T> {
    if s == [] then []
    else if rank(s[|s| - 1]) == r then Tied(s[..|s| - 1], rank, r) + [s[|s| - 1]]
    else Tied(s[..|s| - 1], rank, r)
  }

  ghost predicate Ordered<T>(s: seq<T>, rank: T -> int) {
    forall i, j :: 0 <= i < j < |s| ==> rank(s[i]) <= rank(s[j])
  }

  /** Puts x after everything that does not rank above it. */
  function Insert<T>(s: seq<T>, x: T, rank: T -> int): seq<T> {
    if s == [] || rank(s[|s| - 1]) <= rank(x) then s + [x]
    else Insert(s[..|s| - 1], x, rank) + [s[|s| - 1]]
  }

  function Sort<T>(s: seq<T>, rank: T -> int): seq<T> {
    if s == [] then [] else Insert(Sort(s[..|s| - 1], rank), s[|s| - 1], rank)
  }

  lemma {:induction false} TiedSnoc<T>(s: seq<T>, x: T, rank: T -> int, r: int)
    ensures Tied(s + [x], rank, r) == Tied(s, rank, r) + if rank(x) == r then [x] else []
  {
    assert (s + [x])[..|s|] == s;
  }

  lemma {:induction false} InsertKeeps<T>(s: seq<T>, x: T, rank: T -> int)
    ensures multiset(Insert(s, x, rank)) == multiset(s) + multiset{x}
    ensures |Insert(s, x, rank)| == |s| + 1
  {
    if s == [] || rank(s[|s| - 1]) <= rank(x) {
    } else {
      InsertKeeps(s[..|s| - 1], x, rank);
      assert s == s[..|s| - 1] + [s[|s| - 1]];
    }
  }

  lemma {:induction false} InsertOrders<T>(s: seq<T>, x: T, rank: T -> int)
    requires Ordered(s, rank)
    ensures Ordered(Insert(s, x, rank), rank)
  {
    if s == [] || rank(s[|s| - 1]) <= rank(x) {
    } else {
      var front, last := s[..|s| - 1], s[|s| - 1];
      InsertOrders(front, x, rank);
      var t := Insert(front, x, rank);
      forall i | 0 <= i < |t| ensures rank(t[i]) <= rank(last) {
        InsertKeeps(front, x, rank);
        assert t[i] in multiset(t);
        assert t[i] in multiset(front) || t[i] == x;
      }
    }
  }

  lemma {:induction false} InsertIsStable<T>(s: seq<T>, x: T, rank: T -> int, r: int)
    ensures Tied(Insert(s, x, rank), rank, r) == Tied(s, rank, r) + if rank(x) == r then [x] else []
  {
    if s == [] || rank(s[|s| - 1]) <= rank(x) {
      TiedSnoc(s, x, rank, r);
    } else {
      var front, last := s[..|s| - 1], s[|s| - 1];
      InsertIsStable(front, x, rank, r);
      TiedSnoc(Insert(front, x, rank), last, rank, r);
      assert rank(x) == r ==> rank(last) != r;
    }
  }

  lemma {:induction false} SortOrders<T>(s: seq<T>, rank: T -> int)
    ensures Ordered(Sort(s, rank), rank)
  {
    if s == [] {
    } else {
      SortOrders(s[..|s| - 1], rank);
      InsertOrders(Sort(s[..|s| - 1], rank), s[|s| - 1], rank);
    }
  }

  lemma {:induction false} SortIsStable<T>(s: seq<T>, rank: T -> int, r: int)
    ensures Tied(Sort(s, rank), rank, r) == Tied(s, rank, r)
  {
    if s == [] {
    } else {
      SortIsStable(s[..|s| - 1], rank, r);
      InsertIsStable(Sort(s[..|s| - 1], rank), s[|s| - 1], rank, r);
    }
  }

  lemma {:induction false} SortKeeps<T>(s: seq<T>, rank: T -> int)
    ensures multiset(Sort(s, rank)) == multiset(s)
  {
    if s == [] {
    } else {
      hide Insert;
      var front, last := s[..|s| - 1], s[|s| - 1];
      SortKeeps(front, rank);
      InsertKeeps(Sort(front, rank), last, rank);
      assert multiset(front + [last]) == multiset(front) + multiset{last};
      assert s == front + [last];
    }
  }

  /** Order and stability together leave no choice: whatever sort the library runs,
      this is its result. */
  lemma {:induction false} OnlyOneStableSort<T>(s: seq<T>, t: seq<T>, rank: T -> int)
    requires Ordered(s, rank) && Ordered(t, rank)
    requires forall r :: Tied(s, rank, r) == Tied(t, rank, r)
    ensures s == t
  {
    if s == [] {
      TiesShow(t, rank);
    } else {
      var r := rank(s[|s| - 1]);
      assert Tied(s, rank, r) != [];
      TopIsLast(t, rank, r);
      var front, rest := s[..|s| - 1], t[..|t| - 1];
      assert Tied(t, rank, rank(t[|t| - 1])) != [];
      TopIsLast(s, rank, rank(t[|t| - 1]));
      assert Tied(s, rank, r)[|Tied(s, rank, r)| - 1] == s[|s| - 1];
      assert Tied(t, rank, r)[|Tied(t, rank, r)| - 1] == t[|t| - 1];
      forall q ensures Tied(front, rank, q) == Tied(rest, rank, q) {
        DropLast(s, rank, q);
        DropLast(t, rank, q);
        var a, b := Tied(front, rank, q), Tied(rest, rank, q);
        if q == r {
          assert a == (a + [s[|s| - 1]])[..|a|] && b == (b + [t[|t| - 1]])[..|b|];
        }
      }
      OnlyOneStableSort(front, rest, rank);
      assert s == front + [s[|s| - 1]] && t == rest + [t[|t| - 1]];
    }
  }

  lemma TiesShow<T>(s: seq<T>, rank: T -> int)
    ensures s == [] || Tied(s, rank, rank(s[|s| - 1])) != []
  {
  }

  lemma DropLast<T>(s: seq<T>, rank: T -> int, q: int)
    requires s != []
    ensures rank(s[|s| - 1]) == q ==> Tied(s, rank, q) == Tied(s[..|s| - 1], rank, q) + [s[|s| - 1]]
    ensures rank(s[|s| - 1]) != q ==> Tied(s[..|s| - 1], rank, q) == Tied(s, rank, q)
  {
  }

  /** Nothing ranks above the last element of an ordered list. */
  lemma {:induction false} TopIsLast<T>(s: seq<T>, rank: T -> int, r: int)
    requires Ordered(s, rank) && Tied(s, rank, r) != []
    ensures s != [] && r <= rank(s[|s| - 1])
  {
    if s == [] || rank(s[|s| - 1]) == r {
    } else {
      TopIsLast(s[..|s| - 1], rank, r);
    }
  }

  ghost predicate Before<T>(s: seq<T>, a: T, b: T) {
    exists i, j :: 0 <= i < j < |s| && s[i] == a && s[j] == b
  }

  lemma BeforeInLonger<T>(s: seq<T>, t: seq<T>, a: T, b: T)
    requires Before(s, a, b)
    ensures Before(s + t, a, b)
  {
    var i, j :| 0 <= i < j < |s| && s[i] == a && s[j] == b;
    assert (s + t)[i] == a && (s + t)[j] == b;
  }

  lemma BeforeLast<T>(s: seq<T>, a: T, b: T)
    requires a in s
    ensures Before(s + [b], a, b)
  {
    var i :| 0 <= i < |s| && s[i] == a;
    assert (s + [b])[i] == a && (s + [b])[|s|] == b;
  }

  lemma {:induction false} InsertKeepsBefore<T>(s: seq<T>, x: T, rank: T -> int, a: T, b: T)
    requires Before(s, a, b)
    ensures Before(Insert(s, x, rank), a, b)
  {
    if rank(s[|s| - 1]) <= rank(x) {
      BeforeInLonger(s, [x], a, b);
    } else {
      var front, last := s[..|s| - 1], s[|s| - 1];
      var i, j :| 0 <= i < j < |s| && s[i] == a && s[j] == b;
      assert front[i] == a;
      if j < |front| {
        assert front[j] == b;
        InsertKeepsBefore(front, x, rank, a, b);
        BeforeInLonger(Insert(front, x, rank), [last], a, b);
      } else {
        InsertKeeps(front, x, rank);
        assert a in multiset(Insert(front, x, rank));
        BeforeLast(Insert(front, x, rank), a, last);
      }
    }
  }

  lemma {:induction false} InsertsBehind<T>(s: seq<T>, x: T, rank: T -> int, a: T)
    requires a in s && rank(a) <= rank(x)
    ensures Ordered(s, rank) ==> Before(Insert(s, x, rank), a, x)
  {
    if rank(s[|s| - 1]) <= rank(x) {
      BeforeLast(s, a, x);
    } else {
      var front, last := s[..|s| - 1], s[|s| - 1];
      assert s == front + [last];
      InsertsBehind(front, x, rank, a);
      if Ordered(s, rank) {
        BeforeInLonger(Insert(front, x, rank), [last], a, x);
      }
    }
  }

  /** Of two elements the one that came first stays first, unless it ranks above the other. */
  lemma {:induction false} SortKeepsBefore<T>(s: seq<T>, rank: T -> int, i: nat, j: nat)
    requires i < j < |s| && rank(s[i]) <= rank(s[j])
    ensures Before(Sort(s, rank), s[i], s[j])
  {
    hide Insert, Ordered, Before;
    var front, last := s[..|s| - 1], s[|s| - 1];
    if j < |front| {
      SortKeepsBefore(front, rank, i, j);
      InsertKeepsBefore(Sort(front, rank), last, rank, s[i], s[j]);
    } else {
      SortOrders(front, rank);
      SortKeeps(front, rank);
      assert front[i] in multiset(front) && s[i] in multiset(Sort(front, rank));
      InsertsBehind(Sort(front, rank), last, rank, s[i]);
    }
  }

  /** Appending to a sorted list and sorting again is the same as sorting once. */
  lemma SortAgain<T>(s: seq<T>, x: T, rank: T -> int)
    ensures Sort(Sort(s, rank) + [x], rank) == Sort(s + [x], rank)
  {
    hide Tied, Insert;
    SortOrders(s, rank);
    SortOrders(Sort(s, rank), rank);
    forall r ensures Tied(Sort(Sort(s, rank), rank), rank, r) == Tied(Sort(s, rank), rank, r) {
      SortIsStable(Sort(s, rank), rank, r);
    }
    OnlyOneStableSort(Sort(Sort(s, rank), rank), Sort(s, rank), rank);
    assert (Sort(s, rank) + [x])[..|Sort(s, rank)|] == Sort(s, rank);
    assert (s + [x])[..|s|] == s;
  }
}
