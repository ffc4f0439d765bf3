/**
 The listing query: every row ordered by price, most expensive first, and
 cut to the first 50. Rows of equal price come in ascending id order.
 */
module Listing {
  import opened Store

  const PageLimit := 50

  predicate SortedByPriceDesc(ps: seq<Product>) {
    forall i, j | 0 <= i < j < |ps| :: ps[i].price >= ps[j].price
  }

  /** No two entries share an id, so no row is listed twice. */
  predicate DistinctIds(ps: seq<Product>) {
    forall i, j | 0 <= i < j < |ps| :: ps[i].id != ps[j].id
  }

  /** No entry of `s` has the id of `p`. */
  predicate IdNotIn(p: Product, s: seq<Product>) {
    forall i | 0 <= i < |s| :: s[i].id != p.id
  }

  /**
   What the listing promises about `ps` for the table `rows`: its length is
   `min(50, |rows|)`, it is ordered by price descending, it holds only rows
   of the table, each at most once, no row left out is dearer than a row
   listed, and a table of at most 50 rows is listed whole.
   */
  predicate IsTopListing(ps: seq<Product>, rows: map<int, Product>) {
    && |ps| == (if |rows| < PageLimit then |rows| else PageLimit)
    && SortedByPriceDesc(ps)
    && DistinctIds(ps)
    && (forall i | 0 <= i < |ps| :: ps[i] in rows.Values)
    && (forall k | k in rows && rows[k] !in ps :: forall i | 0 <= i < |ps| :: ps[i].price >= rows[k].price)
    && (|rows| <= PageLimit ==> forall k | k in rows :: rows[k] in ps)
  }

  lemma {:induction false} LeastExists(s: set<int>)
    requires s != {}
    ensures exists m :: m in s && forall x | x in s :: m <= x
  {
    assert (forall x :: x !in s) ==> s == {};
    var y :| y in s;
    if s == {y} {
      assert y in s && forall x | x in s :: y <= x;
    } else {
      LeastExists(s - {y});
      var m :| m in s - {y} && forall x | x in s - {y} :: m <= x;
      var w := if y < m then y else m;
      forall x | x in s ensures w <= x {
        if x != y {
          assert x in s - {y};
        }
      }
      assert w in s;
    }
  }

  function Least(s: set<int>): (m: int)
    requires s != {}
    ensures m in s && forall x | x in s :: m <= x
  {
    LeastExists(s);
    var m :| m in s && forall x | x in s :: m <= x;
    m
  }

  /** The keys of a table in ascending order, each once. */
  function KeysAscending(s: set<int>): (ks: seq<int>)
    ensures |ks| == |s|
    ensures forall k :: k in ks <==> k in s
    ensures forall i, j | 0 <= i < j < |ks| :: ks[i] < ks[j]
    decreases |s|
  {
    if s == {} then []
    else
      var m := Least(s);
      var rest := KeysAscending(s - {m});
      assert forall i | 0 <= i < |rest| :: m < rest[i] by {
        forall i | 0 <= i < |rest| ensures m < rest[i] {
          assert rest[i] in rest;
        }
      }
      [m] + rest
  }

  /** The rows stored under `ks`, in the order of `ks`. */
  function RowsAt(rows: map<int, Product>, ks: seq<int>): (ps: seq<Product>)
    requires forall i | 0 <= i < |ks| :: ks[i] in rows
    ensures |ps| == |ks|
    ensures forall i | 0 <= i < |ks| :: ps[i] == rows[ks[i]]
  {
    if |ks| == 0 then [] else [rows[ks[0]]] + RowsAt(rows, ks[1..])
  }

  /** Every row of the table, in ascending id order. */
  function Rows(rows: map<int, Product>): (ps: seq<Product>)
    ensures |ps| == |rows|
    ensures forall p :: p in ps <==> p in rows.Values
    ensures Keyed(rows) ==> DistinctIds(ps)
  {
    var ks := KeysAscending(rows.Keys);
    assert forall i | 0 <= i < |ks| :: ks[i] in rows by {
      forall i | 0 <= i < |ks| ensures ks[i] in rows {
        assert ks[i] in ks;
      }
    }
    var ps := RowsAt(rows, ks);
    RowsCoverTable(rows, ks, ps);
    if Keyed(rows) then
      RowsDistinct(rows, ks, ps);
      ps
    else
      ps
  }

  lemma RowsCoverTable(rows: map<int, Product>, ks: seq<int>, ps: seq<Product>)
    requires forall i | 0 <= i < |ks| :: ks[i] in rows
    requires forall k | k in rows :: k in ks
    requires |ps| == |ks|
    requires forall i | 0 <= i < |ks| :: ps[i] == rows[ks[i]]
    ensures forall p :: p in ps <==> p in rows.Values
  {
    forall p | p in rows.Values ensures p in ps {
      assert (forall k | k in rows :: rows[k] != p) ==> p !in rows.Values;
      var k :| k in rows && rows[k] == p;
      var i :| 0 <= i < |ks| && ks[i] == k;
      assert ps[i] == p;
    }
    forall p | p in ps ensures p in rows.Values {
      var i :| 0 <= i < |ps| && ps[i] == p;
      assert ks[i] in ks;
    }
  }

  /** Rows read under increasing keys of a keyed table have distinct ids. */
  lemma RowsDistinct(rows: map<int, Product>, ks: seq<int>, ps: seq<Product>)
    requires Keyed(rows)
    requires forall i | 0 <= i < |ks| :: ks[i] in rows
    requires forall i, j | 0 <= i < j < |ks| :: ks[i] < ks[j]
    requires |ps| == |ks|
    requires forall i | 0 <= i < |ks| :: ps[i] == rows[ks[i]]
    ensures DistinctIds(ps)
  {
    forall i, j | 0 <= i < j < |ps| ensures ps[i].id != ps[j].id {
      assert ps[i].id == ks[i] && ps[j].id == ks[j];
    }
  }

  /** Places `p` after every element at least as dear. */
  function Insert(p: Product, s: seq<Product>): (r: seq<Product>)
    ensures multiset(r) == multiset(s) + multiset{p}
    ensures SortedByPriceDesc(s) ==> SortedByPriceDesc(r)
    ensures DistinctIds(s) && IdNotIn(p, s) ==> DistinctIds(r)
  {
    if |s| == 0 then [p]
    else if s[0].price >= p.price then
      var tail := Insert(p, s[1..]);
      InsertBehind(p, s, tail);
      [s[0]] + tail
    else
      InsertAhead(p, s);
      [p] + s
  }

  /** The step of `Insert` that keeps the head and inserts into the rest. */
  lemma InsertBehind(p: Product, s: seq<Product>, tail: seq<Product>)
    requires |s| > 0 && s[0].price >= p.price
    requires multiset(tail) == multiset(s[1..]) + multiset{p}
    requires SortedByPriceDesc(s[1..]) ==> SortedByPriceDesc(tail)
    requires DistinctIds(s[1..]) && IdNotIn(p, s[1..]) ==> DistinctIds(tail)
    ensures multiset([s[0]] + tail) == multiset(s) + multiset{p}
    ensures SortedByPriceDesc(s) ==> SortedByPriceDesc([s[0]] + tail)
    ensures DistinctIds(s) && IdNotIn(p, s) ==> DistinctIds([s[0]] + tail)
  {
    assert s == [s[0]] + s[1..];
    if SortedByPriceDesc(s) {
      assert SortedByPriceDesc(s[1..]);
      forall i | 0 <= i < |tail| ensures s[0].price >= tail[i].price {
        FromRestOrNew(p, s, tail, i);
      }
      ConsSorted(s[0], tail);
    }
    if DistinctIds(s) && IdNotIn(p, s) {
      assert DistinctIds(s[1..]);
      forall i | 0 <= i < |tail| ensures tail[i].id != s[0].id {
        FromRestOrNew(p, s, tail, i);
      }
      ConsDistinct(s[0], tail);
    }
  }

  /** An entry of `tail` is `p` or an entry of `s` after its head. */
  lemma FromRestOrNew(p: Product, s: seq<Product>, tail: seq<Product>, i: nat)
    requires |s| > 0 && i < |tail|
    requires multiset(tail) == multiset(s[1..]) + multiset{p}
    ensures tail[i] == p || exists j :: 1 <= j < |s| && s[j] == tail[i]
  {
    assert tail[i] in multiset(tail);
    if tail[i] != p {
      assert tail[i] in multiset(s[1..]);
      var j :| 0 <= j < |s[1..]| && s[1..][j] == tail[i];
      assert s[j + 1] == tail[i];
    }
  }

  /** The step of `Insert` that puts a dearer element in front. */
  lemma InsertAhead(p: Product, s: seq<Product>)
    requires |s| > 0 && s[0].price < p.price
    ensures SortedByPriceDesc(s) ==> SortedByPriceDesc([p] + s)
    ensures DistinctIds(s) && IdNotIn(p, s) ==> DistinctIds([p] + s)
  {
    if SortedByPriceDesc(s) {
      assert forall i | 0 <= i < |s| :: p.price >= s[i].price by {
        forall i | 0 <= i < |s| ensures p.price >= s[i].price {
          assert i == 0 || s[0].price >= s[i].price;
        }
      }
      ConsSorted(p, s);
    }
    if DistinctIds(s) && IdNotIn(p, s) {
      ConsDistinct(p, s);
    }
  }

  /** A head whose id no later entry has extends a list of distinct ids. */
  lemma ConsDistinct(h: Product, t: seq<Product>)
    requires DistinctIds(t) && IdNotIn(h, t)
    ensures DistinctIds([h] + t)
  {
  }

  /** A head no cheaper than anything after it extends a sorted list. */
  lemma ConsSorted(h: Product, t: seq<Product>)
    requires SortedByPriceDesc(t)
    requires forall i | 0 <= i < |t| :: h.price >= t[i].price
    ensures SortedByPriceDesc([h] + t)
  {
  }

  /** Insertion sort by price, most expensive first. */
  function SortByPriceDesc(s: seq<Product>): (r: seq<Product>)
    ensures multiset(r) == multiset(s)
    ensures SortedByPriceDesc(r)
    ensures DistinctIds(s) ==> DistinctIds(r)
  {
    if |s| == 0 then []
    else
      assert s == [s[0]] + s[1..];
      var rest := SortByPriceDesc(s[1..]);
      if DistinctIds(s) then
        assert DistinctIds(s[1..]);
        SortedIdsAbsent(s, rest);
        Insert(s[0], rest)
      else
        Insert(s[0], rest)
  }

  /** The head of a list with distinct ids has an id that no reordering of its rest contains. */
  lemma SortedIdsAbsent(s: seq<Product>, rest: seq<Product>)
    requires |s| > 0 && DistinctIds(s)
    requires multiset(rest) == multiset(s[1..])
    ensures IdNotIn(s[0], rest)
  {
    forall i | 0 <= i < |rest| ensures rest[i].id != s[0].id {
      assert rest[i] in multiset(s[1..]);
      var j :| 0 <= j < |s[1..]| && s[1..][j] == rest[i];
      assert s[j + 1] == rest[i];
    }
  }

  /** The rows `getProducts` answers with: `ORDER BY price DESC LIMIT 50`. */
  function TopByPrice(rows: map<int, Product>): (ps: seq<Product>)
    requires Keyed(rows)
    ensures IsTopListing(ps, rows)
  {
    var all := Rows(rows);
    var sorted := SortByPriceDesc(all);
    var n := if |sorted| < PageLimit then |sorted| else PageLimit;
    SameMembers(sorted, all);
    TopFacts(rows, sorted, n);
    sorted[..n]
  }

  lemma TopFacts(rows: map<int, Product>, sorted: seq<Product>, n: nat)
    requires |sorted| == |rows|
    requires DistinctIds(sorted)
    requires forall p :: p in sorted <==> p in rows.Values
    requires SortedByPriceDesc(sorted)
    requires n == if |sorted| < PageLimit then |sorted| else PageLimit
    ensures IsTopListing(sorted[..n], rows)
  {
    var top := sorted[..n];
    assert SortedByPriceDesc(top);
    assert DistinctIds(top);
    forall i | 0 <= i < |top| ensures top[i] in rows.Values {
      assert top[i] == sorted[i];
    }
    forall k | k in rows && rows[k] !in top
      ensures forall i | 0 <= i < |top| :: top[i].price >= rows[k].price
    {
      PrefixDominates(sorted, n, rows[k]);
    }
    if |rows| <= PageLimit {
      assert top == sorted;
    }
  }

  lemma SameMembers(a: seq<Product>, b: seq<Product>)
    requires multiset(a) == multiset(b)
    ensures |a| == |b|
    ensures forall p :: p in a <==> p in b
  {
    assert |multiset(a)| == |multiset(b)|;
    forall p ensures p in a <==> p in b {
      assert p in a <==> p in multiset(a);
      assert p in b <==> p in multiset(b);
    }
  }

  /** In a list sorted by price, an element past the cut is no dearer than any element before it. */
  lemma PrefixDominates(sorted: seq<Product>, n: nat, p: Product)
    requires SortedByPriceDesc(sorted)
    requires n <= |sorted|
    requires p in sorted && p !in sorted[..n]
    ensures forall i | 0 <= i < n :: sorted[i].price >= p.price
  {
    var j :| 0 <= j < |sorted| && sorted[j] == p;
    forall i | 0 <= i < n ensures sorted[i] in sorted[..n] {
      assert sorted[..n][i] == sorted[i];
    }
    assert j >= n;
  }
}
