/** What a `find(query).sort(order).limit(k)` returns: the documents of a
    collection that match the query, put in the requested order. Documents
    are `(id, record)` pairs; ids come from the store's creation counter, so
    a larger id is a later `createdAt`. */
module Listing {
  import opened Types
  import opened Text
  import opened Schema

  /** The entries of `m` whose id is below `n` and that `keep` accepts, in
      increasing id order. */
  function Entries<R>(m: map<Id, R>, n: nat, keep: (Id, R) -> bool): (r: seq<(Id, R)>)
    ensures forall p :: p in r ==> p.0 < n && p.0 in m && m[p.0] == p.1 && keep(p.0, p.1)
    ensures forall id :: id < n && id in m && keep(id, m[id]) ==> (id, m[id]) in r
    ensures forall i, j :: 0 <= i < j < |r| ==> r[i].0 < r[j].0
  {
    if n == 0 then []
    else
      var prev := Entries(m, n - 1, keep);
      if n - 1 in m && keep(n - 1, m[n - 1]) then prev + [(n - 1, m[n - 1])] else prev
  }

  /** An order that compares any two elements and chains. */
  ghost predicate TotalPreorder<T(!new)>(le: (T, T) -> bool) {
    && (forall a, b :: le(a, b) || le(b, a))
    && (forall a, b, c :: le(a, b) && le(b, c) ==> le(a, c))
  }

  predicate SortedBy<T>(s: seq<T>, le: (T, T) -> bool) {
    forall i, j :: 0 <= i < j < |s| ==> le(s[i], s[j])
  }

  /** Puts `x` before the first element it does not follow. */
  function Insert<T>(x: T, s: seq<T>, le: (T, T) -> bool): (r: seq<T>)
    ensures multiset(r) == multiset(s) + multiset{x}
  {
    if s == [] || le(x, s[0]) then [x] + s
    else
      assert s == [s[0]] + s[1..];
      [s[0]] + Insert(x, s[1..], le)
  }

  lemma {:induction false} InsertSorted<T(!new)>(x: T, s: seq<T>, le: (T, T) -> bool)
    requires TotalPreorder(le) && SortedBy(s, le)
    ensures SortedBy(Insert(x, s, le), le)
  {
    if s != [] && !le(x, s[0]) {
      InsertSorted(x, s[1..], le);
      var r := Insert(x, s, le);
      var t := Insert(x, s[1..], le);
      assert r == [s[0]] + t;
      forall j | 0 < j < |r| ensures le(r[0], r[j]) {
        assert r[j] in multiset(t);
        assert r[j] in multiset(s[1..]) + multiset{x};
        if r[j] != x {
          assert r[j] in s[1..];
        }
      }
    }
  }

  /** Insertion sort: a stable arrangement of `s` in the order `le`. */
  function SortBy<T>(s: seq<T>, le: (T, T) -> bool): (r: seq<T>)
    ensures multiset(r) == multiset(s)
  {
    if s == [] then []
    else
      assert s == [s[0]] + s[1..];
      Insert(s[0], SortBy(s[1..], le), le)
  }

  lemma {:induction false} SortBySorted<T(!new)>(s: seq<T>, le: (T, T) -> bool)
    requires TotalPreorder(le)
    ensures SortedBy(SortBy(s, le), le)
  {
    if s != [] {
      SortBySorted(s[1..], le);
      InsertSorted(s[0], SortBy(s[1..], le), le);
    }
  }

  /** `limit(k)`. */
  function Take<T>(s: seq<T>, k: nat): (r: seq<T>)
    ensures |r| == (if |s| <= k then |s| else k)
    ensures r == s[..|r|]
  {
    if |s| <= k then s else s[..k]
  }

  /** `sort({ createdAt: -1 })`: newest first. */
  predicate NewestFirst<R>(a: (Id, R), b: (Id, R)) {
    a.0 >= b.0
  }

  /** `sort({ isPinned: -1, createdAt: -1 })`: pinned notes first, newest
      first within each group. */
  predicate PinnedThenNewest(a: (Id, Note), b: (Id, Note)) {
    (a.1.isPinned && !b.1.isPinned) || (a.1.isPinned == b.1.isPinned && a.0 >= b.0)
  }

  /** `sort({ name: 1 })` on tags. */
  predicate TagNameOrder(a: (Id, Tag), b: (Id, Tag)) {
    LexLeq(a.1.name, b.1.name)
  }

  /** `sort({ name: 1 })` on categories. */
  predicate CategoryNameOrder(a: (Id, Category), b: (Id, Category)) {
    LexLeq(a.1.name, b.1.name)
  }

  lemma NewestFirstTotal<R(!new)>()
    ensures TotalPreorder(NewestFirst<R>)
  {
  }

  lemma PinnedThenNewestTotal()
    ensures TotalPreorder(PinnedThenNewest)
  {
  }

  lemma TagNameOrderTotal()
    ensures TotalPreorder(TagNameOrder)
  {
    forall a: (Id, Tag), b: (Id, Tag) ensures TagNameOrder(a, b) || TagNameOrder(b, a) {
      LexLeqTotal(a.1.name, b.1.name);
    }
    forall a: (Id, Tag), b: (Id, Tag), c: (Id, Tag) | TagNameOrder(a, b) && TagNameOrder(b, c)
      ensures TagNameOrder(a, c)
    {
      LexLeqTransitive(a.1.name, b.1.name, c.1.name);
    }
  }

  lemma CategoryNameOrderTotal()
    ensures TotalPreorder(CategoryNameOrder)
  {
    forall a: (Id, Category), b: (Id, Category) ensures CategoryNameOrder(a, b) || CategoryNameOrder(b, a) {
      LexLeqTotal(a.1.name, b.1.name);
    }
    forall a: (Id, Category), b: (Id, Category), c: (Id, Category) | CategoryNameOrder(a, b) && CategoryNameOrder(b, c)
      ensures CategoryNameOrder(a, c)
    {
      LexLeqTransitive(a.1.name, b.1.name, c.1.name);
    }
  }

  /** A whole listing: the matching entries, each once, in the order asked
      for. */
  function Query<R(!new)>(m: map<Id, R>, n: nat, keep: (Id, R) -> bool, le: ((Id, R), (Id, R)) -> bool): (r: seq<(Id, R)>)
    requires TotalPreorder(le)
    ensures forall p :: p in r <==> p.0 < n && p.0 in m && m[p.0] == p.1 && keep(p.0, p.1)
    ensures forall i, j :: 0 <= i < j < |r| ==> r[i].0 != r[j].0
    ensures SortedBy(r, le)
  {
    var e := Entries(m, n, keep);
    var r := SortBy(e, le);
    SortBySorted(e, le);
    DistinctIds(e, r);
    SameElements(e, r);
    r
  }

  /** Rearranging entries whose ids increase keeps every id once. */
  lemma DistinctIds<R>(e: seq<(Id, R)>, r: seq<(Id, R)>)
    requires forall i, j :: 0 <= i < j < |e| ==> e[i].0 < e[j].0
    requires multiset(r) == multiset(e)
    ensures forall i, j :: 0 <= i < j < |r| ==> r[i].0 != r[j].0
  {
    forall i, j | 0 <= i < j < |r| ensures r[i].0 != r[j].0 {
      if r[i].0 == r[j].0 {
        assert r[i] in multiset(e) && r[j] in multiset(e);
        SameIdSameEntry(e, r[i], r[j]);
        TwoOccurrences(r, i, j);
        AtMostOnce(e, r[i]);
        assert false;
      }
    }
  }

  lemma SameElements<T>(e: seq<T>, r: seq<T>)
    requires multiset(r) == multiset(e)
    ensures forall x :: x in r <==> x in e
  {
    forall x ensures x in r <==> x in e {
      assert x in r <==> x in multiset(r);
      assert x in e <==> x in multiset(e);
    }
  }

  lemma SameIdSameEntry<R>(e: seq<(Id, R)>, x: (Id, R), y: (Id, R))
    requires forall i, j :: 0 <= i < j < |e| ==> e[i].0 < e[j].0
    requires x in e && y in e && x.0 == y.0
    ensures x == y
  {
    var a :| 0 <= a < |e| && e[a] == x;
    var b :| 0 <= b < |e| && e[b] == y;
    assert a == b;
  }

  lemma TwoOccurrences<T>(r: seq<T>, i: nat, j: nat)
    requires i < j < |r| && r[i] == r[j]
    ensures multiset(r)[r[i]] >= 2
  {
    assert r == r[..i] + [r[i]] + r[i + 1..j] + [r[j]] + r[j + 1..];
  }

  lemma {:induction false} AtMostOnce<R>(e: seq<(Id, R)>, x: (Id, R))
    requires forall i, j :: 0 <= i < j < |e| ==> e[i].0 < e[j].0
    ensures multiset(e)[x] <= 1
  {
    if e != [] {
      var init := e[..|e| - 1];
      assert e == init + [e[|e| - 1]];
      AtMostOnce(init, x);
      if x == e[|e| - 1] {
        assert x !in init by {
          forall k | 0 <= k < |init| ensures init[k] != x {
            assert init[k].0 < e[|e| - 1].0;
          }
        }
      }
    }
  }

  /** `find().sort({ createdAt: -1 })`: every document, newest first. */
  function ByNewest<R(!new)>(m: map<Id, R>, n: nat): (r: seq<(Id, R)>)
    requires forall id :: id in m ==> id < n
    ensures forall p :: p in r <==> p.0 in m && m[p.0] == p.1
    ensures forall i :: 0 <= i < |r| ==> r[i].0 in m && m[r[i].0] == r[i].1
    ensures forall i, j :: 0 <= i < j < |r| ==> r[i].0 > r[j].0
  {
    NewestFirstTotal<R>();
    var r := Query(m, n, (id: Id, x: R) => true, NewestFirst);
    assert forall i, j :: 0 <= i < j < |r| ==> NewestFirst(r[i], r[j]);
    r
  }

  /** `find().sort({ createdAt: -1 }).limit(k)`: the `k` newest documents,
      newest first. A document left out is older than every one listed,
      and is only left out when `k` are listed. */
  function Newest<R(!new)>(m: map<Id, R>, n: nat, k: nat): (r: seq<(Id, R)>)
    requires forall id :: id in m ==> id < n
    ensures |r| <= k
    ensures forall i :: 0 <= i < |r| ==> r[i].0 in m && m[r[i].0] == r[i].1
    ensures forall i, j :: 0 <= i < j < |r| ==> r[i].0 > r[j].0
    ensures forall id :: id in m && (id, m[id]) !in r ==> |r| == k && forall i :: 0 <= i < |r| ==> r[i].0 > id
  {
    var all := ByNewest(m, n);
    TakeNewest(all, k);
    Take(all, k)
  }

  /** A prefix of a list in decreasing id order keeps that order, and
      what it leaves out is older than everything it keeps. */
  lemma TakeNewest<R>(s: seq<(Id, R)>, k: nat)
    requires forall i, j :: 0 <= i < j < |s| ==> s[i].0 > s[j].0
    ensures forall i :: 0 <= i < |Take(s, k)| ==> Take(s, k)[i] == s[i]
    ensures forall i, j :: 0 <= i < j < |Take(s, k)| ==> Take(s, k)[i].0 > Take(s, k)[j].0
    ensures forall x :: x in s && x !in Take(s, k) ==> |Take(s, k)| == k && forall i :: 0 <= i < k ==> Take(s, k)[i].0 > x.0
  {
    var r := Take(s, k);
    forall x | x in s && x !in r
      ensures |r| == k && forall i :: 0 <= i < k ==> r[i].0 > x.0
    {
      var j :| 0 <= j < |s| && s[j] == x;
      assert forall i :: 0 <= i < |r| ==> r[i] == s[i] && r[i] != x;
      assert |r| <= j;
    }
  }
}
