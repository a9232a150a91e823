/** What `Model.find(filter).sort({key: -1}).skip(skip).limit(limit)` together
    with `countDocuments(filter)` return over a store keyed by id. */
module Listing {
  import opened Common

  predicate Distinct(s: seq<Id>)
  {
    forall i, j :: 0 <= i < j < |s| ==> s[i] != s[j]
  }

  /** The descending order of a sort key. An absent key sorts after every
      present one, as missing fields do in a descending sort. */
  predicate AtLeast(a: Option<int>, b: Option<int>)
  {
    b.None? || (a.Some? && a.value >= b.value)
  }

  /** `s` lists ids of `rank` newest first: keys never increase along `s`. */
  predicate NewestFirst(s: seq<Id>, rank: map<Id, Option<int>>)
  {
    && (forall i :: 0 <= i < |s| ==> s[i] in rank)
    && (forall i, j :: 0 <= i < j < |s| ==> AtLeast(rank[s[i]], rank[s[j]]))
  }

  /** Places `x` before the first element it is at least as new as. */
  function Insert(s: seq<Id>, x: Id, rank: map<Id, Option<int>>): (r: seq<Id>)
    requires x in rank && NewestFirst(s, rank)
    ensures NewestFirst(r, rank)
    ensures |r| == |s| + 1
    ensures forall y :: y in r <==> y == x || y in s
    ensures x !in s && Distinct(s) ==> Distinct(r)
    decreases |s|
  {
    if s == [] || AtLeast(rank[x], rank[s[0]]) then
      [x] + s
    else
      var t := Insert(s[1..], x, rank);
      assert forall k :: 0 <= k < |t| ==> AtLeast(rank[s[0]], rank[t[k]]) by {
        forall k | 0 <= k < |t|
          ensures AtLeast(rank[s[0]], rank[t[k]])
        {
          assert t[k] in t;
          if t[k] != x {
            var m :| 0 <= m < |s[1..]| && s[1..][m] == t[k];
            assert s[m + 1] == t[k];
          }
        }
      }
      assert x !in s && Distinct(s) ==> s[0] !in t by {
        if x !in s && Distinct(s) {
          forall m | 0 <= m < |s[1..]|
            ensures s[1..][m] != s[0]
          {
            assert s[1..][m] == s[m + 1];
          }
        }
      }
      [s[0]] + t
  }

  /** Every stored id, with the key its record sorts by. */
  function Ranks<R>(store: map<Id, R>, key: R -> Option<int>): (rank: map<Id, Option<int>>)
    ensures rank.Keys == store.Keys
    ensures forall id :: id in store ==> rank[id] == key(store[id])
  {
    map id | id in store :: key(store[id])
  }

  /** The ids of the records that satisfy `keep`, each once, newest first by `key`. */
  method Select<R>(store: map<Id, R>, keep: R -> bool, key: R -> Option<int>) returns (r: seq<Id>)
    ensures forall id :: id in r <==> id in store && keep(store[id])
    ensures Distinct(r)
    ensures NewestFirst(r, Ranks(store, key))
  {
    var rank := Ranks(store, key);
    var todo := store.Keys;
    r := [];
    while todo != {}
      invariant todo <= store.Keys
      invariant forall id :: id in r <==> id in store && id !in todo && keep(store[id])
      invariant Distinct(r)
      invariant NewestFirst(r, rank)
      decreases todo
    {
      var k :| k in todo;
      if keep(store[k]) {
        r := Insert(r, k, rank);
      }
      todo := todo - {k};
    }
  }

  /** A sequence without repetitions has as many elements as its set. */
  lemma {:induction false} DistinctCardinality(s: seq<Id>)
    requires Distinct(s)
    ensures |set x | x in s| == |s|
  {
    if s != [] {
      var t := s[1..];
      assert Distinct(t);
      DistinctCardinality(t);
      assert (set x | x in s) == (set x | x in t) + {s[0]};
      assert s[0] !in t;
    }
  }

  /** `Math.ceil(n / d)`. */
  function CeilDiv(n: nat, d: nat): (q: nat)
    requires d > 0
    ensures n <= q * d < n + d
    decreases n
  {
    if n == 0 then 0
    else if n <= d then 1
    else
      var q := CeilDiv(n - d, d);
      assert (q + 1) * d == q * d + d;
      q + 1
  }

  /** The pagination block plus the page of ids. */
  datatype Page = Page(items: seq<Id>, total: nat, page: nat, pages: nat)

  /** `(page - 1) * limit`: how many matches come before the page. */
  function Skip(page: nat, limit: nat): nat
    requires page >= 1
  {
    (page - 1) * limit
  }

  /** `page`/`limit` over the full newest-first list `all`: skip
      `(page - 1) * limit` ids, return at most `limit`; `total` counts every
      match and `pages` is `ceil(total / limit)`. */
  function Paginate(all: seq<Id>, page: nat, limit: nat): (p: Page)
    requires page >= 1 && limit >= 1
    ensures p.total == |all| && p.page == page && p.pages == CeilDiv(|all|, limit)
    ensures |p.items| <= limit
    ensures forall k :: 0 <= k < |p.items| ==> Skip(page, limit) + k < |all| && p.items[k] == all[Skip(page, limit) + k]
    ensures Skip(page, limit) + limit <= |all| ==> |p.items| == limit
  {
    var skip := Skip(page, limit);
    var from := if skip < |all| then skip else |all|;
    var to := if skip + limit < |all| then skip + limit else |all|;
    Page(all[from..to], |all|, page, CeilDiv(|all|, limit))
  }

  lemma MulMonotone(a: nat, b: nat, c: nat)
    requires a <= b
    ensures a * c <= b * c
  {
    assert b * c == a * c + (b - a) * c;
  }

  /** Every matching id is on the page its position puts it on, and that page
      is within the `pages` reported. */
  lemma PaginateCovers(all: seq<Id>, limit: nat, k: nat)
    requires limit >= 1 && k < |all|
    ensures 1 <= k / limit + 1 <= CeilDiv(|all|, limit)
    ensures var p := Paginate(all, k / limit + 1, limit);
            k % limit < |p.items| && p.items[k % limit] == all[k]
  {
    var q, m := k / limit, k % limit;
    assert k == q * limit + m;
    assert Skip(q + 1, limit) == q * limit;
    var pages := CeilDiv(|all|, limit);
    if pages <= q {
      MulMonotone(pages, q, limit);
      assert false;
    }
  }
}
