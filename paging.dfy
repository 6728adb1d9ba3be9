/** Ordering and paging of query results, shared by every listing route.

    The routes ask the database to `sort(...)`, `skip((page - 1) * limit)`
    and `limit(limit)`; here the sort is a stable insertion sort on a
    lexicographic pair key, and a page is a window of the sorted sequence.
    Page and limit arrive as `parseInt(query.x) || default`. */
module Paging {
  import opened Common

  /** A sort key, compared lexicographically and ascending; a descending
      field is entered negated. */
  type Key = (int, int)

  predicate KeyLe(a: Key, b: Key) {
    a.0 < b.0 || (a.0 == b.0 && a.1 <= b.1)
  }

  ghost predicate SortedBy<T>(s: seq<T>, key: T -> Key) {
    forall i, j | 0 <= i < j < |s| :: KeyLe(key(s[i]), key(s[j]))
  }

  /** Places `x` in front of the first element whose key is not smaller. */
  function Insert<T(==)>(x: T, s: seq<T>, key: T -> Key): (r: seq<T>)
    ensures multiset(r) == multiset(s) + multiset{x}
    ensures |r| == |s| + 1
  {
    if s == [] then [x]
    else if KeyLe(key(x), key(s[0])) then [x] + s
    else
      assert s == [s[0]] + s[1..];
      [s[0]] + Insert(x, s[1..], key)
  }

  /** Inserting into a sorted sequence keeps it sorted. */
  lemma {:induction false} InsertKeepsSorted<T>(x: T, s: seq<T>, key: T -> Key)
    requires SortedBy(s, key)
    ensures SortedBy(Insert(x, s, key), key)
  {
    if s == [] {
    } else if KeyLe(key(x), key(s[0])) {
      forall k | 0 <= k < |s| ensures KeyLe(key(x), key(s[k])) {
        if k > 0 { assert KeyLe(key(s[0]), key(s[k])); }
      }
      ConsSorted(x, s, key);
    } else {
      var rest := Insert(x, s[1..], key);
      TailSorted(s, key);
      InsertKeepsSorted(x, s[1..], key);
      HeadStaysFirst(x, s, rest, key);
      ConsSorted(s[0], rest, key);
    }
  }

  /** A head no greater than anything in a sorted tail gives a sorted
      sequence. */
  lemma ConsSorted<T>(h: T, t: seq<T>, key: T -> Key)
    requires SortedBy(t, key)
    requires forall k | 0 <= k < |t| :: KeyLe(key(h), key(t[k]))
    ensures SortedBy([h] + t, key)
  {
    var r := [h] + t;
    forall i, j | 0 <= i < j < |r| ensures KeyLe(key(r[i]), key(r[j])) {
      if i == 0 {
        assert r[j] == t[j - 1];
      } else {
        assert r[i] == t[i - 1] && r[j] == t[j - 1];
      }
    }
  }

  lemma TailSorted<T>(s: seq<T>, key: T -> Key)
    requires SortedBy(s, key) && |s| > 0
    ensures SortedBy(s[1..], key)
  {
    forall i, j | 0 <= i < j < |s[1..]| ensures KeyLe(key(s[1..][i]), key(s[1..][j])) {
      assert s[1..][i] == s[i + 1] && s[1..][j] == s[j + 1];
    }
  }

  /** When `x` goes after the head of a sorted `s`, the head is still no
      greater than anything in the rest. */
  lemma HeadStaysFirst<T>(x: T, s: seq<T>, rest: seq<T>, key: T -> Key)
    requires SortedBy(s, key) && |s| > 0 && !KeyLe(key(x), key(s[0]))
    requires multiset(rest) == multiset(s[1..]) + multiset{x}
    ensures forall k | 0 <= k < |rest| :: KeyLe(key(s[0]), key(rest[k]))
  {
    forall k | 0 <= k < |rest| ensures KeyLe(key(s[0]), key(rest[k])) {
      assert rest[k] in multiset(rest);
      if rest[k] != x {
        assert rest[k] in multiset(s[1..]);
        var m :| 0 <= m < |s[1..]| && s[1..][m] == rest[k];
        assert s[m + 1] == rest[k];
      }
    }
  }

  /** The order the database returns: sorted by `key`, ties kept in
      insertion order. */
  function SortBy<T(==)>(s: seq<T>, key: T -> Key): (r: seq<T>)
    ensures multiset(r) == multiset(s)
    ensures |r| == |s|
    ensures SortedBy(r, key)
  {
    if s == [] then []
    else
      assert s == [s[0]] + s[1..];
      var sorted := SortBy(s[1..], key);
      InsertKeepsSorted(s[0], sorted, key);
      Insert(s[0], sorted, key)
  }

  function Min(a: int, b: int): int {
    if a <= b then a else b
  }

  /** `skip(skip).limit(limit)` on an already ordered result. */
  function Page<T>(s: seq<T>, skip: nat, limit: nat): (r: seq<T>)
    ensures |r| <= limit
    ensures skip >= |s| ==> r == []
    ensures skip < |s| ==> |r| == Min(limit, |s| - skip)
    ensures forall i | 0 <= i < |r| :: skip + i < |s| && r[i] == s[skip + i]
  {
    if skip >= |s| then [] else s[skip .. skip + Min(limit, |s| - skip)]
  }

  /** A page of a reordering of `t` holds only elements of `t`. */
  lemma PageDrawnFrom<T>(s: seq<T>, skip: nat, limit: nat, t: seq<T>)
    requires multiset(s) == multiset(t)
    ensures forall i | 0 <= i < |Page(s, skip, limit)| :: Page(s, skip, limit)[i] in t
  {
    var r := Page(s, skip, limit);
    forall i | 0 <= i < |r| ensures r[i] in t {
      assert r[i] in multiset(s);
    }
  }

  /** `parseInt(x) || fallback`: an absent, unparseable or zero parameter
      takes the fallback. */
  function OrDefault(param: Option<nat>, fallback: nat): (r: nat)
    ensures param.Some? && param.value != 0 ==> r == param.value
    ensures param.None? || param.value == 0 ==> r == fallback
  {
    if param.Some? && param.value != 0 then param.value else fallback
  }

  /** `parseInt(x) || fallback` on a parameter that may be negative. */
  function OrDefaultInt(param: Option<int>, fallback: int): (r: int)
    ensures param.Some? && param.value != 0 ==> r == param.value
    ensures param.None? || param.value == 0 ==> r == fallback
  {
    if param.Some? && param.value != 0 then param.value else fallback
  }

  /** Number of documents skipped before page `page` (1-based). */
  function Skip(page: nat, limit: nat): (r: nat)
    requires page >= 1
    ensures r + limit == page * limit
  {
    (page - 1) * limit
  }

  /** The listing's `hasMore` flag. */
  predicate HasMore(page: nat, limit: nat, total: nat) {
    page * limit < total
  }

  /** `hasMore` holds exactly when matches remain beyond the returned page. */
  lemma HasMoreIffMatchesRemain<T>(s: seq<T>, page: nat, limit: nat)
    requires page >= 1 && limit >= 1
    ensures HasMore(page, limit, |s|)
        <==> Skip(page, limit) + |Page(s, Skip(page, limit), limit)| < |s|
  {
    var skip := Skip(page, limit);
    var r := Page(s, skip, limit);
    if HasMore(page, limit, |s|) {
      assert skip < |s|;
      assert |r| == limit;
    } else if skip < |s| {
      assert |r| == |s| - skip;
    }
  }

  /** A page of a sorted sequence is sorted. */
  lemma PageOfSorted<T>(s: seq<T>, key: T -> Key, skip: nat, limit: nat)
    requires SortedBy(s, key)
    ensures SortedBy(Page(s, skip, limit), key)
  {
    var r := Page(s, skip, limit);
    forall i, j | 0 <= i < j < |r| ensures KeyLe(key(r[i]), key(r[j])) {
      assert r[i] == s[skip + i] && r[j] == s[skip + j];
    }
  }

  /** The first page skips nothing and returns the first `limit` matches. */
  lemma FirstPageIsPrefix<T>(s: seq<T>, limit: nat)
    ensures Page(s, Skip(1, limit), limit) == s[..Min(limit, |s|)]
  {
  }
}
