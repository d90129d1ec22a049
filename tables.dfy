/** The in-memory model of one database table as the services see it through the
    repository: an ordered sequence of rows, each with a generated id, a soft-deletion
    stamp (the entities' `DeleteDateColumn`) and the entity's columns.

    Lookups (`findOneBy`, `find`, `findAndCount`, query-builder reads) see only live
    rows, those whose `deletedAt` is unset, and return them in table order.
    Writes by criteria (`update`, `softDelete`, `delete`) address rows by their columns. */
module Tables {
  import opened Wrappers

  type Id = string
  type Time = int

  datatype Row<T> = Row(id: Id, deletedAt: Option<Time>, data: T) {
    predicate Live() { deletedAt.None? }
  }

  /** A row that a lookup with criterion `p` returns. */
  predicate Matches<T>(r: Row<T>, p: Row<T> -> bool) {
    r.Live() && p(r)
  }

  /** The criterion `{ id }`. */
  function ById<T>(id: Id): Row<T> -> bool {
    (r: Row<T>) => r.id == id
  }

  /** The criterion that matches every row whose scoped key is `k`. */
  function ByKey<T, K(==)>(key: T -> Option<K>, k: K): Row<T> -> bool {
    (r: Row<T>) => key(r.data) == Some(k)
  }

  function Ids<T>(rows: seq<Row<T>>): set<Id> {
    set i | 0 <= i < |rows| :: rows[i].id
  }

  /** Primary keys are unique over all rows, live or soft-deleted. */
  ghost predicate DistinctIds<T>(rows: seq<Row<T>>) {
    forall i, j :: 0 <= i < j < |rows| ==> rows[i].id != rows[j].id
  }

  /** No two live rows share a scoped key; `key` yields None for a row that the
      uniqueness rule does not cover. */
  ghost predicate UniqueLive<T, K>(rows: seq<Row<T>>, key: T -> Option<K>) {
    forall i, j :: 0 <= i < j < |rows| && rows[i].Live() && rows[j].Live() && key(rows[i].data).Some?
      ==> key(rows[i].data) != key(rows[j].data)
  }

  /** The table invariant: distinct ids and unique live keys. */
  ghost predicate Keyed<T, K>(rows: seq<Row<T>>, key: T -> Option<K>) {
    DistinctIds(rows) && UniqueLive(rows, key)
  }

  /** Some live row other than the one whose id is `except` has scoped key `k`. */
  ghost predicate Taken<T, K>(rows: seq<Row<T>>, key: T -> Option<K>, k: K, except: Option<Id>) {
    exists i :: 0 <= i < |rows| && rows[i].Live() && key(rows[i].data) == Some(k) && Some(rows[i].id) != except
  }

  /** Data `d` may take its key in `rows` without clashing with a live row other than
      the one whose id is `except`. */
  ghost predicate KeyFree<T, K>(rows: seq<Row<T>>, key: T -> Option<K>, d: T, except: Option<Id>) {
    key(d).None? || !Taken(rows, key, key(d).value, except)
  }

  /** Index of the first live row matching `p` (what `findOneBy` returns). */
  function FindIndex<T>(rows: seq<Row<T>>, p: Row<T> -> bool): (r: Option<nat>)
    ensures r.Some? ==> r.value < |rows| && Matches(rows[r.value], p)
    ensures r.Some? ==> forall j :: 0 <= j < r.value ==> !Matches(rows[j], p)
    ensures r.None? <==> forall j :: 0 <= j < |rows| ==> !Matches(rows[j], p)
  {
    if |rows| == 0 then None
    else if Matches(rows[0], p) then Some(0)
    else
      match FindIndex(rows[1..], p)
      case None => None
      case Some(k) => Some(k + 1)
  }

  /** `findOneBy(p)`: the first live row matching `p`, if any. */
  function Find<T>(rows: seq<Row<T>>, p: Row<T> -> bool): (r: Option<Row<T>>)
    ensures r.Some? <==> exists j :: 0 <= j < |rows| && Matches(rows[j], p)
    ensures r.Some? ==> r.value in rows && Matches(r.value, p)
  {
    match FindIndex(rows, p)
    case None => None
    case Some(i) => Some(rows[i])
  }

  /** `find({ where: p })`: the live rows matching `p`, in table order. */
  function Select<T>(rows: seq<Row<T>>, p: Row<T> -> bool): (r: seq<Row<T>>)
    ensures |r| <= |rows|
    ensures forall x :: x in r ==> x in rows && Matches(x, p)
    ensures forall i :: 0 <= i < |rows| && Matches(rows[i], p) ==> rows[i] in r
  {
    if |rows| == 0 then []
    else (if Matches(rows[0], p) then [rows[0]] else []) + Select(rows[1..], p)
  }

  /** `Select` keeps the matching rows in table order, each as often as it occurs: it
      distributes over concatenation, and on one row it keeps that row exactly when it
      matches. The two determine `Select` on every table. */
  lemma {:induction false} SelectAppend<T>(a: seq<Row<T>>, b: seq<Row<T>>, p: Row<T> -> bool)
    ensures Select(a + b, p) == Select(a, p) + Select(b, p)
    decreases |a|
  {
    if |a| == 0 {
      assert a + b == b;
    } else {
      assert (a + b)[1..] == a[1..] + b;
      SelectAppend(a[1..], b, p);
    }
  }

  lemma SelectSingle<T>(x: Row<T>, p: Row<T> -> bool)
    ensures Select([x], p) == if Matches(x, p) then [x] else []
  {
    assert [x][1..] == [];
  }

  /** The positions of the live rows matching `p`. */
  ghost function MatchIndices<T>(rows: seq<Row<T>>, p: Row<T> -> bool): set<int> {
    set i | 0 <= i < |rows| && Matches(rows[i], p)
  }

  /** Appending a row adds its position exactly when it matches. */
  lemma MatchIndicesSnoc<T>(front: seq<Row<T>>, x: Row<T>, p: Row<T> -> bool)
    ensures MatchIndices(front + [x], p) == MatchIndices(front, p) + (if Matches(x, p) then {|front|} else {})
  {
    var rows := front + [x];
    forall i | 0 <= i < |front|
      ensures rows[i] == front[i]
    {
    }
    assert rows[|front|] == x;
  }

  /** A listing holds one entry per matching position, so its length is the number of
      matches that `findAndCount` reports as the total. */
  lemma {:induction false} SelectCount<T>(rows: seq<Row<T>>, p: Row<T> -> bool)
    ensures |Select(rows, p)| == |MatchIndices(rows, p)|
    decreases |rows|
  {
    if |rows| == 0 {
      assert MatchIndices(rows, p) == {};
    } else {
      var n := |rows| - 1;
      var front := rows[..n];
      assert rows == front + [rows[n]];
      SelectAppend(front, [rows[n]], p);
      SelectSingle(rows[n], p);
      SelectCount(front, p);
      MatchIndicesSnoc(front, rows[n], p);
      assert n !in MatchIndices(front, p);
    }
  }

  /** `update(criteria, data)`: every row satisfying `p`, live or not, gets `f` applied to its columns. */
  function SetData<T>(rows: seq<Row<T>>, p: Row<T> -> bool, f: T -> T): (r: seq<Row<T>>)
    ensures |r| == |rows|
    ensures forall i :: 0 <= i < |rows| && p(rows[i]) ==> r[i] == rows[i].(data := f(rows[i].data))
    ensures forall i :: 0 <= i < |rows| && !p(rows[i]) ==> r[i] == rows[i]
  {
    seq(|rows|, i requires 0 <= i < |rows| => if p(rows[i]) then rows[i].(data := f(rows[i].data)) else rows[i])
  }

  /** `softDelete(criteria)`: every row satisfying `p` is stamped as deleted at `now`. */
  function SoftDelete<T>(rows: seq<Row<T>>, p: Row<T> -> bool, now: Time): (r: seq<Row<T>>)
    ensures |r| == |rows|
    ensures forall i :: 0 <= i < |rows| && p(rows[i]) ==> r[i] == rows[i].(deletedAt := Some(now))
    ensures forall i :: 0 <= i < |rows| && !p(rows[i]) ==> r[i] == rows[i]
  {
    seq(|rows|, i requires 0 <= i < |rows| => if p(rows[i]) then rows[i].(deletedAt := Some(now)) else rows[i])
  }

  /** `delete(criteria)`: every row satisfying `p` is removed; the others keep their order. */
  function Delete<T>(rows: seq<Row<T>>, p: Row<T> -> bool): (r: seq<Row<T>>)
    ensures |r| <= |rows|
    ensures forall x :: x in r ==> x in rows && !p(x)
    ensures forall i :: 0 <= i < |rows| && !p(rows[i]) ==> rows[i] in r
  {
    if |rows| == 0 then []
    else (if p(rows[0]) then [] else [rows[0]]) + Delete(rows[1..], p)
  }

  /** One page of a listing, as `findAndCount` with `skip`/`take` returns it. */
  datatype Paged<T> = Paged(data: seq<T>, total: nat, page: int, limit: int)

  /** Rows `skip .. skip + take` of `s`, clipped at the end of `s`. */
  function Window<T>(s: seq<T>, skip: nat, take: nat): (r: seq<T>)
    ensures |r| == if skip >= |s| then 0 else if skip + take <= |s| then take else |s| - skip
    ensures forall i :: 0 <= i < |r| ==> r[i] == s[skip + i]
  {
    if skip >= |s| then [] else s[skip .. if skip + take <= |s| then skip + take else |s|]
  }

  /** The number of rows a page skips: `(page - 1) * limit`. */
  function Skip(page: int, limit: int): nat
    requires page >= 1 && limit >= 1
  {
    (page - 1) * limit
  }

  /** `skip: (page - 1) * limit, take: limit`, reporting the number of all matches. */
  function Paginate<T>(matches: seq<T>, page: int, limit: int): (r: Paged<T>)
    requires page >= 1 && limit >= 1
    ensures r.total == |matches| && r.page == page && r.limit == limit
    ensures |r.data| <= limit
    ensures |r.data| == if Skip(page, limit) >= |matches| then 0
                         else if Skip(page, limit) + limit <= |matches| then limit
                         else |matches| - Skip(page, limit)
    ensures forall i :: 0 <= i < |r.data| ==> Skip(page, limit) + i < |matches| && r.data[i] == matches[Skip(page, limit) + i]
  {
    Paged(Window(matches, Skip(page, limit), limit), |matches|, page, limit)
  }

  // ---------------------------------------------------------------------------
  // Lookups under the table invariant

  /** When live keys are unique, the row `findOneBy` returns for key `k` has an id other
      than `except` exactly when some live row other than `except` holds `k`: the
      service check `existing && existing.id !== id` is the uniqueness test. */
  lemma FindByKeyIsTaken<T, K>(rows: seq<Row<T>>, key: T -> Option<K>, k: K, except: Option<Id>)
    requires UniqueLive(rows, key)
    ensures (var f := Find(rows, ByKey(key, k)); f.Some? && Some(f.value.id) != except)
            <==> Taken(rows, key, k, except)
  {
    var p := ByKey(key, k);
    match FindIndex(rows, p)
    case None =>
      forall j | 0 <= j < |rows| && rows[j].Live()
        ensures key(rows[j].data) != Some(k)
      {
        assert !Matches(rows[j], p);
      }
    case Some(i) =>
      assert Find(rows, p) == Some(rows[i]);
      assert key(rows[i].data) == Some(k);
      forall j | 0 <= j < |rows| && rows[j].Live() && key(rows[j].data) == Some(k)
        ensures j == i
      {
      }
  }

  /** Without an excluded id, `findOneBy` finds a row with key `k` exactly when one is live. */
  lemma FindByKeyExists<T, K>(rows: seq<Row<T>>, key: T -> Option<K>, k: K)
    ensures Find(rows, ByKey(key, k)).Some? <==> Taken(rows, key, k, None)
  {
    var p := ByKey(key, k);
    if Taken(rows, key, k, None) {
      var j :| 0 <= j < |rows| && rows[j].Live() && key(rows[j].data) == Some(k);
      assert Matches(rows[j], p);
    }
  }

  /** `findOneBy({ id })` returns the live row with that id, and it is the only row with it. */
  lemma FindByIdUnique<T>(rows: seq<Row<T>>, id: Id, i: nat)
    requires DistinctIds(rows)
    requires i < |rows| && rows[i].id == id && rows[i].Live()
    ensures Find(rows, ById(id)) == Some(rows[i])
  {
    assert Matches(rows[i], ById(id));
    var j := FindIndex(rows, ById(id)).value;
    assert j <= i;
    assert rows[j].id == rows[i].id;
  }

  // ---------------------------------------------------------------------------
  // Every write keeps the table invariant

  /** `save` of a new row with a fresh id and a key no live row holds. */
  lemma InsertKeepsKeyed<T, K>(rows: seq<Row<T>>, key: T -> Option<K>, row: Row<T>)
    requires Keyed(rows, key)
    requires row.id !in Ids(rows)
    requires row.Live() ==> KeyFree(rows, key, row.data, None)
    ensures Keyed(rows + [row], key)
  {
    var r := rows + [row];
    forall i, j | 0 <= i < j < |r|
      ensures r[i].id != r[j].id
    {
      if j == |rows| {
        assert r[i].id in Ids(rows);
      }
    }
    forall i, j | 0 <= i < j < |r| && r[i].Live() && r[j].Live() && key(r[i].data).Some?
      ensures key(r[i].data) != key(r[j].data)
    {
      if j == |rows| {
        NotTakenAt(rows, key, row.data, None, i);
      }
    }
  }

  /** `update` of the one row with id `id`, whose new key clashes with no other live row. */
  lemma SetDataKeepsKeyed<T, K>(rows: seq<Row<T>>, key: T -> Option<K>, p: Row<T> -> bool, f: T -> T, id: Id)
    requires Keyed(rows, key)
    requires forall i :: 0 <= i < |rows| && p(rows[i]) ==> rows[i].id == id
    requires forall i :: 0 <= i < |rows| && p(rows[i]) && rows[i].Live() ==> KeyFree(rows, key, f(rows[i].data), Some(id))
    ensures Keyed(SetData(rows, p, f), key)
  {
    var r := SetData(rows, p, f);
    forall i, j | 0 <= i < j < |r|
      ensures r[i].id != r[j].id
    {
      assert r[i].id == rows[i].id && r[j].id == rows[j].id;
    }
    forall i, j | 0 <= i < j < |r| && r[i].Live() && r[j].Live() && key(r[i].data).Some?
      ensures key(r[i].data) != key(r[j].data)
    {
      if p(rows[i]) {
        assert rows[j].id != id && !p(rows[j]);
        NotTakenAt(rows, key, f(rows[i].data), Some(id), j);
      } else if p(rows[j]) {
        assert rows[i].id != id;
        NotTakenAt(rows, key, f(rows[j].data), Some(id), i);
      }
    }
  }

  /** The contrapositive of `Taken` at one index. */
  lemma NotTakenAt<T, K>(rows: seq<Row<T>>, key: T -> Option<K>, d: T, except: Option<Id>, i: nat)
    requires KeyFree(rows, key, d, except)
    requires i < |rows| && rows[i].Live() && Some(rows[i].id) != except
    ensures key(rows[i].data) != key(d) || key(d).None?
  {
  }

  /** `softDelete` only takes rows out of the live set. */
  lemma SoftDeleteKeepsKeyed<T, K>(rows: seq<Row<T>>, key: T -> Option<K>, p: Row<T> -> bool, now: Time)
    requires Keyed(rows, key)
    ensures Keyed(SoftDelete(rows, p, now), key)
  {
    var r := SoftDelete(rows, p, now);
    forall i, j | 0 <= i < j < |r|
      ensures r[i].id != r[j].id
    {
      assert r[i].id == rows[i].id && r[j].id == rows[j].id;
    }
  }

  /** `delete` keeps a subsequence of the rows, so both parts of the invariant survive. */
  lemma {:induction false} DeleteKeepsKeyed<T, K>(rows: seq<Row<T>>, key: T -> Option<K>, p: Row<T> -> bool)
    requires Keyed(rows, key)
    ensures Keyed(Delete(rows, p), key)
  {
    if |rows| > 0 {
      var tail := rows[1..];
      KeyedTail(rows, key);
      DeleteKeepsKeyed(tail, key, p);
      if !p(rows[0]) {
        var d := Delete(tail, p);
        forall y | y in d
          ensures y.id != rows[0].id
          ensures rows[0].Live() && y.Live() && key(rows[0].data).Some? ==> key(rows[0].data) != key(y.data)
        {
          var j :| 0 <= j < |tail| && tail[j] == y;
          assert rows[j + 1] == y;
        }
        KeyedCons(rows[0], d, key);
        assert Delete(rows, p) == [rows[0]] + d;
      } else {
        assert Delete(rows, p) == Delete(tail, p);
      }
    }
  }

  lemma KeyedTail<T, K>(rows: seq<Row<T>>, key: T -> Option<K>)
    requires |rows| > 0 && Keyed(rows, key)
    ensures Keyed(rows[1..], key)
  {
    var t := rows[1..];
    forall i, j | 0 <= i < j < |t|
      ensures t[i].id != t[j].id
    {
      assert t[i] == rows[i + 1] && t[j] == rows[j + 1];
    }
    forall i, j | 0 <= i < j < |t| && t[i].Live() && t[j].Live() && key(t[i].data).Some?
      ensures key(t[i].data) != key(t[j].data)
    {
      assert t[i] == rows[i + 1] && t[j] == rows[j + 1];
    }
  }

  lemma KeyedCons<T, K>(x: Row<T>, s: seq<Row<T>>, key: T -> Option<K>)
    requires Keyed(s, key)
    requires forall y :: y in s ==> y.id != x.id
    requires forall y :: y in s ==> (x.Live() && y.Live() && key(x.data).Some? ==> key(x.data) != key(y.data))
    ensures Keyed([x] + s, key)
  {
    var r := [x] + s;
    forall i, j | 0 <= i < j < |r|
      ensures r[i].id != r[j].id
    {
      if i == 0 {
        assert r[j] in s;
      } else {
        assert r[i] == s[i - 1] && r[j] == s[j - 1];
      }
    }
    forall i, j | 0 <= i < j < |r| && r[i].Live() && r[j].Live() && key(r[i].data).Some?
      ensures key(r[i].data) != key(r[j].data)
    {
      if i == 0 {
        assert r[j] in s;
      } else {
        assert r[i] == s[i - 1] && r[j] == s[j - 1];
      }
    }
  }

  // ---------------------------------------------------------------------------
  // What lookups see after a write

  /** Some live row outside the criterion `p` holds scoped key `k`. */
  ghost predicate TakenOutside<T, K>(rows: seq<Row<T>>, key: T -> Option<K>, k: K, p: Row<T> -> bool) {
    exists i :: 0 <= i < |rows| && rows[i].Live() && key(rows[i].data) == Some(k) && !p(rows[i])
  }

  /** Reading a row back by id after `update` of rows that all carry that id: the same
      row is found as before, with its columns replaced when the criterion covered it. */
  lemma FindAfterSetData<T>(rows: seq<Row<T>>, p: Row<T> -> bool, f: T -> T, id: Id)
    requires DistinctIds(rows)
    requires forall i :: 0 <= i < |rows| && p(rows[i]) ==> rows[i].id == id
    ensures var o := Find(rows, ById(id));
            Find(SetData(rows, p, f), ById(id)) == if o.None? then None
                                                   else if p(o.value) then Some(o.value.(data := f(o.value.data)))
                                                   else o
  {
    var r := SetData(rows, p, f);
    var q := ById<T>(id);
    match FindIndex(rows, q)
    case None =>
      forall j | 0 <= j < |r|
        ensures !Matches(r[j], q)
      {
        assert !Matches(rows[j], q);
      }
    case Some(i) =>
      forall j | 0 <= j < |r| && Matches(r[j], q)
        ensures j == i
      {
        assert rows[j].id == rows[i].id;
      }
      assert Matches(r[i], q);
      var j := FindIndex(r, q).value;
      assert j == i;
  }

  /** After `softDelete(p)`, the uniqueness test for key `k` sees exactly the live holders
      of `k` outside `p`: the deleted rows no longer block their key. */
  lemma SoftDeleteFreesKey<T, K>(rows: seq<Row<T>>, key: T -> Option<K>, p: Row<T> -> bool, now: Time, k: K)
    ensures Taken(SoftDelete(rows, p, now), key, k, None) <==> TakenOutside(rows, key, k, p)
  {
    var r := SoftDelete(rows, p, now);
    if TakenOutside(rows, key, k, p) {
      var i :| 0 <= i < |rows| && rows[i].Live() && key(rows[i].data) == Some(k) && !p(rows[i]);
      assert r[i] == rows[i];
    }
    if Taken(r, key, k, None) {
      var i :| 0 <= i < |r| && r[i].Live() && key(r[i].data) == Some(k);
      assert !p(rows[i]) && r[i] == rows[i];
    }
  }

  /** The same for `delete(p)`. */
  lemma DeleteFreesKey<T, K>(rows: seq<Row<T>>, key: T -> Option<K>, p: Row<T> -> bool, k: K)
    ensures Taken(Delete(rows, p), key, k, None) <==> TakenOutside(rows, key, k, p)
  {
    var r := Delete(rows, p);
    if TakenOutside(rows, key, k, p) {
      var i :| 0 <= i < |rows| && rows[i].Live() && key(rows[i].data) == Some(k) && !p(rows[i]);
      assert rows[i] in r;
      var j :| 0 <= j < |r| && r[j] == rows[i];
    }
    if Taken(r, key, k, None) {
      var i :| 0 <= i < |r| && r[i].Live() && key(r[i].data) == Some(k);
      assert r[i] in rows;
      var j :| 0 <= j < |rows| && rows[j] == r[i];
    }
  }

  // ---------------------------------------------------------------------------
  // Pagination

  /** Paging with a fixed `limit` reaches every match: match `i` is entry `i % limit`
      of page `i / limit + 1`. */
  lemma PaginateReaches<T>(matches: seq<T>, limit: int, i: nat)
    requires limit >= 1 && i < |matches|
    ensures var r := Paginate(matches, i / limit + 1, limit);
            i % limit < |r.data| && r.data[i % limit] == matches[i]
  {
    var page := i / limit + 1;
    assert Skip(page, limit) == (i / limit) * limit;
    assert (i / limit) * limit + i % limit == i;
    assert Skip(page, limit) <= i;
    var w := Window(matches, Skip(page, limit), limit);
    assert |w| > i % limit;
  }

  /** Every element of a listing appears on some page. */
  lemma PaginateContains<T>(s: seq<T>, x: T, limit: int)
    requires limit >= 1 && x in s
    ensures exists page :: page >= 1 && x in Paginate(s, page, limit).data
  {
    var j :| 0 <= j < |s| && s[j] == x;
    PaginateReaches(s, limit, j);
    var page := j / limit + 1;
    var r := Paginate(s, page, limit);
    assert r.data[j % limit] == x;
    assert page >= 1 && x in r.data;
  }

  /** Every live row matching `p` appears on some page of the listing. */
  lemma SelectPaginateReaches<T>(rows: seq<Row<T>>, p: Row<T> -> bool, limit: int, i: nat)
    requires limit >= 1 && i < |rows| && Matches(rows[i], p)
    ensures exists page :: page >= 1 && rows[i] in Paginate(Select(rows, p), page, limit).data
  {
    PaginateContains(Select(rows, p), rows[i], limit);
  }

  /** A live row's own key never blocks it: only other rows are counted. */
  lemma OwnKeyFree<T, K>(rows: seq<Row<T>>, key: T -> Option<K>, i: nat)
    requires Keyed(rows, key) && i < |rows| && rows[i].Live()
    ensures KeyFree(rows, key, rows[i].data, Some(rows[i].id))
  {
    if key(rows[i].data).Some? {
      forall j | 0 <= j < |rows| && rows[j].Live() && key(rows[j].data) == key(rows[i].data)
        ensures j == i
      {
      }
    }
  }
}
