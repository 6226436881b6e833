/** The batch export: pages of submissions by cursor, while the table keeps changing. */
module CursorExport {
  import opened Wrappers

  const PAGE_SIZE: nat := 500

  /** A matching submission. Ids stand for their place in the database's order; `content` is what may change. */
  datatype Row = Row(at: int, id: nat, content: int)

  type Key = (int, nat)

  function KeyOf(r: Row): Key { (r.at, r.id) }

  /** Before in the order by (`submitted_at`, `id`) descending. */
  predicate Newer(a: Key, b: Key) {
    a.0 > b.0 || (a.0 == b.0 && a.1 > b.1)
  }

  predicate Descending(rows: seq<Row>) {
    forall i, j :: 0 <= i < j < |rows| ==> Newer(KeyOf(rows[i]), KeyOf(rows[j]))
  }

  predicate UniqueIds(rows: seq<Row>) {
    forall i, j :: 0 <= i < j < |rows| ==> rows[i].id != rows[j].id
  }

  predicate Holds(rows: seq<Row>, key: Key) {
    exists i :: 0 <= i < |rows| && KeyOf(rows[i]) == key
  }

  /** What the successive queries can see: `view(k)` is the ordered answer the k-th query pages through. Rows are
      never deleted nor moved, may change their content and may be inserted anywhere; `all` holds their keys. */
  ghost predicate History(view: nat -> seq<Row>, all: set<Key>) {
    && (forall k: nat :: Descending(view(k)) && UniqueIds(view(k)))
    && (forall k: nat, key :: Holds(view(k), key) ==> key in all)
    && (forall k: nat, l: nat, key :: k <= l && Holds(view(k), key) ==> Holds(view(l), key))
  }

  /** Only rows newer than those of the first query are inserted. */
  ghost predicate NewerOnly(view: nat -> seq<Row>) {
    forall k: nat, key, first :: Holds(view(k), key) && Holds(view(0), first) ==>
      Holds(view(0), key) || Newer(key, first)
  }

  /** The place after the row with the cursor's id; the end when it is missing. */
  function PlaceAfter(rows: seq<Row>, cursor: nat): (p: nat)
    ensures p <= |rows|
    ensures forall i :: 0 <= i < |rows| && rows[i].id == cursor && UniqueIds(rows) ==> p == i + 1
  {
    if rows == [] then 0
    else if rows[0].id == cursor then 1
    else
      assert forall i :: 0 <= i < |rows[1..]| ==> rows[1..][i] == rows[i + 1];
      1 + PlaceAfter(rows[1..], cursor)
  }

  function Start(rows: seq<Row>, cursor: Option<nat>): (p: nat)
    ensures p <= |rows|
  {
    if cursor.None? then 0 else PlaceAfter(rows, cursor.value)
  }

  function Page(rows: seq<Row>, cursor: Option<nat>): seq<Row> {
    var rest := rows[Start(rows, cursor)..];
    if |rest| <= PAGE_SIZE then rest else rest[..PAGE_SIZE]
  }

  /** What is still to come after the rows already written. */
  ghost predicate Below(out: seq<Row>, key: Key) {
    out == [] || Newer(KeyOf(out[|out| - 1]), key)
  }

  ghost function Remaining(all: set<Key>, out: seq<Row>): set<Key> {
    set key | key in all && Below(out, key)
  }

  ghost predicate Resumable(rows: seq<Row>, cursor: Option<nat>, out: seq<Row>) {
    if cursor.None? then out == []
    else out != [] && out[|out| - 1].id == cursor.value && Holds(rows, KeyOf(out[|out| - 1]))
  }

  lemma StartIsBelow(rows: seq<Row>, cursor: Option<nat>, out: seq<Row>)
    requires Descending(rows) && UniqueIds(rows) && Resumable(rows, cursor, out)
    ensures forall i :: 0 <= i < |rows| ==> (Below(out, KeyOf(rows[i])) <==> Start(rows, cursor) <= i)
  {
  }

  /** A page is the stretch of the view that starts at the first row below the written ones. */
  lemma PageIsSlice(rows: seq<Row>, cursor: Option<nat>, page: seq<Row>, p: nat)
    requires page == Page(rows, cursor) && p == Start(rows, cursor)
    ensures p + |page| <= |rows| && (|page| < PAGE_SIZE ==> p + |page| == |rows|)
    ensures forall i :: 0 <= i < |page| ==> page[i] == rows[p + i]
  {
  }

  /** A page holds rows below the written ones, in order, and nothing of the view between them and its own end is left
      out. */
  lemma PageContinues(rows: seq<Row>, cursor: Option<nat>, out: seq<Row>)
    requires Descending(rows) && UniqueIds(rows) && Resumable(rows, cursor, out)
    ensures var page := Page(rows, cursor);
            && Descending(page)
            && (forall i :: 0 <= i < |page| ==>
                  page[i] in rows && Holds(rows, KeyOf(page[i])) && Below(out, KeyOf(page[i])))
            && (forall key :: Holds(rows, key) && Below(out, key) ==>
                  Holds(page, key) || (|page| >= PAGE_SIZE && Below(page, key)))
  {
    var page := Page(rows, cursor);
    var p := Start(rows, cursor);
    StartIsBelow(rows, cursor, out);
    PageIsSlice(rows, cursor, page, p);
    SliceContinues(rows, out, page, p);
  }

  lemma SliceContinues(rows: seq<Row>, out: seq<Row>, page: seq<Row>, p: nat)
    requires Descending(rows)
    requires p + |page| <= |rows| && (|page| < PAGE_SIZE ==> p + |page| == |rows|)
    requires forall i :: 0 <= i < |page| ==> page[i] == rows[p + i]
    requires forall i :: 0 <= i < |rows| ==> (Below(out, KeyOf(rows[i])) <==> p <= i)
    ensures Descending(page)
    ensures forall i :: 0 <= i < |page| ==> page[i] in rows && Holds(rows, KeyOf(page[i])) && Below(out, KeyOf(page[i]))
    ensures forall key :: Holds(rows, key) && Below(out, key) ==>
      Holds(page, key) || (|page| >= PAGE_SIZE && Below(page, key))
  {
    forall i | 0 <= i < |page|
      ensures page[i] in rows && Holds(rows, KeyOf(page[i])) && Below(out, KeyOf(page[i]))
    {
      assert page[i] == rows[p + i];
    }
    forall key | Holds(rows, key) && Below(out, key)
      ensures Holds(page, key) || (|page| >= PAGE_SIZE && Below(page, key)) {
      var i :| 0 <= i < |rows| && KeyOf(rows[i]) == key;
      if i - p < |page| {
        assert KeyOf(page[i - p]) == key;
      } else {
        assert page[|page| - 1] == rows[p + |page| - 1];
      }
    }
  }

  /** Rows of the first query are written or still to come. */
  ghost predicate Covers(first: seq<Row>, out: seq<Row>) {
    forall key :: Holds(first, key) ==> Holds(out, key) || Below(out, key)
  }

  ghost predicate SeenBy(view: nat -> seq<Row>, k: nat, r: Row) {
    exists j: nat :: j < k && r in view(j)
  }

  lemma AppendDescends(out: seq<Row>, page: seq<Row>)
    requires Descending(out) && Descending(page) && forall i :: 0 <= i < |page| ==> Below(out, KeyOf(page[i]))
    ensures Descending(out + page)
  {
  }

  lemma AppendHolds(out: seq<Row>, page: seq<Row>, key: Key)
    requires Holds(out, key) || Holds(page, key)
    ensures Holds(out + page, key)
  {
    if Holds(out, key) {
      var i :| 0 <= i < |out| && KeyOf(out[i]) == key;
      assert KeyOf((out + page)[i]) == key;
    } else {
      var i :| 0 <= i < |page| && KeyOf(page[i]) == key;
      assert KeyOf((out + page)[|out| + i]) == key;
    }
  }

  lemma AppendPage(first: seq<Row>, rows: seq<Row>, cursor: Option<nat>, out: seq<Row>)
    requires Descending(rows) && UniqueIds(rows) && Resumable(rows, cursor, out) && Descending(out)
    requires Covers(first, out) && forall key :: Holds(first, key) ==> Holds(rows, key)
    ensures var page := Page(rows, cursor);
            && Descending(out + page)
            && (if |page| < PAGE_SIZE then forall key :: Holds(first, key) ==>
                  Holds(out + page, key) else Covers(first, out + page))
  {
    PageContinues(rows, cursor, out);
    var page := Page(rows, cursor);
    AppendDescends(out, page);
    forall key | Holds(first, key)
      ensures Holds(out + page, key) || (|page| >= PAGE_SIZE && Below(out + page, key))
    {
      if Holds(out, key) || Holds(page, key) {
        AppendHolds(out, page, key);
      }
    }
  }

  lemma RemainingShrinks(view: nat -> seq<Row>, all: set<Key>, k: nat, cursor: Option<nat>, out: seq<Row>)
    requires History(view, all) && Resumable(view(k), cursor, out) && Descending(out)
    requires |Page(view(k), cursor)| >= PAGE_SIZE
    ensures Remaining(all, out + Page(view(k), cursor)) < Remaining(all, out)
  {
    var page := Page(view(k), cursor);
    PageContinues(view(k), cursor, out);
    var last := page[|page| - 1];
    assert (out + page)[|out + page| - 1] == last;
    assert Holds(view(k), KeyOf(last)) && KeyOf(last) in all && Below(out, KeyOf(last));
    forall key | key in Remaining(all, out + page) ensures key in Remaining(all, out) && key != KeyOf(last) {
      assert Newer(KeyOf(last), key);
    }
    assert KeyOf(last) in Remaining(all, out);
  }

  // ----- When only newer rows arrive -----

  lemma {:induction false} SameKeysInOrder(a: seq<Row>, b: seq<Row>)
    requires Descending(a) && Descending(b) && forall key :: Holds(a, key) <==> Holds(b, key)
    ensures |a| == |b| && forall i :: 0 <= i < |a| ==> KeyOf(a[i]) == KeyOf(b[i])
  {
    if a == [] {
      if b != [] {
        assert Holds(b, KeyOf(b[0]));
      }
    } else {
      assert Holds(a, KeyOf(a[0]));
      var i :| 0 <= i < |b| && KeyOf(b[i]) == KeyOf(a[0]);
      assert Holds(b, KeyOf(b[0]));
      var j :| 0 <= j < |a| && KeyOf(a[j]) == KeyOf(b[0]);
      assert i == 0 && j == 0;
      HoldsRest(a);
      HoldsRest(b);
      SameKeysInOrder(a[1..], b[1..]);
      assert forall k :: 0 < k < |a| ==> a[k] == a[1..][k - 1] && b[k] == b[1..][k - 1];
    }
  }

  lemma HoldsRest(a: seq<Row>)
    requires a != [] && Descending(a)
    ensures Descending(a[1..])
    ensures forall key :: Holds(a[1..], key) <==> Holds(a, key) && key != KeyOf(a[0])
  {
  }

  /** All keys written are keys of the first query. */
  ghost predicate OnlyFirst(first: seq<Row>, out: seq<Row>) {
    forall i :: 0 <= i < |out| ==> Holds(first, KeyOf(out[i]))
  }

  lemma PageIsOld(view: nat -> seq<Row>, all: set<Key>, k: nat, cursor: Option<nat>, out: seq<Row>)
    requires History(view, all) && NewerOnly(view) && Resumable(view(k), cursor, out)
    requires OnlyFirst(view(0), out) && (out == [] ==> k == 0)
    ensures OnlyFirst(view(0), out + Page(view(k), cursor))
  {
  }

  lemma ExactlyFirst(first: seq<Row>, out: seq<Row>)
    requires Descending(first) && Descending(out) && OnlyFirst(first, out)
    requires forall key :: Holds(first, key) ==> Holds(out, key)
    ensures |out| == |first| && forall i :: 0 <= i < |out| ==> KeyOf(out[i]) == KeyOf(first[i])
  {
    forall key ensures Holds(first, key) <==> Holds(out, key) {
      if Holds(out, key) {
        var i :| 0 <= i < |out| && KeyOf(out[i]) == key;
      }
    }
    SameKeysInOrder(first, out);
  }

  ghost predicate AllSeen(view: nat -> seq<Row>, k: nat, out: seq<Row>) {
    forall i :: 0 <= i < |out| ==> SeenBy(view, k, out[i])
  }

  ghost predicate Progress(view: nat -> seq<Row>, k: nat, cursor: Option<nat>, out: seq<Row>) {
    && Descending(out) && Resumable(view(k), cursor, out) && Covers(view(0), out) && AllSeen(view, k, out)
    && (out == [] ==> k == 0)
    && (NewerOnly(view) ==> OnlyFirst(view(0), out))
  }

  ghost predicate Complete(view: nat -> seq<Row>, k: nat, out: seq<Row>) {
    && Descending(out) && AllSeen(view, k, out)
    && (forall key :: Holds(view(0), key) ==> Holds(out, key))
    && (NewerOnly(view) ==> |out| == |view(0)| && forall i :: 0 <= i < |out| ==> KeyOf(out[i]) == KeyOf(view(0)[i]))
  }

  lemma PageIsSeen(view: nat -> seq<Row>, k: nat, out: seq<Row>, page: seq<Row>)
    requires AllSeen(view, k, out) && forall i :: 0 <= i < |page| ==> page[i] in view(k)
    ensures AllSeen(view, k + 1, out + page)
  {
  }

  lemma FullPage(view: nat -> seq<Row>, all: set<Key>, k: nat, cursor: Option<nat>, out: seq<Row>)
    requires History(view, all) && Progress(view, k, cursor, out) && |Page(view(k), cursor)| >= PAGE_SIZE
    ensures var page := Page(view(k), cursor);
            && Progress(view, k + 1, Some(page[|page| - 1].id), out + page)
            && Remaining(all, out + page) < Remaining(all, out)
  {
    var page := Page(view(k), cursor);
    PageContinues(view(k), cursor, out);
    AppendPage(view(0), view(k), cursor, out);
    PageIsSeen(view, k, out, page);
    RemainingShrinks(view, all, k, cursor, out);
    assert Holds(view(k), KeyOf(page[|page| - 1]));
    if NewerOnly(view) {
      PageIsOld(view, all, k, cursor, out);
    }
  }

  lemma LastPage(view: nat -> seq<Row>, all: set<Key>, k: nat, cursor: Option<nat>, out: seq<Row>)
    requires History(view, all) && Progress(view, k, cursor, out) && |Page(view(k), cursor)| < PAGE_SIZE
    ensures Complete(view, k + 1, out + Page(view(k), cursor))
  {
    var page := Page(view(k), cursor);
    PageContinues(view(k), cursor, out);
    AppendPage(view(0), view(k), cursor, out);
    PageIsSeen(view, k, out, page);
    if NewerOnly(view) {
      PageIsOld(view, all, k, cursor, out);
      ExactlyFirst(view(0), out + page);
    }
  }

  /** Writes page after page. It ends, writes no row twice, writes every row the first query could see, and writes
      each row as some query saw it. When only newer rows arrive it writes exactly the rows of the first query. */
  method Export(view: nat -> seq<Row>, ghost all: set<Key>) returns (out: seq<Row>, queries: nat)
    requires History(view, all)
    ensures Complete(view, queries, out)
  {
    var cursor := None;
    out, queries := [], 0;
    while true
      invariant Progress(view, queries, cursor, out)
      decreases Remaining(all, out)
    {
      var page := Page(view(queries), cursor);
      if |page| < PAGE_SIZE {
        LastPage(view, all, queries, cursor, out);
        out, queries := out + page, queries + 1;
        break;
      }
      FullPage(view, all, queries, cursor, out);
      out, queries := out + page, queries + 1;
      cursor := Some(page[|page| - 1].id);
    }
  }
}
