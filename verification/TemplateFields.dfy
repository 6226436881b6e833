/** Reconciling the fields of a template with an edited list, without losing answered fields. */
module TemplateFields {
  import opened Wrappers
  import opened JsText
  import FormKeys

  type Id = Text

  datatype Extras = Extras(
    options: Option<Text>, section: Option<Text>, placeholder: Option<Text>, helpText: Option<Text>)

  /** The columns an edit rewrites, besides key and order. */
  datatype Attributes = Attributes(caption: Text, kind: Text, required: bool, extras: Extras)

  datatype Row = Row(template: Id, key: Text, order: int, attributes: Attributes)

  /** A field as it arrives; an empty id counts as none. */
  datatype Incoming = Incoming(
    id: Option<Id>, key: Option<Text>, caption: Text, kind: Option<Text>, required: Option<bool>,
    extras: Extras)

  type Table = map<Id, Row>

  predicate HasId(f: Incoming) { f.id.Some? && f.id.value != [] }

  function AttributesOf(f: Incoming): Attributes {
    Attributes(f.caption,
               if f.kind.Some? then f.kind.value else Ascii("TEXT"),
               if f.required.Some? then f.required.value else true,
               f.extras)
  }

  function KeyFields(fs: seq<Incoming>): seq<FormKeys.Field> {
    seq(|fs|, i requires 0 <= i < |fs| => FormKeys.Field(fs[i].key, fs[i].caption))
  }

  /** The keys after `ensureUniqueKeys`. */
  function UniqueKeys(fs: seq<Incoming>, snake: Text -> Text): (ks: seq<Text>)
    ensures |ks| == |fs|
  {
    FormKeys.KeysOf(FormKeys.BaseKeys(KeyFields(fs), snake))
  }

  predicate Comes(fs: seq<Incoming>, id: Id) {
    exists i :: 0 <= i < |fs| && HasId(fs[i]) && fs[i].id.value == id
  }

  /** Only fields of the template that do not come and have no submission value are deleted. */
  predicate Deletable(t: Table, template: Id, fs: seq<Incoming>, referenced: set<Id>, id: Id) {
    id in t && t[id].template == template && !Comes(fs, id) && id !in referenced
  }

  function AfterDelete(t: Table, template: Id, fs: seq<Incoming>, referenced: set<Id>): Table {
    map id | id in t && !Deletable(t, template, fs, referenced, id) :: t[id]
  }

  /** The row a position writes: the one with its id, or a new one with a generated id. */
  function Target(f: Incoming, generated: Id): Id {
    if HasId(f) then f.id.value else generated
  }

  /** The unique index on (template, key). */
  predicate KeyTaken(t: Table, template: Id, key: Text, except: Id) {
    exists id :: id in t && id != except && t[id].template == template && t[id].key == key
  }

  /** One upsert: an existing row keeps its template; a clash on (template, key) fails. */
  function Upsert(t: Table, id: Id, row: Row): Option<Table> {
    var owner := if id in t then t[id].template else row.template;
    if KeyTaken(t, owner, row.key, id) then None
    else Some(t[id := row.(template := owner)])
  }

  /** The first `n` upserts, stopping at the first clash. */
  function UpsertAll(t: Table, ids: seq<Id>, rows: seq<Row>, n: nat): Option<Table>
    requires n <= |ids| == |rows|
  {
    if n == 0 then Some(t)
    else
      var before := UpsertAll(t, ids, rows, n - 1);
      if before.None? then None else Upsert(before.value, ids[n - 1], rows[n - 1])
  }

  /** The id and the row each position writes. */
  function Targets(fs: seq<Incoming>, generated: seq<Id>): (ids: seq<Id>)
    requires |fs| == |generated|
    ensures |ids| == |fs|
  {
    seq(|fs|, i requires 0 <= i < |fs| => Target(fs[i], generated[i]))
  }

  function NewRows(template: Id, fs: seq<Incoming>, keys: seq<Text>): (rows: seq<Row>)
    requires |fs| == |keys|
    ensures |rows| == |fs|
    ensures forall i :: 0 <= i < |rows| ==> rows[i].template == template && rows[i].order == i && rows[i].key == keys[i]
  {
    seq(|fs|, i requires 0 <= i < |fs| => Row(template, keys[i], i, AttributesOf(fs[i])))
  }

  /** What is saved for the incoming field at a position: its caption, its kind or TEXT, whether it is required, which
      it is unless it says otherwise, and the rest as it came. */
  predicate SavedAs(r: Table, id: Id, template: Id, f: Incoming, key: Text, order: int) {
    && id in r && r[id].template == template && r[id].key == key && r[id].order == order
    && r[id].attributes.caption == f.caption
    && (match f.kind
        case Some(kind) => r[id].attributes.kind == kind
        case None => r[id].attributes.kind == Ascii("TEXT"))
    && (r[id].attributes.required <==> f.required != Some(false))
    && r[id].attributes.extras == f.extras
  }

  /** The id of every incoming field: its own, if it has one that is not empty, else a generated one. */
  predicate IdsOf(fs: seq<Incoming>, generated: seq<Id>, ids: seq<Id>) {
    && |ids| == |generated| == |fs|
    && forall i :: 0 <= i < |fs| ==>
         if fs[i].id == None || fs[i].id == Some([]) then ids[i] == generated[i] else fs[i].id == Some(ids[i])
  }

  class TemplateStore {
    var fields: Table
    /** The field ids of all submission values. */
    var values: seq<Id>

    constructor ()
      ensures fields == map[] && values == []
    {
      fields, values := map[], [];
    }

    function Referenced(): set<Id>
      reads this
    {
      set v | v in values
    }

    /** Deletes the fields that do not come and have no submission value. */
    method DeleteMissing(template: Id, fs: seq<Incoming>)
      modifies this`fields
      ensures fields == AfterDelete(old(fields), template, fs, Referenced())
      ensures forall id :: id in fields ==> id in old(fields) && fields[id] == old(fields)[id]
      ensures forall id :: id in old(fields) && id !in fields <==>
                && id in old(fields) && old(fields)[id].template == template && id !in values
                && (id == [] || forall i :: 0 <= i < |fs| ==> fs[i].id != Some(id))
    {
      var toDelete := set id | id in fields && fields[id].template == template && !Comes(fs, id);
      var safeToDelete := set id | id in toDelete && id !in values;
      fields := map id | id in fields && id !in safeToDelete :: fields[id];
    }

    method UpsertField(id: Id, row: Row) returns (ok: bool)
      modifies this`fields
      ensures ok == Upsert(old(fields), id, row).Some?
      ensures fields == if ok then Upsert(old(fields), id, row).value else old(fields)
    {
      var owner := if id in fields then fields[id].template else row.template;
      if KeyTaken(fields, owner, row.key, id) {
        return false;
      }
      fields := fields[id := row.(template := owner)];
      return true;
    }

    /** The transaction of `update` on the fields: it commits, or leaves everything as it was. */
    method Update(template: Id, fs: seq<Incoming>, snake: Text -> Text, generated: seq<Id>) returns (committed: bool)
      requires |generated| == |fs|
      modifies this`fields
      ensures var result := UpsertAll(AfterDelete(old(fields), template, fs, Referenced()), Targets(fs, generated),
                                      NewRows(template, fs, UniqueKeys(fs, snake)), |fs|);
              && committed == result.Some?
              && fields == if committed then result.value else old(fields)
      ensures committed ==> forall ids :: IdsOf(fs, generated, ids) && OwnOrFresh(old(fields), template, ids) ==>
                forall i :: 0 <= i < |fs| ==> SavedAs(fields, ids[i], template, fs[i], UniqueKeys(fs, snake)[i], i)
    {
      var snapshot := fields;
      var rekeyed := FormKeys.EnsureUniqueKeys(KeyFields(fs), snake);
      var keys := seq(|fs|, i requires 0 <= i < |fs| => rekeyed[i].key.value);
      assert keys == UniqueKeys(fs, snake);
      DeleteMissing(template, fs);
      committed := UpsertRows(Targets(fs, generated), NewRows(template, fs, keys));
      if !committed {
        fields := snapshot;
      } else {
        forall ids | IdsOf(fs, generated, ids) && OwnOrFresh(snapshot, template, ids)
          ensures forall i :: 0 <= i < |fs| ==> SavedAs(fields, ids[i], template, fs[i], keys[i], i)
        {
          FieldsAreSaved(snapshot, template, fs, keys, generated, ids, Referenced());
        }
      }
    }

    /** The loop over the incoming fields, stopped by the first clash. */
    method UpsertRows(ids: seq<Id>, rows: seq<Row>) returns (ok: bool)
      requires |ids| == |rows|
      modifies this`fields
      ensures var result := UpsertAll(old(fields), ids, rows, |ids|);
              && ok == result.Some?
              && (ok ==> fields == result.value)
    {
      for i := 0 to |ids|
        invariant UpsertAll(old(fields), ids, rows, i) == Some(fields)
      {
        ok := UpsertField(ids[i], rows[i]);
        if !ok {
          NoneStaysNone(old(fields), ids, rows, i + 1, |ids|);
          return;
        }
      }
      return true;
    }
  }

  lemma {:induction false} NoneStaysNone(t: Table, ids: seq<Id>, rows: seq<Row>, n: nat, m: nat)
    requires n <= m <= |ids| == |rows| && UpsertAll(t, ids, rows, n).None?
    ensures UpsertAll(t, ids, rows, m).None?
  {
    if n < m {
      NoneStaysNone(t, ids, rows, n, m - 1);
    }
  }

  // ----- What a committed update leaves -----

  /** No field with a submission value is ever deleted, whatever arrives. */
  lemma {:induction false} ReferencedFieldsSurvive(t: Table, template: Id, fs: seq<Incoming>, referenced: set<Id>,
                                                   ids: seq<Id>, rows: seq<Row>, n: nat, id: Id)
    requires n <= |ids| == |rows| && id in t && id in referenced
    ensures var r := UpsertAll(AfterDelete(t, template, fs, referenced), ids, rows, n);
            r.Some? ==> id in r.value && r.value[id].template == t[id].template
  {
    if n > 0 {
      ReferencedFieldsSurvive(t, template, fs, referenced, ids, rows, n - 1, id);
    }
  }

  /** Every target is used once and belongs to this template or to no row. */
  predicate OwnOrFresh(t: Table, template: Id, ids: seq<Id>) {
    && (forall i :: 0 <= i < |ids| && ids[i] in t ==> t[ids[i]].template == template)
    && (forall i, j :: 0 <= i < j < |ids| ==> ids[i] != ids[j])
  }

  predicate Untouched(ids: seq<Id>, n: nat, id: Id)
    requires n <= |ids|
  {
    id !in ids[..n]
  }

  /** The table with the first `n` rows written at their targets. */
  ghost predicate Written(t: Table, r: Table, ids: seq<Id>, rows: seq<Row>, n: nat)
    requires n <= |ids| == |rows|
  {
    && (forall i :: 0 <= i < n ==> ids[i] in r && r[ids[i]] == rows[i])
    && (forall id :: id in t && id !in ids[..n] ==> id in r && r[id] == t[id])
    && (forall id :: id in r ==> id in t || id in ids[..n])
  }

  /** When position `i` is written, its key is not that of an earlier position, nor the present key of a
      field of the template that is kept and not written before it. */
  predicate KeyFits(t: Table, template: Id, ids: seq<Id>, rows: seq<Row>, i: nat)
    requires i < |ids| == |rows|
  {
    && (forall j :: 0 <= j < i ==> rows[j].key != rows[i].key)
    && (forall id :: id in t && t[id].template == template && t[id].key == rows[i].key ==>
          id == ids[i] || !Untouched(ids, i, id))
  }

  lemma KeyTakenIffNotFits(t: Table, r: Table, template: Id, ids: seq<Id>, rows: seq<Row>, i: nat)
    requires i < |ids| == |rows| && OwnOrFresh(t, template, ids) && Written(t, r, ids, rows, i)
    requires forall k :: 0 <= k < |rows| ==> rows[k].template == template
    ensures KeyTaken(r, template, rows[i].key, ids[i]) <==> !KeyFits(t, template, ids, rows, i)
  {
  }

  lemma OneMoreWritten(t: Table, r: Table, template: Id, ids: seq<Id>, rows: seq<Row>, i: nat)
    requires i < |ids| == |rows| && OwnOrFresh(t, template, ids) && Written(t, r, ids, rows, i)
    ensures ids[i] in r ==> r[ids[i]].template == template
    ensures Written(t, r[ids[i] := rows[i]], ids, rows, i + 1)
  {
  }

  lemma UpsertWritesNext(t: Table, r: Table, template: Id, ids: seq<Id>, rows: seq<Row>, i: nat)
    requires i < |ids| == |rows| && OwnOrFresh(t, template, ids) && Written(t, r, ids, rows, i)
    requires forall k :: 0 <= k < |rows| ==> rows[k].template == template
    ensures var next := Upsert(r, ids[i], rows[i]);
            && (next.Some? <==> KeyFits(t, template, ids, rows, i))
            && (next.Some? ==> Written(t, next.value, ids, rows, i + 1))
  {
    KeyTakenIffNotFits(t, r, template, ids, rows, i);
    OneMoreWritten(t, r, template, ids, rows, i);
  }

  predicate AllFit(t: Table, template: Id, ids: seq<Id>, rows: seq<Row>, n: nat)
    requires n <= |ids| == |rows|
  {
    forall i :: 0 <= i < n ==> KeyFits(t, template, ids, rows, i)
  }

  lemma AllFitStep(t: Table, template: Id, ids: seq<Id>, rows: seq<Row>, n: nat)
    requires n < |ids| == |rows|
    ensures AllFit(t, template, ids, rows, n + 1) <==>
      AllFit(t, template, ids, rows, n) && KeyFits(t, template, ids, rows, n)
  {
  }

  /** The upserts succeed exactly when every key fits, and then write every position and nothing else. */
  lemma {:induction false} UpsertsCharacterized(t: Table, template: Id, ids: seq<Id>, rows: seq<Row>, n: nat)
    requires n <= |ids| == |rows| && OwnOrFresh(t, template, ids)
    requires forall k :: 0 <= k < |rows| ==> rows[k].template == template
    ensures var r := UpsertAll(t, ids, rows, n);
            && (r.Some? <==> AllFit(t, template, ids, rows, n))
            && (r.Some? ==> Written(t, r.value, ids, rows, n))
  {
    if n > 0 {
      UpsertsCharacterized(t, template, ids, rows, n - 1);
      AllFitStep(t, template, ids, rows, n - 1);
      var before := UpsertAll(t, ids, rows, n - 1);
      if before.Some? {
        UpsertWritesNext(t, before.value, template, ids, rows, n - 1);
      }
    }
  }

  /** A field of the template that does not come stays exactly when some submission value refers to it. */
  predicate KeptOrphan(t: Table, template: Id, fs: seq<Incoming>, referenced: set<Id>, id: Id) {
    id in t && t[id].template == template && !Comes(fs, id) && id in referenced
  }

  lemma ComingIdsAreTargets(fs: seq<Incoming>, generated: seq<Id>, id: Id)
    requires |fs| == |generated| && Comes(fs, id)
    ensures id in Targets(fs, generated)
  {
    var i :| 0 <= i < |fs| && HasId(fs[i]) && fs[i].id.value == id;
    assert Targets(fs, generated)[i] == id;
  }

  /** The template has exactly the written rows and the kept orphans; the fields of other templates are as before. */
  ghost predicate ExactlyEdited(t: Table, r: Table, template: Id, fs: seq<Incoming>, referenced: set<Id>, ids: seq<Id>,
                                rows: seq<Row>)
    requires |ids| == |rows|
  {
    && (forall i :: 0 <= i < |ids| ==> ids[i] in r && r[ids[i]] == rows[i])
    && (forall id :: id in r && r[id].template == template ==> id in ids || KeptOrphan(t, template, fs, referenced, id))
    && (forall id :: KeptOrphan(t, template, fs, referenced, id) && id !in ids ==> id in r && r[id] == t[id])
    && (forall id :: id in t && t[id].template != template ==> id in r && r[id] == t[id])
    && (forall id :: id in r && r[id].template != template ==> id in t && r[id] == t[id])
  }

  lemma WrittenIsExact(t: Table, r: Table, template: Id, fs: seq<Incoming>, referenced: set<Id>, ids: seq<Id>,
                       rows: seq<Row>)
    requires |ids| == |rows| && OwnOrFresh(t, template, ids)
    requires forall i :: 0 <= i < |rows| ==> rows[i].template == template
    requires forall id :: Comes(fs, id) ==> id in ids
    requires Written(AfterDelete(t, template, fs, referenced), r, ids, rows, |ids|)
    ensures ExactlyEdited(t, r, template, fs, referenced, ids, rows)
  {
    assert ids[..|ids|] == ids;
  }

  /** A row keeps its owner through all upserts. */
  lemma {:induction false} OwnersStay(t: Table, ids: seq<Id>, rows: seq<Row>, n: nat, id: Id)
    requires n <= |ids| == |rows| && id in t
    ensures var r := UpsertAll(t, ids, rows, n); r.Some? ==> id in r.value && r.value[id].template == t[id].template
  {
    if n > 0 {
      OwnersStay(t, ids, rows, n - 1, id);
    }
  }

  /** An exact edit has used ids of this template or new ones, each once. */
  lemma {:induction false} ExactMeansOwnOrFresh(t: Table, template: Id, fs: seq<Incoming>, referenced: set<Id>,
                                                ids: seq<Id>,
                                                rows: seq<Row>)
    requires |ids| == |rows| && forall i :: 0 <= i < |rows| ==> rows[i].template == template && rows[i].order == i
    requires var r := UpsertAll(AfterDelete(t, template, fs, referenced), ids, rows, |ids|);
             r.Some? && ExactlyEdited(t, r.value, template, fs, referenced, ids, rows)
    ensures OwnOrFresh(t, template, ids)
  {
    var start := AfterDelete(t, template, fs, referenced);
    var r := UpsertAll(start, ids, rows, |ids|).value;
    forall i | 0 <= i < |ids| && ids[i] in t ensures t[ids[i]].template == template {
      if ids[i] in start {
        OwnersStay(start, ids, rows, |ids|, ids[i]);
      }
      assert r[ids[i]] == rows[i];
    }
    forall i, j | 0 <= i < j < |ids| ensures ids[i] != ids[j] {
      assert r[ids[i]] == rows[i] && r[ids[j]] == rows[j];
      assert rows[i].order != rows[j].order;
    }
  }

  lemma {:induction false} OwnOrFreshMeansExact(t: Table, template: Id, fs: seq<Incoming>, keys: seq<Text>,
                                                generated: seq<Id>,
                                                referenced: set<Id>)
    requires |fs| == |keys| == |generated| && OwnOrFresh(t, template, Targets(fs, generated))
    ensures var ids, rows := Targets(fs, generated), NewRows(template, fs, keys);
            var start := AfterDelete(t, template, fs, referenced);
            var r := UpsertAll(start, ids, rows, |fs|);
            && (r.Some? <==> AllFit(start, template, ids, rows, |fs|))
            && (r.Some? ==> ExactlyEdited(t, r.value, template, fs, referenced, ids, rows))
  {
    var ids, rows := Targets(fs, generated), NewRows(template, fs, keys);
    var start := AfterDelete(t, template, fs, referenced);
    UpsertsCharacterized(start, template, ids, rows, |fs|);
    var r := UpsertAll(start, ids, rows, |fs|);
    if r.Some? {
      forall id | Comes(fs, id) ensures id in ids {
        ComingIdsAreTargets(fs, generated, id);
      }
      WrittenIsExact(t, r.value, template, fs, referenced, ids, rows);
    }
  }

  /** A committed update has saved every incoming field under its key, in order. */
  lemma {:induction false} FieldsAreSaved(t: Table, template: Id, fs: seq<Incoming>, keys: seq<Text>,
                                          generated: seq<Id>, ids: seq<Id>,
                                          referenced: set<Id>)
    requires |fs| == |keys| && IdsOf(fs, generated, ids) && OwnOrFresh(t, template, ids)
    ensures var r := UpsertAll(AfterDelete(t, template, fs, referenced), Targets(fs, generated),
                               NewRows(template, fs, keys), |fs|);
            r.Some? ==> forall i :: 0 <= i < |fs| ==> SavedAs(r.value, ids[i], template, fs[i], keys[i], i)
  {
    assert ids == Targets(fs, generated);
    OwnOrFreshMeansExact(t, template, fs, keys, generated, referenced);
  }

  /** The keys of the incoming fields are distinct exactly when no base key is one generated for another. */
  lemma ClashFreeIff(fs: seq<Incoming>, snake: Text -> Text)
    ensures FormKeys.NoRepeats(UniqueKeys(fs, snake)) <==> FormKeys.NoClash(FormKeys.BaseKeys(KeyFields(fs), snake))
  {
    var bs := FormKeys.BaseKeys(KeyFields(fs), snake);
    FormKeys.DistinctIffNoClash(bs);
    assert UniqueKeys(fs, snake) == FormKeys.KeysOf(bs);
  }

  predicate DistinctRows(rows: seq<Row>) {
    forall i, j :: 0 <= i < j < |rows| ==> rows[i].key != rows[j].key
  }

  lemma AllFitMeansDistinct(t: Table, template: Id, ids: seq<Id>, rows: seq<Row>)
    requires |ids| == |rows|
    ensures AllFit(t, template, ids, rows, |rows|) ==> DistinctRows(rows)
    ensures (forall id :: id in t ==> t[id].template != template) ==>
              (AllFit(t, template, ids, rows, |rows|) <==> DistinctRows(rows))
  {
    if AllFit(t, template, ids, rows, |rows|) {
      forall i, j | 0 <= i < j < |rows| ensures rows[i].key != rows[j].key {
        assert KeyFits(t, template, ids, rows, j);
      }
    }
  }

  lemma SameKeys(rows: seq<Row>, keys: seq<Text>)
    requires |rows| == |keys| && forall i :: 0 <= i < |rows| ==> rows[i].key == keys[i]
    ensures DistinctRows(rows) <==> FormKeys.NoRepeats(keys)
  {
    if FormKeys.NoRepeats(keys) {
      forall i, j | 0 <= i < j < |rows| ensures rows[i].key != rows[j].key {
        assert keys[i] != keys[j];
      }
    }
  }

  lemma {:induction false} CommitsOnlyWithDistinctKeys(t: Table, template: Id, fs: seq<Incoming>, keys: seq<Text>,
                                                       generated: seq<Id>,
                                                       referenced: set<Id>)
    requires |fs| == |generated| == |keys| && OwnOrFresh(t, template, Targets(fs, generated))
    ensures var start := AfterDelete(t, template, fs, referenced);
            var r := UpsertAll(start, Targets(fs, generated), NewRows(template, fs, keys), |fs|);
            && (r.Some? ==> FormKeys.NoRepeats(keys))
            && ((forall id :: id in start ==> start[id].template != template) ==>
                  (r.Some? <==> FormKeys.NoRepeats(keys)))
  {
    var rows := NewRows(template, fs, keys);
    OwnOrFreshMeansExact(t, template, fs, keys, generated, referenced);
    SameKeys(rows, keys);
    AllFitMeansDistinct(AfterDelete(t, template, fs, referenced), template, Targets(fs, generated), rows);
  }

  /** With ids of this template or new ones, an update commits only if no base key is one generated for another; and on
      a template of which no field is left before the upserts, exactly then. */
  lemma {:induction false} CommitsOnlyWithoutClash(t: Table, template: Id, fs: seq<Incoming>, snake: Text -> Text,
                                                   generated: seq<Id>,
                                                   referenced: set<Id>)
    requires |fs| == |generated| && OwnOrFresh(t, template, Targets(fs, generated))
    ensures var start := AfterDelete(t, template, fs, referenced);
            var r := UpsertAll(start, Targets(fs, generated), NewRows(template, fs, UniqueKeys(fs, snake)), |fs|);
            && (r.Some? ==> FormKeys.NoClash(FormKeys.BaseKeys(KeyFields(fs), snake)))
            && ((forall id :: id in start ==> start[id].template != template) ==>
                  (r.Some? <==> FormKeys.NoClash(FormKeys.BaseKeys(KeyFields(fs), snake))))
  {
    ClashFreeIff(fs, snake);
    CommitsOnlyWithDistinctKeys(t, template, fs, UniqueKeys(fs, snake), generated, referenced);
  }

  /** A committed update leaves exactly the incoming fields, in order, and the kept orphans, and nothing else changed,
      exactly when every id is this template's or new and comes once. With such ids it commits exactly when every key
      fits when it is written. */
  lemma {:induction false} UpdateIsExactIff(t: Table, template: Id, fs: seq<Incoming>, keys: seq<Text>,
                                            generated: seq<Id>,
                                            referenced: set<Id>)
    requires |fs| == |keys| == |generated|
    ensures var ids, rows := Targets(fs, generated), NewRows(template, fs, keys);
            var start := AfterDelete(t, template, fs, referenced);
            var r := UpsertAll(start, ids, rows, |fs|);
            && (r.Some? ==>
                  (ExactlyEdited(t, r.value, template, fs, referenced, ids, rows) <==> OwnOrFresh(t, template, ids)))
            && (OwnOrFresh(t, template, ids) ==> (r.Some? <==> AllFit(start, template, ids, rows, |fs|)))
  {
    var ids, rows := Targets(fs, generated), NewRows(template, fs, keys);
    var r := UpsertAll(AfterDelete(t, template, fs, referenced), ids, rows, |fs|);
    if OwnOrFresh(t, template, ids) {
      OwnOrFreshMeansExact(t, template, fs, keys, generated, referenced);
    } else if r.Some? && ExactlyEdited(t, r.value, template, fs, referenced, ids, rows) {
      ExactMeansOwnOrFresh(t, template, fs, referenced, ids, rows);
    }
  }

  /** An id of another template is rewritten there, and this template gets nothing. */
  lemma {:induction false} ForeignIdIsRewritten(t: Table, template: Id, id: Id, row: Row)
    requires id in t && row.template == template != t[id].template && !KeyTaken(t, t[id].template, row.key, id)
    ensures var r := UpsertAll(t, [id], [row], 1);
            && r.Some? && r.value[id].template != template && r.value[id].key == row.key
            && (forall other :: other in r.value && r.value[other].template == template ==>
                  other in t && r.value[other] == t[other])
  {
    assert UpsertAll(t, [id], [row], 0) == Some(t);
  }

  /** An id that comes twice commits too, and keeps only its second field. */
  lemma {:induction false} RepeatedIdKeepsTheLast(t: Table, template: Id, id: Id, first: Row, second: Row)
    requires id !in t && first.template == second.template == template
    requires !KeyTaken(t, template, first.key, id) && !KeyTaken(t, template, second.key, id)
    ensures UpsertAll(t, [id, id], [first, second], 2) == Some(t[id := second])
  {
    var one := t[id := first];
    assert UpsertAll(t, [id, id], [first, second], 0) == Some(t);
    assert UpsertAll(t, [id, id], [first, second], 1) == Some(one);
    assert !KeyTaken(one, template, second.key, id);
    assert one[id := second] == t[id := second];
  }

  /** The row of an existing field after the first `n` upserts: that of the last position with its id, under its
      owner. */
  function FinalRow(t: Table, ids: seq<Id>, rows: seq<Row>, n: nat, id: Id): Row
    requires n <= |ids| == |rows| && id in t
  {
    if n == 0 then t[id]
    else if ids[n - 1] == id then rows[n - 1].(template := t[id].template)
    else FinalRow(t, ids, rows, n - 1, id)
  }

  lemma {:induction false} FinalRowOwner(t: Table, ids: seq<Id>, rows: seq<Row>, n: nat, id: Id)
    requires n <= |ids| == |rows| && id in t
    ensures FinalRow(t, ids, rows, n, id).template == t[id].template
  {
    if n > 0 {
      FinalRowOwner(t, ids, rows, n - 1, id);
    }
  }

  lemma {:induction false} UpsertsLeaveFinalRow(t: Table, ids: seq<Id>, rows: seq<Row>, n: nat, id: Id)
    requires n <= |ids| == |rows| && UpsertAll(t, ids, rows, n).Some?
    ensures var r := UpsertAll(t, ids, rows, n).value;
            && (id in t ==> id in r && r[id] == FinalRow(t, ids, rows, n, id))
            && (id in r && id !in t ==> exists i :: 0 <= i < n && r[id].template == rows[i].template)
  {
    if n > 0 {
      UpsertsLeaveFinalRow(t, ids, rows, n - 1, id);
      if id in t {
        FinalRowOwner(t, ids, rows, n - 1, id);
      }
    }
  }
}
