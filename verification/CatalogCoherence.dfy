/** The catalogs stay coherent: what is cached is what its loader would give now. */
module CatalogCoherence {
  import opened Wrappers
  import opened JsText
  import opened Catalogs
  import opened CatalogServices

  // ----- What the template services change -----

  /** Only fields of the given templates changed. */
  ghost predicate OnlyFieldsOf(t: TemplateFields.Table, r: TemplateFields.Table, owners: set<Id>) {
    && (forall id :: id in t && t[id].template !in owners ==> id in r && r[id] == t[id])
    && (forall id :: id in r && r[id].template !in owners ==> id in t && r[id] == t[id])
  }

  /** Templates of the organization, with `id` among them. */
  ghost predicate OwnersWith(db: Db, org: Org, id: Id, owners: set<Id>) {
    id in owners && forall o :: o in owners && o != id ==> OwnTemplate(db, o, org)
  }

  /** Only the template `id`, of `org` before and after, and fields of templates of `org` changed. */
  lemma TemplateChange(db: Db, after: Db, org: Org, id: Id, owners: set<Id>)
    requires after == db.(templates := after.templates, fields := after.fields)
    requires after.templates - {id} == db.templates - {id} && OnlyFieldsOf(db.fields, after.fields, owners)
    requires OwnersWith(db, org, id, owners)
    requires id in db.templates ==> db.templates[id].org == org
    requires id in after.templates ==> after.templates[id].org == org
    ensures TemplatesOf(db, after, org)
  {
    forall t | t != id ensures t in db.templates <==> t in after.templates {
      assert t in db.templates - {id} <==> t in after.templates - {id};
    }
    forall t | t != id && t in db.templates ensures after.templates[t] == db.templates[t] {
      assert (after.templates - {id})[t] == (db.templates - {id})[t];
    }
  }

  lemma LinksStay(db: Db, after: Db, org: Org, id: Id, owners: set<Id>)
    requires WellLinked(db) && after == db.(templates := after.templates, fields := after.fields)
    requires after.templates - {id} == db.templates - {id} && OnlyFieldsOf(db.fields, after.fields, owners)
    requires OwnersWith(db, org, id, owners)
    requires id in after.templates ==> LinkableCategory(db, after.templates[id].category, after.templates[id].org)
    requires id !in after.templates ==> forall f :: f in after.fields ==> after.fields[f].template != id
    ensures WellLinked(after)
  {
    forall l | l in db.locations && db.locations[l].department.Some?
      ensures LinkableDepartment(after, db.locations[l].department.value, db.locations[l].org)
    {
      assert LinkableDepartment(db, db.locations[l].department.value, db.locations[l].org);
    }
    forall t | t in after.templates
      ensures LinkableCategory(after, after.templates[t].category, after.templates[t].org) {
      if t != id {
        assert t in after.templates - {id} && (after.templates - {id})[t] == (db.templates - {id})[t];
        assert LinkableCategory(db, db.templates[t].category, db.templates[t].org);
      }
    }
    forall f | f in after.fields ensures after.fields[f].template in after.templates {
      var t := after.fields[f].template;
      if t != id {
        assert t in db.templates - {id};
      }
    }
  }

  lemma {:induction false} UpsertsStayOwned(t: TemplateFields.Table, ids: seq<Id>, rows: seq<TemplateFields.Row>,
                                            n: nat,
                                            owners: set<Id>)
    requires n <= |ids| == |rows| && forall i :: 0 <= i < |rows| ==> rows[i].template in owners
    requires forall i :: 0 <= i < |ids| && ids[i] in t ==> t[ids[i]].template in owners
    ensures var r := TemplateFields.UpsertAll(t, ids, rows, n); r.Some? ==> OnlyFieldsOf(t, r.value, owners)
  {
    if n > 0 {
      UpsertsStayOwned(t, ids, rows, n - 1, owners);
    }
  }

  lemma CreatedFields(t: TemplateFields.Table, template: Id, l: FieldList)
    requires CreateFields(t, template, l).Some?
    ensures OnlyFieldsOf(t, CreateFields(t, template, l).value, {template})
  {
    var rows := TemplateFields.NewRows(template, l.fields, l.keys);
    UpsertsStayOwned(t, l.generated, rows, |l.generated|, {template});
  }

  lemma EditedFields(t: TemplateFields.Table, template: Id, l: FieldList, referenced: set<Id>, owners: set<Id>)
    requires template in owners && EditFields(t, template, l, referenced).Some?
    requires var ids := TemplateFields.Targets(l.fields, l.generated);
             forall i :: 0 <= i < |ids| && ids[i] in t ==> t[ids[i]].template in owners
    ensures OnlyFieldsOf(t, EditFields(t, template, l, referenced).value, owners)
  {
    var start := TemplateFields.AfterDelete(t, template, l.fields, referenced);
    var rows := TemplateFields.NewRows(template, l.fields, l.keys);
    UpsertsStayOwned(start, TemplateFields.Targets(l.fields, l.generated), rows, |l.fields|, owners);
  }

  lemma NewTemplateEffect(db: Db, org: Org, id: Id, t: Template, l: FieldList)
    requires WellLinked(db) && t.org == org && LinkableCategory(db, t.category, org) && NewTemplate(db, id, t, l).Some?
    ensures var after := NewTemplate(db, id, t, l).value; TemplatesOf(db, after, org) && WellLinked(after)
  {
    var after := NewTemplate(db, id, t, l).value;
    CreatedFields(db.fields, id, l);
    assert after.templates - {id} == db.templates - {id};
    TemplateChange(db, after, org, id, {id});
    LinksStay(db, after, org, id, {id});
  }

  lemma UpdateTemplateEffect(db: Db, org: Org, op: TemplateOp)
    requires WellLinked(db) && op.UpdateTemplate? && ApplyTemplate(db, org, op).Some? && LinksInside(db, org, Tmpl(op))
    ensures var after := ApplyTemplate(db, org, op).value; TemplatesOf(db, after, org) && WellLinked(after)
  {
    var after := ApplyTemplate(db, org, op).value;
    var owners := set t | t in db.templates && db.templates[t].org == org;
    if op.newList.Some? {
      EditedFields(db.fields, op.id, op.newList.value, op.referenced, owners);
    }
    assert LinkableCategory(db, db.templates[op.id].category, org);
    assert after.templates - {op.id} == db.templates - {op.id};
    TemplateChange(db, after, org, op.id, owners);
    LinksStay(db, after, org, op.id, owners);
  }

  lemma TemplateEffect(db: Db, org: Org, op: TemplateOp)
    requires WellLinked(db) && !op.UseBlueprint? && ApplyTemplate(db, org, op).Some? && LinksInside(db, org, Tmpl(op))
    ensures var after := ApplyTemplate(db, org, op).value; TemplatesOf(db, after, org) && WellLinked(after)
  {
    var after := ApplyTemplate(db, org, op).value;
    match op
    case CreateTemplate(id, category, details, list) =>
      NewTemplateEffect(db, org, id, Template(org, category, DRAFT, details), list);
    case UpdateTemplate(_, _, _, _, _) => UpdateTemplateEffect(db, org, op);
    case ChangeStatus(id, _, _) =>
      assert LinkableCategory(db, db.templates[id].category, org);
      assert after.templates - {id} == db.templates - {id};
      TemplateChange(db, after, org, id, {id});
      LinksStay(db, after, org, id, {id});
    case RemoveTemplate(id, _) =>
      TemplateChange(db, after, org, id, {id});
      LinksStay(db, after, org, id, {id});
  }

  /** A blueprint first may add a category and then adds a template. */
  lemma BlueprintEffect(db: Db, org: Org, op: TemplateOp) returns (middle: Db)
    requires WellLinked(db) && op.UseBlueprint? && ApplyTemplate(db, org, op).Some?
    ensures CategoriesOf(db, middle, org) && TemplatesOf(middle, ApplyTemplate(db, org, op).value, org)
    ensures LinkedTemplates(db) && WellLinked(ApplyTemplate(db, org, op).value)
  {
    middle := FindOrCreateCategory(db, org, op.categoryName, op.useCategory).value;
    if middle != db {
      PutCategoryEffect(db, org, op.useCategory, op.categoryName);
    }
    NewTemplateEffect(middle, org, op.id, Template(org, op.useCategory, DRAFT, op.details), op.list);
  }

  lemma FieldEffect(db: Db, org: Org, op: FieldOp)
    requires WellLinked(db) && ApplyField(db, org, op).Some?
    ensures var after := ApplyField(db, org, op).value; TemplatesOf(db, after, org) && WellLinked(after)
  {
    var after := ApplyField(db, org, op).value;
    assert LinkableCategory(db, db.templates[op.template].category, org);
    if op.ReorderFields? {
      ReorderEffect(db.fields, op.template, op.items);
    }
    TemplateChange(db, after, org, op.template, {op.template});
    LinksStay(db, after, org, op.template, {op.template});
  }

  lemma {:induction false} ReorderEffect(t: TemplateFields.Table, template: Id, items: seq<(Id, int)>)
    requires forall i :: 0 <= i < |items| ==> items[i].0 in t && t[items[i].0].template == template
    ensures OnlyFieldsOf(t, SetOrders(t, items), {template})
  {
  }

  // ----- No catalog changes without its key being deleted -----

  /** A catalog whose key a call does not delete is the same after the call, but for the master list of departments
      after a call of the department service. */
  lemma ChangesAreInvalidated(db: Db, org: Org, op: Op, k: Key)
    requires WellLinked(db) && Apply(db, org, op).Some? && LinksInside(db, org, op)
    requires k !in Invalidated(org, op) && !(op.Dept? && k == MasterDepartments(org))
    ensures Load(Apply(db, org, op).value, k) == Load(db, k)
  {
    var after := Apply(db, org, op).value;
    match op
    case Dept(dept) => DepartmentEffect(db, org, dept); DepartmentsFrame(db, after, org, k);
    case Master(master) => MasterEffect(db, org, master); DepartmentsFrame(db, after, org, k);
    case Cat(cat) => CategoryEffect(db, org, cat); CategoriesFrame(db, after, org, k);
    case Loc(loc) => LocationEffect(db, org, loc); LocationsFrame(db, after, org, k);
    case Tmpl(tmpl) =>
      if tmpl.UseBlueprint? {
        var middle := BlueprintEffect(db, org, tmpl);
        CategoriesFrame(db, middle, org, k);
        TemplatesFrame(middle, after, org, k);
      } else {
        TemplateEffect(db, org, tmpl);
        TemplatesFrame(db, after, org, k);
      }
    case Fld(fld) => FieldEffect(db, org, fld); TemplatesFrame(db, after, org, k);
  }

  lemma LinksAreKept(db: Db, org: Org, op: Op)
    requires WellLinked(db) && Apply(db, org, op).Some? && LinksInside(db, org, op)
    ensures WellLinked(Apply(db, org, op).value)
  {
    match op
    case Dept(dept) => DepartmentEffect(db, org, dept);
    case Master(master) => MasterEffect(db, org, master);
    case Cat(cat) => CategoryEffect(db, org, cat);
    case Loc(loc) => LocationEffect(db, org, loc);
    case Tmpl(tmpl) =>
      if tmpl.UseBlueprint? {
        var middle := BlueprintEffect(db, org, tmpl);
      } else {
        TemplateEffect(db, org, tmpl);
      }
    case Fld(fld) => FieldEffect(db, org, fld);
  }

  // ----- Sequential runs with Redis up -----

  datatype State = State(db: Db, redis: map<Text, Catalog>)

  datatype Action = Mutate(org: Org, op: Op) | Read(key: Key) | Expire(redisKey: Text)

  function RedisKeys(keys: set<Key>): set<Text> { set k | k in keys :: Render(k) }

  /** What `remember` answers. */
  function Answer(s: State, k: Key): Catalog {
    if Render(k) in s.redis then s.redis[Render(k)] else Load(s.db, k)
  }

  function Step(s: State, a: Action): State {
    match a
    case Mutate(org, op) =>
      var after := Apply(s.db, org, op);
      if after.None? then s else State(after.value, s.redis - RedisKeys(Invalidated(org, op)))
    case Read(k) => s.(redis := s.redis[Render(k) := Answer(s, k)])
    case Expire(key) => s.(redis := s.redis - {key})
  }

  function Run(s: State, acts: seq<Action>): State {
    if acts == [] then s else Step(Run(s, acts[..|acts| - 1]), acts[|acts| - 1])
  }

  predicate LinkedAction(s: State, a: Action) { a.Mutate? ==> LinksInside(s.db, a.org, a.op) }

  /** Every call of the run keeps its links inside its organization. */
  predicate LinkedRun(s: State, acts: seq<Action>) {
    acts == [] || (LinkedRun(s, acts[..|acts| - 1]) && LinkedAction(Run(s, acts[..|acts| - 1]), acts[|acts| - 1]))
  }

  ghost predicate Coherent(s: State, k: Key) {
    Render(k) in s.redis ==> s.redis[Render(k)] == Load(s.db, k)
  }

  lemma StepKeepsCoherent(s: State, a: Action, k: Key)
    requires WellLinked(s.db) && LinkedAction(s, a) && Coherent(s, k)
    requires !(a.Mutate? && a.op.Dept? && k == MasterDepartments(a.org))
    ensures Coherent(Step(s, a), k)
  {
    match a
    case Mutate(org, op) =>
      if Apply(s.db, org, op).Some? && Render(k) !in RedisKeys(Invalidated(org, op)) {
        ChangesAreInvalidated(s.db, org, op, k);
      }
    case Read(l) =>
      if Render(k) == Render(l) {
        KeysAreDistinct(k, l);
      }
    case Expire(_) =>
  }

  lemma StepKeepsLinks(s: State, a: Action)
    requires WellLinked(s.db) && LinkedAction(s, a)
    ensures WellLinked(Step(s, a).db)
  {
    if a.Mutate? && Apply(s.db, a.org, a.op).Some? {
      LinksAreKept(s.db, a.org, a.op);
    }
  }

  lemma {:induction false} RunKeepsLinks(s: State, acts: seq<Action>)
    requires WellLinked(s.db) && LinkedRun(s, acts)
    ensures WellLinked(Run(s, acts).db)
  {
    if acts != [] {
      RunKeepsLinks(s, acts[..|acts| - 1]);
      StepKeepsLinks(Run(s, acts[..|acts| - 1]), acts[|acts| - 1]);
    }
  }

  /** No call of the department service for this organization. */
  predicate NoDepartmentService(acts: seq<Action>, org: Org) {
    forall i :: 0 <= i < |acts| && acts[i].Mutate? && acts[i].op.Dept? ==> acts[i].org != org
  }

  lemma {:induction false} RunKeepsCoherent(s: State, acts: seq<Action>, k: Key)
    requires WellLinked(s.db) && LinkedRun(s, acts) && Coherent(s, k)
    requires k.MasterDepartments? ==> NoDepartmentService(acts, k.org)
    ensures Coherent(Run(s, acts), k)
  {
    if acts != [] {
      RunKeepsLinks(s, acts[..|acts| - 1]);
      RunKeepsCoherent(s, acts[..|acts| - 1], k);
      StepKeepsCoherent(Run(s, acts[..|acts| - 1]), acts[|acts| - 1], k);
    }
  }

  /** From an empty cache, after any linked run, every read answers what its loader gives now; for the master list of
      departments as long as the department service was not used. */
  lemma {:induction false} ReadsAreCurrent(db: Db, acts: seq<Action>, k: Key)
    requires WellLinked(db) && LinkedRun(State(db, map[]), acts)
    requires k.MasterDepartments? ==> NoDepartmentService(acts, k.org)
    ensures Answer(Run(State(db, map[]), acts), k) == Load(Run(State(db, map[]), acts).db, k)
  {
    RunKeepsCoherent(State(db, map[]), acts, k);
  }

  // ----- The conditions are needed -----

  /** Whether a call of the department service changes the name or the presence of a listed department. */
  predicate ShowsInMasterList(db: Db, op: DepartmentOp)
    requires op.CreateDepartment? || op.id in db.departments
  {
    match op
    case CreateDepartment(_, _, _) => true
    case UpdateDepartment(id, name, _) =>
      db.departments[id].active && name.Some? && name.value != db.departments[id].name
    case RemoveDepartment(id) => db.departments[id].active
  }

  lemma MasterKeyIsKept(org: Org, op: DepartmentOp)
    ensures Render(MasterDepartments(org)) !in RedisKeys(Invalidated(org, Dept(op)))
  {
    forall l | l in Invalidated(org, Dept(op)) ensures Render(l) != Render(MasterDepartments(org)) {
      Distinguished(l);
      Distinguished(MasterDepartments(org));
    }
  }

  lemma MasterListChangesIffShown(db: Db, org: Org, op: DepartmentOp)
    requires ApplyDepartment(db, org, op).Some?
    ensures Load(ApplyDepartment(db, org, op).value, MasterDepartments(org)) == Load(db, MasterDepartments(org))
       <==> !ShowsInMasterList(db, op)
  {
    var after := ApplyDepartment(db, org, op).value;
    var before, now := Load(db, MasterDepartments(org)).items, Load(after, MasterDepartments(org)).items;
    if ShowsInMasterList(db, op) {
      assert (op.id in before) != (op.id in now) || before[op.id] != now[op.id];
    } else {
      assert before == now;
    }
  }

  /** A cached master list survives a call of the department service, and is then stale exactly when the call shows in
      it. */
  lemma MasterListStaleIffShown(db: Db, org: Org, op: DepartmentOp)
    requires ApplyDepartment(db, org, op).Some?
    ensures var cached := Step(State(db, map[]), Read(MasterDepartments(org)));
            var s := Step(cached, Mutate(org, Dept(op)));
            Answer(s, MasterDepartments(org)) == Load(s.db, MasterDepartments(org)) <==> !ShowsInMasterList(db, op)
  {
    var k := MasterDepartments(org);
    var s := Step(Step(State(db, map[]), Read(k)), Mutate(org, Dept(op)));
    MasterKeyIsKept(org, op);
    assert Answer(s, k) == Load(db, k);
    MasterListChangesIffShown(db, org, op);
  }

  /** Whether some location of the organization, or some active one, links to the department. */
  predicate LinkedFrom(db: Db, org: Org, department: Id, onlyActive: bool) {
    exists l :: l in db.locations && db.locations[l].org == org && (onlyActive ==> db.locations[l].active)
                && db.locations[l].department == Some(department)
  }

  function LocationsKey(org: Org, onlyActive: bool): Key {
    if onlyActive then LocationsActive(org) else LocationsAll(org)
  }

  lemma LoadedLocations(db: Db, org: Org, onlyActive: bool)
    ensures var locations := Load(db, LocationsKey(org, onlyActive)).locations;
            forall l :: l in locations <==>
              l in db.locations && db.locations[l].org == org && (onlyActive ==> db.locations[l].active)
    ensures var locations := Load(db, LocationsKey(org, onlyActive)).locations;
            forall l :: l in locations ==> locations[l] == ViewLocation(db, l)
  {
  }

  /** After a change of a department, the locations cached for another organization, whose keys are not deleted, are
      stale exactly when one of those listed links to it. */
  lemma OtherLocationsStaleIffLinked(db: Db, org: Org, op: DepartmentOp, other: Org, onlyActive: bool)
    requires ApplyDepartment(db, org, op).Some? && ApplyDepartment(db, org, op).value != db && other != org
    requires !op.CreateDepartment?
    ensures LocationsKey(other, onlyActive) !in Invalidated(org, Dept(op))
    ensures var after, k := ApplyDepartment(db, org, op).value, LocationsKey(other, onlyActive);
            Load(after, k) == Load(db, k) <==> !LinkedFrom(db, other, op.id, onlyActive)
  {
    var after := ApplyDepartment(db, org, op).value;
    var d := after.departments[op.id];
    assert after == db.(departments := db.departments[op.id := d]) && d != db.departments[op.id];
    LoadedLocations(db, other, onlyActive);
    LoadedLocations(after, other, onlyActive);
    var before, now := Load(db, LocationsKey(other, onlyActive)).locations,
      Load(after, LocationsKey(other, onlyActive)).locations;
    if LinkedFrom(db, other, op.id, onlyActive) {
      var l :| l in db.locations && db.locations[l].org == other && (onlyActive ==> db.locations[l].active)
               && db.locations[l].department == Some(op.id);
      assert ViewLocation(after, l).department != ViewLocation(db, l).department;
      assert now[l] != before[l];
    } else {
      assert now == before;
    }
  }

  /** Whether some active template of the organization links to the category. */
  predicate UsedBy(db: Db, org: Org, category: Id) {
    exists t :: t in db.templates && db.templates[t].org == org && db.templates[t].status == ACTIVE
      && db.templates[t].category == category
  }

  lemma UnusedViewsStay(db: Db, after: Db, org: Org, id: Id, c: Category)
    requires after == db.(categories := db.categories[id := c]) && !UsedBy(db, org, id)
    ensures Load(after, ActiveTemplates(org)) == Load(db, ActiveTemplates(org))
  {
    forall t | t in db.templates && db.templates[t].org == org && db.templates[t].status == ACTIVE
      ensures ViewTemplate(after, t) == ViewTemplate(db, t)
    {
      assert db.templates[t].category != id;
      assert FieldsOf(after, t) == FieldsOf(db, t);
    }
  }

  /** After a change of a category, the active templates cached for another organization, whose key is not deleted, are
      stale exactly when one of them links to it. */
  lemma OtherTemplatesStaleIffLinked(db: Db, org: Org, id: Id, newName: Text, other: Org)
    requires ApplyCategory(db, org, UpdateCategory(id, Some(newName))).Some? && db.categories[id].name != newName
             && other != org
    ensures var op := UpdateCategory(id, Some(newName));
            && ActiveTemplates(other) !in Invalidated(org, Cat(op))
            && (Load(ApplyCategory(db, org, op).value, ActiveTemplates(other)) == Load(db, ActiveTemplates(other)) <==>
                  !UsedBy(db, other, id))
  {
    var after := ApplyCategory(db, org, UpdateCategory(id, Some(newName))).value;
    if UsedBy(db, other, id) {
      var t :| t in db.templates && db.templates[t].org == other && db.templates[t].status == ACTIVE
        && db.templates[t].category == id;
      assert ViewTemplate(after, t).category != ViewTemplate(db, t).category;
      assert Load(after, ActiveTemplates(other)).templates[t] != Load(db, ActiveTemplates(other)).templates[t];
    } else {
      UnusedViewsStay(db, after, other, id, after.categories[id]);
    }
  }

  /** Whether the edit leaves a field of an active template of the organization with another row. */
  predicate Rewrites(db: Db, org: Org, l: FieldList, template: Id)
    requires WellFormedList(l)
  {
    var ids, rows := TemplateFields.Targets(l.fields, l.generated), TemplateFields.NewRows(template, l.fields, l.keys);
    exists f :: f in db.fields && ActiveField(db, org, f)
                && TemplateFields.FinalRow(db.fields, ids, rows, |ids|, f) != db.fields[f]
  }

  predicate ActiveField(db: Db, org: Org, f: Id)
    requires f in db.fields
  {
    OwnTemplate(db, db.fields[f].template, org) && db.templates[db.fields[f].template].status == ACTIVE
  }

  lemma {:induction false} FinalRowAfterDelete(t: TemplateFields.Table, start: TemplateFields.Table, ids: seq<Id>,
                                               rows: seq<TemplateFields.Row>, n: nat, f: Id)
    requires n <= |ids| == |rows| && f in t && f in start && start[f] == t[f]
    ensures TemplateFields.FinalRow(t, ids, rows, n, f) == TemplateFields.FinalRow(start, ids, rows, n, f)
  {
    if n > 0 && ids[n - 1] != f {
      FinalRowAfterDelete(t, start, ids, rows, n - 1, f);
    }
  }

  /** A field of another template after an edit. */
  ghost predicate EditedField(t: TemplateFields.Table, r: TemplateFields.Table, template: Id, l: FieldList, f: Id)
    requires WellFormedList(l)
  {
    var ids, rows := TemplateFields.Targets(l.fields, l.generated), TemplateFields.NewRows(template, l.fields, l.keys);
    && (f in t && t[f].template != template ==>
          f in r && r[f] == TemplateFields.FinalRow(t, ids, rows, |ids|, f) && r[f].template == t[f].template)
    && (f in r && r[f].template != template ==> f in t && t[f].template == r[f].template)
  }

  lemma EditLeavesField(t: TemplateFields.Table, template: Id, l: FieldList, referenced: set<Id>, f: Id)
    requires EditFields(t, template, l, referenced).Some?
    ensures EditedField(t, EditFields(t, template, l, referenced).value, template, l, f)
  {
    var start := TemplateFields.AfterDelete(t, template, l.fields, referenced);
    var ids, rows := TemplateFields.Targets(l.fields, l.generated), TemplateFields.NewRows(template, l.fields, l.keys);
    TemplateFields.UpsertsLeaveFinalRow(start, ids, rows, |ids|, f);
    if f in start {
      FinalRowAfterDelete(t, start, ids, rows, |ids|, f);
      TemplateFields.FinalRowOwner(start, ids, rows, |ids|, f);
    }
  }

  lemma LoadedTemplates(db: Db, org: Org)
    ensures var templates := Load(db, ActiveTemplates(org)).templates;
            forall t :: t in templates <==> OwnTemplate(db, t, org) && db.templates[t].status == ACTIVE
    ensures var templates := Load(db, ActiveTemplates(org)).templates;
            forall t :: t in templates ==> templates[t] == ViewTemplate(db, t)
  {
  }

  lemma SameFieldsSameView(db: Db, after: Db, other: Org, template: Id, l: FieldList, t: Id)
    requires WellFormedList(l) && !Rewrites(db, other, l, template)
    requires forall f :: EditedField(db.fields, after.fields, template, l, f)
    requires OwnTemplate(db, t, other) && db.templates[t].status == ACTIVE && t != template
    requires after.categories == db.categories && t in after.templates && after.templates[t] == db.templates[t]
    ensures ViewTemplate(after, t) == ViewTemplate(db, t)
  {
    forall f ensures f in FieldsOf(after, t) <==> f in FieldsOf(db, t) {
      assert EditedField(db.fields, after.fields, template, l, f);
    }
    forall f | f in FieldsOf(db, t) ensures after.fields[f] == db.fields[f] {
      assert EditedField(db.fields, after.fields, template, l, f) && ActiveField(db, other, f);
    }
    assert FieldsOf(after, t) == FieldsOf(db, t);
  }

  lemma RewrittenView(db: Db, after: Db, other: Org, template: Id, l: FieldList) returns (t: Id)
    requires WellFormedList(l) && Rewrites(db, other, l, template)
    requires forall f :: EditedField(db.fields, after.fields, template, l, f)
    requires !OwnTemplate(db, template, other)
    requires forall t :: t in db.templates && t != template ==> t in after.templates
    ensures OwnTemplate(db, t, other) && db.templates[t].status == ACTIVE && t in after.templates
    ensures ViewTemplate(after, t) != ViewTemplate(db, t)
  {
    var ids, rows := TemplateFields.Targets(l.fields, l.generated), TemplateFields.NewRows(template, l.fields, l.keys);
    var f :| f in db.fields && ActiveField(db, other, f)
             && TemplateFields.FinalRow(db.fields, ids, rows, |ids|, f) != db.fields[f];
    assert EditedField(db.fields, after.fields, template, l, f);
    t := db.fields[f].template;
    assert ViewTemplate(after, t).fields[f] != ViewTemplate(db, t).fields[f];
  }

  lemma EditSeenIff(db: Db, after: Db, other: Org, template: Id, l: FieldList)
    requires WellFormedList(l) && !OwnTemplate(db, template, other) && !OwnTemplate(after, template, other)
    requires after.categories == db.categories
    requires forall t :: t in after.templates && t != template ==> t in db.templates
    requires forall t :: t in db.templates && t != template ==>
             t in after.templates && after.templates[t] == db.templates[t]
    requires forall f :: EditedField(db.fields, after.fields, template, l, f)
    ensures Load(after, ActiveTemplates(other)) == Load(db, ActiveTemplates(other)) <==>
      !Rewrites(db, other, l, template)
  {
    LoadedTemplates(db, other);
    LoadedTemplates(after, other);
    if Rewrites(db, other, l, template) {
      var t := RewrittenView(db, after, other, template, l);
    } else {
      forall t | OwnTemplate(db, t, other) && db.templates[t].status == ACTIVE
        ensures ViewTemplate(after, t) == ViewTemplate(db, t)
      {
        SameFieldsSameView(db, after, other, template, l, t);
      }
      assert Load(after, ActiveTemplates(other)).templates == Load(db, ActiveTemplates(other)).templates;
    }
  }

  /** After an edit of a template's fields, the active templates cached for another organization, whose key is not
      deleted, are stale exactly when the edit names one of their fields and leaves it with another row. */
  lemma OtherTemplatesStaleIffRewritten(db: Db, org: Org, op: TemplateOp, other: Org)
    requires op.UpdateTemplate? && op.newList.Some? && ApplyTemplate(db, org, op).Some? && other != org
    ensures ActiveTemplates(other) !in Invalidated(org, Tmpl(op)) && WellFormedList(op.newList.value)
    ensures Load(ApplyTemplate(db, org, op).value, ActiveTemplates(other)) == Load(db, ActiveTemplates(other))
       <==> !Rewrites(db, other, op.newList.value, op.id)
  {
    var after, l := ApplyTemplate(db, org, op).value, op.newList.value;
    forall f ensures EditedField(db.fields, after.fields, op.id, l, f) {
      EditLeavesField(db.fields, op.id, l, op.referenced, f);
    }
    EditSeenIff(db, after, other, op.id, l);
  }

  // ----- The services over one Redis -----

  class CatalogCache {
    var db: Db
    var redis: map<Text, Catalog>

    constructor (initial: Db)
      ensures State(db, redis) == State(initial, map[])
    {
      db, redis := initial, map[];
    }

    method Find(key: Key) returns (catalog: Catalog)
      modifies this`redis
      ensures catalog == Answer(State(old(db), old(redis)), key)
      ensures State(db, redis) == Step(State(old(db), old(redis)), Read(key))
    {
      if Render(key) in redis {
        assert redis[Render(key) := redis[Render(key)]] == redis;
        return redis[Render(key)];
      }
      catalog := Load(db, key);
      redis := redis[Render(key) := catalog];
    }

    method Change(org: Org, op: Op) returns (changed: bool)
      modifies this
      ensures changed == Apply(old(db), org, op).Some?
      ensures State(db, redis) == Step(State(old(db), old(redis)), Mutate(org, op))
    {
      var after := Apply(db, org, op);
      if after.None? {
        return false;
      }
      db := after.value;
      redis := redis - RedisKeys(Invalidated(org, op));
      return true;
    }
  }
}
