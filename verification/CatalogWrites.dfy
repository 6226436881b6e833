/** What the mutators of the catalogs write, as the lists then show it, and the names they keep unique. */
module CatalogWrites {
  import opened Wrappers
  import opened JsText
  import opened Catalogs
  import opened CatalogServices
  import CatalogCoherence
  import FormKeys

  // ----- What the lists show -----

  /** The departments of the organization and the global ones, while they are active; the master list has their
      names. */
  lemma DepartmentsShown(db: Db, org: Org, id: Id)
    ensures var shown := Load(db, Departments(org)).departments;
            && (id in shown <==>
                  id in db.departments && db.departments[id].active && db.departments[id].org in {None, Some(org)})
            && (id in shown ==> shown[id] == db.departments[id])
    ensures var shown, items := Load(db, Departments(org)).departments, Load(db, MasterDepartments(org)).items;
            (id in items <==> id in shown)
            && (id in items ==> items[id].org == shown[id].org && items[id].name == shown[id].name)
  {
  }

  lemma CategoriesShown(db: Db, org: Org, id: Id)
    ensures var shown := Load(db, Categories(org)).categories;
            && (id in shown <==> id in db.categories && db.categories[id].org == org)
            && (id in shown ==> shown[id] == db.categories[id])
  {
  }

  /** Locations come with the department they link to, if it is there. */
  predicate LocationShown(db: Db, id: Id, v: LocationView)
    requires id in db.locations
  {
    && v.location == db.locations[id]
    && match db.locations[id].department
       case None => v.department == None
       case Some(d) => if d in db.departments then v.department == Some(db.departments[d]) else v.department == None
  }

  lemma LocationsShown(db: Db, org: Org, id: Id)
    ensures var shown := Load(db, LocationsAll(org)).locations;
            && (id in shown <==> id in db.locations && db.locations[id].org == org)
            && (id in shown ==> LocationShown(db, id, shown[id]))
    ensures var shown, all := Load(db, LocationsActive(org)).locations, Load(db, LocationsAll(org)).locations;
            && (id in shown <==> id in all && db.locations[id].active)
            && (id in shown ==> shown[id] == all[id])
  {
    CatalogCoherence.LoadedLocations(db, org, false);
    CatalogCoherence.LoadedLocations(db, org, true);
  }

  /** Templates come with their category, if it is there, and exactly their fields. */
  ghost predicate TemplateShown(db: Db, id: Id, v: TemplateView)
    requires id in db.templates
  {
    && v.template == db.templates[id]
    && (if v.template.category in db.categories then v.category == Some(db.categories[v.template.category])
        else v.category == None)
    && (forall f :: f in v.fields <==> f in db.fields && db.fields[f].template == id)
    && (forall f :: f in v.fields ==> v.fields[f] == db.fields[f])
  }

  lemma TemplatesShown(db: Db, org: Org, id: Id)
    ensures var shown := Load(db, ActiveTemplates(org)).templates;
            && (id in shown <==> id in db.templates && db.templates[id].org == org && db.templates[id].status == ACTIVE)
            && (id in shown ==> TemplateShown(db, id, shown[id]))
  {
    CatalogCoherence.LoadedTemplates(db, org);
  }

  // ----- Unique names -----

  /** Within an organization no two departments, categories or locations have one name; within a template no two fields
      have one key. Global departments may repeat names. */
  ghost predicate NamesUnique(db: Db) {
    && DepartmentsUnique(db.departments) && CategoriesUnique(db.categories) && LocationsUnique(db.locations)
    && KeysUnique(db.fields)
  }

  ghost predicate DepartmentsUnique(m: map<Id, Department>) {
    forall a, b :: a in m && b in m && a != b && m[a].org.Some? ==> m[a].org != m[b].org || m[a].name != m[b].name
  }

  ghost predicate CategoriesUnique(m: map<Id, Category>) {
    forall a, b :: a in m && b in m && a != b ==> m[a].org != m[b].org || m[a].name != m[b].name
  }

  ghost predicate LocationsUnique(m: map<Id, Location>) {
    forall a, b :: a in m && b in m && a != b ==> m[a].org != m[b].org || m[a].name != m[b].name
  }

  ghost predicate KeysUnique(t: TemplateFields.Table) {
    forall a, b :: a in t && b in t && a != b ==> t[a].template != t[b].template || t[a].key != t[b].key
  }

  lemma {:induction false} UpsertsKeepKeysUnique(t: TemplateFields.Table, ids: seq<Id>, rows: seq<TemplateFields.Row>,
                                                 n: nat)
    requires n <= |ids| == |rows| && KeysUnique(t)
    ensures var r := TemplateFields.UpsertAll(t, ids, rows, n); r.Some? ==> KeysUnique(r.value)
  {
    if n > 0 {
      UpsertsKeepKeysUnique(t, ids, rows, n - 1);
    }
  }

  lemma DepartmentsStayUnique(db: Db, org: Org, op: DepartmentOp)
    requires NamesUnique(db) && ApplyDepartment(db, org, op).Some?
    ensures NamesUnique(ApplyDepartment(db, org, op).value)
  {
  }

  lemma MasterStaysUnique(db: Db, org: Org, op: MasterOp)
    requires NamesUnique(db) && ApplyMaster(db, org, op).Some?
    ensures NamesUnique(ApplyMaster(db, org, op).value)
  {
  }

  lemma CategoriesStayUnique(db: Db, org: Org, op: CategoryOp)
    requires NamesUnique(db) && ApplyCategory(db, org, op).Some?
    ensures NamesUnique(ApplyCategory(db, org, op).value)
  {
  }

  lemma LocationsStayUnique(db: Db, org: Org, op: LocationOp)
    requires NamesUnique(db) && ApplyLocation(db, org, op).Some?
    ensures NamesUnique(ApplyLocation(db, org, op).value)
  {
  }

  lemma NewTemplateStaysUnique(db: Db, id: Id, t: Template, l: FieldList)
    requires NamesUnique(db) && NewTemplate(db, id, t, l).Some?
    ensures NamesUnique(NewTemplate(db, id, t, l).value)
  {
    UpsertsKeepKeysUnique(db.fields, l.generated, TemplateFields.NewRows(id, l.fields, l.keys), |l.generated|);
  }

  lemma EditStaysUnique(t: TemplateFields.Table, template: Id, l: FieldList, referenced: set<Id>)
    requires KeysUnique(t) && EditFields(t, template, l, referenced).Some?
    ensures KeysUnique(EditFields(t, template, l, referenced).value)
  {
    UpsertsKeepKeysUnique(TemplateFields.AfterDelete(t, template, l.fields, referenced),
                          TemplateFields.Targets(l.fields, l.generated),
                          TemplateFields.NewRows(template, l.fields, l.keys), |l.fields|);
  }

  lemma FoundCategoryStaysUnique(db: Db, org: Org, name: Text, id: Id)
    requires NamesUnique(db) && FindOrCreateCategory(db, org, name, id).Some?
    ensures NamesUnique(FindOrCreateCategory(db, org, name, id).value)
  {
  }

  lemma TemplatesStayUnique(db: Db, org: Org, op: TemplateOp)
    requires NamesUnique(db) && ApplyTemplate(db, org, op).Some?
    ensures NamesUnique(ApplyTemplate(db, org, op).value)
  {
    match op
    case CreateTemplate(id, category, details, l) =>
      NewTemplateStaysUnique(db, id, Template(org, category, DRAFT, details), l);
    case UseBlueprint(id, name, category, details, l) =>
      FoundCategoryStaysUnique(db, org, name, category);
      NewTemplateStaysUnique(FindOrCreateCategory(db, org, name, category).value, id,
                             Template(org, category, DRAFT, details), l);
    case UpdateTemplate(id, _, _, list, referenced) =>
      if list.Some? {
        EditStaysUnique(db.fields, id, list.value, referenced);
      }
    case ChangeStatus(_, _, _) =>
    case RemoveTemplate(_, _) =>
  }

  lemma FieldsStayUnique(db: Db, org: Org, op: FieldOp)
    requires NamesUnique(db) && ApplyField(db, org, op).Some?
    ensures NamesUnique(ApplyField(db, org, op).value)
  {
  }

  /** No call of any service, whatever it asks for, makes two names or keys meet. */
  lemma NamesStayUnique(db: Db, org: Org, op: Op)
    requires NamesUnique(db) && Apply(db, org, op).Some?
    ensures NamesUnique(Apply(db, org, op).value)
  {
    match op
    case Dept(dept) => DepartmentsStayUnique(db, org, dept);
    case Master(master) => MasterStaysUnique(db, org, master);
    case Cat(cat) => CategoriesStayUnique(db, org, cat);
    case Loc(loc) => LocationsStayUnique(db, org, loc);
    case Tmpl(tmpl) => TemplatesStayUnique(db, org, tmpl);
    case Fld(fld) => FieldsStayUnique(db, org, fld);
  }

  lemma {:induction false} RunKeepsNamesUnique(s: CatalogCoherence.State, acts: seq<CatalogCoherence.Action>)
    requires NamesUnique(s.db)
    ensures NamesUnique(CatalogCoherence.Run(s, acts).db)
  {
    if acts != [] {
      RunKeepsNamesUnique(s, acts[..|acts| - 1]);
      var before, a := CatalogCoherence.Run(s, acts[..|acts| - 1]), acts[|acts| - 1];
      if a.Mutate? && Apply(before.db, a.org, a.op).Some? {
        NamesStayUnique(before.db, a.org, a.op);
      }
    }
  }

  // ----- Departments -----

  predicate OwnDepartment(db: Db, org: Org, id: Id) { id in db.departments && db.departments[id].org == Some(org) }

  /** A department of the organization, active or not, has the name. */
  ghost predicate DepartmentNameUsed(db: Db, org: Org, name: Text, except: Option<Id>) {
    exists id :: OwnDepartment(db, org, id) && db.departments[id].name == name && except != Some(id)
  }

  lemma DepartmentRefusedIff(db: Db, org: Org, op: DepartmentOp)
    requires NamesUnique(db)
    ensures ApplyDepartment(db, org, op).None? <==>
      match op
      case CreateDepartment(id, name, _) => id in db.departments || DepartmentNameUsed(db, org, name, None)
      case UpdateDepartment(id, newName, _) =>
        !OwnDepartment(db, org, id) || (newName.Some? && DepartmentNameUsed(db, org, newName.value, Some(id)))
      case RemoveDepartment(id) =>
        !OwnDepartment(db, org, id) || exists l :: l in db.locations && db.locations[l].department == Some(id)
  {
  }

  /** The list of departments after a call, and the department that all linked locations then show. */
  lemma DepartmentWritten(db: Db, org: Org, op: DepartmentOp)
    requires ApplyDepartment(db, org, op).Some?
    ensures var after := ApplyDepartment(db, org, op).value;
            var before, now := Load(db, Departments(org)).departments, Load(after, Departments(org)).departments;
            match op
            case CreateDepartment(id, name, email) =>
              id !in before && now == before[id := Department(Some(org), name, email, true)]
            case UpdateDepartment(id, newName, newEmail) =>
              && now.Keys == before.Keys
              && (forall other :: other in before && other != id ==> now[other] == before[other])
              && (id in before ==> Updated(before[id], newName, newEmail, now[id]))
            case RemoveDepartment(id) => now == before - {id}
    ensures var after := ApplyDepartment(db, org, op).value;
            op.UpdateDepartment? ==> Updated(db.departments[op.id], op.newName, op.newEmail, after.departments[op.id])
  {
  }

  /** What is given is written, and the rest is kept. */
  predicate Updated(d: Department, newName: Option<Text>, newEmail: Option<Text>, e: Department) {
    && e.org == d.org && e.active == d.active
    && (if newName == None then e.name == d.name else newName == Some(e.name))
    && (if newEmail == None then e.email == d.email else e.email == newEmail)
  }

  /** The master list does what the department service does, without e-mail; it deactivates linked departments too. */
  lemma MasterIsDepartments(db: Db, org: Org, op: MasterOp)
    ensures match op
            case CreateItem(id, name) =>
              ApplyMaster(db, org, op) == ApplyDepartment(db, org, CreateDepartment(id, name, None))
            case UpdateItem(id, name) =>
              ApplyMaster(db, org, op) == ApplyDepartment(db, org, UpdateDepartment(id, Some(name), None))
            case DeactivateItem(id) =>
              && (ApplyMaster(db, org, op).Some? <==> OwnDepartment(db, org, id))
              && (ApplyDepartment(db, org, RemoveDepartment(id)).Some? ==>
                    ApplyMaster(db, org, op) == ApplyDepartment(db, org, RemoveDepartment(id)))
              && (ApplyMaster(db, org, op).Some? ==>
                    Load(ApplyMaster(db, org, op).value, MasterDepartments(org)).items
                    == Load(db, MasterDepartments(org)).items - {id})
  {
  }

  // ----- Categories -----

  ghost predicate CategoryNameUsed(db: Db, org: Org, name: Text, except: Option<Id>) {
    exists id :: id in db.categories && db.categories[id] == Category(org, name) && except != Some(id)
  }

  predicate OwnCategory(db: Db, org: Org, id: Id) { id in db.categories && db.categories[id].org == org }

  lemma CategoryRefusedIff(db: Db, org: Org, op: CategoryOp)
    requires NamesUnique(db)
    ensures ApplyCategory(db, org, op).None? <==>
      match op
      case CreateCategory(id, name) => id in db.categories || CategoryNameUsed(db, org, name, None)
      case UpdateCategory(id, newName) =>
        !OwnCategory(db, org, id) || (newName.Some? && CategoryNameUsed(db, org, newName.value, Some(id)))
      case RemoveCategory(id) =>
        !OwnCategory(db, org, id) || exists t :: t in db.templates && db.templates[t].category == id
  {
  }

  /** The list of categories after a call: one more, one renamed, or one less. */
  lemma CategoryWritten(db: Db, org: Org, op: CategoryOp)
    requires ApplyCategory(db, org, op).Some?
    ensures var before, now := Load(db, Categories(org)).categories,
                               Load(ApplyCategory(db, org, op).value, Categories(org)).categories;
            match op
            case CreateCategory(id, name) => id !in before && now == before[id := Category(org, name)]
            case UpdateCategory(id, Some(name)) => id in before && now == before[id := Category(org, name)]
            case UpdateCategory(id, None) => now == before
            case RemoveCategory(id) => id in before && now == before - {id}
  {
  }

  // ----- Locations -----

  predicate OwnLocation(db: Db, org: Org, id: Id) { id in db.locations && db.locations[id].org == org }

  ghost predicate LocationNameUsed(db: Db, org: Org, name: Text, except: Option<Id>) {
    exists id :: OwnLocation(db, org, id) && db.locations[id].name == name && except != Some(id)
  }

  /** A link to no department, or to one that is there. */
  predicate LinkExists(db: Db, department: Option<Id>) { department == None || department.value in db.departments }

  lemma LocationRefusedIff(db: Db, org: Org, op: LocationOp)
    requires NamesUnique(db) && WellLinked(db)
    ensures ApplyLocation(db, org, op).None? <==>
      match op
      case CreateLocation(id, name, _, department) =>
        id in db.locations || LocationNameUsed(db, org, name, None) || !LinkExists(db, department)
      case UpdateLocation(id, newName, _, newDepartment) =>
        || !OwnLocation(db, org, id)
        || (newName.Some? && LocationNameUsed(db, org, newName.value, Some(id)))
        || (newDepartment.Some? && !LinkExists(db, newDepartment.value))
      case ToggleLocation(id) => !OwnLocation(db, org, id)
  {
    if op.id in db.locations && db.locations[op.id].department.Some? {
      assert LinkableDepartment(db, db.locations[op.id].department.value, db.locations[op.id].org);
    }
  }

  /** The department a location comes with. */
  function LinkedDepartment(db: Db, department: Option<Id>): (d: Option<Department>)
    ensures d.Some? <==> department.Some? && department.value in db.departments
    ensures d.Some? ==> db.departments[department.value] == d.value
  {
    if department.Some? && department.value in db.departments then Some(db.departments[department.value]) else None
  }

  /** The list of all locations after one was written. */
  lemma WrittenList(db: Db, org: Org, id: Id, l: Location)
    requires l.org == org && (id in db.locations ==> db.locations[id].org == org)
    ensures Load(db.(locations := db.locations[id := l]), LocationsAll(org)).locations
      == Load(db, LocationsAll(org)).locations[id := LocationView(l, LinkedDepartment(db, l.department))]
  {
    var after := db.(locations := db.locations[id := l]);
    CatalogCoherence.LoadedLocations(db, org, false);
    CatalogCoherence.LoadedLocations(after, org, false);
    var before, now := Load(db, LocationsAll(org)).locations, Load(after, LocationsAll(org)).locations;
    forall other | other in now && other != id ensures now[other] == before[other] {
      assert ViewLocation(after, other) == ViewLocation(db, other);
    }
  }

  lemma ToggledList(db: Db, org: Org, id: Id)
    requires OwnLocation(db, org, id)
    ensures id in Load(db, LocationsAll(org)).locations
    ensures var l, v := db.locations[id], Load(db, LocationsAll(org)).locations[id];
            Load(db.(locations := db.locations[id := l.(active := !l.active)]), LocationsAll(org)).locations
            == Load(db, LocationsAll(org)).locations[id := v.(location := v.location.(active := !v.location.active))]
  {
    var l := db.locations[id];
    WrittenList(db, org, id, l.(active := !l.active));
  }

  /** The list of all locations after a call: one more, active; one with what is given changed; or one switched on or
      off. */
  lemma LocationWritten(db: Db, org: Org, op: LocationOp)
    requires ApplyLocation(db, org, op).Some?
    ensures var before, now := Load(db, LocationsAll(org)).locations,
                               Load(ApplyLocation(db, org, op).value, LocationsAll(org)).locations;
            match op
            case CreateLocation(id, name, details, department) =>
              && id !in before
              && now == before[id := LocationView(Location(org, name, details, true, department),
                                                  LinkedDepartment(db, department))]
            case UpdateLocation(id, newName, newDetails, newDepartment) =>
              && id in before && now.Keys == before.Keys
              && (forall other :: other in before && other != id ==> now[other] == before[other])
              && now[id].department == LinkedDepartment(db, now[id].location.department)
              && Relocated(before[id].location, newName, newDetails, newDepartment, now[id].location)
            case ToggleLocation(id) =>
              && id in before
              && now == before[id := before[id].(location :=
                                 before[id].location.(active := !before[id].location.active))]
  {
    if op.ToggleLocation? {
      ToggledList(db, org, op.id);
    } else {
      WrittenList(db, org, op.id, ApplyLocation(db, org, op).value.locations[op.id]);
    }
  }

  predicate Relocated(l: Location, newName: Option<Text>, newDetails: Option<Text>, newDepartment: Option<Option<Id>>,
                      m: Location) {
    && m.org == l.org && m.active == l.active
    && (if newName == None then m.name == l.name else newName == Some(m.name))
    && (if newDetails == None then m.details == l.details else newDetails == Some(m.details))
    && (if newDepartment == None then m.department == l.department else newDepartment == Some(m.department))
  }

  // ----- New templates -----

  /** The other entries of the list, when the other templates and their fields are as before. */
  lemma OtherEntriesStay(db: Db, after: Db, org: Org, id: Id)
    requires after.templates - {id} == db.templates - {id} && after.categories == db.categories
    requires forall t :: t != id && t in db.templates ==> FieldsOf(after, t) == FieldsOf(db, t)
    ensures Load(after, ActiveTemplates(org)).templates - {id} == Load(db, ActiveTemplates(org)).templates - {id}
  {
    CatalogCoherence.LoadedTemplates(db, org);
    CatalogCoherence.LoadedTemplates(after, org);
    var before, now := Load(db, ActiveTemplates(org)).templates, Load(after, ActiveTemplates(org)).templates;
    forall t | t in before - {id} ensures t in now && now[t] == before[t] {
      assert t in db.templates - {id} && (after.templates - {id})[t] == (db.templates - {id})[t];
      assert FieldsOf(after, t) == FieldsOf(db, t);
    }
    forall t | t in now - {id} ensures t in before {
      assert t in after.templates - {id} && (after.templates - {id})[t] == (db.templates - {id})[t];
    }
  }

  /** Generated ids are new, and each is generated once. */
  ghost predicate NewIds(db: Db, ids: seq<Id>) {
    Distinct(ids) && forall i :: 0 <= i < |ids| ==> ids[i] !in db.fields
  }

  /** The table has one more field for each position of the list, in its order, with the key of that position. */
  ghost predicate FieldsAdded(t: TemplateFields.Table, r: TemplateFields.Table, template: Id, l: FieldList)
    requires WellFormedList(l)
  {
    && (forall i :: 0 <= i < |l.fields| ==>
          TemplateFields.SavedAs(r, l.generated[i], template, l.fields[i], l.keys[i], i))
    && (forall f :: f in t ==> f in r && r[f] == t[f])
    && (forall f :: f in r ==> f in t || f in l.generated)
  }

  lemma FieldsCreatedIff(db: Db, template: Id, l: FieldList)
    requires WellFormedList(l) && NewIds(db, l.generated) && LinkedFields(db) && template !in db.templates
    ensures var r := CreateFields(db.fields, template, l);
            && (r.Some? <==> FormKeys.NoRepeats(l.keys))
            && (r.Some? ==> FieldsAdded(db.fields, r.value, template, l))
  {
    var t, rows := db.fields, TemplateFields.NewRows(template, l.fields, l.keys);
    TemplateFields.UpsertsCharacterized(t, template, l.generated, rows, |rows|);
    TemplateFields.AllFitMeansDistinct(t, template, l.generated, rows);
    TemplateFields.SameKeys(rows, l.keys);
    var r := CreateFields(t, template, l);
    if r.Some? {
      forall f | f in t ensures f in r.value && r.value[f] == t[f] {
        assert f !in l.generated;
      }
    }
  }

  /** With new ids, a template is created exactly when its category is there and no key of its fields repeats; it is a
      draft, which no list of active templates shows, with exactly the fields of the list. */
  lemma TemplateCreatedIff(db: Db, org: Org, id: Id, category: Id, details: Text, l: FieldList)
    requires WellLinked(db) && id !in db.templates && WellFormedList(l) && NewIds(db, l.generated)
    ensures var r := ApplyTemplate(db, org, CreateTemplate(id, category, details, l));
            && (r.Some? <==> category in db.categories && FormKeys.NoRepeats(l.keys))
            && (r.Some? ==>
                  && r.value.templates == db.templates[id := Template(org, category, DRAFT, details)]
                  && r.value.categories == db.categories
                  && FieldsAdded(db.fields, r.value.fields, id, l)
                  && Load(r.value, ActiveTemplates(org)) == Load(db, ActiveTemplates(org)))
  {
    FieldsCreatedIff(db, id, l);
    var r := ApplyTemplate(db, org, CreateTemplate(id, category, details, l));
    if r.Some? {
      DraftIsNotShown(db, r.value, org, id, l);
    }
  }

  lemma DraftIsNotShown(db: Db, after: Db, org: Org, id: Id, l: FieldList)
    requires LinkedFields(db) && id !in db.templates && WellFormedList(l) && FieldsAdded(db.fields, after.fields, id, l)
    requires after.templates - {id} == db.templates && id in after.templates && after.templates[id].status == DRAFT
    requires after.categories == db.categories
    ensures Load(after, ActiveTemplates(org)) == Load(db, ActiveTemplates(org))
  {
    forall t | t != id ensures FieldsOf(after, t) == FieldsOf(db, t) {
      NewFieldsAreOfTheTemplate(db.fields, after.fields, id, l, t);
    }
    assert db.templates - {id} == db.templates;
    OtherEntriesStay(db, after, org, id);
    var before, now := Load(db, ActiveTemplates(org)).templates, Load(after, ActiveTemplates(org)).templates;
    assert before - {id} == before && now - {id} == now;
  }

  lemma NewFieldsAreOfTheTemplate(t: TemplateFields.Table, r: TemplateFields.Table, template: Id, l: FieldList,
                                  other: Id)
    requires WellFormedList(l) && FieldsAdded(t, r, template, l) && other != template
    ensures forall f :: f in r && r[f].template == other <==> f in t && t[f].template == other
  {
    forall f | f in r && f !in t ensures r[f].template == template {
      var i :| 0 <= i < |l.generated| && l.generated[i] == f;
      assert TemplateFields.SavedAs(r, l.generated[i], template, l.fields[i], l.keys[i], i);
    }
  }

  /** A status changes exactly along draft, active, archived, active; and is archived only without open drafts. The list
      then shows the template, or no longer does. */
  lemma StatusWritten(db: Db, org: Org, id: Id, status: Status, drafts: nat)
    ensures var r := ApplyTemplate(db, org, ChangeStatus(id, status, drafts));
            && (r.Some? <==>
                  && OwnTemplate(db, id, org)
                  && (db.templates[id].status, status) in {(DRAFT, ACTIVE), (ACTIVE, ARCHIVED), (ARCHIVED, ACTIVE)}
                  && (status == ARCHIVED ==> drafts == 0))
            && (r.Some? ==>
                  var before, now := Load(db, ActiveTemplates(org)).templates,
                    Load(r.value, ActiveTemplates(org)).templates;
                  if status == ACTIVE then
                    && id !in before && id in now && now - {id} == before
                    && now[id].template == db.templates[id].(status := ACTIVE) && TemplateShown(r.value, id, now[id])
                  else id in before && now == before - {id})
  {
    var r := ApplyTemplate(db, org, ChangeStatus(id, status, drafts));
    if r.Some? {
      RestatusedList(db, r.value, org, id);
    }
  }

  lemma RestatusedList(db: Db, after: Db, org: Org, id: Id)
    requires OwnTemplate(db, id, org) && after == db.(templates := after.templates) && OwnTemplate(after, id, org)
    requires after.templates == db.templates[id := after.templates[id]]
    ensures var before, now := Load(db, ActiveTemplates(org)).templates, Load(after, ActiveTemplates(org)).templates;
            && now - {id} == before - {id}
            && (id in before <==> db.templates[id].status == ACTIVE)
            && (id in now <==> after.templates[id].status == ACTIVE)
            && (id in now ==> TemplateShown(after, id, now[id]))
  {
    TemplatesShown(after, org, id);
    forall t | t != id ensures FieldsOf(after, t) == FieldsOf(db, t) {
    }
    assert after.templates - {id} == db.templates - {id};
    OtherEntriesStay(db, after, org, id);
  }

  /** A template that is created and then published is the one new entry of the active list: active, under its category,
      with exactly the fields of the list, each under its key and in order. */
  lemma CreatedThenPublished(db: Db, org: Org, id: Id, category: Id, details: Text, l: FieldList, drafts: nat)
    requires WellLinked(db) && id !in db.templates && WellFormedList(l) && NewIds(db, l.generated)
    requires category in db.categories && FormKeys.NoRepeats(l.keys)
    ensures var created := ApplyTemplate(db, org, CreateTemplate(id, category, details, l));
            && created.Some?
            && var published := ApplyTemplate(created.value, org, ChangeStatus(id, ACTIVE, drafts));
               && published.Some?
               && var before, now := Load(db, ActiveTemplates(org)).templates,
                                     Load(published.value, ActiveTemplates(org)).templates;
                  && id !in before && id in now && now - {id} == before
                  && now[id].template == Template(org, category, ACTIVE, details)
                  && now[id].category == Some(db.categories[category])
                  && (forall f :: f in now[id].fields <==> f in l.generated)
                  && (forall i :: 0 <= i < |l.fields| ==>
                        TemplateFields.SavedAs(now[id].fields, l.generated[i], id, l.fields[i], l.keys[i], i))
  {
    TemplateCreatedIff(db, org, id, category, details, l);
    var created := ApplyTemplate(db, org, CreateTemplate(id, category, details, l)).value;
    StatusWritten(created, org, id, ACTIVE, drafts);
    var published := ApplyTemplate(created, org, ChangeStatus(id, ACTIVE, drafts)).value;
    PublishedFields(db, created, published, id, l, Load(published, ActiveTemplates(org)).templates[id]);
  }

  lemma PublishedFields(db: Db, created: Db, published: Db, id: Id, l: FieldList, v: TemplateView)
    requires LinkedFields(db) && id !in db.templates && id in published.templates && TemplateShown(published, id, v)
    requires WellFormedList(l) && FieldsAdded(db.fields, created.fields, id, l) && published.fields == created.fields
    ensures forall f :: f in v.fields <==> f in l.generated
    ensures forall i :: 0 <= i < |l.fields| ==>
              TemplateFields.SavedAs(v.fields, l.generated[i], id, l.fields[i], l.keys[i], i)
  {
    forall i | 0 <= i < |l.fields|
      ensures TemplateFields.SavedAs(v.fields, l.generated[i], id, l.fields[i], l.keys[i], i)
    {
      assert TemplateFields.SavedAs(created.fields, l.generated[i], id, l.fields[i], l.keys[i], i);
    }
  }

  /** A blueprint's category is the one of that name when the organization has one, and else a new one; the rest is a
      template created under it. */
  lemma BlueprintWritten(db: Db, org: Org, op: TemplateOp)
    requires op.UseBlueprint? && ApplyTemplate(db, org, op).Some? && NamesUnique(db)
    ensures var after := ApplyTemplate(db, org, op).value;
            && after.categories == db.categories[op.useCategory := Category(org, op.categoryName)]
            && (op.useCategory in db.categories <==> CategoryNameUsed(db, org, op.categoryName, None))
            && Some(after) == ApplyTemplate(db.(categories := after.categories), org,
                                            CreateTemplate(op.id, op.useCategory, op.details, op.list))
  {
    var found := FindOrCreateCategory(db, org, op.categoryName, op.useCategory).value;
    assert found.categories == db.categories[op.useCategory := Category(org, op.categoryName)];
    assert found == db.(categories := found.categories);
  }

  // ----- Edited and removed templates -----

  /** An edit writes the columns that are given and, when fields come with ids of the template or new ones, every
      field. */
  lemma TemplateEdited(db: Db, org: Org, op: TemplateOp)
    requires op.UpdateTemplate? && ApplyTemplate(db, org, op).Some?
    ensures var after := ApplyTemplate(db, org, op).value;
            && OwnTemplate(db, op.id, org) && OwnTemplate(after, op.id, org)
            && after.templates - {op.id} == db.templates - {op.id}
            && Retitled(db.templates[op.id], op.newCategory, op.newDetails, after.templates[op.id])
            && after.templates[op.id].category in db.categories
    ensures op.newList.None? ==> ApplyTemplate(db, org, op).value.fields == db.fields
    ensures op.newList.Some? && WellFormedList(op.newList.value) ==>
              var l := op.newList.value;
              forall ids :: TemplateFields.IdsOf(l.fields, l.generated, ids)
                            && TemplateFields.OwnOrFresh(db.fields, op.id, ids) ==>
                forall i :: 0 <= i < |ids| ==>
                  TemplateFields.SavedAs(ApplyTemplate(db, org, op).value.fields, ids[i], op.id,
                                                                      l.fields[i], l.keys[i], i)
  {
    var after := ApplyTemplate(db, org, op).value;
    assert after.templates - {op.id} == db.templates - {op.id};
    if op.newList.Some? {
      EditIsSaved(db.fields, op.id, op.newList.value, op.referenced);
    }
  }

  lemma EditIsSaved(t: TemplateFields.Table, template: Id, l: FieldList, referenced: set<Id>)
    requires EditFields(t, template, l, referenced).Some?
    ensures WellFormedList(l)
    ensures forall ids :: TemplateFields.IdsOf(l.fields, l.generated, ids)
                          && TemplateFields.OwnOrFresh(t, template, ids) ==>
              forall i :: 0 <= i < |ids| ==>
                TemplateFields.SavedAs(EditFields(t, template, l, referenced).value, ids[i],
                                                                    template, l.fields[i], l.keys[i], i)
  {
    forall ids | TemplateFields.IdsOf(l.fields, l.generated, ids) && TemplateFields.OwnOrFresh(t, template, ids)
      ensures forall i :: 0 <= i < |ids| ==>
        TemplateFields.SavedAs(EditFields(t, template, l, referenced).value, ids[i],
                                                                    template, l.fields[i], l.keys[i], i)
    {
      TemplateFields.FieldsAreSaved(t, template, l.fields, l.keys, l.generated, ids, referenced);
    }
  }

  predicate Retitled(t: Template, newCategory: Option<Id>, newDetails: Option<Text>, u: Template) {
    && u.org == t.org && u.status == t.status
    && (if newCategory == None then u.category == t.category else newCategory == Some(u.category))
    && (if newDetails == None then u.details == t.details else newDetails == Some(u.details))
  }

  /** Only drafts without submissions are removed, with their fields; the active list does not change. */
  lemma TemplateRemoved(db: Db, org: Org, id: Id, submissions: nat)
    ensures var r := ApplyTemplate(db, org, RemoveTemplate(id, submissions));
            && (r.Some? <==> OwnTemplate(db, id, org) && db.templates[id].status == DRAFT && submissions == 0)
            && (r.Some? ==>
                  && r.value.templates == db.templates - {id}
                  && (forall f :: f in r.value.fields <==> f in db.fields && db.fields[f].template != id)
                  && (forall f :: f in r.value.fields ==> r.value.fields[f] == db.fields[f])
                  && Load(r.value, ActiveTemplates(org)) == Load(db, ActiveTemplates(org)))
  {
    var r := ApplyTemplate(db, org, RemoveTemplate(id, submissions));
    if r.Some? {
      DraftIsRemoved(db, r.value, org, id);
    }
  }

  lemma DraftIsRemoved(db: Db, after: Db, org: Org, id: Id)
    requires id in db.templates && db.templates[id].status == DRAFT && after.categories == db.categories
    requires after.templates == db.templates - {id}
    requires after.fields == map f | f in db.fields && db.fields[f].template != id :: db.fields[f]
    ensures Load(after, ActiveTemplates(org)) == Load(db, ActiveTemplates(org))
  {
    forall t | t != id ensures FieldsOf(after, t) == FieldsOf(db, t) {
    }
    OtherEntriesStay(db, after, org, id);
    var before, now := Load(db, ActiveTemplates(org)).templates, Load(after, ActiveTemplates(org)).templates;
    assert before - {id} == before && now - {id} == now;
  }

  // ----- Fields -----

  /** Calls on the fields of a template are refused for other organizations, once there are submissions, for fields of
      other templates, and for keys in use. Reordering is not refused for submissions. */
  lemma FieldRefusedIff(db: Db, org: Org, op: FieldOp)
    requires NamesUnique(db)
    ensures ApplyField(db, org, op).None? <==>
      || !OwnTemplate(db, op.template, org)
      || match op
         case CreateField(template, id, key, _, _, submissions) =>
           submissions > 0 || id in db.fields || exists f :: FieldOfTemplate(db, template, f) && db.fields[f].key == key
         case UpdateField(template, id, newKey, _, _, submissions) =>
           || submissions > 0 || !FieldOfTemplate(db, template, id)
           || (newKey.Some?
               && exists f :: f != id && FieldOfTemplate(db, template, f) && db.fields[f].key == newKey.value)
         case RemoveField(template, id, submissions) => submissions > 0 || !FieldOfTemplate(db, template, id)
         case ReorderFields(template, items) =>
           exists i :: 0 <= i < |items| && !FieldOfTemplate(db, template, items[i].0)
  {
  }

  /** The fields of the template after a call. */
  lemma FieldWritten(db: Db, org: Org, op: FieldOp)
    requires ApplyField(db, org, op).Some?
    ensures var before, now := FieldsOf(db, op.template), FieldsOf(ApplyField(db, org, op).value, op.template);
            match op
            case CreateField(template, id, key, order, attributes, _) =>
              id !in before && now == before[id := TemplateFields.Row(template, key, order, attributes)]
            case UpdateField(template, id, newKey, newOrder, attributes, _) =>
              && id in before && now.Keys == before.Keys
              && (forall f :: f in before && f != id ==> now[f] == before[f])
              && now[id].template == template && now[id].attributes == attributes
              && (if newKey == None then now[id].key == before[id].key else newKey == Some(now[id].key))
              && (if newOrder == None then now[id].order == before[id].order else newOrder == Some(now[id].order))
            case RemoveField(_, id, _) => id in before && now == before - {id}
            case ReorderFields(_, items) =>
              && now.Keys == before.Keys
              && (forall f :: f in before ==> now[f].(order := before[f].order) == before[f])
              && (forall f :: f in before && Unnamed(items, f) ==> now[f] == before[f])
              && (forall i :: 0 <= i < |items| && Unnamed(items[i + 1..], items[i].0) ==>
                    items[i].0 in before && now[items[i].0].order == items[i].1)
  {
    if op.ReorderFields? {
      ReorderWritten(db.fields, op.items);
    }
  }

  predicate Unnamed(items: seq<(Id, int)>, f: Id) { forall i :: 0 <= i < |items| ==> items[i].0 != f }

  /** Every field gets the order of the last item that names it, and nothing else changes. */
  lemma {:induction false} ReorderWritten(t: TemplateFields.Table, items: seq<(Id, int)>)
    requires forall i :: 0 <= i < |items| ==> items[i].0 in t
    ensures var r := SetOrders(t, items);
            && r.Keys == t.Keys
            && (forall f :: f in t ==> r[f].(order := t[f].order) == t[f])
            && (forall f :: f in t && Unnamed(items, f) ==> r[f] == t[f])
            && (forall i :: 0 <= i < |items| && Unnamed(items[i + 1..], items[i].0) ==>
                  r[items[i].0].order == items[i].1)
  {
    if items != [] {
      var u := t[items[0].0 := t[items[0].0].(order := items[0].1)];
      ReorderWritten(u, items[1..]);
      forall i | 0 < i < |items| && Unnamed(items[i + 1..], items[i].0)
        ensures SetOrders(t, items)[items[i].0].order == items[i].1
      {
        assert items[1..][i..] == items[i + 1..];
        assert items[1..][i - 1] == items[i];
      }
    }
  }
}
