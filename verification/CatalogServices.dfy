/** The mutators of the seven services over the cached catalogs, and the keys each of them deletes afterwards. */
module CatalogServices {
  import opened Wrappers
  import opened JsText
  import opened Catalogs

  datatype DepartmentOp =
    | CreateDepartment(id: Id, name: Text, email: Option<Text>)
    | UpdateDepartment(id: Id, newName: Option<Text>, newEmail: Option<Text>)
    | RemoveDepartment(id: Id)

  /** Departments as master items; approving a suggestion creates one. */
  datatype MasterOp = CreateItem(id: Id, name: Text) | UpdateItem(id: Id, name: Text) | DeactivateItem(id: Id)

  datatype CategoryOp =
    | CreateCategory(id: Id, name: Text)
    | UpdateCategory(id: Id, newName: Option<Text>)
    | RemoveCategory(id: Id)

  datatype LocationOp =
    | CreateLocation(id: Id, name: Text, details: Text, department: Option<Id>)
    | UpdateLocation(id: Id, newName: Option<Text>, newDetails: Option<Text>, newDepartment: Option<Option<Id>>)
    | ToggleLocation(id: Id)

  /** Incoming fields with the keys they get and the ids the database would generate for them. */
  datatype FieldList = FieldList(fields: seq<TemplateFields.Incoming>, keys: seq<Text>, generated: seq<Id>)

  /** `drafts` and `submissions` are how many of them the template has; `referenced` the fields with submission values;
      `useCategory` the id that a blueprint's category is found or created with. */
  datatype TemplateOp =
    | CreateTemplate(id: Id, category: Id, details: Text, list: FieldList)
    | UpdateTemplate(id: Id, newCategory: Option<Id>, newDetails: Option<Text>, newList: Option<FieldList>,
      referenced: set<Id>)
    | ChangeStatus(id: Id, status: Status, drafts: nat)
    | RemoveTemplate(id: Id, submissions: nat)
    | UseBlueprint(id: Id, categoryName: Text, useCategory: Id, details: Text, list: FieldList)

  datatype FieldOp =
    | CreateField(template: Id, id: Id, key: Text, order: int, attributes: TemplateFields.Attributes, submissions: nat)
    | UpdateField(template: Id, id: Id, newKey: Option<Text>, newOrder: Option<int>,
      attributes: TemplateFields.Attributes, submissions: nat)
    | RemoveField(template: Id, id: Id, submissions: nat)
    | ReorderFields(template: Id, items: seq<(Id, int)>)

  datatype Op =
    | Dept(dept: DepartmentOp)
    | Master(master: MasterOp)
    | Cat(cat: CategoryOp)
    | Loc(loc: LocationOp)
    | Tmpl(tmpl: TemplateOp)
    | Fld(fld: FieldOp)

  function Or<T>(o: Option<T>, otherwise: T): T { if o.Some? then o.value else otherwise }

  // ----- Departments -----

  predicate DepartmentNamed(db: Db, org: Org, name: Text, except: Id) {
    exists id ::
      id in db.departments && id != except && db.departments[id].org == Some(org) && db.departments[id].name == name
  }

  function PutDepartment(db: Db, id: Id, d: Department): Option<Db>
  {
    if d.org.Some? && DepartmentNamed(db, d.org.value, d.name, id) then None
    else Some(db.(departments := db.departments[id := d]))
  }

  /** Nothing when the call is refused or fails: then nothing changes and no key is deleted. */
  function ApplyDepartment(db: Db, org: Org, op: DepartmentOp): Option<Db> {
    match op
    case CreateDepartment(id, name, email) =>
      if id in db.departments then None else PutDepartment(db, id, Department(Some(org), name, email, true))
    case UpdateDepartment(id, name, email) =>
      if !DepartmentIs(db.departments, id, org) then None
      else
        var d := db.departments[id];
        PutDepartment(db, id, d.(name := Or(name, d.name), email := if email.Some? then email else d.email))
    case RemoveDepartment(id) =>
      if !DepartmentIs(db.departments, id, org)
        || (exists l :: l in db.locations && db.locations[l].department == Some(id)) then None
      else Some(db.(departments := db.departments[id := db.departments[id].(active := false)]))
  }

  function ApplyMaster(db: Db, org: Org, op: MasterOp): Option<Db> {
    match op
    case CreateItem(id, name) =>
      if id in db.departments then None else PutDepartment(db, id, Department(Some(org), name, None, true))
    case UpdateItem(id, name) =>
      if !DepartmentIs(db.departments, id, org) then None else PutDepartment(db, id, db.departments[id].(name := name))
    case DeactivateItem(id) =>
      if !DepartmentIs(db.departments, id, org) then None
      else Some(db.(departments := db.departments[id := db.departments[id].(active := false)]))
  }

  // ----- Categories -----

  predicate CategoryNamed(db: Db, org: Org, name: Text, except: Id) {
    exists id :: id in db.categories && id != except && db.categories[id] == Category(org, name)
  }

  function ApplyCategory(db: Db, org: Org, op: CategoryOp): Option<Db> {
    match op
    case CreateCategory(id, name) =>
      if id in db.categories || CategoryNamed(db, org, name, id) then None
      else Some(db.(categories := db.categories[id := Category(org, name)]))
    case UpdateCategory(id, newName) =>
      if id !in db.categories || db.categories[id].org != org then None
      else
        var c := db.categories[id].(name := Or(newName, db.categories[id].name));
        if CategoryNamed(db, org, c.name, id) then None else Some(db.(categories := db.categories[id := c]))
    case RemoveCategory(id) =>
      if id !in db.categories || db.categories[id].org != org
        || (exists t :: t in db.templates && db.templates[t].category == id) then None
      else Some(db.(categories := db.categories - {id}))
  }

  // ----- Locations -----

  predicate LocationNamed(db: Db, org: Org, name: Text, except: Id) {
    exists id :: id in db.locations && id != except && db.locations[id].org == org && db.locations[id].name == name
  }

  function PutLocation(db: Db, id: Id, l: Location): Option<Db> {
    if LocationNamed(db, l.org, l.name, id) || (l.department.Some? && l.department.value !in db.departments) then None
    else Some(db.(locations := db.locations[id := l]))
  }

  function ApplyLocation(db: Db, org: Org, op: LocationOp): Option<Db> {
    match op
    case CreateLocation(id, name, details, department) =>
      if id in db.locations then None else PutLocation(db, id, Location(org, name, details, true, department))
    case UpdateLocation(id, name, details, department) =>
      if id !in db.locations || db.locations[id].org != org then None
      else
        var l := db.locations[id];
        PutLocation(db, id,
          l.(name := Or(name, l.name), details := Or(details, l.details), department := Or(department, l.department)))
    case ToggleLocation(id) =>
      if id !in db.locations || db.locations[id].org != org then None
      else Some(db.(locations := db.locations[id := db.locations[id].(active := !db.locations[id].active)]))
  }

  // ----- Templates -----

  predicate OwnTemplate(db: Db, id: Id, org: Org) { id in db.templates && db.templates[id].org == org }

  predicate WellFormedList(l: FieldList) { |l.keys| == |l.fields| == |l.generated| }

  predicate Distinct(ids: seq<Id>) { forall i, j :: 0 <= i < j < |ids| ==> ids[i] != ids[j] }

  /** The fields of a new template, all with new ids. */
  function CreateFields(t: TemplateFields.Table, template: Id, l: FieldList): Option<TemplateFields.Table> {
    if !WellFormedList(l) || !Distinct(l.generated) || (exists i :: 0 <= i < |l.generated| && l.generated[i] in t)
      then None
    else TemplateFields.UpsertAll(t, l.generated, TemplateFields.NewRows(template, l.fields, l.keys), |l.generated|)
  }

  function EditFields(t: TemplateFields.Table, template: Id, l: FieldList,
                      referenced: set<Id>): Option<TemplateFields.Table> {
    if !WellFormedList(l) then None
    else TemplateFields.UpsertAll(TemplateFields.AfterDelete(t, template, l.fields, referenced),
                                  TemplateFields.Targets(l.fields, l.generated),
                                  TemplateFields.NewRows(template, l.fields, l.keys), |l.fields|)
  }

  predicate AllowedChange(current: Status, next: Status, drafts: nat) {
    || (current == DRAFT && next == ACTIVE)
    || (current == ACTIVE && next == ARCHIVED && drafts == 0)
    || (current == ARCHIVED && next == ACTIVE)
  }

  function NewTemplate(db: Db, id: Id, t: Template, l: FieldList): Option<Db> {
    var fields := CreateFields(db.fields, id, l);
    if id in db.templates || t.category !in db.categories || fields.None? then None
    else Some(db.(templates := db.templates[id := t], fields := fields.value))
  }

  /** The category a blueprint asks for, created when the organization has none of that name. */
  function FindOrCreateCategory(db: Db, org: Org, name: Text, id: Id): Option<Db> {
    if id in db.categories && db.categories[id] == Category(org, name) then Some(db)
    else if id in db.categories || CategoryNamed(db, org, name, id) then None
    else Some(db.(categories := db.categories[id := Category(org, name)]))
  }

  function ApplyTemplate(db: Db, org: Org, op: TemplateOp): Option<Db> {
    match op
    case CreateTemplate(id, category, details, list) =>
      NewTemplate(db, id, Template(org, category, DRAFT, details), list)
    case UpdateTemplate(id, category, details, list, referenced) =>
      if !OwnTemplate(db, id, org) then None
      else
        var t := db.templates[id].(category := Or(category, db.templates[id].category),
          details := Or(details, db.templates[id].details));
        var fields := if list.None? then Some(db.fields) else EditFields(db.fields, id, list.value, referenced);
        if t.category !in db.categories || fields.None? then None
        else Some(db.(templates := db.templates[id := t], fields := fields.value))
    case ChangeStatus(id, status, drafts) =>
      if !OwnTemplate(db, id, org) || !AllowedChange(db.templates[id].status, status, drafts) then None
      else Some(db.(templates := db.templates[id := db.templates[id].(status := status)]))
    case RemoveTemplate(id, submissions) =>
      if !OwnTemplate(db, id, org) || db.templates[id].status != DRAFT || submissions > 0 then None
      else
        var fields := map f | f in db.fields && db.fields[f].template != id :: db.fields[f];
        Some(db.(templates := db.templates - {id}, fields := fields))
    case UseBlueprint(id, categoryName, category, details, list) =>
      var found := FindOrCreateCategory(db, org, categoryName, category);
      if found.None? then None else NewTemplate(found.value, id, Template(org, category, DRAFT, details), list)
  }

  // ----- Fields -----

  predicate FieldOfTemplate(db: Db, template: Id, id: Id) { id in db.fields && db.fields[id].template == template }

  function SetOrders(t: TemplateFields.Table, items: seq<(Id, int)>): (r: TemplateFields.Table)
    requires forall i :: 0 <= i < |items| ==> items[i].0 in t
    ensures r.Keys == t.Keys
    ensures forall id :: id in t ==> r[id].template == t[id].template && r[id].key == t[id].key
    ensures forall id :: id in t && (forall i :: 0 <= i < |items| ==> items[i].0 != id) ==> r[id] == t[id]
  {
    if items == [] then t
    else SetOrders(t[items[0].0 := t[items[0].0].(order := items[0].1)], items[1..])
  }

  function ApplyField(db: Db, org: Org, op: FieldOp): Option<Db> {
    if !OwnTemplate(db, op.template, org) then None
    else
      match op
      case CreateField(template, id, key, order, attributes, submissions) =>
        if submissions > 0 || id in db.fields || TemplateFields.KeyTaken(db.fields, template, key, id) then None
        else Some(db.(fields := db.fields[id := TemplateFields.Row(template, key, order, attributes)]))
      case UpdateField(template, id, key, order, attributes, submissions) =>
        if submissions > 0 || !FieldOfTemplate(db, template, id) then None
        else
          var f := db.fields[id].(key := Or(key, db.fields[id].key), order := Or(order, db.fields[id].order),
            attributes := attributes);
          if TemplateFields.KeyTaken(db.fields, template, f.key, id) then None
          else Some(db.(fields := db.fields[id := f]))
      case RemoveField(template, id, submissions) =>
        if submissions > 0 || !FieldOfTemplate(db, template, id) then None else Some(db.(fields := db.fields - {id}))
      case ReorderFields(template, items) =>
        if exists i :: 0 <= i < |items| && !FieldOfTemplate(db, template, items[i].0) then None
        else Some(db.(fields := SetOrders(db.fields, items)))
  }

  // ----- All services -----

  function Apply(db: Db, org: Org, op: Op): Option<Db> {
    match op
    case Dept(dept) => ApplyDepartment(db, org, dept)
    case Master(master) => ApplyMaster(db, org, master)
    case Cat(cat) => ApplyCategory(db, org, cat)
    case Loc(loc) => ApplyLocation(db, org, loc)
    case Tmpl(tmpl) => ApplyTemplate(db, org, tmpl)
    case Fld(fld) => ApplyField(db, org, fld)
  }

  /** The keys deleted after a change. Departments of the department service do not delete the master list. */
  function Invalidated(org: Org, op: Op): set<Key> {
    match op
    case Dept(_) => {Departments(org), LocationsActive(org), LocationsAll(org)}
    case Master(_) => {MasterDepartments(org), Departments(org), LocationsActive(org), LocationsAll(org)}
    case Cat(_) => {Categories(org), ActiveTemplates(org)}
    case Loc(_) => {LocationsActive(org), LocationsAll(org)}
    case Tmpl(tmpl) => if tmpl.UseBlueprint? then {Categories(org), ActiveTemplates(org)} else {ActiveTemplates(org)}
    case Fld(_) => {ActiveTemplates(org)}
  }

  /** The ids of an edit are those of fields of the organization, or new. */
  predicate OwnedOrNew(db: Db, org: Org, ids: seq<Id>) {
    forall i :: 0 <= i < |ids| && ids[i] in db.fields ==> OwnTemplate(db, db.fields[ids[i]].template, org)
  }

  /** The links a call makes stay inside the organization, and an edit names fields of the organization or new ones. The
      services do not check this. */
  predicate LinksInside(db: Db, org: Org, op: Op) {
    match op
    case Dept(_) => true
    case Master(_) => true
    case Cat(_) => true
    case Loc(loc) =>
      (match loc
       case CreateLocation(_, _, _, d) => d.Some? ==> LinkableDepartment(db, d.value, org)
       case UpdateLocation(_, _, _, d) => d.Some? && d.value.Some? ==> LinkableDepartment(db, d.value.value, org)
       case ToggleLocation(_) => true)
    case Tmpl(tmpl) =>
      (match tmpl
       case CreateTemplate(_, c, _, _) => LinkableCategory(db, c, org)
       case UpdateTemplate(_, c, _, list, _) =>
         && (c.Some? ==> LinkableCategory(db, c.value, org))
         && (list.Some? && WellFormedList(list.value) ==>
               OwnedOrNew(db, org, TemplateFields.Targets(list.value.fields, list.value.generated)))
       case ChangeStatus(_, _, _) => true
       case RemoveTemplate(_, _) => true
       case UseBlueprint(_, _, _, _, _) => true)
    case Fld(_) => true
  }

  // ----- What each service changes -----

  lemma PutDepartmentEffect(db: Db, org: Org, id: Id, d: Department)
    requires d.org == Some(org) && (id in db.departments ==> DepartmentIs(db.departments, id, org)) && WellLinked(db)
    ensures var after := db.(departments := db.departments[id := d]);
            DepartmentsOf(db, after, org) && WellLinked(after)
  {
  }

  lemma DepartmentEffect(db: Db, org: Org, op: DepartmentOp)
    requires WellLinked(db) && ApplyDepartment(db, org, op).Some?
    ensures var after := ApplyDepartment(db, org, op).value; DepartmentsOf(db, after, org) && WellLinked(after)
  {
    PutDepartmentEffect(db, org, op.id, ApplyDepartment(db, org, op).value.departments[op.id]);
  }

  lemma MasterEffect(db: Db, org: Org, op: MasterOp)
    requires WellLinked(db) && ApplyMaster(db, org, op).Some?
    ensures var after := ApplyMaster(db, org, op).value; DepartmentsOf(db, after, org) && WellLinked(after)
  {
    PutDepartmentEffect(db, org, op.id, ApplyMaster(db, org, op).value.departments[op.id]);
  }

  lemma PutCategoryEffect(db: Db, org: Org, id: Id, name: Text)
    requires (id in db.categories ==> db.categories[id].org == org) && WellLinked(db)
    ensures var after := db.(categories := db.categories[id := Category(org, name)]);
            CategoriesOf(db, after, org) && WellLinked(after)
  {
  }

  lemma CategoryEffect(db: Db, org: Org, op: CategoryOp)
    requires WellLinked(db) && ApplyCategory(db, org, op).Some?
    ensures var after := ApplyCategory(db, org, op).value; CategoriesOf(db, after, org) && WellLinked(after)
  {
    var after := ApplyCategory(db, org, op).value;
    if op.RemoveCategory? {
      forall t | t in db.templates ensures LinkableCategory(after, db.templates[t].category, db.templates[t].org) {
        assert LinkableCategory(db, db.templates[t].category, db.templates[t].org);
      }
      forall l | l in db.locations && db.locations[l].department.Some?
        ensures LinkableDepartment(after, db.locations[l].department.value, db.locations[l].org)
      {
        assert LinkableDepartment(db, db.locations[l].department.value, db.locations[l].org);
      }
    } else {
      PutCategoryEffect(db, org, op.id, after.categories[op.id].name);
    }
  }

  lemma LocationEffect(db: Db, org: Org, op: LocationOp)
    requires WellLinked(db) && ApplyLocation(db, org, op).Some? && LinksInside(db, org, Loc(op))
    ensures var after := ApplyLocation(db, org, op).value; LocationsOf(db, after, org) && WellLinked(after)
  {
    var after := ApplyLocation(db, org, op).value;
    forall l | l in after.locations && after.locations[l].department.Some?
      ensures LinkableDepartment(after, after.locations[l].department.value, after.locations[l].org)
    {
      if l in db.locations && db.locations[l].department == after.locations[l].department {
        assert LinkableDepartment(db, db.locations[l].department.value, db.locations[l].org);
      }
    }
    forall t | t in db.templates ensures LinkableCategory(after, db.templates[t].category, db.templates[t].org) {
      assert LinkableCategory(db, db.templates[t].category, db.templates[t].org);
    }
  }
}
