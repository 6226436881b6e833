/** The cached catalogs: their keys, what their loaders read, and which rows a loader depends on. */
module Catalogs {
  import opened Wrappers
  import opened JsText
  import TemplateFields

  type Id = Text
  type Org = Text

  datatype Status = DRAFT | ACTIVE | ARCHIVED

  /** Global departments have no organization. */
  datatype Department = Department(org: Option<Org>, name: Text, email: Option<Text>, active: bool)
  datatype Category = Category(org: Org, name: Text)
  datatype Location = Location(org: Org, name: Text, details: Text, active: bool, department: Option<Id>)
  /** `details` are the columns that take part in no condition. */
  datatype Template = Template(org: Org, category: Id, status: Status, details: Text)

  datatype Db = Db(departments: map<Id, Department>, categories: map<Id, Category>, locations: map<Id, Location>,
                   templates: map<Id, Template>, fields: TemplateFields.Table)

  // ----- Keys -----

  datatype Key =
    | ActiveTemplates(org: Org)
    | Categories(org: Org)
    | Departments(org: Org)
    | LocationsActive(org: Org)
    | LocationsAll(org: Org)
    | MasterDepartments(org: Org)

  function Prefix(k: Key): Text {
    match k
    case ActiveTemplates(_) => Ascii("cache:templates:active:")
    case Categories(_) => Ascii("cache:categories:")
    case Departments(_) => Ascii("cache:departments:")
    case LocationsActive(_) => Ascii("cache:locations:active:")
    case LocationsAll(_) => Ascii("cache:locations:all:")
    case MasterDepartments(_) => Ascii("master:departments:")
  }

  function Render(k: Key): Text { Prefix(k) + k.org }

  /** The characters by which the prefixes differ. */
  lemma Distinguished(k: Key)
    ensures |Render(k)| > 17 || k.Categories?
    ensures |Render(k)| > 6 && Render(k)[6] == (match k
              case ActiveTemplates(_) => 't' case Categories(_) => 'c' case Departments(_) => 'd'
              case LocationsActive(_) => 'l' case LocationsAll(_) => 'l' case MasterDepartments(_) => ':') as int
    ensures k.LocationsActive? ==> Render(k)[17] == 'c' as int
    ensures k.LocationsAll? ==> Render(k)[17] == 'l' as int
  {
  }

  /** No two catalogs, and no two organizations, share a Redis key. */
  lemma KeysAreDistinct(k: Key, l: Key)
    requires Render(k) == Render(l)
    ensures k == l
  {
    Distinguished(k);
    Distinguished(l);
    assert Render(k)[|Prefix(k)|..] == k.org && Render(l)[|Prefix(l)|..] == l.org;
  }

  // ----- Loaders -----

  datatype LocationView = LocationView(location: Location, department: Option<Department>)
  datatype TemplateView = TemplateView(template: Template, category: Option<Category>, fields: TemplateFields.Table)
  datatype MasterView = MasterView(org: Option<Org>, name: Text)

  /** The rows of a list with what they embed; the order of a list is a function of them. */
  datatype Catalog =
    | TemplateList(templates: map<Id, TemplateView>)
    | CategoryList(categories: map<Id, Category>)
    | DepartmentList(departments: map<Id, Department>)
    | LocationList(locations: map<Id, LocationView>)
    | MasterList(items: map<Id, MasterView>)

  predicate VisibleDepartment(d: Department, org: Org) {
    d.active && (d.org == Some(org) || d.org == None)
  }

  function FieldsOf(db: Db, template: Id): TemplateFields.Table {
    map id | id in db.fields && db.fields[id].template == template :: db.fields[id]
  }

  function ViewTemplate(db: Db, id: Id): TemplateView
    requires id in db.templates
  {
    var t := db.templates[id];
    TemplateView(t, if t.category in db.categories then Some(db.categories[t.category]) else None, FieldsOf(db, id))
  }

  function ViewLocation(db: Db, id: Id): LocationView
    requires id in db.locations
  {
    var l := db.locations[id];
    LocationView(l, if l.department.Some? && l.department.value in db.departments
      then Some(db.departments[l.department.value]) else None)
  }

  function Load(db: Db, k: Key): Catalog {
    match k
    case ActiveTemplates(org) =>
      TemplateList(map id | id in db.templates && db.templates[id].org == org && db.templates[id].status == ACTIVE ::
        ViewTemplate(db, id))
    case Categories(org) =>
      CategoryList(map id | id in db.categories && db.categories[id].org == org :: db.categories[id])
    case Departments(org) =>
      DepartmentList(map id | id in db.departments && VisibleDepartment(db.departments[id], org) :: db.departments[id])
    case LocationsActive(org) =>
      LocationList(map id | id in db.locations && db.locations[id].org == org && db.locations[id].active ::
        ViewLocation(db, id))
    case LocationsAll(org) =>
      LocationList(map id | id in db.locations && db.locations[id].org == org :: ViewLocation(db, id))
    case MasterDepartments(org) =>
      MasterList(map id | id in db.departments && VisibleDepartment(db.departments[id], org)
                   :: MasterView(db.departments[id].org, db.departments[id].name))
  }

  // ----- Links -----

  /** Embedded rows are of the same organization, or global, and fields have their template. */
  predicate LinkedLocations(db: Db) {
    forall id :: id in db.locations && db.locations[id].department.Some? ==>
      LinkableDepartment(db, db.locations[id].department.value, db.locations[id].org)
  }

  predicate LinkableDepartment(db: Db, id: Id, org: Org) {
    id in db.departments && (db.departments[id].org == None || db.departments[id].org == Some(org))
  }

  predicate LinkedTemplates(db: Db) {
    forall id :: id in db.templates ==> LinkableCategory(db, db.templates[id].category, db.templates[id].org)
  }

  predicate LinkableCategory(db: Db, id: Id, org: Org) {
    id in db.categories && db.categories[id].org == org
  }

  predicate LinkedFields(db: Db) {
    forall id :: id in db.fields ==> db.fields[id].template in db.templates
  }

  predicate WellLinked(db: Db) { LinkedLocations(db) && LinkedTemplates(db) && LinkedFields(db) }

  // ----- Which rows changed -----

  predicate DepartmentIs(m: map<Id, Department>, id: Id, org: Org) { id in m && m[id].org == Some(org) }

  /** Only departments of `org` changed, and none went away or changed organization. */
  ghost predicate DepartmentsOf(db: Db, after: Db, org: Org) {
    && after == db.(departments := after.departments)
    && (forall id :: id in db.departments ==>
          id in after.departments && after.departments[id].org == db.departments[id].org)
    && (forall id :: id in after.departments && !DepartmentIs(after.departments, id, org) ==>
          id in db.departments && after.departments[id] == db.departments[id])
  }

  /** Only categories of `org` changed; those that went away were linked from no template. */
  ghost predicate CategoriesOf(db: Db, after: Db, org: Org) {
    && after == db.(categories := after.categories)
    && (forall id :: id in db.categories && id !in after.categories ==>
          db.categories[id].org == org && forall t :: t in db.templates ==> db.templates[t].category != id)
    && (forall id :: id in db.categories && id in after.categories ==>
          after.categories[id].org == db.categories[id].org)
    && (forall id :: id in after.categories && after.categories[id].org != org ==>
          id in db.categories && after.categories[id] == db.categories[id])
  }

  /** Only locations of `org` changed. */
  ghost predicate LocationsOf(db: Db, after: Db, org: Org) {
    && after == db.(locations := after.locations)
    && (forall id :: id in db.locations && db.locations[id].org != org ==>
          id in after.locations && after.locations[id] == db.locations[id])
    && (forall id :: id in after.locations && after.locations[id].org != org ==>
          id in db.locations && after.locations[id] == db.locations[id])
  }

  /** A field whose template is a template of another organization. */
  predicate ForeignField(templates: map<Id, Template>, f: TemplateFields.Row, org: Org) {
    f.template in templates && templates[f.template].org != org
  }

  /** Only templates of `org` and fields of such templates changed. */
  ghost predicate TemplatesOf(db: Db, after: Db, org: Org) {
    && after == db.(templates := after.templates, fields := after.fields)
    && (forall id :: id in db.templates && db.templates[id].org != org ==>
          id in after.templates && after.templates[id] == db.templates[id])
    && (forall id :: id in after.templates && after.templates[id].org != org ==>
          id in db.templates && after.templates[id] == db.templates[id])
    && (forall id :: id in db.fields && ForeignField(db.templates, db.fields[id], org) ==>
          id in after.fields && after.fields[id] == db.fields[id])
    && (forall id :: id in after.fields && ForeignField(after.templates, after.fields[id], org) ==>
          id in db.fields && after.fields[id] == db.fields[id])
  }

  // ----- Catalogs that do not see a change -----

  lemma TemplatesUnseen(db: Db, after: Db, org: Org)
    requires forall id :: id in db.templates && db.templates[id].org == org <==>
             id in after.templates && after.templates[id].org == org
    requires forall id :: id in db.templates && db.templates[id].org == org ==>
             ViewTemplate(after, id) == ViewTemplate(db, id)
    ensures Load(after, ActiveTemplates(org)) == Load(db, ActiveTemplates(org))
  {
  }

  ghost predicate SameViews(db: Db, after: Db, org: Org) {
    && (forall id :: id in db.locations && db.locations[id].org == org <==>
          id in after.locations && after.locations[id].org == org)
    && (forall id :: id in db.locations && db.locations[id].org == org ==>
          ViewLocation(after, id) == ViewLocation(db, id))
  }

  lemma AllLocationsUnseen(db: Db, after: Db, org: Org)
    requires SameViews(db, after, org)
    ensures Load(after, LocationsAll(org)) == Load(db, LocationsAll(org))
  {
  }

  lemma LocationsUnseen(db: Db, after: Db, org: Org)
    requires SameViews(db, after, org)
    ensures Load(after, LocationsActive(org)) == Load(db, LocationsActive(org))
    ensures Load(after, LocationsAll(org)) == Load(db, LocationsAll(org))
  {
    AllLocationsUnseen(db, after, org);
    forall id | id in db.locations && db.locations[id].org == org ensures after.locations[id] == db.locations[id] {
      assert ViewLocation(after, id).location == ViewLocation(db, id).location;
    }
  }

  lemma SameTemplates(db: Db, after: Db, org: Org)
    requires after.templates == db.templates && after.fields == db.fields && after.categories == db.categories
    ensures Load(after, ActiveTemplates(org)) == Load(db, ActiveTemplates(org))
  {
  }

  lemma SameLocations(db: Db, after: Db, org: Org)
    requires after.locations == db.locations && after.departments == db.departments
    ensures Load(after, LocationsActive(org)) == Load(db, LocationsActive(org))
    ensures Load(after, LocationsAll(org)) == Load(db, LocationsAll(org))
  {
    forall id | id in db.locations ensures ViewLocation(after, id) == ViewLocation(db, id) {
    }
    LocationsUnseen(db, after, org);
  }

  lemma SameDepartments(db: Db, after: Db, org: Org)
    requires after.departments == db.departments
    ensures Load(after, Departments(org)) == Load(db, Departments(org))
    ensures Load(after, MasterDepartments(org)) == Load(db, MasterDepartments(org))
  {
  }

  // ----- A change of departments -----

  predicate DependsOnDepartments(k: Key, org: Org) {
    k.org == org && (k.Departments? || k.LocationsActive? || k.LocationsAll? || k.MasterDepartments?)
  }

  lemma DepartmentsFrame(db: Db, after: Db, org: Org, k: Key)
    requires DepartmentsOf(db, after, org) && LinkedLocations(db) && !DependsOnDepartments(k, org)
    ensures Load(after, k) == Load(db, k)
  {
    match k
    case ActiveTemplates(other) => SameTemplates(db, after, other);
    case Categories(_) =>
    case Departments(other) => OtherDepartmentsStay(db, after, org, other);
    case MasterDepartments(other) => OtherDepartmentsStay(db, after, org, other);
    case LocationsActive(other) => OtherEmbeddingsStay(db, after, org, other);
    case LocationsAll(other) => OtherEmbeddingsStay(db, after, org, other);
  }

  lemma OtherDepartmentsStay(db: Db, after: Db, org: Org, other: Org)
    requires DepartmentsOf(db, after, org) && other != org
    ensures Load(after, Departments(other)) == Load(db, Departments(other))
    ensures Load(after, MasterDepartments(other)) == Load(db, MasterDepartments(other))
  {
    forall id ensures (id in db.departments && VisibleDepartment(db.departments[id], other)) <==>
                      (id in after.departments && VisibleDepartment(after.departments[id], other))
    {
    }
  }

  lemma OtherEmbeddingsStay(db: Db, after: Db, org: Org, other: Org)
    requires DepartmentsOf(db, after, org) && LinkedLocations(db) && other != org
    ensures Load(after, LocationsActive(other)) == Load(db, LocationsActive(other))
    ensures Load(after, LocationsAll(other)) == Load(db, LocationsAll(other))
  {
    forall id | id in db.locations && db.locations[id].org == other
      ensures ViewLocation(after, id) == ViewLocation(db, id) {
      if db.locations[id].department.Some? {
        assert LinkableDepartment(db, db.locations[id].department.value, other);
      }
    }
    LocationsUnseen(db, after, other);
  }

  // ----- A change of categories, locations or templates -----

  lemma CategoriesFrame(db: Db, after: Db, org: Org, k: Key)
    requires CategoriesOf(db, after, org) && LinkedTemplates(db) && k != Categories(org) && k != ActiveTemplates(org)
    ensures Load(after, k) == Load(db, k)
  {
    match k
    case ActiveTemplates(other) =>
      forall id | id in db.templates && db.templates[id].org == other
        ensures ViewTemplate(after, id) == ViewTemplate(db, id) {
        assert LinkableCategory(db, db.templates[id].category, other);
      }
      TemplatesUnseen(db, after, other);
    case Categories(_) =>
    case Departments(other) => SameDepartments(db, after, other);
    case MasterDepartments(other) => SameDepartments(db, after, other);
    case LocationsActive(other) => SameLocations(db, after, other);
    case LocationsAll(other) => SameLocations(db, after, other);
  }

  lemma LocationsFrame(db: Db, after: Db, org: Org, k: Key)
    requires LocationsOf(db, after, org) && k != LocationsActive(org) && k != LocationsAll(org)
    ensures Load(after, k) == Load(db, k)
  {
    match k
    case ActiveTemplates(other) => SameTemplates(db, after, other);
    case Categories(_) =>
    case Departments(other) => SameDepartments(db, after, other);
    case MasterDepartments(other) => SameDepartments(db, after, other);
    case LocationsActive(other) => OtherLocationsStay(db, after, org, other);
    case LocationsAll(other) => OtherLocationsStay(db, after, org, other);
  }

  lemma OtherLocationsStay(db: Db, after: Db, org: Org, other: Org)
    requires LocationsOf(db, after, org) && other != org
    ensures Load(after, LocationsActive(other)) == Load(db, LocationsActive(other))
    ensures Load(after, LocationsAll(other)) == Load(db, LocationsAll(other))
  {
    forall id | id in db.locations && db.locations[id].org == other
      ensures ViewLocation(after, id) == ViewLocation(db, id) {
    }
    LocationsUnseen(db, after, other);
  }

  lemma TemplatesFrame(db: Db, after: Db, org: Org, k: Key)
    requires TemplatesOf(db, after, org) && k != ActiveTemplates(org)
    ensures Load(after, k) == Load(db, k)
  {
    match k
    case ActiveTemplates(other) =>
      forall id | id in db.templates && db.templates[id].org == other
        ensures ViewTemplate(after, id) == ViewTemplate(db, id) {
        assert FieldsOf(after, id) == FieldsOf(db, id);
      }
      TemplatesUnseen(db, after, other);
    case Categories(_) =>
    case Departments(other) => SameDepartments(db, after, other);
    case MasterDepartments(other) => SameDepartments(db, after, other);
    case LocationsActive(other) => SameLocations(db, after, other);
    case LocationsAll(other) => SameLocations(db, after, other);
  }
}
