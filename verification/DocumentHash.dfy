/** The document a signature covers, and its hash as of an instant. */
module DocumentHash {
  import opened JsText
  import opened CanonicalJson
  import opened SignatureData
  import opened FormApproval
  import opened StableSorting

  datatype Question = Question(id: Id, pregunta: Text, respuesta: Text)

  datatype Signer = Signer(cedula: Text, nombre: Text, rol: Text)

  datatype CanonicalDocument = CanonicalDocument(
    permisoId: Id,
    empresaId: Id,
    tipoPermiso: Text,
    fechaCreacion: Text,
    preguntas: seq<Question>,
    firmantes: seq<Signer>)

  // ----- Serialization -----

  function QuestionJson(q: Question): Json {
    Obj([Member(Ascii("id"), Str(q.id)),
         Member(Ascii("pregunta"), Str(q.pregunta)),
         Member(Ascii("respuesta"), Str(q.respuesta))])
  }

  function SignerJson(s: Signer): Json {
    Obj([Member(Ascii("cedula"), Str(s.cedula)),
         Member(Ascii("nombre"), Str(s.nombre)),
         Member(Ascii("rol"), Str(s.rol))])
  }

  function DocumentJson(d: CanonicalDocument): Json {
    Obj([Member(Ascii("permiso_id"), Str(d.permisoId)),
         Member(Ascii("empresa_id"), Str(d.empresaId)),
         Member(Ascii("tipo_permiso"), Str(d.tipoPermiso)),
         Member(Ascii("fecha_creacion"), Str(d.fechaCreacion)),
         Member(Ascii("preguntas"), Arr(Mapped(d.preguntas, QuestionJson))),
         Member(Ascii("firmantes"), Arr(Mapped(d.firmantes, SignerJson)))])
  }

  lemma SameKeySameValue(ms: seq<Member>, ns: seq<Member>, i: nat)
    requires EqualUpToOrder(Obj(ms), Obj(ns)) && i < |ms| && i < |ns| && ms[i].key == ns[i].key
    ensures EqualUpToOrder(ms[i].val, ns[i].val)
  {
  }

  lemma QuestionJsonFaithful(a: Question, b: Question)
    ensures WellFormed(QuestionJson(a))
    ensures EqualUpToOrder(QuestionJson(a), QuestionJson(b)) ==> a == b
  {
    var ms, ns := QuestionJson(a).members, QuestionJson(b).members;
    assert |Ascii("id")| == 2 && |Ascii("pregunta")| == 8 && |Ascii("respuesta")| == 9;
    ThreeKeys(Ascii("id"), Ascii("pregunta"), Ascii("respuesta"), ms);
    if EqualUpToOrder(QuestionJson(a), QuestionJson(b)) {
      SameKeySameValue(ms, ns, 0);
      SameKeySameValue(ms, ns, 1);
      SameKeySameValue(ms, ns, 2);
    }
  }

  lemma SignerJsonFaithful(a: Signer, b: Signer)
    ensures WellFormed(SignerJson(a))
    ensures EqualUpToOrder(SignerJson(a), SignerJson(b)) ==> a == b
  {
    var ms, ns := SignerJson(a).members, SignerJson(b).members;
    assert Ascii("cedula")[0] != Ascii("nombre")[0];
    ThreeKeys(Ascii("cedula"), Ascii("nombre"), Ascii("rol"), ms);
    if EqualUpToOrder(SignerJson(a), SignerJson(b)) {
      SameKeySameValue(ms, ns, 0);
      SameKeySameValue(ms, ns, 1);
      SameKeySameValue(ms, ns, 2);
    }
  }

  lemma ThreeKeys(k0: Text, k1: Text, k2: Text, ms: seq<Member>)
    requires k0 != k1 && k1 != k2 && k0 != k2
    requires |ms| == 3 && ms[0].key == k0 && ms[1].key == k1 && ms[2].key == k2
    requires ms[0].val.Str? && ms[1].val.Str? && ms[2].val.Str?
    ensures WellFormed(Obj(ms))
  {
  }

  lemma DocumentJsonWellFormed(d: CanonicalDocument)
    ensures WellFormed(DocumentJson(d))
  {
    var ms := DocumentJson(d).members;
    assert Keys(ms)[0] == Ascii("permiso_id") && Keys(ms)[0][0] == 0x70 && |Keys(ms)[0]| == 10;
    assert Keys(ms)[1] == Ascii("empresa_id") && Keys(ms)[1][0] == 0x65 && |Keys(ms)[1]| == 10;
    assert |Keys(ms)[2]| == 12 && |Keys(ms)[3]| == 14;
    assert Keys(ms)[4] == Ascii("preguntas") && Keys(ms)[4][0] == 0x70 && |Keys(ms)[4]| == 9;
    assert Keys(ms)[5] == Ascii("firmantes") && Keys(ms)[5][0] == 0x66 && |Keys(ms)[5]| == 9;
    forall q | q in d.preguntas ensures WellFormed(QuestionJson(q)) {
      QuestionJsonFaithful(q, q);
    }
    forall s | s in d.firmantes ensures WellFormed(SignerJson(s)) {
      SignerJsonFaithful(s, s);
    }
  }

  lemma QuestionsFaithful(xs: seq<Question>, ys: seq<Question>)
    requires EqualUpToOrder(Arr(Mapped(xs, QuestionJson)), Arr(Mapped(ys, QuestionJson)))
    ensures xs == ys
  {
    var ps, qs := Mapped(xs, QuestionJson), Mapped(ys, QuestionJson);
    forall i | 0 <= i < |xs| ensures xs[i] == ys[i] {
      assert EqualUpToOrder(ps[i], qs[i]);
      QuestionJsonFaithful(xs[i], ys[i]);
    }
  }

  lemma SignersFaithful(xs: seq<Signer>, ys: seq<Signer>)
    requires EqualUpToOrder(Arr(Mapped(xs, SignerJson)), Arr(Mapped(ys, SignerJson)))
    ensures xs == ys
  {
    var ps, qs := Mapped(xs, SignerJson), Mapped(ys, SignerJson);
    forall i | 0 <= i < |xs| ensures xs[i] == ys[i] {
      assert EqualUpToOrder(ps[i], qs[i]);
      SignerJsonFaithful(xs[i], ys[i]);
    }
  }

  lemma SameTextMember(ms: seq<Member>, ns: seq<Member>, i: nat, k: Text, x: Text, y: Text)
    requires EqualUpToOrder(Obj(ms), Obj(ns)) && i < |ms| && i < |ns|
    requires ms[i] == Member(k, Str(x)) && ns[i] == Member(k, Str(y))
    ensures x == y
  {
  }

  lemma DocumentJsonFaithful(d: CanonicalDocument, e: CanonicalDocument)
    requires EqualUpToOrder(DocumentJson(d), DocumentJson(e))
    ensures d == e
  {
    var ms, ns := DocumentJson(d).members, DocumentJson(e).members;
    SameTextMember(ms, ns, 0, ms[0].key, d.permisoId, e.permisoId);
    SameTextMember(ms, ns, 1, ms[1].key, d.empresaId, e.empresaId);
    SameTextMember(ms, ns, 2, ms[2].key, d.tipoPermiso, e.tipoPermiso);
    SameTextMember(ms, ns, 3, ms[3].key, d.fechaCreacion, e.fechaCreacion);
    SameKeySameValue(ms, ns, 4);
    SameKeySameValue(ms, ns, 5);
    QuestionsFaithful(d.preguntas, e.preguntas);
    SignersFaithful(d.firmantes, e.firmantes);
  }

  /** Different documents never share a serialization. */
  lemma DocumentsDoNotCollide(d: CanonicalDocument, e: CanonicalDocument)
    ensures StableStringify(DocumentJson(d)) == StableStringify(DocumentJson(e)) <==> d == e
  {
    DocumentJsonWellFormed(d);
    DocumentJsonWellFormed(e);
    StringifyIsUnambiguous(DocumentJson(d), DocumentJson(e));
    if d != e && EqualUpToOrder(DocumentJson(d), DocumentJson(e)) {
      DocumentJsonFaithful(d, e);
    }
  }

  // ----- Building the document -----

  /** What the platform provides: the digest, the collation and the printers of dates, numbers and JSON. */
  datatype Platform = Platform(
    sha256: Text -> Digest,
    collatesBefore: (Text, Text) -> bool,
    showNumber: real -> Text,
    showDate: Instant -> Text,
    showJson: Raw -> Text)

  datatype Person = Person(cedula: Text, nombre: Text)

  /** The catalogues of external signers and of users. */
  datatype Directory = Directory(external: Id -> Person, internal: Id -> Person)

  datatype LabelledValue = LabelledValue(row: ValueRow, caption: Text)

  /** The part of a submission that the hash covers besides the signers. */
  datatype Body = Body(id: Id, org: Id, templateName: Text, submittedAt: Instant, values: seq<LabelledValue>)

  function ResolveValue(p: Platform, v: ValueRow): Text {
    if v.text.Some? then v.text.value
    else if v.number.Some? then p.showNumber(v.number.value)
    else if v.date.Some? then p.showDate(v.date.value)
    else if v.json.Some? then p.showJson(v.json.value)
    else if v.file.Some? then v.file.value
    else []
  }

  function ByField(p: Platform): (LabelledValue, LabelledValue) -> bool {
    (a: LabelledValue, b: LabelledValue) => p.collatesBefore(a.row.field, b.row.field)
  }

  function ById(p: Platform): (Question, Question) -> bool {
    (a: Question, b: Question) => p.collatesBefore(a.id, b.id)
  }

  function ByCedula(p: Platform): (Signer, Signer) -> bool {
    (a: Signer, b: Signer) => p.collatesBefore(a.cedula, b.cedula)
  }

  function QuestionOf(p: Platform): LabelledValue -> Question {
    (v: LabelledValue) => Question(v.row.field, v.caption, ResolveValue(p, v.row))
  }

  function Questions(p: Platform, values: seq<LabelledValue>): seq<Question> {
    Mapped(StableSort(values, ByField(p)), QuestionOf(p))
  }

  /** The rows that satisfy a condition, in table order. */
  function Select<T, U>(rows: seq<T>, keep: T -> bool, show: T -> U): seq<U> {
    if rows == [] then []
    else
      var init, last := rows[..|rows| - 1], rows[|rows| - 1];
      Select(init, keep, show) + if keep(last) then [show(last)] else []
  }

  lemma {:induction false} Selected<T, U>(rows: seq<T>, keep: T -> bool, show: T -> U, x: U)
    ensures x in Select(rows, keep, show) <==> exists k :: 0 <= k < |rows| && keep(rows[k]) && show(rows[k]) == x
  {
    if rows != [] {
      Selected(rows[..|rows| - 1], keep, show, x);
    }
  }

  predicate CountsToken(t: Token, sub: Id, asOf: Instant) {
    t.submission == sub && t.createdAt <= asOf
  }

  predicate CountsRecord(r: Record, sub: Id, asOf: Instant) {
    r.submission == sub && r.who.Internal? && r.signedAt <= asOf
  }

  function ExternalSigner(dir: Directory, t: Token): Signer {
    var person := dir.external(t.signer);
    Signer(person.cedula, person.nombre, Ascii("EXTERNAL"))
  }

  function InternalSigner(dir: Directory, r: Record): Signer {
    var person := dir.internal(if r.who.Internal? then r.who.user else r.who.signer);
    Signer(person.cedula, person.nombre, Ascii("INTERNAL"))
  }

  function ExternalsAsOf(dir: Directory, tokens: seq<Token>, sub: Id, asOf: Instant): seq<Signer> {
    Select(tokens, (t: Token) => CountsToken(t, sub, asOf), (t: Token) => ExternalSigner(dir, t))
  }

  function InternalsAsOf(dir: Directory, records: seq<Record>, sub: Id, asOf: Instant): seq<Signer> {
    Select(records, (r: Record) => CountsRecord(r, sub, asOf), (r: Record) => InternalSigner(dir, r))
  }

  /** What a request has read, each list in the order in which the database returned it. */
  datatype Rows = Rows(values: seq<LabelledValue>, internals: seq<Signer>, externals: seq<Signer>)

  /** The rows counted as of an instant, in table order. */
  function RowsAsOf(dir: Directory, body: Body, tokens: seq<Token>, records: seq<Record>, asOf: Instant): Rows {
    Rows(body.values, InternalsAsOf(dir, records, body.id, asOf), ExternalsAsOf(dir, tokens, body.id, asOf))
  }

  /** The same rows, each list in any order: the queries of signers ask for none, and that of the values asks for the
      order of field positions, which may repeat. */
  predicate SameRows(a: Rows, b: Rows) {
    && multiset(a.values) == multiset(b.values)
    && multiset(a.internals) == multiset(b.internals)
    && multiset(a.externals) == multiset(b.externals)
  }

  /** The rows of the table in the order `got`, if that is an order of them. */
  function Returned(got: Rows, table: Rows): (r: Rows)
    ensures SameRows(r, table)
  {
    if SameRows(got, table) then got else table
  }

  /** Internal signers come before external ones; ties keep that order. */
  function SortedSigners(p: Platform, rows: Rows): seq<Signer> {
    StableSort(rows.internals + rows.externals, ByCedula(p))
  }

  function DocumentOf(p: Platform, body: Body, rows: Rows): CanonicalDocument {
    CanonicalDocument(body.id, body.org, body.templateName, p.showDate(body.submittedAt),
                      Questions(p, rows.values), SortedSigners(p, rows))
  }

  function HashOf(p: Platform, body: Body, rows: Rows): Digest {
    p.sha256(StableStringify(DocumentJson(DocumentOf(p, body, rows))))
  }

  lemma HashesCompare(p: Platform, body: Body, a: Rows, b: Rows)
    ensures DocumentOf(p, body, a) == DocumentOf(p, body, b) ==> HashOf(p, body, a) == HashOf(p, body, b)
    ensures Injective(p.sha256) && HashOf(p, body, a) == HashOf(p, body, b) ==>
              DocumentOf(p, body, a) == DocumentOf(p, body, b)
  {
    DocumentsDoNotCollide(DocumentOf(p, body, a), DocumentOf(p, body, b));
  }

  // ----- Rows that come later -----

  /** The table `later` contains the rows of `rows`, in place, with the same owner, signer and creation time. */
  ghost predicate TokensExtend(rows: seq<Token>, later: seq<Token>) {
    |rows| <= |later| && forall i :: 0 <= i < |rows| ==>
      later[i].submission == rows[i].submission && later[i].signer == rows[i].signer
        && later[i].createdAt == rows[i].createdAt
  }

  lemma {:induction false} SelectCompares<T, U>(a: seq<T>, keepA: T -> bool, b: seq<T>, keepB: T -> bool, show: T -> U)
    requires |a| <= |b|
    requires forall i :: 0 <= i < |a| ==> show(a[i]) == show(b[i]) && (keepA(a[i]) ==> keepB(b[i]))
    ensures |Select(a, keepA, show)| <= |Select(b, keepB, show)|
    ensures (forall i :: 0 <= i < |b| && keepB(b[i]) ==> i < |a| && keepA(a[i]))
            ==> Select(a, keepA, show) == Select(b, keepB, show)
    ensures !(forall i :: 0 <= i < |b| && keepB(b[i]) ==> i < |a| && keepA(a[i]))
            ==> |Select(a, keepA, show)| < |Select(b, keepB, show)|
  {
    if b != [] {
      var shorter := if |a| == |b| then a[..|a| - 1] else a;
      var init := b[..|b| - 1];
      SelectCompares(shorter, keepA, init, keepB, show);
      assert forall i :: 0 <= i < |init| ==> init[i] == b[i];
      assert forall i :: 0 <= i < |shorter| ==> shorter[i] == a[i];
    }
  }

  /** No row of the submission stamped by `asOf` was missing from what was read with cutoff `cutoff`. */
  predicate NothingMissed(tokensRead: seq<Token>, recordsRead: seq<Record>, cutoff: Instant,
                          tokens: seq<Token>, records: seq<Record>, asOf: Instant, sub: Id)
  {
    && (forall i :: 0 <= i < |tokens| && CountsToken(tokens[i], sub, asOf) ==>
          i < |tokensRead| && CountsToken(tokensRead[i], sub, cutoff))
    && (forall i :: 0 <= i < |records| && CountsRecord(records[i], sub, asOf) ==>
          i < |recordsRead| && CountsRecord(recordsRead[i], sub, cutoff))
  }

  lemma ExternalsCompare(dir: Directory, sub: Id, tokensRead: seq<Token>, cutoff: Instant, tokens: seq<Token>,
                         asOf: Instant)
    requires TokensExtend(tokensRead, tokens) && cutoff <= asOf
    ensures var missed := exists i :: 0 <= i < |tokens| && CountsToken(tokens[i], sub, asOf)
                            && !(i < |tokensRead| && CountsToken(tokensRead[i], sub, cutoff));
            var before, after := ExternalsAsOf(dir, tokensRead, sub, cutoff), ExternalsAsOf(dir, tokens, sub, asOf);
            (missed ==> |before| < |after|) && (!missed ==> before == after)
  {
    SelectCompares(tokensRead, (t: Token) => CountsToken(t, sub, cutoff), tokens,
      (t: Token) => CountsToken(t, sub, asOf),
                   (t: Token) => ExternalSigner(dir, t));
  }

  lemma InternalsCompare(dir: Directory, sub: Id, recordsRead: seq<Record>, cutoff: Instant, records: seq<Record>,
                         asOf: Instant)
    requires recordsRead <= records && cutoff <= asOf
    ensures var missed := exists i :: 0 <= i < |records| && CountsRecord(records[i], sub, asOf)
                            && !(i < |recordsRead| && CountsRecord(recordsRead[i], sub, cutoff));
            var before, after := InternalsAsOf(dir, recordsRead, sub, cutoff), InternalsAsOf(dir, records, sub, asOf);
            (missed ==> |before| < |after|) && (!missed ==> before == after)
  {
    SelectCompares(recordsRead, (r: Record) => CountsRecord(r, sub, cutoff), records,
      (r: Record) => CountsRecord(r, sub, asOf),
                   (r: Record) => InternalSigner(dir, r));
  }

  lemma SameCounts(a: Rows, b: Rows)
    requires SameRows(a, b)
    ensures |a.internals| == |b.internals| && |a.externals| == |b.externals|
  {
    assert |a.internals| == |multiset(a.internals)| && |b.internals| == |multiset(b.internals)|;
    assert |a.externals| == |multiset(a.externals)| && |b.externals| == |multiset(b.externals)|;
  }

  lemma SignerCount(p: Platform, rows: Rows)
    ensures |SortedSigners(p, rows)| == |rows.internals| + |rows.externals|
  {
    assert |SortedSigners(p, rows)| == |multiset(SortedSigners(p, rows))|;
  }

  /** Two requests read the same rows exactly when none that the later one counts was missing from the earlier one;
      when one was, they never hash the same document, in whatever orders the rows came. */
  lemma DocumentsCompare(p: Platform, dir: Directory, body: Body,
                         tokensRead: seq<Token>, recordsRead: seq<Record>, cutoff: Instant, read: Rows,
                         tokens: seq<Token>, records: seq<Record>, asOf: Instant, got: Rows)
    requires TokensExtend(tokensRead, tokens) && recordsRead <= records && cutoff <= asOf
    requires SameRows(read, RowsAsOf(dir, body, tokensRead, recordsRead, cutoff))
    requires SameRows(got, RowsAsOf(dir, body, tokens, records, asOf))
    ensures NothingMissed(tokensRead, recordsRead, cutoff, tokens, records, asOf, body.id) <==> SameRows(read, got)
    ensures DocumentOf(p, body, read) == DocumentOf(p, body, got) ==> SameRows(read, got)
  {
    ExternalsCompare(dir, body.id, tokensRead, cutoff, tokens, asOf);
    InternalsCompare(dir, body.id, recordsRead, cutoff, records, asOf);
    SameCounts(read, RowsAsOf(dir, body, tokensRead, recordsRead, cutoff));
    SameCounts(got, RowsAsOf(dir, body, tokens, records, asOf));
    SignerCount(p, read);
    SignerCount(p, got);
    if SameRows(read, got) {
      SameCounts(read, got);
    }
  }

  ghost predicate Injective(sha256: Text -> Digest) {
    forall a, b :: sha256(a) == sha256(b) ==> a == b
  }

  /** Rows stamped after `asOf` are never read as of `asOf`. */
  lemma LaterRowsAreNotRead(dir: Directory, body: Body,
                            tokens: seq<Token>, records: seq<Record>,
                            later: seq<Token>, laterRecords: seq<Record>, asOf: Instant)
    requires TokensExtend(tokens, later) && records <= laterRecords
    requires forall i :: |tokens| <= i < |later| ==> later[i].createdAt > asOf
    requires forall i :: |records| <= i < |laterRecords| ==> laterRecords[i].signedAt > asOf
    ensures RowsAsOf(dir, body, later, laterRecords, asOf) == RowsAsOf(dir, body, tokens, records, asOf)
  {
    ExternalsCompare(dir, body.id, tokens, asOf, later, asOf);
    InternalsCompare(dir, body.id, records, asOf, laterRecords, asOf);
  }

  // ----- The order in which the database returns rows -----

  /** The collation is a consistent comparison: it may leave different texts tied. */
  ghost predicate Collation(p: Platform) {
    && (forall a :: !p.collatesBefore(a, a))
    && (forall a, b, c :: p.collatesBefore(a, b) && p.collatesBefore(b, c) ==> p.collatesBefore(a, c))
    && (forall a, b, c :: Tied(a, b, p.collatesBefore) && Tied(b, c, p.collatesBefore) ==> Tied(a, c, p.collatesBefore))
  }

  function Elements<T>(xs: seq<T>): set<T> { set x | x in xs }

  lemma OrderedByKey<T(!new)>(p: Platform, before: (T, T) -> bool, key: T -> Text, all: set<T>)
    requires Collation(p) && forall a, b :: before(a, b) == p.collatesBefore(key(a), key(b))
    ensures WeakOrder(before, all)
  {
    var collates := p.collatesBefore;
    forall a, b, c | Tied(a, b, before) && Tied(b, c, before) ensures Tied(a, c, before) {
      assert Tied(key(a), key(b), collates) && Tied(key(b), key(c), collates);
    }
    forall a ensures !before(a, a) {
      assert !collates(key(a), key(a));
    }
    forall a, b, c | before(a, b) && before(b, c) ensures before(a, c) {
      assert collates(key(a), key(b)) && collates(key(b), key(c));
    }
  }

  lemma SignersOrdered(p: Platform, all: set<Signer>)
    requires Collation(p)
    ensures WeakOrder(ByCedula(p), all)
  {
    OrderedByKey(p, ByCedula(p), (a: Signer) => a.cedula, all);
  }

  lemma QuestionsOrdered(p: Platform, all: set<Question>)
    requires Collation(p)
    ensures WeakOrder(ById(p), all)
  {
    OrderedByKey(p, ById(p), (a: Question) => a.id, all);
  }

  /** Rows of one list that the sorting does not tell apart are equal: no two different questions with one field id, and
      no two different signers of one kind with one cedula. */
  ghost predicate NoTies(p: Platform, rows: Rows) {
    && TiesEqual(Mapped(rows.values, QuestionOf(p)), ById(p))
    && TiesEqual(rows.internals, ByCedula(p))
    && TiesEqual(rows.externals, ByCedula(p))
  }

  lemma QuestionsSorted(p: Platform, values: seq<LabelledValue>)
    ensures Questions(p, values) == StableSort(Mapped(values, QuestionOf(p)), ById(p))
  {
    SortMapped(values, QuestionOf(p), ByField(p), ById(p));
  }

  lemma QuestionsIgnoreOrder(p: Platform, a: seq<LabelledValue>, b: seq<LabelledValue>)
    requires Collation(p) && multiset(a) == multiset(b) && TiesEqual(Mapped(a, QuestionOf(p)), ById(p))
    ensures Questions(p, a) == Questions(p, b)
  {
    var qs, rs := Mapped(a, QuestionOf(p)), Mapped(b, QuestionOf(p));
    SameMapped(a, b, QuestionOf(p));
    QuestionsOrdered(p, Elements(qs));
    BlocksIgnoreOrder(qs, [], rs, [], ById(p), Elements(qs));
    assert qs + [] == qs && rs + [] == rs;
    QuestionsSorted(p, a);
    QuestionsSorted(p, b);
  }

  /** Whatever order the rows come in, the document is the same. */
  lemma DocumentIgnoresRowOrder(p: Platform, body: Body, rows: Rows, other: Rows)
    requires Collation(p) && NoTies(p, rows) && SameRows(other, rows)
    ensures DocumentOf(p, body, other) == DocumentOf(p, body, rows)
  {
    var all := Elements(rows.internals + rows.externals);
    QuestionsIgnoreOrder(p, rows.values, other.values);
    SignersOrdered(p, all);
    BothInSum(rows.internals, rows.externals);
    BlocksIgnoreOrder(rows.internals, rows.externals, other.internals, other.externals, ByCedula(p), all);
  }

  lemma BothInSum<T>(a: seq<T>, b: seq<T>)
    ensures From(a, Elements(a + b)) && From(b, Elements(a + b))
  {
    forall i | 0 <= i < |a| ensures a[i] in a + b {
      assert (a + b)[i] == a[i];
    }
    forall i | 0 <= i < |b| ensures b[i] in a + b {
      assert (a + b)[|a| + i] == b[i];
    }
  }

  lemma QuestionsShowOrder(p: Platform, values: seq<LabelledValue>)
    returns (a: seq<LabelledValue>, b: seq<LabelledValue>)
    requires Collation(p) && !TiesEqual(Mapped(values, QuestionOf(p)), ById(p))
    ensures multiset(a) == multiset(values) == multiset(b) && Questions(p, a) != Questions(p, b)
  {
    QuestionsOrdered(p, Elements(Mapped(values, QuestionOf(p))));
    a, b := MappedTiesShow(values, QuestionOf(p), ById(p), Elements(Mapped(values, QuestionOf(p))));
    QuestionsSorted(p, a);
    QuestionsSorted(p, b);
  }

  /** Rows that tie and differ show: two orders of them give different documents. */
  lemma TiesShowInDocument(p: Platform, body: Body, rows: Rows) returns (a: Rows, b: Rows)
    requires Collation(p) && !NoTies(p, rows)
    ensures SameRows(a, rows) && SameRows(b, rows) && DocumentOf(p, body, a) != DocumentOf(p, body, b)
  {
    var all := Elements(rows.internals + rows.externals);
    SignersOrdered(p, all);
    BothInSum(rows.internals, rows.externals);
    if !TiesEqual(Mapped(rows.values, QuestionOf(p)), ById(p)) {
      var v, u := QuestionsShowOrder(p, rows.values);
      a, b := rows.(values := v), rows.(values := u);
    } else if !TiesEqual(rows.internals, ByCedula(p)) {
      var v, u := TiesShow([], rows.internals, rows.externals, ByCedula(p), all);
      a, b := rows.(internals := v), rows.(internals := u);
      assert [] + (v + rows.externals) == v + rows.externals && [] + (u + rows.externals) == u + rows.externals;
    } else {
      var v, u := TiesShow(rows.internals, rows.externals, [], ByCedula(p), all);
      a, b := rows.(externals := v), rows.(externals := u);
      assert v + [] == v && u + [] == u;
    }
  }

  lemma SomeOrderDiffers(p: Platform, body: Body, rows: Rows) returns (other: Rows)
    requires Collation(p) && Injective(p.sha256) && !NoTies(p, rows)
    ensures SameRows(other, rows) && HashOf(p, body, other) != HashOf(p, body, rows)
  {
    var a, b := TiesShowInDocument(p, body, rows);
    HashesCompare(p, body, a, rows);
    HashesCompare(p, body, b, rows);
    other := if HashOf(p, body, a) == HashOf(p, body, rows) then b else a;
  }

  /** With a collision-free digest, the hash is the same in whatever order the database returns the rows exactly when no
      two different rows of one list are tied. */
  lemma HashIgnoresRowOrderIff(p: Platform, body: Body, rows: Rows)
    requires Collation(p) && Injective(p.sha256)
    ensures (forall other :: SameRows(other, rows) ==> HashOf(p, body, other) == HashOf(p, body, rows)) <==>
      NoTies(p, rows)
  {
    if NoTies(p, rows) {
      forall other | SameRows(other, rows) ensures HashOf(p, body, other) == HashOf(p, body, rows) {
        DocumentIgnoresRowOrder(p, body, rows, other);
        HashesCompare(p, body, other, rows);
      }
    } else {
      var other := SomeOrderDiffers(p, body, rows);
    }
  }

  // ----- Hashing again -----

  /** Hashing the rows of the table again gives the hash of what was read: in whatever order they come, or in some. */
  ghost predicate AgreesInAnyOrder(p: Platform, body: Body, read: Rows, table: Rows) {
    forall got :: HashOf(p, body, Returned(got, table)) == HashOf(p, body, read)
  }

  ghost predicate AgreesInSomeOrder(p: Platform, body: Body, read: Rows, table: Rows) {
    exists got :: HashOf(p, body, Returned(got, table)) == HashOf(p, body, read)
  }

  lemma SameRowsAgree(p: Platform, body: Body, read: Rows, table: Rows)
    requires SameRows(read, table)
    ensures AgreesInSomeOrder(p, body, read, table)
    ensures Collation(p) && NoTies(p, read) ==> AgreesInAnyOrder(p, body, read, table)
    ensures Collation(p) && Injective(p.sha256) && AgreesInAnyOrder(p, body, read, table) ==> NoTies(p, read)
  {
    assert Returned(read, table) == read;
    if Collation(p) {
      if NoTies(p, read) {
        forall got ensures HashOf(p, body, Returned(got, table)) == HashOf(p, body, read) {
          DocumentIgnoresRowOrder(p, body, read, Returned(got, table));
          HashesCompare(p, body, Returned(got, table), read);
        }
      } else if Injective(p.sha256) {
        var other := SomeOrderDiffers(p, body, read);
        assert Returned(other, table) == other;
      }
    }
  }

  lemma AgreeingMeansComplete(p: Platform, dir: Directory, body: Body,
                              tokensRead: seq<Token>, recordsRead: seq<Record>, cutoff: Instant, read: Rows,
                              tokens: seq<Token>, records: seq<Record>, asOf: Instant, table: Rows)
    requires TokensExtend(tokensRead, tokens) && recordsRead <= records && cutoff <= asOf
    requires SameRows(read, RowsAsOf(dir, body, tokensRead, recordsRead, cutoff))
    requires table == RowsAsOf(dir, body, tokens, records, asOf)
    requires Injective(p.sha256) && AgreesInSomeOrder(p, body, read, table)
    ensures NothingMissed(tokensRead, recordsRead, cutoff, tokens, records, asOf, body.id)
  {
    var got :| HashOf(p, body, Returned(got, table)) == HashOf(p, body, read);
    HashesCompare(p, body, read, Returned(got, table));
    DocumentsCompare(p, dir, body, tokensRead, recordsRead, cutoff, read, tokens, records, asOf, Returned(got, table));
  }

  lemma AnyOrderIsSomeOrder(p: Platform, body: Body, read: Rows, table: Rows)
    requires AgreesInAnyOrder(p, body, read, table)
    ensures AgreesInSomeOrder(p, body, read, table)
  {
    assert HashOf(p, body, Returned(table, table)) == HashOf(p, body, read);
  }

  /** Hashing again agrees in some order exactly when no counted row was missing from what was read; it agrees in any
      order exactly when, besides, no two different rows of one list are tied. */
  lemma HashAgreesIff(p: Platform, dir: Directory, body: Body,
                      tokensRead: seq<Token>, recordsRead: seq<Record>, cutoff: Instant, read: Rows,
                      tokens: seq<Token>, records: seq<Record>, asOf: Instant, table: Rows)
    requires TokensExtend(tokensRead, tokens) && recordsRead <= records && cutoff <= asOf
    requires SameRows(read, RowsAsOf(dir, body, tokensRead, recordsRead, cutoff))
    requires table == RowsAsOf(dir, body, tokens, records, asOf)
    ensures var complete := NothingMissed(tokensRead, recordsRead, cutoff, tokens, records, asOf, body.id);
            && (complete ==> AgreesInSomeOrder(p, body, read, table))
            && (Injective(p.sha256) && AgreesInSomeOrder(p, body, read, table) ==> complete)
            && (Collation(p) && complete && NoTies(p, read) ==> AgreesInAnyOrder(p, body, read, table))
            && (Collation(p) && Injective(p.sha256) && AgreesInAnyOrder(p, body, read, table) ==>
                  complete && NoTies(p, read))
  {
    DocumentsCompare(p, dir, body, tokensRead, recordsRead, cutoff, read, tokens, records, asOf, table);
    if AgreesInAnyOrder(p, body, read, table) {
      AnyOrderIsSomeOrder(p, body, read, table);
    }
    if Injective(p.sha256) && AgreesInSomeOrder(p, body, read, table) {
      AgreeingMeansComplete(p, dir, body, tokensRead, recordsRead, cutoff, read, tokens, records, asOf, table);
    }
    if SameRows(read, table) {
      SameRowsAgree(p, body, read, table);
    }
  }

  /** Among the signers of one cedula, internal ones come first, each kind in the order the database returned it. */
  lemma {:induction false} TiedSignersKeepInternalFirst(p: Platform, rows: Rows, x: Signer)
    requires Collation(p)
    ensures TiedWith(SortedSigners(p, rows), x, ByCedula(p))
         == TiedWith(rows.internals, x, ByCedula(p)) + TiedWith(rows.externals, x, ByCedula(p))
  {
    var all := Elements(rows.internals + rows.externals) + {x};
    SignersOrdered(p, all);
    SortIsStable(rows.internals + rows.externals, x, ByCedula(p), all);
    TiedWithConcat(rows.internals, rows.externals, x, ByCedula(p));
  }
}
