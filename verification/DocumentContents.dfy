/** What the signed document says, and that a stored answer cannot change without changing its hash. */
module DocumentContents {
  import opened Wrappers
  import opened JsText
  import opened SignatureData
  import opened FormApproval
  import opened StableSorting
  import opened DocumentHash

  // ----- Questions -----

  /** The question of a stored value: the text itself, else the printed number, date or JSON, else the file. */
  predicate Shows(p: Platform, v: LabelledValue, q: Question) {
    && q.id == v.row.field && q.pregunta == v.caption
    && (match (v.row.text, v.row.number, v.row.date, v.row.json, v.row.file)
        case (Some(text), _, _, _, _) => q.respuesta == text
        case (None, Some(number), _, _, _) => q.respuesta == p.showNumber(number)
        case (None, None, Some(date), _, _) => q.respuesta == p.showDate(date)
        case (None, None, None, Some(json), _) => q.respuesta == p.showJson(json)
        case (None, None, None, None, Some(file)) => q.respuesta == file
        case (None, None, None, None, None) => q.respuesta == [])
  }

  ghost predicate AllShown(p: Platform, values: seq<LabelledValue>, shown: seq<Question>) {
    |shown| == |values| && forall i :: 0 <= i < |values| ==> Shows(p, values[i], shown[i])
  }

  lemma ShownAreMapped(p: Platform, values: seq<LabelledValue>, shown: seq<Question>)
    requires AllShown(p, values, shown)
    ensures shown == Mapped(values, QuestionOf(p))
  {
    forall i | 0 <= i < |values| ensures shown[i] == QuestionOf(p)(values[i]) {
      assert Shows(p, values[i], shown[i]);
    }
  }

  /** The document has exactly one question for every stored value, ordered by field id. */
  lemma EveryAnswerIsShown(p: Platform, body: Body, rows: Rows, shown: seq<Question>)
    requires AllShown(p, rows.values, shown)
    ensures multiset(DocumentOf(p, body, rows).preguntas) == multiset(shown)
    ensures Collation(p) ==>
              forall i, j :: 0 <= i < j < |shown| && |DocumentOf(p, body, rows).preguntas| == |shown| ==>
                !p.collatesBefore(DocumentOf(p, body, rows).preguntas[j].id, DocumentOf(p, body, rows).preguntas[i].id)
  {
    ShownAreMapped(p, rows.values, shown);
    QuestionsSorted(p, rows.values);
    if Collation(p) {
      QuestionsOrdered(p, Elements(shown));
      SortAscends(shown, ById(p), Elements(shown));
    }
  }

  // ----- Signers -----

  /** A counted token stands for the external signer it invites, under that name and number. */
  predicate Invites(dir: Directory, t: Token, sub: Id, asOf: Instant, x: Signer) {
    && t.submission == sub && t.createdAt <= asOf
    && x.cedula == dir.external(t.signer).cedula && x.nombre == dir.external(t.signer).nombre
    && x.rol == Ascii("EXTERNAL")
  }

  /** A counted record stands for the user who signed. */
  predicate SignedInside(dir: Directory, r: Record, sub: Id, asOf: Instant, x: Signer) {
    && r.submission == sub && r.who.Internal? && r.signedAt <= asOf
    && x.cedula == dir.internal(r.who.user).cedula && x.nombre == dir.internal(r.who.user).nombre
    && x.rol == Ascii("INTERNAL")
  }

  lemma CountedSigners(dir: Directory, tokens: seq<Token>, records: seq<Record>, sub: Id, asOf: Instant, x: Signer)
    ensures x in ExternalsAsOf(dir, tokens, sub, asOf) <==>
      exists k :: 0 <= k < |tokens| && Invites(dir, tokens[k], sub, asOf, x)
    ensures x in InternalsAsOf(dir, records, sub, asOf) <==>
      exists k :: 0 <= k < |records| && SignedInside(dir, records[k], sub, asOf, x)
  {
    Selected(tokens, (t: Token) => CountsToken(t, sub, asOf), (t: Token) => ExternalSigner(dir, t), x);
    Selected(records, (r: Record) => CountsRecord(r, sub, asOf), (r: Record) => InternalSigner(dir, r), x);
    forall k | 0 <= k < |tokens|
      ensures Invites(dir, tokens[k], sub, asOf, x) <==>
        CountsToken(tokens[k], sub, asOf) && ExternalSigner(dir, tokens[k]) == x
    {
    }
    forall k | 0 <= k < |records|
      ensures SignedInside(dir, records[k], sub, asOf, x) <==>
        CountsRecord(records[k], sub, asOf) && InternalSigner(dir, records[k]) == x
    {
    }
  }

  lemma SortedMembers(p: Platform, rows: Rows, x: Signer)
    ensures x in SortedSigners(p, rows) <==> x in rows.internals || x in rows.externals
    ensures Collation(p) ==> Ascends(SortedSigners(p, rows), ByCedula(p))
  {
    assert x in multiset(SortedSigners(p, rows)) <==> x in multiset(rows.internals + rows.externals);
    if Collation(p) {
      var all := Elements(rows.internals + rows.externals);
      SignersOrdered(p, all);
      SortAscends(rows.internals + rows.externals, ByCedula(p), all);
    }
  }

  /** What the document says besides the answers, whatever order the rows come in: the submission, its template and
      date, and as signers exactly whoever is invited or has signed internally by then, ordered by number. */
  lemma DocumentNames(p: Platform, dir: Directory, body: Body, tokens: seq<Token>, records: seq<Record>, asOf: Instant,
                      got: Rows, x: Signer)
    requires SameRows(got, RowsAsOf(dir, body, tokens, records, asOf))
    ensures var d := DocumentOf(p, body, got);
            && d.permisoId == body.id && d.empresaId == body.org && d.tipoPermiso == body.templateName
            && d.fechaCreacion == p.showDate(body.submittedAt)
            && |d.firmantes| == |got.internals| + |got.externals|
            && (x in d.firmantes <==>
                  || (exists k :: 0 <= k < |tokens| && Invites(dir, tokens[k], body.id, asOf, x))
                  || (exists k :: 0 <= k < |records| && SignedInside(dir, records[k], body.id, asOf, x)))
            && (Collation(p) ==> forall i, j :: 0 <= i < j < |d.firmantes| ==>
                  !p.collatesBefore(d.firmantes[j].cedula, d.firmantes[i].cedula))
  {
    CountedSigners(dir, tokens, records, body.id, asOf, x);
    SignerCount(p, got);
    SortedMembers(p, got, x);
    var table := RowsAsOf(dir, body, tokens, records, asOf);
    assert x in multiset(got.internals) <==> x in multiset(table.internals);
    assert x in multiset(got.externals) <==> x in multiset(table.externals);
  }

  // ----- Changing a stored answer -----

  /** No printer prints two values alike. */
  ghost predicate InjectivePrinters(p: Platform) {
    && (forall a, b :: p.showNumber(a) == p.showNumber(b) ==> a == b)
    && (forall a, b :: p.showDate(a) == p.showDate(b) ==> a == b)
    && (forall a, b :: p.showJson(a) == p.showJson(b) ==> a == b)
  }

  /** The bodies differ at most in the stored value at position `i`. */
  predicate DifferOnlyAt(a: seq<LabelledValue>, b: seq<LabelledValue>, i: nat) {
    && |a| == |b| && i < |a| && (forall j :: 0 <= j < |a| && j != i ==> a[j] == b[j])
    && a[i].row.field == b[i].row.field && a[i].caption == b[i].caption
  }

  lemma OneShownDiffers(p: Platform, a: seq<LabelledValue>, b: seq<LabelledValue>, i: nat, s: seq<Question>,
                        t: seq<Question>)
    requires DifferOnlyAt(a, b, i) && AllShown(p, a, s) && AllShown(p, b, t)
    ensures t == s[i := t[i]]
    ensures multiset(s) == multiset(t) <==> s[i] == t[i]
  {
    forall j | 0 <= j < |a| && j != i ensures t[j] == s[j] {
      assert Shows(p, a[j], s[j]) && Shows(p, b[j], t[j]);
    }
    assert t == s[i := t[i]];
    assert multiset(t) == multiset(s) - multiset{s[i]} + multiset{t[i]};
    if s[i] != t[i] {
      assert multiset(t)[s[i]] == multiset(s)[s[i]] - 1;
    }
  }

  lemma DifferentDocuments(p: Platform, a: Body, r: Rows, b: Body, q: Rows)
    requires Injective(p.sha256) && DocumentOf(p, a, r) != DocumentOf(p, b, q)
    ensures HashOf(p, a, r) != HashOf(p, b, q)
  {
    DocumentsDoNotCollide(DocumentOf(p, a, r), DocumentOf(p, b, q));
  }

  /** Showing something else for one stored value changes the hash, in whatever orders the rows come and whoever
      signs. */
  lemma ChangedAnswerShows(p: Platform, a: Body, b: Body, i: nat, s: seq<Question>, t: seq<Question>, r: Rows, q: Rows)
    requires Injective(p.sha256) && DifferOnlyAt(a.values, b.values, i)
    requires AllShown(p, a.values, s) && AllShown(p, b.values, t) && s[i] != t[i]
    requires multiset(r.values) == multiset(a.values) && multiset(q.values) == multiset(b.values)
    ensures HashOf(p, a, r) != HashOf(p, b, q)
  {
    OneShownDiffers(p, a.values, b.values, i, s, t);
    ShownAsMultiset(p, a, r, s);
    ShownAsMultiset(p, b, q, t);
    DifferentDocuments(p, a, r, b, q);
  }

  lemma UnchangedAnswerHides(p: Platform, body: Body, rows: Rows, values: seq<LabelledValue>, shown: seq<Question>)
    requires AllShown(p, rows.values, shown) && AllShown(p, values, shown)
    ensures HashOf(p, body, rows.(values := values)) == HashOf(p, body, rows)
  {
    ShownAreMapped(p, rows.values, shown);
    ShownAreMapped(p, values, shown);
    QuestionsSorted(p, rows.values);
    QuestionsSorted(p, values);
  }

  /** With an injective digest, changing one stored value leaves the hash as it was, in some orders of the rows of both,
      exactly when the same is shown for it. */
  lemma ChangedAnswerIff(p: Platform, a: Body, i: nat, values: seq<LabelledValue>, s: seq<Question>, t: seq<Question>,
                         internals: seq<Signer>, externals: seq<Signer>)
    requires Injective(p.sha256) && DifferOnlyAt(a.values, values, i)
    requires AllShown(p, a.values, s) && AllShown(p, values, t)
    ensures s[i] == t[i] <==> exists v, w ::
      && multiset(v) == multiset(a.values) && multiset(w) == multiset(values)
      && HashOf(p, a, Rows(v, internals, externals)) == HashOf(p, a.(values := values), Rows(w, internals, externals))
  {
    var b := a.(values := values);
    if s[i] == t[i] {
      OneShownDiffers(p, a.values, values, i, s, t);
      assert s == t;
      UnchangedAnswerHides(p, a, Rows(a.values, internals, externals), values, s);
      SameBodyButValues(p, a, b, Rows(values, internals, externals));
    } else {
      forall v, w | multiset(v) == multiset(a.values) && multiset(w) == multiset(values)
        ensures HashOf(p, a, Rows(v, internals, externals)) != HashOf(p, b, Rows(w, internals, externals))
      {
        ChangedAnswerShows(p, a, b, i, s, t, Rows(v, internals, externals), Rows(w, internals, externals));
      }
    }
  }

  lemma SameBodyButValues(p: Platform, a: Body, b: Body, rows: Rows)
    requires b == a.(values := b.values)
    ensures HashOf(p, b, rows) == HashOf(p, a, rows)
  {
  }

  lemma ShownAsMultiset(p: Platform, body: Body, rows: Rows, shown: seq<Question>)
    requires AllShown(p, body.values, shown) && multiset(rows.values) == multiset(body.values)
    ensures multiset(DocumentOf(p, body, rows).preguntas) == multiset(shown)
  {
    ShownAreMapped(p, body.values, shown);
    QuestionsSorted(p, rows.values);
    SameMapped(rows.values, body.values, QuestionOf(p));
  }

  /** The one column that holds the value changed, from one value to another. */
  predicate ColumnChanged(v: ValueRow, w: ValueRow) {
    match (v.text, v.number, v.date, v.json, v.file)
    case (Some(text), _, _, _, _) => w.text.Some? && w.text.value != text
    case (None, Some(number), _, _, _) => w.text.None? && w.number.Some? && w.number.value != number
    case (None, None, Some(date), _, _) => w.text.None? && w.number.None? && w.date.Some? && w.date.value != date
    case (None, None, None, Some(json), _) =>
      w.text.None? && w.number.None? && w.date.None? && w.json.Some? && w.json.value != json
    case (None, None, None, None, Some(file)) =>
      w.text.None? && w.number.None? && w.date.None? && w.json.None? && w.file.Some? && w.file.value != file
    case (None, None, None, None, None) => false
  }

  /** With an injective digest and injective printers, changing one stored text, number, date, JSON value or file
      changes the hash, in whatever orders the rows come and whoever has signed. */
  lemma TamperingShows(p: Platform, a: Body, b: Body, i: nat, r: Rows, q: Rows)
    requires Injective(p.sha256) && InjectivePrinters(p)
    requires DifferOnlyAt(a.values, b.values, i) && ColumnChanged(a.values[i].row, b.values[i].row)
    requires multiset(r.values) == multiset(a.values) && multiset(q.values) == multiset(b.values)
    ensures HashOf(p, a, r) != HashOf(p, b, q)
  {
    var s, t := Mapped(a.values, QuestionOf(p)), Mapped(b.values, QuestionOf(p));
    MappedAreShown(p, a.values);
    MappedAreShown(p, b.values);
    assert Shows(p, a.values[i], s[i]) && Shows(p, b.values[i], t[i]);
    ChangedAnswerShows(p, a, b, i, s, t, r, q);
  }

  lemma MappedAreShown(p: Platform, values: seq<LabelledValue>)
    ensures AllShown(p, values, Mapped(values, QuestionOf(p)))
  {
  }

  /** What kind of answer it was does not show: a number and a text that prints like it give the same hash. */
  lemma KindDoesNotShow(p: Platform, body: Body, rows: Rows, number: LabelledValue, text: LabelledValue, n: real)
    requires number.row == ValueRow(text.row.field, None, Some(n), None, None, None) && number.caption == text.caption
    requires text.row == ValueRow(text.row.field, Some(p.showNumber(n)), None, None, None, None)
    ensures HashOf(p, body, rows.(values := [number])) == HashOf(p, body, rows.(values := [text]))
  {
    var shown := [Question(text.row.field, text.caption, p.showNumber(n))];
    UnchangedAnswerHides(p, body, rows.(values := [number]), [text], shown);
  }
}
