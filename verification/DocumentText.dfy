/** The text that is hashed, written out. */
module DocumentText {
  import opened JsText
  import opened CanonicalJson
  import opened DocumentHash
  import opened StableSorting

  // ----- Strings -----

  /** Printable characters that JSON strings hold as they are. */
  predicate IsPlain(u: CodeUnit) { 0x20 <= u <= 0x7E && u != 0x22 && u != 0x5C }

  lemma {:induction false} PlainTextIsCopied(s: Text)
    requires forall i :: 0 <= i < |s| ==> IsPlain(s[i])
    ensures QuoteString(s) == [0x22] + s + [0x22]
    ensures QuoteBody(s) == s
  {
    if s != [] {
      PlainTextIsCopied(s[1..]);
      assert s == [s[0]] + s[1..];
    }
  }

  /** What one code unit becomes inside a string, with the longest case in lower-case hexadecimal. */
  lemma EscapesOfEcma262(u: CodeUnit)
    ensures match u
            case 8 => EscapeUnit(u) == Ascii("\\b")
            case 9 => EscapeUnit(u) == Ascii("\\t")
            case 10 => EscapeUnit(u) == Ascii("\\n")
            case 12 => EscapeUnit(u) == Ascii("\\f")
            case 13 => EscapeUnit(u) == Ascii("\\r")
            case 34 => EscapeUnit(u) == Ascii("\\\"")
            case 92 => EscapeUnit(u) == Ascii("\\\\")
            case _ =>
              if u < 32 || 0xD800 <= u <= 0xDFFF then
                exists digits :: EscapeUnit(u) == Ascii("\\u") + digits && IsHex(digits) && |digits| == 4
                                 && HexValue(digits) == u
              else EscapeUnit(u) == [u]
  {
    if u !in {8, 9, 10, 12, 13, 34, 92} && (u < 32 || 0xD800 <= u <= 0xDFFF) {
      var digits := FourHexDigits(u);
      assert UnicodeEscape(u) == Ascii("\\u") + digits;
    }
  }

  /** A surrogate pair is copied; only a surrogate without its other half is escaped. */
  lemma {:induction false} PairsAreCopied(high: CodeUnit, low: CodeUnit, rest: Text)
    requires 0xD800 <= high <= 0xDBFF && 0xDC00 <= low <= 0xDFFF
    ensures QuoteBody([high, low] + rest) == [high, low] + QuoteBody(rest)
  {
    assert ([high, low] + rest)[2..] == rest;
  }

  predicate IsHex(s: Text) {
    forall i :: 0 <= i < |s| ==> '0' as int <= s[i] <= '9' as int || 'a' as int <= s[i] <= 'f' as int
  }

  lemma FourHexDigits(u: CodeUnit) returns (digits: Text)
    ensures digits == UnicodeEscape(u)[2..] && |digits| == 4 && IsHex(digits) && HexValue(digits) == u
  {
    var a, b, c, d := u / 4096, u / 256 % 16, u / 16 % 16, u % 16;
    HexDigitsSpell(u);
    digits := FourDigits(a, b, c, d);
  }

  lemma FourDigits(a: int, b: int, c: int, d: int) returns (s: Text)
    requires 0 <= a < 16 && 0 <= b < 16 && 0 <= c < 16 && 0 <= d < 16
    ensures s == [HexDigit(a), HexDigit(b), HexDigit(c), HexDigit(d)] && IsHex(s)
    ensures HexValue(s) == 4096 * a + 256 * b + 16 * c + d
  {
    s := [HexDigit(a), HexDigit(b), HexDigit(c), HexDigit(d)];
    assert s[..3][..2] == [HexDigit(a), HexDigit(b)] && s[..3][..2][..1] == [HexDigit(a)];
    assert HexValue(s[..3][..2][..1]) == a;
    assert HexValue(s[..3][..2]) == 16 * a + b;
    assert HexValue(s[..3]) == 256 * a + 16 * b + c;
  }

  /** The number that lower-case hexadecimal digits denote, most significant first. */
  function HexValue(s: Text): int {
    if s == [] then 0
    else 16 * HexValue(s[..|s| - 1]) + DigitValue(s[|s| - 1])
  }

  function DigitValue(u: CodeUnit): int {
    if '0' as int <= u <= '9' as int then u - '0' as int else u - 'a' as int + 10
  }

  // ----- Objects and lists -----

  function Joined(parts: seq<Text>): Text {
    if parts == [] then [] else if |parts| == 1 then parts[0] else parts[0] + Ascii(",") + Joined(parts[1..])
  }

  function PrintedMember(m: Member): Text { QuoteString(m.key) + Ascii(":") + StableStringify(m.val) }

  lemma {:induction false} MemberIsPrinted(ms: seq<Member>, m: Member)
    requires Distinct(Keys(ms)) && m in ms
    ensures m.key in Keys(ms) && MemberText(m.key, ms) == PrintedMember(m)
  {
    var i :| 0 <= i < |ms| && ms[i] == m;
    assert Keys(ms)[i] == m.key;
    assert Keys(ms)[IndexOfKey(ms, m.key)] == m.key;
  }

  lemma {:induction false} MembersArePrinted(ms: seq<Member>, sorted: seq<Member>)
    requires Distinct(Keys(ms)) && forall i :: 0 <= i < |sorted| ==> sorted[i] in ms
    ensures forall k :: k in Keys(sorted) ==> k in Keys(ms)
    ensures JoinMembers(Keys(sorted), ms) == Joined(Mapped(sorted, PrintedMember))
  {
    forall i | 0 <= i < |sorted|
      ensures Keys(sorted)[i] in Keys(ms) && MemberText(Keys(sorted)[i], ms) == Mapped(sorted, PrintedMember)[i]
    {
      MemberIsPrinted(ms, sorted[i]);
    }
    MembersAreJoined(Keys(sorted), ms, Mapped(sorted, PrintedMember));
  }

  lemma {:induction false} MembersAreJoined(ks: seq<Text>, ms: seq<Member>, parts: seq<Text>)
    requires |parts| == |ks|
    requires forall i :: 0 <= i < |ks| ==> ks[i] in Keys(ms) && MemberText(ks[i], ms) == parts[i]
    ensures JoinMembers(ks, ms) == Joined(parts)
  {
    if |ks| > 1 {
      MembersAreJoined(ks[1..], ms, parts[1..]);
    }
  }

  /** An object is printed as its members in ascending order of their keys, whatever order they were inserted in. */
  lemma ObjectIsPrintedInKeyOrder(ms: seq<Member>, sorted: seq<Member>)
    requires Distinct(Keys(ms)) && Ascending(Keys(sorted)) && forall m :: m in sorted <==> m in ms
    ensures StableStringify(Obj(ms)) == Ascii("{") + Joined(Mapped(sorted, PrintedMember)) + Ascii("}")
  {
    forall k ensures k in Keys(sorted) <==> k in Keys(ms) {
      SameKeysHere(ms, sorted, k);
      SameKeysHere(sorted, ms, k);
    }
    SortKeysAscends(Keys(ms));
    AscendingIsUnique(SortKeys(Keys(ms)), Keys(sorted));
    MembersArePrinted(ms, sorted);
  }

  lemma SameKeysHere(ms: seq<Member>, ns: seq<Member>, k: Text)
    requires forall m :: m in ms ==> m in ns
    ensures k in Keys(ms) ==> k in Keys(ns)
  {
    if k in Keys(ms) {
      var i :| 0 <= i < |Keys(ms)| && Keys(ms)[i] == k;
      assert ms[i] in ns;
      var j :| 0 <= j < |ns| && ns[j] == ms[i];
      assert Keys(ns)[j] == k;
    }
  }

  lemma {:induction false} ElementsArePrinted(es: seq<Json>)
    ensures JoinElements(es) == Joined(Mapped(es, StableStringify))
  {
    var parts := Mapped(es, StableStringify);
    if |es| > 1 {
      ElementsArePrinted(es[1..]);
      assert parts[1..] == Mapped(es[1..], StableStringify);
      assert JoinElements(es) == parts[0] + [COMMA] + JoinElements(es[1..]);
    } else if |es| == 1 {
      assert parts == [StableStringify(es[0])];
    }
  }

  lemma ListIsPrintedInOrder(es: seq<Json>)
    ensures StableStringify(Arr(es)) == Ascii("[") + Joined(Mapped(es, StableStringify)) + Ascii("]")
  {
    ElementsArePrinted(es);
  }

  /** The order of the keys is that of their first different code units. */
  lemma {:induction false} BelowAtFirstDifference(a: Text, b: Text, n: nat)
    requires n <= |a| && n <= |b| && a[..n] == b[..n]
    requires n == |a| < |b| || (n < |a| && n < |b| && a[n] < b[n])
    ensures Below(a, b)
  {
    if n > 0 {
      assert a[0] == a[..n][0] && b[0] == b[..n][0];
      assert a[1..][..n - 1] == a[..n][1..] && b[1..][..n - 1] == b[..n][1..];
      BelowAtFirstDifference(a[1..], b[1..], n - 1);
    }
  }

  // ----- Documents -----

  function Entry(key: Text, value: Text): Text { Ascii("\"") + key + Ascii("\":") + value }

  function QuestionText(q: Question): Text {
    Ascii("{") + Joined([Entry(Ascii("id"), QuoteString(q.id)),
                         Entry(Ascii("pregunta"), QuoteString(q.pregunta)),
                         Entry(Ascii("respuesta"), QuoteString(q.respuesta))]) + Ascii("}")
  }

  function SignerText(s: Signer): Text {
    Ascii("{") + Joined([Entry(Ascii("cedula"), QuoteString(s.cedula)),
                         Entry(Ascii("nombre"), QuoteString(s.nombre)),
                         Entry(Ascii("rol"), QuoteString(s.rol))]) + Ascii("}")
  }

  predicate IsPlainText(s: Text) { forall i :: 0 <= i < |s| ==> IsPlain(s[i]) }

  lemma MemberIsEntry(m: Member)
    requires IsPlainText(m.key)
    ensures PrintedMember(m) == Entry(m.key, StableStringify(m.val))
  {
    PlainTextIsCopied(m.key);
    assert Ascii("\":") == [0x22] + Ascii(":") && Ascii("\"") == [0x22];
  }

  lemma AscendingMeansDistinct(ks: seq<Text>)
    requires Ascending(ks)
    ensures Distinct(ks)
  {
    forall i, j | 0 <= i < j < |ks| ensures ks[i] != ks[j] {
      BelowIsTotal(ks[i], ks[j]);
    }
  }

  lemma {:induction false} AscendingThree(a: Text, b: Text, c: Text)
    requires Below(a, b) && Below(b, c)
    ensures Ascending([a, b, c])
  {
    BelowIsTransitive(a, b, c);
  }

  function Entries(ms: seq<Member>, texts: seq<Text>): (es: seq<Text>)
    requires |ms| == |texts|
    ensures |es| == |ms|
  {
    seq(|ms|, i requires 0 <= i < |ms| => Entry(ms[i].key, texts[i]))
  }

  lemma MembersAreEntries(ms: seq<Member>, texts: seq<Text>)
    requires |ms| == |texts|
    requires forall i :: 0 <= i < |ms| ==> IsPlainText(ms[i].key) && StableStringify(ms[i].val) == texts[i]
    ensures Mapped(ms, PrintedMember) == Entries(ms, texts)
  {
    forall i | 0 <= i < |ms| ensures PrintedMember(ms[i]) == Entry(ms[i].key, texts[i]) {
      MemberIsEntry(ms[i]);
    }
  }

  lemma {:induction false} SortedThree(a: Member, b: Member, c: Member)
    requires Below(a.key, b.key) && Below(b.key, c.key)
    ensures StableStringify(Obj([a, b, c])) == Ascii("{") + Joined(Mapped([a, b, c], PrintedMember)) + Ascii("}")
  {
    assert Keys([a, b, c]) == [a.key, b.key, c.key];
    AscendingThree(a.key, b.key, c.key);
    AscendingMeansDistinct(Keys([a, b, c]));
    ObjectIsPrintedInKeyOrder([a, b, c], [a, b, c]);
  }

  lemma {:induction false} ThreeTexts(k0: Text, v0: Text, k1: Text, v1: Text, k2: Text, v2: Text)
    requires IsPlainText(k0) && IsPlainText(k1) && IsPlainText(k2) && Below(k0, k1) && Below(k1, k2)
    ensures StableStringify(Obj([Member(k0, Str(v0)), Member(k1, Str(v1)), Member(k2, Str(v2))]))
      == Ascii("{")
         + Joined([Entry(k0, QuoteString(v0)), Entry(k1, QuoteString(v1)), Entry(k2, QuoteString(v2))]) + Ascii("}")
  {
    var ms, texts := [Member(k0, Str(v0)), Member(k1, Str(v1)), Member(k2, Str(v2))],
      [QuoteString(v0), QuoteString(v1), QuoteString(v2)];
    SortedThree(ms[0], ms[1], ms[2]);
    MembersAreEntries(ms, texts);
    assert Entries(ms, texts) == [Entry(k0, texts[0]), Entry(k1, texts[1]), Entry(k2, texts[2])];
  }

  lemma QuestionIsPrinted(q: Question)
    ensures StableStringify(QuestionJson(q)) == QuestionText(q)
  {
    BelowAtFirstDifference(Ascii("id"), Ascii("pregunta"), 0);
    BelowAtFirstDifference(Ascii("pregunta"), Ascii("respuesta"), 0);
    ThreeTexts(Ascii("id"), q.id, Ascii("pregunta"), q.pregunta, Ascii("respuesta"), q.respuesta);
  }

  lemma SignerIsPrinted(s: Signer)
    ensures StableStringify(SignerJson(s)) == SignerText(s)
  {
    BelowAtFirstDifference(Ascii("cedula"), Ascii("nombre"), 0);
    BelowAtFirstDifference(Ascii("nombre"), Ascii("rol"), 0);
    ThreeTexts(Ascii("cedula"), s.cedula, Ascii("nombre"), s.nombre, Ascii("rol"), s.rol);
  }

  function Listed(parts: seq<Text>): Text { Ascii("[") + Joined(parts) + Ascii("]") }

  lemma ListIsPrinted<T>(xs: seq<T>, json: T -> Json, text: T -> Text)
    requires forall x :: x in xs ==> StableStringify(json(x)) == text(x)
    ensures StableStringify(Arr(Mapped(xs, json))) == Listed(Mapped(xs, text))
  {
    var es := Mapped(xs, json);
    ListIsPrintedInOrder(es);
    assert Mapped(es, StableStringify) == Mapped(xs, text);
  }

  /** The text whose digest is the hash. */
  function TextOf(d: CanonicalDocument): Text {
    Ascii("{") + Joined([Entry(Ascii("empresa_id"), QuoteString(d.empresaId)),
                         Entry(Ascii("fecha_creacion"), QuoteString(d.fechaCreacion)),
                         Entry(Ascii("firmantes"), Listed(Mapped(d.firmantes, SignerText))),
                         Entry(Ascii("permiso_id"), QuoteString(d.permisoId)),
                         Entry(Ascii("preguntas"), Listed(Mapped(d.preguntas, QuestionText))),
                         Entry(Ascii("tipo_permiso"), QuoteString(d.tipoPermiso))]) + Ascii("}")
  }

  lemma DocumentKeysAscend()
    ensures Ascending([Ascii("empresa_id"), Ascii("fecha_creacion"), Ascii("firmantes"), Ascii("permiso_id"),
                       Ascii("preguntas"), Ascii("tipo_permiso")])
  {
    var ks := [Ascii("empresa_id"), Ascii("fecha_creacion"), Ascii("firmantes"), Ascii("permiso_id"),
               Ascii("preguntas"), Ascii("tipo_permiso")];
    BelowAtFirstDifference(ks[0], ks[1], 0);
    BelowAtFirstDifference(ks[1], ks[2], 1);
    BelowAtFirstDifference(ks[2], ks[3], 0);
    BelowAtFirstDifference(ks[3], ks[4], 1);
    BelowAtFirstDifference(ks[4], ks[5], 0);
    StepsAscend(ks);
  }

  lemma {:induction false} StepsAscend(ks: seq<Text>)
    requires forall i :: 0 <= i < |ks| - 1 ==> Below(ks[i], ks[i + 1])
    ensures Ascending(ks)
  {
    if ks != [] {
      var n := |ks| - 1;
      StepsAscend(ks[..n]);
      forall i | 0 <= i < n ensures Below(ks[i], ks[n]) {
        if i < n - 1 {
          assert Below(ks[..n][i], ks[..n][n - 1]);
          BelowIsTransitive(ks[i], ks[n - 1], ks[n]);
        }
      }
      forall i, j | 0 <= i < j < |ks| ensures Below(ks[i], ks[j]) {
        if j < n {
          assert Below(ks[..n][i], ks[..n][j]);
        }
      }
    }
  }

  /** The members of the document in the order of their keys. */
  function SortedMembers(d: CanonicalDocument): seq<Member> {
    [Member(Ascii("empresa_id"), Str(d.empresaId)),
     Member(Ascii("fecha_creacion"), Str(d.fechaCreacion)),
     Member(Ascii("firmantes"), Arr(Mapped(d.firmantes, SignerJson))),
     Member(Ascii("permiso_id"), Str(d.permisoId)),
     Member(Ascii("preguntas"), Arr(Mapped(d.preguntas, QuestionJson))),
     Member(Ascii("tipo_permiso"), Str(d.tipoPermiso))]
  }

  lemma SortedKeysAscend(d: CanonicalDocument)
    ensures Ascending(Keys(SortedMembers(d)))
  {
    DocumentKeysAscend();
    assert Keys(SortedMembers(d))
      == [Ascii("empresa_id"), Ascii("fecha_creacion"), Ascii("firmantes"), Ascii("permiso_id"),
          Ascii("preguntas"), Ascii("tipo_permiso")];
  }

  lemma SameMembers(ms: seq<Member>, sorted: seq<Member>)
    requires |sorted| == 6 && ms == [sorted[3], sorted[0], sorted[5], sorted[1], sorted[4], sorted[2]]
    ensures forall m :: m in sorted <==> m in ms
  {
  }

  lemma DocumentIsSorted(d: CanonicalDocument)
    ensures StableStringify(DocumentJson(d))
      == Ascii("{") + Joined(Mapped(SortedMembers(d), PrintedMember)) + Ascii("}")
  {
    DocumentJsonWellFormed(d);
    SortedKeysAscend(d);
    SameMembers(DocumentJson(d).members, SortedMembers(d));
    ObjectIsPrintedInKeyOrder(DocumentJson(d).members, SortedMembers(d));
  }

  lemma DocumentKeysArePlain(d: CanonicalDocument, i: nat)
    requires i < 6
    ensures IsPlainText(SortedMembers(d)[i].key)
  {
  }

  lemma ListsArePrinted(d: CanonicalDocument)
    ensures StableStringify(Arr(Mapped(d.firmantes, SignerJson))) == Listed(Mapped(d.firmantes, SignerText))
    ensures StableStringify(Arr(Mapped(d.preguntas, QuestionJson))) == Listed(Mapped(d.preguntas, QuestionText))
  {
    forall s | s in d.firmantes ensures StableStringify(SignerJson(s)) == SignerText(s) { SignerIsPrinted(s); }
    ListIsPrinted(d.firmantes, SignerJson, SignerText);
    forall q | q in d.preguntas ensures StableStringify(QuestionJson(q)) == QuestionText(q) { QuestionIsPrinted(q); }
    ListIsPrinted(d.preguntas, QuestionJson, QuestionText);
  }

  /** The values of the document in the order of their keys. */
  function SortedTexts(d: CanonicalDocument): seq<Text> {
    [QuoteString(d.empresaId), QuoteString(d.fechaCreacion), Listed(Mapped(d.firmantes, SignerText)),
     QuoteString(d.permisoId), Listed(Mapped(d.preguntas, QuestionText)), QuoteString(d.tipoPermiso)]
  }

  lemma ValuesArePrinted(d: CanonicalDocument, i: nat)
    requires i < 6
    ensures StableStringify(SortedMembers(d)[i].val) == SortedTexts(d)[i]
  {
    ListsArePrinted(d);
  }

  /** A document is hashed as this text, key by key and character by character. */
  lemma DocumentIsPrinted(d: CanonicalDocument)
    ensures StableStringify(DocumentJson(d)) == TextOf(d)
  {
    DocumentIsSorted(d);
    var ms := SortedMembers(d);
    forall i | 0 <= i < |ms| ensures IsPlainText(ms[i].key) && StableStringify(ms[i].val) == SortedTexts(d)[i] {
      DocumentKeysArePlain(d, i);
      ValuesArePrinted(d, i);
    }
    MembersAreEntries(ms, SortedTexts(d));
    EntriesOfTheText(d);
  }

  lemma EntriesOfTheText(d: CanonicalDocument)
    ensures TextOf(d) == Ascii("{") + Joined(Entries(SortedMembers(d), SortedTexts(d))) + Ascii("}")
  {
    var ms, ts := SortedMembers(d), SortedTexts(d);
    assert Entries(ms, ts) == [Entry(ms[0].key, ts[0]), Entry(ms[1].key, ts[1]), Entry(ms[2].key, ts[2]),
                               Entry(ms[3].key, ts[3]), Entry(ms[4].key, ts[4]), Entry(ms[5].key, ts[5])];
  }
}
