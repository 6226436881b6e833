/** The canonical JSON printer behind the document hash.
    Strings are JavaScript strings: sequences of UTF-16 code units. */
module CanonicalJson {
  import opened JsText

  /** The integers a JavaScript number holds exactly; all of them print in plain decimal. */
  type SafeInt = n: int | -9007199254740991 <= n <= 9007199254740991

  /** A JSON value. The members of an object are listed in insertion order. */
  datatype Json =
    | Null
    | Bool(b: bool)
    | Num(n: SafeInt)
    | Str(s: Text)
    | Arr(elems: seq<Json>)
    | Obj(members: seq<Member>)

  datatype Member = Member(key: Text, val: Json)

  const QUOTE: CodeUnit := 0x22
  const BACKSLASH: CodeUnit := 0x5C
  const COMMA: CodeUnit := 0x2C
  const COLON: CodeUnit := 0x3A
  const MINUS: CodeUnit := 0x2D
  const OPEN_BRACKET: CodeUnit := 0x5B
  const CLOSE_BRACKET: CodeUnit := 0x5D
  const OPEN_BRACE: CodeUnit := 0x7B
  const CLOSE_BRACE: CodeUnit := 0x7D
  const LETTER_U: CodeUnit := 0x75

  const NULL_TEXT: Text := [0x6E, 0x75, 0x6C, 0x6C]
  const TRUE_TEXT: Text := [0x74, 0x72, 0x75, 0x65]
  const FALSE_TEXT: Text := [0x66, 0x61, 0x6C, 0x73, 0x65]

  // ----- Key order: `Array.prototype.sort` on strings compares code units -----

  predicate Below(a: Text, b: Text) {
    b != [] && (a == [] || a[0] < b[0] || (a[0] == b[0] && Below(a[1..], b[1..])))
  }

  lemma {:induction false} BelowIsTotal(a: Text, b: Text)
    ensures a == b || Below(a, b) || Below(b, a)
    ensures !(Below(a, b) && Below(b, a))
    ensures a == b ==> !Below(a, b)
  {
    if a != [] && b != [] {
      BelowIsTotal(a[1..], b[1..]);
      assert a == [a[0]] + a[1..] && b == [b[0]] + b[1..];
    }
  }

  lemma {:induction false} BelowIsTransitive(a: Text, b: Text, c: Text)
    requires Below(a, b) && Below(b, c)
    ensures Below(a, c)
  {
    if a != [] && a[0] == b[0] && b[0] == c[0] {
      BelowIsTransitive(a[1..], b[1..], c[1..]);
    }
  }

  predicate Distinct(ks: seq<Text>) {
    forall i, j :: 0 <= i < j < |ks| ==> ks[i] != ks[j]
  }

  ghost predicate Ascending(ks: seq<Text>) {
    forall i, j :: 0 <= i < j < |ks| ==> Below(ks[i], ks[j])
  }

  function InsertKey(k: Text, ks: seq<Text>): (r: seq<Text>)
    ensures |r| == |ks| + 1
    ensures forall x :: x in r <==> x == k || x in ks
  {
    if ks == [] then [k]
    else if Below(ks[0], k) then
      assert ks == [ks[0]] + ks[1..];
      [ks[0]] + InsertKey(k, ks[1..])
    else [k] + ks
  }

  function SortKeys(ks: seq<Text>): (r: seq<Text>)
    ensures |r| == |ks|
    ensures forall x :: x in r <==> x in ks
  {
    if ks == [] then []
    else
      assert ks == [ks[0]] + ks[1..];
      InsertKey(ks[0], SortKeys(ks[1..]))
  }

  lemma {:induction false} InsertKeyAscends(k: Text, ks: seq<Text>)
    requires Ascending(ks) && k !in ks
    ensures Ascending(InsertKey(k, ks))
  {
    if ks != [] {
      BelowIsTotal(ks[0], k);
      if Below(ks[0], k) {
        InsertKeyAscends(k, ks[1..]);
        var r := InsertKey(k, ks[1..]);
        forall j | 0 <= j < |r| ensures Below(ks[0], r[j]) {
          assert r[j] in r;
        }
      } else {
        forall j | 0 <= j < |ks| ensures Below(k, ks[j]) {
          if j > 0 {
            BelowIsTransitive(k, ks[0], ks[j]);
          }
        }
      }
    }
  }

  lemma {:induction false} SortKeysAscends(ks: seq<Text>)
    requires Distinct(ks)
    ensures Ascending(SortKeys(ks))
  {
    if ks != [] {
      SortKeysAscends(ks[1..]);
      InsertKeyAscends(ks[0], SortKeys(ks[1..]));
    }
  }

  lemma TailHasNoHead(ks: seq<Text>, k: Text)
    requires ks != [] && Ascending(ks)
    ensures k in ks[1..] <==> k in ks && k != ks[0]
  {
    assert ks == [ks[0]] + ks[1..];
    if k in ks[1..] {
      var i :| 0 <= i < |ks[1..]| && ks[1..][i] == k;
      assert Below(ks[0], ks[i + 1]);
      BelowIsTotal(ks[0], k);
    }
  }

  /** An ascending list is determined by the set of its keys. */
  lemma {:induction false} AscendingIsUnique(a: seq<Text>, b: seq<Text>)
    requires Ascending(a) && Ascending(b)
    requires forall k :: k in a <==> k in b
    ensures a == b
  {
    if b != [] {
      assert b[0] in b && b[0] in a;
    }
    if a != [] {
      assert a[0] in a && a[0] in b;
      BelowIsTotal(a[0], b[0]);
      assert a[0] == b[0];
      forall k ensures k in a[1..] <==> k in b[1..] {
        TailHasNoHead(a, k);
        TailHasNoHead(b, k);
      }
      AscendingIsUnique(a[1..], b[1..]);
      assert a == [a[0]] + a[1..] && b == [b[0]] + b[1..];
    }
  }

  // ----- String literals: QuoteJSONString of ECMA-262, section 25.5.2.3 -----

  predicate IsLeading(u: CodeUnit) { 0xD800 <= u <= 0xDBFF }

  predicate IsTrailing(u: CodeUnit) { 0xDC00 <= u <= 0xDFFF }

  function HexDigit(d: int): CodeUnit
    requires 0 <= d < 16
  {
    if d < 10 then 0x30 + d else 0x57 + d
  }

  function UnicodeEscape(u: CodeUnit): Text {
    [BACKSLASH, LETTER_U,
     HexDigit(u / 4096), HexDigit(u / 256 % 16), HexDigit(u / 16 % 16), HexDigit(u % 16)]
  }

  function EscapeUnit(u: CodeUnit): Text {
    if u == 0x08 then [BACKSLASH, 0x62]
    else if u == 0x09 then [BACKSLASH, 0x74]
    else if u == 0x0A then [BACKSLASH, 0x6E]
    else if u == 0x0C then [BACKSLASH, 0x66]
    else if u == 0x0D then [BACKSLASH, 0x72]
    else if u == QUOTE || u == BACKSLASH then [BACKSLASH, u]
    else if u < 0x20 || IsLeading(u) || IsTrailing(u) then UnicodeEscape(u)
    else [u]
  }

  /** A surrogate pair is copied; a lone surrogate is escaped. */
  function QuoteBody(s: Text): Text {
    if s == [] then []
    else if |s| > 1 && IsLeading(s[0]) && IsTrailing(s[1]) then [s[0], s[1]] + QuoteBody(s[2..])
    else EscapeUnit(s[0]) + QuoteBody(s[1..])
  }

  function QuoteString(s: Text): Text {
    [QUOTE] + QuoteBody(s) + [QUOTE]
  }

  // ----- Numbers -----

  function NumberText(n: int): Text {
    if n < 0 then [MINUS] + Digits(-n) else Digits(n)
  }

  // ----- The printer -----

  function Keys(ms: seq<Member>): (ks: seq<Text>)
    ensures |ks| == |ms| && forall i :: 0 <= i < |ms| ==> ks[i] == ms[i].key
  {
    seq(|ms|, i requires 0 <= i < |ms| => ms[i].key)
  }

  function IndexOfKey(ms: seq<Member>, k: Text): (i: nat)
    requires k in Keys(ms)
    ensures i < |ms| && ms[i].key == k
  {
    if ms[0].key == k then 0
    else
      assert Keys(ms) == [ms[0].key] + Keys(ms[1..]);
      1 + IndexOfKey(ms[1..], k)
  }

  function StableStringify(v: Json): Text
    decreases v, 0
  {
    match v
    case Null => NULL_TEXT
    case Bool(b) => if b then TRUE_TEXT else FALSE_TEXT
    case Num(n) => NumberText(n)
    case Str(s) => QuoteString(s)
    case Arr(es) => [OPEN_BRACKET] + JoinElements(es) + [CLOSE_BRACKET]
    case Obj(ms) => [OPEN_BRACE] + JoinMembers(SortKeys(Keys(ms)), ms) + [CLOSE_BRACE]
  }

  function JoinElements(es: seq<Json>): Text
    decreases es, 0
  {
    if es == [] then []
    else if |es| == 1 then StableStringify(es[0])
    else StableStringify(es[0]) + [COMMA] + JoinElements(es[1..])
  }

  function MemberText(k: Text, ms: seq<Member>): Text
    requires k in Keys(ms)
    decreases ms, 0
  {
    QuoteString(k) + [COLON] + StableStringify(ms[IndexOfKey(ms, k)].val)
  }

  function JoinMembers(ks: seq<Text>, ms: seq<Member>): Text
    requires forall k :: k in ks ==> k in Keys(ms)
    decreases ms, 1 + |ks|
  {
    if ks == [] then []
    else if |ks| == 1 then MemberText(ks[0], ms)
    else MemberText(ks[0], ms) + [COMMA] + JoinMembers(ks[1..], ms)
  }

  // ----- Values up to key order -----

  /** JavaScript objects never repeat a key. */
  predicate WellFormed(v: Json) {
    match v
    case Arr(es) => forall e :: e in es ==> WellFormed(e)
    case Obj(ms) => Distinct(Keys(ms)) && forall m :: m in ms ==> WellFormed(m.val)
    case _ => true
  }

  /** Equality that ignores the order in which object members were inserted. */
  predicate EqualUpToOrder(a: Json, b: Json) {
    match (a, b)
    case (Arr(xs), Arr(ys)) =>
      |xs| == |ys| && forall i :: 0 <= i < |xs| ==> EqualUpToOrder(xs[i], ys[i])
    case (Obj(ms), Obj(ns)) =>
      && |ms| == |ns|
      && (forall i :: 0 <= i < |ms| ==> ms[i].key in Keys(ns))
      && (forall i, j :: 0 <= i < |ms| && 0 <= j < |ns| && ms[i].key == ns[j].key ==>
            EqualUpToOrder(ms[i].val, ns[j].val))
    case _ => a == b
  }

  /** The representative of a value with all keys in ascending order. */
  function Canon(v: Json): Json
    decreases v, 0
  {
    match v
    case Arr(es) => Arr(CanonElements(es))
    case Obj(ms) => Obj(CanonMembers(SortKeys(Keys(ms)), ms))
    case _ => v
  }

  function CanonElements(es: seq<Json>): (r: seq<Json>)
    ensures |r| == |es| && forall i :: 0 <= i < |es| ==> r[i] == Canon(es[i])
    decreases es, 0
  {
    if es == [] then [] else [Canon(es[0])] + CanonElements(es[1..])
  }

  function CanonMembers(ks: seq<Text>, ms: seq<Member>): (r: seq<Member>)
    requires forall k :: k in ks ==> k in Keys(ms)
    ensures |r| == |ks|
    ensures forall i :: 0 <= i < |ks| ==> r[i].key == ks[i] && r[i].val == Canon(ms[IndexOfKey(ms, ks[i])].val)
    decreases ms, 1 + |ks|
  {
    if ks == [] then []
    else [Member(ks[0], Canon(ms[IndexOfKey(ms, ks[0])].val))] + CanonMembers(ks[1..], ms)
  }

  // ----- A parser -----

  datatype Parsed<+T> = Fail | Got(value: T, rest: Text)

  function UnHex(u: CodeUnit): (d: int)
    ensures -1 <= d < 16
  {
    if 0x30 <= u <= 0x39 then u - 0x30
    else if 0x61 <= u <= 0x66 then u - 0x57
    else -1
  }

  /** The code unit that an escape sequence at the front of `t` denotes. */
  function ParseEscape(t: Text): (r: Parsed<CodeUnit>)
    requires t != [] && t[0] == BACKSLASH
    ensures r.Got? ==> |r.rest| < |t|
  {
    if |t| < 2 then Fail
    else if t[1] == 0x62 then Got(0x08, t[2..])
    else if t[1] == 0x74 then Got(0x09, t[2..])
    else if t[1] == 0x6E then Got(0x0A, t[2..])
    else if t[1] == 0x66 then Got(0x0C, t[2..])
    else if t[1] == 0x72 then Got(0x0D, t[2..])
    else if t[1] == QUOTE || t[1] == BACKSLASH then Got(t[1], t[2..])
    else if t[1] == LETTER_U && |t| >= 6
            && UnHex(t[2]) >= 0 && UnHex(t[3]) >= 0 && UnHex(t[4]) >= 0 && UnHex(t[5]) >= 0 then
      Got(UnHex(t[2]) * 4096 + UnHex(t[3]) * 256 + UnHex(t[4]) * 16 + UnHex(t[5]), t[6..])
    else Fail
  }

  /** Reads up to and over the closing quote. */
  function ParseString(t: Text): (r: Parsed<Text>)
    ensures r.Got? ==> |r.rest| < |t|
    decreases |t|
  {
    if t == [] then Fail
    else if t[0] == QUOTE then Got([], t[1..])
    else if t[0] == BACKSLASH then
      var e := ParseEscape(t);
      if e.Fail? then Fail
      else
        var more := ParseString(e.rest);
        if more.Fail? then Fail else Got([e.value] + more.value, more.rest)
    else
      var more := ParseString(t[1..]);
      if more.Fail? then Fail else Got([t[0]] + more.value, more.rest)
  }

  function DigitRun(t: Text): (n: nat)
    ensures n <= |t| && forall i :: 0 <= i < n ==> IsDigit(t[i])
  {
    if t != [] && IsDigit(t[0]) then 1 + DigitRun(t[1..]) else 0
  }

  function ParseNumber(t: Text): (r: Parsed<SafeInt>)
    ensures r.Got? ==> |r.rest| < |t|
  {
    if t == [] then Fail
    else
      var u := if t[0] == MINUS then t[1..] else t;
      var n := DigitRun(u);
      var magnitude: int := DigitsValue(u[..n]);
      if n == 0 || magnitude > 9007199254740991 then Fail
      else Got(if t[0] == MINUS then -magnitude else magnitude, u[n..])
  }

  function ParseValue(t: Text): (r: Parsed<Json>)
    ensures r.Got? ==> |r.rest| < |t|
    decreases |t|, 0
  {
    if t == [] then Fail
    else if t[0] == NULL_TEXT[0] then (if NULL_TEXT <= t then Got(Null, t[4..]) else Fail)
    else if t[0] == TRUE_TEXT[0] then (if TRUE_TEXT <= t then Got(Bool(true), t[4..]) else Fail)
    else if t[0] == FALSE_TEXT[0] then (if FALSE_TEXT <= t then Got(Bool(false), t[5..]) else Fail)
    else if t[0] == QUOTE then
      var s := ParseString(t[1..]);
      if s.Fail? then Fail else Got(Str(s.value), s.rest)
    else if t[0] == OPEN_BRACKET then
      if |t| > 1 && t[1] == CLOSE_BRACKET then Got(Arr([]), t[2..])
      else
        var es := ParseElements(t[1..]);
        if es.Fail? then Fail else Got(Arr(es.value), es.rest)
    else if t[0] == OPEN_BRACE then
      if |t| > 1 && t[1] == CLOSE_BRACE then Got(Obj([]), t[2..])
      else
        var ms := ParseMembers(t[1..]);
        if ms.Fail? then Fail else Got(Obj(ms.value), ms.rest)
    else
      var n := ParseNumber(t);
      if n.Fail? then Fail else Got(Num(n.value), n.rest)
  }

  /** One or more comma-separated values and the closing bracket. */
  function ParseElements(t: Text): (r: Parsed<seq<Json>>)
    ensures r.Got? ==> |r.rest| < |t|
    decreases |t|, 1
  {
    var v := ParseValue(t);
    if v.Fail? || v.rest == [] then Fail
    else if v.rest[0] == CLOSE_BRACKET then Got([v.value], v.rest[1..])
    else if v.rest[0] == COMMA then
      var more := ParseElements(v.rest[1..]);
      if more.Fail? then Fail else Got([v.value] + more.value, more.rest)
    else Fail
  }

  function ParseMember(t: Text): (r: Parsed<Member>)
    ensures r.Got? ==> |r.rest| < |t|
    decreases |t|, 1
  {
    if t == [] || t[0] != QUOTE then Fail
    else
      var k := ParseString(t[1..]);
      if k.Fail? || k.rest == [] || k.rest[0] != COLON then Fail
      else
        var v := ParseValue(k.rest[1..]);
        if v.Fail? then Fail else Got(Member(k.value, v.value), v.rest)
  }

  /** One or more comma-separated members and the closing brace. */
  function ParseMembers(t: Text): (r: Parsed<seq<Member>>)
    ensures r.Got? ==> |r.rest| < |t|
    decreases |t|, 2
  {
    var m := ParseMember(t);
    if m.Fail? || m.rest == [] then Fail
    else if m.rest[0] == CLOSE_BRACE then Got([m.value], m.rest[1..])
    else if m.rest[0] == COMMA then
      var more := ParseMembers(m.rest[1..]);
      if more.Fail? then Fail else Got([m.value] + more.value, more.rest)
    else Fail
  }

  // ----- The parser inverts the printer -----

  lemma HexDigitsSpell(u: CodeUnit)
    ensures var a, b, c, d := u / 4096, u / 256 % 16, u / 16 % 16, u % 16;
            0 <= a < 16 && u == a * 4096 + b * 256 + c * 16 + d
  {
  }

  lemma ParseUnicodeEscape(u: CodeUnit, rest: Text)
    ensures ParseEscape(UnicodeEscape(u) + rest) == Got(u, rest)
  {
    HexDigitsSpell(u);
    var t := UnicodeEscape(u) + rest;
    assert t[6..] == rest;
  }

  lemma ParseEscapeInverts(u: CodeUnit, rest: Text)
    requires EscapeUnit(u)[0] == BACKSLASH
    ensures ParseEscape(EscapeUnit(u) + rest) == Got(u, rest)
  {
    if EscapeUnit(u) == UnicodeEscape(u) {
      ParseUnicodeEscape(u, rest);
    } else {
      assert (EscapeUnit(u) + rest)[2..] == rest;
    }
  }

  /** Concatenations may be read from the right. */
  lemma Regroup(a: Text, b: Text, c: Text, d: Text)
    ensures a + b + c + d == a + (b + (c + d))
    ensures a + b + c == a + (b + c)
  {
  }

  lemma {:induction false} ParseRawUnit(u: CodeUnit, t: Text, s: Text, rest: Text)
    requires u != QUOTE && u != BACKSLASH && ParseString(t) == Got(s, rest)
    ensures ParseString([u] + t) == Got([u] + s, rest)
  {
  }

  lemma {:induction false} ParseEscapedUnit(u: CodeUnit, t: Text, s: Text, rest: Text)
    requires ParseString(t) == Got(s, rest)
    ensures ParseString(EscapeUnit(u) + t) == Got([u] + s, rest)
  {
    if EscapeUnit(u)[0] == BACKSLASH {
      ParseEscapeInverts(u, t);
    } else {
      ParseRawUnit(u, t, s, rest);
    }
  }

  lemma {:induction false} ParseSurrogatePair(leading: CodeUnit, trailing: CodeUnit, body: Text, close: Text, s: Text,
                                              rest: Text)
    requires IsLeading(leading) && IsTrailing(trailing) && ParseString(body + close) == Got(s, rest)
    ensures ParseString([leading, trailing] + body + close) == Got([leading, trailing] + s, rest)
  {
    ParseRawUnit(trailing, body + close, s, rest);
    ParseRawUnit(leading, [trailing] + (body + close), [trailing] + s, rest);
    assert [leading, trailing] + body + close == [leading] + ([trailing] + (body + close));
    assert [leading] + ([trailing] + s) == [leading, trailing] + s;
  }

  lemma {:induction false} ParseOtherUnit(u: CodeUnit, body: Text, close: Text, s: Text, rest: Text)
    requires ParseString(body + close) == Got(s, rest)
    ensures ParseString(EscapeUnit(u) + body + close) == Got([u] + s, rest)
  {
    ParseEscapedUnit(u, body + close, s, rest);
    Regroup(EscapeUnit(u), body, close, []);
  }

  lemma {:induction false} ParseStringInverts(s: Text, rest: Text)
    ensures ParseString(QuoteBody(s) + ([QUOTE] + rest)) == Got(s, rest)
    decreases |s|
  {
    var close := [QUOTE] + rest;
    if s == [] {
      assert QuoteBody(s) + close == close;
      assert close[1..] == rest;
    } else if |s| > 1 && IsLeading(s[0]) && IsTrailing(s[1]) {
      ParseStringInverts(s[2..], rest);
      ParseSurrogatePair(s[0], s[1], QuoteBody(s[2..]), close, s[2..], rest);
      assert s == [s[0], s[1]] + s[2..];
    } else {
      ParseStringInverts(s[1..], rest);
      ParseOtherUnit(s[0], QuoteBody(s[1..]), close, s[1..], rest);
      assert s == [s[0]] + s[1..];
    }
  }

  lemma {:induction false} DigitRunSplits(ds: Text, rest: Text)
    requires forall i :: 0 <= i < |ds| ==> IsDigit(ds[i])
    requires rest == [] || !IsDigit(rest[0])
    ensures DigitRun(ds + rest) == |ds|
  {
    if ds == [] {
      assert ds + rest == rest;
    } else {
      assert (ds + rest)[1..] == ds[1..] + rest;
      DigitRunSplits(ds[1..], rest);
    }
  }

  /** What may follow a value inside a document. */
  predicate Delimited(rest: Text) {
    rest == [] || rest[0] == COMMA || rest[0] == CLOSE_BRACKET || rest[0] == CLOSE_BRACE
  }

  lemma {:induction false} ReadsMagnitude(n: nat, rest: Text)
    requires Delimited(rest)
    ensures var u := Digits(n) + rest;
            DigitRun(u) == |Digits(n)| && u[..DigitRun(u)] == Digits(n) && u[DigitRun(u)..] == rest
    ensures DigitsValue(Digits(n)) == n
  {
    DigitRunSplits(Digits(n), rest);
    DigitsValueInverts(n);
  }

  lemma ParseNumberInverts(n: SafeInt, rest: Text)
    requires Delimited(rest)
    ensures ParseNumber(NumberText(n) + rest) == Got(n, rest)
    ensures NumberText(n)[0] == MINUS || IsDigit(NumberText(n)[0])
  {
    if n < 0 {
      ReadsMagnitude(-n, rest);
      var u := Digits(-n) + rest;
      Regroup([MINUS], Digits(-n), rest, []);
      assert ([MINUS] + u)[1..] == u;
    } else {
      ReadsMagnitude(n, rest);
      assert IsDigit(Digits(n)[0]);
      assert (Digits(n) + rest)[0] == Digits(n)[0];
    }
  }

  lemma {:induction false} FirstUnit(v: Json)
    ensures StableStringify(v) != [] && StableStringify(v)[0] != CLOSE_BRACKET
  {
  }

  lemma {:induction false} ParseQuoted(s: Text, rest: Text)
    ensures ParseValue(QuoteString(s) + rest) == Got(Str(s), rest)
  {
    ParseStringInverts(s, rest);
    Regroup([QUOTE], QuoteBody(s), [QUOTE], rest);
    assert ([QUOTE] + (QuoteBody(s) + ([QUOTE] + rest)))[1..] == QuoteBody(s) + ([QUOTE] + rest);
  }

  lemma {:induction false} ParseArray(body: Text, es: seq<Json>, rest: Text)
    requires body != [] && body[0] != CLOSE_BRACKET
    requires ParseElements(body + ([CLOSE_BRACKET] + rest)) == Got(es, rest)
    ensures ParseValue([OPEN_BRACKET] + body + [CLOSE_BRACKET] + rest) == Got(Arr(es), rest)
  {
    var inner := body + ([CLOSE_BRACKET] + rest);
    Regroup([OPEN_BRACKET], body, [CLOSE_BRACKET], rest);
    assert ([OPEN_BRACKET] + inner)[1..] == inner;
    assert ([OPEN_BRACKET] + inner)[1] == body[0];
  }

  lemma {:induction false} ParseObject(body: Text, ms: seq<Member>, rest: Text)
    requires body != [] && body[0] != CLOSE_BRACE
    requires ParseMembers(body + ([CLOSE_BRACE] + rest)) == Got(ms, rest)
    ensures ParseValue([OPEN_BRACE] + body + [CLOSE_BRACE] + rest) == Got(Obj(ms), rest)
  {
    var inner := body + ([CLOSE_BRACE] + rest);
    Regroup([OPEN_BRACE], body, [CLOSE_BRACE], rest);
    assert ([OPEN_BRACE] + inner)[1..] == inner;
    assert ([OPEN_BRACE] + inner)[1] == body[0];
  }

  lemma {:induction false} ParseLiteral(v: Json, rest: Text)
    requires v.Null? || v.Bool?
    ensures ParseValue(StableStringify(v) + rest) == Got(v, rest)
  {
  }

  lemma {:induction false} ParseEmpty(v: Json, rest: Text)
    requires v == Arr([]) || v == Obj([])
    ensures ParseValue(StableStringify(v) + rest) == Got(v, rest)
  {
  }

  lemma {:induction false} ParseInteger(n: SafeInt, rest: Text)
    requires Delimited(rest)
    ensures ParseValue(StableStringify(Num(n)) + rest) == Got(Num(n), rest)
  {
    ParseNumberInverts(n, rest);
    NumberStarts(n, rest);
  }

  lemma NumberStarts(n: int, rest: Text)
    ensures var t := NumberText(n) + rest; t != [] && (t[0] == MINUS || IsDigit(t[0]))
  {
    assert (NumberText(n) + rest)[0] == NumberText(n)[0];
  }

  /** Parsing what was printed gives the value back, with its keys in order. */
  lemma {:induction false} ParseInvertsStringify(v: Json, rest: Text)
    requires WellFormed(v) && Delimited(rest)
    ensures ParseValue(StableStringify(v) + rest) == Got(Canon(v), rest)
    decreases v, 1
  {
    match v
    case Str(s) => ParseQuoted(s, rest);
    case Arr(es) =>
      if es == [] {
        ParseEmpty(v, rest);
      } else {
        FirstUnit(es[0]);
        ParseInvertsElements(es, rest);
        ParseArray(JoinElements(es), CanonElements(es), rest);
      }
    case Obj(ms) =>
      var ks := SortKeys(Keys(ms));
      if ms == [] {
        ParseEmpty(v, rest);
      } else {
        ParseInvertsMembers(ks, ms, rest);
        ParseObject(JoinMembers(ks, ms), CanonMembers(ks, ms), rest);
      }
    case Num(n) => ParseInteger(n, rest);
    case _ => ParseLiteral(v, rest);
  }

  lemma {:induction false} ParseLastElement(t: Text, v: Json, rest: Text)
    requires ParseValue(t) == Got(v, [CLOSE_BRACKET] + rest)
    ensures ParseElements(t) == Got([v], rest)
  {
  }

  lemma {:induction false} ParseNextElement(t: Text, v: Json, more: Text, vs: seq<Json>, rest: Text)
    requires ParseValue(t) == Got(v, [COMMA] + more) && ParseElements(more) == Got(vs, rest)
    ensures ParseElements(t) == Got([v] + vs, rest)
  {
  }

  lemma {:induction false} ParseInvertsElements(es: seq<Json>, rest: Text)
    requires es != [] && forall e :: e in es ==> WellFormed(e)
    ensures ParseElements(JoinElements(es) + ([CLOSE_BRACKET] + rest)) == Got(CanonElements(es), rest)
    ensures JoinElements(es) != [] && JoinElements(es)[0] == StableStringify(es[0])[0]
    decreases es, 0
  {
    var close := [CLOSE_BRACKET] + rest;
    var head := StableStringify(es[0]);
    FirstUnit(es[0]);
    if |es| == 1 {
      ParseInvertsStringify(es[0], close);
      ParseLastElement(head + close, Canon(es[0]), rest);
      assert CanonElements(es) == [Canon(es[0])];
    } else {
      var more := JoinElements(es[1..]);
      ParseInvertsStringify(es[0], [COMMA] + (more + close));
      ParseInvertsElements(es[1..], rest);
      ParseNextElement(head + ([COMMA] + (more + close)), Canon(es[0]), more + close, CanonElements(es[1..]), rest);
      Regroup(head, [COMMA], more, close);
    }
  }

  lemma {:induction false} ParseOneMember(k: Text, value: Text, v: Json, rest: Text)
    requires ParseValue(value + rest) == Got(v, rest)
    ensures ParseMember(QuoteString(k) + [COLON] + value + rest) == Got(Member(k, v), rest)
  {
    var tail := [COLON] + (value + rest);
    var inner := QuoteBody(k) + ([QUOTE] + tail);
    ParseStringInverts(k, tail);
    Regroup(QuoteString(k), [COLON], value, rest);
    Regroup([QUOTE], QuoteBody(k), [QUOTE], tail);
    assert ([QUOTE] + inner)[1..] == inner;
    assert tail[1..] == value + rest;
  }

  lemma {:induction false} ParseInvertsMember(k: Text, ms: seq<Member>, rest: Text)
    requires k in Keys(ms) && Delimited(rest) && forall m :: m in ms ==> WellFormed(m.val)
    ensures ParseMember(MemberText(k, ms) + rest) == Got(Member(k, Canon(ms[IndexOfKey(ms, k)].val)), rest)
    ensures MemberText(k, ms)[0] == QUOTE
    decreases ms, 0
  {
    var m := ms[IndexOfKey(ms, k)];
    assert m in ms;
    ParseInvertsStringify(m.val, rest);
    ParseOneMember(k, StableStringify(m.val), Canon(m.val), rest);
  }

  lemma {:induction false} ParseLastMember(t: Text, m: Member, rest: Text)
    requires ParseMember(t) == Got(m, [CLOSE_BRACE] + rest)
    ensures ParseMembers(t) == Got([m], rest)
  {
  }

  lemma {:induction false} ParseNextMember(t: Text, m: Member, more: Text, ms: seq<Member>, rest: Text)
    requires ParseMember(t) == Got(m, [COMMA] + more) && ParseMembers(more) == Got(ms, rest)
    ensures ParseMembers(t) == Got([m] + ms, rest)
  {
  }

  lemma {:induction false} ParseInvertsMembers(ks: seq<Text>, ms: seq<Member>, rest: Text)
    requires ks != [] && (forall k :: k in ks ==> k in Keys(ms)) && forall m :: m in ms ==> WellFormed(m.val)
    ensures ParseMembers(JoinMembers(ks, ms) + ([CLOSE_BRACE] + rest)) == Got(CanonMembers(ks, ms), rest)
    ensures JoinMembers(ks, ms) != [] && JoinMembers(ks, ms)[0] == QUOTE
    decreases ms, 1 + |ks|
  {
    var close := [CLOSE_BRACE] + rest;
    var head := MemberText(ks[0], ms);
    var m := Member(ks[0], Canon(ms[IndexOfKey(ms, ks[0])].val));
    if |ks| == 1 {
      ParseInvertsMember(ks[0], ms, close);
      ParseLastMember(head + close, m, rest);
      assert CanonMembers(ks, ms) == [m];
    } else {
      var more := JoinMembers(ks[1..], ms);
      ParseInvertsMember(ks[0], ms, [COMMA] + (more + close));
      ParseInvertsMembers(ks[1..], ms, rest);
      ParseNextMember(head + ([COMMA] + (more + close)), m, more + close, CanonMembers(ks[1..], ms), rest);
      Regroup(head, [COMMA], more, close);
    }
  }

  // ----- Canonical forms are exactly the classes of `EqualUpToOrder` -----

  lemma SameKeysSortAlike(ms: seq<Member>, ns: seq<Member>)
    requires Distinct(Keys(ms)) && Distinct(Keys(ns)) && |ms| == |ns|
    requires forall k :: k in Keys(ms) ==> k in Keys(ns)
    ensures SortKeys(Keys(ms)) == SortKeys(Keys(ns))
  {
    var a, b := set k | k in Keys(ms), set k | k in Keys(ns);
    DistinctCardinality(Keys(ms));
    DistinctCardinality(Keys(ns));
    assert a <= b;
    assert b == a + (b - a);
    assert |b| == |a| + |b - a|;
    assert forall k :: k in Keys(ns) ==> k in b;
    SortKeysAscends(Keys(ms));
    SortKeysAscends(Keys(ns));
    AscendingIsUnique(SortKeys(Keys(ms)), SortKeys(Keys(ns)));
  }

  lemma {:induction false} DistinctCardinality(ks: seq<Text>)
    requires Distinct(ks)
    ensures |set k | k in ks| == |ks|
  {
    if ks != [] {
      DistinctCardinality(ks[1..]);
      assert ks == [ks[0]] + ks[1..];
      assert (set k | k in ks) == {ks[0]} + set k | k in ks[1..];
      assert ks[0] !in ks[1..];
    }
  }

  /** The same keys, with values of equal canonical form. */
  ghost predicate SameUpToCanon(ms: seq<Member>, ns: seq<Member>) {
    && |ms| == |ns|
    && (forall i :: 0 <= i < |ms| ==> ms[i].key in Keys(ns))
    && (forall i, j :: 0 <= i < |ms| && 0 <= j < |ns| && ms[i].key == ns[j].key ==>
          Canon(ms[i].val) == Canon(ns[j].val))
  }

  lemma SameUpToCanonMeansEqualCanon(ms: seq<Member>, ns: seq<Member>)
    requires Distinct(Keys(ms)) && Distinct(Keys(ns)) && SameUpToCanon(ms, ns)
    ensures Canon(Obj(ms)) == Canon(Obj(ns))
  {
    SameKeysSortAlike(ms, ns);
  }

  lemma EqualCanonMeansSameUpToCanon(ms: seq<Member>, ns: seq<Member>)
    requires Distinct(Keys(ms)) && Distinct(Keys(ns))
    requires Canon(Obj(ms)) == Canon(Obj(ns))
    ensures SameUpToCanon(ms, ns)
  {
    assert |ms| == |CanonMembers(SortKeys(Keys(ms)), ms)| == |ns|;
    forall i | 0 <= i < |ms| ensures ms[i].key in Keys(ns) {
      EqualCanonAtKey(ms, ns, i);
    }
    forall i, j | 0 <= i < |ms| && 0 <= j < |ns| && ms[i].key == ns[j].key
      ensures Canon(ms[i].val) == Canon(ns[j].val)
    {
      EqualCanonAtKey(ms, ns, i);
      IndexOfKeyIsUnique(ns, j);
    }
  }

  lemma {:induction false} IndexOfKeyIsUnique(ms: seq<Member>, i: nat)
    requires i < |ms| && Distinct(Keys(ms))
    ensures ms[i].key in Keys(ms) && IndexOfKey(ms, ms[i].key) == i
  {
  }

  lemma {:induction false} EqualCanonAtKey(ms: seq<Member>, ns: seq<Member>, i: nat)
    requires i < |ms| && Distinct(Keys(ms)) && Canon(Obj(ms)) == Canon(Obj(ns))
    ensures ms[i].key in Keys(ns)
    ensures Canon(ms[i].val) == Canon(ns[IndexOfKey(ns, ms[i].key)].val)
  {
    var ks, ls := SortKeys(Keys(ms)), SortKeys(Keys(ns));
    var cm, cn := CanonMembers(ks, ms), CanonMembers(ls, ns);
    assert cm == cn;
    IndexOfKeyIsUnique(ms, i);
    assert ms[i].key in ks;
    var p :| 0 <= p < |ks| && ks[p] == ms[i].key;
    assert cm[p].key == ls[p] && ls[p] in ls;
  }

  lemma CanonDecidesArrays(xs: seq<Json>, ys: seq<Json>)
    requires |xs| == |ys| ==> forall i :: 0 <= i < |xs| ==>
             (Canon(xs[i]) == Canon(ys[i]) <==> EqualUpToOrder(xs[i], ys[i]))
    ensures Canon(Arr(xs)) == Canon(Arr(ys)) <==> EqualUpToOrder(Arr(xs), Arr(ys))
  {
  }

  lemma EqualObjectsAreSameUpToCanon(ms: seq<Member>, ns: seq<Member>)
    requires forall i, j :: 0 <= i < |ms| && 0 <= j < |ns| ==>
               (Canon(ms[i].val) == Canon(ns[j].val) <==> EqualUpToOrder(ms[i].val, ns[j].val))
    ensures EqualUpToOrder(Obj(ms), Obj(ns)) <==> SameUpToCanon(ms, ns)
  {
  }

  lemma CanonDecidesObjects(ms: seq<Member>, ns: seq<Member>)
    requires WellFormed(Obj(ms)) && WellFormed(Obj(ns))
    requires forall i, j :: 0 <= i < |ms| && 0 <= j < |ns| ==>
               (Canon(ms[i].val) == Canon(ns[j].val) <==> EqualUpToOrder(ms[i].val, ns[j].val))
    ensures Canon(Obj(ms)) == Canon(Obj(ns)) <==> EqualUpToOrder(Obj(ms), Obj(ns))
  {
    EqualObjectsAreSameUpToCanon(ms, ns);
    if SameUpToCanon(ms, ns) {
      SameUpToCanonMeansEqualCanon(ms, ns);
    } else if Canon(Obj(ms)) == Canon(Obj(ns)) {
      EqualCanonMeansSameUpToCanon(ms, ns);
    }
  }

  lemma {:induction false} CanonDecidesEquality(a: Json, b: Json)
    requires WellFormed(a) && WellFormed(b)
    ensures Canon(a) == Canon(b) <==> EqualUpToOrder(a, b)
    decreases a
  {
    match (a, b)
    case (Arr(xs), Arr(ys)) =>
      forall i | 0 <= i < |xs| && |xs| == |ys|
        ensures Canon(xs[i]) == Canon(ys[i]) <==> EqualUpToOrder(xs[i], ys[i])
      {
        CanonDecidesEquality(xs[i], ys[i]);
      }
      CanonDecidesArrays(xs, ys);
    case (Obj(ms), Obj(ns)) =>
      forall i, j | 0 <= i < |ms| && 0 <= j < |ns|
        ensures Canon(ms[i].val) == Canon(ns[j].val) <==> EqualUpToOrder(ms[i].val, ns[j].val)
      {
        CanonDecidesEquality(ms[i].val, ns[j].val);
      }
      CanonDecidesObjects(ms, ns);
    case _ =>
  }

  /** Two values print to the same text exactly when they are equal up to key order. */
  lemma {:induction false} StringifyIsUnambiguous(a: Json, b: Json)
    requires WellFormed(a) && WellFormed(b)
    ensures StableStringify(a) == StableStringify(b) <==> EqualUpToOrder(a, b)
  {
    ParseInvertsStringify(a, []);
    ParseInvertsStringify(b, []);
    assert StableStringify(a) + [] == StableStringify(a) && StableStringify(b) + [] == StableStringify(b);
    CanonDecidesEquality(a, b);
    if EqualUpToOrder(a, b) {
      EqualCanonPrintsAlike(a, b);
    }
  }

  lemma {:induction false} EqualCanonPrintsAlike(a: Json, b: Json)
    requires WellFormed(a) && WellFormed(b) && EqualUpToOrder(a, b)
    ensures StableStringify(a) == StableStringify(b)
    decreases a, 0
  {
    match (a, b)
    case (Arr(xs), Arr(ys)) => EqualElementsPrintAlike(xs, ys);
    case (Obj(ms), Obj(ns)) =>
      SameKeysSortAlike(ms, ns);
      EqualMembersPrintAlike(SortKeys(Keys(ms)), ms, ns);
    case _ =>
  }

  lemma {:induction false} EqualElementsPrintAlike(xs: seq<Json>, ys: seq<Json>)
    requires |xs| == |ys| && (forall x :: x in xs ==> WellFormed(x)) && (forall y :: y in ys ==> WellFormed(y))
    requires forall i :: 0 <= i < |xs| ==> EqualUpToOrder(xs[i], ys[i])
    ensures JoinElements(xs) == JoinElements(ys)
    decreases xs, 0
  {
    if xs != [] {
      EqualCanonPrintsAlike(xs[0], ys[0]);
      EqualElementsPrintAlike(xs[1..], ys[1..]);
    }
  }

  lemma {:induction false} EqualMembersPrintAlike(ks: seq<Text>, ms: seq<Member>, ns: seq<Member>)
    requires WellFormed(Obj(ms)) && WellFormed(Obj(ns)) && EqualUpToOrder(Obj(ms), Obj(ns))
    requires forall k :: k in ks ==> k in Keys(ms) && k in Keys(ns)
    ensures JoinMembers(ks, ms) == JoinMembers(ks, ns)
    decreases ms, 1 + |ks|
  {
    if ks != [] {
      var m, n := ms[IndexOfKey(ms, ks[0])], ns[IndexOfKey(ns, ks[0])];
      assert m in ms && n in ns;
      EqualCanonPrintsAlike(m.val, n.val);
      EqualMembersPrintAlike(ks[1..], ms, ns);
    }
  }
}
