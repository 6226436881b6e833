/** Field keys made from captions. */
module SnakeCase {
  import opened JsText
  import FormKeys

  /** The units of `[a-z0-9_]`. */
  predicate IsPlain(u: CodeUnit) { 0x61 <= u <= 0x7A || 0x30 <= u <= 0x39 || u == FormKeys.UNDERSCORE }

  predicate AllPlain(s: Text) { forall i :: 0 <= i < |s| ==> IsPlain(s[i]) }

  /** Removes accents and every other unit that is neither plain nor white space. */
  function KeepPlainOrSpace(s: Text): (r: Text)
    ensures forall i :: 0 <= i < |r| ==> IsPlain(r[i]) || IsSpace(r[i])
  {
    if s == [] then [] else (if IsPlain(s[0]) || IsSpace(s[0]) then [s[0]] else []) + KeepPlainOrSpace(s[1..])
  }

  function DropSpaces(s: Text): (r: Text)
    ensures |r| <= |s| && forall i :: 0 <= i < |r| ==> r[i] in s
  {
    if s != [] && IsSpace(s[0]) then DropSpaces(s[1..]) else s
  }

  /** Every run of white space becomes one underscore. */
  function Underscored(s: Text): Text
    decreases |s|
  {
    if s == [] then []
    else if IsSpace(s[0]) then [FormKeys.UNDERSCORE] + Underscored(DropSpaces(s[1..]))
    else [s[0]] + Underscored(s[1..])
  }

  /** `normal` stands for lower-casing and canonical decomposition. */
  function ToSnakeCase(s: Text, normal: Text -> Text): Text {
    Underscored(Trim(KeepPlainOrSpace(normal(s))))
  }

  lemma {:induction false} TrimTakes(s: Text)
    ensures forall i :: 0 <= i < |Trim(s)| ==> Trim(s)[i] in s
  {
    if s != [] && IsSpace(s[0]) {
      TrimTakes(s[1..]);
    } else if s != [] && IsSpace(s[|s| - 1]) {
      TrimTakes(s[..|s| - 1]);
    }
  }

  lemma {:induction false} UnderscoredIsPlain(s: Text)
    requires forall i :: 0 <= i < |s| ==> IsPlain(s[i]) || IsSpace(s[i])
    ensures AllPlain(Underscored(s)) && (s != [] ==> Underscored(s) != [])
    decreases |s|
  {
    if s != [] {
      UnderscoredIsPlain(if IsSpace(s[0]) then DropSpaces(s[1..]) else s[1..]);
    }
  }

  /** A generated key has only lower-case letters, digits and underscores. */
  lemma SnakeCaseIsPlain(s: Text, normal: Text -> Text)
    ensures AllPlain(ToSnakeCase(s, normal))
  {
    TrimTakes(KeepPlainOrSpace(normal(s)));
    UnderscoredIsPlain(Trim(KeepPlainOrSpace(normal(s))));
  }

  lemma {:induction false} PlainStays(s: Text)
    requires AllPlain(s)
    ensures KeepPlainOrSpace(s) == s && Trim(s) == s && Underscored(s) == s
  {
    if s != [] {
      PlainStays(s[1..]);
      assert s == [s[0]] + s[1..];
    }
  }

  /** Making a key from a generated key gives it back, when normalization leaves plain text alone. */
  lemma SnakeCaseIsIdempotent(s: Text, normal: Text -> Text)
    requires normal(ToSnakeCase(s, normal)) == ToSnakeCase(s, normal)
    ensures ToSnakeCase(ToSnakeCase(s, normal), normal) == ToSnakeCase(s, normal)
  {
    SnakeCaseIsPlain(s, normal);
    PlainStays(ToSnakeCase(s, normal));
  }

  /** The key a field asks for is never empty and never has outer white space, whatever it came with. */
  lemma BaseKeyIsUsable(f: FormKeys.Field, normal: Text -> Text)
    ensures var key := FormKeys.BaseKey(f, (s: Text) => ToSnakeCase(s, normal)); key != [] && Trim(key) == key
  {
    if f.key.Some? && Trim(f.key.value) != [] {
    } else {
      SnakeCaseIsPlain(f.caption, normal);
      PlainStays(ToSnakeCase(f.caption, normal));
    }
  }

  // ----- The key in closed form -----

  /** What is kept of one unit: a lower-case letter, a digit, an underscore or white space. */
  lemma KeepsUnit(u: CodeUnit)
    ensures KeepPlainOrSpace([u]) ==
            if 0x61 <= u <= 0x7A || 0x30 <= u <= 0x39 || u == 0x5F || IsSpace(u) then [u] else []
  {
    assert [u][1..] == [];
  }

  lemma {:induction false} KeepsFirst(u: CodeUnit, s: Text)
    ensures KeepPlainOrSpace([u] + s) == KeepPlainOrSpace([u]) + KeepPlainOrSpace(s)
  {
    assert ([u] + s)[1..] == s && [u][1..] == [];
  }

  lemma Regrouped(a: Text, b: Text, c: Text)
    ensures (a + b) + c == a + (b + c)
  {
  }

  /** What is kept of a text is what is kept of its units, in place. */
  lemma {:induction false} KeepsInPlace(s: Text, t: Text)
    ensures KeepPlainOrSpace(s + t) == KeepPlainOrSpace(s) + KeepPlainOrSpace(t)
  {
    if s == [] {
      assert s + t == t;
    } else {
      var u, rest := s[0], s[1..];
      KeepsInPlace(rest, t);
      KeepsFirst(u, rest);
      KeepsFirst(u, rest + t);
      assert [u] + rest == s && [u] + (rest + t) == s + t;
      Regrouped(KeepPlainOrSpace([u]), KeepPlainOrSpace(rest), KeepPlainOrSpace(t));
    }
  }

  /** Words of plain units, and the white space between them. */
  predicate WordsAndGaps(words: seq<Text>, gaps: seq<Text>) {
    && |gaps| == (if words == [] then 0 else |words| - 1)
    && (forall i :: 0 <= i < |words| ==> words[i] != [] && AllPlain(words[i]))
    && (forall i :: 0 <= i < |gaps| ==> gaps[i] != [] && AllSpace(gaps[i]))
  }

  function Spread(words: seq<Text>, gaps: seq<Text>): Text
    requires |gaps| == if words == [] then 0 else |words| - 1
  {
    if words == [] then [] else if |words| == 1 then words[0] else words[0] + gaps[0] + Spread(words[1..], gaps[1..])
  }

  function Joined(words: seq<Text>): Text {
    if words == [] then [] else if |words| == 1 then words[0] else words[0] + [0x5F] + Joined(words[1..])
  }

  lemma OneMoreSpace(u: CodeUnit, s: Text, gap: Text, rest: Text)
    requires s == gap + rest && AllSpace(gap) && IsSpace(u)
    ensures [u] + s == ([u] + gap) + rest && AllSpace([u] + gap)
  {
  }

  lemma {:induction false} DropsSpaces(s: Text) returns (gap: Text)
    ensures s == gap + DropSpaces(s) && AllSpace(gap)
    ensures DropSpaces(s) != [] ==> !IsSpace(DropSpaces(s)[0])
    ensures s != [] && IsSpace(s[0]) ==> gap != []
  {
    if s != [] && IsSpace(s[0]) {
      var inner := DropsSpaces(s[1..]);
      gap := [s[0]] + inner;
      OneMoreSpace(s[0], s[1..], inner, DropSpaces(s[1..]));
    } else {
      gap := [];
    }
  }

  /** One more unit in front of the first word. */
  lemma {:induction false} LongerWord(u: CodeUnit, words: seq<Text>, gaps: seq<Text>)
    requires WordsAndGaps(words, gaps) && words != [] && IsPlain(u)
    ensures var longer := [[u] + words[0]] + words[1..];
            && WordsAndGaps(longer, gaps)
            && Spread(longer, gaps) == [u] + Spread(words, gaps) && Joined(longer) == [u] + Joined(words)
  {
    var longer := [[u] + words[0]] + words[1..];
    assert longer[1..] == words[1..];
    if |words| > 1 {
      assert ([u] + words[0]) + gaps[0] + Spread(words[1..], gaps[1..])
          == [u] + (words[0] + gaps[0] + Spread(words[1..], gaps[1..]));
      assert ([u] + words[0]) + [0x5F] + Joined(words[1..]) == [u] + (words[0] + [0x5F] + Joined(words[1..]));
    }
  }

  /** One more word in front. */
  lemma {:induction false} OneMoreWord(u: CodeUnit, gap: Text, words: seq<Text>, gaps: seq<Text>)
    requires WordsAndGaps(words, gaps) && words != [] && IsPlain(u) && gap != [] && AllSpace(gap)
    ensures var more, wider := [[u]] + words, [gap] + gaps;
            && WordsAndGaps(more, wider)
            && Spread(more, wider) == [u] + gap + Spread(words, gaps) && Joined(more) == [u] + ([0x5F] + Joined(words))
  {
    assert ([[u]] + words)[1..] == words && ([gap] + gaps)[1..] == gaps;
    assert [u] + [0x5F] + Joined(words) == [u] + ([0x5F] + Joined(words));
  }

  /** Plain units and white space, with none at the ends. */
  predicate Trimmed(t: Text) {
    && (forall i :: 0 <= i < |t| ==> IsPlain(t[i]) || IsSpace(t[i]))
    && (t != [] ==> !IsSpace(t[0]) && !IsSpace(t[|t| - 1]))
  }

  lemma RestIsTrimmed(t: Text, u: CodeUnit, gap: Text, rest: Text)
    requires Trimmed(t) && t == [u] + gap + rest && gap != [] && AllSpace(gap) && (rest != [] ==> !IsSpace(rest[0]))
    ensures rest != [] && Trimmed(rest)
  {
    var n := 1 + |gap|;
    assert t[n..] == rest && t[|gap|] == gap[|gap| - 1];
    assert rest != [] ==> t[|t| - 1] == rest[|rest| - 1];
    assert forall i :: 0 <= i < |rest| ==> rest[i] == t[n + i];
  }

  lemma {:induction false} UnderscoreForGap(t: Text)
    requires |t| > 1 && !IsSpace(t[0]) && IsSpace(t[1])
    ensures Underscored(t) == [t[0]] + ([0x5F] + Underscored(DropSpaces(t[1..])))
  {
    assert t[1..][1..] == t[2..];
  }

  lemma SplitAtGap(t: Text) returns (gap: Text, rest: Text)
    requires |t| > 1 && IsSpace(t[1])
    ensures t == [t[0]] + gap + rest && gap != [] && AllSpace(gap) && rest == DropSpaces(t[1..])
    ensures rest != [] ==> !IsSpace(rest[0])
  {
    gap := DropsSpaces(t[1..]);
    rest := DropSpaces(t[1..]);
    assert t == [t[0]] + (gap + rest);
  }

  lemma GapAfterFirst(t: Text) returns (gap: Text, rest: Text)
    requires |t| > 1 && Trimmed(t) && IsSpace(t[1])
    ensures t == [t[0]] + gap + rest && gap != [] && AllSpace(gap) && rest != [] && Trimmed(rest)
    ensures Underscored(t) == [t[0]] + ([0x5F] + Underscored(rest))
  {
    gap, rest := SplitAtGap(t);
    UnderscoreForGap(t);
    RestIsTrimmed(t, t[0], gap, rest);
  }

  lemma {:induction false} UnderscoredInWords(t: Text) returns (words: seq<Text>, gaps: seq<Text>)
    requires Trimmed(t)
    ensures WordsAndGaps(words, gaps) && Spread(words, gaps) == t && Joined(words) == Underscored(t)
    ensures t != [] ==> words != []
    decreases |t|
  {
    if |t| <= 1 {
      words, gaps := if t == [] then [] else [t], [];
      assert t != [] ==> t == [t[0]] && t[1..] == [];
    } else if !IsSpace(t[1]) {
      words, gaps := UnderscoredInWords(t[1..]);
      LongerWord(t[0], words, gaps);
      words := [[t[0]] + words[0]] + words[1..];
      assert t == [t[0]] + t[1..];
    } else {
      var gap, rest := GapAfterFirst(t);
      words, gaps := UnderscoredInWords(rest);
      OneMoreWord(t[0], gap, words, gaps);
      words, gaps := [[t[0]]] + words, [gap] + gaps;
    }
  }

  /** A key made from a caption is its words, of the letters, digits and underscores that are kept, with one underscore
      for whatever white space is between them. */
  lemma SnakeCaseInWords(s: Text, normal: Text -> Text)
    returns (front: Text, words: seq<Text>, gaps: seq<Text>, back: Text)
    ensures WordsAndGaps(words, gaps) && Padded(KeepPlainOrSpace(normal(s)), front, Spread(words, gaps), back)
    ensures ToSnakeCase(s, normal) == Joined(words)
  {
    var kept := KeepPlainOrSpace(normal(s));
    front, back := TrimTakesOuterSpace(kept);
    TrimTakes(kept);
    words, gaps := UnderscoredInWords(Trim(kept));
  }
}
