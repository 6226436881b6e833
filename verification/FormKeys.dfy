/** Making the keys of a template's fields unique. */
module FormKeys {
  import opened Wrappers
  import opened JsText

  datatype Field = Field(key: Option<Text>, caption: Text)

  const UNDERSCORE: CodeUnit := 0x5F

  /** The key a field asks for: its own, else one made from its caption, else a fixed one.
      `snake` is the conversion of captions to snake case. */
  function BaseKey(f: Field, snake: Text -> Text): Text {
    if f.key.Some? && Trim(f.key.value) != [] then Trim(f.key.value)
    else if snake(f.caption) != [] then snake(f.caption)
    else Ascii("campo")
  }

  function BaseKeys(fields: seq<Field>, snake: Text -> Text): seq<Text> {
    seq(|fields|, i requires 0 <= i < |fields| => BaseKey(fields[i], snake))
  }

  function Count(bs: seq<Text>, k: Text): nat {
    if bs == [] then 0 else Count(bs[..|bs| - 1], k) + if bs[|bs| - 1] == k then 1 else 0
  }

  /** The first occurrence keeps the base key; the n-th gets the suffix `_n`. */
  function Suffixed(b: Text, n: nat): Text {
    if n <= 1 then b else b + [UNDERSCORE] + Digits(n)
  }

  /** Which occurrence of its base key position `i` holds. */
  function Occurrence(bs: seq<Text>, i: nat): nat
    requires i < |bs|
  {
    Count(bs[..i + 1], bs[i])
  }

  function KeyAt(bs: seq<Text>, i: nat): Text
    requires i < |bs|
  {
    Suffixed(bs[i], Occurrence(bs, i))
  }

  function KeysOf(bs: seq<Text>): (ks: seq<Text>)
    ensures |ks| == |bs|
  {
    seq(|bs|, i requires 0 <= i < |bs| => KeyAt(bs, i))
  }

  predicate NoRepeats(ks: seq<Text>) {
    forall i, j :: 0 <= i < j < |ks| ==> ks[i] != ks[j]
  }

  /** The fields with the key that each position gets. */
  function Rekeyed(fields: seq<Field>, bs: seq<Text>): seq<Field>
    requires |fields| == |bs|
  {
    seq(|fields|, i requires 0 <= i < |fields| => fields[i].(key := Some(KeyAt(bs, i))))
  }

  /** The map of keys seen holds how often each base key has occurred. */
  ghost predicate Tallies(seen: map<Text, nat>, bs: seq<Text>) {
    forall k :: (k in seen <==> Count(bs, k) > 0) && (k in seen ==> seen[k] == Count(bs, k))
  }

  lemma {:induction false} CountSnoc(bs: seq<Text>, n: nat, k: Text)
    requires n < |bs|
    ensures Count(bs[..n + 1], k) == Count(bs[..n], k) + if bs[n] == k then 1 else 0
  {
    assert bs[..n + 1][..n] == bs[..n];
  }

  lemma TallyStep(seen: map<Text, nat>, bs: seq<Text>, n: nat)
    requires n < |bs| && Tallies(seen, bs[..n])
    ensures Occurrence(bs, n) == if bs[n] in seen then seen[bs[n]] + 1 else 1
    ensures Tallies(seen[bs[n] := Occurrence(bs, n)], bs[..n + 1])
  {
    CountSnoc(bs, n, bs[n]);
    forall k ensures Count(bs[..n + 1], k) == Count(bs[..n], k) + if bs[n] == k then 1 else 0 {
      CountSnoc(bs, n, k);
    }
  }

  // ----- The keys in closed form -----

  /** The base key: the field's own key without outer white space, if that leaves anything; else one made from its
      caption, if that gives anything; else the word for a field. */
  predicate AsksFor(f: Field, snake: Text -> Text, b: Text) {
    match f.key
    case Some(key) => if AllSpace(key) then MadeFrom(snake(f.caption), b) else b == Trim(key)
    case None => MadeFrom(snake(f.caption), b)
  }

  predicate AskFor(fields: seq<Field>, snake: Text -> Text, bs: seq<Text>) {
    |bs| == |fields| && forall i :: 0 <= i < |bs| ==> AsksFor(fields[i], snake, bs[i])
  }

  /** The first position with a base key has that key; one after `n` others has it with an underscore and n + 1. */
  predicate NumberedAt(bs: seq<Text>, i: nat, key: Text)
    requires i < |bs|
  {
    var earlier := |set j | 0 <= j < i && bs[j] == bs[i]|;
    key == if earlier == 0 then bs[i] else bs[i] + [0x5F] + Digits(earlier + 1)
  }

  predicate MadeFrom(made: Text, b: Text) {
    b == if |made| > 0 then made else [0x63, 0x61, 0x6D, 0x70, 0x6F]
  }

  lemma {:induction false} AllSpaceIffTrimsAway(s: Text)
    ensures AllSpace(s) <==> Trim(s) == []
  {
    var front, back := TrimTakesOuterSpace(s);
    if Trim(s) != [] {
      assert s[|front|] == Trim(s)[0];
    }
  }

  lemma BaseKeyIsAskedFor(f: Field, snake: Text -> Text)
    ensures AsksFor(f, snake, BaseKey(f, snake))
  {
    if f.key.Some? {
      AllSpaceIffTrimsAway(f.key.value);
    }
  }

  lemma {:induction false} CountIsCardinality(bs: seq<Text>, n: nat, k: Text)
    requires n <= |bs|
    ensures Count(bs[..n], k) == |set j | 0 <= j < n && bs[j] == k|
  {
    var here := set j | 0 <= j < n && bs[j] == k;
    if n == 0 {
      assert here == {};
    } else {
      CountIsCardinality(bs, n - 1, k);
      CountSnoc(bs, n - 1, k);
      OneMorePosition(bs, n - 1, k);
    }
  }

  lemma OneMorePosition(bs: seq<Text>, n: nat, k: Text)
    requires n < |bs|
    ensures |set j | 0 <= j < n + 1 && bs[j] == k| == |set j | 0 <= j < n && bs[j] == k| + if bs[n] == k then 1 else 0
  {
    var here, before := set j | 0 <= j < n + 1 && bs[j] == k, set j | 0 <= j < n && bs[j] == k;
    if bs[n] == k {
      assert here == before + {n};
    } else {
      assert here == before;
    }
  }

  lemma KeysAreNumbered(fields: seq<Field>, snake: Text -> Text, bs: seq<Text>, i: nat)
    requires AskFor(fields, snake, bs) && i < |bs|
    ensures NumberedAt(bs, i, KeyAt(BaseKeys(fields, snake), i))
  {
    forall j | 0 <= j < |bs| ensures bs[j] == BaseKeys(fields, snake)[j] {
      BaseKeyIsAskedFor(fields[j], snake);
    }
    assert bs == BaseKeys(fields, snake);
    CountSnoc(bs, i, bs[i]);
    CountIsCardinality(bs, i, bs[i]);
  }

  // ----- The traversal -----

  /** The same fields, each with its numbered key. */
  method EnsureUniqueKeys(fields: seq<Field>, snake: Text -> Text) returns (out: seq<Field>)
    ensures out == Rekeyed(fields, BaseKeys(fields, snake))
    ensures |out| == |fields| && forall i :: 0 <= i < |out| ==> out[i].caption == fields[i].caption
    ensures forall bs :: AskFor(fields, snake, bs) ==>
              forall i :: 0 <= i < |out| ==> out[i].key.Some? && NumberedAt(bs, i, out[i].key.value)
  {
    ghost var bs := BaseKeys(fields, snake);
    var seen: map<Text, nat> := map[];
    out := [];
    for n := 0 to |fields|
      invariant out == Rekeyed(fields, bs)[..n]
      invariant Tallies(seen, bs[..n])
    {
      var key := BaseKey(fields[n], snake);
      TallyStep(seen, bs, n);
      if key in seen {
        var count := seen[key] + 1;
        seen := seen[key := count];
        key := Suffixed(key, count);
      } else {
        seen := seen[key := 1];
      }
      out := out + [fields[n].(key := Some(key))];
    }
    forall asked, i | AskFor(fields, snake, asked) && 0 <= i < |out|
      ensures out[i].key.Some? && NumberedAt(asked, i, out[i].key.value)
    {
      KeysAreNumbered(fields, snake, asked, i);
    }
  }

  // ----- Suffixes -----

  lemma SuffixNotLonger(b: Text, x: Text, c: Text, y: Text)
    requires forall i :: 0 <= i < |y| ==> IsDigit(y[i])
    requires b + [UNDERSCORE] + x == c + [UNDERSCORE] + y
    ensures |b| <= |c|
  {
    var s := c + [UNDERSCORE] + y;
    assert !IsDigit((b + [UNDERSCORE] + x)[|b|]);
    forall i | |c| < i < |s| ensures IsDigit(s[i]) {
      assert s[i] == y[i - |c| - 1];
    }
  }

  /** A generated key determines its base key and its number. */
  lemma SuffixedIsInjective(b: Text, n: nat, c: Text, m: nat)
    requires n >= 2 && m >= 2 && Suffixed(b, n) == Suffixed(c, m)
    ensures b == c && n == m
  {
    SuffixNotLonger(b, Digits(n), c, Digits(m));
    SuffixNotLonger(c, Digits(m), b, Digits(n));
    var s := Suffixed(b, n);
    assert b == s[..|b|] && c == s[..|c|];
    assert Digits(n) == s[|b| + 1..] && Digits(m) == s[|c| + 1..];
    DigitsValueInverts(n);
    DigitsValueInverts(m);
  }

  lemma {:induction false} CountGrows(bs: seq<Text>, i: nat, j: nat, k: Text)
    requires i <= j <= |bs|
    ensures Count(bs[..i], k) <= Count(bs[..j], k)
    decreases j
  {
    if i < j {
      CountGrows(bs, i, j - 1, k);
      assert bs[..j][..j - 1] == bs[..j - 1];
    }
  }

  lemma {:induction false} OccurrenceIsPositive(bs: seq<Text>, i: nat)
    requires i < |bs|
    ensures 1 <= Occurrence(bs, i) <= Count(bs, bs[i])
    ensures Occurrence(bs, i) == Count(bs[..i], bs[i]) + 1
  {
    assert bs[..i + 1][..i] == bs[..i];
    CountGrows(bs, i + 1, |bs|, bs[i]);
    assert bs[..|bs|] == bs;
  }

  /** Later occurrences of the same base key have larger numbers. */
  lemma OccurrencesIncrease(bs: seq<Text>, i: nat, j: nat)
    requires i < j < |bs| && bs[i] == bs[j]
    ensures Occurrence(bs, i) < Occurrence(bs, j)
  {
    OccurrenceIsPositive(bs, j);
    CountGrows(bs, i + 1, j, bs[i]);
  }

  /** Generated keys never collide with each other. */
  lemma GeneratedKeysDiffer(bs: seq<Text>, i: nat, j: nat)
    requires i < j < |bs| && Occurrence(bs, i) >= 2 && Occurrence(bs, j) >= 2
    ensures KeyAt(bs, i) != KeyAt(bs, j)
  {
    if KeyAt(bs, i) == KeyAt(bs, j) {
      SuffixedIsInjective(bs[i], Occurrence(bs, i), bs[j], Occurrence(bs, j));
      OccurrencesIncrease(bs, i, j);
    }
  }

  lemma {:induction false} FindOccurrence(bs: seq<Text>, b: Text, n: nat) returns (q: nat)
    requires 1 <= n <= Count(bs, b)
    ensures q < |bs| && bs[q] == b && Occurrence(bs, q) == n
  {
    var init, last := bs[..|bs| - 1], |bs| - 1;
    if n <= Count(init, b) {
      q := FindOccurrence(init, b, n);
      assert init[..q + 1] == bs[..q + 1];
    } else {
      q := last;
      assert bs[..q + 1] == bs;
    }
  }

  /** A base key that occurs at least `n` times while its n-th generated key also occurs as a base key. */
  predicate Clash(bs: seq<Text>, b: Text, n: nat) {
    2 <= n <= Count(bs, b) && Count(bs, Suffixed(b, n)) > 0
  }

  ghost predicate NoClash(bs: seq<Text>) {
    forall b, n :: !Clash(bs, b, n)
  }

  lemma CollisionMeansClash(bs: seq<Text>, i: nat, j: nat)
    requires i < |bs| && j < |bs| && i != j && KeyAt(bs, i) == KeyAt(bs, j)
    ensures exists b, n :: Clash(bs, b, n)
  {
    OccurrenceIsPositive(bs, i);
    OccurrenceIsPositive(bs, j);
    if Occurrence(bs, i) >= 2 && Occurrence(bs, j) >= 2 {
      if i < j { GeneratedKeysDiffer(bs, i, j); } else { GeneratedKeysDiffer(bs, j, i); }
    } else if Occurrence(bs, i) >= 2 {
      assert Clash(bs, bs[i], Occurrence(bs, i));
    } else if Occurrence(bs, j) >= 2 {
      assert Clash(bs, bs[j], Occurrence(bs, j));
    } else {
      if i < j { OccurrencesIncrease(bs, i, j); } else { OccurrencesIncrease(bs, j, i); }
    }
  }

  lemma ClashMeansCollision(bs: seq<Text>, b: Text, n: nat)
    requires Clash(bs, b, n)
    ensures !NoRepeats(KeysOf(bs))
  {
    var q := FindOccurrence(bs, b, n);
    var p := FindOccurrence(bs, Suffixed(b, n), 1);
    assert |bs[p]| > |bs[q]|;
    assert KeysOf(bs)[p] == KeysOf(bs)[q];
    assert p < q || q < p;
  }

  /** The keys come out distinct exactly when no base key equals a key generated for another one. */
  lemma DistinctIffNoClash(bs: seq<Text>)
    ensures NoRepeats(KeysOf(bs)) <==> NoClash(bs)
  {
    if b, n :| Clash(bs, b, n) {
      ClashMeansCollision(bs, b, n);
    } else {
      forall i, j | 0 <= i < j < |bs| ensures KeyAt(bs, i) != KeyAt(bs, j) {
        if KeyAt(bs, i) == KeyAt(bs, j) {
          CollisionMeansClash(bs, i, j);
        }
      }
    }
  }

  lemma {:induction false} CountAbsent(bs: seq<Text>, k: Text)
    requires k !in bs
    ensures Count(bs, k) == 0
  {
    if bs != [] {
      CountAbsent(bs[..|bs| - 1], k);
    }
  }

  /** Keys that are already distinct, trimmed and non-empty come out unchanged. */
  lemma DistinctKeysAreKept(fields: seq<Field>, snake: Text -> Text, i: nat)
    requires i < |fields|
    requires forall j :: 0 <= j < |fields| ==>
             fields[j].key.Some? && fields[j].key.value != [] && Trim(fields[j].key.value) == fields[j].key.value
    requires forall j, k :: 0 <= j < k < |fields| ==> fields[j].key != fields[k].key
    ensures Some(KeyAt(BaseKeys(fields, snake), i)) == fields[i].key
  {
    var bs := BaseKeys(fields, snake);
    OccurrenceIsPositive(bs, i);
    CountAbsent(bs[..i], bs[i]);
  }
}
