/** JavaScript strings: sequences of UTF-16 code units. */
module JsText {

  type CodeUnit = u: int | 0 <= u < 0x10000
  type Text = seq<CodeUnit>

  function Ascii(s: string): (t: Text)
    requires forall i :: 0 <= i < |s| ==> s[i] < 128 as char
  {
    seq(|s|, i requires 0 <= i < |s| => s[i] as int)
  }

  /** The white space that `String.prototype.trim` removes (ECMA-262, sections 12.2 and 12.3). */
  predicate IsSpace(u: CodeUnit) {
    || 0x09 <= u <= 0x0D || u == 0x20 || u == 0xA0 || u == 0x1680 || 0x2000 <= u <= 0x200A
    || u == 0x2028 || u == 0x2029 || u == 0x202F || u == 0x205F || u == 0x3000 || u == 0xFEFF
  }

  /** Tab, line feed, vertical tab, form feed, carriage return, the space separators of Unicode, the two separators of
      lines and paragraphs, and the byte order mark. */
  lemma WhiteSpaceOfEcma262(u: CodeUnit)
    ensures IsSpace(u) <==>
      u in {9, 10, 11, 12, 13, 32, 160, 5760, 8192, 8193, 8194, 8195, 8196, 8197, 8198, 8199, 8200, 8201, 8202, 8232,
            8233, 8239, 8287, 12288, 65279}
  {
  }

  function Trim(s: Text): (r: Text)
    ensures r != [] ==> !IsSpace(r[0]) && !IsSpace(r[|r| - 1])
  {
    if s != [] && IsSpace(s[0]) then Trim(s[1..])
    else if s != [] && IsSpace(s[|s| - 1]) then Trim(s[..|s| - 1])
    else s
  }

  predicate AllSpace(s: Text) { forall i :: 0 <= i < |s| ==> IsSpace(s[i]) }

  /** The text is `middle` with white space around it. */
  predicate Padded(s: Text, front: Text, middle: Text, back: Text) {
    s == front + middle + back && AllSpace(front) && AllSpace(back)
  }

  lemma TrimFrontStep(s: Text, middle: Text, front: Text, back: Text)
    requires s != [] && IsSpace(s[0]) && Padded(s[1..], front, middle, back)
    ensures Padded(s, [s[0]] + front, middle, back)
  {
    assert s == [s[0]] + (front + middle + back) == ([s[0]] + front) + middle + back;
  }

  lemma TrimBackStep(s: Text, middle: Text, front: Text, back: Text)
    requires s != [] && IsSpace(s[|s| - 1]) && Padded(s[..|s| - 1], front, middle, back)
    ensures Padded(s, front, middle, back + [s[|s| - 1]])
  {
    assert s == (front + middle + back) + [s[|s| - 1]] == front + middle + (back + [s[|s| - 1]]);
  }

  /** Trimming takes white space from both ends, all of it, and nothing else. */
  lemma {:induction false} TrimTakesOuterSpace(s: Text) returns (front: Text, back: Text)
    ensures Padded(s, front, Trim(s), back)
    ensures Trim(s) != [] ==> !IsSpace(Trim(s)[0]) && !IsSpace(Trim(s)[|Trim(s)| - 1])
    decreases |s|
  {
    if s != [] && IsSpace(s[0]) {
      var inner, last := TrimTakesOuterSpace(s[1..]);
      TrimFrontStep(s, Trim(s[1..]), inner, last);
      return [s[0]] + inner, last;
    }
    if s != [] && IsSpace(s[|s| - 1]) {
      var first, inner := TrimTakesOuterSpace(s[..|s| - 1]);
      TrimBackStep(s, Trim(s[..|s| - 1]), first, inner);
      return first, inner + [s[|s| - 1]];
    }
    return [], [];
  }

  // ----- Decimal numerals -----

  function Digits(n: nat): (r: Text)
    ensures r != [] && forall i :: 0 <= i < |r| ==> IsDigit(r[i])
  {
    if n < 10 then [0x30 + n] else Digits(n / 10) + [0x30 + n % 10]
  }

  predicate IsDigit(u: CodeUnit) { 0x30 <= u <= 0x39 }

  function DigitsValue(ds: Text): nat
    requires forall i :: 0 <= i < |ds| ==> IsDigit(ds[i])
  {
    if ds == [] then 0 else
      assert IsDigit(ds[|ds| - 1]);
      DigitsValue(ds[..|ds| - 1]) * 10 + (ds[|ds| - 1] - 0x30)
  }

  lemma {:induction false} DigitsValueInverts(n: nat)
    ensures DigitsValue(Digits(n)) == n && (n > 0 ==> Digits(n)[0] != 0x30)
  {
    if n >= 10 {
      DigitsValueInverts(n / 10);
      assert Digits(n)[..|Digits(n)| - 1] == Digits(n / 10);
    } else {
      assert Digits(n)[..0] == [];
    }
  }
}
