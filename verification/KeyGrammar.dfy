/** Which action keys are legal and why the others are not, and what the duration of a grant says, read off the text. */
module KeyGrammar {

  import opened ActionKeys
  import opened Options
  import opened Texts

  // ----- keys

  /** A class with as many components as it declares, each of them carriable. */
  predicate Complete(actionClass: string, values: seq<string>) {
    actionClass in CLASSES && |values| == |CLASSES[actionClass]| && forall i :: 0 <= i < |values| ==> Carriable(values[i])
  }

  lemma PartsJoin(raw: string, c: string, values: seq<string>)
    requires Split(raw, ':') == [c] + values
    ensures raw == KeyOf(c, values) && Without(c, ':') && forall i :: 0 <= i < |values| ==> Without(values[i], ':')
  {
    hide Split, Without, Join;
    var parts := Split(raw, ':');
    JoinSplit(raw, ':');
    SplitParts(raw, ':');
    assert parts[0] == c && forall i :: 0 <= i < |values| ==> parts[i + 1] == values[i];
  }

  lemma LegalIsComplete(key: string)
    requires ParseKey(key).Legal?
    ensures var p := ParseKey(key).parsed; Complete(p.actionClass, p.values) && Trim(key) == KeyOf(p.actionClass, p.values)
  {
    hide Split, Trim, Without, HasControl, KeyOf;
    var parts := Split(Trim(key), ':');
    assert parts == [parts[0]] + parts[1..];
    PartsJoin(Trim(key), parts[0], parts[1..]);
  }

  lemma CompleteIsLegal(key: string, c: string, values: seq<string>)
    requires Complete(c, values) && Trim(key) == KeyOf(c, values)
    ensures ParseKey(key).Legal?
  {
    hide Split, Trim, Carriable, HasControl, KeyOf;
    SplitsBack(c, values);
    NothingAmiss(values);
  }

  /** A key is legal exactly if what it holds between blanks names a class and all of its components. */
  lemma LegalIff(key: string)
    ensures ParseKey(key).Legal? <==> exists c, values :: Complete(c, values) && Trim(key) == KeyOf(c, values)
    ensures ParseKey(key).Legal? ==> Complete(ParseKey(key).parsed.actionClass, ParseKey(key).parsed.values)
  {
    hide ParseKey, Complete, Trim, KeyOf;
    if ParseKey(key).Legal? { LegalIsComplete(key); }
    if c, values :| Complete(c, values) && Trim(key) == KeyOf(c, values) { CompleteIsLegal(key, c, values); }
  }

  lemma SplitsBack(c: string, values: seq<string>)
    requires Complete(c, values)
    ensures Split(KeyOf(c, values), ':') == [c] + values && ([c] + values)[1..] == values
  {
    var parts := [c] + values;
    hide Trim, HasControl;
    ClassNames(c);
    forall i | 0 <= i < |parts| ensures Without(parts[i], ':') {
      if i > 0 { assert Carriable(values[i - 1]) && parts[i] == values[i - 1]; }
    }
    SplitJoin(parts, ':');
  }

  /** The parts of a key between its colons. */
  function Parts(key: string): (parts: seq<string>)
    ensures parts != []
  {
    Split(Trim(key), ':')
  }

  /** The first thing wrong with an illegal key, in this order. */
  lemma CodeTells(key: string)
    requires ParseKey(key).Illegal?
    ensures
      var code, c, values := ParseKey(key).code, Parts(key)[0], Parts(key)[1..];
      var blank, control := exists i :: 0 <= i < |values| && Trim(values[i]) == "", exists i :: 0 <= i < |values| && HasControl(values[i]);
      && (code == UnknownClass <==> c !in CLASSES)
      && (c in CLASSES ==>
            && (code == MissingComponent <==> |values| < |CLASSES[c]|)
            && (code == ExtraComponent <==> |values| > |CLASSES[c]|)
            && (code == EmptyComponent <==> |values| == |CLASSES[c]| && blank)
            && (code == ControlCharacter <==> |values| == |CLASSES[c]| && !blank && control))
  {
  }

  /** The code points of the Unicode categories Cc, the first two, and Cf. */
  const CONTROLS: seq<(int, int)> := [
    (0, 0x1F), (0x7F, 0x9F), (0xAD, 0xAD), (0x600, 0x605), (0x61C, 0x61C), (0x6DD, 0x6DD), (0x70F, 0x70F), (0x890, 0x891), (0x8E2, 0x8E2), (0x180E, 0x180E),
    (0x200B, 0x200F), (0x202A, 0x202E), (0x2060, 0x2064), (0x2066, 0x206F), (0xFEFF, 0xFEFF), (0xFFF9, 0xFFFB), (0x110BD, 0x110BD), (0x110CD, 0x110CD),
    (0x13430, 0x1343F), (0x1BCA0, 0x1BCA3), (0x1D173, 0x1D17A), (0xE0001, 0xE0001), (0xE0020, 0xE007F)
  ]

  /** A component holds a control character exactly if one of its characters is in one of these ranges. */
  lemma HasControlIff(s: string)
    ensures HasControl(s) <==> exists c, k :: c in s && 0 <= k < |CONTROLS| && CONTROLS[k].0 <= c as int <= CONTROLS[k].1
  {
    hide IsControl;
    forall c ensures IsControl(c) <==> exists k :: 0 <= k < |CONTROLS| && CONTROLS[k].0 <= c as int <= CONTROLS[k].1 { ControlIff(c); }
    if HasControl(s) {
      var i :| 0 <= i < |s| && IsControl(s[i]);
      assert s[i] in s;
    }
  }

  lemma ControlIff(c: char)
    ensures IsControl(c) <==> exists k :: 0 <= k < |CONTROLS| && CONTROLS[k].0 <= c as int <= CONTROLS[k].1
  {
    assert |CONTROLS| == 23;
    forall k | 0 <= k < 23 && CONTROLS[k].0 <= c as int <= CONTROLS[k].1 ensures IsControl(c) {}
    if IsControl(c) {
      var n := c as int;
      var k := if n <= 0x1F then 0 else if n <= 0x9F then 1 else if n <= 0xAD then 2 else if n <= 0x605 then 3 else if n <= 0x61C then 4
               else if n <= 0x6DD then 5 else if n <= 0x70F then 6 else if n <= 0x891 then 7 else if n <= 0x8E2 then 8 else if n <= 0x180E then 9
               else if n <= 0x200F then 10 else if n <= 0x202E then 11 else if n <= 0x2064 then 12 else if n <= 0x206F then 13 else if n <= 0xFEFF then 14
               else if n <= 0xFFFB then 15 else if n <= 0x110BD then 16 else if n <= 0x110CD then 17 else if n <= 0x1343F then 18 else if n <= 0x1BCA3 then 19
               else if n <= 0x1D17A then 20 else if n <= 0xE0001 then 21 else 22;
      assert CONTROLS[k].0 <= n <= CONTROLS[k].1;
    }
  }

  // ----- durations

  predicate IsUnit(c: char) { c in "smhdw" }

  /** A second is 1000 milliseconds, a minute 60 of them, an hour 60 minutes, a day 24 hours, a week 7 days. */
  lemma UnitsAre()
    ensures UnitMs('s') == 1000 && UnitMs('m') == 60 * UnitMs('s') && UnitMs('h') == 60 * UnitMs('m')
    ensures UnitMs('d') == 24 * UnitMs('h') && UnitMs('w') == 7 * UnitMs('d')
    ensures forall c :: UnitMs(c) > 0 <==> IsUnit(c)
    ensures forall c :: UnitMs(c) >= 0
  {
  }

  function Pow10(n: nat): nat { if n == 0 then 1 else 10 * Pow10(n - 1) }

  /** Digits are read in base ten: one digit is itself, and those before count ten times for each that follows. */
  lemma {:induction false} ValueIsDecimal(a: string, b: string)
    requires Digits(a) && Digits(b)
    ensures Digits(a + b) && Value(a + b) == Value(a) * Pow10(|b|) + Value(b)
    decreases |b|
  {
    hide Value;
    AreDigits(a, b);
    NoDigits();
    if b == "" {
      assert a + b == a;
    } else {
      var ab, shorter := a + b, b[..|b| - 1];
      assert ab[..|ab| - 1] == a + shorter;
      ValueIsDecimal(a, shorter);
      LastDigit(ab);
      LastDigit(b);
      TenTimes(Value(a), Pow10(|shorter|));
    }
  }

  predicate Digits(s: string) { forall i :: 0 <= i < |s| ==> '0' <= s[i] <= '9' }

  lemma AreDigits(a: string, b: string)
    ensures Digits(a + b) <==> Digits(a) && Digits(b)
  {
    forall i | 0 <= i < |a| ensures (a + b)[i] == a[i] {}
    forall i | 0 <= i < |b| ensures (a + b)[|a| + i] == b[i] {}
  }

  lemma LastDigit(s: string)
    requires s != "" && Digits(s)
    ensures Digits(s[..|s| - 1]) && Value(s) == 10 * Value(s[..|s| - 1]) + (s[|s| - 1] as int - '0' as int)
  {
  }

  lemma NoDigits()
    ensures Value("") == 0
  {
  }

  lemma TenTimes(v: int, p: int)
    ensures 10 * (v * p) == v * (10 * p)
  {
  }

  lemma OneDigit(c: char)
    requires '0' <= c <= '9'
    ensures Value([c]) == c as int - '0' as int
  {
    assert [c][..0] == "";
  }

  predicate IsNumber(s: string) { s != "" && forall i :: 0 <= i < |s| ==> s[i] in "0123456789" }

  lemma NumberIff(s: string)
    ensures IsNumber(s) <==> AllDigits(s)
  {
    forall c: char ensures c in "0123456789" <==> '0' <= c <= '9' {}
  }

  /** Digits, perhaps blanks, then a unit. */
  ghost predicate Spells(spec: string, digits: string, unit: char) {
    IsNumber(digits) && IsUnit(unit) && exists gap :: Blank(gap) && Trim(spec) == digits + gap + [unit]
  }

  lemma DigitsAreNoSpace(s: string)
    requires IsNumber(s)
    ensures AllDigits(s) && !IsSpace(s[0]) && !IsSpace(s[|s| - 1])
  {
    NumberIff(s);
  }

  lemma SpellsReads(spec: string, digits: string, unit: char)
    requires Spells(spec, digits, unit)
    ensures
      var s := Trim(spec);
      s != "" && s[|s| - 1] == unit && TrimEnd(s[..|s| - 1]) == digits && UnitMs(unit) > 0
  {
    var gap :| Blank(gap) && Trim(spec) == digits + gap + [unit];
    assert Trim(spec)[..|Trim(spec)| - 1] == digits + gap;
    DigitsAreNoSpace(digits);
    TrimEndSkips(digits, gap);
    UnitsAre();
  }

  /** As many of the unit as the digits say, at least one and no more than can be counted exactly. */
  ghost predicate Says(spec: string, digits: string, unit: char, ms: int) {
    Spells(spec, digits, unit) && AllDigits(digits) && 0 < Value(digits) <= 9007199254740991 && ms == Value(digits) * UnitMs(unit)
  }

  lemma ReadIsSaid(spec: string)
    requires ParseDuration(spec).Some?
    ensures exists digits, unit :: Says(spec, digits, unit, ParseDuration(spec).value)
  {
    hide Trim, TrimEnd, Value, Blank, AllDigits, IsNumber;
    var s := Trim(spec);
    var digits, unit := TrimEnd(s[..|s| - 1]), s[|s| - 1];
    TrimEndPieces(s[..|s| - 1]);
    var gap :| Blank(gap) && s[..|s| - 1] == digits + gap;
    assert s == digits + gap + [unit];
    UnitsAre();
    NumberIff(digits);
    assert Says(spec, digits, unit, ParseDuration(spec).value);
  }

  lemma SaidIsRead(spec: string, digits: string, unit: char, ms: int)
    requires Says(spec, digits, unit, ms)
    ensures ParseDuration(spec) == Some(ms)
  {
    SpellsReads(spec, digits, unit);
    hide Trim, TrimEnd, Value, AllDigits, Spells;
  }

  /** A duration is read exactly if it is a number of one of the five units, and then it is that many of them. */
  lemma DurationIff(spec: string, ms: int)
    ensures ParseDuration(spec) == Some(ms) <==> exists digits, unit :: Says(spec, digits, unit, ms)
  {
    hide ParseDuration, Says;
    if ParseDuration(spec) == Some(ms) { ReadIsSaid(spec); }
    if digits, unit :| Says(spec, digits, unit, ms) { SaidIsRead(spec, digits, unit, ms); }
  }

  /** The end of a grant: none for the word "never", otherwise its duration, 24 hours if none is given, from now on. */
  lemma EndIff(spec: Option<string>, from: int, end: Option<int>)
    ensures
      var text := if spec.Some? then Trim(spec.value) else "24h";
      ResolveExpiry(spec, from) == At(end) <==>
      if text == "never" then end.None?
      else
        && ParseDuration(text).Some? && end == Some(from + ParseDuration(text).value)
        && -8640000000000000 <= end.value <= 8640000000000000
  {
    TrimOfTrimmed("24h");
  }
}
