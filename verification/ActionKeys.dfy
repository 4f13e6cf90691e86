/** The grammar of action keys: a key names one end state, by a class and all of its components. */
module ActionKeys {

  import opened Options
  import opened Texts

  datatype Code = UnknownClass | MissingComponent | ExtraComponent | EmptyComponent | ControlCharacter

  datatype Parsed = Parsed(key: string, actionClass: string, values: seq<string>)

  datatype ParseResult = Legal(parsed: Parsed) | Illegal(code: Code)

  /** The component names of each class. */
  const CLASSES: map<string, seq<string>> := map[
    "npm-publish" := ["package", "version"],
    "push" := ["branch", "sha"],
    "reopen" := ["ticket"],
    "board-restore" := ["project", "snapshot"],
    "remove-project" := ["project"]
  ]

  /** [\p{Cc}\p{Cf}] */
  predicate IsControl(c: char) {
    var n := c as int;
    || n <= 0x1F || 0x7F <= n <= 0x9F
    || n == 0xAD || 0x600 <= n <= 0x605 || n == 0x61C || n == 0x6DD || n == 0x70F || 0x890 <= n <= 0x891 || n == 0x8E2
    || n == 0x180E || 0x200B <= n <= 0x200F || 0x202A <= n <= 0x202E || 0x2060 <= n <= 0x2064 || 0x2066 <= n <= 0x206F
    || n == 0xFEFF || 0xFFF9 <= n <= 0xFFFB || n == 0x110BD || n == 0x110CD || 0x13430 <= n <= 0x1343F
    || 0x1BCA0 <= n <= 0x1BCA3 || 0x1D173 <= n <= 0x1D17A || n == 0xE0001 || 0xE0020 <= n <= 0xE007F
  }

  predicate HasControl(s: string) {
    exists i :: 0 <= i < |s| && IsControl(s[i])
  }

  /** A legal key has every component its class declares. */
  function ParseKey(key: string): (r: ParseResult)
    ensures r.Legal? ==> r.parsed.actionClass in CLASSES && |r.parsed.values| == |CLASSES[r.parsed.actionClass]|
  {
    var raw := Trim(key);
    var parts := Split(raw, ':');
    if parts[0] !in CLASSES then Illegal(UnknownClass)
    else
      var values, want := parts[1..], CLASSES[parts[0]];
      if |values| < |want| then Illegal(MissingComponent)
      else if |values| > |want| then Illegal(ExtraComponent)
      else if exists i :: 0 <= i < |values| && Trim(values[i]) == "" then Illegal(EmptyComponent)
      else if exists i :: 0 <= i < |values| && HasControl(values[i]) then Illegal(ControlCharacter)
      else Legal(Parsed(raw, parts[0], values))
  }

  /** The key that names this end state. */
  function KeyOf(actionClass: string, values: seq<string>): string {
    Join([actionClass] + values, ":")
  }

  /** Joining what was parsed gives the trimmed key back, and that parses to the same class and components. */
  lemma KeyRoundTrip(key: string)
    requires ParseKey(key).Legal?
    ensures
      var p := ParseKey(key).parsed;
      KeyOf(p.actionClass, p.values) == Trim(key) == p.key && ParseKey(p.key) == ParseKey(key)
  {
    var raw := Trim(key);
    var parts := Split(raw, ':');
    JoinSplit(raw, ':');
    assert [parts[0]] + parts[1..] == parts;
    TrimIsTrimmed(key);
    TrimOfTrimmed(raw);
  }

  /** Two legal keys name the same end state iff they agree on the class and on every component. */
  lemma SameEndState(a: string, b: string)
    requires ParseKey(a).Legal? && ParseKey(b).Legal?
    ensures
      var p, q := ParseKey(a).parsed, ParseKey(b).parsed;
      p.key == q.key <==> p.actionClass == q.actionClass && p.values == q.values
  {
    KeyRoundTrip(a);
    KeyRoundTrip(b);
  }

  /** A component a key can carry: without a colon, not blank, without control characters. */
  predicate Carriable(v: string) {
    Without(v, ':') && Trim(v) != "" && !HasControl(v)
  }

  predicate Ends(v: string) { v != "" && !IsSpace(v[|v| - 1]) }

  lemma ClassNames(c: string)
    requires c in CLASSES
    ensures Without(c, ':') && c != "" && !IsSpace(c[0]) && |CLASSES[c]| > 0
  {
  }

  /**
   The other way round: a class and as many carriable components as it declares, the last one not ending in
   white space, is the parse of the key they make.
   */
  lemma EndStateHasKey(actionClass: string, values: seq<string>)
    requires actionClass in CLASSES && 0 < |values| == |CLASSES[actionClass]|
    requires forall i :: 0 <= i < |values| ==> Carriable(values[i])
    requires Ends(values[|values| - 1])
    ensures ParseKey(KeyOf(actionClass, values)) == Legal(Parsed(KeyOf(actionClass, values), actionClass, values))
  {
    var parts := [actionClass] + values;
    var key := KeyOf(actionClass, values);
    hide Trim, Split, Join, HasControl, IsSpace, Without, Carriable;
    ClassNames(actionClass);
    PartsApart(actionClass, values);
    SplitJoin(parts, ':');
    assert parts[1..] == values;
    JoinEnds(parts, ":");
    TrimOfTrimmed(key);
    NothingAmiss(values);
  }

  lemma PartsApart(actionClass: string, values: seq<string>)
    requires actionClass in CLASSES && forall i :: 0 <= i < |values| ==> Carriable(values[i])
    ensures forall i :: 0 <= i < |[actionClass] + values| ==> Without(([actionClass] + values)[i], ':')
    ensures forall i :: 0 <= i < |values| ==> values[i] != ""
  {
    hide Trim, HasControl;
    ClassNames(actionClass);
    var parts := [actionClass] + values;
    forall i | 0 <= i < |parts| ensures Without(parts[i], ':') {
      if i > 0 { assert Carriable(values[i - 1]) && parts[i] == values[i - 1]; }
    }
    forall i | 0 <= i < |values| ensures values[i] != "" {
      assert Carriable(values[i]);
      TrimOfTrimmed("");
    }
  }

  lemma NothingAmiss(values: seq<string>)
    requires forall i :: 0 <= i < |values| ==> Carriable(values[i])
    ensures !exists i :: 0 <= i < |values| && Trim(values[i]) == ""
    ensures !exists i :: 0 <= i < |values| && HasControl(values[i])
  {
    forall i | 0 <= i < |values| ensures Trim(values[i]) != "" && !HasControl(values[i]) { assert Carriable(values[i]); }
  }

  lemma {:induction false} JoinEnds(parts: seq<string>, sep: string)
    requires parts != [] && parts[0] != "" && parts[|parts| - 1] != ""
    ensures
      var s := Join(parts, sep);
      && s != "" && s[0] == parts[0][0] && s[|s| - 1] == parts[|parts| - 1][|parts[|parts| - 1]| - 1]
    decreases |parts|
  {
    if |parts| > 1 {
      LastOfJoin(parts, sep);
    }
  }

  lemma {:induction false} LastOfJoin(parts: seq<string>, sep: string)
    requires parts != [] && parts[|parts| - 1] != ""
    ensures
      var s := Join(parts, sep);
      s != "" && s[|s| - 1] == parts[|parts| - 1][|parts[|parts| - 1]| - 1]
    decreases |parts|
  {
    if |parts| > 1 { LastOfJoin(parts[1..], sep); }
  }

  // ----- expiry

  datatype Expiry = At(time: Option<int>) | BadExpiry

  const MAX_SAFE_INTEGER: int := 0x1F_FFFF_FFFF_FFFF
  const MAX_DATE: int := 8_640_000_000_000_000
  const DEFAULT_EXPIRY: string := "24h"
  const NEVER: string := "never"

  function UnitMs(c: char): int {
    match c
    case 's' => 1_000
    case 'm' => 60_000
    case 'h' => 3_600_000
    case 'd' => 86_400_000
    case 'w' => 604_800_000
    case _ => 0
  }

  predicate AllDigits(s: string) {
    s != "" && forall i :: 0 <= i < |s| ==> '0' <= s[i] <= '9'
  }

  function Value(digits: string): nat
    requires forall i :: 0 <= i < |digits| ==> '0' <= digits[i] <= '9'
  {
    if digits == "" then 0 else 10 * Value(digits[..|digits| - 1]) + (digits[|digits| - 1] as int - '0' as int)
  }

  /** /^(\d+)\s*(s|m|h|d|w)$/ on the trimmed text. */
  function ParseDuration(spec: string): Option<int> {
    var s := Trim(spec);
    if s == "" || UnitMs(s[|s| - 1]) == 0 then None
    else
      var digits := TrimEnd(s[..|s| - 1]);
      if !AllDigits(digits) then None
      else
        var n := Value(digits);
        if n == 0 || n > MAX_SAFE_INTEGER then None else Some(n * UnitMs(s[|s| - 1]))
  }

  function ResolveExpiry(spec: Option<string>, from: int): Expiry {
    var s := Trim(if spec.Some? then spec.value else DEFAULT_EXPIRY);
    if s == NEVER then At(None)
    else
      match ParseDuration(s)
      case None => BadExpiry
      case Some(ms) => if -MAX_DATE <= from + ms <= MAX_DATE then At(Some(from + ms)) else BadExpiry
  }

  /** A grant is unbounded only by the explicit word, and otherwise ends strictly later; leaving it out means 24 hours. */
  lemma ExpiryIsBounded(spec: Option<string>, from: int)
    ensures ResolveExpiry(spec, from) == At(None) <==> spec.Some? && Trim(spec.value) == NEVER
    ensures ResolveExpiry(spec, from).At? && ResolveExpiry(spec, from).time.Some? ==> ResolveExpiry(spec, from).time.value > from
    ensures 0 <= from < 1_000_000_000_000_000 ==> ResolveExpiry(None, from) == At(Some(from + 86_400_000))
  {
    DefaultIsADay();
  }

  lemma DefaultIsADay()
    ensures Trim(DEFAULT_EXPIRY) == DEFAULT_EXPIRY && DEFAULT_EXPIRY != NEVER && ParseDuration(DEFAULT_EXPIRY) == Some(86_400_000)
  {
    var s := DEFAULT_EXPIRY;
    TrimOfTrimmed(s);
    assert s[..2] == "24" && "24"[..1] == "2" && "2"[..0] == "";
    TrimOfTrimmed("24");
    assert TrimEnd("24") == "24";
    assert Value("2") == 2 && Value("24") == 24;
  }
}
