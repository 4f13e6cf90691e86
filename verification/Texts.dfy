/** The JavaScript string operations the hub sources rely on, over Unicode scalar values. */
module Texts {

  /** \s and String.prototype.trim: white space and line terminators. */
  predicate IsSpace(c: char) {
    var n := c as int;
    || 9 <= n <= 13 || n == 32 || n == 0xA0 || n == 0x1680 || 0x2000 <= n <= 0x200A
    || n == 0x2028 || n == 0x2029 || n == 0x202F || n == 0x205F || n == 0x3000 || n == 0xFEFF
  }

  predicate Blank(s: string) {
    forall i :: 0 <= i < |s| ==> IsSpace(s[i])
  }

  function TrimStart(s: string): string {
    if s != "" && IsSpace(s[0]) then TrimStart(s[1..]) else s
  }

  function TrimEnd(s: string): string {
    if s != "" && IsSpace(s[|s| - 1]) then TrimEnd(s[..|s| - 1]) else s
  }

  function Trim(s: string): string {
    TrimEnd(TrimStart(s))
  }

  /** Array.prototype.join */
  function Join(parts: seq<string>, sep: string): string {
    if parts == [] then "" else if |parts| == 1 then parts[0] else parts[0] + sep + Join(parts[1..], sep)
  }

  /** String.prototype.split on one character: always at least one part. */
  function Split(s: string, sep: char): (parts: seq<string>)
    ensures parts != []
  {
    if s == "" then [""]
    else if s[0] == sep then [""] + Split(s[1..], sep)
    else
      var rest := Split(s[1..], sep);
      [[s[0]] + rest[0]] + rest[1..]
  }

  lemma {:induction false} JoinSplit(s: string, sep: char)
    ensures Join(Split(s, sep), [sep]) == s
    decreases |s|
  {
    if s != "" {
      JoinSplit(s[1..], sep);
      var rest := Split(s[1..], sep);
      if s[0] == sep {
        assert Split(s, sep)[1..] == rest;
      } else {
        var parts := [[s[0]] + rest[0]] + rest[1..];
        assert parts[1..] == rest[1..];
        if |rest| > 1 {
          assert Join(parts, [sep]) == [s[0]] + rest[0] + [sep] + Join(rest[1..], [sep]);
        }
      }
      assert s == [s[0]] + s[1..];
    }
  }

  predicate Without(s: string, sep: char) {
    sep !in s
  }

  lemma {:induction false} SplitParts(s: string, sep: char)
    ensures forall i :: 0 <= i < |Split(s, sep)| ==> Without(Split(s, sep)[i], sep)
    decreases |s|
  {
    if s != "" { SplitParts(s[1..], sep); }
  }

  lemma {:induction false} SplitOne(s: string, sep: char)
    requires Without(s, sep)
    ensures Split(s, sep) == [s]
    decreases |s|
  {
    if s != "" {
      SplitOne(s[1..], sep);
      assert s == [s[0]] + s[1..];
    }
  }

  lemma {:induction false} SplitAt(a: string, sep: char, b: string)
    requires Without(a, sep)
    ensures Split(a + [sep] + b, sep) == [a] + Split(b, sep)
    decreases |a|
  {
    var s := a + [sep] + b;
    if a == "" {
      assert s[1..] == b;
    } else {
      assert s[1..] == a[1..] + [sep] + b;
      SplitAt(a[1..], sep, b);
      assert a == [a[0]] + a[1..];
    }
  }

  /** Splitting a join gives the parts back when none of them contains the separator. */
  lemma {:induction false} SplitJoin(parts: seq<string>, sep: char)
    requires parts != [] && forall i :: 0 <= i < |parts| ==> Without(parts[i], sep)
    ensures Split(Join(parts, [sep]), sep) == parts
    decreases |parts|
  {
    if |parts| == 1 {
      SplitOne(parts[0], sep);
    } else {
      SplitJoin(parts[1..], sep);
      SplitAt(parts[0], sep, Join(parts[1..], [sep]));
      assert Join(parts, [sep]) == parts[0] + [sep] + Join(parts[1..], [sep]);
    }
  }

  /** A trimmed string has no space at either end. */
  predicate Trimmed(s: string) {
    s == "" || (!IsSpace(s[0]) && !IsSpace(s[|s| - 1]))
  }

  lemma {:induction false} TrimEndKeepsStart(s: string)
    requires s == "" || !IsSpace(s[0])
    ensures Trimmed(TrimEnd(s)) && TrimEnd(s) <= s
    decreases |s|
  {
    if s != "" && IsSpace(s[|s| - 1]) { TrimEndKeepsStart(s[..|s| - 1]); }
  }

  lemma {:induction false} TrimStartClears(s: string)
    ensures TrimStart(s) == "" || !IsSpace(TrimStart(s)[0])
    decreases |s|
  {
    if s != "" && IsSpace(s[0]) { TrimStartClears(s[1..]); }
  }

  lemma TrimIsTrimmed(s: string)
    ensures Trimmed(Trim(s))
  {
    TrimStartClears(s);
    TrimEndKeepsStart(TrimStart(s));
  }

  lemma TrimOfTrimmed(s: string)
    requires Trimmed(s)
    ensures Trim(s) == s
  {
  }

  lemma {:induction false} TrimStartPieces(s: string)
    ensures exists a :: Blank(a) && s == a + TrimStart(s)
    decreases |s|
  {
    if s != "" && IsSpace(s[0]) {
      TrimStartPieces(s[1..]);
      var a :| Blank(a) && s[1..] == a + TrimStart(s[1..]);
      assert Blank([s[0]] + a) && s == ([s[0]] + a) + TrimStart(s);
    } else {
      assert Blank("") && s == "" + TrimStart(s);
    }
  }

  lemma {:induction false} TrimEndPieces(s: string)
    ensures exists b :: Blank(b) && s == TrimEnd(s) + b
    decreases |s|
  {
    if s != "" && IsSpace(s[|s| - 1]) {
      TrimEndPieces(s[..|s| - 1]);
      var b :| Blank(b) && s[..|s| - 1] == TrimEnd(s[..|s| - 1]) + b;
      assert Blank(b + [s[|s| - 1]]) && s == TrimEnd(s) + (b + [s[|s| - 1]]);
    } else {
      assert Blank("") && s == TrimEnd(s) + "";
    }
  }

  lemma {:induction false} TrimEndSkips(t: string, b: string)
    requires Blank(b) && (t == "" || !IsSpace(t[|t| - 1]))
    ensures TrimEnd(t + b) == t
    decreases |b|
  {
    if b == "" {
      assert t + b == t;
    } else {
      assert (t + b)[..|t + b| - 1] == t + b[..|b| - 1];
      TrimEndSkips(t, b[..|b| - 1]);
    }
  }

  ghost predicate Between(s: string, t: string) {
    exists a, b :: Blank(a) && Blank(b) && s == a + t + b
  }

  /** What is left between the blanks of a string, none at its own ends: exactly that is its trim. */
  lemma TrimIff(s: string, t: string)
    ensures t == Trim(s) <==> Trimmed(t) && Between(s, t)
  {
    hide Trimmed, Between, TrimStart, TrimEnd, Blank;
    TrimIsTrimmed(s);
    TrimIsBetween(s);
    if Trimmed(t) && Between(s, t) { BetweenIsTrim(s, t); }
  }

  lemma TrimIsBetween(s: string)
    ensures Between(s, Trim(s))
  {
    hide TrimStart, TrimEnd, Blank;
    TrimStartPieces(s);
    var a :| Blank(a) && s == a + TrimStart(s);
    TrimEndPieces(TrimStart(s));
    var b :| Blank(b) && TrimStart(s) == Trim(s) + b;
    assert s == a + Trim(s) + b;
  }

  lemma BetweenIsTrim(s: string, t: string)
    requires Trimmed(t) && Between(s, t)
    ensures t == Trim(s)
  {
    hide TrimStart, TrimEnd, IsSpace;
    var x, y :| Blank(x) && Blank(y) && s == x + t + y;
    if t == "" {
      assert Blank(s);
      BlankTrims(s);
      BlankTrims("");
      TrimOfTrimmed("");
    } else {
      assert s == x + (t + y);
      TrimStartOf(x, t + y);
      TrimEndSkips(t, y);
    }
  }

  lemma {:induction false} BlankTrims(s: string)
    requires Blank(s)
    ensures TrimStart(s) == ""
    decreases |s|
  {
    if s != "" { BlankTrims(s[1..]); }
  }

  lemma {:induction false} TrimStartOf(a: string, t: string)
    requires Blank(a) && t != "" && !IsSpace(t[0])
    ensures TrimStart(a + t) == t
    decreases |a|
  {
    if a == "" {
      assert a + t == t;
    } else {
      assert (a + t)[1..] == a[1..] + t;
      TrimStartOf(a[1..], t);
    }
  }

  /** Buffer.byteLength(s, "utf8") */
  function Utf8Bytes(s: string): nat {
    if s == "" then 0 else
      (var n := s[0] as int; if n < 0x80 then 1 else if n < 0x800 then 2 else if n < 0x1_0000 then 3 else 4) + Utf8Bytes(s[1..])
  }

  /** Bytes of a text add up over its characters; one carries 7, 11, 16 or more bits in one to four bytes (section 3 of RFC 3629). */
  lemma {:induction false} Utf8BytesAre(a: string, b: string)
    ensures Utf8Bytes(a + b) == Utf8Bytes(a) + Utf8Bytes(b)
    ensures |a| == 1 ==>
              && (Utf8Bytes(a) == 1 <==> a[0] as int < 128) && (Utf8Bytes(a) == 2 <==> 128 <= a[0] as int < 2048)
              && (Utf8Bytes(a) == 3 <==> 2048 <= a[0] as int < 65536) && (Utf8Bytes(a) == 4 <==> 65536 <= a[0] as int)
    decreases |a|
  {
    if a == "" {
      assert a + b == b;
    } else {
      assert (a + b)[1..] == a[1..] + b;
      Utf8BytesAre(a[1..], b);
    }
  }

  /** Tab, line feed, vertical tab, form feed, carriage return, the space separators, the two separators of lines, the byte order mark. */
  lemma SpacesAre(c: char)
    ensures
      IsSpace(c) <==>
      c in "\t\n\U{0B}\U{0C}\r \U{A0}\U{1680}\U{2000}\U{2001}\U{2002}\U{2003}\U{2004}\U{2005}\U{2006}\U{2007}\U{2008}\U{2009}\U{200A}\U{2028}\U{2029}\U{202F}\U{205F}\U{3000}\U{FEFF}"
  {
  }
}
