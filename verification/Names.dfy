/** The two spellings of a field name, `entity_id` and `entityId`, and the conversions between them. */
module Names {
  import opened Text

  predicate IsUpper(c: char) { 'A' <= c <= 'Z' }

  predicate IsLower(c: char) { 'a' <= c <= 'z' }

  function Upper(c: char): char {
    if IsLower(c) then c - 'a' + 'A' else c
  }

  function Lower(c: char): char {
    if IsUpper(c) then c - 'A' + 'a' else c
  }

  /** `part[:1].upper() + part[1:]` */
  function Capitalize(part: string): string {
    if part == "" then "" else [Upper(part[0])] + part[1..]
  }

  function CapitalizeAll(parts: seq<string>): string {
    if parts == [] then "" else Capitalize(parts[0]) + CapitalizeAll(parts[1..])
  }

  function SnakeToCamel(value: string): string {
    var parts := Split(value, '_');
    parts[0] + CapitalizeAll(parts[1..])
  }

  /** Every upper-case letter becomes an underscore and the lower-case letter. */
  function Expand(value: string): string {
    if value == "" then ""
    else (if IsUpper(value[0]) then ['_', Lower(value[0])] else [value[0]]) + Expand(value[1..])
  }

  function DropUnderscores(s: string): string {
    if s != "" && s[0] == '_' then DropUnderscores(s[1..]) else s
  }

  function CamelToSnake(value: string): string {
    DropUnderscores(Expand(value))
  }

  /** Lower-case parts, each starting with a letter, with one underscore between two of them. */
  predicate SnakeName(s: string) {
    (forall c :: c in s ==> !IsUpper(c)) && forall part :: part in Split(s, '_') ==> part != "" && IsLower(part[0])
  }

  predicate CamelName(s: string) {
    s != "" && !IsUpper(s[0]) && '_' !in s
  }

  lemma {:induction false} ExpandConcat(a: string, b: string)
    ensures Expand(a + b) == Expand(a) + Expand(b)
  {
    if a == "" {
      assert a + b == b;
    } else {
      assert (a + b)[1..] == a[1..] + b;
      ExpandConcat(a[1..], b);
    }
  }

  lemma {:induction false} ExpandLower(s: string)
    requires forall c :: c in s ==> !IsUpper(c)
    ensures Expand(s) == s
  {
    if s == "" {
    } else {
      ExpandLower(s[1..]);
    }
  }

  lemma ExpandFirst(c: char, rest: string)
    ensures Expand([c] + rest) == (if IsUpper(c) then ['_', Lower(c)] else [c]) + Expand(rest)
  {
    assert ([c] + rest)[1..] == rest;
  }

  lemma ExpandCapital(part: string)
    requires forall c :: c in part ==> !IsUpper(c)
    requires part != "" && IsLower(part[0])
    ensures Expand(Capitalize(part)) == "_" + part
  {
    var first, rest := part[0], part[1..];
    ExpandLower(rest);
    ExpandFirst(Upper(first), rest);
    assert ['_', first] + rest == "_" + ([first] + rest);
    assert part == [first] + rest;
  }

  /** The words of a snake name: lower-case, each starting with a letter. */
  predicate Words(parts: seq<string>) {
    |parts| > 0 && forall i :: 0 <= i < |parts| ==>
      parts[i] != "" && IsLower(parts[i][0]) && forall c :: c in parts[i] ==> !IsUpper(c)
  }

  lemma Regroup(a: string, b: string)
    ensures ("_" + a) + ("_" + b) == "_" + (a + ['_'] + b)
  {
  }

  lemma ExpandStep(head: string, rest: string)
    requires forall c :: c in head ==> !IsUpper(c)
    requires head != "" && IsLower(head[0])
    ensures Expand(Capitalize(head) + rest) == "_" + head + Expand(rest)
  {
    ExpandConcat(Capitalize(head), rest);
    ExpandCapital(head);
  }

  lemma {:induction false} ExpandCapitalized(parts: seq<string>)
    requires Words(parts)
    ensures Expand(CapitalizeAll(parts)) == "_" + Join(parts, '_')
  {
    var head, tail := parts[0], parts[1..];
    var rest := CapitalizeAll(tail);
    ExpandStep(head, rest);
    assert CapitalizeAll(parts) == Capitalize(head) + rest;
    if |parts| == 1 {
      assert rest == "" && Expand(rest) == "";
    } else {
      ExpandCapitalized(tail);
      Regroup(head, Join(tail, '_'));
    }
  }

  lemma FirstOfParts(s: string)
    requires SnakeName(s)
    ensures s != "" && IsLower(s[0]) && s[0] == Split(s, '_')[0][0]
  {
    assert Split(s, '_')[0] in Split(s, '_');
  }

  lemma {:induction false} PartsOf(s: string, sep: char)
    ensures forall part, c :: part in Split(s, sep) && c in part ==> c in s
  {
    if s == "" {
    } else {
      PartsOf(s[1..], sep);
    }
  }

  lemma WordsOf(s: string)
    requires SnakeName(s)
    ensures Words(Split(s, '_'))
  {
    var parts := Split(s, '_');
    PartsOf(s, '_');
    hide Split;
    assert forall i :: 0 <= i < |parts| ==> parts[i] in parts;
  }

  /** Expanding the capitals of joined words gives the words apart. */
  lemma ExpandJoined(parts: seq<string>)
    requires Words(parts)
    ensures Expand(parts[0] + CapitalizeAll(parts[1..])) == Join(parts, '_')
  {
    ExpandLower(parts[0]);
    ExpandConcat(parts[0], CapitalizeAll(parts[1..]));
    hide Expand, CapitalizeAll;
    if |parts| > 1 {
      ExpandCapitalized(parts[1..]);
      assert "_" == ['_'];
    } else {
      assert parts[0] + "" == parts[0];
      ExpandNothing();
    }
  }

  lemma ExpandNothing()
    ensures CapitalizeAll([]) == "" && Expand("") == ""
  {
  }

  /** A snake name survives the trip through its camel spelling. */
  lemma SnakeRoundTrip(s: string)
    requires SnakeName(s)
    ensures CamelToSnake(SnakeToCamel(s)) == s
    ensures CamelName(SnakeToCamel(s))
  {
    WordsOf(s);
    FirstOfParts(s);
    NoUnderscore(s);
    JoinSplit(s, '_');
    hide Split, Join, Expand, CapitalizeAll;
    ExpandJoined(Split(s, '_'));
  }

  lemma {:induction false} NoUnderscore(s: string)
    ensures '_' !in SnakeToCamel(s)
  {
    NoSeparator(s, '_');
    NoUnderscoreIn(Split(s, '_')[1..]);
  }

  lemma {:induction false} NoSeparator(s: string, sep: char)
    ensures forall part :: part in Split(s, sep) ==> sep !in part
  {
    if s == "" {
    } else {
      NoSeparator(s[1..], sep);
    }
  }

  lemma CapitalizedPart(part: string)
    requires '_' !in part
    ensures '_' !in Capitalize(part)
  {
    if part == "" {
    } else {
      assert part[0] in part && forall c :: c in part[1..] ==> c in part;
    }
  }

  lemma {:induction false} NoUnderscoreIn(parts: seq<string>)
    requires forall part :: part in parts ==> '_' !in part
    ensures '_' !in CapitalizeAll(parts)
  {
    if parts == [] {
    } else {
      assert parts[0] in parts && forall part :: part in parts[1..] ==> part in parts;
      CapitalizedPart(parts[0]);
      NoUnderscoreIn(parts[1..]);
      hide Capitalize;
    }
  }

  lemma CamelOfLetter(c: char, rest: string)
    requires c != '_'
    ensures SnakeToCamel([c] + rest) == [c] + SnakeToCamel(rest)
  {
    SplitFirst(c, rest, '_');
  }

  lemma CamelOfCapital(c: char, rest: string)
    requires IsLower(c)
    ensures SnakeToCamel(['_', c] + rest) == [Upper(c)] + SnakeToCamel(rest)
  {
    hide Split;
    var tail := Split(rest, '_');
    SplitFirst(c, rest, '_');
    SplitFirst('_', [c] + rest, '_');
    assert ['_', c] + rest == ['_'] + ([c] + rest);
    var inner := [[c] + tail[0]] + tail[1..];
    assert ([""] + inner)[1..] == inner && inner[1..] == tail[1..];
    assert Capitalize(inner[0]) == [Upper(c)] + tail[0];
  }

  lemma {:induction false} CamelOfExpanded(s: string)
    requires '_' !in s
    ensures SnakeToCamel(Expand(s)) == s
  {
    if s == "" {
      assert Expand("") == "" && Split("", '_') == [""];
    } else {
      CamelOfExpanded(s[1..]);
      assert s == [s[0]] + s[1..];
      if IsUpper(s[0]) {
        CamelOfCapital(Lower(s[0]), Expand(s[1..]));
      } else {
        CamelOfLetter(s[0], Expand(s[1..]));
      }
    }
  }

  /** A camel name survives the trip through its snake spelling. */
  lemma CamelRoundTrip(s: string)
    requires CamelName(s)
    ensures SnakeToCamel(CamelToSnake(s)) == s
  {
    CamelOfExpanded(s);
    assert Expand(s)[0] == s[0];
  }

  /** Each spelling of a well-formed name is a fixed point of the conversion towards it. */
  lemma SpellingsAreStable(s: string)
    requires SnakeName(s)
    ensures CamelToSnake(s) == s
    ensures SnakeToCamel(SnakeToCamel(s)) == SnakeToCamel(s)
  {
    ExpandLower(s);
    FirstOfParts(s);
    var camel := SnakeToCamel(s);
    NoUnderscore(s);
    SplitWhole(camel, '_');
  }
}
