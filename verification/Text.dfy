/** The few string operations the server uses: strip, split, and decimal numbers. */
module Text {
  import opened PyValues

  /** The characters Python's `str.strip` removes. */
  predicate IsSpace(c: char) {
    var n := c as int;
    9 <= n <= 13 || 28 <= n <= 32 || n == 0x85 || n == 0xA0 || n == 0x1680 || 0x2000 <= n <= 0x200A
    || n == 0x2028 || n == 0x2029 || n == 0x202F || n == 0x205F || n == 0x3000
  }

  function LStrip(s: string): (r: string)
    ensures |r| <= |s|
    ensures r == "" || !IsSpace(r[0])
    ensures s == "" || !IsSpace(s[0]) ==> r == s
  {
    if s == "" || !IsSpace(s[0]) then s else LStrip(s[1..])
  }

  function RStrip(s: string): (r: string)
    ensures r <= s
    ensures r == "" || !IsSpace(r[|r| - 1])
    ensures s == "" || !IsSpace(s[|s| - 1]) ==> r == s
  {
    if s == "" || !IsSpace(s[|s| - 1]) then s else RStrip(s[..|s| - 1])
  }

  function Strip(s: string): (r: string)
    ensures Trimmed(r)
    ensures Trimmed(s) ==> r == s
  {
    RStrip(LStrip(s))
  }

  /** No white space at either end. */
  predicate Trimmed(s: string) {
    s == "" || (!IsSpace(s[0]) && !IsSpace(s[|s| - 1]))
  }

  /** `s.split(sep)` */
  function Split(s: string, sep: char): (parts: seq<string>)
    ensures |parts| > 0
  {
    if s == "" then [""]
    else
      var rest := Split(s[1..], sep);
      if s[0] == sep then [""] + rest else [[s[0]] + rest[0]] + rest[1..]
  }

  /** `sep.join(parts)` */
  function Join(parts: seq<string>, sep: char): string
    requires |parts| > 0
  {
    if |parts| == 1 then parts[0] else parts[0] + [sep] + Join(parts[1..], sep)
  }

  lemma SplitFirst(c: char, rest: string, sep: char)
    ensures c != sep ==> Split([c] + rest, sep) == [[c] + Split(rest, sep)[0]] + Split(rest, sep)[1..]
    ensures c == sep ==> Split([c] + rest, sep) == [""] + Split(rest, sep)
  {
    assert ([c] + rest)[1..] == rest;
  }

  lemma {:induction false} SplitWhole(s: string, sep: char)
    requires sep !in s
    ensures Split(s, sep) == [s]
  {
    if s == "" {
    } else {
      SplitWhole(s[1..], sep);
      assert s == [s[0]] + s[1..];
    }
  }

  lemma {:induction false} JoinSplit(s: string, sep: char)
    ensures Join(Split(s, sep), sep) == s
  {
    if s == "" {
    } else {
      var c, rest := s[0], Split(s[1..], sep);
      assert s == [c] + s[1..];
      SplitFirst(c, s[1..], sep);
      JoinSplit(s[1..], sep);
      hide Split;
      if c == sep {
        assert ([""] + rest)[1..] == rest;
      } else {
        JoinHead(c, rest, sep);
      }
    }
  }

  lemma JoinHead(c: char, parts: seq<string>, sep: char)
    requires |parts| > 0
    ensures Join([[c] + parts[0]] + parts[1..], sep) == [c] + Join(parts, sep)
  {
    assert ([[c] + parts[0]] + parts[1..])[1..] == parts[1..];
    if |parts| == 1 {
    } else {
      assert ([c] + parts[0]) + [sep] + Join(parts[1..], sep) == [c] + (parts[0] + [sep] + Join(parts[1..], sep));
    }
  }

  /** Different strings have different parts. */
  lemma SplitInjective(s: string, t: string, sep: char)
    ensures Split(s, sep) == Split(t, sep) ==> s == t
  {
    JoinSplit(s, sep);
    JoinSplit(t, sep);
  }

  predicate IsDigit(c: char) { '0' <= c <= '9' }

  /** The decimal digits of `n`. */
  function Digits(n: nat): (s: string)
    ensures s != "" && forall i :: 0 <= i < |s| ==> IsDigit(s[i])
  {
    var last := ['0' + (n % 10) as char];
    if n < 10 then last else Digits(n / 10) + last
  }

  /** `str(n)` */
  function PrintInt(n: int): string {
    if n < 0 then "-" + Digits(-n) else Digits(n)
  }

  /** The digits `int()` accepts: one underscore may stand between two of them. */
  function ParseNat(s: string): Option<nat> {
    if s == "" || !IsDigit(s[|s| - 1]) then None
    else
      var d := s[|s| - 1] as int - '0' as int;
      var rest := s[..|s| - 1];
      if rest == "" then Some(d)
      else
        var more := ParseNat(if rest[|rest| - 1] == '_' then rest[..|rest| - 1] else rest);
        if more.Some? then Some(10 * more.value + d) else None
  }

  /** `int(s)`, where None says the call raises. */
  function ParseInt(s: string): Option<int> {
    var t := Strip(s);
    if t != "" && t[0] == '-' then
      var v := ParseNat(t[1..]);
      if v.Some? then
        var n: int := v.value;
        Some(-n)
      else None
    else if t != "" && t[0] == '+' then ParseNat(t[1..])
    else ParseNat(t)
  }

  lemma {:induction false} ParseDigits(n: nat)
    ensures ParseNat(Digits(n)) == Some(n)
  {
    var s := Digits(n);
    if n < 10 {
    } else {
      ParseDigits(n / 10);
      assert s[..|s| - 1] == Digits(n / 10);
    }
  }

  lemma DigitsTrimmed(n: nat)
    ensures var digits := Digits(n); IsDigit(digits[0]) && Trimmed(digits) && Trimmed("-" + digits)
  {
    hide Digits;
    var digits := Digits(n);
    assert ("-" + digits)[|digits|] == digits[|digits| - 1];
  }

  /** Reading a printed number gives it back, so a page token is read as the cursor it was made from. */
  lemma ParsePrintedInt(n: int)
    ensures ParseInt(PrintInt(n)) == Some(n)
    ensures Strip(PrintInt(n)) == PrintInt(n) != ""
  {
    var m: nat := if n < 0 then -n else n;
    ParseDigits(m);
    DigitsTrimmed(m);
    var digits := Digits(m);
    assert ("-" + digits)[1..] == digits;
    hide Digits, ParseNat, LStrip, RStrip;
  }

  /** `int(j)`, where None says the call raises. */
  function PyInt(j: Json): Option<int> {
    match j
    case JBool(b) => Some(if b then 1 else 0)
    case JInt(n) => Some(n)
    case JReal(r) => Some(if r < 0.0 then -((-r).Floor) else r.Floor)
    case JStr(s) => ParseInt(s)
    case _ => None
  }
}
