/** Decimal printing, and splitting a string at a separator. */
module Text {
  // ---- Decimal numbers, as `format!("{}", n)` prints them ----

  function Digit(d: nat): (c: char)
    requires d < 10
    ensures '0' <= c <= '9'
  {
    (d + '0' as int) as char
  }

  function Digits(n: nat): (s: string)
    ensures |s| > 0
    ensures forall i :: 0 <= i < |s| ==> '0' <= s[i] <= '9'
  {
    if n < 10 then [Digit(n)] else Digits(n / 10) + [Digit(n % 10)]
  }

  function Decimal(n: int): string {
    if n < 0 then "-" + Digits(-n) else Digits(n)
  }

  /** A text of digits read as a decimal number. */
  function Number(s: string): int {
    if s == "" then 0 else 10 * Number(s[..|s| - 1]) + (s[|s| - 1] as int - '0' as int)
  }

  /** Printing and reading back, and no zero in front. */
  lemma {:induction false} DigitsRead(n: nat)
    ensures Number(Digits(n)) == n
    ensures n > 0 ==> Digits(n)[0] != '0'
    ensures n == 0 ==> Digits(n) == "0"
  {
    var s := Digits(n);
    if n < 10 {
      assert s[..0] == "" && s == [Digit(n)];
    } else {
      DigitsRead(n / 10);
      assert s[..|s| - 1] == Digits(n / 10) && s[|s| - 1] == Digit(n % 10);
    }
  }

  lemma DecimalReads(n: int)
    ensures n >= 0 ==> Number(Decimal(n)) == n
    ensures n < 0 ==> Decimal(n)[..1] == "-" && Number(Decimal(n)[1..]) == -n
  {
    DigitsRead(if n < 0 then -n else n);
    if n < 0 {
      assert Decimal(n)[1..] == Digits(-n);
    }
  }

  lemma {:induction false} DigitsInjective(m: nat, n: nat)
    requires Digits(m) == Digits(n)
    ensures m == n
  {
    var s, t := Digits(m), Digits(n);
    assert s[|s| - 1] == Digit(m % 10) && t[|t| - 1] == Digit(n % 10);
    assert m >= 10 ==> s[..|s| - 1] == Digits(m / 10);
    assert n >= 10 ==> t[..|t| - 1] == Digits(n / 10);
    if m >= 10 && n >= 10 {
      DigitsInjective(m / 10, n / 10);
    }
  }

  /** The dash in front of a number is the last one of the text. */
  lemma LastDash(p: string, n: nat)
    ensures var s := p + "-" + Digits(n);
            && s[..|p|] == p && s[|p|] == '-' && s[|p| + 1..] == Digits(n)
            && forall i :: |p| < i < |s| ==> s[i] != '-'
  {
    var s := p + "-" + Digits(n);
    assert forall i :: |p| < i < |s| ==> s[i] == Digits(n)[i - |p| - 1];
  }

  /** A prefix, a dash and a number can be taken apart again. */
  lemma DashedInjective(p: string, m: nat, q: string, n: nat)
    requires p + "-" + Digits(m) == q + "-" + Digits(n)
    ensures p == q && m == n
  {
    LastDash(p, m);
    LastDash(q, n);
    DigitsInjective(m, n);
  }

  // ---- Splitting, as `str::split` does on a character ----

  function Split(s: string, sep: char): (parts: seq<string>)
    ensures |parts| > 0
  {
    if s == "" then [""]
    else
      var rest := Split(s[1..], sep);
      if s[0] == sep then [""] + rest else [[s[0]] + rest[0]] + rest[1..]
  }

  function Join(parts: seq<string>, sep: char): string
    requires |parts| > 0
  {
    if |parts| == 1 then parts[0] else parts[0] + [sep] + Join(parts[1..], sep)
  }

  /** Splitting a text that has no separator before position |p| keeps that first part whole. */
  lemma {:induction false} SplitAfter(p: string, rest: string, sep: char)
    requires sep !in p
    ensures Split(p + [sep] + rest, sep) == [p] + Split(rest, sep)
  {
    var s := p + [sep] + rest;
    if p == "" {
      assert s[1..] == rest;
    } else {
      assert s[0] == p[0] && s[1..] == p[1..] + [sep] + rest;
      SplitAfter(p[1..], rest, sep);
      assert [p[0]] + p[1..] == p;
    }
  }

  lemma {:induction false} SplitNone(p: string, sep: char)
    requires sep !in p
    ensures Split(p, sep) == [p]
  {
    if p != "" {
      SplitNone(p[1..], sep);
      assert [p[0]] + p[1..] == p;
    }
  }

  /** `Split` inverts `Join` exactly on parts that hold no separator. */
  lemma {:induction false} SplitJoin(parts: seq<string>, sep: char)
    requires |parts| > 0
    requires forall i :: 0 <= i < |parts| ==> sep !in parts[i]
    ensures Split(Join(parts, sep), sep) == parts
  {
    if |parts| == 1 {
      SplitNone(parts[0], sep);
    } else {
      SplitAfter(parts[0], Join(parts[1..], sep), sep);
      SplitJoin(parts[1..], sep);
    }
  }

  /** The parts of a split never hold the separator. */
  lemma {:induction false} SplitClean(s: string, sep: char)
    ensures forall i :: 0 <= i < |Split(s, sep)| ==> sep !in Split(s, sep)[i]
  {
    if s != "" {
      SplitClean(s[1..], sep);
    }
  }

  lemma {:induction false} JoinOnto(part: string, rest: seq<string>, sep: char)
    requires |rest| > 0
    ensures Join([part] + rest, sep) == part + [sep] + Join(rest, sep)
  {
    assert ([part] + rest)[1..] == rest;
  }

  lemma {:induction false} JoinFirst(c: char, parts: seq<string>, sep: char)
    requires |parts| > 0
    ensures Join([[c] + parts[0]] + parts[1..], sep) == [c] + Join(parts, sep)
  {
    if |parts| > 1 {
      JoinOnto([c] + parts[0], parts[1..], sep);
      JoinOnto(parts[0], parts[1..], sep);
      assert [parts[0]] + parts[1..] == parts;
      hide Join;
    }
  }

  /** And `Join` puts together what `Split` took apart. */
  lemma {:induction false} JoinSplit(s: string, sep: char)
    ensures Join(Split(s, sep), sep) == s
  {
    if s != "" {
      var c, rest := s[0], Split(s[1..], sep);
      JoinSplit(s[1..], sep);
      assert s == [c] + s[1..];
      JoinOnto("", rest, sep);
      JoinFirst(c, rest, sep);
      assert Split(s, sep) == if c == sep then [""] + rest else [[c] + rest[0]] + rest[1..];
      hide Join, Split;
    }
  }
}
