/** The PHP string built-ins the ORM relies on: `join`/`implode`, `explode`,
    `trim`, `empty` on strings, `array_fill(0, n, "?")`, integer-to-string
    concatenation and the `(int)` cast of a numeric string. */
module PhpStrings {

  /** `join(glue, pieces)`: the pieces in order with `glue` between neighbours. */
  function Join(glue: string, pieces: seq<string>): string
    decreases |pieces|
  {
    if |pieces| == 0 then ""
    else if |pieces| == 1 then pieces[0]
    else Join(glue, pieces[..|pieces| - 1]) + glue + pieces[|pieces| - 1]
  }

  /** Joining a non-empty list after a first element puts one glue between them. */
  lemma {:induction false} JoinCons(glue: string, x: string, ps: seq<string>)
    requires |ps| >= 1
    ensures Join(glue, [x] + ps) == x + glue + Join(glue, ps)
    decreases |ps|
  {
    var q := [x] + ps;
    if |ps| == 1 {
      assert q[..|q| - 1] == [x];
    } else {
      assert q[..|q| - 1] == [x] + ps[..|ps| - 1];
      JoinCons(glue, x, ps[..|ps| - 1]);
    }
  }

  /** A character of a joined string comes from the glue or from one of the pieces. */
  lemma {:induction false} JoinChars(glue: string, ps: seq<string>, c: char)
    requires c !in glue
    requires forall i :: 0 <= i < |ps| ==> c !in ps[i]
    ensures c !in Join(glue, ps)
    decreases |ps|
  {
    if |ps| > 1 {
      JoinChars(glue, ps[..|ps| - 1], c);
    }
  }

  /** `explode(c, s)`: the maximal runs of `s` between occurrences of `c`. */
  function Split(s: string, c: char): (parts: seq<string>)
    ensures |parts| >= 1
    decreases |s|
  {
    if |s| == 0 then [""]
    else
      var rest := Split(s[1..], c);
      if s[0] == c then [""] + rest else [[s[0]] + rest[0]] + rest[1..]
  }

  /** No part of `explode(c, s)` contains `c`. */
  lemma {:induction false} SplitPartsFree(s: string, c: char)
    ensures forall i :: 0 <= i < |Split(s, c)| ==> c !in Split(s, c)[i]
    decreases |s|
  {
    if |s| > 0 {
      SplitPartsFree(s[1..], c);
    }
  }

  /** Every character of a part of `explode(c, s)` is a character of `s`. */
  lemma {:induction false} SplitPartsChars(s: string, c: char, d: char)
    requires d !in s
    ensures forall i :: 0 <= i < |Split(s, c)| ==> d !in Split(s, c)[i]
    decreases |s|
  {
    if |s| > 0 {
      SplitPartsChars(s[1..], c, d);
      var rest := Split(s[1..], c);
      if s[0] != c {
        assert d !in [s[0]] + rest[0];
      }
    }
  }

  /** Joining the parts of `explode(c, s)` with `c` gives back `s`. */
  lemma {:induction false} JoinSplit(s: string, c: char)
    ensures Join([c], Split(s, c)) == s
    decreases |s|
  {
    if |s| > 0 {
      JoinSplit(s[1..], c);
      assert s == [s[0]] + s[1..];
      if s[0] == c {
        JoinSeparatorFirst(c, s[1..], Split(s[1..], c));
      } else {
        JoinCharFirst(s[0], c, s[1..], Split(s[1..], c));
      }
    }
  }

  lemma ConcatAssoc(a: string, b: string, g: string, d: string)
    ensures a + b + g + d == a + (b + g + d)
  {
  }

  /** A separator in front: an empty first part, then the rest's parts. */
  lemma JoinSeparatorFirst(c: char, t: string, rest: seq<string>)
    requires |rest| >= 1 && Join([c], rest) == t
    ensures Join([c], [""] + rest) == [c] + t
  {
    JoinCons([c], "", rest);
  }

  /** Another character in front joins the rest's first part. */
  lemma JoinCharFirst(x: char, c: char, t: string, rest: seq<string>)
    requires |rest| >= 1 && Join([c], rest) == t
    ensures Join([c], [[x] + rest[0]] + rest[1..]) == [x] + t
  {
    var r0, tl := rest[0], rest[1..];
    if |rest| > 1 {
      var j := Join([c], tl);
      assert t == r0 + [c] + j by {
        assert rest == [r0] + tl;
        JoinCons([c], r0, tl);
      }
      JoinCons([c], [x] + r0, tl);
      ConcatAssoc([x], r0, [c], j);
    } else {
      assert [[x] + r0] + tl == [[x] + r0];
    }
  }

  /** A string without `c`, followed by `c` and a tail, splits into that string and the tail's parts. */
  lemma {:induction false} SplitAfterSeparator(x: string, t: string, c: char)
    requires c !in x
    ensures Split(x + [c] + t, c) == [x] + Split(t, c)
    decreases |x|
  {
    var s := x + [c] + t;
    if |x| == 0 {
      assert s[1..] == t;
    } else {
      assert s[1..] == x[1..] + [c] + t;
      SplitAfterSeparator(x[1..], t, c);
      assert [x[0]] + x[1..] == x;
    }
  }

  /** A string without `c` is its own single part. */
  lemma {:induction false} SplitWithoutSeparator(x: string, c: char)
    requires c !in x
    ensures Split(x, c) == [x]
    decreases |x|
  {
    if |x| > 0 {
      SplitWithoutSeparator(x[1..], c);
      assert [x[0]] + x[1..] == x;
    }
  }

  /** Splitting a `c`-join of `c`-free parts recovers the parts. */
  lemma {:induction false} SplitJoin(ps: seq<string>, c: char)
    requires |ps| >= 1
    requires forall i :: 0 <= i < |ps| ==> c !in ps[i]
    ensures Split(Join([c], ps), c) == ps
    decreases |ps|
  {
    if |ps| == 1 {
      SplitWithoutSeparator(ps[0], c);
    } else {
      var tail := ps[1..];
      assert ps == [ps[0]] + tail;
      JoinCons([c], ps[0], tail);
      SplitJoin(tail, c);
      SplitAfterSeparator(ps[0], Join([c], tail), c);
    }
  }

  /** The characters PHP's `trim` strips by default: " \t\n\r\0\x0B". */
  predicate IsTrimChar(ch: char) {
    ch == ' ' || ch == '\t' || ch == '\n' || ch == '\r' || ch == 0 as char || ch == 11 as char
  }

  function TrimLeft(s: string): (r: string)
    ensures |r| <= |s| && r == s[|s| - |r|..]
    ensures forall i :: 0 <= i < |s| - |r| ==> IsTrimChar(s[i])
    ensures |r| > 0 ==> !IsTrimChar(r[0])
    decreases |s|
  {
    if |s| > 0 && IsTrimChar(s[0]) then TrimLeft(s[1..]) else s
  }

  function TrimRight(s: string): (r: string)
    ensures |r| <= |s| && r == s[..|r|]
    ensures forall i :: |r| <= i < |s| ==> IsTrimChar(s[i])
    ensures |r| > 0 ==> !IsTrimChar(r[|r| - 1])
    decreases |s|
  {
    if |s| > 0 && IsTrimChar(s[|s| - 1]) then TrimRight(s[..|s| - 1]) else s
  }

  /** `trim(s)`. */
  function Trim(s: string): string {
    TrimRight(TrimLeft(s))
  }

  /** Left-trimming a concatenation: once the first part has a non-blank character
      the second part is kept whole; otherwise the first part vanishes. */
  lemma {:induction false} TrimLeftAppend(a: string, b: string)
    ensures TrimLeft(a + b) == if TrimLeft(a) == "" then TrimLeft(b) else TrimLeft(a) + b
    decreases |a|
  {
    if |a| > 0 {
      assert (a + b)[1..] == a[1..] + b;
      TrimLeftAppend(a[1..], b);
    } else {
      assert a + b == b;
    }
  }

  /** Right-trimming leaves a string alone when it ends in a non-blank character. */
  lemma TrimRightKeeps(s: string)
    requires |s| > 0 && !IsTrimChar(s[|s| - 1])
    ensures TrimRight(s) == s
  {
  }

  /** A string that starts and ends with a non-blank character is left alone by `trim`. */
  lemma TrimKeeps(s: string)
    requires |s| > 0 && !IsTrimChar(s[0]) && !IsTrimChar(s[|s| - 1])
    ensures Trim(s) == s
  {
  }

  /** PHP's `empty` on a string: true for "" and for "0". */
  predicate IsEmptyString(s: string) {
    s == "" || s == "0"
  }

  /** The number of `?` placeholders in a SQL text. */
  function Placeholders(s: string): nat {
    multiset(s)['?']
  }

  lemma NoPlaceholders(s: string)
    requires '?' !in s
    ensures Placeholders(s) == 0
  {
    assert '?' !in multiset(s);
  }

  /** The sum of the placeholder counts of a list of fragments. */
  function PlaceholderSum(ps: seq<string>): nat
    decreases |ps|
  {
    if |ps| == 0 then 0 else PlaceholderSum(ps[..|ps| - 1]) + Placeholders(ps[|ps| - 1])
  }

  /** Joining with a glue that has no `?` keeps exactly the pieces' placeholders. */
  lemma {:induction false} JoinPlaceholders(glue: string, ps: seq<string>)
    requires '?' !in glue
    ensures Placeholders(Join(glue, ps)) == PlaceholderSum(ps)
    decreases |ps|
  {
    NoPlaceholders(glue);
    if |ps| == 1 {
      assert ps[..0] == [];
    } else if |ps| > 1 {
      JoinPlaceholders(glue, ps[..|ps| - 1]);
    }
  }

  /** `array_fill(0, n, x)`. */
  function Fill(n: nat, x: string): (r: seq<string>)
    ensures |r| == n && forall i :: 0 <= i < n ==> r[i] == x
  {
    seq(n, _ => x)
  }

  function DigitChar(d: nat): (ch: char)
    requires d < 10
    ensures IsDigit(ch) && DigitValue(ch) == d
  {
    ('0' as int + d) as char
  }

  predicate IsDigit(ch: char) {
    '0' <= ch <= '9'
  }

  function DigitValue(ch: char): nat
    requires IsDigit(ch)
  {
    (ch as int - '0' as int) as nat
  }

  /** The decimal digits of a natural number, as PHP prints it. */
  function NatToString(n: nat): string
    decreases n
  {
    if n < 10 then [DigitChar(n)] else NatToString(n / 10) + [DigitChar(n % 10)]
  }

  /** How PHP renders an integer when it is concatenated to a string. */
  function IntToString(i: int): string {
    if i < 0 then "-" + NatToString(-i) else NatToString(i)
  }

  /** The value of a run of decimal digits. */
  function DigitsValue(s: string): nat
    requires forall i :: 0 <= i < |s| ==> IsDigit(s[i])
    decreases |s|
  {
    if |s| == 0 then 0 else DigitsValue(s[..|s| - 1]) * 10 + DigitValue(s[|s| - 1])
  }

  /** The longest prefix of `s` made of decimal digits. */
  function LeadingDigits(s: string): (r: string)
    ensures |r| <= |s| && r == s[..|r|]
    ensures forall i :: 0 <= i < |r| ==> IsDigit(r[i])
    ensures |r| < |s| ==> !IsDigit(s[|r|])
    decreases |s|
  {
    if |s| > 0 && IsDigit(s[0]) then [s[0]] + LeadingDigits(s[1..]) else ""
  }

  /** The whitespace PHP skips before a numeric string. */
  predicate IsNumericSpace(ch: char) {
    ch == ' ' || ch == '\t' || ch == '\n' || ch == '\r' || ch == 11 as char || ch == 12 as char
  }

  function SkipNumericSpace(s: string): string
    decreases |s|
  {
    if |s| > 0 && IsNumericSpace(s[0]) then SkipNumericSpace(s[1..]) else s
  }

  /** `(int) $s` for a string: leading whitespace, an optional sign, then the leading digits. */
  function StringToInt(s: string): int {
    var t := SkipNumericSpace(s);
    if |t| > 0 && t[0] == '-' then -(DigitsValue(LeadingDigits(t[1..])) as int)
    else if |t| > 0 && t[0] == '+' then DigitsValue(LeadingDigits(t[1..]))
    else DigitsValue(LeadingDigits(t))
  }

  lemma {:induction false} NatToStringDigits(n: nat)
    ensures |NatToString(n)| > 0
    ensures forall i :: 0 <= i < |NatToString(n)| ==> IsDigit(NatToString(n)[i])
    ensures DigitsValue(NatToString(n)) == n
    decreases n
  {
    if n >= 10 {
      NatToStringDigits(n / 10);
      var s := NatToString(n);
      assert s[..|s| - 1] == NatToString(n / 10);
      assert s[|s| - 1] == DigitChar(n % 10);
    }
  }

  lemma {:induction false} LeadingDigitsAll(s: string)
    requires forall i :: 0 <= i < |s| ==> IsDigit(s[i])
    ensures LeadingDigits(s) == s
  {
  }

  /** The `(int)` cast reads back every integer PHP prints. */
  lemma IntToStringRoundTrip(i: int)
    ensures StringToInt(IntToString(i)) == i
  {
    if i < 0 {
      NegativeRoundTrip(-i);
    } else {
      NatRoundTrip(i);
    }
  }

  /** The digits of a natural number read back as that number. */
  lemma NatRoundTrip(n: nat)
    ensures StringToInt(NatToString(n)) == n
  {
    var s := NatToString(n);
    NatToStringDigits(n);
    LeadingDigitsAll(s);
    assert IsDigit(s[0]);
    assert SkipNumericSpace(s) == s;
  }

  /** A minus sign before the digits of n reads back as -n. */
  lemma NegativeRoundTrip(n: nat)
    ensures StringToInt("-" + NatToString(n)) == -(n as int)
  {
    var d := NatToString(n);
    var s := "-" + d;
    NatToStringDigits(n);
    LeadingDigitsAll(d);
    assert s[0] == '-' && s[1..] == d;
    assert SkipNumericSpace(s) == s;
  }
}
