/**
 * The pieces of Go's standard library that the modelled code uses to build and split
 * text: decimal printing (`%d`, `strconv.Itoa`), `strings.Fields`, `fmt.Fprintln` lines
 * and the lower-case hexadecimal of `net.HardwareAddr.String`.
 */
module Strings {
  import opened Ints

  predicate IsDigit(c: char) { '0' <= c <= '9' }

  predicate AllDigits(s: string) { forall i :: 0 <= i < |s| ==> IsDigit(s[i]) }

  function DigitChar(d: nat): (c: char)
    requires d < 10
    ensures IsDigit(c) && c as int - '0' as int == d
  {
    ('0' as int + d) as char
  }

  function DigitValue(c: char): (d: nat)
    requires IsDigit(c)
    ensures d < 10 && DigitChar(d) == c
  {
    c as int - '0' as int
  }

  /** The decimal digits of `n` without leading zeros, as `%d` prints a non-negative integer. */
  function Decimal(n: nat): (s: string)
    ensures |s| >= 1 && AllDigits(s)
    ensures n >= 1 ==> s[0] != '0'
  {
    if n < 10 then [DigitChar(n)] else Decimal(n / 10) + [DigitChar(n % 10)]
  }

  /** Reads a string of decimal digits back as a number (the inverse of `Decimal`). */
  function ParseDecimal(s: string): nat
    requires AllDigits(s)
  {
    if s == [] then 0 else ParseDecimal(s[..|s| - 1]) * 10 + DigitValue(s[|s| - 1])
  }

  lemma {:induction false} DecimalRoundTrip(n: nat)
    ensures ParseDecimal(Decimal(n)) == n
  {
    if n >= 10 {
      var s := Decimal(n);
      assert s[..|s| - 1] == Decimal(n / 10);
      DecimalRoundTrip(n / 10);
    }
  }

  /** Distinct numbers print differently. */
  lemma DecimalInjective(m: nat, n: nat)
    requires Decimal(m) == Decimal(n)
    ensures m == n
  {
    DecimalRoundTrip(m);
    DecimalRoundTrip(n);
  }

  /** `strconv.Itoa` and `%d` on a signed integer. */
  function Itoa(i: int): (s: string)
    ensures |s| >= 1
    ensures i >= 0 ==> AllDigits(s)
    ensures i < 0 ==> s[0] == '-' && AllDigits(s[1..])
  {
    if i < 0 then "-" + Decimal(-i) else Decimal(i)
  }

  /** Go's `unicode.IsSpace`: the Latin-1 spaces and the rest of Unicode's White_Space set. */
  predicate IsSpace(c: char) {
    c == ' ' || c == '\t' || c == '\n' || c == '\U{000B}' || c == '\U{000C}' || c == '\r'
    || c == '\U{0085}' || c == '\U{00A0}' || c == '\U{1680}'
    || ('\U{2000}' <= c <= '\U{200A}') || c == '\U{2028}' || c == '\U{2029}'
    || c == '\U{202F}' || c == '\U{205F}' || c == '\U{3000}'
  }

  /** A field as `strings.Fields` returns it: non-empty, without white space. */
  predicate IsField(w: string) {
    |w| >= 1 && forall i :: 0 <= i < |w| ==> !IsSpace(w[i])
  }

  /** The longest prefix of `s` without white space. */
  function Word(s: string): (w: string)
    ensures |w| <= |s| && w == s[..|w|]
    ensures forall i :: 0 <= i < |w| ==> !IsSpace(w[i])
    ensures |w| < |s| ==> IsSpace(s[|w|])
  {
    if s == [] || IsSpace(s[0]) then [] else [s[0]] + Word(s[1..])
  }

  /** `strings.Fields`: the maximal runs of non-space characters, in order. */
  function Fields(s: string): (fs: seq<string>)
    ensures forall i :: 0 <= i < |fs| ==> IsField(fs[i])
    decreases |s|
  {
    if s == [] then []
    else if IsSpace(s[0]) then Fields(s[1..])
    else
      var w := Word(s);
      [w] + Fields(s[|w|..])
  }

  /** Fields joined by single spaces (the counterpart of `Fields`). */
  function JoinSpaced(fs: seq<string>): string {
    if |fs| == 0 then ""
    else if |fs| == 1 then fs[0]
    else fs[0] + " " + JoinSpaced(fs[1..])
  }

  lemma WordOfField(w: string, rest: string)
    requires IsField(w)
    requires rest == [] || IsSpace(rest[0])
    ensures Word(w + rest) == w
    decreases |w|
  {
    if |w| > 1 {
      assert (w + rest)[1..] == w[1..] + rest;
      WordOfField(w[1..], rest);
    } else {
      assert (w + rest)[1..] == rest;
    }
  }

  /** Splitting single-space-joined fields gives the fields back. */
  lemma {:induction false} FieldsOfJoin(fs: seq<string>)
    requires forall i :: 0 <= i < |fs| ==> IsField(fs[i])
    ensures Fields(JoinSpaced(fs)) == fs
  {
    if |fs| == 1 {
      WordOfField(fs[0], []);
      assert fs[0] + [] == fs[0];
      assert JoinSpaced(fs)[|fs[0]|..] == [];
    } else if |fs| > 1 {
      var s := JoinSpaced(fs);
      var rest := " " + JoinSpaced(fs[1..]);
      assert s == fs[0] + rest;
      WordOfField(fs[0], rest);
      assert s[|fs[0]|..] == rest;
      assert rest[1..] == JoinSpaced(fs[1..]);
      FieldsOfJoin(fs[1..]);
      assert [fs[0]] + fs[1..] == fs;
    }
  }

  /** The text a sequence of `fmt.Fprintln(w, line)` calls writes: every line followed by "\n". */
  function Lines(ls: seq<string>): string {
    if ls == [] then "" else ls[0] + "\n" + Lines(ls[1..])
  }

  /** Writing one more line appends it, with its terminator, to what was written before. */
  lemma {:induction false} LinesSnoc(ls: seq<string>, l: string)
    ensures Lines(ls + [l]) == Lines(ls) + l + "\n"
  {
    if ls != [] {
      assert (ls + [l])[1..] == ls[1..] + [l];
      LinesSnoc(ls[1..], l);
    }
  }

  /** The longest prefix of `s` without a line break. */
  function Line(s: string): (l: string)
    ensures |l| <= |s| && l == s[..|l|] && NoNewline(l)
    ensures |l| < |s| ==> s[|l|] == '\n'
  {
    if s == [] || s[0] == '\n' then [] else [s[0]] + Line(s[1..])
  }

  /** Splits text at every "\n"; a final terminator ends the last line (the counterpart of `Lines`). */
  function SplitLines(s: string): seq<string>
    decreases |s|
  {
    if s == [] then []
    else
      var l := Line(s);
      if |l| == |s| then [l] else [l] + SplitLines(s[|l| + 1..])
  }

  lemma LineOfTerminated(l: string, rest: string)
    requires NoNewline(l)
    ensures Line(l + "\n" + rest) == l
    decreases |l|
  {
    if |l| > 0 {
      assert (l + "\n" + rest)[1..] == l[1..] + "\n" + rest;
      LineOfTerminated(l[1..], rest);
    }
  }

  /** Lines written with `Fprintln` split back into the same lines, when none holds a line break. */
  lemma {:induction false} SplitLinesOfLines(ls: seq<string>)
    requires forall i :: 0 <= i < |ls| ==> NoNewline(ls[i])
    ensures SplitLines(Lines(ls)) == ls
  {
    if ls != [] {
      var s := Lines(ls);
      LineOfTerminated(ls[0], Lines(ls[1..]));
      assert s[|ls[0]| + 1..] == Lines(ls[1..]);
      SplitLinesOfLines(ls[1..]);
      assert [ls[0]] + ls[1..] == ls;
    }
  }

  predicate NoNewline(l: string) { forall i :: 0 <= i < |l| ==> l[i] != '\n' }

  /** Hexadecimal digit as Go prints it in lower case. */
  function HexDigit(d: nat): (c: char)
    requires d < 16
  {
    if d < 10 then DigitChar(d) else ('a' as int + (d - 10)) as char
  }

  /** The two lower-case hexadecimal digits of a byte (`%02x`). */
  function Hex2(b: byte): (s: string)
    ensures |s| == 2
  {
    [HexDigit(b as int / 16), HexDigit(b as int % 16)]
  }
}
