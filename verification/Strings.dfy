/** The few string operations the models need: splitting and joining on a character, splitting
    into lines, and zero-padded decimal numerals. */
module Strings {
  // ----- str.strip, for the white space of ASCII

  predicate IsSpace(c: char) {
    c == ' ' || '\t' <= c <= '\r' || '\U{1c}' <= c <= '\U{1f}'
  }

  function Strip(s: string): string
    decreases |s|
  {
    if s == "" then ""
    else if IsSpace(s[0]) then Strip(s[1..])
    else if IsSpace(s[|s| - 1]) then Strip(s[..|s| - 1])
    else s
  }

  /** The white space: blank, tab, the line and page breaks, and the four separators from 1C on. */
  lemma SpaceMeans(c: char)
    ensures IsSpace(c) <==> c in {' ', '\t', '\n', '\U{0B}', '\U{0C}', '\r', '\U{1C}', '\U{1D}', '\U{1E}', '\U{1F}'}
  {
  }

  predicate AllSpace(s: string) {
    forall c <- s :: IsSpace(c)
  }

  /** Stripping takes off white space at both ends, and all of it. */
  lemma {:induction false} StripMeans(s: string) returns (front: string, back: string)
    ensures s == front + Strip(s) + back && AllSpace(front) && AllSpace(back)
    ensures Strip(s) != "" ==> !IsSpace(Strip(s)[0]) && !IsSpace(Strip(s)[|Strip(s)| - 1])
    decreases |s|
  {
    hide IsSpace;
    front, back := "", "";
    if s != "" {
      if IsSpace(s[0]) {
        front, back := StripMeans(s[1..]);
        front := [s[0]] + front;
      } else if IsSpace(s[|s| - 1]) {
        front, back := StripMeans(s[..|s| - 1]);
        back := back + [s[|s| - 1]];
      }
    }
  }

  // ----- str.split and str.join

  /** Like `str.split(sep)`: always at least one part, possibly empty ones. */
  function Split(s: string, sep: char): (parts: seq<string>)
    ensures parts != []
  {
    if s == "" then [""]
    else
      var rest := Split(s[1..], sep);
      if s[0] == sep then [""] + rest else [[s[0]] + rest[0]] + rest[1..]
  }

  function Join(parts: seq<string>, sep: char): string {
    if parts == [] then ""
    else if |parts| == 1 then parts[0]
    else parts[0] + [sep] + Join(parts[1..], sep)
  }

  lemma {:induction false} SplitWord(w: string, sep: char)
    requires sep !in w
    ensures Split(w, sep) == [w]
  {
    if w != "" {
      SplitWord(w[1..], sep);
      assert w == [w[0]] + w[1..];
    }
  }

  lemma {:induction false} SplitFirst(w: string, rest: string, sep: char)
    requires sep !in w
    ensures Split(w + [sep] + rest, sep) == [w] + Split(rest, sep)
  {
    var s := w + [sep] + rest;
    if w == "" {
      assert s[1..] == rest;
    } else {
      SplitFirst(w[1..], rest, sep);
      assert s[1..] == w[1..] + [sep] + rest;
      assert w == [w[0]] + w[1..];
    }
  }

  /** Splitting undoes joining when no part contains the separator. */
  lemma {:induction false} SplitJoin(parts: seq<string>, sep: char)
    requires parts != [] && forall p <- parts :: sep !in p
    ensures Split(Join(parts, sep), sep) == parts
  {
    if |parts| == 1 {
      SplitWord(parts[0], sep);
    } else {
      SplitFirst(parts[0], Join(parts[1..], sep), sep);
      SplitJoin(parts[1..], sep);
    }
  }

  lemma {:induction false} JoinAvoids(parts: seq<string>, sep: char, c: char)
    requires c != sep && forall p <- parts :: c !in p
    ensures c !in Join(parts, sep)
  {
    if |parts| > 1 {
      JoinAvoids(parts[1..], sep, c);
    }
  }

  // ----- str.splitlines

  predicate IsLineBreak(c: char) {
    c in {'\n', '\r', '\U{0B}', '\U{0C}', '\U{1C}', '\U{1D}', '\U{1E}', '\U{85}', '\U{2028}', '\U{2029}'}
  }

  /** Like `str.splitlines()`: a carriage return and line feed together end one line, and a break
      at the very end starts no further line. */
  function Lines(s: string): seq<string> {
    if s == "" then []
    else if "\r\n" <= s then [""] + Lines(s[2..])
    else if IsLineBreak(s[0]) then [""] + Lines(s[1..])
    else
      var rest := Lines(s[1..]);
      if rest == [] then [[s[0]]] else [[s[0]] + rest[0]] + rest[1..]
  }

  predicate SingleLine(s: string) {
    forall c <- s :: !IsLineBreak(c)
  }

  /** Each line followed by a line feed. */
  function Unlines(lines: seq<string>): string {
    if lines == [] then "" else lines[0] + "\n" + Unlines(lines[1..])
  }

  lemma {:induction false} FirstLine(w: string, rest: string)
    requires SingleLine(w)
    ensures Lines(w + "\n" + rest) == [w] + Lines(rest)
  {
    var s := w + "\n" + rest;
    if w == "" {
      assert s[1..] == rest;
      assert s[0] == '\n';
    } else {
      assert !IsLineBreak(s[0]) by { assert s[0] == w[0] && w[0] in w; }
      FirstLine(w[1..], rest);
      assert s[1..] == w[1..] + "\n" + rest;
      assert w == [w[0]] + w[1..];
    }
  }

  /** Splitting into lines undoes writing them, and each is ended by one line feed, the last too. */
  lemma {:induction false} LinesUnlines(lines: seq<string>)
    requires forall l <- lines :: SingleLine(l)
    ensures Lines(Unlines(lines)) == lines
    ensures Split(Unlines(lines), '\n') == lines + [""]
  {
    if lines != [] {
      FirstLine(lines[0], Unlines(lines[1..]));
      LinesUnlines(lines[1..]);
      assert lines[0] + ['\n'] + Unlines(lines[1..]) == Unlines(lines);
      assert '\n' !in lines[0];
      SplitFirst(lines[0], Unlines(lines[1..]), '\n');
      assert lines + [""] == [lines[0]] + (lines[1..] + [""]);
    }
  }

  // ----- decimal numerals

  predicate IsDigit(c: char) {
    '0' <= c <= '9'
  }

  predicate AllDigits(s: string) {
    s != "" && forall c <- s :: IsDigit(c)
  }

  function Digit(n: nat): char
    requires n < 10
  {
    '0' + n as char
  }

  function DigitValue(c: char): nat
    requires IsDigit(c)
  {
    c as int - '0' as int
  }

  function Decimal(n: nat): (s: string)
    ensures AllDigits(s)
  {
    if n < 10 then [Digit(n)] else Decimal(n / 10) + [Digit(n % 10)]
  }

  /** A format like `{n:06d}`: at least `width` digits, zeros in front. */
  function Padded(n: nat, width: nat): (s: string)
    ensures AllDigits(s) && |s| >= width
  {
    PadTo(Decimal(n), width)
  }

  function PadTo(s: string, width: nat): (r: string)
    requires AllDigits(s)
    ensures AllDigits(r) && |r| >= width
    decreases if |s| < width then width - |s| else 0
  {
    if |s| < width then PadTo("0" + s, width) else s
  }

  /** The value of a numeral, leading zeros allowed. */
  function NumeralValue(s: string): nat
    requires forall c <- s :: IsDigit(c)
  {
    if s == "" then 0
    else
      var last := s[|s| - 1];
      assert last in s;
      10 * NumeralValue(s[..|s| - 1]) + DigitValue(last)
  }

  lemma {:induction false} DecimalValue(n: nat)
    ensures NumeralValue(Decimal(n)) == n
  {
    var s := Decimal(n);
    if n < 10 {
      assert s[..0] == "";
    } else {
      DecimalValue(n / 10);
      assert s[..|s| - 1] == Decimal(n / 10);
    }
  }

  lemma {:induction false} LeadingZero(s: string)
    requires forall c <- s :: IsDigit(c)
    ensures NumeralValue("0" + s) == NumeralValue(s)
  {
    var z := "0" + s;
    if s == "" {
      assert z[..0] == "";
    } else {
      LeadingZero(s[..|s| - 1]);
      assert z[..|z| - 1] == "0" + s[..|s| - 1];
    }
  }

  lemma {:induction false} PadToValue(s: string, width: nat)
    requires AllDigits(s)
    ensures NumeralValue(PadTo(s, width)) == NumeralValue(s)
    decreases if |s| < width then width - |s| else 0
  {
    if |s| < width {
      PadToValue("0" + s, width);
      LeadingZero(s);
    }
  }

  lemma {:induction false} DecimalHasNoZeroInFront(n: nat)
    ensures n > 0 ==> Decimal(n)[0] != '0'
  {
    if n >= 10 {
      DecimalHasNoZeroInFront(n / 10);
    }
  }

  lemma {:induction false} PadToShape(s: string, width: nat)
    requires AllDigits(s)
    ensures PadTo(s, width) == seq(if |s| < width then width - |s| else 0, _ => '0') + s
    decreases if |s| < width then width - |s| else 0
  {
    if |s| < width {
      PadToShape("0" + s, width);
      assert "0" + s == ['0'] + s;
    }
  }

  /** A numeral padded to a width is as wide, or wider and without a zero in front. */
  lemma PaddedShape(n: nat, width: nat)
    ensures |Padded(n, width)| == width || (|Padded(n, width)| > width && (Padded(n, width)[0] != '0' || n == 0))
  {
    PadToShape(Decimal(n), width);
    DecimalHasNoZeroInFront(n);
  }

  /** Reading undoes printing, whatever the width. */
  lemma PaddedValue(n: nat, width: nat)
    ensures NumeralValue(Padded(n, width)) == n
  {
    PadToValue(Decimal(n), width);
    DecimalValue(n);
  }

  lemma PaddedInjective(n: nat, m: nat, width: nat)
    ensures Padded(n, width) == Padded(m, width) ==> n == m
  {
    PaddedValue(n, width);
    PaddedValue(m, width);
  }
}
