/** The string functions of Go's standard library that the SDP code uses, on ASCII text. */
module Text {
  datatype Option<+T> = None | Some(value: T)

  predicate IsSpace(c: char) { c == ' ' || '\t' <= c <= '\r' }

  predicate NoSpace(s: string) { forall i | 0 <= i < |s| :: !IsSpace(s[i]) }

  // ---------------------------------------------------------------------------------------------
  // Numbers
  // ---------------------------------------------------------------------------------------------

  predicate IsDigit(c: char) { '0' <= c <= '9' }

  predicate AllDigits(s: string) { forall i | 0 <= i < |s| :: IsDigit(s[i]) }

  function DigitChar(d: nat): (c: char)
    requires d < 10
    ensures IsDigit(c) && c as int - '0' as int == d
  {
    '0' + d as char
  }

  /** The %d of a non-negative number. */
  function Decimal(n: nat): (s: string)
    ensures s != "" && AllDigits(s)
  {
    if n < 10 then [DigitChar(n)] else Decimal(n / 10) + [DigitChar(n % 10)]
  }

  function Value(s: string): nat
    requires AllDigits(s)
  {
    if s == "" then 0 else 10 * Value(s[..|s| - 1]) + (s[|s| - 1] as int - '0' as int)
  }

  lemma {:induction false} DecimalValue(n: nat)
    ensures Value(Decimal(n)) == n
  {
    if n >= 10 {
      DecimalValue(n / 10);
      var s := Decimal(n);
      assert s[..|s| - 1] == Decimal(n / 10);
    }
  }

  lemma {:induction false} DecimalNoSpace(n: nat)
    ensures NoSpace(Decimal(n))
  {}

  /** strconv.ParseUint(s, 10, 8). */
  function ParseByte(s: string): Option<nat> {
    if s == "" || !AllDigits(s) || Value(s) > 255 then None else Some(Value(s))
  }

  /** strconv.Atoi. */
  function Atoi(s: string): Option<int> {
    if s == "" then None
    else if s[0] == '-' || s[0] == '+' then
      var d := s[1..];
      if d == "" || !AllDigits(d) then None
      else if s[0] == '-' then (if Value(d) > 0x8000_0000_0000_0000 then None else Some(0 - Value(d)))
      else (if Value(d) > 0x7FFF_FFFF_FFFF_FFFF then None else Some(Value(d)))
    else if !AllDigits(s) || Value(s) > 0x7FFF_FFFF_FFFF_FFFF then None
    else Some(Value(s))
  }

  lemma {:induction false} AtoiDecimal(n: nat)
    requires n <= 0x7FFF_FFFF_FFFF_FFFF
    ensures Atoi(Decimal(n)) == Some(n)
  {
    DecimalValue(n);
    assert IsDigit(Decimal(n)[0]);
  }

  lemma {:induction false} ParseByteDecimal(n: nat)
    requires n <= 255
    ensures ParseByte(Decimal(n)) == Some(n)
  {
    DecimalValue(n);
  }

  // ---------------------------------------------------------------------------------------------
  // Spaces and fields
  // ---------------------------------------------------------------------------------------------

  function TrimLeft(s: string): string {
    if s != "" && IsSpace(s[0]) then TrimLeft(s[1..]) else s
  }

  function TrimRight(s: string): string {
    if s != "" && IsSpace(s[|s| - 1]) then TrimRight(s[..|s| - 1]) else s
  }

  /** strings.TrimSpace. */
  function TrimSpace(s: string): string { TrimRight(TrimLeft(s)) }

  lemma {:induction false} TrimNothing(s: string)
    requires s != "" ==> !IsSpace(s[0]) && !IsSpace(s[|s| - 1])
    ensures TrimSpace(s) == s
  {}

  /** The length of the leading run of characters other than spaces. */
  function WordLength(s: string): (n: nat)
    ensures n <= |s| && NoSpace(s[..n]) && (n < |s| ==> IsSpace(s[n]))
  {
    if s == "" || IsSpace(s[0]) then 0 else
      var n := WordLength(s[1..]);
      assert s[..n + 1] == [s[0]] + s[1..][..n];
      n + 1
  }

  /** strings.Fields. */
  function Fields(s: string): seq<string>
    decreases |s|
  {
    if s == "" then []
    else if IsSpace(s[0]) then Fields(s[1..])
    else
      var n := WordLength(s);
      [s[..n]] + Fields(s[n..])
  }

  lemma {:induction false} WordLengthOf(w: string, rest: string)
    requires NoSpace(w) && (rest != "" ==> IsSpace(rest[0]))
    ensures WordLength(w + rest) == |w|
  {
    if w == "" {
      assert w + rest == rest;
    } else {
      assert (w + rest)[1..] == w[1..] + rest;
      WordLengthOf(w[1..], rest);
    }
  }

  lemma {:induction false} FieldsOne(w: string)
    requires w != "" && NoSpace(w)
    ensures Fields(w) == [w]
  {
    WordLengthOf(w, "");
    assert w + "" == w;
    assert w[|w|..] == "";
  }

  lemma {:induction false} FieldsCons(w: string, rest: string)
    requires w != "" && NoSpace(w)
    ensures Fields(w + " " + rest) == [w] + Fields(rest)
  {
    var s := w + " " + rest;
    assert s == w + (" " + rest);
    WordLengthOf(w, " " + rest);
    assert s[..|w|] == w && s[|w|..] == " " + rest;
    assert (" " + rest)[1..] == rest;
  }

  // ---------------------------------------------------------------------------------------------
  // Lines
  // ---------------------------------------------------------------------------------------------

  /** bufio.MaxScanTokenSize. */
  const MAX_TOKEN := 65536

  function IndexNewline(s: string): (n: nat)
    ensures n <= |s| && (n < |s| ==> s[n] == '\n') && forall i | 0 <= i < n :: s[i] != '\n'
  {
    if s == "" || s[0] == '\n' then 0 else 1 + IndexNewline(s[1..])
  }

  function DropCR(s: string): string {
    if s != "" && s[|s| - 1] == '\r' then s[..|s| - 1] else s
  }

  /** What a bufio.Scanner delivers line by line. It gives up for good at a line that does not fit its
      buffer. */
  function Lines(s: string): seq<string>
    decreases |s|
  {
    if s == "" then [] else
      var n := IndexNewline(s);
      if n < |s| then (if n + 1 > MAX_TOKEN then [] else [DropCR(s[..n])] + Lines(s[n + 1..]))
      else if |s| >= MAX_TOKEN then [] else [DropCR(s)]
  }

  predicate OneLine(s: string) { forall i | 0 <= i < |s| :: s[i] != '\n' }

  lemma {:induction false} NewlineAt(line: string, rest: string)
    requires OneLine(line)
    ensures IndexNewline(line + "\r\n" + rest) == |line| + 1
  {
    if line == "" {
      assert (line + "\r\n" + rest)[1..] == "\n" + rest;
    } else {
      assert (line + "\r\n" + rest)[1..] == line[1..] + "\r\n" + rest;
      NewlineAt(line[1..], rest);
    }
  }

  lemma {:induction false} LinesCons(line: string, rest: string)
    requires OneLine(line)
    ensures Lines(line + "\r\n" + rest) == if |line| + 2 > MAX_TOKEN then [] else [line] + Lines(rest)
  {
    var s := line + "\r\n" + rest;
    NewlineAt(line, rest);
    assert s[..|line| + 1] == line + "\r";
    assert DropCR(line + "\r") == line;
    assert s[|line| + 2..] == rest;
  }

  /** What a loop over the lines makes of them, one `step` a line. */
  function Fold<S>(step: (S, string) -> S, start: S, lines: seq<string>): S {
    if lines == [] then start else step(Fold(step, start, lines[..|lines| - 1]), lines[|lines| - 1])
  }

  lemma {:induction false} FoldConcat<S>(step: (S, string) -> S, start: S, a: seq<string>, b: seq<string>)
    ensures Fold(step, start, a + b) == Fold(step, Fold(step, start, a), b)
  {
    if b == [] {
      assert a + b == a;
    } else {
      assert (a + b)[..|a + b| - 1] == a + b[..|b| - 1];
      FoldConcat(step, start, a, b[..|b| - 1]);
    }
  }

  lemma {:induction false} FoldOne<S>(step: (S, string) -> S, start: S, a: string)
    ensures Fold(step, start, [a]) == step(start, a)
  {
    assert [a][..0] == [];
    assert Fold(step, start, []) == start;
  }

  /** A loop over three lines, by the three values it passes through. */
  lemma {:induction false} FoldThree<S>(step: (S, string) -> S, start: S, lines: seq<string>, one: S, two: S, three: S)
    requires |lines| == 3
    requires step(start, lines[0]) == one && step(one, lines[1]) == two && step(two, lines[2]) == three
    ensures Fold(step, start, lines) == three
  {
    FoldOne(step, start, lines[0]);
    FoldOne(step, one, lines[1]);
    FoldOne(step, two, lines[2]);
    FoldConcat(step, start, [lines[0]], [lines[1]]);
    FoldConcat(step, start, [lines[0]] + [lines[1]], [lines[2]]);
    assert lines == [lines[0]] + [lines[1]] + [lines[2]];
  }

  /** Lines that a loop ignores change nothing. */
  lemma {:induction false} FoldIgnores<S>(step: (S, string) -> S, start: S, lines: seq<string>)
    requires forall i | 0 <= i < |lines| :: step(start, lines[i]) == start
    ensures Fold(step, start, lines) == start
  {
    if lines != [] { FoldIgnores(step, start, lines[..|lines| - 1]); }
  }

  // ---------------------------------------------------------------------------------------------
  // Parts
  // ---------------------------------------------------------------------------------------------

  predicate HasPrefix(s: string, prefix: string) { prefix <= s }

  /** strings.TrimPrefix of a string that has the prefix. */
  function AfterPrefix(s: string, prefix: string): string
    requires HasPrefix(s, prefix)
  {
    s[|prefix|..]
  }

  /** strings.SplitN(s, "/", 2)[0]. */
  function BeforeSlash(s: string): string {
    if s == "" || s[0] == '/' then "" else [s[0]] + BeforeSlash(s[1..])
  }

  lemma {:induction false} BeforeSlashOf(a: string, b: string)
    requires forall i | 0 <= i < |a| :: a[i] != '/'
    ensures BeforeSlash(a + "/" + b) == a
  {
    if a == "" {
      assert a + "/" + b == "/" + b;
    } else {
      assert (a + "/" + b)[1..] == a[1..] + "/" + b;
      BeforeSlashOf(a[1..], b);
    }
  }

  function LowerChar(c: char): char { if 'A' <= c <= 'Z' then c - 'A' + 'a' else c }

  /** strings.ToLower. */
  function ToLower(s: string): string { seq(|s|, i requires 0 <= i < |s| => LowerChar(s[i])) }
}
