/**
 * The scanner of main/expression_parser.c: which token stands at an index of the text, and how long
 * it is. The NUL that ends a C string is the end of the sequence.
 */
module ExpressionScanner {
  import opened Words

  const INDEX_MAX := 99999

  /** What an operand token denotes. */
  datatype Atom =
    | Number(lit: string)
    | Volts
    | ByteAt(index: nat)
    | BitAt(index: nat, bit: char)
    | SignedAt(index: nat)
    | FloatAt(index: nat)
    | UnsignedRange(first: int, last: int)
    | SignedRange(first: int, last: int)

  predicate IsSpace(c: char) { c == ' ' || '\t' <= c <= '\r' }
  predicate IsDigit(c: char) { '0' <= c <= '9' }

  /** How many leading characters of `s` are digits, or digits and dots. */
  function DigitRun(s: string): (n: nat)
    ensures n <= |s| && Digits(s[..n])
    ensures n < |s| ==> !IsDigit(s[n])
  {
    if s == [] || !IsDigit(s[0]) then 0 else 1 + DigitRun(s[1..])
  }

  function NumberRun(s: string): (n: nat)
    ensures n <= |s|
    ensures forall i | 0 <= i < n :: IsDigit(s[i]) || s[i] == '.'
    ensures n < |s| ==> !IsDigit(s[n]) && s[n] != '.'
  {
    if s == [] || !(IsDigit(s[0]) || s[0] == '.') then 0 else 1 + NumberRun(s[1..])
  }

  function DigitValue(c: char): (v: nat)
    requires IsDigit(c)
    ensures v <= 9
  {
    c as int - '0' as int
  }

  /** The digits are these ten, in this order. */
  lemma TenDigits(c: char)
    ensures IsDigit(c) <==> c in "0123456789"
    ensures IsDigit(c) ==> "0123456789"[DigitValue(c)] == c
  {
  }

  predicate Digits(ds: string) { forall i | 0 <= i < |ds| :: IsDigit(ds[i]) }

  /** The index a digit string stands for. */
  function Decimal(ds: string): nat
    requires Digits(ds)
  {
    if ds == [] then 0 else 10 * Decimal(ds[..|ds| - 1]) + DigitValue(ds[|ds| - 1])
  }

  /** The index scan_byte_index computes: it stops accumulating above 99999. */
  function Saturated(ds: string): nat
    requires Digits(ds)
  {
    if ds == [] then 0
    else
      var n := Saturated(ds[..|ds| - 1]);
      if n <= INDEX_MAX then 10 * n + DigitValue(ds[|ds| - 1]) else n
  }

  /** Any number of zeros in front. */
  function Padded(zeros: nat, n: nat): string { if zeros == 0 then Written(n) else ['0'] + Padded(zeros - 1, n) }

  lemma DecimalAppends(ds: string, c: char)
    requires Digits(ds) && IsDigit(c)
    ensures Digits(ds + [c]) && Decimal(ds + [c]) == 10 * Decimal(ds) + DigitValue(c)
  {
    assert (ds + [c])[..|ds|] == ds;
  }

  /** The index that digits stand for is the number they are the writing of. */
  lemma {:induction false} DecimalReadsWritten(n: nat)
    ensures Digits(Written(n)) && Decimal(Written(n)) == n
  {
    var c := "0123456789"[n % 10];
    assert IsDigit(c) && DigitValue(c) == n % 10 by { ValueOf(n % 10); }
    if n < 10 {
      assert Written(n) == [] + [c];
      DecimalAppends([], c);
    } else {
      DecimalReadsWritten(n / 10);
      DecimalAppends(Written(n / 10), c);
    }
  }

  lemma ValueOf(v: nat)
    requires v < 10
    ensures var c := "0123456789"[v]; IsDigit(c) && DigitValue(c) == v
  {
  }

  lemma {:induction false} ZeroInFront(ds: string)
    requires Digits(ds)
    ensures Digits(['0'] + ds) && Decimal(['0'] + ds) == Decimal(ds)
  {
    if ds == [] {
      DecimalAppends([], '0');
    } else {
      var front, c := ds[..|ds| - 1], ds[|ds| - 1];
      ZeroInFront(front);
      DecimalAppends(['0'] + front, c);
      assert ['0'] + ds == ['0'] + front + [c];
    }
  }

  /** And zeros in front change nothing. */
  lemma {:induction false} DecimalReadsPadded(zeros: nat, n: nat)
    ensures Digits(Padded(zeros, n)) && Decimal(Padded(zeros, n)) == n
  {
    if zeros == 0 {
      DecimalReadsWritten(n);
    } else {
      DecimalReadsPadded(zeros - 1, n);
      ZeroInFront(Padded(zeros - 1, n));
    }
  }

  /** Saturation never turns a large index into a small one, and is exact up to 999999. */
  lemma {:induction false} SaturationIsHonest(ds: string)
    requires Digits(ds)
    ensures if Decimal(ds) <= 10 * INDEX_MAX + 9 then Saturated(ds) == Decimal(ds) else Saturated(ds) > INDEX_MAX
    ensures Saturated(ds) <= 10 * INDEX_MAX + 9
  {
    if ds != [] {
      SaturationIsHonest(ds[..|ds| - 1]);
    }
  }

  /** Fn is accepted exactly when the true value of n, however many digits it has, is at most 4. */
  lemma FloatIndexCheckIsExact(ds: string)
    requires Digits(ds)
    ensures Saturated(ds) <= 4 <==> Decimal(ds) <= 4
  {
    SaturationIsHonest(ds);
  }

  datatype Token =
    | Blank
    | Operand(atom: Atom)
    | Open
    | Close
    | Operator(op: char)
    | Refused   // the evaluator reports an error and gives up
    | Overrun   // "Bn:" at the end of the text: the scan index passes the terminator
    | NoAdvance // a range without its "]": the scan index never moves again

  predicate IsOperator(c: char) {
    c == '+' || c == '-' || c == '*' || c == '/' || c == '&' || c == '|' || c == '^' || c == '<' || c == '>'
  }

  /** An integer as sscanf's %d reads it: blanks, an optional sign, at least one digit. */
  datatype IntScan = NoInt | IntAt(value: int, used: nat)

  function BlankRun(s: string): (n: nat)
    ensures n <= |s|
  {
    if s == [] || !IsSpace(s[0]) then 0 else 1 + BlankRun(s[1..])
  }

  function ScanInt(s: string): (r: IntScan)
    ensures r.IntAt? ==> r.used <= |s|
  {
    var b := BlankRun(s);
    var sign := if b < |s| && (s[b] == '-' || s[b] == '+') then 1 else 0;
    var n := DigitRun(s[b + sign..]);
    var ds := s[b + sign..][..n];
    if n == 0 then NoInt
    else IntAt((if sign == 1 && s[b] == '-' then -1 else 1) * Decimal(ds), b + sign + n)
  }

  /** One half of a range: an opening character, the letter, and an integer. */
  function ScanHalf(s: string, opening: char, letter: char): (r: IntScan)
    ensures r.IntAt? ==> 2 <= r.used <= |s|
  {
    if |s| < 2 || s[0] != opening || s[1] != letter then NoInt
    else
      var n := ScanInt(s[2..]);
      if n.NoInt? then NoInt else IntAt(n.value, 2 + n.used)
  }

  datatype RangeScan = NoRange | Range(first: int, last: int, closed: bool, used: nat)

  /** sscanf(s, "[B%d:B%d]%n") with `letter` for B: both numbers must convert, the bracket need not. */
  function ScanRange(s: string, letter: char): (r: RangeScan)
    ensures r.Range? && r.closed ==> 1 <= r.used <= |s|
  {
    var a := ScanHalf(s, '[', letter);
    if a.NoInt? then NoRange
    else
      var b := ScanHalf(s[a.used..], ':', letter);
      if b.NoInt? then NoRange
      else
        var end := a.used + b.used;
        var closed := end < |s| && s[end] == ']';
        Range(a.value, b.value, closed, if closed then end + 1 else 0)
  }

  /** The unsigned form is tried first. */
  function LexRange(s: string): (r: (Token, nat))
    requires s != []
    ensures 1 <= r.1 <= |s|
  {
    var u := ScanRange(s, 'B');
    var v := ScanRange(s, 'S');
    if u.Range? then RangeToken(u, UnsignedRange(u.first, u.last))
    else if v.Range? then RangeToken(v, SignedRange(v.first, v.last))
    else (Refused, 1)
  }

  function RangeToken(r: RangeScan, atom: Atom): (Token, nat)
    requires r.Range?
  {
    if r.last - r.first > 7 then (Refused, 1)
    else if !r.closed then (NoAdvance, 1)
    else (Operand(atom), r.used)
  }

  /** A byte, bit, signed byte or float: a letter, index digits, and for a bit ":" and one character. */
  function LexIndexed(s: string): (r: (Token, nat))
    requires s != []
    ensures 1 <= r.1 <= |s|
  {
    var n := 1 + DigitRun(s[1..]);
    var index := Saturated(s[1..][..n - 1]);
    if s[0] == 'S' then (Operand(SignedAt(index)), n)
    else if s[0] == 'F' then if index > 4 then (Refused, n) else (Operand(FloatAt(index)), n)
    else if n < |s| && s[n] == ':' then
      if n + 1 == |s| then (Overrun, |s|) else (Operand(BitAt(index, s[n + 1])), n + 2)
    else (Operand(ByteAt(index)), n)
  }

  /** The first token of a nonempty text and its length. */
  function Lex(s: string): (r: (Token, nat))
    requires s != []
    ensures 1 <= r.1 <= |s|
  {
    var c := s[0];
    if IsSpace(c) then (Blank, 1)
    else if IsDigit(c) || c == '.' then (Operand(Number(s[..NumberRun(s)])), NumberRun(s))
    else if c == 'V' then (Operand(Volts), 1)
    else if c == '[' then LexRange(s)
    else if c == 'B' || c == 'S' || c == 'F' then LexIndexed(s)
    else if c == '(' then (Open, 1)
    else if c == ')' then (Close, 1)
    else if c == '<' || c == '>' then
      if |s| > 1 && s[1] == c then (Operator(c), 2) else (Refused, 1)
    else if IsOperator(c) then (Operator(c), 1)
    else (Refused, 1)
  }

  // ---- Where tokens end -------------------------------------------------------------------

  lemma {:induction false} RunsStopAt(ds: string, rest: string)
    requires Digits(ds) && (rest == [] || !IsDigit(rest[0]))
    ensures DigitRun(ds + rest) == |ds| && (ds + rest)[..|ds|] == ds
  {
    if ds == [] {
      assert ds + rest == rest;
    } else {
      assert (ds + rest)[1..] == ds[1..] + rest;
      RunsStopAt(ds[1..], rest);
    }
  }

  lemma {:induction false} NumberStopsAt(lit: string, rest: string)
    requires (forall c | c in lit :: IsDigit(c) || c == '.') && (rest == [] || !(IsDigit(rest[0]) || rest[0] == '.'))
    ensures NumberRun(lit + rest) == |lit| && (lit + rest)[..|lit|] == lit
  {
    if lit == [] {
      assert lit + rest == rest;
    } else {
      assert (lit + rest)[1..] == lit[1..] + rest;
      NumberStopsAt(lit[1..], rest);
    }
  }

  /** The digits of an integer behind its sign, if it has one. */
  function Unsigned(t: string): string { if t != [] && (t[0] == '-' || t[0] == '+') then t[1..] else t }

  predicate IsSigned(t: string) { Unsigned(t) != [] && Digits(Unsigned(t)) }

  /** Blanks, perhaps a sign, and digits. */
  predicate IsInt(t: string) { t != [] && if IsSpace(t[0]) then IsInt(t[1..]) else IsSigned(t) }

  function IntValue(t: string): int
    requires IsInt(t)
  {
    if IsSpace(t[0]) then IntValue(t[1..])
    else if t[0] == '-' then 0 - Decimal(Unsigned(t))
    else Decimal(Unsigned(t))
  }

  /** A signed integer is its sign, if any, and its digits. */
  lemma SignedIs(t: string, sign: nat)
    requires t != [] && !IsSpace(t[0]) && IsSigned(t) && sign == if t[0] == '-' || t[0] == '+' then 1 else 0
    ensures sign < |t| && Digits(t[sign..])
    ensures IsInt(t) && IntValue(t) == (if t[0] == '-' then -1 else 1) * Decimal(t[sign..])
  {
    hide Decimal;
    assert t[0..] == t;
  }

  lemma SignedScans(t: string, rest: string)
    requires t != [] && !IsSpace(t[0]) && IsSigned(t) && (rest == [] || !IsDigit(rest[0]))
    ensures ScanInt(t + rest) == IntAt(IntValue(t), |t|)
  {
    var sign := if t[0] == '-' || t[0] == '+' then 1 else 0;
    SignedIs(t, sign);
    hide *;
    TailOfBoth(t, rest, sign);
    RunsStopAt(t[sign..], rest);
    SignAndDigits(t + rest, sign, t[sign..]);
  }

  lemma TailOfBoth(t: string, rest: string, n: nat)
    requires n < |t|
    ensures (t + rest)[0] == t[0] && (t + rest)[n..] == t[n..] + rest && n + |t[n..]| == |t|
  {
  }

  lemma SignAndDigits(s: string, sign: nat, ds: string)
    requires s != [] && !IsSpace(s[0]) && sign == if s[0] == '-' || s[0] == '+' then 1 else 0
    requires Digits(ds) && ds != [] && DigitRun(s[sign..]) == |ds| && s[sign..][..|ds|] == ds
    ensures ScanInt(s) == IntAt((if s[0] == '-' then -1 else 1) * Decimal(ds), sign + |ds|)
  {
    assert BlankRun(s) == 0;
    hide Decimal, DigitRun, BlankRun, IsSpace, Digits;
    assert s[0 + sign..] == s[sign..];
  }

  lemma BlankIsSkipped(s: string)
    requires s != [] && IsSpace(s[0])
    ensures ScanInt(s) == match ScanInt(s[1..])
      case NoInt => NoInt
      case IntAt(value, used) => IntAt(value, used + 1)
  {
    hide Decimal, DigitRun;
    var b := BlankRun(s[1..]);
    assert BlankRun(s) == 1 + b;
    assert b < |s[1..]| ==> s[1..][b] == s[b + 1];
    assert s[1..][b..] == s[b + 1..];
    assert b < |s[1..]| ==> s[1..][b + 1..] == s[b + 2..];
  }

  lemma {:induction false} ScanIntStopsAt(t: string, rest: string)
    requires IsInt(t) && (rest == [] || !IsDigit(rest[0]))
    ensures ScanInt(t + rest) == IntAt(IntValue(t), |t|)
  {
    if IsSpace(t[0]) {
      assert (t + rest)[1..] == t[1..] + rest;
      ScanIntStopsAt(t[1..], rest);
      BlankIsSkipped(t + rest);
    } else {
      SignedScans(t, rest);
    }
  }

  lemma HalfScans(opening: char, letter: char, t: string, rest: string)
    requires IsInt(t) && (rest == [] || !IsDigit(rest[0]))
    ensures ScanHalf([opening, letter] + (t + rest), opening, letter) == IntAt(IntValue(t), 2 + |t|)
  {
    assert ([opening, letter] + (t + rest))[2..] == t + rest;
    ScanIntStopsAt(t, rest);
  }

  lemma SecondHalf(x: string, y: string, s: string)
    requires s == x + y && y != []
    ensures s[|x|..] == y && s[|x|] == y[0]
  {
  }

  /** A letter, its index digits, and what comes after them. */
  lemma IndexLexes(c: char, ds: string, rest: string)
    requires Digits(ds) && (rest == [] || !IsDigit(rest[0])) && (c == 'B' || c == 'S' || c == 'F')
    ensures var s := [c] + ds + rest;
      && Lex(s) == LexIndexed(s)
      && DigitRun(s[1..]) == |ds| && s[1..][..|ds|] == ds && s[1 + |ds|..] == rest
      && (rest != [] ==> s[1 + |ds|] == rest[0])
  {
    var s := [c] + ds + rest;
    assert s[1..] == ds + rest;
    RunsStopAt(ds, rest);
    LetterLexes(s);
  }

  lemma LetterLexes(s: string)
    requires s != [] && (s[0] == 'B' || s[0] == 'S' || s[0] == 'F' || s[0] == '[' || s[0] == '(' || s[0] == ')')
    ensures Lex(s) == match s[0]
      case '[' => LexRange(s)
      case '(' => (Open, 1)
      case ')' => (Close, 1)
      case _ => LexIndexed(s)
  {
  }

  lemma NotThatRange(s: string, letter: char)
    requires |s| >= 2 && s[1] != letter
    ensures ScanRange(s, letter).NoRange?
  {
  }

  function OpenText(letter: char, a: string, b: string, rest: string): string {
    ['[', letter] + (a + ([':', letter] + (b + rest)))
  }

  predicate OpenRange(a: string, b: string, rest: string) {
    IsInt(a) && IsInt(b) && (rest == [] || (!IsDigit(rest[0]) && rest[0] != ']'))
  }

  lemma OpenRangeScans(letter: char, a: string, b: string, rest: string)
    requires OpenRange(a, b, rest)
    ensures ScanRange(OpenText(letter, a, b, rest), letter) == Range(IntValue(a), IntValue(b), false, 0)
  {
    hide ScanHalf, ScanInt, IntValue, IsInt, DigitRun;
    var half := [':', letter] + (b + rest);
    var s := ['[', letter] + (a + half);
    HalfScans('[', letter, a, half);
    SecondHalf(['[', letter] + a, half, s);
    HalfScans(':', letter, b, rest);
    var end := ['[', letter] + a + [':', letter] + b;
    assert s == end + rest;
    assert rest != [] ==> s[|end|] == rest[0];
  }

  /** Two numbers of a range, and then no bracket: whatever else comes, the scan index is stuck on it. */
  lemma UnclosedLexes(letter: char, a: string, b: string, rest: string)
    requires (letter == 'B' || letter == 'S') && OpenRange(a, b, rest) && IntValue(b) - IntValue(a) <= 7
    ensures Lex(OpenText(letter, a, b, rest)) == (NoAdvance, 1)
  {
    hide ScanRange, OpenRange, IntValue;
    var s := OpenText(letter, a, b, rest);
    assert s[0] == '[' && s[1] == letter;
    OpenRangeScans(letter, a, b, rest);
    LetterLexes(s);
    if letter == 'S' { NotThatRange(s, 'B'); }
  }

  /** The one token that steps over the terminator is "Bn:" at the very end. */
  lemma OverrunIsABareColon(s: string)
    requires s != []
    ensures Lex(s).0.Overrun? <==> exists ds :: Digits(ds) && s == ['B'] + ds + ":"
  {
    if Lex(s).0.Overrun? {
      var n := DigitRun(s[1..]);
      var ds := s[1..][..n];
      assert s == ['B'] + ds + ":";
    }
    if exists ds :: Digits(ds) && s == ['B'] + ds + ":" {
      var ds :| Digits(ds) && s == ['B'] + ds + ":";
      IndexLexes('B', ds, ":");
    }
  }

  // ---- The scanning code -----------------------------------------------------------------

  /** The token at index `i` and its length, as the branches of the main loop find them. */
  method ScanToken(text: string, i: nat) returns (t: Token, n: nat)
    requires i < |text|
    ensures (t, n) == Lex(text[i..])
  {
    var c := text[i];
    if IsSpace(c) {
      return Blank, 1;
    }
    if IsDigit(c) || c == '.' {
      var j := ScanNumber(text, i);
      assert text[i..][..j - i] == text[i..j];
      return Operand(Number(text[i..j])), j - i;
    } else if c == 'V' {
      return Operand(Volts), 1;
    } else if c == '[' {
      var (token, length) := LexRange(text[i..]);
      return token, length;
    } else if c == 'B' || c == 'S' || c == 'F' {
      t, n := ScanIndexed(text, i);
    } else if c == '(' {
      return Open, 1;
    } else if c == ')' {
      return Close, 1;
    } else if c == '+' || c == '-' || c == '*' || c == '/' || c == '&' || c == '|' || c == '^' {
      return Operator(c), 1;
    } else if (c == '<' || c == '>') && i + 1 < |text| && text[i + 1] == c {
      return Operator(c), 2;
    } else {
      return Refused, 1;
    }
  }

  /** Where the digits and dots from `start` on end. */
  method ScanNumber(text: string, start: nat) returns (i: nat)
    requires start <= |text|
    ensures i == start + NumberRun(text[start..])
    ensures i <= |text|
  {
    i := start;
    while i < |text| && (IsDigit(text[i]) || text[i] == '.')
      invariant start <= i <= |text|
      invariant i + NumberRun(text[i..]) == start + NumberRun(text[start..])
    {
      assert text[i..][1..] == text[i + 1..];
      i := i + 1;
    }
  }

  /** scan_byte_index: read the digits from `start` on, saturating. */
  method ScanByteIndex(text: string, start: nat) returns (index: nat, i: nat)
    requires start <= |text|
    ensures i == start + DigitRun(text[start..]) && Digits(text[start..i])
    ensures index == Saturated(text[start..i])
  {
    hide DigitRun, Saturated;
    NoDigitsYet();
    assert text[start..start] == [];
    index, i := 0, start;
    while i < |text| && IsDigit(text[i])
      invariant start <= i <= |text|
      invariant Digits(text[start..i])
      invariant i + DigitRun(text[i..]) == start + DigitRun(text[start..])
      invariant index == Saturated(text[start..i])
    {
      OneMoreDigit(text[start..i], text[i..]);
      assert text[start..i + 1] == text[start..i] + [text[i]];
      assert text[i..][1..] == text[i + 1..];
      if index <= INDEX_MAX {
        index := index * 10 + DigitValue(text[i]);
      }
      i := i + 1;
    }
    DigitsEnd(text[i..]);
  }

  lemma NoDigitsYet()
    ensures Saturated([]) == 0
  {
  }

  lemma OneMoreDigit(ds: string, s: string)
    requires Digits(ds) && s != [] && IsDigit(s[0])
    ensures DigitRun(s) == 1 + DigitRun(s[1..])
    ensures var n := Saturated(ds);
      Saturated(ds + [s[0]]) == if n <= INDEX_MAX then 10 * n + DigitValue(s[0]) else n
  {
    assert (ds + [s[0]])[..|ds|] == ds;
  }

  lemma DigitsEnd(s: string)
    requires s == [] || !IsDigit(s[0])
    ensures DigitRun(s) == 0
  {
  }

  /** A letter, its index, and for a byte perhaps a bit. */
  method ScanIndexed(text: string, start: nat) returns (t: Token, n: nat)
    requires start < |text| && (text[start] == 'B' || text[start] == 'S' || text[start] == 'F')
    ensures (t, n) == LexIndexed(text[start..])
  {
    ghost var s := text[start..];
    assert s[1..] == text[start + 1..];
    var index, i := ScanByteIndex(text, start + 1);
    n := i - start;
    assert s[1..][..n - 1] == text[start + 1..i];
    if text[start] == 'S' {
      t := Operand(SignedAt(index));
    } else if text[start] == 'F' {
      t := if index > 4 then Refused else Operand(FloatAt(index));
    } else if i < |text| && text[i] == ':' {
      if i + 1 == |text| {
        t := Overrun;
        n := n + 1;
      } else {
        t := Operand(BitAt(index, text[i + 1]));
        n := n + 2;
      }
    } else {
      t := Operand(ByteAt(index));
    }
  }
}
