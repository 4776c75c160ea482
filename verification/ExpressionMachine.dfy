/**
 * The two-stack operator-precedence machine of main/expression_parser.c. The stacks have 100 slots;
 * a push onto a full one is silently lost, and a pop from an empty one yields zero.
 *
 * The arithmetic is abstract. A Domain says what the operands and the nine operators mean; the
 * only property of numbers the evaluator itself looks at is whether a divisor is zero.
 */
module ExpressionMachine {
  import opened ExpressionScanner
  import opened Words

  const STACK_MAX := 100

  datatype Domain<!V> = Domain(zero: V, isZero: V -> bool, bin: (char, V, V) -> V, atom: Atom -> V)

  function Precedence(op: char): nat {
    if op == '|' || op == '^' then 1
    else if op == '&' then 2
    else if op == '<' || op == '>' then 3
    else if op == '+' || op == '-' then 4
    else if op == '*' || op == '/' then 5
    else 0
  }

  /** The two stacks, tops at the right. */
  datatype Machine<V> = Machine(vals: seq<V>, ops: string)

  function Pushed<T>(s: seq<T>, x: T, cap: nat): seq<T> { if |s| >= cap then s else s + [x] }

  /** Pop two operands, apply, push; None when there is no operand or a divisor is zero. */
  function Apply<V>(d: Domain<V>, m: Machine<V>, op: char, cap: nat): (r: Option<Machine<V>>)
    ensures r.Some? ==> r.value.ops == m.ops && |r.value.vals| <= |m.vals|
  {
    if m.vals == [] then None
    else
      var b := m.vals[|m.vals| - 1];
      var rest := m.vals[..|m.vals| - 1];
      var a := if rest == [] then d.zero else rest[|rest| - 1];
      var rest' := if rest == [] then rest else rest[..|rest| - 1];
      if op == '/' && d.isZero(b) then None
      else Some(m.(vals := Pushed(rest', if IsOperator(op) then d.bin(op, a, b) else d.zero, cap)))
  }

  function PopApply<V>(d: Domain<V>, m: Machine<V>, cap: nat): (r: Option<Machine<V>>)
    requires m.ops != []
    ensures r.Some? ==> r.value.ops == m.ops[..|m.ops| - 1] && |r.value.vals| <= |m.vals|
  {
    Apply(d, m.(ops := m.ops[..|m.ops| - 1]), m.ops[|m.ops| - 1], cap)
  }

  /** Apply stacked operators while they bind at least as tightly as `p`. */
  function Reduce<V>(d: Domain<V>, m: Machine<V>, p: nat, cap: nat): (r: Option<Machine<V>>)
    ensures r.Some? ==> |r.value.ops| <= |m.ops| && |r.value.vals| <= |m.vals|
    ensures r.Some? ==> r.value.ops == m.ops[..|r.value.ops|]
    decreases |m.ops|
  {
    if m.ops == [] || Precedence(m.ops[|m.ops| - 1]) < p then Some(m)
    else
      var m' := PopApply(d, m, cap);
      if m'.None? then None else Reduce(d, m'.value, p, cap)
  }

  function ReduceToParen<V>(d: Domain<V>, m: Machine<V>, cap: nat): (r: Option<Machine<V>>)
    ensures r.Some? ==> |r.value.ops| <= |m.ops| && |r.value.vals| <= |m.vals|
    ensures r.Some? ==> r.value.ops == m.ops[..|r.value.ops|]
    decreases |m.ops|
  {
    if m.ops == [] || m.ops[|m.ops| - 1] == '(' then Some(m)
    else
      var m' := PopApply(d, m, cap);
      if m'.None? then None else ReduceToParen(d, m'.value, cap)
  }

  /** The final loop: it applies everything that is left, an unclosed parenthesis included. */
  function Drain<V>(d: Domain<V>, m: Machine<V>, cap: nat): Option<Machine<V>>
    decreases |m.ops|
  {
    if m.ops == [] then Some(m)
    else
      var m' := PopApply(d, m, cap);
      if m'.None? then None else Drain(d, m'.value, cap)
  }

  function Exec<V>(d: Domain<V>, t: Token, m: Machine<V>, cap: nat): (r: Option<Machine<V>>)
    ensures r.Some? ==> |r.value.ops| <= |m.ops| + 1 && |r.value.vals| <= |m.vals| + 1
  {
    match t
    case Blank => Some(m)
    case Operand(a) => Some(m.(vals := Pushed(m.vals, d.atom(a), cap)))
    case Open => Some(m.(ops := Pushed(m.ops, '(', cap)))
    case Close =>
      var r := ReduceToParen(d, m, cap);
      if r.None? || r.value.ops == [] then None
      else Some(r.value.(ops := r.value.ops[..|r.value.ops| - 1]))
    case Operator(op) =>
      var r := Reduce(d, m, Precedence(op), cap);
      if r.None? then None else Some(r.value.(ops := Pushed(r.value.ops, op, cap)))
    case _ => None
  }

  datatype Outcome<+V> = Value(v: V) | Failed | PastTheEnd | Forever

  function Finish<V>(d: Domain<V>, m: Machine<V>, cap: nat): Outcome<V> {
    var r := Drain(d, m, cap);
    if r.None? || |r.value.vals| != 1 then Failed else Value(r.value.vals[0])
  }

  /** The whole evaluation, with `cap` slots in each stack. */
  function Scan<V>(d: Domain<V>, s: string, m: Machine<V>, cap: nat): Outcome<V> {
    if s == [] then Finish(d, m, cap)
    else
      var (t, n) := Lex(s);
      if t.Overrun? then PastTheEnd
      else if t.NoAdvance? then Forever
      else
        var m' := Exec(d, t, m, cap);
        if m'.None? then Failed else Scan(d, s[n..], m'.value, cap)
  }

  function Evaluate<V>(d: Domain<V>, text: string): Outcome<V> {
    Scan(d, text, Machine([], []), STACK_MAX)
  }

  /** Stacks at least as long as the text never fill up: more slots would change nothing. */
  lemma {:induction false} ShortTextsCannotOverflow<V>(d: Domain<V>, s: string, m: Machine<V>, cap: nat, cap': nat)
    requires |m.vals| + |s| <= cap <= cap' && |m.ops| + |s| <= cap
    ensures Scan(d, s, m, cap) == Scan(d, s, m, cap')
  {
    if s == [] {
      DrainIgnoresCap(d, m, cap, cap');
    } else {
      var (t, n) := Lex(s);
      ExecIgnoresCap(d, t, m, cap, cap');
      var m' := Exec(d, t, m, cap);
      if m'.Some? {
        ShortTextsCannotOverflow(d, s[n..], m'.value, cap, cap');
      }
    }
  }

  lemma ExecIgnoresCap<V>(d: Domain<V>, t: Token, m: Machine<V>, cap: nat, cap': nat)
    requires |m.vals| < cap <= cap' && |m.ops| < cap
    ensures Exec(d, t, m, cap) == Exec(d, t, m, cap')
  {
    match t
    case Close => ReduceToParenIgnoresCap(d, m, cap, cap');
    case Operator(op) => ReduceIgnoresCap(d, m, Precedence(op), cap, cap');
    case _ =>
  }

  lemma {:induction false} ReduceIgnoresCap<V>(d: Domain<V>, m: Machine<V>, p: nat, cap: nat, cap': nat)
    requires |m.vals| <= cap <= cap'
    ensures Reduce(d, m, p, cap) == Reduce(d, m, p, cap')
    decreases |m.ops|
  {
    if m.ops != [] {
      var m' := PopApply(d, m, cap);
      if m'.Some? { ReduceIgnoresCap(d, m'.value, p, cap, cap'); }
    }
  }

  lemma {:induction false} ReduceToParenIgnoresCap<V>(d: Domain<V>, m: Machine<V>, cap: nat, cap': nat)
    requires |m.vals| <= cap <= cap'
    ensures ReduceToParen(d, m, cap) == ReduceToParen(d, m, cap')
    decreases |m.ops|
  {
    if m.ops != [] {
      var m' := PopApply(d, m, cap);
      if m'.Some? { ReduceToParenIgnoresCap(d, m'.value, cap, cap'); }
    }
  }

  lemma {:induction false} DrainIgnoresCap<V>(d: Domain<V>, m: Machine<V>, cap: nat, cap': nat)
    requires |m.vals| <= cap <= cap'
    ensures Drain(d, m, cap) == Drain(d, m, cap')
    decreases |m.ops|
  {
    if m.ops != [] {
      var m' := PopApply(d, m, cap);
      if m'.Some? { DrainIgnoresCap(d, m'.value, cap, cap'); }
    }
  }

  // ---- Which calls do not return, and which leave their text -----------------------------

  /** What is left of the text, and the machine, once `k` tokens have been executed. */
  function Walk<V>(d: Domain<V>, s: string, m: Machine<V>, cap: nat, k: nat): Option<(string, Machine<V>)>
    decreases k
  {
    if k == 0 then Some((s, m))
    else if s == [] then None
    else
      var m' := Exec(d, Lex(s).0, m, cap);
      if m'.None? then None else Walk(d, s[Lex(s).1..], m'.value, cap, k - 1)
  }

  /** After `k` executed tokens the scan stands at a token `t`. */
  predicate Meets<V>(d: Domain<V>, s: string, m: Machine<V>, cap: nat, k: nat, t: Token) {
    var w := Walk(d, s, m, cap, k);
    w.Some? && w.value.0 != [] && Lex(w.value.0).0 == t
  }

  /** The token at which a text stops being scannable, from the text alone. */
  datatype Ending = Sound | Bad(t: Token)

  function TextEnding(s: string): Ending {
    if s == [] then Sound
    else
      var (t, n) := Lex(s);
      if t.NoAdvance? || t.Overrun? || t.Refused? then Bad(t) else TextEnding(s[n..])
  }

  lemma StuckTokensDoNothing<V>(d: Domain<V>, t: Token, m: Machine<V>, cap: nat)
    requires t.NoAdvance? || t.Overrun? || t.Refused?
    ensures Exec(d, t, m, cap).None?
  {
  }

  lemma {:induction false} ScanStopsWhereItMeets<V>(d: Domain<V>, s: string, m: Machine<V>, cap: nat) returns (k: nat)
    ensures Scan(d, s, m, cap).Forever? ==> Meets(d, s, m, cap, k, NoAdvance)
    ensures Scan(d, s, m, cap).PastTheEnd? ==> Meets(d, s, m, cap, k, Overrun)
  {
    hide Lex, Exec;
    k := 0;
    if s != [] {
      var (t, n) := Lex(s);
      var m' := Exec(d, t, m, cap);
      if !t.Overrun? && !t.NoAdvance? && m'.Some? {
        var k' := ScanStopsWhereItMeets(d, s[n..], m'.value, cap);
        k := k' + 1;
      }
    }
  }

  lemma {:induction false} MeetingStopsTheScan<V>(d: Domain<V>, s: string, m: Machine<V>, cap: nat, k: nat, t: Token)
    requires Meets(d, s, m, cap, k, t) && (t.NoAdvance? || t.Overrun?)
    ensures Scan(d, s, m, cap) == if t.NoAdvance? then Forever else PastTheEnd
    decreases k
  {
    hide Lex, Exec;
    if k > 0 {
      var (u, n) := Lex(s);
      if u.NoAdvance? || u.Overrun? { StuckTokensDoNothing(d, u, m, cap); }
      MeetingStopsTheScan(d, s[n..], Exec(d, u, m, cap).value, cap, k - 1, t);
    }
  }

  /**
   * Exactly which calls do not return, and which leave their text: those that execute some tokens and
   * then stand at a range without its bracket, or at "Bn:" at the very end.
   */
  lemma ScanLeavesExactlyThere<V>(d: Domain<V>, s: string, m: Machine<V>, cap: nat)
    ensures Scan(d, s, m, cap).Forever? <==> exists k: nat :: Meets(d, s, m, cap, k, NoAdvance)
    ensures Scan(d, s, m, cap).PastTheEnd? <==> exists k: nat :: Meets(d, s, m, cap, k, Overrun)
  {
    var n := ScanStopsWhereItMeets(d, s, m, cap);
    forall k: nat, t | Meets(d, s, m, cap, k, t) && (t.NoAdvance? || t.Overrun?)
      ensures Scan(d, s, m, cap) == if t.NoAdvance? then Forever else PastTheEnd
    {
      MeetingStopsTheScan(d, s, m, cap, k, t);
    }
  }

  /**
   * The same from the text, which a caller can check. A call that does not fail runs forever exactly
   * on a text whose first bad token is an unclosed range, steps past the end exactly on one where it
   * is a bare "Bn:", and yields a value exactly on a sound text; a text with a refused token fails.
   */
  lemma {:induction false} TextDecidesTheEnding<V>(d: Domain<V>, s: string, m: Machine<V>, cap: nat)
    ensures var r, e := Scan(d, s, m, cap), TextEnding(s);
      && (r.Forever? <==> e == Bad(NoAdvance) && !r.Failed?)
      && (r.PastTheEnd? <==> e == Bad(Overrun) && !r.Failed?)
      && (r.Value? <==> e.Sound? && !r.Failed?)
      && (e == Bad(Refused) ==> r.Failed?)
  {
    if s != [] {
      var (t, n) := Lex(s);
      var m' := Exec(d, t, m, cap);
      if m'.Some? { TextDecidesTheEnding(d, s[n..], m'.value, cap); }
    }
  }

  /** Numbers of which nothing is known, not even whether one is zero: what is left is the text. */
  const UNITS: Domain<()> := Domain((), _ => false, (_, _, _) => (), _ => ())

  function Units(n: nat): seq<()> { seq(n, _ => ()) }

  /** How many operands there are, and the operators. */
  function Shape<V>(m: Machine<V>): Machine<()> { Machine(Units(|m.vals|), m.ops) }

  ghost predicate NeverZero<V(!new)>(d: Domain<V>) { forall v: V :: !d.isZero(v) }

  /** The unit machine goes along with `d`, except that it never fails on a zero divisor. */
  ghost predicate GoesAlong<V(!new)>(d: Domain<V>, r: Option<Machine<V>>, u: Option<Machine<()>>) {
    if r.Some? then u == Some(Shape(r.value)) else NeverZero(d) ==> u.None?
  }

  lemma ApplyGoesAlong<V(!new)>(d: Domain<V>, m: Machine<V>, op: char, cap: nat)
    ensures GoesAlong(d, Apply(d, m, op, cap), Apply(UNITS, Shape(m), op, cap))
  {
    var u := Shape(m);
    if m.vals != [] {
      var rest := u.vals[..|u.vals| - 1];
      assert rest == Units(|m.vals| - 1);
      var rest' := if rest == [] then rest else rest[..|rest| - 1];
      assert rest' == Units(|rest'|);
      assert Pushed(rest', (), cap) == Units(|Pushed(rest', (), cap)|);
    }
  }

  lemma PopApplyGoesAlong<V(!new)>(d: Domain<V>, m: Machine<V>, cap: nat)
    requires m.ops != []
    ensures GoesAlong(d, PopApply(d, m, cap), PopApply(UNITS, Shape(m), cap))
  {
    var m' := m.(ops := m.ops[..|m.ops| - 1]);
    ApplyGoesAlong(d, m', m.ops[|m.ops| - 1], cap);
    assert Shape(m') == Shape(m).(ops := m'.ops);
  }

  lemma {:induction false} ReduceGoesAlong<V(!new)>(d: Domain<V>, m: Machine<V>, p: nat, cap: nat)
    ensures GoesAlong(d, Reduce(d, m, p, cap), Reduce(UNITS, Shape(m), p, cap))
    decreases |m.ops|
  {
    hide PopApply, Shape;
    assert Shape(m).ops == m.ops by { ShapeKeepsOps(m); }
    if m.ops != [] && Precedence(m.ops[|m.ops| - 1]) >= p {
      PopApplyGoesAlong(d, m, cap);
      var m' := PopApply(d, m, cap);
      if m'.Some? {
        ReduceGoesAlong(d, m'.value, p, cap);
      }
    }
  }

  lemma {:induction false} ReduceToParenGoesAlong<V(!new)>(d: Domain<V>, m: Machine<V>, cap: nat)
    ensures GoesAlong(d, ReduceToParen(d, m, cap), ReduceToParen(UNITS, Shape(m), cap))
    decreases |m.ops|
  {
    hide PopApply, Shape;
    assert Shape(m).ops == m.ops by { ShapeKeepsOps(m); }
    if m.ops != [] && m.ops[|m.ops| - 1] != '(' {
      PopApplyGoesAlong(d, m, cap);
      var m' := PopApply(d, m, cap);
      if m'.Some? {
        ReduceToParenGoesAlong(d, m'.value, cap);
      }
    }
  }

  lemma {:induction false} DrainGoesAlong<V(!new)>(d: Domain<V>, m: Machine<V>, cap: nat)
    ensures GoesAlong(d, Drain(d, m, cap), Drain(UNITS, Shape(m), cap))
    decreases |m.ops|
  {
    hide PopApply, Shape;
    assert Shape(m).ops == m.ops by { ShapeKeepsOps(m); }
    if m.ops != [] {
      PopApplyGoesAlong(d, m, cap);
      var m' := PopApply(d, m, cap);
      if m'.Some? {
        DrainGoesAlong(d, m'.value, cap);
      }
    }
  }

  lemma ShapeKeepsOps<V>(m: Machine<V>)
    ensures Shape(m).ops == m.ops && |Shape(m).vals| == |m.vals|
  {
  }

  lemma ExecGoesAlong<V(!new)>(d: Domain<V>, t: Token, m: Machine<V>, cap: nat)
    ensures GoesAlong(d, Exec(d, t, m, cap), Exec(UNITS, t, Shape(m), cap))
  {
    match t
    case Operand(a) =>
      assert Pushed(Units(|m.vals|), (), cap) == Units(|Pushed(m.vals, d.atom(a), cap)|);
    case Close => ReduceToParenGoesAlong(d, m, cap);
    case Operator(op) => ReduceGoesAlong(d, m, Precedence(op), cap);
    case _ =>
  }

  /** The ending that two evaluations of one text have in common, values apart. */
  predicate SameEnding<V, W>(r: Outcome<V>, u: Outcome<W>) {
    (r.Forever? <==> u.Forever?) && (r.PastTheEnd? <==> u.PastTheEnd?) && (r.Value? <==> u.Value?)
  }

  /**
   * Whether a call returns is decided by the text and its stacks, not by numbers, but for a division
   * by zero that fails first. For any numbers, a call that does not fail ends as it does with numbers
   * of which nothing is known; and with numbers that are never zero it fails exactly when that does.
   * So a text keeps the call from returning for some numbers if and only if it does for UNITS.
   */
  lemma {:induction false} NumbersOnlyMatterByZero<V(!new)>(d: Domain<V>, s: string, m: Machine<V>, cap: nat)
    ensures var r, u := Scan(d, s, m, cap), Scan(UNITS, s, Shape(m), cap);
      !r.Failed? || NeverZero(d) ==> SameEnding(r, u)
    decreases |s|
  {
    hide Lex, Exec, Drain, Shape;
    if s == [] {
      DrainGoesAlong(d, m, cap);
      var r := Drain(d, m, cap);
      if r.Some? { ShapeKeepsOps(r.value); }
    } else {
      var (t, n) := Lex(s);
      ExecGoesAlong(d, t, m, cap);
      var m' := Exec(d, t, m, cap);
      if m'.Some? { NumbersOnlyMatterByZero(d, s[n..], m'.value, cap); }
    }
  }

  /**
   * Which texts do not return: with numbers that are never zero, exactly those on which UNITS runs
   * forever; with others, such a text runs forever or fails on a division before it gets there, and no
   * other text ever does. UNITS itself runs forever exactly when the first bad token is an unclosed
   * range and nothing before it fails. Likewise for stepping past the end.
   */
  lemma WhichTextsDoNotReturn<V(!new)>(d: Domain<V>, text: string)
    ensures var r, u, e := Evaluate(d, text), Evaluate(UNITS, text), TextEnding(text);
      && (r.Forever? ==> u.Forever?) && (u.Forever? ==> r.Forever? || (r.Failed? && !NeverZero(d)))
      && (r.PastTheEnd? ==> u.PastTheEnd?) && (u.PastTheEnd? ==> r.PastTheEnd? || (r.Failed? && !NeverZero(d)))
      && (u.Forever? <==> e == Bad(NoAdvance) && !u.Failed?)
      && (u.PastTheEnd? <==> e == Bad(Overrun) && !u.Failed?)
  {
    var m: Machine<V> := Machine([], []);
    assert Shape(m) == Machine([], []);
    NumbersOnlyMatterByZero(d, text, m, STACK_MAX);
    TextDecidesTheEnding(UNITS, text, Shape(m), STACK_MAX);
  }

  /** Without a bracket every call returns, and without a colon it stays inside its text. */
  lemma {:induction false} ScansEnd<V>(d: Domain<V>, s: string, m: Machine<V>, cap: nat)
    ensures ':' !in s ==> !Scan(d, s, m, cap).PastTheEnd?
    ensures '[' !in s ==> !Scan(d, s, m, cap).Forever?
  {
    if s != [] {
      var (t, n) := Lex(s);
      assert t.NoAdvance? ==> s[0] == '[';
      var m' := Exec(d, t, m, cap);
      if m'.Some? { ScansEnd(d, s[n..], m'.value, cap); }
    }
  }

  /** An example: a range of either kind that is never closed, whatever comes after it. */
  lemma UnclosedRangeLoops<V>(d: Domain<V>, letter: char, a: string, b: string, rest: string, m: Machine<V>, cap: nat)
    requires (letter == 'B' || letter == 'S') && OpenRange(a, b, rest) && IntValue(b) - IntValue(a) <= 7
    ensures Scan(d, OpenText(letter, a, b, rest), m, cap) == Forever
  {
    assert Lex(OpenText(letter, a, b, rest)).0 == NoAdvance by { UnclosedLexes(letter, a, b, rest); }
    hide Lex;
  }

  /** An example: "Bn:" at the very end makes the scan step over the terminator. */
  lemma BitWithoutNumberOverruns<V>(d: Domain<V>, ds: string, m: Machine<V>, cap: nat)
    requires Digits(ds)
    ensures Scan(d, ['B'] + ds + ":", m, cap) == PastTheEnd
  {
    IndexLexes('B', ds, ":");
  }

  // ---- The code itself -------------------------------------------------------------------

  class Stack<T> {
    var top: int
    const items: array<T>

    predicate Valid()
      reads this
    {
      items.Length == STACK_MAX && -1 <= top < STACK_MAX
    }

    function Contents(): (s: seq<T>)
      requires Valid()
      reads this, items
    {
      items[..top + 1]
    }

    constructor (fill: T)
      ensures Valid() && fresh(items) && Contents() == []
    {
      items := new T[STACK_MAX](_ => fill);
      top := -1;
    }

    method Push(x: T) returns (ok: bool)
      requires Valid()
      modifies this, items
      ensures Valid() && ok == (|old(Contents())| < STACK_MAX)
      ensures Contents() == Pushed(old(Contents()), x, STACK_MAX)
    {
      if top == STACK_MAX - 1 {
        return false;
      }
      top := top + 1;
      items[top] := x;
      return true;
    }

    method Pop(zero: T) returns (x: T)
      requires Valid()
      modifies this
      ensures Valid()
      ensures var s := old(Contents());
        if s == [] then x == zero && Contents() == [] else x == s[|s| - 1] && Contents() == s[..|s| - 1]
    {
      if top == -1 {
        return zero;
      }
      x := items[top];
      top := top - 1;
    }
  }

  ghost function Stacks<V>(vals: Stack<V>, ops: Stack<char>): Machine<V>
    requires vals.Valid() && ops.Valid()
    reads vals, vals.items, ops, ops.items
  {
    Machine(vals.Contents(), ops.Contents())
  }

  /** Pop an operator and two operands, apply, push the result. */
  method PopAndApply<V>(d: Domain<V>, vals: Stack<V>, ops: Stack<char>) returns (ok: bool)
    requires vals.Valid() && ops.Valid() && vals as object != ops && vals.items as object != ops.items
    requires ops.top >= 0
    modifies vals, vals.items, ops
    ensures vals.Valid() && ops.Valid()
    ensures ops.top == old(ops.top) - 1
    ensures var r := PopApply(d, old(Stacks(vals, ops)), STACK_MAX);
      ok == r.Some? && (ok ==> Stacks(vals, ops) == r.value)
  {
    hide IsOperator, Pushed;
    var op := ops.Pop(' ');
    if vals.top == -1 {
      return false;
    }
    var b := vals.Pop(d.zero);
    var a := vals.Pop(d.zero);
    if op == '/' && d.isZero(b) {
      return false;
    }
    var _ := vals.Push(if IsOperator(op) then d.bin(op, a, b) else d.zero);
    return true;
  }

  method EvaluateExpression<V>(d: Domain<V>, text: string) returns (r: Outcome<V>)
    ensures r == Evaluate(d, text)
  {
    var vals := new Stack<V>(d.zero);
    var ops := new Stack<char>(' ');
    r := EvaluateOn(d, text, vals, ops);
  }

  method EvaluateOn<V>(d: Domain<V>, text: string, vals: Stack<V>, ops: Stack<char>) returns (r: Outcome<V>)
    requires vals.Valid() && ops.Valid() && vals as object != ops && vals.items as object != ops.items
    modifies vals, vals.items, ops, ops.items
    ensures r == Scan(d, text, old(Stacks(vals, ops)), STACK_MAX)
  {
    hide Scan, Lex;
    var i := 0;
    assert text[i..] == text;
    while i < |text|
      invariant 0 <= i <= |text| && vals.Valid() && ops.Valid()
      invariant Scan(d, text, old(Stacks(vals, ops)), STACK_MAX) == Scan(d, text[i..], Stacks(vals, ops), STACK_MAX)
    {
      var over, n := OneToken(d, text, i, vals, ops);
      if over.Some? {
        return over.value;
      }
      i := i + n;
    }
    assert text[i..] == [];
    ScanEnds(d, Stacks(vals, ops));
    r := DrainAll(d, vals, ops);
  }

  lemma ScanEnds<V>(d: Domain<V>, m: Machine<V>)
    ensures Scan(d, [], m, STACK_MAX) == Finish(d, m, STACK_MAX)
  {
  }

  /** One turn of the loop: scan a token at `i` and execute it, or end the call. */
  method OneToken<V>(d: Domain<V>, text: string, i: nat, vals: Stack<V>, ops: Stack<char>)
    returns (over: Option<Outcome<V>>, n: nat)
    requires i < |text|
    requires vals.Valid() && ops.Valid() && vals as object != ops && vals.items as object != ops.items
    modifies vals, vals.items, ops, ops.items
    ensures vals.Valid() && ops.Valid() && 1 <= n <= |text| - i
    ensures Scan(d, text[i..], old(Stacks(vals, ops)), STACK_MAX)
      == if over.Some? then over.value else Scan(d, text[i + n..], Stacks(vals, ops), STACK_MAX)
  {
    var t: Token;
    t, n := ScanToken(text, i);
    assert text[i..][n..] == text[i + n..];
    if t.Overrun? {
      return Some(PastTheEnd), n;
    }
    if t.NoAdvance? {
      return Some(Forever), n;
    }
    var ok := ExecToken(d, vals, ops, t);
    over := if ok then None else Some(Failed);
  }

  method ExecToken<V>(d: Domain<V>, vals: Stack<V>, ops: Stack<char>, t: Token) returns (ok: bool)
    requires vals.Valid() && ops.Valid() && vals as object != ops && vals.items as object != ops.items
    modifies vals, vals.items, ops, ops.items
    ensures vals.Valid() && ops.Valid()
    ensures var r := Exec(d, t, old(Stacks(vals, ops)), STACK_MAX);
      ok == r.Some? && (ok ==> Stacks(vals, ops) == r.value)
  {
    ok := true;
    match t {
      case Blank =>
      case Operand(a) =>
        var _ := vals.Push(d.atom(a));
      case Open =>
        var _ := ops.Push('(');
      case Close =>
        ok := CloseParen(d, vals, ops);
      case Operator(op) =>
        ok := ReduceAndPush(d, vals, ops, op);
      case _ =>
        ok := false;
    }
  }

  method CloseParen<V>(d: Domain<V>, vals: Stack<V>, ops: Stack<char>) returns (ok: bool)
    requires vals.Valid() && ops.Valid() && vals as object != ops && vals.items as object != ops.items
    modifies vals, vals.items, ops
    ensures vals.Valid() && ops.Valid()
    ensures var r := Exec(d, Close, old(Stacks(vals, ops)), STACK_MAX);
      ok == r.Some? && (ok ==> Stacks(vals, ops) == r.value)
  {
    hide PopApply, Apply;
    while ops.top != -1 && ops.items[ops.top] != '('
      invariant vals.Valid() && ops.Valid()
      invariant ReduceToParen(d, old(Stacks(vals, ops)), STACK_MAX) == ReduceToParen(d, Stacks(vals, ops), STACK_MAX)
      decreases ops.top + 1
    {
      var applied := PopAndApply(d, vals, ops);
      if !applied {
        return false;
      }
    }
    if ops.top == -1 {
      return false;
    }
    var _ := ops.Pop(' ');
    return true;
  }

  method ReduceAndPush<V>(d: Domain<V>, vals: Stack<V>, ops: Stack<char>, op: char) returns (ok: bool)
    requires vals.Valid() && ops.Valid() && vals as object != ops && vals.items as object != ops.items
    modifies vals, vals.items, ops, ops.items
    ensures vals.Valid() && ops.Valid()
    ensures var r := Exec(d, Operator(op), old(Stacks(vals, ops)), STACK_MAX);
      ok == r.Some? && (ok ==> Stacks(vals, ops) == r.value)
  {
    hide PopApply, Apply;
    while ops.top != -1 && Precedence(ops.items[ops.top]) >= Precedence(op)
      invariant vals.Valid() && ops.Valid()
      invariant Reduce(d, old(Stacks(vals, ops)), Precedence(op), STACK_MAX)
             == Reduce(d, Stacks(vals, ops), Precedence(op), STACK_MAX)
      decreases ops.top + 1
    {
      var applied := PopAndApply(d, vals, ops);
      if !applied {
        return false;
      }
    }
    var _ := ops.Push(op);
    return true;
  }

  method DrainAll<V>(d: Domain<V>, vals: Stack<V>, ops: Stack<char>) returns (r: Outcome<V>)
    requires vals.Valid() && ops.Valid() && vals as object != ops && vals.items as object != ops.items
    modifies vals, vals.items, ops
    ensures r == Finish(d, old(Stacks(vals, ops)), STACK_MAX)
  {
    hide PopApply, Apply;
    while ops.top != -1
      invariant vals.Valid() && ops.Valid()
      invariant Drain(d, old(Stacks(vals, ops)), STACK_MAX) == Drain(d, Stacks(vals, ops), STACK_MAX)
      decreases ops.top + 1
    {
      var applied := PopAndApply(d, vals, ops);
      if !applied {
        return Failed;
      }
    }
    if vals.top != 0 {
      return Failed;
    }
    return Value(vals.items[0]);
  }
}
