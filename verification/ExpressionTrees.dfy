/**
 * Expression trees, their text, and the theorem that evaluating the text yields the tree's value.
 */
module ExpressionTrees {
  import opened ExpressionMachine
  import opened ExpressionScanner
  import opened Words

  datatype Leaf =
    | Lit(lit: string)
    | V
    | B(ds: string)
    | BBit(ds: string, bit: char)
    | S(ds: string)
    | F(ds: string)
    | BB(first: string, last: string)
    | SS(first: string, last: string)

  predicate LeafOk(l: Leaf) {
    match l
    case Lit(lit) => lit != [] && forall c | c in lit :: IsDigit(c) || c == '.'
    case V => true
    case B(ds) => Digits(ds)
    case BBit(ds, bit) => Digits(ds) && bit != '\0'
    case S(ds) => Digits(ds)
    case F(ds) => Digits(ds)
    case BB(a, b) => IsInt(a) && IsInt(b)
    case SS(a, b) => IsInt(a) && IsInt(b)
  }

  function LeafText(l: Leaf): string {
    match l
    case Lit(lit) => lit
    case V => "V"
    case B(ds) => "B" + ds
    case BBit(ds, bit) => "B" + ds + ":" + [bit]
    case S(ds) => "S" + ds
    case F(ds) => "F" + ds
    case BB(a, b) => RangeText('B', a, b)
    case SS(a, b) => RangeText('S', a, b)
  }

  function RangeText(letter: char, a: string, b: string): string {
    ['[', letter] + a + [':', letter] + b + "]"
  }

  /** None: a float that leaves the frame, or a range wider than eight bytes. */
  function LeafAtom(l: Leaf): Option<Atom>
    requires LeafOk(l)
  {
    match l
    case Lit(lit) => Some(Number(lit))
    case V => Some(Volts)
    case B(ds) => Some(ByteAt(Saturated(ds)))
    case BBit(ds, bit) => Some(BitAt(Saturated(ds), bit))
    case S(ds) => Some(SignedAt(Saturated(ds)))
    case F(ds) => if Decimal(ds) > 4 then None else Some(FloatAt(Decimal(ds)))
    case BB(a, b) => if IntValue(b) - IntValue(a) > 7 then None else Some(UnsignedRange(IntValue(a), IntValue(b)))
    case SS(a, b) => if IntValue(b) - IntValue(a) > 7 then None else Some(SignedRange(IntValue(a), IntValue(b)))
  }

  /** Concrete syntax: parentheses and blanks are explicit, and may be redundant. */
  datatype Expr =
    | Primary(leaf: Leaf)
    | Bin(op: char, left: Expr, right: Expr)
    | Group(inner: Expr)
    | Spaced(before: string, e: Expr, after: string)

  /** The levels of the grammar, loosest first, and the blanks it allows. */
  const LEVELS: seq<string> := ["|^", "&", "<>", "+-", "*/"]
  const BLANKS := " \t\n\U{B}\U{C}\r"

  predicate IsSign(op: char) { op in LEVELS[0] + LEVELS[1] + LEVELS[2] + LEVELS[3] + LEVELS[4] }

  function Binding(op: char): nat {
    if op in LEVELS[0] then 1
    else if op in LEVELS[1] then 2
    else if op in LEVELS[2] then 3
    else if op in LEVELS[3] then 4
    else if op in LEVELS[4] then 5
    else 0
  }

  /** The machine knows the grammar's operators, levels and blanks, and no others. */
  lemma MachineFollowsTheGrammar(c: char)
    ensures IsOperator(c) <==> IsSign(c)
    ensures Precedence(c) == Binding(c)
    ensures IsSpace(c) <==> c in BLANKS
  {
  }

  /** How tightly the outermost operator binds; operands and groups bind tightest. */
  function Level(e: Expr): nat {
    match e
    case Bin(op, _, _) => Binding(op)
    case Spaced(_, e', _) => Level(e')
    case _ => 6
  }

  /** Five levels, all left-associative: parentheses are there wherever these need them. */
  predicate WellFormed(e: Expr) {
    match e
    case Primary(l) => LeafOk(l)
    case Bin(op, l, r) =>
      IsSign(op) && WellFormed(l) && WellFormed(r) && Level(l) >= Binding(op) && Level(r) > Binding(op)
    case Group(e') => WellFormed(e')
    case Spaced(b, e', a) => WellFormed(e') && AllBlank(b) && AllBlank(a)
  }

  predicate AllBlank(s: string) { forall c | c in s :: c in BLANKS }

  function OpText(op: char): string { if op == '<' || op == '>' then [op, op] else [op] }

  function Text(e: Expr): string {
    match e
    case Primary(l) => LeafText(l)
    case Bin(op, l, r) => Text(l) + OpText(op) + Text(r)
    case Group(e') => "(" + Text(e') + ")"
    case Spaced(b, e', a) => b + Text(e') + a
  }

  function ApplyOp<V>(d: Domain<V>, op: char, a: Option<V>, b: Option<V>): Option<V> {
    if a.None? || b.None? || (op == '/' && d.isZero(b.value)) then None else Some(d.bin(op, a.value, b.value))
  }

  /** The mathematical value: None exactly when a leaf is bad or a division by zero occurs. */
  function Meaning<V>(d: Domain<V>, e: Expr): Option<V>
    requires WellFormed(e)
  {
    match e
    case Primary(l) => if LeafAtom(l).None? then None else Some(d.atom(LeafAtom(l).value))
    case Bin(op, l, r) => ApplyOp(d, op, Meaning(d, l), Meaning(d, r))
    case Group(e') => Meaning(d, e')
    case Spaced(_, e', _) => Meaning(d, e')
  }

  function Max(a: nat, b: nat): nat { if a >= b then a else b }

  /** The most slots of each stack that the tree ever occupies. */
  function ValueSlots(e: Expr): nat {
    match e
    case Primary(_) => 1
    case Bin(_, l, r) => Max(ValueSlots(l), 1 + ValueSlots(r))
    case Group(e') => ValueSlots(e')
    case Spaced(_, e', _) => ValueSlots(e')
  }

  function OpSlots(e: Expr): nat {
    match e
    case Primary(_) => 0
    case Bin(_, l, r) => Max(OpSlots(l), 1 + OpSlots(r))
    case Group(e') => 1 + OpSlots(e')
    case Spaced(_, e', _) => OpSlots(e')
  }

  function Tokens(e: Expr): seq<Token>
    requires WellFormed(e)
  {
    match e
    case Primary(l) => [if LeafAtom(l).None? then Refused else Operand(LeafAtom(l).value)]
    case Bin(op, l, r) => Tokens(l) + [Operator(op)] + Tokens(r)
    case Group(e') => [Open] + Tokens(e') + [Close]
    case Spaced(_, e', _) => Tokens(e')
  }

  function Feed<V>(d: Domain<V>, ts: seq<Token>, m: Machine<V>, cap: nat): Option<Machine<V>> {
    if ts == [] then Some(m)
    else
      var m' := Exec(d, ts[0], m, cap);
      if m'.None? then None else Feed(d, ts[1..], m'.value, cap)
  }

  lemma {:induction false} FeedSplits<V>(d: Domain<V>, ts: seq<Token>, us: seq<Token>, m: Machine<V>, cap: nat)
    ensures Feed(d, ts + us, m, cap) ==
      var r := Feed(d, ts, m, cap); if r.None? then None else Feed(d, us, r.value, cap)
  {
    if ts == [] {
      assert ts + us == us;
    } else {
      assert (ts + us)[1..] == ts[1..] + us;
      var m' := Exec(d, ts[0], m, cap);
      if m'.Some? { FeedSplits(d, ts[1..], us, m'.value, cap); }
    }
  }

  // ---- Scanning the text of a tree yields its tokens -------------------------------------

  /** What may stand right after an operand. */
  predicate Follows(rest: string): (b: bool)
    ensures b && rest != [] ==> !IsDigit(rest[0]) && rest[0] != '.' && rest[0] != ':'
  {
    rest == [] || IsSpace(rest[0]) || rest[0] == ')' || IsOperator(rest[0])
  }

  lemma RangeLexes(letter: char, a: string, b: string, rest: string)
    requires IsInt(a) && IsInt(b)
    ensures ScanRange(RangeText(letter, a, b) + rest, letter)
         == Range(IntValue(a), IntValue(b), true, |RangeText(letter, a, b)|)
  {
    hide ScanHalf, ScanInt, IntValue, IsInt;
    var s := RangeText(letter, a, b) + rest;
    var half := [':', letter] + (b + ("]" + rest));
    RangeTextSplits(letter, a, b, rest);
    HalfScans('[', letter, a, half);
    assert ScanHalf(s, '[', letter) == IntAt(IntValue(a), 2 + |a|);
    SecondHalf(['[', letter] + a, half, s);
    HalfScans(':', letter, b, "]" + rest);
    SecondHalf(['[', letter] + a + [':', letter] + b, "]" + rest, s);
  }

  lemma RangeTextSplits(letter: char, a: string, b: string, rest: string)
    ensures var s := RangeText(letter, a, b) + rest;
      && s == ['[', letter] + (a + ([':', letter] + (b + ("]" + rest))))
      && s == ['[', letter] + a + ([':', letter] + (b + ("]" + rest)))
      && s == ['[', letter] + a + [':', letter] + b + ("]" + rest)
  {
  }

  predicate LexesAs(l: Leaf, rest: string)
    requires LeafOk(l)
  {
    var s := LeafText(l) + rest;
    s != [] && Lex(s) ==
      (if LeafAtom(l).None? then (Refused, Lex(s).1) else (Operand(LeafAtom(l).value), |LeafText(l)|))
  }

  lemma BitLexes(ds: string, bit: char, rest: string)
    requires Digits(ds) && bit != '\0'
    ensures LexesAs(BBit(ds, bit), rest)
  {
    var tail := ":" + [bit] + rest;
    assert LeafText(BBit(ds, bit)) + rest == ['B'] + ds + tail;
    hide Decimal, Saturated, DigitRun;
    IndexLexes('B', ds, tail);
    assert (['B'] + ds + tail)[1 + |ds| + 1] == bit;
  }

  lemma ByteLexes(ds: string, rest: string)
    requires Digits(ds) && Follows(rest)
    ensures LexesAs(B(ds), rest)
  {
    hide Decimal, Saturated, DigitRun;
    IndexLexes('B', ds, rest);
  }

  lemma SignedByteLexes(ds: string, rest: string)
    requires Digits(ds) && Follows(rest)
    ensures LexesAs(S(ds), rest)
  {
    hide Decimal, Saturated, DigitRun;
    IndexLexes('S', ds, rest);
  }

  lemma FloatLexes(ds: string, rest: string)
    requires Digits(ds) && Follows(rest)
    ensures LexesAs(F(ds), rest)
  {
    hide Decimal, Saturated, DigitRun;
    IndexLexes('F', ds, rest);
    SaturationIsHonest(ds);
  }

  lemma LeafLexes(l: Leaf, rest: string)
    requires LeafOk(l) && Follows(rest)
    ensures LexesAs(l, rest)
  {
    match l
    case Lit(lit) =>
      NumberStopsAt(lit, rest);
      assert (lit + rest)[0] == lit[0];
    case V =>
    case B(ds) => ByteLexes(ds, rest);
    case BBit(ds, bit) => BitLexes(ds, bit, rest);
    case S(ds) => SignedByteLexes(ds, rest);
    case F(ds) => FloatLexes(ds, rest);
    case BB(a, b) => UnsignedLexes(a, b, rest);
    case SS(a, b) => SignedLexes(a, b, rest);
  }

  lemma UnsignedLexes(a: string, b: string, rest: string)
    requires IsInt(a) && IsInt(b)
    ensures LexesAs(BB(a, b), rest)
  {
    hide ScanRange;
    RangeLexes('B', a, b, rest);
    LetterLexes(RangeText('B', a, b) + rest);
  }

  lemma SignedLexes(a: string, b: string, rest: string)
    requires IsInt(a) && IsInt(b)
    ensures LexesAs(SS(a, b), rest)
  {
    hide ScanRange;
    var s := RangeText('S', a, b) + rest;
    RangeLexes('S', a, b, rest);
    LetterLexes(s);
    assert s[1] == 'S';
    NotThatRange(s, 'B');
  }

  lemma {:induction false} BlanksScan<V>(d: Domain<V>, b: string, rest: string, m: Machine<V>, cap: nat)
    requires AllBlank(b)
    ensures Scan(d, b + rest, m, cap) == Scan(d, rest, m, cap)
  {
    if b == [] {
      assert b + rest == rest;
    } else {
      assert (b + rest)[1..] == b[1..] + rest;
      MachineFollowsTheGrammar(b[0]);
      BlanksScan(d, b[1..], rest, m, cap);
    }
  }

  /** Scanning `s + rest` has the effect of the tokens, whatever legal text comes next. */
  ghost predicate ScansAs<V>(d: Domain<V>, s: string, ts: seq<Token>, rest: string, m: Machine<V>, cap: nat) {
    Scan(d, s + rest, m, cap) ==
    var r := Feed(d, ts, m, cap); if r.None? then Failed else Scan(d, rest, r.value, cap)
  }

  lemma SingleToken<V>(d: Domain<V>, t: Token, m: Machine<V>, cap: nat)
    ensures Feed(d, [t], m, cap) == Exec(d, t, m, cap)
  {
    assert [t][1..] == [];
  }

  lemma LeafScans<V>(d: Domain<V>, l: Leaf, rest: string, m: Machine<V>, cap: nat)
    requires LeafOk(l) && Follows(rest)
    ensures ScansAs(d, LeafText(l), Tokens(Primary(l)), rest, m, cap)
  {
    LeafLexes(l, rest);
    assert (LeafText(l) + rest)[|LeafText(l)|..] == rest;
    SingleToken(d, Tokens(Primary(l))[0], m, cap);
  }

  lemma {:induction false} TextScans<V>(d: Domain<V>, e: Expr, rest: string, m: Machine<V>, cap: nat)
    requires WellFormed(e) && Follows(rest)
    ensures ScansAs(d, Text(e), Tokens(e), rest, m, cap)
    decreases e
  {
    match e
    case Primary(l) => LeafScans(d, l, rest, m, cap);
    case Bin(op, l, r) => BinScans(d, op, l, r, rest, m, cap);
    case Group(e') => GroupScans(d, e', rest, m, cap);
    case Spaced(b, e', a) =>
      assert Text(e) + rest == b + (Text(e') + (a + rest));
      if a != [] { MachineFollowsTheGrammar(a[0]); }
      BlanksScan(d, b, Text(e') + (a + rest), m, cap);
      TextScans(d, e', a + rest, m, cap);
      var m1 := Feed(d, Tokens(e'), m, cap);
      if m1.Some? { BlanksScan(d, a, rest, m1.value, cap); }
  }

  lemma BinScans<V>(d: Domain<V>, op: char, l: Expr, r: Expr, rest: string, m: Machine<V>, cap: nat)
    requires WellFormed(Bin(op, l, r)) && Follows(rest)
    ensures ScansAs(d, Text(Bin(op, l, r)), Tokens(Bin(op, l, r)), rest, m, cap)
    decreases Bin(op, l, r), 0
  {
    MachineFollowsTheGrammar(op);
    var rest1 := OpText(op) + (Text(r) + rest);
    assert Text(Bin(op, l, r)) + rest == Text(l) + rest1;
    assert Follows(rest1);
    hide Feed, Exec, Scan, Text, Tokens, Follows, OpText, LEVELS, IsSign, IsOperator;
    TextScans(d, l, rest1, m, cap);
    BinFeeds(d, op, l, r, m, cap);
    var m1 := Feed(d, Tokens(l), m, cap);
    if m1.Some? {
      OperatorScans(d, op, Text(r) + rest, m1.value, cap);
      var m2 := Exec(d, Operator(op), m1.value, cap);
      if m2.Some? {
        TextScans(d, r, rest, m2.value, cap);
      }
    }
  }

  lemma GroupScans<V>(d: Domain<V>, e: Expr, rest: string, m: Machine<V>, cap: nat)
    requires WellFormed(e) && Follows(rest)
    ensures ScansAs(d, Text(Group(e)), Tokens(Group(e)), rest, m, cap)
    decreases Group(e), 0
  {
    assert Text(Group(e)) + rest == "(" + (Text(e) + (")" + rest));
    ParenScans(d, '(', Text(e) + (")" + rest), m, cap);
    TextScans(d, e, ")" + rest, m.(ops := Pushed(m.ops, '(', cap)), cap);
    GroupFeeds(d, e, m, cap);
    var m1 := Feed(d, Tokens(e), m.(ops := Pushed(m.ops, '(', cap)), cap);
    if m1.Some? { ParenScans(d, ')', rest, m1.value, cap); }
  }

  lemma ParenScans<V>(d: Domain<V>, c: char, rest: string, m: Machine<V>, cap: nat)
    requires c == '(' || c == ')'
    ensures Scan(d, [c] + rest, m, cap) ==
      var r := Exec(d, if c == '(' then Open else Close, m, cap);
      if r.None? then Failed else Scan(d, rest, r.value, cap)
  {
    LetterLexes([c] + rest);
    assert ([c] + rest)[1..] == rest;
  }

  lemma BinFeeds<V>(d: Domain<V>, op: char, l: Expr, r: Expr, m: Machine<V>, cap: nat)
    requires WellFormed(Bin(op, l, r))
    ensures Feed(d, Tokens(Bin(op, l, r)), m, cap) ==
      var m1 := Feed(d, Tokens(l), m, cap);
      if m1.None? then None
      else var m2 := Exec(d, Operator(op), m1.value, cap); if m2.None? then None else Feed(d, Tokens(r), m2.value, cap)
  {
    FeedSplits(d, Tokens(l) + [Operator(op)], Tokens(r), m, cap);
    FeedSplits(d, Tokens(l), [Operator(op)], m, cap);
    var m1 := Feed(d, Tokens(l), m, cap);
    if m1.Some? { SingleToken(d, Operator(op), m1.value, cap); }
  }

  lemma OpenPushes<V>(d: Domain<V>, m: Machine<V>, cap: nat)
    ensures Exec(d, Open, m, cap) == Some(m.(ops := Pushed(m.ops, '(', cap)))
  {
  }

  lemma GroupFeeds<V>(d: Domain<V>, e: Expr, m: Machine<V>, cap: nat)
    requires WellFormed(e)
    ensures Feed(d, Tokens(Group(e)), m, cap) ==
      var m2 := Feed(d, Tokens(e), m.(ops := Pushed(m.ops, '(', cap)), cap);
      if m2.None? then None else Exec(d, Close, m2.value, cap)
  {
    var m1 := m.(ops := Pushed(m.ops, '(', cap));
    OpenPushes(d, m, cap);
    var ts := Tokens(Group(e));
    assert ts == [Open] + (Tokens(e) + [Close]);
    hide Exec, Meaning, Feed, Tokens, Pushed, LeafAtom, WellFormed;
    FeedSplits(d, [Open], Tokens(e) + [Close], m, cap);
    SingleToken(d, Open, m, cap);
    FeedSplits(d, Tokens(e), [Close], m1, cap);
    var m2 := Feed(d, Tokens(e), m1, cap);
    if m2.Some? { SingleToken(d, Close, m2.value, cap); }
  }

  lemma OperatorScans<V>(d: Domain<V>, op: char, rest: string, m: Machine<V>, cap: nat)
    requires IsOperator(op)
    ensures Scan(d, OpText(op) + rest, m, cap) ==
      var r := Exec(d, Operator(op), m, cap); if r.None? then Failed else Scan(d, rest, r.value, cap)
  {
    var s := OpText(op) + rest;
    assert s[|OpText(op)|..] == rest;
    assert Lex(s) == (Operator(op), |OpText(op)|);
  }

  // ---- The machine computes the meaning --------------------------------------------------

  /** Nothing on the operator stack binds as tightly as `p`. */
  predicate Looser(ops: string, p: nat) { ops == [] || Precedence(ops[|ops| - 1]) < p }

  predicate Legit(ops: string) { forall c | c in ops :: c == '(' || IsOperator(c) }

  lemma {:induction false} ToParenIsReduceOne<V>(d: Domain<V>, m: Machine<V>, cap: nat)
    requires Legit(m.ops)
    ensures ReduceToParen(d, m, cap) == Reduce(d, m, 1, cap)
    decreases |m.ops|
  {
    if m.ops != [] {
      var top := m.ops[|m.ops| - 1];
      assert top in m.ops;
      assert top == '(' <==> Precedence(top) < 1;
      var m' := PopApply(d, m, cap);
      if m'.Some? { ToParenIsReduceOne(d, m'.value, cap); }
    }
  }

  lemma {:induction false} FeedKeepsLegit<V>(d: Domain<V>, ts: seq<Token>, m: Machine<V>, cap: nat)
    requires Legit(m.ops) && forall t | t in ts :: t.Operator? ==> IsOperator(t.op)
    ensures var r := Feed(d, ts, m, cap); r.Some? ==> Legit(r.value.ops)
  {
    if ts != [] {
      var m' := Exec(d, ts[0], m, cap);
      if m'.Some? { FeedKeepsLegit(d, ts[1..], m'.value, cap); }
    }
  }

  lemma {:induction false} TokensAreOperators(e: Expr)
    requires WellFormed(e)
    ensures forall t | t in Tokens(e) :: t.Operator? ==> IsOperator(t.op)
  {
    match e
    case Primary(_) =>
    case Bin(op, l, r) => MachineFollowsTheGrammar(op); TokensAreOperators(l); TokensAreOperators(r);
    case Group(e') => TokensAreOperators(e');
    case Spaced(_, e', _) => TokensAreOperators(e');
  }

  /** `r` is what is left after a tree of value `v`, started on `m`, up to operators binding >= q. */
  ghost predicate Stands<V>(d: Domain<V>, r: Option<Machine<V>>, m: Machine<V>, v: Option<V>, q: nat, cap: nat) {
    if r.None? then v.None?
    else if v.None? then Reduce(d, r.value, q, cap).None?
    else Reduce(d, r.value, q, cap) == Reduce(d, m.(vals := m.vals + [v.value]), q, cap)
  }

  /**
   * The heart of operator precedence. Feeding the tokens of `e` may leave operators pending, but
   * any later operator that binds no tighter than everything in `e`, and anything that closes `e`,
   * finds the machine as if only the value of `e` had been pushed; and a division by zero inside
   * `e` has been or will then be reported.
   */
  lemma {:induction false} TokensCompute<V>(d: Domain<V>, e: Expr, m: Machine<V>, p: nat, q: nat, cap: nat)
    requires WellFormed(e) && 1 <= q <= p <= Level(e) && Looser(m.ops, p) && Legit(m.ops)
    requires |m.vals| + ValueSlots(e) <= cap && |m.ops| + OpSlots(e) <= cap
    ensures Stands(d, Feed(d, Tokens(e), m, cap), m, Meaning(d, e), q, cap)
    decreases e
  {
    match e
    case Primary(l) => SingleToken(d, Tokens(e)[0], m, cap);
    case Bin(op, l, r) => BinComputes(d, op, l, r, m, p, q, cap);
    case Group(e') => GroupComputes(d, e', m, q, cap);
    case Spaced(_, e', _) => TokensCompute(d, e', m, p, q, cap);
  }

  lemma {:induction false} SlotsArePositive(e: Expr)
    ensures ValueSlots(e) >= 1
  {
    match e
    case Group(e') => SlotsArePositive(e');
    case Spaced(_, e', _) => SlotsArePositive(e');
    case _ =>
  }

  lemma BinComputes<V>(d: Domain<V>, op: char, l: Expr, r: Expr, m: Machine<V>, p: nat, q: nat, cap: nat)
    requires var e := Bin(op, l, r);
      && WellFormed(e) && 1 <= q <= p <= Level(e) && Looser(m.ops, p) && Legit(m.ops)
      && |m.vals| + ValueSlots(e) <= cap && |m.ops| + OpSlots(e) <= cap
    ensures var e := Bin(op, l, r); Stands(d, Feed(d, Tokens(e), m, cap), m, Meaning(d, e), q, cap)
    decreases Bin(op, l, r), 0
  {
    MachineFollowsTheGrammar(op);
    var k := Precedence(op);
    assert ValueSlots(r) >= 1 by { SlotsArePositive(r); }
    hide Feed, Exec, Reduce, Legit, LeafOk, LeafAtom, IsSign, IsOperator, Tokens, LEVELS;
    BinFeeds(d, op, l, r, m, cap);
    TokensCompute(d, l, m, k, k, cap);
    var m1 := Feed(d, Tokens(l), m, cap);
    var x := Meaning(d, l);
    if m1.Some? && x.Some? {
      var m2 := Machine(m.vals + [x.value], m.ops + [op]);
      assert Exec(d, Operator(op), m1.value, cap) == Some(m2) by {
        OperatorSettles(d, m1.value, m, op, x.value, cap);
      }
      TokensCompute(d, r, m2, k + 1, q, cap);
      PendingStands(d, Feed(d, Tokens(r), m2, cap), m, op, x.value, Meaning(d, r), q, cap);
    }
  }

  lemma PendingStands<V>(d: Domain<V>, rest: Option<Machine<V>>, m: Machine<V>, op: char, x: V,
                         y: Option<V>, q: nat, cap: nat)
    requires IsOperator(op) && q <= Precedence(op) && |m.vals| + 2 <= cap
    requires Stands(d, rest, Machine(m.vals + [x], m.ops + [op]), y, q, cap)
    ensures Stands(d, rest, m, ApplyOp(d, op, Some(x), y), q, cap)
  {
    PendingApplies(d, m, op, x, y, q, cap);
  }

  lemma OperatorSettles<V>(d: Domain<V>, m1: Machine<V>, m: Machine<V>, op: char, x: V, cap: nat)
    requires Looser(m.ops, Precedence(op)) && |m.ops| < cap
    requires Stands(d, Some(m1), m, Some(x), Precedence(op), cap)
    ensures Exec(d, Operator(op), m1, cap) == Some(Machine(m.vals + [x], m.ops + [op]))
  {
  }

  lemma GroupComputes<V>(d: Domain<V>, e: Expr, m: Machine<V>, q: nat, cap: nat)
    requires WellFormed(e) && 1 <= q && Legit(m.ops)
    requires |m.vals| + ValueSlots(e) <= cap && |m.ops| + 1 + OpSlots(e) <= cap
    ensures Stands(d, Feed(d, Tokens(Group(e)), m, cap), m, Meaning(d, e), q, cap)
    decreases Group(e), 0
  {
    var m1 := m.(ops := m.ops + ['(']);
    GroupFeeds(d, e, m, cap);
    LevelIsPositive(e);
    TokensCompute(d, e, m1, 1, 1, cap);
    var m2 := Feed(d, Tokens(e), m1, cap);
    if m2.Some? {
      TokensAreOperators(e);
      FeedKeepsLegit(d, Tokens(e), m1, cap);
      ToParenIsReduceOne(d, m2.value, cap);
      assert m1.ops[..|m1.ops| - 1] == m.ops;
    }
  }

  /** A pending operator over two known operands reduces to the application. */
  lemma PendingApplies<V>(d: Domain<V>, m: Machine<V>, op: char, a: V, b: Option<V>, q: nat, cap: nat)
    requires IsOperator(op) && q <= Precedence(op) && |m.vals| + 2 <= cap
    ensures b.Some? ==>
      Reduce(d, Machine(m.vals + [a] + [b.value], m.ops + [op]), q, cap) ==
      var v := ApplyOp(d, op, Some(a), b);
      if v.None? then None else Reduce(d, m.(vals := m.vals + [v.value]), q, cap)
  {
    if b.Some? {
      var vs := m.vals + [a] + [b.value];
      var full := Machine(vs, m.ops + [op]);
      assert full.ops[..|full.ops| - 1] == m.ops;
      assert vs[..|vs| - 1] == m.vals + [a] && (m.vals + [a])[..|m.vals|] == m.vals;
    }
  }

  lemma {:induction false} DrainIsReduce<V>(d: Domain<V>, m: Machine<V>, cap: nat)
    ensures var r := Reduce(d, m, 1, cap);
      (r.None? ==> Drain(d, m, cap).None?) && (r.Some? && r.value.ops == [] ==> Drain(d, m, cap) == r)
    decreases |m.ops|
  {
    if m.ops != [] {
      var m' := PopApply(d, m, cap);
      if m'.Some? { DrainIsReduce(d, m'.value, cap); }
    }
  }

  /**
   * Every expression tree over the nine operators, printed with five precedence levels, left
   * association, parentheses at least where needed and blanks anywhere between tokens, evaluates
   * to its value; and evaluation fails exactly when the tree has none. The stacks must hold it.
   */
  lemma PrintedTreesEvaluate<V>(d: Domain<V>, e: Expr)
    requires WellFormed(e) && ValueSlots(e) <= STACK_MAX && OpSlots(e) <= STACK_MAX
    ensures Evaluate(d, Text(e)) == var v := Meaning(d, e); if v.None? then Failed else Value(v.value)
  {
    var m: Machine<V> := Machine([], []);
    assert Text(e) + [] == Text(e);
    TextScans(d, e, [], m, STACK_MAX);
    LevelIsPositive(e);
    TokensCompute(d, e, m, 1, 1, STACK_MAX);
    var r := Feed(d, Tokens(e), m, STACK_MAX);
    if r.Some? {
      DrainIsReduce(d, r.value, STACK_MAX);
    }
  }

  lemma {:induction false} LevelIsPositive(e: Expr)
    requires WellFormed(e)
    ensures Level(e) >= 1
  {
    match e
    case Bin(op, _, _) => MachineFollowsTheGrammar(op);
    case Spaced(_, e', _) => LevelIsPositive(e');
    case _ =>
  }

  /** A tree never needs more slots than its text has characters. */
  lemma {:induction false} ShortTreesFit(e: Expr)
    requires WellFormed(e)
    ensures ValueSlots(e) <= |Text(e)| && OpSlots(e) <= |Text(e)|
  {
    match e
    case Primary(l) =>
      LeafLexes(l, []);
    case Bin(_, l, r) => ShortTreesFit(l); ShortTreesFit(r);
    case Group(e') => ShortTreesFit(e');
    case Spaced(_, e', _) => ShortTreesFit(e');
  }

  /** So every printed tree of at most 100 characters evaluates to its value. */
  lemma ShortTextsEvaluate<V>(d: Domain<V>, e: Expr)
    requires WellFormed(e) && |Text(e)| <= 100
    ensures Evaluate(d, Text(e)) == var v := Meaning(d, e); if v.None? then Failed else Value(v.value)
  {
    ShortTreesFit(e);
    PrintedTreesEvaluate(d, e);
  }

  lemma PendingSignApplies<V>(d: Domain<V>, op: char, v: V, cap: nat)
    requires IsOperator(op) && cap >= 1 && Precedence(op) >= 1
    ensures Reduce(d, Machine([v], [op]), 1, cap) ==
      var r := ApplyOp(d, op, Some(d.zero), Some(v)); if r.None? then None else Some(Machine([r.value], []))
  {
    assert [op][..0] == [] && [v][..0] == [];
    var x := d.bin(op, d.zero, v);
    assert Pushed([], x, cap) == [x] by { assert [] + [x] == [x]; }
    assert Reduce(d, Machine([x], []), 1, cap) == Some(Machine([x], []));
    assert PopApply(d, Machine([v], [op]), cap) ==
      if op == '/' && d.isZero(v) then None else Some(Machine([x], []));
  }

  /**
   * A sign in front of a tree that binds tighter has no left operand: the machine takes a zero for it.
   * So "-x*y" is 0 - x*y, and "+x" is x only if 0 + x is.
   */
  lemma SignInFront<V>(d: Domain<V>, op: char, e: Expr)
    requires IsSign(op) && WellFormed(e) && Level(e) > Binding(op) && |Text(e)| <= 99
    ensures Evaluate(d, OpText(op) + Text(e)) ==
      var v := ApplyOp(d, op, Some(d.zero), Meaning(d, e)); if v.None? then Failed else Value(v.value)
  {
    var m0: Machine<V>, m1: Machine<V> := Machine([], []), Machine([], [op]);
    MachineFollowsTheGrammar(op);
    ShortTreesFit(e);
    FirstSignWaits(d, op);
    hide Text, Tokens, Meaning, Feed, Reduce, Exec, ValueSlots, OpSlots, Level, Binding, Precedence;
    OperatorScans(d, op, Text(e), m0, STACK_MAX);
    assert Text(e) + [] == Text(e);
    TextScans(d, e, [], m1, STACK_MAX);
    TokensCompute(d, e, m1, Binding(op) + 1, 1, STACK_MAX);
    SignIsDrained(d, op, Feed(d, Tokens(e), m1, STACK_MAX), Meaning(d, e));
  }

  lemma FirstSignWaits<V>(d: Domain<V>, op: char)
    requires IsSign(op)
    ensures Exec(d, Operator(op), Machine([], []), STACK_MAX) == Some(Machine([], [op])) && 1 <= Precedence(op)
    ensures Looser([op], Precedence(op) + 1) && Legit([op])
  {
    MachineFollowsTheGrammar(op);
    assert 1 <= Precedence(op) && Looser([op], Precedence(op) + 1) && Legit([op]);
    hide IsSign, Binding, IsOperator, Precedence, PopApply, Apply, Looser, Legit;
    assert [] + [op] == [op];
    assert Reduce(d, Machine([], []), Precedence(op), STACK_MAX) == Some(Machine([], []));
  }

  lemma SignIsDrained<V>(d: Domain<V>, op: char, r: Option<Machine<V>>, v: Option<V>)
    requires IsOperator(op) && 1 <= Precedence(op) && Stands(d, r, Machine([], [op]), v, 1, STACK_MAX)
    ensures var x := ApplyOp(d, op, Some(d.zero), v);
      (if r.None? then Failed else Finish(d, r.value, STACK_MAX)) == if x.None? then Failed else Value(x.value)
  {
    if r.Some? {
      DrainIsReduce(d, r.value, STACK_MAX);
      if v.Some? {
        PendingSignApplies(d, op, v.value, STACK_MAX);
        assert [] + [v.value] == [v.value];
      }
    }
    hide Reduce;
  }

  lemma LeafPushes<V>(d: Domain<V>, l: Leaf, m: Machine<V>, cap: nat)
    requires LeafOk(l)
    ensures Feed(d, Tokens(Primary(l)), m, cap) ==
      if LeafAtom(l).None? then None else Some(m.(vals := Pushed(m.vals, d.atom(LeafAtom(l).value), cap)))
  {
    SingleToken(d, Tokens(Primary(l))[0], m, cap);
  }

  /** One operand is what an evaluation must end with: none, or two side by side, fail. */
  lemma OneOperandMustRemain<V>(d: Domain<V>, x: Leaf, b: string, y: Leaf)
    requires LeafOk(x) && LeafOk(y) && AllBlank(b)
    ensures Evaluate(d, b).Failed?
    ensures b != [] ==> Evaluate(d, LeafText(x) + b + LeafText(y)).Failed?
  {
    var m: Machine<V> := Machine([], []);
    assert b + [] == b;
    BlanksScan(d, b, [], m, STACK_MAX);
    if b != [] {
      MachineFollowsTheGrammar(b[0]);
      hide IsSpace, AllBlank, Tokens, LeafText, LeafAtom, Feed;
      assert LeafText(x) + b + LeafText(y) == LeafText(x) + (b + LeafText(y));
      LeafScans(d, x, b + LeafText(y), m, STACK_MAX);
      LeafPushes(d, x, m, STACK_MAX);
      var m1 := Feed(d, Tokens(Primary(x)), m, STACK_MAX);
      if m1.Some? {
        BlanksScan(d, b, LeafText(y), m1.value, STACK_MAX);
        assert LeafText(y) + [] == LeafText(y);
        LeafScans(d, y, [], m1.value, STACK_MAX);
        LeafPushes(d, y, m1.value, STACK_MAX);
      }
    }
  }

  // ---- Abstract trees, printed with no more parentheses than needed ----------------------

  datatype Tree = Tip(leaf: Leaf) | Node(op: char, left: Tree, right: Tree)

  predicate TreeOk(t: Tree) {
    match t
    case Tip(l) => LeafOk(l)
    case Node(op, l, r) => IsSign(op) && TreeOk(l) && TreeOk(r)
  }

  function TreeValue<V>(d: Domain<V>, t: Tree): Option<V>
    requires TreeOk(t)
  {
    match t
    case Tip(l) => if LeafAtom(l).None? then None else Some(d.atom(LeafAtom(l).value))
    case Node(op, l, r) => ApplyOp(d, op, TreeValue(d, l), TreeValue(d, r))
  }

  function Fenced(e: Expr, p: nat): Expr { if Level(e) < p then Group(e) else e }

  function Minimal(t: Tree): Expr {
    match t
    case Tip(l) => Primary(l)
    case Node(op, l, r) => Bin(op, Fenced(Minimal(l), Binding(op)), Fenced(Minimal(r), Binding(op) + 1))
  }

  lemma {:induction false} MinimalMeansTheTree<V>(d: Domain<V>, t: Tree)
    requires TreeOk(t)
    ensures WellFormed(Minimal(t)) && Meaning(d, Minimal(t)) == TreeValue(d, t)
  {
    if t.Node? {
      MinimalMeansTheTree(d, t.left);
      MinimalMeansTheTree(d, t.right);
    }
  }

  /** Round trip: print a tree with the fewest parentheses, evaluate the text, get the tree's value. */
  lemma PrintThenEvaluate<V>(d: Domain<V>, t: Tree)
    requires TreeOk(t) && ValueSlots(Minimal(t)) <= STACK_MAX && OpSlots(Minimal(t)) <= STACK_MAX
    ensures Evaluate(d, Text(Minimal(t))) == var v := TreeValue(d, t); if v.None? then Failed else Value(v.value)
  {
    MinimalMeansTheTree(d, t);
    PrintedTreesEvaluate(d, Minimal(t));
  }

  // ---- Three operands, no parentheses ----------------------------------------------------

  /** The nine operators as they are written, level by level, loosest first. */
  const SIGNS: seq<seq<string>> := [["|", "^"], ["&"], ["<<", ">>"], ["+", "-"], ["*", "/"]]

  lemma SignsAreWritten(i: nat, sign: string)
    requires i < |SIGNS| && sign in SIGNS[i]
    ensures sign != [] && IsSign(sign[0]) && Binding(sign[0]) == i + 1 <= 5 && OpText(sign[0]) == sign
  {
    assert i == 0 || i == 1 || i == 2 || i == 3 || i == 4;
  }

  function LeafValue<V>(d: Domain<V>, l: Leaf): Option<V>
    requires LeafOk(l)
  {
    if LeafAtom(l).None? then None else Some(d.atom(LeafAtom(l).value))
  }

  /**
   * Precedence and association, in the operators as they are written. In x o1 y o2 z the second
   * operator is applied first if it stands on a later level, and otherwise the first one is.
   */
  lemma LaterLevelsBindTighter<V>(d: Domain<V>, x: Leaf, i: nat, o1: string, y: Leaf, j: nat, o2: string, z: Leaf)
    requires LeafOk(x) && LeafOk(y) && LeafOk(z)
    requires i < |SIGNS| && o1 in SIGNS[i] && j < |SIGNS| && o2 in SIGNS[j]
    ensures o1 != [] && o2 != []
    ensures var a, b, c := LeafValue(d, x), LeafValue(d, y), LeafValue(d, z);
      var v := if j > i then ApplyOp(d, o1[0], a, ApplyOp(d, o2[0], b, c))
               else ApplyOp(d, o2[0], ApplyOp(d, o1[0], a, b), c);
      Evaluate(d, LeafText(x) + o1 + LeafText(y) + o2 + LeafText(z)) == if v.None? then Failed else Value(v.value)
  {
    SignsAreWritten(i, o1);
    SignsAreWritten(j, o2);
    var p, q := o1[0], o2[0];
    hide *;
    if j > i {
      RightFirst(d, x, p, y, q, z);
      assert LeafText(x) + o1 + (LeafText(y) + o2 + LeafText(z)) == LeafText(x) + o1 + LeafText(y) + o2 + LeafText(z);
    } else {
      LeftFirst(d, x, p, y, q, z);
    }
  }

  lemma RightFirst<V>(d: Domain<V>, x: Leaf, p: char, y: Leaf, q: char, z: Leaf)
    requires LeafOk(x) && LeafOk(y) && LeafOk(z) && IsSign(p) && IsSign(q) && Binding(p) < Binding(q) <= 5
    ensures var v := ApplyOp(d, p, LeafValue(d, x), ApplyOp(d, q, LeafValue(d, y), LeafValue(d, z)));
      Evaluate(d, LeafText(x) + OpText(p) + (LeafText(y) + OpText(q) + LeafText(z)))
        == if v.None? then Failed else Value(v.value)
  {
    var a, b, c := Primary(x), Primary(y), Primary(z);
    Single(d, x);
    Single(d, y);
    Single(d, z);
    hide *;
    Pair(d, q, b, c);
    Pair(d, p, a, Bin(q, b, c));
    LargerOf();
    PrintedTreesEvaluate(d, Bin(p, a, Bin(q, b, c)));
  }

  lemma LeftFirst<V>(d: Domain<V>, x: Leaf, p: char, y: Leaf, q: char, z: Leaf)
    requires LeafOk(x) && LeafOk(y) && LeafOk(z) && IsSign(p) && IsSign(q) && Binding(q) <= Binding(p) <= 5
    ensures var v := ApplyOp(d, q, ApplyOp(d, p, LeafValue(d, x), LeafValue(d, y)), LeafValue(d, z));
      Evaluate(d, LeafText(x) + OpText(p) + LeafText(y) + OpText(q) + LeafText(z))
        == if v.None? then Failed else Value(v.value)
  {
    var a, b, c := Primary(x), Primary(y), Primary(z);
    Single(d, x);
    Single(d, y);
    Single(d, z);
    hide *;
    Pair(d, p, a, b);
    Pair(d, q, Bin(p, a, b), c);
    LargerOf();
    PrintedTreesEvaluate(d, Bin(q, Bin(p, a, b), c));
  }

  lemma LargerOf()
    ensures Max(0, 1) == 1 && Max(1, 1) == 1 && Max(1, 2) == 2 && Max(0, 2) == 2 && Max(2, 2) == 2 && Max(1, 3) == 3
    ensures Max(0, 1 + 1) == 2 && Max(1, 1 + 0) == 1 && Max(2, 1 + 1) == 2 && STACK_MAX == 100
  {
  }

  lemma Single<V>(d: Domain<V>, x: Leaf)
    requires LeafOk(x)
    ensures var e := Primary(x);
      && WellFormed(e) && Level(e) == 6 && Text(e) == LeafText(x) && ValueSlots(e) == 1 && OpSlots(e) == 0
      && Meaning(d, e) == LeafValue(d, x)
  {
  }

  lemma Pair<V>(d: Domain<V>, op: char, l: Expr, r: Expr)
    requires IsSign(op) && WellFormed(l) && WellFormed(r) && Level(l) >= Binding(op) && Level(r) > Binding(op)
    ensures var e := Bin(op, l, r);
      && WellFormed(e) && Level(e) == Binding(op) && Text(e) == Text(l) + OpText(op) + Text(r)
      && ValueSlots(e) == Max(ValueSlots(l), 1 + ValueSlots(r)) && OpSlots(e) == Max(OpSlots(l), 1 + OpSlots(r))
      && Meaning(d, e) == ApplyOp(d, op, Meaning(d, l), Meaning(d, r))
  {
  }
}
