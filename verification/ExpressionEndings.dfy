/**
 * Which texts keep an evaluation from returning, told from the text alone: the tokens in front of the
 * first bad one must not fail, and when they do is a matter of parentheses and of operators that come
 * before any operand.
 */
module ExpressionEndings {
  import opened ExpressionMachine
  import opened ExpressionScanner
  import opened ExpressionTrees
  import opened Words

  predicate IsBad(t: Token) { t.NoAdvance? || t.Overrun? || t.Refused? }

  /** The tokens in front of the first bad one. */
  function TextTokens(s: string): (ts: seq<Token>)
    ensures |ts| <= |s|
  {
    if s == [] || IsBad(Lex(s).0) then [] else [Lex(s).0] + TextTokens(s[Lex(s).1..])
  }

  lemma {:induction false} ScanIsFeed<V>(d: Domain<V>, s: string, m: Machine<V>, cap: nat)
    ensures var f, e := Feed(d, TextTokens(s), m, cap), TextEnding(s);
      Scan(d, s, m, cap) ==
        if f.None? then Failed
        else if e.Sound? then Finish(d, f.value, cap)
        else if e.t.NoAdvance? then Forever
        else if e.t.Overrun? then PastTheEnd
        else Failed
  {
    hide Lex, Exec, Finish;
    if s == [] {
    } else if IsBad(Lex(s).0) {
      StuckTokensDoNothing(d, Lex(s).0, m, cap);
    } else {
      var (t, n) := Lex(s);
      assert TextTokens(s)[0] == t && TextTokens(s)[1..] == TextTokens(s[n..]);
      var m' := Exec(d, t, m, cap);
      if m'.Some? { ScanIsFeed(d, s[n..], m'.value, cap); }
    }
  }

  // ---- When the tokens in front fail -----------------------------------------------------

  predicate NoOperand(ts: seq<Token>) { forall t | t in ts :: !t.Operand? }

  /** How many parentheses are open. */
  function Depth(ts: seq<Token>): int {
    if ts == [] then 0
    else
      var t := ts[|ts| - 1];
      Depth(ts[..|ts| - 1]) + if t.Open? then 1 else if t.Close? then -1 else 0
  }

  /** What tokens without an operand leave to be applied: operators, and parentheses still open. */
  function Leading(ts: seq<Token>): string {
    if ts == [] then [] else Led(Leading(ts[..|ts| - 1]), ts[|ts| - 1])
  }

  function Led(l: string, t: Token): string {
    match t
    case Open => l + ['(']
    case Operator(op) => l + [op]
    case Close => if l == [] then l else l[..|l| - 1]
    case _ => l
  }

  /**
   * After the tokens `ts` the token `t` cannot be executed: it closes a parenthesis that is not open,
   * or it asks for an operator to be applied before there has been any operand.
   */
  predicate FailsAt(ts: seq<Token>, t: Token) {
    || (t.Close? && Depth(ts) <= 0)
    || (NoOperand(ts) && Leading(ts) != [] &&
        var top := Leading(ts)[|Leading(ts)| - 1];
        (t.Close? && top != '(') || (t.Operator? && Precedence(top) >= Precedence(t.op)))
  }

  predicate FailsEarly(ts: seq<Token>) {
    ts != [] && (FailsEarly(ts[..|ts| - 1]) || FailsAt(ts[..|ts| - 1], ts[|ts| - 1]))
  }

  predicate Proper(ts: seq<Token>) { forall t | t in ts :: !IsBad(t) && (t.Operator? ==> IsOperator(t.op)) }

  lemma {:induction false} TextTokensAreProper(s: string)
    ensures Proper(TextTokens(s))
  {
    if s != [] && !IsBad(Lex(s).0) {
      TextTokensAreProper(s[Lex(s).1..]);
      LexedOperatorsAreOperators(s);
    }
    hide Lex;
  }

  lemma LexedOperatorsAreOperators(s: string)
    requires s != []
    ensures Lex(s).0.Operator? ==> IsOperator(Lex(s).0.op)
  {
  }

  function Parens(ops: string): nat {
    if ops == [] then 0 else Parens(ops[..|ops| - 1]) + if ops[|ops| - 1] == '(' then 1 else 0
  }

  /** The unit machine after the tokens `ts`. */
  predicate Stage(ts: seq<Token>, m: Machine<()>) {
    && |m.vals| <= |ts| && |m.ops| <= |ts| && Legit(m.ops) && Parens(m.ops) == Depth(ts)
    && (if NoOperand(ts) then m.vals == [] && m.ops == Leading(ts) else m.vals != [])
  }

  lemma ParensGrow(ops: string, c: char)
    ensures Parens(ops + [c]) == Parens(ops) + if c == '(' then 1 else 0
  {
    assert (ops + [c])[..|ops|] == ops;
  }

  /** With an operand there, a unit operator always applies, and an operand remains. */
  lemma UnitsApply(m: Machine<()>, cap: nat)
    requires m.ops != [] && m.vals != [] && |m.vals| <= cap
    ensures var r := PopApply(UNITS, m, cap);
      r.Some? && r.value.vals != [] && r.value.ops == m.ops[..|m.ops| - 1]
  {
  }

  lemma {:induction false} UnitsReduce(m: Machine<()>, p: nat, cap: nat)
    requires m.vals != [] && |m.vals| <= cap && p >= 1 && Legit(m.ops)
    ensures var r := Reduce(UNITS, m, p, cap);
      r.Some? && r.value.vals != [] && Legit(r.value.ops) && Parens(r.value.ops) == Parens(m.ops)
    decreases |m.ops|
  {
    hide PopApply;
    if m.ops != [] && Precedence(m.ops[|m.ops| - 1]) >= p {
      UnitsApply(m, cap);
      UnitsReduce(PopApply(UNITS, m, cap).value, p, cap);
    }
  }

  lemma {:induction false} UnitsReduceToParen(m: Machine<()>, cap: nat)
    requires m.vals != [] && |m.vals| <= cap && Legit(m.ops)
    ensures var r := ReduceToParen(UNITS, m, cap);
      && r.Some? && r.value.vals != [] && Legit(r.value.ops) && Parens(r.value.ops) == Parens(m.ops)
      && (r.value.ops == [] <==> Parens(m.ops) == 0)
      && (r.value.ops != [] ==> r.value.ops[|r.value.ops| - 1] == '(')
    decreases |m.ops|
  {
    hide PopApply;
    if m.ops != [] && m.ops[|m.ops| - 1] != '(' {
      UnitsApply(m, cap);
      UnitsReduceToParen(PopApply(UNITS, m, cap).value, cap);
    }
  }

  lemma NothingToApply(m: Machine<()>, cap: nat)
    requires m.vals == [] && m.ops != []
    ensures PopApply(UNITS, m, cap).None?
  {
  }

  lemma OneMoreToken(ts: seq<Token>, t: Token)
    ensures NoOperand(ts + [t]) <==> NoOperand(ts) && !t.Operand?
    ensures Depth(ts + [t]) == Depth(ts) + if t.Open? then 1 else if t.Close? then -1 else 0
    ensures Leading(ts + [t]) == Led(Leading(ts), t)
  {
    assert (ts + [t])[..|ts|] == ts;
    assert forall u | u in ts :: u in ts + [t];
    assert t in ts + [t];
  }

  lemma ReducedStage(ts: seq<Token>, m: Machine<()>, op: char, cap: nat)
    requires Stage(ts, m) && |ts| < cap && IsOperator(op) && m.vals != []
    ensures !FailsAt(ts, Operator(op))
    ensures var r := Exec(UNITS, Operator(op), m, cap); r.Some? && Stage(ts + [Operator(op)], r.value)
  {
    hide PopApply, Reduce, Parens, Depth, Leading, NoOperand;
    OneMoreToken(ts, Operator(op));
    UnitsReduce(m, Precedence(op), cap);
    ParensGrow(Reduce(UNITS, m, Precedence(op), cap).value.ops, op);
  }

  lemma LeadingStage(ts: seq<Token>, m: Machine<()>, op: char, cap: nat)
    requires Stage(ts, m) && |ts| < cap && IsOperator(op) && m.vals == []
    ensures var r := Exec(UNITS, Operator(op), m, cap);
      && (r.None? <==> FailsAt(ts, Operator(op)))
      && (r.Some? ==> Stage(ts + [Operator(op)], r.value))
  {
    hide PopApply, Parens, Depth, Leading, NoOperand;
    OneMoreToken(ts, Operator(op));
    if m.ops != [] { NothingToApply(m, cap); }
    ParensGrow(m.ops, op);
  }

  lemma ClosedStage(ts: seq<Token>, m: Machine<()>, cap: nat)
    requires Stage(ts, m) && |ts| < cap
    ensures var r := Exec(UNITS, Close, m, cap);
      && (r.None? <==> FailsAt(ts, Close))
      && (r.Some? ==> Stage(ts + [Close], r.value))
  {
    hide PopApply, Depth, Leading, NoOperand;
    OneMoreToken(ts, Close);
    if m.vals != [] {
      UnitsReduceToParen(m, cap);
    } else if m.ops != [] {
      NothingToApply(m, cap);
    }
  }

  lemma PlainStage(ts: seq<Token>, m: Machine<()>, t: Token, cap: nat)
    requires Stage(ts, m) && |ts| < cap && (t.Blank? || t.Operand? || t.Open?)
    ensures var r := Exec(UNITS, t, m, cap); r.Some? && !FailsAt(ts, t) && Stage(ts + [t], r.value)
  {
    OneMoreToken(ts, t);
    ParensGrow(m.ops, '(');
  }

  lemma StageStep(ts: seq<Token>, m: Machine<()>, t: Token, cap: nat)
    requires Stage(ts, m) && |ts| < cap && Proper([t])
    ensures var r := Exec(UNITS, t, m, cap);
      && (r.None? <==> FailsAt(ts, t))
      && (r.Some? ==> Stage(ts + [t], r.value))
  {
    assert t in [t];
    hide Stage, Exec, FailsAt;
    match t
    case Operator(op) => if m.vals != [] { ReducedStage(ts, m, op, cap); } else { LeadingStage(ts, m, op, cap); }
    case Close => ClosedStage(ts, m, cap);
    case _ => PlainStage(ts, m, t, cap);
  }

  /** The unit machine fails on tokens exactly when they fail early. */
  lemma {:induction false} FeedFailsExactlyEarly(ts: seq<Token>, cap: nat)
    requires Proper(ts) && |ts| <= cap
    ensures var f := Feed(UNITS, ts, Machine([], []), cap);
      (f.None? <==> FailsEarly(ts)) && (f.Some? ==> Stage(ts, f.value))
  {
    hide Exec, FailsAt, Stage;
    var m0: Machine<()> := Machine([], []);
    if ts == [] {
      NothingYet();
    } else {
      var front, t := ts[..|ts| - 1], ts[|ts| - 1];
      assert ts == front + [t] && t in ts && forall u | u in front :: u in ts;
      FeedFailsExactlyEarly(front, cap);
      FeedSplits(UNITS, front, [t], m0, cap);
      var f := Feed(UNITS, front, m0, cap);
      if f.Some? {
        SingleToken(UNITS, t, f.value, cap);
        StageStep(front, f.value, t, cap);
      }
    }
  }

  lemma NothingYet()
    ensures Stage([], Machine([], []))
  {
  }

  /**
   * Exactly which texts of at most 100 characters do not return, and which overrun, with numbers that
   * are never zero: those whose first bad token is an unclosed range, or a bare "Bn:", and whose tokens
   * in front of it close no parenthesis that is not open and apply no operator before any operand. With
   * any numbers no other text does, and these do unless a division by zero fails first.
   */
  lemma ShortTextsReturnExactlyThen<V(!new)>(d: Domain<V>, text: string)
    requires |text| <= STACK_MAX
    ensures var r, u, e := Evaluate(d, text), Evaluate(UNITS, text), TextEnding(text);
      var early := FailsEarly(TextTokens(text));
      && (u.Forever? <==> e == Bad(NoAdvance) && !early)
      && (u.PastTheEnd? <==> e == Bad(Overrun) && !early)
      && (r.Forever? ==> e == Bad(NoAdvance) && !early)
      && (r.PastTheEnd? ==> e == Bad(Overrun) && !early)
      && (NeverZero(d) ==> (r.Forever? <==> e == Bad(NoAdvance) && !early))
      && (NeverZero(d) ==> (r.PastTheEnd? <==> e == Bad(Overrun) && !early))
      && (e == Bad(NoAdvance) && !early ==> r.Forever? || r.Failed?)
      && (e == Bad(Overrun) && !early ==> r.PastTheEnd? || r.Failed?)
  {
    hide Scan, Feed, FailsEarly, TextTokens, TextEnding, NeverZero;
    WhichTextsDoNotReturn(d, text);
    ScanIsFeed(UNITS, text, Machine([], []), STACK_MAX);
    TextTokensAreProper(text);
    FeedFailsExactlyEarly(TextTokens(text), STACK_MAX);
  }
}
