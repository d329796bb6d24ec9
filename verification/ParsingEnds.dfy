/** When the statement parser comes to an end: always, unless a colon has a token after it at which
    lists of statements end, but not switches. */
module ParsingEnds {
  import opened StatementNesting
  import opened Wrappers

  /** The tokens at which lists of statements end and that the clauses of a switch do not look for. */
  const BLOCKING: set<Kind> := {Colon, CloseTag, ErrorToken, Quote}

  predicate IsDeadEnd(ts: seq<Token>, i: nat)
    requires 0 < i < |ts|
  {
    ts[i - 1].kind == Colon && ts[i].kind in BLOCKING
  }

  ghost predicate NoDeadEnd(ts: seq<Token>) {
    forall i: nat {:trigger IsDeadEnd(ts, i)} :: 0 < i < |ts| ==> !IsDeadEnd(ts, i)
  }

  /** Parsing has not run into a loop that no longer moves, and no colon is followed by such a token
      in what is left. */
  ghost predicate Safe(s: Progress) {
    !s.Stuck? && (s.Going? ==> NoDeadEnd(s.ts) && !(s.last == Colon && Next(s) in BLOCKING))
  }

  /** The parser comes to an end, by an error or not, on all tokens in which no colon has a second
      colon, a `</`, an unknown operator or the closing quote of a script attribute right after it. */
  lemma {:induction false} NeverHangs(ts: seq<Token>)
    requires NoDeadEnd(ts)
    ensures !Statements(Going(ts, End, []), OUTSIDE).Stuck?
  {
    StatementsSafe(Going(ts, End, []), OUTSIDE);
  }

  /** The statements of a clause leave all tokens where they are just when its colon has such a token
      after it. */
  lemma ClauseMoves(s: Progress, c: Context)
    requires s.Going? && s.last == Colon && Next(s) !in {CloseBrace, End, Case, Default}
    ensures Left(Statements(s, c)) == Left(s) <==> Next(s) in BLOCKING
    ensures Next(s) in BLOCKING ==> ClauseBody(s, true, c) == Stuck
    ensures Next(s) !in BLOCKING ==> ClauseBody(s, true, c) == Statements(s, c)
  {
    hide Statement;
    if Next(s) == Semicolon {
      assert Left(Statements(Skip(Note(s, Flaw(Left(s)))), c)) < Left(s);
    } else if Next(s) !in BLOCKING {
      assert Left(Statements(Statement(s, c), c)) < Left(s);
    }
  }

  // ------------------------------------------------------------ programs that hang

  function PrintLabel(label_: Option<Expr>): seq<Kind> {
    match label_
    case None => [Default]
    case Some(e) => [Case] + PrintExpr(e)
  }

  /** A switch up to the token k after the colon of its first label. */
  function PrintDeadEnd(cond: Expr, label_: Option<Expr>, k: Kind): seq<Kind> {
    [Switch] + (PrintCondition(cond) + ([OpenBrace] + (PrintLabel(label_) + ([Colon] + [k]))))
  }

  /** After any statements, a switch whose first label has such a token behind its colon keeps the
      parser from ever coming to an end, whatever comes then. */
  lemma {:induction false} DeadEndHangs(s: Progress, ss: seq<Stmt>, cond: Expr, label_: Option<Expr>, k: Kind,
                                        path: seq<Construct>)
    requires k in BLOCKING && Reads(s, PrintAll(ss) + PrintDeadEnd(cond, label_, k))
    ensures Statements(s, ContextOf(path)) == Stuck
    decreases ss
  {
    hide Reads, Passed, After, Tail, Next, Skip, Expect, Left, Print, Statement, ContextOf, Report, PrintDeadEnd;
    var rest := PrintDeadEnd(cond, label_, k);
    if ss == [] {
      assert PrintAll(ss) + rest == rest;
      SwitchHangs(s, cond, label_, k, path);
    } else {
      var a, b := Print(ss[0]), PrintAll(ss[1..]) + rest;
      assert PrintAll(ss) + rest == a + b;
      DeadEndStarts(ss[1..], cond, label_, k);
      StmtStarts(ss[0]);
      var w := Report(ss[0], path, Tail(s, a), InLoop);
      Split(s, a, b, w);
      StmtRead(s, ss[0], path);
      DeadEndHangs(Passed(s, a, w), ss[1..], cond, label_, k, path);
    }
  }

  lemma DeadEndStarts(ss: seq<Stmt>, cond: Expr, label_: Option<Expr>, k: Kind)
    ensures var ks := PrintAll(ss) + PrintDeadEnd(cond, label_, k);
            ks != [] && StartsStatement(ks[0])
  {
    AllStarts(ss);
  }

  lemma {:induction false} SwitchHangs(s: Progress, cond: Expr, label_: Option<Expr>, k: Kind,
                                       path: seq<Construct>)
    requires k in BLOCKING && Reads(s, PrintDeadEnd(cond, label_, k))
    ensures Statements(s, ContextOf(path)) == Stuck
  {
    Keywords();
    EnterConstruct(path);
    var c := ContextOf(path);
    var inner := path + [SwitchBody];
    hide Reads, Passed, After, Tail, Skip, Expect, Left, Expression, Cases, PrintCondition, PrintLabel,
         ContextOf, ReportExpr, Peek, HasStatement, IsBlockStatement;
    var k3 := [OpenBrace] + (PrintLabel(label_) + ([Colon] + [k]));
    var k2 := PrintCondition(cond) + k3;
    Token1(s, Switch, k2);
    KeywordRead(s, Switch, k2, c);
    var s1 := Passed(s, [Switch], []);
    var w := ReportExpr(cond, inner, 1 + |k3| + Tail(s1, k2), InLoop);
    Split(s1, PrintCondition(cond), k3, w);
    ConditionRead2(s1, cond, inner);
    var s2 := Passed(s1, PrintCondition(cond), w);
    Token1(s2, OpenBrace, PrintLabel(label_) + ([Colon] + [k]));
    var s3 := Passed(s2, [OpenBrace], []);
    LabelHangs(s3, label_, k, inner);
    assert Keyword(s1, Switch, c) == Stuck;
    assert Statement(s, c) == Unlabelled(s, c) == Stuck;
    assert Statements(Stuck, c) == Stuck;
  }

  lemma {:induction false} LabelHangs(s: Progress, label_: Option<Expr>, k: Kind, path: seq<Construct>)
    requires k in BLOCKING && Reads(s, PrintLabel(label_) + ([Colon] + [k]))
    ensures Cases(s, false, ContextOf(path)) == Stuck
  {
    hide Reads, Passed, After, Tail, Skip, Expect, Left, Expression, PrintExpr, ContextOf, ReportExpr, Cases, IsPiece;
    CaseFirst(s, false, ContextOf(path));
    DefaultFirst(s, false, ContextOf(path));
    NoPiece();
    var two := [Colon] + [k];
    match label_
    case None =>
      Token1(s, Default, two);
      var s1 := Passed(s, [Default], []);
      Token1(s1, Colon, [k]);
      LastPassed(s1, [Colon]);
      ColonStops(Passed(s1, [Colon], []), ContextOf(path));
    case Some(e) =>
      var a := PrintExpr(e);
      assert PrintLabel(label_) + two == [Case] + (a + two);
      Token1(s, Case, a + two);
      var s1 := Passed(s, [Case], []);
      var w := ReportExpr(e, path, Tail(s1, a), InLoop);
      Split(s1, a, two, w);
      ExprRead(s1, e, false, path);
      var s2 := Passed(s1, a, w);
      Token1(s2, Colon, [k]);
      LastPassed(s2, [Colon]);
      ColonStops(Passed(s2, [Colon], []), ContextOf(path));
  }

  lemma ColonStops(s: Progress, c: Context)
    requires s.Going? && s.last == Colon && Next(s) in BLOCKING
    ensures Cases(s, true, c) == Stuck
  {
    ClauseMoves(s, c);
    assert OneClause(s, true, c) == Stuck;
    assert Cases(Stuck, true, c) == Stuck;
  }

  /** Tokens of one line before others. */
  function Row(ks: seq<Kind>, rest: seq<Token>): seq<Token> {
    if ks == [] then rest else [Token(ks[0], false, 0)] + Row(ks[1..], rest)
  }

  lemma RowStep(k: Kind, ks: seq<Kind>, rest: seq<Token>, last: Kind, ws: seq<Warning>)
    ensures var s := Going(Row([k] + ks, rest), last, ws);
            Next(s) == k && Skip(s) == Going(Row(ks, rest), k, ws)
  {
    assert ([k] + ks)[1..] == ks;
    assert Row([k] + ks, rest)[1..] == Row(ks, rest);
  }

  lemma OneOperand(s: Progress, c: Context)
    requires s.Going? && Next(s) == Operand && !IsPiece(Next(Skip(s)))
    ensures Expression(s, false, c) == Skip(s)
  {
  }

  /** The programs `switch (x) { case 1::`, `switch (x) { case 1: </` and `switch (x) { case 1: ++++`
      are such, even if no later token is where it ought to be on its line. */
  lemma ColonHangs(k: Kind, ws: seq<Warning>, last: Kind, rest: seq<Token>, c: Context)
    requires k in BLOCKING
    ensures var ks := [Switch] + ([OpenParen] + ([Operand] + ([CloseParen] + ([OpenBrace]
                      + ([Case] + ([Operand] + ([Colon] + ([k] + []))))))));
            Statements(Going(Row(ks, rest), last, ws), c) == Stuck
  {
    var k8 := [k] + [];
    var k7 := [Colon] + k8;
    var k6 := [Operand] + k7;
    var k5 := [Case] + k6;
    var k4 := [OpenBrace] + k5;
    var k3 := [CloseParen] + k4;
    var k2 := [Operand] + k3;
    var k1 := [OpenParen] + k2;
    RowStep(Switch, k1, rest, last, ws);
    RowStep(OpenParen, k2, rest, Switch, ws);
    RowStep(Operand, k3, rest, OpenParen, ws);
    RowStep(CloseParen, k4, rest, Operand, ws);
    RowStep(OpenBrace, k5, rest, CloseParen, ws);
    RowStep(Case, k6, rest, OpenBrace, ws);
    RowStep(Operand, k7, rest, Case, ws);
    RowStep(Colon, k8, rest, Operand, ws);
    RowStep(k, [], rest, Colon, ws);
    hide Row, Skip, Expression, Cases, ClauseBody, Peek;
    var inner := c.(breakable := true);
    var s := Going(Row([Switch] + k1, rest), last, ws);
    var s1 := Going(Row(k1, rest), Switch, ws);
    var s5 := Going(Row(k5, rest), OpenBrace, ws);
    var s6 := Going(Row(k6, rest), Case, ws);
    OneOperand(Going(Row(k2, rest), OpenParen, ws), inner);
    OneOperand(s6, inner);
    ColonStops(Going(Row(k8, rest), Colon, ws), inner);
    assert Cases(s5, false, inner) == Stuck by { CasesStep(s5, false, inner); }
    assert Keyword(s1, Switch, c) == Stuck;
    assert Statement(s, c) == Unlabelled(s, c) == Stuck;
    assert Statements(Stuck, c) == Stuck;
  }

  // ------------------------------------------------------------ nothing leads to a standstill

  lemma SkipSafe(s: Progress)
    requires Safe(s)
    ensures Safe(Skip(s))
  {
    if s.Going? && s.ts != [] {
      var ts := s.ts[1..];
      forall i: nat | 0 < i < |ts| ensures !IsDeadEnd(ts, i) {
        assert !IsDeadEnd(s.ts, i + 1);
      }
      if |s.ts| > 1 { assert !IsDeadEnd(s.ts, 1); }
    }
  }

  lemma SmallSteps()
    ensures forall s: Progress {:trigger Skip(s)} :: Safe(s) ==> Safe(Skip(s))
    ensures forall s: Progress, w {:trigger Note(s, w)} :: Safe(s) ==> Safe(Note(s, w))
    ensures forall s: Progress, b, w {:trigger NoteIf(s, b, w)} :: Safe(s) ==> Safe(NoteIf(s, b, w))
    ensures forall s: Progress, k {:trigger Expect(s, k)} :: Safe(s) ==> Safe(Expect(s, k))
    ensures forall s: Progress, b {:trigger Identifier(s, b)} :: Safe(s) ==> Safe(Identifier(s, b))
    ensures forall s: Progress {:trigger Finish(s)} :: Safe(s) ==> Safe(Finish(s))
    ensures forall s: Progress {:trigger CatchName(s)} :: Safe(s) ==> Safe(CatchName(s))
    ensures forall s: Progress {:trigger Label(s)} :: Safe(s) ==> Safe(Label(s))
    ensures Safe(Quit)
  {
    forall s: Progress | Safe(s) ensures Safe(Skip(s)) { SkipSafe(s); }
    hide Skip, NoDeadEnd;
  }

  lemma {:induction false} ParametersSafe(s: Progress)
    requires Safe(s)
    ensures Safe(Parameters(s))
    decreases Left(s)
  {
    SmallSteps();
    hide Safe, Skip, Expect, Identifier;
    var s1 := Identifier(s, false);
    if Next(s1) == Comma { ParametersSafe(Skip(s1)); }
  }

  lemma {:induction false} StatementsSafe(s: Progress, c: Context)
    requires Safe(s)
    ensures Safe(Statements(s, c))
    decreases Left(s), 4
  {
    SmallSteps();
    hide Safe, Statement, Skip, Note;
    if !s.Going? || IsReach(Next(s)) {
    } else if Next(s) == Semicolon {
      StatementsSafe(Skip(Note(s, Flaw(Left(s)))), c);
    } else {
      StatementSafe(s, c);
      StatementsSafe(Statement(s, c), c);
    }
  }

  lemma {:induction false} StatementSafe(s: Progress, c: Context)
    requires Safe(s)
    ensures Safe(Statement(s, c))
    decreases Left(s), 3
  {
    SmallSteps();
    hide Safe, Unlabelled, Skip, Note, NoteIf, Peek;
    if !s.Going? || Next(s) == Semicolon {
    } else if Next(s) == Name && Peek(s, 0) == Colon {
      var s1 := Skip(Skip(s));
      UnlabelledSafe(NoteIf(s1, !MayBeLabelled(Next(s1)), Flaw(Left(s1))), c);
    } else {
      UnlabelledSafe(s, c);
    }
  }

  lemma {:induction false} UnlabelledSafe(s: Progress, c: Context)
    requires Safe(s)
    ensures Safe(Unlabelled(s, c))
    decreases Left(s), 2
  {
    SmallSteps();
    hide Safe, Keyword, Expression, Skip, Finish;
    var k := Next(s);
    if !s.Going? {
    } else if IsPiece(k) && k != Function {
      ExpressionSafe(s, true, c);
    } else if k != End && HasStatement(k) {
      KeywordSafe(Skip(s), k, c);
    }
  }

  lemma {:induction false} KeywordSafe(s: Progress, k: Kind, c: Context)
    requires Safe(s)
    ensures Safe(Keyword(s, k, c))
    decreases Left(s), 9
  {
    SmallSteps();
    hide Safe, Skip, Note, NoteIf, Expect, Identifier, Label, FunctionRest, Condition, Block, Otherwise, Rescued,
         ForRest, Variables, Expression, Cases;
    match k
    case Function =>
      FunctionRestSafe(Identifier(s, true));
    case If =>
      ConditionSafe(s, c);
      BlockSafe(Condition(s, c), c);
      OtherwiseSafe(Block(Condition(s, c), c), c);
    case While =>
      var inner := Context(true, true);
      ConditionSafe(s, inner);
      BlockSafe(Condition(s, inner), inner);
    case Do =>
      var inner := Context(true, true);
      BlockSafe(s, inner);
      ConditionSafe(Expect(Block(s, inner), While), inner);
    case For =>
      ForRestSafe(Expect(s, OpenParen), Context(true, true));
    case Var =>
      VariablesSafe(s, c);
    case Switch =>
      SwitchSafe(s, c.(breakable := true));
    case Return =>
      ExpressionSafe(s, false, c);
    case Throw =>
      ExpressionSafe(s, false, c);
    case Try =>
      BlockSafe(s, c);
      RescuedSafe(Block(s, c), c);
    case _ =>
  }

  lemma {:induction false} SwitchSafe(s: Progress, c: Context)
    requires Safe(s)
    ensures Safe(Cases(Expect(Expect(Expression(Expect(s, OpenParen), false, c), CloseParen), OpenBrace), false, c))
    decreases Left(s), 8
  {
    SmallSteps();
    hide Safe, Expect, Expression, Cases;
    ExpressionSafe(Expect(s, OpenParen), false, c);
    var s1 := Expect(Expression(Expect(s, OpenParen), false, c), CloseParen);
    CasesSafe(Expect(s1, OpenBrace), false, c);
  }

  lemma {:induction false} OtherwiseSafe(s: Progress, c: Context)
    requires Safe(s)
    ensures Safe(Otherwise(s, c))
    decreases Left(s), 6
  {
    SmallSteps();
    hide Safe, Skip, Statement, Block;
    if Next(s) == Else {
      StatementSafe(Skip(s), c);
      BlockSafe(Skip(s), c);
    }
  }

  lemma {:induction false} RescuedSafe(s: Progress, c: Context)
    requires Safe(s)
    ensures Safe(Rescued(s, c))
    decreases Left(s), 6
  {
    SmallSteps();
    hide Safe, Skip, Expect, CatchName, Block;
    if s.Going? {
      var caught := Expect(CatchName(Expect(Skip(s), OpenParen)), CloseParen);
      var s1 := if Next(s) == Catch then Block(caught, c) else s;
      if Next(s) == Catch { BlockSafe(caught, c); }
      if Next(s1) == Finally { BlockSafe(Skip(s1), c); }
    }
  }

  lemma {:induction false} BlockSafe(s: Progress, c: Context)
    requires Safe(s)
    ensures Safe(Block(s, c))
    decreases Left(s), 5
  {
    SmallSteps();
    hide Safe, Skip, Note, Expect, Statements, Statement;
    if Next(s) == OpenBrace {
      StatementsSafe(Skip(s), c);
    } else {
      StatementSafe(Note(s, Flaw(Left(s))), c);
    }
  }

  lemma {:induction false} FunctionRestSafe(s: Progress)
    requires Safe(s)
    ensures Safe(FunctionRest(s))
    decreases Left(s), 6
  {
    SmallSteps();
    hide Safe, Skip, Expect, Parameters, Block;
    var s1 := Expect(s, OpenParen);
    ParametersSafe(s1);
    BlockSafe(if Next(s1) == CloseParen then Skip(s1) else Parameters(s1), OUTSIDE);
  }

  lemma {:induction false} ConditionSafe(s: Progress, c: Context)
    requires Safe(s)
    ensures Safe(Condition(s, c))
    decreases Left(s), 3
  {
    SmallSteps();
    hide Safe, Expect, Test;
    TestSafe(Expect(s, OpenParen), c);
  }

  lemma {:induction false} TestSafe(s: Progress, c: Context)
    requires Safe(s)
    ensures Safe(Test(s, c))
    decreases Left(s), 2
  {
    SmallSteps();
    hide Safe, Skip, Note, Expression;
    ExpressionSafe(s, false, c);
    var s1 := Expression(s, false, c);
    if Next(s1) == Assign { ExpressionSafe(Skip(Note(s1, Flaw(Left(s1)))), false, c); }
  }

  lemma {:induction false} ExpressionSafe(s: Progress, low: bool, c: Context)
    requires Safe(s)
    ensures Safe(Expression(s, low, c))
    decreases Left(s), 1
  {
    SmallSteps();
    hide Safe, Skip, OnePiece;
    OnePieceSafe(s, c);
    var s1 := OnePiece(s, c);
    if IsPiece(Next(s1)) {
      ExpressionSafe(s1, low, c);
    } else if low && Next(s1) == Assign {
      ExpressionSafe(Skip(s1), low, c);
    }
  }

  lemma {:induction false} OnePieceSafe(s: Progress, c: Context)
    requires Safe(s)
    ensures Safe(OnePiece(s, c))
    decreases Left(s), 0
  {
    SmallSteps();
    hide Safe, Skip, Literal;
    if Next(s) == Function { LiteralSafe(Skip(s), c); }
  }

  lemma {:induction false} LiteralSafe(s: Progress, c: Context)
    requires Safe(s)
    ensures Safe(Literal(s, c))
    decreases Left(s), 7
  {
    SmallSteps();
    hide Safe, Identifier, NoteIf, FunctionRest;
    FunctionRestSafe(if IsPunctuation(Next(s)) then s else Identifier(s, false));
  }

  lemma {:induction false} VariablesSafe(s: Progress, c: Context)
    requires Safe(s)
    ensures Safe(Variables(s, c))
    decreases Left(s), 2
  {
    SmallSteps();
    hide Safe, Skip, Identifier, Initial;
    InitialSafe(Identifier(s, false), c);
    var s1 := Initial(Identifier(s, false), c);
    if Next(s1) == Comma { VariablesSafe(Skip(s1), c); }
  }

  lemma {:induction false} InitialSafe(s: Progress, c: Context)
    requires Safe(s)
    ensures Safe(Initial(s, c))
    decreases Left(s), 1
  {
    SmallSteps();
    hide Safe, Skip, Peek, Expression;
    if Next(s) == Assign { ExpressionSafe(Skip(s), true, c); }
  }

  lemma {:induction false} ExpressionsSafe(s: Progress, c: Context)
    requires Safe(s)
    ensures Safe(Expressions(s, c))
    decreases Left(s), 2
  {
    SmallSteps();
    hide Safe, Skip, Expression;
    ExpressionSafe(s, true, c);
    var s1 := Expression(s, true, c);
    if Next(s1) == Comma { ExpressionsSafe(Skip(s1), c); }
  }

  lemma {:induction false} ForRestSafe(s: Progress, c: Context)
    requires Safe(s)
    ensures Safe(ForRest(s, c))
    decreases Left(s), 6
  {
    SmallSteps();
    hide Safe, Skip, Expect, Identifier, Peek, Expression, Block, ForHead, Test, Expressions;
    if Peek(s, if Next(s) == Var then 1 else 0) == In {
      var s1 := Expect(if Next(s) == Var then Identifier(Skip(s), false) else Skip(s), In);
      ExpressionSafe(s1, false, c);
      BlockSafe(Expect(Expression(s1, false, c), CloseParen), c);
    } else {
      ForHeadSafe(s, c);
      var s1 := Expect(ForHead(s, c), Semicolon);
      TestSafe(s1, c);
      var s2 := Expect(if Next(s1) == Semicolon then s1 else Test(s1, c), Semicolon);
      ExpressionsSafe(s2, c);
      BlockSafe(Expect(if Next(s2) == CloseParen then s2 else Expressions(s2, c), CloseParen), c);
    }
  }

  lemma {:induction false} ForHeadSafe(s: Progress, c: Context)
    requires Safe(s)
    ensures Safe(ForHead(s, c))
    decreases Left(s), 3
  {
    SmallSteps();
    hide Safe, Skip, Variables, Expressions;
    if Next(s) == Var {
      VariablesSafe(Skip(s), c);
    } else {
      ExpressionsSafe(s, c);
    }
  }

  lemma {:induction false} CasesSafe(s: Progress, g: bool, c: Context)
    requires Safe(s)
    ensures Safe(Cases(s, g, c))
    decreases Left(s), 7
  {
    SmallSteps();
    hide Safe, Skip, OneClause;
    if s.Going? && Next(s) !in {CloseBrace, End} {
      OneClauseSafe(s, g, c);
      CasesSafe(OneClause(s, g, c), g || Next(s) in {Case, Default}, c);
    }
  }

  lemma {:induction false} OneClauseSafe(s: Progress, g: bool, c: Context)
    requires Safe(s) && s.Going? && Next(s) !in {CloseBrace, End}
    ensures Safe(OneClause(s, g, c))
    decreases Left(s), 6
  {
    SmallSteps();
    if Next(s) == Case {
      hide Safe, Skip, Expect, Expression, ClauseBody;
      ExpressionSafe(Skip(s), false, c);
    } else if Next(s) == Default {
      hide Safe, Skip, Expect, Expression, ClauseBody;
    } else if g && s.last == Colon {
      ClauseMoves(s, c);
      StatementsSafe(s, c);
    }
  }
}
