/** Programs with slips that the statement parser warns about and gets over: a body without braces, a
    semicolon too many, one too few. */
module StatementSlips {
  import opened StatementNesting
  import opened Wrappers

  /** One statement in the place of a block is read as if it were in one, with one more warning; the
      constructs around it count for it as they would for the block. */
  lemma BareBody(s: Progress, st: Stmt, path: seq<Construct>)
    requires Reads(s, Print(st)) && MayFollow(After(s, Print(st)))
    ensures Block(s, ContextOf(path))
            == Passed(s, Print(st), [Flaw(Left(s))] + Report(st, path, Tail(s, Print(st)), InLoop))
  {
    hide Reads, Passed, After, Tail, Print, Report, Statement, ContextOf, MayFollow;
    StatementStarts(s, st);
    var w := Flaw(Left(s));
    NoteBefore(s, true, w, Print(st), Report(st, path, Tail(s, Print(st)), InLoop));
    StmtRead(NoteIf(s, true, w), st, path);
  }

  lemma StatementStarts(s: Progress, st: Stmt)
    requires Reads(s, Print(st))
    ensures StartsStatement(Next(s)) && Next(s) != OpenBrace
  {
    match st
    case Unmarked(b) => BareStarts(b);
    case Labelled(b) =>
      assert Print(st)[0] == Name;
  }

  /** A while loop over one statement without braces: breaks, continues and functions in it are those of
      a loop. */
  lemma BareWhile(s: Progress, cond: Expr, st: Stmt, path: seq<Construct>)
    requires var ks := [While] + (PrintCondition(cond) + Print(st)); Reads(s, ks) && MayFollow(After(s, ks))
    ensures var ks := [While] + (PrintCondition(cond) + Print(st));
            var inner := path + [LoopBody];
            Unlabelled(s, ContextOf(path))
            == Passed(s, ks, ReportExpr(cond, inner, 1 + |Print(st)| + Tail(s, ks), InLoop)
                             + ([Flaw(|Print(st)| + Tail(s, ks))] + Report(st, inner, Tail(s, ks), InLoop)))
  {
    Keywords();
    hide Unlabelled, MayFollow, HasStatement, IsBlockStatement;
    hide Reads, Passed, After, Tail, Next, Skip, Expect, Left, Encloses, Condition, Block, Keyword, PrintCondition,
         Print, ReportExpr, Report;
    var inner := path + [LoopBody];
    EnterConstruct(path);
    var p1, p2 := PrintCondition(cond), Print(st);
    Token1(s, While, p1 + p2);
    KeywordRead(s, While, p1 + p2, ContextOf(path));
    var s1 := Passed(s, [While], []);
    WhileIs(s1, ContextOf(path));
    var w := ReportExpr(cond, inner, 1 + |p2| + Tail(s1, p1 + p2), InLoop);
    Split(s1, p1, p2, w);
    ConditionRead(s1, cond, inner);
    var s2 := Passed(s1, p1, w);
    BareBody(s2, st, inner);
    Join(s1, p1, p2, w, [Flaw(Left(s2))] + Report(st, inner, Tail(s2, p2), InLoop));
  }

  /** A semicolon where a statement might begin is passed with a warning, and the rest of the list is
      read as without it. */
  lemma StraySemicolon(s: Progress, ss: seq<Stmt>, path: seq<Construct>)
    requires var ks := [Semicolon] + PrintAll(ss);
             Reads(s, ks) && After(s, ks) in {End, CloseBrace, Case, Default}
    ensures var ks := [Semicolon] + PrintAll(ss);
            Statements(s, ContextOf(path)) == Passed(s, ks, [Flaw(Left(s))] + ReportAll(ss, path, Tail(s, ks), InLoop))
  {
    hide Reads, Passed, After, Tail, PrintAll, ReportAll, Statements, ContextOf;
    var a := PrintAll(ss);
    var w := Flaw(Left(s));
    Token1(s, Semicolon, a);
    NoteBefore(s, true, w, [Semicolon] + a, ReportAll(ss, path, Tail(s, [Semicolon] + a), InLoop));
    var t := NoteIf(s, true, w);
    Token1(t, Semicolon, a);
    SemicolonPassed(s, ContextOf(path));
    AllRead(Passed(t, [Semicolon], []), ss, path);
  }

  lemma SemicolonPassed(s: Progress, c: Context)
    requires s.Going? && Next(s) == Semicolon
    ensures Statements(s, c) == Statements(Skip(Note(s, Flaw(Left(s)))), c)
  {
    hide Statement;
  }

  /** A throw without its semicolon before the end of a block: the expression is read all the same. */
  lemma ThrowUnfinished(s: Progress, e: Expr, path: seq<Construct>)
    requires var ks := [Throw] + PrintExpr(e); Reads(s, ks) && After(s, ks) in {End, CloseBrace}
    ensures var ks := [Throw] + PrintExpr(e);
            Unlabelled(s, ContextOf(path))
            == Passed(s, ks, ReportExpr(e, path, Tail(s, ks), InLoop) + [Flaw(Tail(s, ks))])
  {
    Keywords();
    hide Unlabelled, HasStatement, IsBlockStatement, Keyword, Encloses;
    hide Reads, Passed, After, Tail, Next, Skip, Expect, Left, ContextOf, Expression, PrintExpr, ReportExpr;
    var p := PrintExpr(e);
    Token1(s, Throw, p);
    KeywordRead(s, Throw, p, ContextOf(path));
    var s1 := Passed(s, [Throw], []);
    ThrowIs(s1, ContextOf(path));
    var w := ReportExpr(e, path, Tail(s1, p), InLoop);
    ExprRead(s1, e, false, path);
    PassedFacts(s1, p, w);
    NoteAfter(s1, p, w, true, Flaw(Tail(s1, p)));
  }

  /** An assignment as a condition is read whole, with a warning at its sign. */
  lemma ConditionAssigned(s: Progress, left: Expr, right: Expr, path: seq<Construct>)
    requires Reads(s, [OpenParen] + (PrintExpr(left) + ([Assign] + (PrintExpr(right) + [CloseParen]))))
    ensures var ks := [OpenParen] + (PrintExpr(left) + ([Assign] + (PrintExpr(right) + [CloseParen])));
            var tail := 1 + Tail(s, ks);
            Condition(s, ContextOf(path))
            == Passed(s, ks, ReportExpr(left, path, 1 + |PrintExpr(right)| + tail, InLoop)
                             + ([Flaw(1 + |PrintExpr(right)| + tail)] + ReportExpr(right, path, tail, InLoop)))
  {
    hide Reads, Passed, After, Tail, Next, Skip, Expect, Left, ContextOf, Expression, PrintExpr, ReportExpr;
    var a, b := PrintExpr(left), PrintExpr(right);
    var more := [Assign] + (b + [CloseParen]);
    Token1(s, OpenParen, a + more);
    var s1 := Passed(s, [OpenParen], []);
    var v := ReportExpr(left, path, Tail(s1, a), InLoop);
    Split(s1, a, more, v);
    ExprRead(s1, left, false, path);
    var s2 := Passed(s1, a, v);
    var w := Flaw(Left(s2));
    var r := ReportExpr(right, path, 1 + Tail(s2, more), InLoop);
    NoteBefore(s2, true, w, more, r);
    var s3 := NoteIf(s2, true, w);
    Token1(s3, Assign, b + [CloseParen]);
    var s4 := Passed(s3, [Assign], []);
    TokenAfter(s4, b, r, CloseParen);
    ExprRead(s4, right, false, path);
    Join(s1, a, more, v, [w] + r);
  }

  /** A try without a catch or a finally ends parsing. */
  lemma TryAlone(s: Progress, body: seq<Stmt>, path: seq<Construct>)
    requires var ks := [Try] + PrintBlock(body); Reads(s, ks) && After(s, ks) !in {Catch, Finally}
    ensures Unlabelled(s, ContextOf(path)) == Quit
  {
    Keywords();
    hide Unlabelled, HasStatement, IsBlockStatement;
    hide Reads, Passed, After, Tail, Next, Skip, Expect, Left, ContextOf, Block, Keyword, PrintBlock, ReportAll;
    var p := PrintBlock(body);
    Token1(s, Try, p);
    KeywordRead(s, Try, p, ContextOf(path));
    var s1 := Passed(s, [Try], []);
    TryIs(s1, ContextOf(path));
    BlockRead(s1, body, path);
    PassedFacts(s1, p, ReportAll(body, path, 1 + Tail(s1, p), InLoop));
  }

  /** A function statement with a parenthesis behind it on its last line ends parsing. */
  lemma FunctionInvoked(s: Progress, params: nat, body: seq<Stmt>, path: seq<Construct>)
    requires var ks := [Function] + ([Name] + PrintFunction(params, body));
             Reads(s, ks) && After(s, ks) == OpenParen && !s.ts[|ks|].leads
    ensures Unlabelled(s, ContextOf(path)) == Quit
  {
    Keywords();
    hide Unlabelled, HasStatement, IsBlockStatement;
    var ks := [Function] + ([Name] + PrintFunction(params, body));
    ParenBehind(s, ks, ReportFunction(body, path, Tail(s, ks), InLoop));
    hide Reads, Passed, After, Tail, Next, NextLeads, Skip, Expect, Left, ContextOf, FunctionRest, Keyword,
         PrintFunction, ReportFunction;
    var p := PrintFunction(params, body);
    Token1(s, Function, [Name] + p);
    KeywordRead(s, Function, [Name] + p, ContextOf(path));
    var s1 := Passed(s, [Function], []);
    Token1(s1, Name, p);
    FunctionRead(Passed(s1, [Name], []), params, body, path);
    NamePassed(s1);
    InvokedIs(s1, ContextOf(path));
  }

  lemma ParenBehind(s: Progress, ks: seq<Kind>, ws: seq<Warning>)
    requires Reads(s, ks) && After(s, ks) == OpenParen
    ensures |s.ts| > |ks| && NextLeads(Passed(s, ks, ws)) == s.ts[|ks|].leads
    ensures Next(Passed(s, ks, ws)) == OpenParen
  {
  }

  lemma NamePassed(s: Progress)
    requires s.Going? && Next(s) == Name
    ensures Identifier(s, true) == Skip(s)
  {
  }

  lemma InvokedIs(s: Progress, c: Context)
    ensures var r := FunctionRest(Identifier(s, true));
            Next(r) == OpenParen && !NextLeads(r) ==> Keyword(s, Function, c) == Quit
  {
    hide FunctionRest, Identifier;
  }

  /** Where a name is wanted, a word of the language passes with a warning, and a sign does not. */
  lemma NameWanted(s: Progress)
    requires s.Going? && s.ts != [] && Next(s) != End
    ensures Identifier(s, false)
            == if Next(s) == Name then Skip(s)
               else if Next(s) in {Function, If, Else, While, Do, For, In, Var, Switch, Case, Default, Break, Continue,
                                   Return, Throw, Try, Catch, Finally} then Skip(Note(s, Flaw(|s.ts|)))
               else Quit
  {
  }
}
