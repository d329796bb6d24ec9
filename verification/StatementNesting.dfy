/** The statement parser of a lint program, and the two counters by which it knows whether a
    `break`, a `continue` or a function literal stands inside a loop or a switch.

    The parser is given twice: as functions from a state of progress to the next one, and as a class
    whose methods change the tokens, the warnings and the counters in place.  Programs are trees
    that print as tokens; the report of a program says which warnings it deserves, by the
    constructs around each place.  The theorem is ProgramRead: parsing the tokens of any program
    comes to their end with just the report.  The lemmas after it go through the forms of
    statements one by one, and the methods of the class are tied to the functions. */
module StatementNesting {
  import opened Wrappers

  // ------------------------------------------------------------ tokens

  /** An Operand is a run of expression tokens without a function literal: names, literals,
      operators and brackets that the expression parser goes over without meeting a statement.
      CloseTag is `</`, ErrorToken an operator that the syntax does not know, and Quote the end of
      an attribute that holds a script. */
  datatype Kind =
    | End | CloseTag | ErrorToken | Quote
    | Semicolon | Comma | Colon | Assign | OpenParen | CloseParen | OpenBrace | CloseBrace
    | Operand | Name | Function
    | If | Else | While | Do | For | In | Var | Switch | Case | Default
    | Break | Continue | Return | Throw | Try | Catch | Finally

  /** `leads` says that the token is the first of its line; `ends` is how many line ends the lexer
      puts out before it, which is less than the lines passed when a comment holds some. */
  datatype Token = Token(kind: Kind, leads: bool, ends: nat)

  /** The tokens at which a list of statements ends. */
  predicate IsReach(k: Kind) { IsBlocking(k) || k in {End, CloseBrace, Case, Default} }

  /** Those of them that the clauses of a switch do not look for. */
  predicate IsBlocking(k: Kind) { k in {CloseTag, ErrorToken, Quote, Colon} }

  predicate IsPunctuation(k: Kind) {
    k in {End, CloseTag, ErrorToken, Quote, Semicolon, Comma, Colon, Assign, OpenParen, CloseParen, OpenBrace,
          CloseBrace, Operand}
  }

  predicate IsPiece(k: Kind) { k in {Operand, Name, Function} }

  /** Statements that end without a semicolon. */
  predicate IsBlockStatement(k: Kind) { k in {If, While, For, Switch, Try, Function} }

  predicate MayBeLabelled(k: Kind) { k in {While, Do, For, Switch} }

  /** A warning, with the number of tokens that were left when it was given. */
  datatype Warning = Unexpected(at: nat) | FunctionInLoop(at: nat) | Flaw(at: nat)

  // ------------------------------------------------------------ the parser's progress

  /** The tokens to come, the token just passed and the warnings so far; or the end of parsing by
      an error; or a loop that no longer moves. */
  datatype Progress = Going(ts: seq<Token>, last: Kind, ws: seq<Warning>) | Quit | Stuck

  /** Whether a loop or switch, and whether a loop, of the same function is open. */
  datatype Context = Context(breakable: bool, looping: bool)

  const OUTSIDE := Context(false, false)

  function Left(s: Progress): nat { if s.Going? then |s.ts| else 0 }

  function Next(s: Progress): Kind { if s.Going? && s.ts != [] then s.ts[0].kind else End }

  function NextLeads(s: Progress): bool { s.Going? && s.ts != [] && s.ts[0].leads }

  /** What a look n entries past the next token sees.  Each line end is an entry of its own. */
  function Peek(s: Progress, n: nat): Kind {
    if s.Going? && s.ts != [] then Ahead(s.ts[1..], n) else End
  }

  /** The entry n of the look-ahead; a line end is no kind of token and counts as the end. */
  function Ahead(ts: seq<Token>, n: nat): Kind {
    if ts == [] || n < ts[0].ends then End
    else if n == ts[0].ends then ts[0].kind
    else Ahead(ts[1..], n - ts[0].ends - 1)
  }

  function Skip(s: Progress): (r: Progress)
    ensures Left(r) <= Left(s) && (Next(s) != End ==> Left(r) < Left(s))
  {
    if !s.Going? then s
    else if s.ts == [] then s.(last := End)
    else Going(s.ts[1..], s.ts[0].kind, s.ws)
  }

  function Note(s: Progress, w: Warning): (r: Progress)
    ensures Left(r) == Left(s) && Next(r) == Next(s)
  {
    if s.Going? then s.(ws := s.ws + [w]) else s
  }

  function NoteIf(s: Progress, c: bool, w: Warning): (r: Progress)
    ensures Left(r) == Left(s) && Next(r) == Next(s)
  {
    if c then Note(s, w) else s
  }

  /** Passes a token that ought to be a k. */
  function Expect(s: Progress, k: Kind): (r: Progress)
    ensures Left(r) <= Left(s)
  {
    Skip(NoteIf(s, Next(s) != k, Flaw(Left(s))))
  }

  /** Passes a name; a reserved word will do, and a function statement may lack its name. */
  function Identifier(s: Progress, nameless: bool): (r: Progress)
    ensures Left(r) <= Left(s)
  {
    if !s.Going? then s
    else if !IsPunctuation(Next(s)) then Skip(NoteIf(s, Next(s) != Name, Flaw(Left(s))))
    else if nameless && Next(s) == OpenParen then Note(s, Flaw(Left(s)))
    else Quit
  }

  function Parameters(s: Progress): (r: Progress)
    ensures Left(r) <= Left(s)
    decreases Left(s)
  {
    var s := Identifier(s, false);
    if Next(s) == Comma then Parameters(Skip(s)) else Expect(s, CloseParen)
  }

  // ------------------------------------------------------------ statements and expressions

  function Statements(s: Progress, c: Context): (r: Progress)
    ensures Left(r) <= Left(s)
    decreases Left(s), 4
  {
    if !s.Going? || IsReach(Next(s)) then s
    else if Next(s) == Semicolon then Statements(Skip(Note(s, Flaw(Left(s)))), c)
    else Statements(Statement(s, c), c)
  }

  function Statement(s: Progress, c: Context): (r: Progress)
    ensures r.Going? && Next(s) != End ==> Left(r) < Left(s)
    ensures Left(r) <= Left(s)
    decreases Left(s), 3
  {
    if !s.Going? then s
    else if Next(s) == Semicolon then Skip(Note(s, Flaw(Left(s))))
    else if Next(s) == Name && Peek(s, 0) == Colon then
      var s := Skip(Skip(s));
      Unlabelled(NoteIf(s, !MayBeLabelled(Next(s)), Flaw(Left(s))), c)
    else Unlabelled(s, c)
  }

  function Unlabelled(s: Progress, c: Context): (r: Progress)
    ensures r.Going? && Next(s) != End ==> Left(r) < Left(s)
    ensures Left(r) <= Left(s)
    decreases Left(s), 2
  {
    var k := Next(s);
    if !s.Going? then s
    else if IsPiece(k) && k != Function then Finish(Expression(s, true, c))
    else if k == End || !HasStatement(k) then Quit
    else if IsBlockStatement(k) then Keyword(Skip(s), k, c)
    else Finish(Keyword(Skip(s), k, c))
  }

  /** The keywords that begin a statement. */
  predicate HasStatement(k: Kind) {
    k in {Function, If, While, Do, For, Var, Switch, Break, Continue, Return, Throw, Try}
  }

  /** The final semicolon. */
  function Finish(s: Progress): (r: Progress)
    ensures Left(r) <= Left(s)
  {
    if Next(s) == Semicolon then Skip(s) else Note(s, Flaw(Left(s)))
  }

  function Keyword(s: Progress, k: Kind, c: Context): (r: Progress)
    ensures Left(r) <= Left(s)
    decreases Left(s), 8
  {
    match k
    case Function =>
      var s := FunctionRest(Identifier(s, true));
      if Next(s) == OpenParen && !NextLeads(s) then Quit else s
    case If =>
      Otherwise(Block(Condition(s, c), c), c)
    case While =>
      var inner := Context(true, true);
      Block(Condition(s, inner), inner)
    case Do =>
      var inner := Context(true, true);
      Condition(Expect(Block(s, inner), While), inner)
    case For =>
      ForRest(Expect(s, OpenParen), Context(true, true))
    case Var => Variables(s, c)
    case Switch =>
      var inner := c.(breakable := true);
      var s := Expect(Expression(Expect(s, OpenParen), false, inner), CloseParen);
      Cases(Expect(s, OpenBrace), false, inner)
    case Break =>
      var s := NoteIf(s, !c.breakable, Unexpected(Left(s)));
      if Next(s) != Semicolon then Label(s) else s
    case Continue =>
      var s := NoteIf(s, !c.breakable, Unexpected(Left(s)));
      if Next(s) != Semicolon then Label(s) else NoteIf(s, !c.looping, Unexpected(Left(s)))
    case Return =>
      if Next(s) == Semicolon || IsReach(Next(s)) then s else Expression(s, false, c)
    case Throw => Expression(s, false, c)
    case Try =>
      Rescued(Block(s, c), c)
    case _ => Quit
  }

  function Otherwise(s: Progress, c: Context): (r: Progress)
    ensures Left(r) <= Left(s)
    decreases Left(s), 6
  {
    if Next(s) != Else then s
    else
      var s := Skip(s);
      if Next(s) in {If, Switch} then Statement(s, c) else Block(s, c)
  }

  function Rescued(s: Progress, c: Context): (r: Progress)
    ensures Left(r) <= Left(s)
    decreases Left(s), 6
  {
    if !s.Going? then s
    else
      var caught := Next(s) == Catch;
      var s := if caught then Block(Expect(CatchName(Expect(Skip(s), OpenParen)), CloseParen), c) else s;
      if Next(s) == Finally then Block(Skip(s), c) else if caught then s else Quit
  }

  function CatchName(s: Progress): (r: Progress)
    ensures Left(r) <= Left(s)
  {
    Skip(NoteIf(s, Next(s) != Name, Flaw(Left(s))))
  }

  /** A label on the same line; whatever stands there is passed. */
  function Label(s: Progress): (r: Progress)
    ensures Left(r) <= Left(s)
  {
    if NextLeads(s) then s else Skip(NoteIf(s, Next(s) != Name, Flaw(Left(s))))
  }

  /** A block, or the one statement that stands in its place. */
  function Block(s: Progress, c: Context): (r: Progress)
    ensures Left(r) <= Left(s)
    decreases Left(s), 5
  {
    if Next(s) == OpenBrace then Expect(Statements(Skip(s), c), CloseBrace)
    else Statement(Note(s, Flaw(Left(s))), c)
  }

  /** Parameters and body: the body has counters of its own. */
  function FunctionRest(s: Progress): (r: Progress)
    ensures Left(r) <= Left(s)
    decreases Left(s), 6
  {
    var s := Expect(s, OpenParen);
    var s := if Next(s) == CloseParen then Skip(s) else Parameters(s);
    Block(s, OUTSIDE)
  }

  function Condition(s: Progress, c: Context): (r: Progress)
    ensures Left(r) <= Left(s)
    decreases Left(s), 3
  {
    Expect(Test(Expect(s, OpenParen), c), CloseParen)
  }

  /** An expression that ought not to be an assignment. */
  function Test(s: Progress, c: Context): (r: Progress)
    ensures Left(r) <= Left(s)
    decreases Left(s), 2
  {
    var s := Expression(s, false, c);
    if Next(s) == Assign then Expression(Skip(Note(s, Flaw(Left(s)))), false, c) else s
  }

  /** An expression; at low binding power it takes assignments in. */
  function Expression(s: Progress, low: bool, c: Context): (r: Progress)
    ensures Left(r) <= Left(s) && (r.Going? ==> Left(r) < Left(s))
    decreases Left(s), 1
  {
    var s := OnePiece(s, c);
    if IsPiece(Next(s)) then Expression(s, low, c)
    else if low && Next(s) == Assign then Expression(Skip(s), low, c)
    else s
  }

  function OnePiece(s: Progress, c: Context): (r: Progress)
    ensures Left(r) <= Left(s) && (r.Going? ==> Left(r) < Left(s))
    decreases Left(s), 0
  {
    if s.Stuck? then s
    else if !IsPiece(Next(s)) then Quit
    else if Next(s) == Function then Literal(Skip(s), c) else Skip(s)
  }

  function Literal(s: Progress, c: Context): (r: Progress)
    ensures Left(r) <= Left(s)
    decreases Left(s), 7
  {
    var s := FunctionRest(if IsPunctuation(Next(s)) then s else Identifier(s, false));
    NoteIf(s, c.looping, FunctionInLoop(Left(s)))
  }

  function Variables(s: Progress, c: Context): (r: Progress)
    ensures Left(r) <= Left(s)
    decreases Left(s), 2
  {
    var s := Initial(Identifier(s, false), c);
    if Next(s) == Comma then Variables(Skip(s), c) else s
  }

  /** An initializer, or none. */
  function Initial(s: Progress, c: Context): (r: Progress)
    ensures Left(r) <= Left(s)
    decreases Left(s), 1
  {
    if Next(s) != Assign then s
    else
      var s := Skip(s);
      if !IsPunctuation(Next(s)) && Peek(s, 0) == Assign then Quit else Expression(s, true, c)
  }

  function Expressions(s: Progress, c: Context): (r: Progress)
    ensures Left(r) <= Left(s)
    decreases Left(s), 2
  {
    var s := Expression(s, true, c);
    if Next(s) == Comma then Expressions(Skip(s), c) else s
  }

  /** The rest of a `for`, after its parenthesis. */
  function ForRest(s: Progress, c: Context): (r: Progress)
    ensures Left(r) <= Left(s)
    decreases Left(s), 6
  {
    if Peek(s, if Next(s) == Var then 1 else 0) == In then
      var s := Expect(if Next(s) == Var then Identifier(Skip(s), false) else Skip(s), In);
      Block(Expect(Expression(s, false, c), CloseParen), c)
    else
      var s := Expect(ForHead(s, c), Semicolon);
      var s := Expect(if Next(s) == Semicolon then s else Test(s, c), Semicolon);
      if Next(s) == Semicolon then Quit
      else Block(Expect(if Next(s) == CloseParen then s else Expressions(s, c), CloseParen), c)
  }

  function ForHead(s: Progress, c: Context): (r: Progress)
    ensures Left(r) <= Left(s)
    decreases Left(s), 3
  {
    if Next(s) == Semicolon then s
    else if Next(s) == Var then Variables(Skip(s), c) else Expressions(s, c)
  }

  /** The clauses of a switch; g says that one has begun. */
  function Cases(s: Progress, g: bool, c: Context): (r: Progress)
    ensures Left(r) <= Left(s)
    decreases Left(s), 7
  {
    if !s.Going? then s
    else if Next(s) == CloseBrace then Skip(s)
    else if Next(s) == End then Quit
    else Cases(OneClause(s, g, c), g || Next(s) in {Case, Default}, c)
  }

  /** One label of a switch, or the statements after it. */
  function OneClause(s: Progress, g: bool, c: Context): (r: Progress)
    ensures Left(r) <= Left(s) && (Next(s) != End ==> Left(r) < Left(s))
    decreases Left(s), 6
  {
    match Next(s)
    case Case => Expect(Expression(Skip(s), false, c), Colon)
    case Default => Expect(Skip(s), Colon)
    case _ => ClauseBody(s, g, c)
  }

  /** The statements after a label; when there are none and no other clause comes, the parser
      looks for them again and again. */
  function ClauseBody(s: Progress, g: bool, c: Context): (r: Progress)
    ensures Left(r) <= Left(s) && (Next(s) != End ==> Left(r) < Left(s))
    decreases Left(s), 5
  {
    if !g || !s.Going? || s.last != Colon then (if s.Stuck? then s else Quit)
    else
      var r := Statements(s, c);
      if Left(r) == Left(s) then Stuck else r
  }

  // ------------------------------------------------------------ programs

  datatype Piece = Plain(isName: bool) | FunctionLiteral(named: bool, params: nat, body: seq<Stmt>)

  datatype Expr = Last(p: Piece) | More(p: Piece, e: Expr)

  /** Expressions joined by assignment signs. */
  datatype Chain = Single(e: Expr) | Assigned(e: Expr, ch: Chain)

  datatype Chains = OneChain(ch: Chain) | MoreChains(ch: Chain, chs: Chains)

  datatype Decls = OneVar(init: Option<Expr>) | MoreVars(init: Option<Expr>, ds: Decls)

  datatype ForInit = NoInit | VarInit(ds: Decls) | ExprInit(chs: Chains)

  datatype Clause = CaseClause(e: Expr, body: seq<Stmt>) | DefaultClause(body: seq<Stmt>)

  datatype ElsePart = NoElse | ElseBlock(body: seq<Stmt>) | ElseStmt(b: Bare)

  datatype Rescue = CatchOnly(handler: seq<Stmt>) | FinallyOnly(finish: seq<Stmt>)
                  | CatchFinally(handler: seq<Stmt>, finish: seq<Stmt>)

  datatype Stmt = Labelled(b: Bare) | Unmarked(b: Bare)

  datatype Bare =
    | ExprStmt(isName: bool, rest: Option<Expr>, more: Option<Chain>)
    | VarStmt(ds: Decls)
    | IfStmt(cond: Expr, body: seq<Stmt>, els: ElsePart)
    | WhileStmt(cond: Expr, body: seq<Stmt>)
    | DoStmt(body: seq<Stmt>, cond: Expr)
    | ForStmt(init: ForInit, test: Option<Expr>, step: Option<Chains>, body: seq<Stmt>)
    | ForInStmt(declared: bool, object_: Expr, body: seq<Stmt>)
    | SwitchStmt(cond: Expr, clauses: seq<Clause>)
    | BreakStmt(labelled: bool)
    | ContinueStmt(labelled: bool)
    | ReturnStmt(result: Option<Expr>)
    | ThrowStmt(e: Expr)
    | TryStmt(body: seq<Stmt>, rescue: Rescue)
    | FunctionStmt(params: nat, body: seq<Stmt>)

  // ------------------------------------------------------------ programs as tokens

  function PrintPiece(p: Piece): seq<Kind> {
    match p
    case Plain(isName) => [if isName then Name else Operand]
    case FunctionLiteral(named, params, body) =>
      [Function] + ((if named then [Name] else []) + PrintFunction(params, body))
  }

  function PrintParameters(n: nat): seq<Kind> {
    if n == 0 then [CloseParen] else if n == 1 then [Name, CloseParen] else [Name, Comma] + PrintParameters(n - 1)
  }

  function PrintFunction(params: nat, body: seq<Stmt>): seq<Kind>
    decreases body, 2
  {
    [OpenParen] + (PrintParameters(params) + PrintBlock(body))
  }

  function PrintBlock(body: seq<Stmt>): seq<Kind>
    decreases body, 1
  {
    [OpenBrace] + (PrintAll(body) + [CloseBrace])
  }

  function PrintAll(ss: seq<Stmt>): seq<Kind>
    decreases ss, 0
  {
    if ss == [] then [] else Print(ss[0]) + PrintAll(ss[1..])
  }

  function PrintExpr(e: Expr): seq<Kind>
    decreases e, 0
  {
    match e
    case Last(p) => PrintPiece(p)
    case More(p, rest) => PrintPiece(p) + PrintExpr(rest)
  }

  function PrintChain(ch: Chain): seq<Kind> {
    match ch
    case Single(e) => PrintExpr(e)
    case Assigned(e, rest) => PrintExpr(e) + ([Assign] + PrintChain(rest))
  }

  function PrintChains(chs: Chains): seq<Kind> {
    match chs
    case OneChain(ch) => PrintChain(ch)
    case MoreChains(ch, rest) => PrintChain(ch) + ([Comma] + PrintChains(rest))
  }

  function PrintInit(init: Option<Expr>): seq<Kind> {
    match init
    case None => []
    case Some(e) => [Assign] + PrintExpr(e)
  }

  function PrintDecls(ds: Decls): seq<Kind> {
    match ds
    case OneVar(init) => [Name] + PrintInit(init)
    case MoreVars(init, rest) => [Name] + (PrintInit(init) + ([Comma] + PrintDecls(rest)))
  }

  function PrintForInit(init: ForInit): seq<Kind> {
    match init
    case NoInit => []
    case VarInit(ds) => [Var] + PrintDecls(ds)
    case ExprInit(chs) => PrintChains(chs)
  }

  function PrintClauses(cs: seq<Clause>): seq<Kind> {
    if cs == [] then [CloseBrace]
    else
      match cs[0]
      case CaseClause(e, body) => [Case] + (PrintExpr(e) + ([Colon] + (PrintAll(body) + PrintClauses(cs[1..]))))
      case DefaultClause(body) => [Default] + ([Colon] + (PrintAll(body) + PrintClauses(cs[1..])))
  }

  function PrintCondition(e: Expr): seq<Kind>
    decreases e, 1
  {
    [OpenParen] + (PrintExpr(e) + [CloseParen])
  }

  function PrintElse(els: ElsePart): seq<Kind> {
    match els
    case NoElse => []
    case ElseBlock(body) => [Else] + PrintBlock(body)
    case ElseStmt(b) => [Else] + PrintBare(b)
  }

  function PrintRescue(r: Rescue): seq<Kind> {
    match r
    case CatchOnly(h) => [Catch, OpenParen, Name, CloseParen] + PrintBlock(h)
    case FinallyOnly(f) => [Finally] + PrintBlock(f)
    case CatchFinally(h, f) => [Catch, OpenParen, Name, CloseParen] + (PrintBlock(h) + ([Finally] + PrintBlock(f)))
  }

  function Print(s: Stmt): seq<Kind> {
    match s
    case Labelled(b) => [Name, Colon] + PrintBare(b)
    case Unmarked(b) => PrintBare(b)
  }

  function PrintOption(e: Option<Expr>): seq<Kind> {
    match e
    case None => []
    case Some(e) => PrintExpr(e)
  }

  function PrintSteps(chs: Option<Chains>): seq<Kind> {
    match chs
    case None => []
    case Some(chs) => PrintChains(chs)
  }

  function PrintMore(ch: Option<Chain>): seq<Kind> {
    match ch
    case None => []
    case Some(ch) => [Assign] + PrintChain(ch)
  }

  function PrintBare(b: Bare): seq<Kind> {
    match b
    case ExprStmt(isName, rest, more) =>
      [if isName then Name else Operand] + (PrintOption(rest) + (PrintMore(more) + [Semicolon]))
    case VarStmt(ds) => [Var] + (PrintDecls(ds) + [Semicolon])
    case IfStmt(cond, body, els) => [If] + (PrintCondition(cond) + (PrintBlock(body) + PrintElse(els)))
    case WhileStmt(cond, body) => [While] + (PrintCondition(cond) + PrintBlock(body))
    case DoStmt(body, cond) => [Do] + (PrintBlock(body) + ([While] + (PrintCondition(cond) + [Semicolon])))
    case ForStmt(init, test, step, body) =>
      [For, OpenParen] + (PrintForInit(init) + ([Semicolon] + (PrintOption(test) + ([Semicolon]
        + (PrintSteps(step) + ([CloseParen] + PrintBlock(body)))))))
    case ForInStmt(declared, e, body) =>
      [For, OpenParen] + ((if declared then [Var] else []) + ([Name, In]
        + (PrintExpr(e) + ([CloseParen] + PrintBlock(body)))))
    case SwitchStmt(cond, clauses) => [Switch] + (PrintCondition(cond) + ([OpenBrace] + PrintClauses(clauses)))
    case BreakStmt(labelled) => [Break] + ((if labelled then [Name] else []) + [Semicolon])
    case ContinueStmt(labelled) => [Continue] + ((if labelled then [Name] else []) + [Semicolon])
    case ReturnStmt(result) => [Return] + (PrintOption(result) + [Semicolon])
    case ThrowStmt(e) => [Throw] + (PrintExpr(e) + [Semicolon])
    case TryStmt(body, rescue) => [Try] + (PrintBlock(body) + PrintRescue(rescue))
    case FunctionStmt(params, body) => [Function, Name] + PrintFunction(params, body)
  }

  // ------------------------------------------------------------ what ought to be reported

  /** The constructs around a place, the outermost first. */
  datatype Construct = LoopBody | SwitchBody | FunctionBody

  /** Whether a loop (or, unless only loops count, a switch) is around: looking outward from the
      innermost construct, no further than the function. */
  ghost predicate Encloses(path: seq<Construct>, onlyLoops: bool) {
    path != [] &&
    var innermost := path[|path| - 1];
    innermost == LoopBody || (innermost == SwitchBody && !onlyLoops)
      || (innermost != FunctionBody && Encloses(path[..|path| - 1], onlyLoops))
  }

  ghost function ContextOf(path: seq<Construct>): Context {
    Context(Encloses(path, false), Encloses(path, true))
  }

  /** Two readings of the parts of a loop's head that run once, the first part of a `for` and the
      object of a for-in: as inside the loop, as the parser has it, or as the place before it. */
  datatype Heads = InLoop | RunOnce

  function When(c: bool, w: Warning): seq<Warning> { if c then [w] else [] }

  /** The reports for a part of a program at a place, `tail` tokens of the whole coming after it. */
  ghost function ReportPiece(p: Piece, path: seq<Construct>, tail: nat, heads: Heads): seq<Warning> {
    match p
    case Plain(_) => []
    case FunctionLiteral(_, params, body) =>
      ReportFunction(body, path, tail, heads) + When(Encloses(path, true), FunctionInLoop(tail))
  }

  ghost function ReportFunction(body: seq<Stmt>, path: seq<Construct>, tail: nat, heads: Heads): seq<Warning>
    decreases body, 1
  {
    ReportAll(body, path + [FunctionBody], 1 + tail, heads)
  }

  ghost function ReportAll(ss: seq<Stmt>, path: seq<Construct>, tail: nat, heads: Heads): seq<Warning>
    decreases ss, 0
  {
    if ss == [] then []
    else Report(ss[0], path, |PrintAll(ss[1..])| + tail, heads) + ReportAll(ss[1..], path, tail, heads)
  }

  ghost function ReportExpr(e: Expr, path: seq<Construct>, tail: nat, heads: Heads): seq<Warning> {
    match e
    case Last(p) => ReportPiece(p, path, tail, heads)
    case More(p, rest) => ReportPiece(p, path, |PrintExpr(rest)| + tail, heads) + ReportExpr(rest, path, tail, heads)
  }

  ghost function ReportChain(ch: Chain, path: seq<Construct>, tail: nat, heads: Heads): seq<Warning> {
    match ch
    case Single(e) => ReportExpr(e, path, tail, heads)
    case Assigned(e, rest) =>
      ReportExpr(e, path, 1 + |PrintChain(rest)| + tail, heads) + ReportChain(rest, path, tail, heads)
  }

  ghost function ReportChains(chs: Chains, path: seq<Construct>, tail: nat, heads: Heads): seq<Warning> {
    match chs
    case OneChain(ch) => ReportChain(ch, path, tail, heads)
    case MoreChains(ch, rest) =>
      ReportChain(ch, path, 1 + |PrintChains(rest)| + tail, heads) + ReportChains(rest, path, tail, heads)
  }

  ghost function ReportOption(e: Option<Expr>, path: seq<Construct>, tail: nat, heads: Heads): seq<Warning> {
    match e
    case None => []
    case Some(e) => ReportExpr(e, path, tail, heads)
  }

  ghost function ReportMore(ch: Option<Chain>, path: seq<Construct>, tail: nat, heads: Heads): seq<Warning> {
    match ch
    case None => []
    case Some(ch) => ReportChain(ch, path, tail, heads)
  }

  ghost function ReportSteps(chs: Option<Chains>, path: seq<Construct>, tail: nat, heads: Heads): seq<Warning> {
    match chs
    case None => []
    case Some(chs) => ReportChains(chs, path, tail, heads)
  }

  ghost function ReportDecls(ds: Decls, path: seq<Construct>, tail: nat, heads: Heads): seq<Warning> {
    match ds
    case OneVar(init) => ReportOption(init, path, tail, heads)
    case MoreVars(init, rest) =>
      ReportOption(init, path, 1 + |PrintDecls(rest)| + tail, heads) + ReportDecls(rest, path, tail, heads)
  }

  ghost function ReportForInit(init: ForInit, path: seq<Construct>, tail: nat, heads: Heads): seq<Warning> {
    match init
    case NoInit => []
    case VarInit(ds) => ReportDecls(ds, path, tail, heads)
    case ExprInit(chs) => ReportChains(chs, path, tail, heads)
  }

  ghost function ReportClauses(cs: seq<Clause>, path: seq<Construct>, tail: nat, heads: Heads): seq<Warning> {
    if cs == [] then []
    else
      var after := |PrintClauses(cs[1..])| + tail;
      match cs[0]
      case CaseClause(e, body) =>
        ReportExpr(e, path, 1 + |PrintAll(body)| + after, heads)
          + (ReportAll(body, path, after, heads) + ReportClauses(cs[1..], path, tail, heads))
      case DefaultClause(body) => ReportAll(body, path, after, heads) + ReportClauses(cs[1..], path, tail, heads)
  }

  ghost function ReportElse(els: ElsePart, path: seq<Construct>, tail: nat, heads: Heads): seq<Warning> {
    match els
    case NoElse => []
    case ElseBlock(body) => ReportAll(body, path, 1 + tail, heads)
    case ElseStmt(b) =>
      When(!(b.IfStmt? || b.SwitchStmt?), Flaw(|PrintBare(b)| + tail)) + ReportBare(b, path, tail, heads)
  }

  ghost function ReportRescue(r: Rescue, path: seq<Construct>, tail: nat, heads: Heads): seq<Warning> {
    match r
    case CatchOnly(h) => ReportAll(h, path, 1 + tail, heads)
    case FinallyOnly(f) => ReportAll(f, path, 1 + tail, heads)
    case CatchFinally(h, f) =>
      ReportAll(h, path, 2 + |PrintBlock(f)| + tail, heads) + ReportAll(f, path, 1 + tail, heads)
  }

  ghost function Report(s: Stmt, path: seq<Construct>, tail: nat, heads: Heads): seq<Warning> {
    match s
    case Labelled(b) =>
      When(!(b.WhileStmt? || b.DoStmt? || b.ForStmt? || b.ForInStmt? || b.SwitchStmt?), Flaw(|PrintBare(b)| + tail))
        + ReportBare(b, path, tail, heads)
    case Unmarked(b) => ReportBare(b, path, tail, heads)
  }

  /** A break wants a loop or a switch of its own function around it, a continue wants a loop, and
      a function literal wants none. Of a loop's head, the parts that run once are read by `heads`. */
  ghost function ReportBare(b: Bare, path: seq<Construct>, tail: nat, heads: Heads): seq<Warning> {
    match b
    case ExprStmt(_, rest, more) =>
      ReportOption(rest, path, |PrintMore(more)| + 1 + tail, heads) + ReportMore(more, path, 1 + tail, heads)
    case VarStmt(ds) => ReportDecls(ds, path, 1 + tail, heads)
    case IfStmt(cond, body, els) =>
      ReportExpr(cond, path, 1 + |PrintBlock(body)| + |PrintElse(els)| + tail, heads)
        + (ReportAll(body, path, 1 + |PrintElse(els)| + tail, heads) + ReportElse(els, path, tail, heads))
    case WhileStmt(cond, body) =>
      var inner := path + [LoopBody];
      ReportExpr(cond, inner, 1 + |PrintBlock(body)| + tail, heads) + ReportAll(body, inner, 1 + tail, heads)
    case DoStmt(body, cond) =>
      var inner := path + [LoopBody];
      ReportAll(body, inner, 3 + |PrintCondition(cond)| + tail, heads) + ReportExpr(cond, inner, 2 + tail, heads)
    case ForStmt(init, test, step, body) =>
      var inner := path + [LoopBody];
      var tail3 := 1 + |PrintBlock(body)| + tail;
      var tail2 := 1 + |PrintSteps(step)| + tail3;
      var tail1 := 1 + |PrintOption(test)| + tail2;
      ReportForInit(init, if heads.InLoop? then inner else path, tail1, heads)
        + (ReportOption(test, inner, tail2, heads)
        + (ReportSteps(step, inner, tail3, heads) + ReportAll(body, inner, 1 + tail, heads)))
    case ForInStmt(_, e, body) =>
      var inner := path + [LoopBody];
      ReportExpr(e, if heads.InLoop? then inner else path, 1 + |PrintBlock(body)| + tail, heads)
        + ReportAll(body, inner, 1 + tail, heads)
    case SwitchStmt(cond, clauses) =>
      var inner := path + [SwitchBody];
      ReportExpr(cond, inner, 2 + |PrintClauses(clauses)| + tail, heads) + ReportClauses(clauses, inner, tail, heads)
    case BreakStmt(labelled) =>
      When(!Encloses(path, false), Unexpected((if labelled then 2 else 1) + tail))
    case ContinueStmt(labelled) =>
      When(!Encloses(path, false), Unexpected((if labelled then 2 else 1) + tail))
        + When(!labelled && !Encloses(path, true), Unexpected(1 + tail))
    case ReturnStmt(result) => ReportOption(result, path, 1 + tail, heads)
    case ThrowStmt(e) => ReportExpr(e, path, 1 + tail, heads)
    case TryStmt(body, rescue) =>
      ReportAll(body, path, 1 + |PrintRescue(rescue)| + tail, heads) + ReportRescue(rescue, path, tail, heads)
    case FunctionStmt(_, body) => ReportFunction(body, path, tail, heads)
  }

  // ------------------------------------------------------------ reading a program back

  /** Tokens that a look ahead must find on the same line. */
  predicate MustFollow(a: Kind, b: Kind) {
    b == Colon || b == In || (b == Name && a in {Var, Break, Continue})
  }

  ghost predicate IsNeat(ts: seq<Token>) {
    forall i: nat {:trigger IsNeatAt(ts, i)} :: 0 < i < |ts| ==> IsNeatAt(ts, i)
  }

  predicate IsNeatAt(ts: seq<Token>, i: nat)
    requires 0 < i < |ts|
  {
    MustFollow(ts[i - 1].kind, ts[i].kind) ==> !ts[i].leads && ts[i].ends == 0
  }

  /** The tokens to come begin with ks. */
  ghost predicate Reads(s: Progress, ks: seq<Kind>) {
    s.Going? && |ks| <= |s.ts| && IsNeat(s.ts) && forall i: nat :: i < |ks| ==> s.ts[i].kind == ks[i]
  }

  ghost function Passed(s: Progress, ks: seq<Kind>, ws: seq<Warning>): Progress {
    if s.Going? && |ks| <= |s.ts| then
      Going(s.ts[|ks|..], if ks == [] then s.last else ks[|ks| - 1], s.ws + ws)
    else Quit
  }

  /** The kind of token after ks. */
  ghost function After(s: Progress, ks: seq<Kind>): Kind { Next(Passed(s, ks, [])) }

  ghost function Tail(s: Progress, ks: seq<Kind>): nat { if |ks| <= Left(s) then Left(s) - |ks| else 0 }

  lemma PassedFacts(s: Progress, ks: seq<Kind>, ws: seq<Warning>)
    requires Reads(s, ks)
    ensures s.Going?
    ensures Passed(s, ks, ws).Going? && Left(Passed(s, ks, ws)) == Tail(s, ks) == Left(s) - |ks|
    ensures Next(Passed(s, ks, ws)) == After(s, ks)
    ensures ks != [] ==> Next(s) == ks[0]
  {
  }

  /** Every program, laid out with its labels and `in`s on the line they belong to, is read to the
      end, and the warnings are exactly those it deserves. */
  lemma {:induction false} ProgramRead(ts: seq<Token>, ss: seq<Stmt>)
    requires |ts| == |PrintAll(ss)| && IsNeat(ts) && forall i :: 0 <= i < |ts| ==> ts[i].kind == PrintAll(ss)[i]
    ensures var r := Statements(Going(ts, End, []), OUTSIDE);
            r.Going? && r.ts == [] && r.ws == ReportAll(ss, [], 0, InLoop)
  {
    var s := Going(ts, End, []);
    assert ContextOf([]) == OUTSIDE;
    assert Reads(s, PrintAll(ss)) && After(s, PrintAll(ss)) == End && Tail(s, PrintAll(ss)) == 0;
    hide PrintAll, ReportAll, Statements, Reads, Encloses;
    AllRead(s, ss, []);
  }

  lemma {:induction false} BareRead(s: Progress, b: Bare, path: seq<Construct>)
    requires Reads(s, PrintBare(b)) && MayFollow(After(s, PrintBare(b)))
    ensures Unlabelled(s, ContextOf(path))
            == Passed(s, PrintBare(b), ReportBare(b, path, Tail(s, PrintBare(b)), InLoop))
    decreases Left(s), 2
  {
    hide Reads, Passed, After, Tail, Next, Skip, Expect, Left, ContextOf, PrintBare, ReportBare, Unlabelled;
    match b
    case ExprStmt(isName, rest, more) => ExprStmtRead(s, isName, rest, more, path);
    case VarStmt(_) => VarRead(s, b, path);
    case IfStmt(_, _, _) => IfRead(s, b, path);
    case WhileStmt(_, _) => WhileRead(s, b, path);
    case DoStmt(_, _) => DoRead(s, b, path);
    case ForStmt(_, _, _, _) => ForRead(s, b, path);
    case ForInStmt(_, _, _) => ForInRead(s, b, path);
    case SwitchStmt(_, _) => SwitchRead(s, b, path);
    case BreakStmt(_) => JumpRead(s, b, path);
    case ContinueStmt(_) => JumpRead(s, b, path);
    case ReturnStmt(_) => ReturnRead(s, b, path);
    case ThrowStmt(_) => ThrowRead(s, b, path);
    case TryStmt(_, _) => TryRead(s, b, path);
    case FunctionStmt(_, _) => FunctionStmtRead(s, b, path);
  }

  lemma Split(s: Progress, a: seq<Kind>, b: seq<Kind>, ws: seq<Warning>)
    requires Reads(s, a + b)
    ensures s.Going?
    ensures Reads(s, a) && Reads(Passed(s, a, ws), b)
    ensures After(Passed(s, a, ws), b) == After(s, a + b)
    ensures Tail(Passed(s, a, ws), b) == Tail(s, a + b)
    ensures After(s, a) == if b == [] then After(s, a + b) else b[0]
    ensures Passed(s, a, ws).Going? && Left(Passed(s, a, ws)) == Left(s) - |a| == Tail(s, a) == |b| + Tail(s, a + b)
    ensures Next(Passed(s, a, ws)) == After(s, a)
    ensures a != [] ==> Next(s) == a[0]
  {
    var ts := s.ts[|a|..];
    forall i: nat | i < |a| ensures s.ts[i].kind == a[i] { assert (a + b)[i] == a[i]; }
    forall i: nat | i < |b| ensures ts[i].kind == b[i] { assert (a + b)[|a| + i] == b[i]; }
    forall i: nat | 0 < i < |ts| ensures IsNeatAt(ts, i) { assert IsNeatAt(s.ts, |a| + i); }
    assert ts[|b|..] == s.ts[|a + b|..];
  }

  lemma Join(s: Progress, a: seq<Kind>, b: seq<Kind>, v: seq<Warning>, w: seq<Warning>)
    requires Reads(s, a + b)
    ensures Passed(Passed(s, a, v), b, w) == Passed(s, a + b, v + w)
  {
    assert s.ts[|a|..][|b|..] == s.ts[|a + b|..];
    assert s.ws + v + w == s.ws + (v + w);
  }

  /** A token that is as expected. */
  lemma Token1(s: Progress, k: Kind, b: seq<Kind>)
    requires Reads(s, [k] + b) && k != End
    ensures s.Going?
    ensures Next(s) == k
    ensures Skip(s) == Expect(s, k) == Passed(s, [k], [])
    ensures Reads(Passed(s, [k], []), b) && Passed(s, [k], []).Going?
    ensures Left(Passed(s, [k], [])) == Left(s) - 1 == |b| + Tail(s, [k] + b)
    ensures After(Passed(s, [k], []), b) == After(s, [k] + b) && Tail(Passed(s, [k], []), b) == Tail(s, [k] + b)
    ensures After(s, [k]) == if b == [] then After(s, [k] + b) else b[0]
    ensures forall w {:trigger Passed(s, [k] + b, w)} ::
              Passed(Passed(s, [k], []), b, w) == Passed(s, [k] + b, w)
  {
    Split(s, [k], b, []);
    assert s.ts[0].kind == ([k] + b)[0] == k;
    assert s.ws + [] == s.ws;
    forall w: seq<Warning> ensures Passed(Passed(s, [k], []), b, w) == Passed(s, [k] + b, w) {
      Join(s, [k], b, [], w);
      assert [] + w == w;
    }
  }

  /** A token that is as expected, after something else. */
  lemma TokenAfter(s: Progress, a: seq<Kind>, w: seq<Warning>, k: Kind)
    requires Reads(s, a + [k]) && k != End
    ensures Reads(s, a) && After(s, a) == k && Next(Passed(s, a, w)) == k
    ensures Skip(Passed(s, a, w)) == Expect(Passed(s, a, w), k) == Passed(s, a + [k], w)
    ensures Tail(s, a) == 1 + Tail(s, a + [k])
  {
    Split(s, a, [k], w);
    assert [k] + [] == [k];
    Token1(Passed(s, a, w), k, []);
    Join(s, a, [k], w, []);
    assert w + [] == w;
  }

  lemma NoteAfter(s: Progress, ks: seq<Kind>, v: seq<Warning>, c: bool, w: Warning)
    requires Reads(s, ks)
    ensures NoteIf(Passed(s, ks, v), c, w) == Passed(s, ks, v + When(c, w))
  {
    assert v + [] == v && s.ws + v + [w] == s.ws + (v + [w]);
  }

  lemma NoteBefore(s: Progress, c: bool, w: Warning, ks: seq<Kind>, v: seq<Warning>)
    requires Reads(s, ks)
    ensures Reads(NoteIf(s, c, w), ks) && After(NoteIf(s, c, w), ks) == After(s, ks)
    ensures Tail(NoteIf(s, c, w), ks) == Tail(s, ks)
    ensures Passed(NoteIf(s, c, w), ks, v) == Passed(s, ks, When(c, w) + v)
  {
    assert [] + v == v && s.ws + [w] + v == s.ws + ([w] + v);
  }

  lemma PeekIs(s: Progress, ks: seq<Kind>)
    requires Reads(s, ks) && ks != []
    ensures Peek(s, 0) == End || Peek(s, 0) == (if |ks| > 1 then ks[1] else After(s, ks))
    ensures |ks| > 1 && MustFollow(ks[0], ks[1]) ==> Peek(s, 0) == ks[1]
    ensures |ks| > 2 ==> Peek(s, 1) == End || Peek(s, 1) == ks[1] || Peek(s, 1) == ks[2]
    ensures |ks| > 2 && MustFollow(ks[0], ks[1]) && MustFollow(ks[1], ks[2]) ==> Peek(s, 1) == ks[2]
  {
    if |ks| > 1 { assert IsNeatAt(s.ts, 1) && s.ts[1].kind == ks[1] && s.ts[0].kind == ks[0]; }
    if |ks| > 2 {
      assert IsNeatAt(s.ts, 2) && s.ts[2].kind == ks[2];
      AheadTwo(s.ts[1..]);
    }
  }

  lemma AheadTwo(ts: seq<Token>)
    requires |ts| >= 2
    ensures Ahead(ts, 1) == if ts[0].ends == 0 then (if ts[1].ends == 0 then ts[1].kind else End)
                            else if ts[0].ends == 1 then ts[0].kind else End
  {
    assert ts[1..][0] == ts[1];
  }

  lemma EnterConstruct(path: seq<Construct>)
    ensures ContextOf(path + [LoopBody]) == Context(true, true)
    ensures ContextOf(path + [SwitchBody]) == ContextOf(path).(breakable := true)
    ensures ContextOf(path + [FunctionBody]) == OUTSIDE
  {
    assert forall c :: (path + [c])[..|path|] == path;
  }

  // ------------------------------------------------------------ expressions

  lemma PieceStarts(p: Piece)
    ensures PrintPiece(p) != [] && IsPiece(PrintPiece(p)[0])
    ensures |PrintPiece(p)| > 1 ==> PrintPiece(p)[1] in {Name, OpenParen}
  {
  }

  lemma ExprStarts(e: Expr)
    ensures PrintExpr(e) != [] && IsPiece(PrintExpr(e)[0])
    ensures |PrintExpr(e)| > 1 ==> PrintExpr(e)[1] in {Name, OpenParen, Operand, Function}
  {
    PieceStarts(e.p);
    if e.More? {
      PieceStarts(if e.e.Last? then e.e.p else e.e.p);
    }
  }

  lemma {:induction false} PieceRead(s: Progress, p: Piece, path: seq<Construct>)
    requires Reads(s, PrintPiece(p))
    ensures OnePiece(s, ContextOf(path))
            == Passed(s, PrintPiece(p), ReportPiece(p, path, Tail(s, PrintPiece(p)), InLoop))
    decreases Left(s), 0
  {
    hide Reads, Passed, After, Tail, Next, Skip, Expect, Left, Encloses, ReportFunction, PrintFunction,
         FunctionRest;
    match p
    case Plain(isName) =>
      var k := if isName then Name else Operand;
      assert [k] + [] == [k];
      Token1(s, k, []);
    case FunctionLiteral(named, params, body) =>
      var name: seq<Kind> := if named then [Name] else [];
      var rest := PrintFunction(params, body);
      FunctionStarts(params, body);
      Token1(s, Function, name + rest);
      var s1 := Passed(s, [Function], []);
      Split(s1, name, rest, []);
      var s2 := Passed(s1, name, []);
      if named {
        Token1(s1, Name, rest);
      } else {
        PassedNone(s1);
      }
      FunctionRead(s2, params, body, path);
      var r := ReportFunction(body, path, Tail(s2, rest), InLoop);
      Join(s1, name, rest, [], r);
      assert [] + r == r;
      NoteAfter(s, PrintPiece(p), r, ContextOf(path).looping, FunctionInLoop(Tail(s, PrintPiece(p))));
      PassedFacts(s, PrintPiece(p), r);
  }

  lemma PassedNone(s: Progress)
    requires s.Going?
    ensures Passed(s, [], []) == s
  {
    assert s.ws + [] == s.ws;
  }

  lemma FunctionStarts(params: nat, body: seq<Stmt>)
    ensures PrintFunction(params, body) != [] && PrintFunction(params, body)[0] == OpenParen
  {
  }

  lemma {:induction false} ExprRead(s: Progress, e: Expr, low: bool, path: seq<Construct>)
    requires Reads(s, PrintExpr(e)) && !IsPiece(After(s, PrintExpr(e)))
    ensures var r := Passed(s, PrintExpr(e), ReportExpr(e, path, Tail(s, PrintExpr(e)), InLoop));
            Expression(s, low, ContextOf(path))
            == if low && After(s, PrintExpr(e)) == Assign then Expression(Skip(r), low, ContextOf(path)) else r
    decreases Left(s), 1
  {
    hide Reads, Passed, After, Tail, Next, Skip, Expect, Left, ContextOf, OnePiece, PrintPiece, ReportPiece;
    match e
    case Last(p) =>
      PieceRead(s, p, path);
      PassedFacts(s, PrintPiece(p), ReportPiece(p, path, Tail(s, PrintPiece(p)), InLoop));
    case More(p, rest) =>
      var a, b := PrintPiece(p), PrintExpr(rest);
      var w := ReportPiece(p, path, Tail(s, a), InLoop);
      Split(s, a, b, w);
      PieceRead(s, p, path);
      ExprStarts(rest);
      var s1 := Passed(s, a, w);
      ExprRead(s1, rest, low, path);
      Join(s, a, b, w, ReportExpr(rest, path, Tail(s1, b), InLoop));
  }

  // ------------------------------------------------------------ functions, blocks and lists

  lemma {:induction false} ParametersRead(s: Progress, n: nat)
    requires n > 0 && Reads(s, PrintParameters(n))
    ensures Parameters(s) == Passed(s, PrintParameters(n), [])
    decreases n
  {
    hide Reads, Passed, After, Tail, Next, Skip, Expect, Left;
    var rest := if n == 1 then [CloseParen] else [Comma] + PrintParameters(n - 1);
    assert PrintParameters(n) == [Name] + rest;
    Token1(s, Name, rest);
    var s1 := Passed(s, [Name], []);
    if n == 1 {
      assert [CloseParen] + [] == [CloseParen];
      Token1(s1, CloseParen, []);
    } else {
      Token1(s1, Comma, PrintParameters(n - 1));
      ParametersRead(Passed(s1, [Comma], []), n - 1);
    }
  }

  lemma {:induction false} ParameterListRead(s: Progress, n: nat)
    requires Reads(s, PrintParameters(n))
    ensures (if Next(s) == CloseParen then Skip(s) else Parameters(s)) == Passed(s, PrintParameters(n), [])
  {
    hide Reads, Passed, After, Tail, Next, Skip, Expect, Left, Parameters;
    if n == 0 {
      assert [CloseParen] + [] == [CloseParen];
      Token1(s, CloseParen, []);
    } else {
      PassedFacts(s, PrintParameters(n), []);
      ParametersRead(s, n);
    }
  }

  lemma FunctionIs(s: Progress)
    ensures var s1 := Expect(s, OpenParen);
            FunctionRest(s) == Block(if Next(s1) == CloseParen then Skip(s1) else Parameters(s1), OUTSIDE)
  {
    hide Block, Expect, Skip, Parameters;
  }

  lemma BlockStarts(body: seq<Stmt>)
    ensures PrintBlock(body) != [] && PrintBlock(body)[0] == OpenBrace
  {
  }

  lemma {:induction false} FunctionRead(s: Progress, params: nat, body: seq<Stmt>, path: seq<Construct>)
    requires Reads(s, PrintFunction(params, body))
    ensures FunctionRest(s)
            == Passed(s, PrintFunction(params, body),
                      ReportFunction(body, path, Tail(s, PrintFunction(params, body)), InLoop))
    decreases Left(s), 0
  {
    hide Reads, Passed, After, Tail, Next, Skip, Expect, Left, Parameters, FunctionRest, PrintParameters, PrintBlock,
         Block, ContextOf, ReportAll;
    var ps, bl := PrintParameters(params), PrintBlock(body);
    FunctionIs(s);
    Token1(s, OpenParen, ps + bl);
    var s1 := Passed(s, [OpenParen], []);
    Split(s1, ps, bl, []);
    var s2 := Passed(s1, ps, []);
    ParameterListRead(s1, params);
    BlockRead(s2, body, path + [FunctionBody]);
    EnterConstruct(path);
    var r := ReportAll(body, path + [FunctionBody], 1 + Tail(s2, bl), InLoop);
    Join(s1, ps, bl, [], r);
    assert [] + r == r;
  }

  lemma {:induction false} BlockRead(s: Progress, body: seq<Stmt>, path: seq<Construct>)
    requires Reads(s, PrintBlock(body))
    ensures Block(s, ContextOf(path))
            == Passed(s, PrintBlock(body), ReportAll(body, path, 1 + Tail(s, PrintBlock(body)), InLoop))
    decreases Left(s), 0
  {
    hide Reads, Passed, After, Tail, Next, Skip, Expect, Left, PrintAll, Statements, ContextOf, ReportAll;
    Token1(s, OpenBrace, PrintAll(body) + [CloseBrace]);
    var s1 := Passed(s, [OpenBrace], []);
    var r := ReportAll(body, path, Tail(s1, PrintAll(body)), InLoop);
    TokenAfter(s1, PrintAll(body), r, CloseBrace);
    AllRead(s1, body, path);
  }

  predicate StartsStatement(k: Kind) { HasStatement(k) || k == Operand || k == Name }

  /** What may come after a statement. */
  predicate MayFollow(k: Kind) { StartsStatement(k) || k in {End, CloseBrace, Case, Default} }

  lemma BareStarts(b: Bare)
    ensures PrintBare(b) != [] && PrintBare(b)[0] == FirstKind(b) && StartsStatement(FirstKind(b))
  {
  }

  function FirstKind(b: Bare): Kind {
    match b
    case ExprStmt(isName, _, _) => if isName then Name else Operand
    case VarStmt(_) => Var
    case IfStmt(_, _, _) => If
    case WhileStmt(_, _) => While
    case DoStmt(_, _) => Do
    case ForStmt(_, _, _, _) => For
    case ForInStmt(_, _, _) => For
    case SwitchStmt(_, _) => Switch
    case BreakStmt(_) => Break
    case ContinueStmt(_) => Continue
    case ReturnStmt(_) => Return
    case ThrowStmt(_) => Throw
    case TryStmt(_, _) => Try
    case FunctionStmt(_, _) => Function
  }

  lemma StmtStarts(st: Stmt)
    ensures Print(st) != [] && StartsStatement(Print(st)[0])
  {
    BareStarts(st.b);
  }

  lemma AllStarts(ss: seq<Stmt>)
    ensures ss != [] ==> PrintAll(ss) != [] && StartsStatement(PrintAll(ss)[0])
  {
    if ss != [] { StmtStarts(ss[0]); }
  }

  lemma {:induction false} AllRead(s: Progress, ss: seq<Stmt>, path: seq<Construct>)
    requires Reads(s, PrintAll(ss)) && After(s, PrintAll(ss)) in {End, CloseBrace, Case, Default}
    ensures Statements(s, ContextOf(path))
            == Passed(s, PrintAll(ss), ReportAll(ss, path, Tail(s, PrintAll(ss)), InLoop))
    decreases Left(s), 5
  {
    hide Reads, Passed, After, Tail, Next, Skip, Expect, Left, Print, Statement, Statements, StartsStatement,
         ContextOf, Report;
    if ss == [] {
      AtNone(s);
      StatementsEnd(s, ContextOf(path));
    } else {
      var a, b := Print(ss[0]), PrintAll(ss[1..]);
      StmtStarts(ss[0]);
      AllStarts(ss[1..]);
      var w := Report(ss[0], path, |b| + Tail(s, a + b), InLoop);
      Split(s, a, b, w);
      StatementsStep(s, ContextOf(path));
      StmtRead(s, ss[0], path);
      var s1 := Passed(s, a, w);
      AllRead(s1, ss[1..], path);
      Join(s, a, b, w, ReportAll(ss[1..], path, Tail(s1, b), InLoop));
    }
  }

  lemma StatementsStep(s: Progress, c: Context)
    requires s.Going? && StartsStatement(Next(s))
    ensures Statements(s, c) == Statements(Statement(s, c), c)
  {
    hide Statement;
  }

  lemma StatementsEnd(s: Progress, c: Context)
    requires IsReach(Next(s))
    ensures Statements(s, c) == s
  {
  }

  lemma AtNone(s: Progress)
    requires Reads(s, [])
    ensures Passed(s, [], []) == s && Next(s) == After(s, []) && s.Going?
  {
    PassedNone(s);
  }

  lemma {:induction false} StmtRead(s: Progress, st: Stmt, path: seq<Construct>)
    requires Reads(s, Print(st)) && MayFollow(After(s, Print(st)))
    ensures Statement(s, ContextOf(path)) == Passed(s, Print(st), Report(st, path, Tail(s, Print(st)), InLoop))
    decreases Left(s), 4
  {
    match st
    case Unmarked(b) => UnmarkedRead(s, b, path);
    case Labelled(b) => LabelledRead(s, b, path);
  }

  lemma LabelWanted(b: Bare)
    ensures MayBeLabelled(FirstKind(b))
            <==> b.WhileStmt? || b.DoStmt? || b.ForStmt? || b.ForInStmt? || b.SwitchStmt?
  {
  }

  lemma {:induction false} LabelledRead(s: Progress, b: Bare, path: seq<Construct>)
    requires Reads(s, Print(Labelled(b))) && MayFollow(After(s, Print(Labelled(b))))
    ensures Statement(s, ContextOf(path))
            == Passed(s, Print(Labelled(b)), Report(Labelled(b), path, Tail(s, Print(Labelled(b))), InLoop))
    decreases Left(s), 3
  {
    hide Reads, Passed, After, Tail, Next, Skip, Expect, Left, NoteIf, Peek, PrintBare, Statement, Unlabelled,
         ContextOf, ReportBare, StartsStatement, HasStatement, MayFollow, MayBeLabelled, FirstKind;
    BareStarts(b);
    var a := PrintBare(b);
    assert [Name, Colon] + a == [Name] + ([Colon] + a);
    PeekIs(s, [Name, Colon] + a);
    Token1(s, Name, [Colon] + a);
    var s1 := Passed(s, [Name], []);
    Token1(s1, Colon, a);
    var s2 := Passed(s1, [Colon], []);
    PassedFacts(s2, a, []);
    var c, w := !MayBeLabelled(FirstKind(b)), Flaw(|a| + Tail(s, [Name, Colon] + a));
    LabelWanted(b);
    StartsWithLabel(s, ContextOf(path));
    NoteBefore(s2, c, w, a, ReportBare(b, path, Tail(s2, a), InLoop));
    BareRead(NoteIf(s2, c, w), b, path);
  }

  lemma StartsWithLabel(s: Progress, c: Context)
    requires s.Going? && Next(s) == Name && Peek(s, 0) == Colon
    ensures var s2 := Skip(Skip(s));
            Statement(s, c) == Unlabelled(NoteIf(s2, !MayBeLabelled(Next(s2)), Flaw(Left(s2))), c)
  {
  }

  /** The token after the name that begins an expression statement is no colon. */
  lemma SecondOfExpression(b: Bare)
    ensures FirstKind(b) == Name ==> |PrintBare(b)| > 1 && PrintBare(b)[1] != Colon
  {
    if b.ExprStmt? {
      if b.rest.Some? { ExprStarts(b.rest.value); }
    }
  }

  // ------------------------------------------------------------ longer expressions

  lemma ChainStarts(ch: Chain)
    ensures PrintChain(ch) != [] && IsPiece(PrintChain(ch)[0])
    ensures |PrintChain(ch)| > 1 ==> PrintChain(ch)[1] !in {Colon, In}
  {
    ExprStarts(ch.e);
  }

  lemma {:induction false} ChainRead(s: Progress, ch: Chain, path: seq<Construct>)
    requires Reads(s, PrintChain(ch))
    requires !IsPiece(After(s, PrintChain(ch))) && After(s, PrintChain(ch)) != Assign
    ensures Expression(s, true, ContextOf(path))
            == Passed(s, PrintChain(ch), ReportChain(ch, path, Tail(s, PrintChain(ch)), InLoop))
    decreases Left(s), 2
  {
    hide Reads, Passed, After, Tail, Next, Skip, Expect, Left, ContextOf, Expression, PrintExpr, ReportExpr;
    match ch
    case Single(e) =>
      ExprRead(s, e, true, path);
    case Assigned(e, rest) =>
      var a, b := PrintExpr(e), PrintChain(rest);
      var w := ReportExpr(e, path, 1 + |b| + Tail(s, PrintChain(ch)), InLoop);
      Split(s, a, [Assign] + b, w);
      ExprRead(s, e, true, path);
      var s1 := Passed(s, a, w);
      Token1(s1, Assign, b);
      var s2 := Passed(s1, [Assign], []);
      ChainRead(s2, rest, path);
      Join(s, a, [Assign] + b, w, ReportChain(rest, path, Tail(s2, b), InLoop));
  }

  lemma ChainsStart(chs: Chains)
    ensures PrintChains(chs) != [] && IsPiece(PrintChains(chs)[0])
    ensures |PrintChains(chs)| > 1 ==> PrintChains(chs)[1] !in {Colon, In}
  {
    ChainStarts(chs.ch);
  }

  lemma ExpressionsIs(s: Progress, c: Context)
    ensures var s1 := Expression(s, true, c);
            Expressions(s, c) == if Next(s1) == Comma then Expressions(Skip(s1), c) else s1
  {
    hide Expression, Skip;
  }

  lemma {:induction false} ChainsRead(s: Progress, chs: Chains, path: seq<Construct>)
    requires Reads(s, PrintChains(chs))
    requires !IsPiece(After(s, PrintChains(chs))) && After(s, PrintChains(chs)) !in {Assign, Comma}
    ensures Expressions(s, ContextOf(path))
            == Passed(s, PrintChains(chs), ReportChains(chs, path, Tail(s, PrintChains(chs)), InLoop))
    decreases Left(s), 3
  {
    hide Reads, Passed, After, Tail, Next, Skip, Expect, Left, ContextOf, Expression, Expressions, PrintChain,
         ReportChain;
    ExpressionsIs(s, ContextOf(path));
    match chs
    case OneChain(ch) =>
      ChainRead(s, ch, path);
      PassedFacts(s, PrintChain(ch), ReportChain(ch, path, Tail(s, PrintChain(ch)), InLoop));
    case MoreChains(ch, rest) =>
      var a, b := PrintChain(ch), PrintChains(rest);
      var w := ReportChain(ch, path, 1 + |b| + Tail(s, PrintChains(chs)), InLoop);
      Split(s, a, [Comma] + b, w);
      ChainRead(s, ch, path);
      var s1 := Passed(s, a, w);
      Token1(s1, Comma, b);
      var s2 := Passed(s1, [Comma], []);
      ChainsRead(s2, rest, path);
      Join(s, a, [Comma] + b, w, ReportChains(rest, path, Tail(s2, b), InLoop));
  }

  lemma {:induction false} InitRead(s: Progress, init: Option<Expr>, path: seq<Construct>)
    requires Reads(s, PrintInit(init))
    requires !IsPiece(After(s, PrintInit(init))) && After(s, PrintInit(init)) != Assign
    ensures Initial(s, ContextOf(path))
            == Passed(s, PrintInit(init), ReportOption(init, path, Tail(s, PrintInit(init)), InLoop))
    decreases Left(s), 0
  {
    hide Reads, Passed, After, Tail, Next, Skip, Expect, Left, ContextOf, Expression, PrintExpr, ReportExpr,
         Peek, IsPunctuation;
    match init
    case None => AtNone(s);
    case Some(e) =>
      Token1(s, Assign, PrintExpr(e));
      var s1 := Passed(s, [Assign], []);
      ExprStarts(e);
      PeekIs(s1, PrintExpr(e));
      ExprRead(s1, e, true, path);
  }

  lemma {:induction false} DeclsRead(s: Progress, ds: Decls, path: seq<Construct>)
    requires Reads(s, PrintDecls(ds))
    requires !IsPiece(After(s, PrintDecls(ds))) && After(s, PrintDecls(ds)) !in {Assign, Comma}
    ensures Variables(s, ContextOf(path))
            == Passed(s, PrintDecls(ds), ReportDecls(ds, path, Tail(s, PrintDecls(ds)), InLoop))
    decreases Left(s), 1
  {
    hide Reads, Passed, After, Tail, Next, Skip, Expect, Left, ContextOf, PrintInit, ReportOption, Initial,
         Identifier, Variables;
    VariablesIs(s, ContextOf(path));
    match ds
    case OneVar(init) =>
      var a := PrintInit(init);
      Token1(s, Name, a);
      IdentifierRead(s, false);
      var s1 := Passed(s, [Name], []);
      InitRead(s1, init, path);
      PassedFacts(s1, a, ReportOption(init, path, Tail(s1, a), InLoop));
    case MoreVars(init, rest) =>
      MoreDeclsRead(s, init, rest, path);
  }

  lemma VariablesIs(s: Progress, c: Context)
    ensures var s1 := Initial(Identifier(s, false), c);
            Variables(s, c) == if Next(s1) == Comma then Variables(Skip(s1), c) else s1
  {
    hide Initial, Identifier, Skip;
  }

  lemma {:induction false} MoreDeclsRead(s: Progress, init: Option<Expr>, rest: Decls, path: seq<Construct>)
    requires Reads(s, PrintDecls(MoreVars(init, rest)))
    requires var ks := PrintDecls(MoreVars(init, rest)); !IsPiece(After(s, ks)) && After(s, ks) !in {Assign, Comma}
    ensures var ds := MoreVars(init, rest);
            Variables(s, ContextOf(path))
            == Passed(s, PrintDecls(ds), ReportDecls(ds, path, Tail(s, PrintDecls(ds)), InLoop))
    decreases Left(s), 0
  {
    hide Reads, Passed, After, Tail, Next, Skip, Expect, Left, ContextOf, PrintInit, ReportOption, Initial,
         Identifier, Variables;
    VariablesIs(s, ContextOf(path));
    var ds := MoreVars(init, rest);
    var a, b := PrintInit(init), PrintDecls(rest);
    Token1(s, Name, a + ([Comma] + b));
    IdentifierRead(s, false);
    var s1 := Passed(s, [Name], []);
    var w := ReportOption(init, path, 1 + |b| + Tail(s, PrintDecls(ds)), InLoop);
    Split(s1, a, [Comma] + b, w);
    InitRead(s1, init, path);
    var s2 := Passed(s1, a, w);
    Token1(s2, Comma, b);
    var s3 := Passed(s2, [Comma], []);
    DeclsRead(s3, rest, path);
    Join(s1, a, [Comma] + b, w, ReportDecls(rest, path, Tail(s3, b), InLoop));
  }

  lemma {:induction false} ConditionRead(s: Progress, e: Expr, path: seq<Construct>)
    requires Reads(s, PrintCondition(e))
    ensures Condition(s, ContextOf(path))
            == Passed(s, PrintCondition(e), ReportExpr(e, path, 1 + Tail(s, PrintCondition(e)), InLoop))
    decreases Left(s), 0
  {
    hide Reads, Passed, After, Tail, Next, Skip, Expect, Left, ContextOf, Expression, PrintExpr, ReportExpr;
    Token1(s, OpenParen, PrintExpr(e) + [CloseParen]);
    var s1 := Passed(s, [OpenParen], []);
    var w := ReportExpr(e, path, Tail(s1, PrintExpr(e)), InLoop);
    TokenAfter(s1, PrintExpr(e), w, CloseParen);
    ExprRead(s1, e, false, path);
  }

  // ------------------------------------------------------------ statements of each kind

  lemma {:induction false} OptionRead(s: Progress, e: Option<Expr>, path: seq<Construct>)
    requires Reads(s, PrintOption(e)) && !IsPiece(After(s, PrintOption(e)))
    ensures e.Some? ==> IsPiece(Next(s))
    ensures (if e.Some? then Expression(s, false, ContextOf(path)) else s)
            == Passed(s, PrintOption(e), ReportOption(e, path, Tail(s, PrintOption(e)), InLoop))
    decreases Left(s), 2
  {
    hide Reads, Passed, After, Tail, Next, Skip, Expect, Left, ContextOf, Expression, PrintExpr, ReportExpr;
    match e
    case None => AtNone(s);
    case Some(e1) =>
      ExprStarts(e1);
      PassedFacts(s, PrintExpr(e1), []);
      ExprRead(s, e1, false, path);
  }

  lemma {:induction false} MoreRead(s: Progress, more: Option<Chain>, path: seq<Construct>)
    requires Reads(s, PrintMore(more))
    requires !IsPiece(After(s, PrintMore(more))) && After(s, PrintMore(more)) != Assign
    ensures Next(s) == (if more.Some? then Assign else After(s, PrintMore(more)))
    ensures (if Next(s) == Assign then Expression(Skip(s), true, ContextOf(path)) else s)
            == Passed(s, PrintMore(more), ReportMore(more, path, Tail(s, PrintMore(more)), InLoop))
    decreases Left(s), 0
  {
    hide Reads, Passed, After, Tail, Next, Skip, Expect, Left, ContextOf, Expression, PrintChain, ReportChain;
    match more
    case None => AtNone(s);
    case Some(ch) =>
      Token1(s, Assign, PrintChain(ch));
      ChainRead(Passed(s, [Assign], []), ch, path);
  }

  /** What follows the first name or operand of an expression statement. */
  lemma {:induction false} RestRead(s: Progress, rest: Option<Expr>, more: Option<Chain>, path: seq<Construct>)
    requires var ks := PrintOption(rest) + PrintMore(more);
             Reads(s, ks) && !IsPiece(After(s, ks)) && After(s, ks) != Assign
    ensures var ks := PrintOption(rest) + PrintMore(more);
            var r := ReportOption(rest, path, |PrintMore(more)| + Tail(s, ks), InLoop)
                     + ReportMore(more, path, Tail(s, ks), InLoop);
            (if IsPiece(Next(s)) then Expression(s, true, ContextOf(path))
             else if Next(s) == Assign then Expression(Skip(s), true, ContextOf(path)) else s)
            == Passed(s, ks, r)
    decreases Left(s), 5
  {
    hide Reads, Passed, After, Tail, Next, Skip, Expect, Left, ContextOf, Expression, PrintExpr, PrintMore,
         ReportExpr, ReportMore;
    var a, b := PrintOption(rest), PrintMore(more);
    var w := ReportOption(rest, path, |b| + Tail(s, a + b), InLoop);
    Split(s, a, b, w);
    var s1 := Passed(s, a, w);
    MoreRead(s1, more, path);
    Join(s, a, b, w, ReportMore(more, path, Tail(s1, b), InLoop));
    match rest
    case None =>
      PassedNone(s);
    case Some(e) =>
      ExprStarts(e);
      ExprRead(s, e, true, path);
  }

  lemma {:induction false} ExprStmtRead(s: Progress, isName: bool, rest: Option<Expr>, more: Option<Chain>,
                                        path: seq<Construct>)
    requires Reads(s, PrintBare(ExprStmt(isName, rest, more)))
    ensures var b := ExprStmt(isName, rest, more);
            Unlabelled(s, ContextOf(path))
            == Passed(s, PrintBare(b), ReportBare(b, path, Tail(s, PrintBare(b)), InLoop))
    decreases Left(s), 1
  {
    hide Reads, Passed, After, Tail, Next, Skip, Expect, Left, ContextOf, PrintOption, PrintMore, Unlabelled,
         Expression, Finish, ReportOption, ReportMore;
    var k := if isName then Name else Operand;
    var ks := PrintOption(rest) + PrintMore(more);
    assert PrintBare(ExprStmt(isName, rest, more)) == [k] + (ks + [Semicolon]);
    Token1(s, k, ks + [Semicolon]);
    var s1 := Passed(s, [k], []);
    var tail := 1 + Tail(s, [k] + (ks + [Semicolon]));
    var w := ReportOption(rest, path, |PrintMore(more)| + tail, InLoop) + ReportMore(more, path, tail, InLoop);
    TokenAfter(s1, ks, w, Semicolon);
    RestRead(s1, rest, more, path);
    StartsWithPiece(s, ContextOf(path));
    SemicolonFinishes(Passed(s1, ks, w));
    assert w == ReportBare(ExprStmt(isName, rest, more), path, Tail(s, [k] + (ks + [Semicolon])), InLoop);
  }

  lemma StartsWithPiece(s: Progress, c: Context)
    requires s.Going? && (Next(s) == Name || Next(s) == Operand)
    ensures var s1 := Skip(s);
            Unlabelled(s, c) == Finish(if IsPiece(Next(s1)) then Expression(s1, true, c)
                                       else if Next(s1) == Assign then Expression(Skip(s1), true, c) else s1)
  {
    hide Skip, Finish;
    assert OnePiece(s, c) == Skip(s);
  }

  lemma SemicolonFinishes(s: Progress)
    requires Next(s) == Semicolon
    ensures Finish(s) == Skip(s)
  {
  }

  lemma {:induction false} ElseRead(s: Progress, els: ElsePart, path: seq<Construct>)
    requires Reads(s, PrintElse(els)) && MayFollow(After(s, PrintElse(els)))
    ensures Otherwise(s, ContextOf(path))
            == Passed(s, PrintElse(els), ReportElse(els, path, Tail(s, PrintElse(els)), InLoop))
    decreases Left(s), 1
  {
    hide Reads, Passed, After, Tail, Skip, Expect, Left, ContextOf, PrintBare, PrintBlock, ReportBare,
         ReportAll, Statement, Peek;
    match els
    case NoElse => AtNone(s);
    case ElseBlock(body) =>
      Token1(s, Else, PrintBlock(body));
      BlockStarts(body);
      var s1 := Passed(s, [Else], []);
      PassedFacts(s1, PrintBlock(body), []);
      BlockRead(s1, body, path);
    case ElseStmt(b) =>
      ElseStmtRead(s, b, path);
  }

  lemma {:induction false} ElseStmtRead(s: Progress, b: Bare, path: seq<Construct>)
    requires Reads(s, [Else] + PrintBare(b)) && MayFollow(After(s, [Else] + PrintBare(b)))
    ensures Next(s) == Else
    ensures var ks := [Else] + PrintBare(b);
            Otherwise(s, ContextOf(path)) == Passed(s, ks, ReportElse(ElseStmt(b), path, Tail(s, ks), InLoop))
    decreases Left(s), 0
  {
    hide Reads, Passed, After, Tail, Next, Skip, Expect, Left, ContextOf, PrintBare, ReportBare, Statement,
         MayFollow, StartsStatement, Peek;
    var a := PrintBare(b);
    Token1(s, Else, a);
    BareStarts(b);
    var s1 := Passed(s, [Else], []);
    PassedFacts(s1, a, []);
    var c, w := !(b.IfStmt? || b.SwitchStmt?), Flaw(|a| + Tail(s, [Else] + a));
    NoteBefore(s1, c, w, a, ReportBare(b, path, Tail(s1, a), InLoop));
    UnmarkedRead(NoteIf(s1, c, w), b, path);
  }

  lemma {:induction false} UnmarkedRead(s: Progress, b: Bare, path: seq<Construct>)
    requires Reads(s, PrintBare(b)) && MayFollow(After(s, PrintBare(b)))
    ensures Statement(s, ContextOf(path)) == Passed(s, PrintBare(b), ReportBare(b, path, Tail(s, PrintBare(b)), InLoop))
    decreases Left(s), 3
  {
    hide Reads, Passed, After, Tail, Next, Skip, Expect, Left, PrintBare, Unlabelled, ContextOf, ReportBare,
         Peek;
    BareStarts(b);
    PassedFacts(s, PrintBare(b), []);
    PeekIs(s, PrintBare(b));
    SecondOfExpression(b);
    BareRead(s, b, path);
  }

  lemma Regroup(b: seq<Kind>)
    ensures [Catch, OpenParen, Name, CloseParen] + b == [Catch] + ([OpenParen] + ([Name] + ([CloseParen] + b)))
  {
  }

  lemma {:induction false} CatchRead(s: Progress, h: seq<Stmt>, path: seq<Construct>)
    requires Reads(s, [Catch, OpenParen, Name, CloseParen] + PrintBlock(h))
    ensures Next(s) == Catch
    ensures var ks := [Catch, OpenParen, Name, CloseParen] + PrintBlock(h);
            Block(Expect(CatchName(Expect(Skip(s), OpenParen)), CloseParen), ContextOf(path))
            == Passed(s, ks, ReportAll(h, path, 1 + Tail(s, ks), InLoop))
    decreases Left(s), 0
  {
    hide Reads, Passed, After, Tail, Next, Skip, Expect, Left, ContextOf, PrintBlock, ReportAll, Block;
    var b := PrintBlock(h);
    Regroup(b);
    Token1(s, Catch, [OpenParen] + ([Name] + ([CloseParen] + b)));
    var s1 := Passed(s, [Catch], []);
    Token1(s1, OpenParen, [Name] + ([CloseParen] + b));
    var s2 := Passed(s1, [OpenParen], []);
    Token1(s2, Name, [CloseParen] + b);
    var s3 := Passed(s2, [Name], []);
    Token1(s3, CloseParen, b);
    BlockRead(Passed(s3, [CloseParen], []), h, path);
  }

  lemma {:induction false} RescueRead(s: Progress, r: Rescue, path: seq<Construct>)
    requires Reads(s, PrintRescue(r)) && MayFollow(After(s, PrintRescue(r)))
    ensures Rescued(s, ContextOf(path))
            == Passed(s, PrintRescue(r), ReportRescue(r, path, Tail(s, PrintRescue(r)), InLoop))
    decreases Left(s), 2
  {
    hide Reads, Passed, After, Tail, Next, Skip, Expect, Left, ContextOf, PrintBlock, ReportAll, Block;
    match r
    case CatchOnly(h) =>
      CatchRead(s, h, path);
      PassedFacts(s, PrintRescue(r), ReportRescue(r, path, Tail(s, PrintRescue(r)), InLoop));
    case FinallyOnly(f) =>
      Token1(s, Finally, PrintBlock(f));
      BlockRead(Passed(s, [Finally], []), f, path);
      PassedFacts(s, PrintRescue(r), []);
    case CatchFinally(h, f) => CatchFinallyRead(s, h, f, path);
  }

  lemma {:induction false} CatchFinallyRead(s: Progress, h: seq<Stmt>, f: seq<Stmt>, path: seq<Construct>)
    requires Reads(s, PrintRescue(CatchFinally(h, f)))
    ensures var r := CatchFinally(h, f);
            Rescued(s, ContextOf(path))
            == Passed(s, PrintRescue(r), ReportRescue(r, path, Tail(s, PrintRescue(r)), InLoop))
    decreases Left(s), 1
  {
    hide Reads, Passed, After, Tail, Next, Skip, Expect, Left, ContextOf, PrintBlock, ReportAll, Block, Rescued,
         CatchName;
    var a, b := [Catch, OpenParen, Name, CloseParen] + PrintBlock(h), [Finally] + PrintBlock(f);
    assert PrintRescue(CatchFinally(h, f)) == a + b;
    BlockLength(f);
    var w := ReportAll(h, path, 1 + |b| + Tail(s, a + b), InLoop);
    Split(s, a, b, w);
    CatchRead(s, h, path);
    CaughtIs(s, ContextOf(path));
    var s1 := Passed(s, a, w);
    Token1(s1, Finally, PrintBlock(f));
    var s2 := Passed(s1, [Finally], []);
    BlockRead(s2, f, path);
    Join(s, a, b, w, ReportAll(f, path, 1 + Tail(s2, PrintBlock(f)), InLoop));
  }

  lemma CaughtIs(s: Progress, c: Context)
    ensures var t := Block(Expect(CatchName(Expect(Skip(s), OpenParen)), CloseParen), c);
            s.Going? && Next(s) == Catch ==> Rescued(s, c) == if Next(t) == Finally then Block(Skip(t), c) else t
  {
    hide Block, Expect, CatchName, Skip;
  }

  lemma BlockLength(body: seq<Stmt>)
    ensures |PrintBlock(body)| == 2 + |PrintAll(body)|
  {
  }

  lemma Keywords()
    ensures forall k :: k in {Function, If, While, For, Switch, Try} ==> HasStatement(k) && IsBlockStatement(k)
    ensures forall k :: k in {Do, Var, Break, Continue, Return, Throw} ==> HasStatement(k) && !IsBlockStatement(k)
  {
  }

  /** A statement that begins with a keyword. */
  lemma KeywordRead(s: Progress, k: Kind, b: seq<Kind>, c: Context)
    requires Reads(s, [k] + b) && HasStatement(k)
    ensures var s1 := Passed(s, [k], []);
            Unlabelled(s, c) == if IsBlockStatement(k) then Keyword(s1, k, c) else Finish(Keyword(s1, k, c))
  {
    hide Keyword, Finish, Reads, Passed, After, Tail;
    Token1(s, k, b);
  }

  /** The head of a `for`, up to its first semicolon. */
  lemma {:induction false} ForHeadRead(s: Progress, init: ForInit, path: seq<Construct>)
    requires Reads(s, PrintForInit(init)) && After(s, PrintForInit(init)) == Semicolon
    ensures ForHead(s, ContextOf(path))
            == Passed(s, PrintForInit(init), ReportForInit(init, path, Tail(s, PrintForInit(init)), InLoop))
    decreases Left(s), 4
  {
    hide Reads, Passed, After, Tail, Next, Skip, Expect, Left, ContextOf, PrintDecls, PrintChains,
         ReportDecls, ReportChains;
    match init
    case NoInit => AtNone(s);
    case VarInit(ds) =>
      Token1(s, Var, PrintDecls(ds));
      DeclsRead(Passed(s, [Var], []), ds, path);
    case ExprInit(chs) =>
      ChainsStart(chs);
      PassedFacts(s, PrintChains(chs), []);
      ChainsRead(s, chs, path);
  }

  lemma DeclsStart(ds: Decls)
    ensures PrintDecls(ds) != [] && PrintDecls(ds)[0] == Name
    ensures |PrintDecls(ds)| > 1 ==> PrintDecls(ds)[1] in {Assign, Comma}
  {
  }

  /** No `in` stands where a for-in statement has it. */
  lemma NoIn(s: Progress, init: ForInit, rest: seq<Kind>)
    requires Reads(s, PrintForInit(init) + ([Semicolon] + rest)) && rest != [] && rest[0] != In
    ensures Peek(s, if Next(s) == Var then 1 else 0) != In
  {
    hide Reads, Passed, After, Tail, Next, Skip, Expect, Left, PrintDecls, PrintChains, Peek;
    var ks := PrintForInit(init) + ([Semicolon] + rest);
    PassedFacts(s, ks, []);
    PeekIs(s, ks);
    match init
    case NoInit =>
      assert ks[0] == Semicolon && ks[1] == rest[0];
    case VarInit(ds) =>
      DeclsStart(ds);
      var d := PrintDecls(ds);
      assert ks[0] == Var && ks[1] == Name;
      assert ks[2] == if |d| > 1 then d[1] else Semicolon;
    case ExprInit(chs) =>
      ChainsStart(chs);
      var d := PrintChains(chs);
      assert ks[0] == d[0] && ks[1] == if |d| > 1 then d[1] else Semicolon;
  }

  lemma {:induction false} TestRead(s: Progress, test: Option<Expr>, path: seq<Construct>)
    requires Reads(s, PrintOption(test)) && After(s, PrintOption(test)) == Semicolon
    ensures (if Next(s) == Semicolon then s else Test(s, ContextOf(path)))
            == Passed(s, PrintOption(test), ReportOption(test, path, Tail(s, PrintOption(test)), InLoop))
    decreases Left(s), 3
  {
    hide Reads, Passed, After, Tail, Next, Skip, Expect, Left, ContextOf, Expression, PrintExpr, ReportExpr;
    OptionRead(s, test, path);
    PassedFacts(s, PrintOption(test), ReportOption(test, path, Tail(s, PrintOption(test)), InLoop));
  }

  lemma {:induction false} StepsRead(s: Progress, step: Option<Chains>, path: seq<Construct>)
    requires Reads(s, PrintSteps(step)) && After(s, PrintSteps(step)) == CloseParen
    ensures Next(s) != Semicolon
    ensures (if Next(s) == CloseParen then s else Expressions(s, ContextOf(path)))
            == Passed(s, PrintSteps(step), ReportSteps(step, path, Tail(s, PrintSteps(step)), InLoop))
    decreases Left(s), 4
  {
    hide Reads, Passed, After, Tail, Next, Skip, Expect, Left, ContextOf, Expressions, PrintChains,
         ReportChains;
    match step
    case None => AtNone(s);
    case Some(chs) =>
      ChainsStart(chs);
      PassedFacts(s, PrintChains(chs), []);
      ChainsRead(s, chs, path);
  }

  /** From the second semicolon of a `for` on. */
  lemma {:induction false} ForEndRead(s: Progress, step: Option<Chains>, body: seq<Stmt>, path: seq<Construct>)
    requires Reads(s, PrintSteps(step) + ([CloseParen] + PrintBlock(body)))
    ensures Next(s) != Semicolon
    ensures var c := ContextOf(path);
            var ks := PrintSteps(step) + ([CloseParen] + PrintBlock(body));
            Block(Expect(if Next(s) == CloseParen then s else Expressions(s, c), CloseParen), c)
            == Passed(s, ks, ReportSteps(step, path, 1 + |PrintBlock(body)| + Tail(s, ks), InLoop)
                             + ReportAll(body, path, 1 + Tail(s, ks), InLoop))
    decreases Left(s), 5
  {
    hide Reads, Passed, After, Tail, Next, Skip, Expect, Left, ContextOf, Expressions, Block, PrintSteps,
         PrintBlock, ReportSteps, ReportAll;
    var a, b := PrintSteps(step), PrintBlock(body);
    var w := ReportSteps(step, path, 1 + |b| + Tail(s, a + ([CloseParen] + b)), InLoop);
    Split(s, a, [CloseParen] + b, w);
    StepsRead(s, step, path);
    var s1 := Passed(s, a, w);
    Token1(s1, CloseParen, b);
    var s2 := Passed(s1, [CloseParen], []);
    BlockRead(s2, body, path);
    Join(s, a, [CloseParen] + b, w, ReportAll(body, path, 1 + Tail(s2, b), InLoop));
  }

  lemma {:induction false} ForTestRead(s: Progress, test: Option<Expr>, rest: seq<Kind>, path: seq<Construct>,
                                       w: seq<Warning>)
    requires Reads(s, PrintOption(test) + ([Semicolon] + rest))
    ensures var a := PrintOption(test);
            var s1 := Expect(if Next(s) == Semicolon then s else Test(s, ContextOf(path)), Semicolon);
            && Reads(s1, rest) && Tail(s1, rest) == Tail(s, a + ([Semicolon] + rest))
            && Passed(s1, rest, w)
               == Passed(s, a + ([Semicolon] + rest),
                         ReportOption(test, path, 1 + |rest| + Tail(s, a + ([Semicolon] + rest)), InLoop) + w)
    decreases Left(s), 5
  {
    hide Reads, Passed, After, Tail, Next, Skip, Expect, Left, ContextOf, Test, PrintOption, ReportOption;
    var a := PrintOption(test);
    var v := ReportOption(test, path, 1 + |rest| + Tail(s, a + ([Semicolon] + rest)), InLoop);
    Split(s, a, [Semicolon] + rest, v);
    TestRead(s, test, path);
    var s1 := Passed(s, a, v);
    Token1(s1, Semicolon, rest);
    Join(s, a, [Semicolon] + rest, v, w);
  }

  lemma {:induction false} ForInitRead(s: Progress, init: ForInit, rest: seq<Kind>, path: seq<Construct>,
                                       w: seq<Warning>)
    requires Reads(s, PrintForInit(init) + ([Semicolon] + rest))
    ensures var a, s1 := PrintForInit(init), Expect(ForHead(s, ContextOf(path)), Semicolon);
            && Reads(s1, rest) && Tail(s1, rest) == Tail(s, a + ([Semicolon] + rest))
            && Passed(s1, rest, w)
               == Passed(s, a + ([Semicolon] + rest),
                         ReportForInit(init, path, 1 + |rest| + Tail(s, a + ([Semicolon] + rest)), InLoop) + w)
    decreases Left(s), 5
  {
    hide Reads, Passed, After, Tail, Next, Skip, Expect, Left, ContextOf, ForHead, PrintForInit,
         ReportForInit;
    var a := PrintForInit(init);
    var v := ReportForInit(init, path, 1 + |rest| + Tail(s, a + ([Semicolon] + rest)), InLoop);
    Split(s, a, [Semicolon] + rest, v);
    ForHeadRead(s, init, path);
    var s1 := Passed(s, a, v);
    Token1(s1, Semicolon, rest);
    Join(s, a, [Semicolon] + rest, v, w);
  }

  lemma {:induction false} ForRead(s: Progress, b: Bare, path: seq<Construct>)
    requires b.ForStmt? && Reads(s, PrintBare(b))
    ensures Unlabelled(s, ContextOf(path))
            == Passed(s, PrintBare(b), ReportBare(b, path, Tail(s, PrintBare(b)), InLoop))
    decreases Left(s), 1
  {
    Keywords();
    hide Unlabelled, MayFollow, ForRest, HasStatement, IsBlockStatement;
    hide Reads, Passed, After, Tail, Next, Skip, Expect, Left, Encloses,
         PrintForInit, PrintOption, PrintSteps, PrintBlock, ReportForInit, ReportOption, ReportSteps, ReportAll;
    var k2 := PrintForRest(b);
    assert PrintBare(b) == [For] + ([OpenParen] + k2);
    KeywordRead(s, For, [OpenParen] + k2, ContextOf(path));
    Token1(s, For, [OpenParen] + k2);
    var s1 := Passed(s, [For], []);
    Token1(s1, OpenParen, k2);
    EnterConstruct(path);
    ForRestRead(Passed(s1, [OpenParen], []), b, path);
  }

  function PrintForRest(b: Bare): seq<Kind>
    requires b.ForStmt?
  {
    PrintForInit(b.init) + ([Semicolon] + (PrintOption(b.test) + ([Semicolon]
      + (PrintSteps(b.step) + ([CloseParen] + PrintBlock(b.body))))))
  }

  lemma {:induction false} ForRestRead(s: Progress, b: Bare, path: seq<Construct>)
    requires b.ForStmt? && Reads(s, PrintForRest(b))
    ensures ForRest(s, ContextOf(path + [LoopBody]))
            == Passed(s, PrintForRest(b), ReportBare(b, path, Tail(s, PrintForRest(b)), InLoop))
    decreases Left(s), 6
  {
    hide Reads, Passed, After, Tail, Next, Skip, Expect, Left, ContextOf, Expressions, Block, ForHead, Test, Peek,
         ForRest, PrintForInit, PrintOption, PrintSteps, PrintBlock, ReportBare, ReportForInit, ReportOption,
         ReportSteps, ReportAll;
    var ForStmt(init, test, step, body) := b;
    var inner := path + [LoopBody];
    ForPartsAre(s, ContextOf(inner));
    ForReport(b, path, Tail(s, PrintForRest(b)));
    var k4 := PrintSteps(step) + ([CloseParen] + PrintBlock(body));
    var k3 := PrintOption(test) + ([Semicolon] + k4);
    OptionStarts(test, [Semicolon] + k4);
    NoIn(s, init, k3);
    var tail := Tail(s, PrintForRest(b));
    var w4 := ReportSteps(step, inner, 1 + |PrintBlock(body)| + tail, InLoop)
              + ReportAll(body, inner, 1 + tail, InLoop);
    var w3 := ReportOption(test, inner, 1 + |k4| + tail, InLoop) + w4;
    ForInitRead(s, init, k3, inner, w3);
    var s3 := Expect(ForHead(s, ContextOf(inner)), Semicolon);
    ForTestRead(s3, test, k4, inner, w4);
    var s4 := Expect(if Next(s3) == Semicolon then s3 else Test(s3, ContextOf(inner)), Semicolon);
    ForEndRead(s4, step, body, inner);
  }

  lemma ForPartsAre(s: Progress, c: Context)
    ensures var s3 := Expect(ForHead(s, c), Semicolon);
            var s4 := Expect(if Next(s3) == Semicolon then s3 else Test(s3, c), Semicolon);
            Peek(s, if Next(s) == Var then 1 else 0) != In ==>
              ForRest(s, c)
              == if Next(s4) == Semicolon then Quit
                 else Block(Expect(if Next(s4) == CloseParen then s4 else Expressions(s4, c), CloseParen), c)
  {
  }

  lemma ForReport(b: Bare, path: seq<Construct>, tail: nat)
    requires b.ForStmt?
    ensures var inner := path + [LoopBody];
            var k5 := [CloseParen] + PrintBlock(b.body);
            var k4 := PrintSteps(b.step) + k5;
            ReportBare(b, path, tail, InLoop)
            == ReportForInit(b.init, inner, 1 + (|PrintOption(b.test)| + (1 + |k4|)) + tail, InLoop)
               + (ReportOption(b.test, inner, 1 + |k4| + tail, InLoop)
               + (ReportSteps(b.step, inner, 1 + |PrintBlock(b.body)| + tail, InLoop)
               + ReportAll(b.body, inner, 1 + tail, InLoop)))
  {
    hide PrintOption, PrintSteps, PrintBlock, ReportForInit, ReportOption, ReportSteps, ReportAll;
  }

  lemma OptionStarts(e: Option<Expr>, rest: seq<Kind>)
    requires rest != [] && rest[0] == Semicolon
    ensures PrintOption(e) + rest != [] && (PrintOption(e) + rest)[0] != In
  {
    if e.Some? { ExprStarts(e.value); }
  }

  lemma {:induction false} ForInRead(s: Progress, b: Bare, path: seq<Construct>)
    requires b.ForInStmt? && Reads(s, PrintBare(b))
    ensures Unlabelled(s, ContextOf(path))
            == Passed(s, PrintBare(b), ReportBare(b, path, Tail(s, PrintBare(b)), InLoop))
    decreases Left(s), 1
  {
    Keywords();
    hide Unlabelled, MayFollow, ForRest, HasStatement, IsBlockStatement;
    hide Reads, Passed, After, Tail, Next, Skip, Expect, Left, Encloses, PrintExpr, PrintBlock, ReportExpr,
         ReportAll;
    var k2 := PrintForInRest(b);
    assert PrintBare(b) == [For] + ([OpenParen] + k2);
    KeywordRead(s, For, [OpenParen] + k2, ContextOf(path));
    Token1(s, For, [OpenParen] + k2);
    var s1 := Passed(s, [For], []);
    Token1(s1, OpenParen, k2);
    EnterConstruct(path);
    ForInRestRead(Passed(s1, [OpenParen], []), b, path);
  }

  function PrintForInRest(b: Bare): seq<Kind>
    requires b.ForInStmt?
  {
    var k3 := [Name] + ([In] + (PrintExpr(b.object_) + ([CloseParen] + PrintBlock(b.body))));
    if b.declared then [Var] + k3 else k3
  }

  lemma {:induction false} ForInRestRead(s: Progress, b: Bare, path: seq<Construct>)
    requires b.ForInStmt? && Reads(s, PrintForInRest(b))
    ensures ForRest(s, ContextOf(path + [LoopBody]))
            == Passed(s, PrintForInRest(b), ReportBare(b, path, Tail(s, PrintForInRest(b)), InLoop))
    decreases Left(s), 7
  {
    hide Reads, Passed, After, Tail, Next, Skip, Expect, Left, ContextOf, Expression, Block, Peek,
         ForRest, Identifier, PrintExpr, PrintBlock, ReportBare, ReportExpr, ReportAll;
    var ForInStmt(declared, e, body) := b;
    ForInReport(b, path, Tail(s, PrintForInRest(b)));
    ForInIs(s, ContextOf(path + [LoopBody]));
    var k3 := [Name] + ([In] + (PrintExpr(e) + ([CloseParen] + PrintBlock(body))));
    PeekIs(s, PrintForInRest(b));
    if declared {
      Token1(s, Var, k3);
      ForInNameRead(Passed(s, [Var], []), e, body, path + [LoopBody]);
    } else {
      PassedFacts(s, k3, []);
      ForInNameRead(s, e, body, path + [LoopBody]);
    }
  }

  lemma ForInReport(b: Bare, path: seq<Construct>, tail: nat)
    requires b.ForInStmt?
    ensures ReportBare(b, path, tail, InLoop)
            == ReportExpr(b.object_, path + [LoopBody], 1 + |PrintBlock(b.body)| + tail, InLoop)
               + ReportAll(b.body, path + [LoopBody], 1 + tail, InLoop)
  {
    hide PrintBlock, ReportExpr, ReportAll;
  }

  lemma {:induction false} ForInNameRead(s: Progress, e: Expr, body: seq<Stmt>, path: seq<Construct>)
    requires Reads(s, [Name] + ([In] + (PrintExpr(e) + ([CloseParen] + PrintBlock(body)))))
    ensures Identifier(s, false) == Skip(s)
    ensures var c := ContextOf(path);
            var ks := [Name] + ([In] + (PrintExpr(e) + ([CloseParen] + PrintBlock(body))));
            Block(Expect(Expression(Expect(Skip(s), In), false, c), CloseParen), c)
            == Passed(s, ks, ReportExpr(e, path, 1 + |PrintBlock(body)| + Tail(s, ks), InLoop)
                             + ReportAll(body, path, 1 + Tail(s, ks), InLoop))
    decreases Left(s), 6
  {
    hide Reads, Passed, After, Tail, Next, Skip, Expect, Left, ContextOf, Expression, Block, Identifier,
         PrintExpr, PrintBlock, ReportExpr, ReportAll;
    var k4 := PrintExpr(e) + ([CloseParen] + PrintBlock(body));
    Token1(s, Name, [In] + k4);
    IdentifierRead(s, false);
    var s4 := Passed(s, [Name], []);
    Token1(s4, In, k4);
    ForInEndRead(Passed(s4, [In], []), e, body, path);
  }

  lemma ForInIs(s: Progress, c: Context)
    ensures var s3 := Expect(if Next(s) == Var then Identifier(Skip(s), false) else Skip(s), In);
            Peek(s, if Next(s) == Var then 1 else 0) == In ==>
              ForRest(s, c) == Block(Expect(Expression(s3, false, c), CloseParen), c)
  {
  }

  lemma {:induction false} ForInEndRead(s: Progress, e: Expr, body: seq<Stmt>, path: seq<Construct>)
    requires Reads(s, PrintExpr(e) + ([CloseParen] + PrintBlock(body)))
    ensures var c := ContextOf(path);
            var ks := PrintExpr(e) + ([CloseParen] + PrintBlock(body));
            Block(Expect(Expression(s, false, c), CloseParen), c)
            == Passed(s, ks, ReportExpr(e, path, 1 + |PrintBlock(body)| + Tail(s, ks), InLoop)
                             + ReportAll(body, path, 1 + Tail(s, ks), InLoop))
    decreases Left(s), 5
  {
    hide Reads, Passed, After, Tail, Next, Skip, Expect, Left, ContextOf, Expression, Block, PrintExpr,
         PrintBlock, ReportExpr, ReportAll;
    var a, b := PrintExpr(e), PrintBlock(body);
    var w := ReportExpr(e, path, 1 + |b| + Tail(s, a + ([CloseParen] + b)), InLoop);
    Split(s, a, [CloseParen] + b, w);
    ExprRead(s, e, false, path);
    var s1 := Passed(s, a, w);
    Token1(s1, CloseParen, b);
    var s2 := Passed(s1, [CloseParen], []);
    BlockRead(s2, body, path);
    Join(s, a, [CloseParen] + b, w, ReportAll(body, path, 1 + Tail(s2, b), InLoop));
  }

  lemma ClausesStart(cs: seq<Clause>)
    ensures PrintClauses(cs) != [] && PrintClauses(cs)[0] in {CloseBrace, Case, Default}
  {
  }

  /** The clauses of a switch, each body read as a list of statements. */
  lemma {:induction false} CasesRead(s: Progress, g: bool, cs: seq<Clause>, path: seq<Construct>)
    requires Reads(s, PrintClauses(cs))
    ensures Cases(s, g, ContextOf(path))
            == Passed(s, PrintClauses(cs), ReportClauses(cs, path, Tail(s, PrintClauses(cs)), InLoop))
    decreases Left(s), 5
  {
    if cs == [] {
      hide Reads, Passed, After, Tail, Next, Skip, Expect, Left;
      assert [CloseBrace] + [] == [CloseBrace];
      Token1(s, CloseBrace, []);
    } else {
      match cs[0]
      case CaseClause(e, body) => CaseRead(s, g, cs, path);
      case DefaultClause(body) => DefaultRead(s, g, cs, path);
    }
  }

  lemma {:induction false} CaseRead(s: Progress, g: bool, cs: seq<Clause>, path: seq<Construct>)
    requires cs != [] && cs[0].CaseClause? && Reads(s, PrintClauses(cs))
    ensures Cases(s, g, ContextOf(path))
            == Passed(s, PrintClauses(cs), ReportClauses(cs, path, Tail(s, PrintClauses(cs)), InLoop))
    decreases Left(s), 4
  {
    hide Reads, Passed, After, Tail, Next, Skip, Expect, Left, ContextOf, Expression, PrintExpr, ReportExpr,
         PrintAll, ReportAll, Cases, IsPiece;
    CaseFirst(s, g, ContextOf(path));
    var CaseClause(e, body) := cs[0];
    var rest := cs[1..];
    var b := PrintAll(body) + PrintClauses(rest);
    var a := PrintExpr(e);
    Token1(s, Case, a + ([Colon] + b));
    var s1 := Passed(s, [Case], []);
    var w := ReportExpr(e, path, 1 + |b| + Tail(s, PrintClauses(cs)), InLoop);
    Split(s1, a, [Colon] + b, w);
    assert !IsPiece(Colon) by { NoPiece(); }
    ExprRead(s1, e, false, path);
    var s2 := Passed(s1, a, w);
    Token1(s2, Colon, b);
    var s3 := Passed(s2, [Colon], []);
    LastPassed(s2, [Colon]);
    ClauseBodyRead(s3, body, rest, path);
    Join(s1, a, [Colon] + b, w,
         ReportAll(body, path, |PrintClauses(rest)| + Tail(s3, b), InLoop)
           + ReportClauses(rest, path, Tail(s3, b), InLoop));
  }

  lemma CaseFirst(s: Progress, g: bool, c: Context)
    ensures s.Going? && Next(s) == Case ==>
              Cases(s, g, c) == Cases(Expect(Expression(Skip(s), false, c), Colon), true, c)
  {
    hide Expect, Expression, Skip;
    if s.Going? && Next(s) == Case {
      assert OneClause(s, g, c) == Expect(Expression(Skip(s), false, c), Colon);
    }
  }

  lemma DefaultFirst(s: Progress, g: bool, c: Context)
    ensures s.Going? && Next(s) == Default ==> Cases(s, g, c) == Cases(Expect(Skip(s), Colon), true, c)
  {
    hide Expect, Skip;
    if s.Going? && Next(s) == Default {
      assert OneClause(s, g, c) == Expect(Skip(s), Colon);
    }
  }

  lemma BodyFirst(s: Progress, c: Context)
    requires s.Going? && s.last == Colon && StartsStatement(Next(s))
    ensures Cases(s, true, c) == Cases(Statements(s, c), true, c)
  {
    hide Statement, Statements;
    StatementsStep(s, c);
    assert Left(Statement(s, c)) < Left(s);
    assert ClauseBody(s, true, c) == Statements(s, c);
    assert OneClause(s, true, c) == Statements(s, c);
  }

  lemma NoPiece()
    ensures !IsPiece(Colon)
  {
  }

  lemma {:induction false} DefaultRead(s: Progress, g: bool, cs: seq<Clause>, path: seq<Construct>)
    requires cs != [] && cs[0].DefaultClause? && Reads(s, PrintClauses(cs))
    ensures Cases(s, g, ContextOf(path))
            == Passed(s, PrintClauses(cs), ReportClauses(cs, path, Tail(s, PrintClauses(cs)), InLoop))
    decreases Left(s), 4
  {
    hide Reads, Passed, After, Tail, Next, Skip, Expect, Left, ContextOf, PrintAll, ReportAll, Cases;
    DefaultFirst(s, g, ContextOf(path));
    var DefaultClause(body) := cs[0];
    var b := PrintAll(body) + PrintClauses(cs[1..]);
    Token1(s, Default, [Colon] + b);
    var s1 := Passed(s, [Default], []);
    Token1(s1, Colon, b);
    LastPassed(s1, [Colon]);
    ClauseBodyRead(Passed(s1, [Colon], []), body, cs[1..], path);
  }

  lemma LastPassed(s: Progress, ks: seq<Kind>)
    requires Reads(s, ks) && ks != []
    ensures Passed(s, ks, []).last == ks[|ks| - 1]
  {
  }

  lemma {:induction false} ClauseBodyRead(s: Progress, body: seq<Stmt>, cs: seq<Clause>, path: seq<Construct>)
    requires Reads(s, PrintAll(body) + PrintClauses(cs)) && s.last == Colon
    ensures var ks := PrintAll(body) + PrintClauses(cs);
            Cases(s, true, ContextOf(path))
            == Passed(s, ks,
                      ReportAll(body, path, |PrintClauses(cs)| + Tail(s, ks), InLoop)
                      + ReportClauses(cs, path, Tail(s, ks), InLoop))
    decreases Left(s), 6
  {
    hide Reads, Passed, After, Tail, Next, Skip, Expect, Left, ContextOf, Expression, PrintExpr, ReportExpr,
         Statements, Cases, StartsStatement, PrintClauses, ReportClauses;
    var a, b := PrintAll(body), PrintClauses(cs);
    var w := ReportAll(body, path, |b| + Tail(s, a + b), InLoop);
    ClausesStart(cs);
    Split(s, a, b, w);
    var s1 := Passed(s, a, w);
    CasesRead(s1, true, cs, path);
    Join(s, a, b, w, ReportClauses(cs, path, Tail(s1, b), InLoop));
    if body == [] {
      PassedNone(s);
    } else {
      AllStarts(body);
      AllRead(s, body, path);
      BodyFirst(s, ContextOf(path));
    }
  }

  lemma {:induction false} SwitchRead(s: Progress, b: Bare, path: seq<Construct>)
    requires b.SwitchStmt? && Reads(s, PrintBare(b))
    ensures Unlabelled(s, ContextOf(path))
            == Passed(s, PrintBare(b), ReportBare(b, path, Tail(s, PrintBare(b)), InLoop))
    decreases Left(s), 1
  {
    Keywords();
    hide Unlabelled, MayFollow, HasStatement, IsBlockStatement;
    hide Reads, Passed, After, Tail, Next, Skip, Expect, Left, Encloses, Expression, Cases, Keyword, PrintCondition,
         PrintClauses, ReportExpr, ReportClauses;
    var SwitchStmt(cond, cs) := b;
    var inner := path + [SwitchBody];
    EnterConstruct(path);
    var k3 := [OpenBrace] + PrintClauses(cs);
    var k2 := PrintCondition(cond) + k3;
    Token1(s, Switch, k2);
    KeywordRead(s, Switch, k2, ContextOf(path));
    var s1 := Passed(s, [Switch], []);
    SwitchIs(s1, ContextOf(path));
    var w := ReportExpr(cond, inner, 1 + |k3| + Tail(s1, k2), InLoop);
    Split(s1, PrintCondition(cond), k3, w);
    ConditionRead2(s1, cond, inner);
    var s2 := Passed(s1, PrintCondition(cond), w);
    Token1(s2, OpenBrace, PrintClauses(cs));
    var s3 := Passed(s2, [OpenBrace], []);
    CasesRead(s3, false, cs, inner);
    Join(s1, PrintCondition(cond), k3, w, ReportClauses(cs, inner, Tail(s3, PrintClauses(cs)), InLoop));
  }

  /** A head whose expression is read without a look for an assignment. */
  lemma {:induction false} ConditionRead2(s: Progress, e: Expr, path: seq<Construct>)
    requires Reads(s, PrintCondition(e))
    ensures Expect(Expression(Expect(s, OpenParen), false, ContextOf(path)), CloseParen)
            == Passed(s, PrintCondition(e), ReportExpr(e, path, 1 + Tail(s, PrintCondition(e)), InLoop))
    decreases Left(s), 0
  {
    hide Reads, Passed, After, Tail, Next, Skip, Expect, Left, ContextOf, Expression, PrintExpr, ReportExpr;
    Token1(s, OpenParen, PrintExpr(e) + [CloseParen]);
    var s1 := Passed(s, [OpenParen], []);
    var w := ReportExpr(e, path, Tail(s1, PrintExpr(e)), InLoop);
    TokenAfter(s1, PrintExpr(e), w, CloseParen);
    ExprRead(s1, e, false, path);
  }

  lemma {:induction false} IfRead(s: Progress, b: Bare, path: seq<Construct>)
    requires b.IfStmt? && Reads(s, PrintBare(b)) && MayFollow(After(s, PrintBare(b)))
    ensures Unlabelled(s, ContextOf(path))
            == Passed(s, PrintBare(b), ReportBare(b, path, Tail(s, PrintBare(b)), InLoop))
    decreases Left(s), 1
  {
    Keywords();
    hide Unlabelled, MayFollow, HasStatement, IsBlockStatement;
    hide Reads, Passed, After, Tail, Next, Skip, Expect, Left, ContextOf, Condition, Block, Otherwise,
         Keyword, PrintCondition, PrintBlock, PrintElse, ReportExpr, ReportAll, ReportElse;
    var IfStmt(cond, body, els) := b;
    var ks := PrintCondition(cond) + (PrintBlock(body) + PrintElse(els));
    Token1(s, If, ks);
    KeywordRead(s, If, ks, ContextOf(path));
    IfIs(Passed(s, [If], []), ContextOf(path));
    IfRestRead(Passed(s, [If], []), cond, body, els, path);
  }

  /** The parts of an `if`, one after the other. */
  lemma {:induction false} IfRestRead(s: Progress, cond: Expr, body: seq<Stmt>, els: ElsePart, path: seq<Construct>)
    requires var ks := PrintCondition(cond) + (PrintBlock(body) + PrintElse(els));
             Reads(s, ks) && MayFollow(After(s, ks))
    ensures var ks := PrintCondition(cond) + (PrintBlock(body) + PrintElse(els));
            var tail := Tail(s, ks);
            Otherwise(Block(Condition(s, ContextOf(path)), ContextOf(path)), ContextOf(path))
            == Passed(s, ks, ReportExpr(cond, path, 1 + |PrintBlock(body)| + |PrintElse(els)| + tail, InLoop)
                             + (ReportAll(body, path, 1 + |PrintElse(els)| + tail, InLoop)
                             + ReportElse(els, path, tail, InLoop)))
    decreases Left(s), 2
  {
    hide MayFollow, Reads, Passed, After, Tail, Next, Skip, Expect, Left, ContextOf, Condition, Block, Otherwise,
         PrintCondition, PrintBlock, PrintElse, ReportExpr, ReportAll, ReportElse;
    var p1, p2, p3 := PrintCondition(cond), PrintBlock(body), PrintElse(els);
    var tail := Tail(s, p1 + (p2 + p3));
    var w1 := ReportExpr(cond, path, 1 + |p2| + |p3| + tail, InLoop);
    Split(s, p1, p2 + p3, w1);
    ConditionRead(s, cond, path);
    var s2 := Passed(s, p1, w1);
    var w2 := ReportAll(body, path, 1 + |p3| + tail, InLoop);
    Split(s2, p2, p3, w2);
    BlockRead(s2, body, path);
    var s3 := Passed(s2, p2, w2);
    ElseRead(s3, els, path);
    var w3 := ReportElse(els, path, tail, InLoop);
    Join(s2, p2, p3, w2, w3);
    Join(s, p1, p2 + p3, w1, w2 + w3);
  }

  lemma IfIs(s: Progress, c: Context)
    ensures Keyword(s, If, c) == Otherwise(Block(Condition(s, c), c), c)
  {
    hide Otherwise, Block, Condition;
  }

  lemma WhileIs(s: Progress, c: Context)
    ensures var inner := Context(true, true);
            Keyword(s, While, c) == Block(Condition(s, inner), inner)
  {
    hide Block, Condition;
  }

  lemma DoIs(s: Progress, c: Context)
    ensures var inner := Context(true, true);
            Keyword(s, Do, c) == Condition(Expect(Block(s, inner), While), inner)
  {
    hide Block, Condition, Expect;
  }

  lemma SwitchIs(s: Progress, c: Context)
    ensures var inner := c.(breakable := true);
            var s1 := Expect(Expression(Expect(s, OpenParen), false, inner), CloseParen);
            Keyword(s, Switch, c) == Cases(Expect(s1, OpenBrace), false, inner)
  {
    hide Expect, Expression, Cases;
  }

  lemma TryIs(s: Progress, c: Context)
    ensures Keyword(s, Try, c) == Rescued(Block(s, c), c)
  {
    hide Block, Rescued;
  }

  lemma {:induction false} WhileRead(s: Progress, b: Bare, path: seq<Construct>)
    requires b.WhileStmt? && Reads(s, PrintBare(b))
    ensures Unlabelled(s, ContextOf(path))
            == Passed(s, PrintBare(b), ReportBare(b, path, Tail(s, PrintBare(b)), InLoop))
    decreases Left(s), 1
  {
    Keywords();
    hide Unlabelled, MayFollow, HasStatement, IsBlockStatement;
    hide Reads, Passed, After, Tail, Next, Skip, Expect, Left, Encloses, Condition, Block, Keyword, PrintCondition,
         PrintBlock, ReportExpr, ReportAll;
    var WhileStmt(cond, body) := b;
    var inner := path + [LoopBody];
    EnterConstruct(path);
    var p1, p2 := PrintCondition(cond), PrintBlock(body);
    Token1(s, While, p1 + p2);
    KeywordRead(s, While, p1 + p2, ContextOf(path));
    var s1 := Passed(s, [While], []);
    WhileIs(s1, ContextOf(path));
    var w := ReportExpr(cond, inner, 1 + |p2| + Tail(s1, p1 + p2), InLoop);
    Split(s1, p1, p2, w);
    ConditionRead(s1, cond, inner);
    var s2 := Passed(s1, p1, w);
    BlockRead(s2, body, inner);
    Join(s1, p1, p2, w, ReportAll(body, inner, 1 + Tail(s2, p2), InLoop));
  }

  lemma {:induction false} DoRead(s: Progress, b: Bare, path: seq<Construct>)
    requires b.DoStmt? && Reads(s, PrintBare(b))
    ensures Unlabelled(s, ContextOf(path))
            == Passed(s, PrintBare(b), ReportBare(b, path, Tail(s, PrintBare(b)), InLoop))
    decreases Left(s), 1
  {
    Keywords();
    hide Unlabelled, MayFollow, HasStatement, IsBlockStatement, NoteIf;
    hide Reads, Passed, After, Tail, Next, Skip, Expect, Left, Encloses, Condition, Finish, Block, Keyword,
         PrintCondition, PrintBlock, ReportExpr, ReportAll;
    var DoStmt(body, cond) := b;
    EnterConstruct(path);
    var ks := PrintBlock(body) + ([While] + (PrintCondition(cond) + [Semicolon]));
    Token1(s, Do, ks);
    KeywordRead(s, Do, ks, ContextOf(path));
    DoIs(Passed(s, [Do], []), ContextOf(path));
    DoRestRead(Passed(s, [Do], []), body, cond, path + [LoopBody]);
  }

  lemma {:induction false} DoRestRead(s: Progress, body: seq<Stmt>, cond: Expr, path: seq<Construct>)
    requires Reads(s, PrintBlock(body) + ([While] + (PrintCondition(cond) + [Semicolon])))
    ensures var ks := PrintBlock(body) + ([While] + (PrintCondition(cond) + [Semicolon]));
            var c, tail := ContextOf(path), Tail(s, ks);
            Finish(Condition(Expect(Block(s, c), While), c))
            == Passed(s, ks, ReportAll(body, path, 3 + |PrintCondition(cond)| + tail, InLoop)
                             + ReportExpr(cond, path, 2 + tail, InLoop))
    decreases Left(s), 1
  {
    hide Reads, Passed, After, Tail, Next, Skip, Expect, Left, ContextOf, Condition, Finish, Block, PrintCondition,
         PrintBlock, ReportExpr, ReportAll;
    var p, k2 := PrintBlock(body), [While] + (PrintCondition(cond) + [Semicolon]);
    var w := ReportAll(body, path, 1 + |k2| + Tail(s, p + k2), InLoop);
    Split(s, p, k2, w);
    BlockRead(s, body, path);
    var s2 := Passed(s, p, w);
    DoEndRead(s2, cond, path);
    Join(s, p, k2, w, ReportExpr(cond, path, 2 + Tail(s2, k2), InLoop));
  }

  lemma {:induction false} DoEndRead(s: Progress, cond: Expr, path: seq<Construct>)
    requires Reads(s, [While] + (PrintCondition(cond) + [Semicolon]))
    ensures var ks := [While] + (PrintCondition(cond) + [Semicolon]);
            Finish(Condition(Expect(s, While), ContextOf(path)))
            == Passed(s, ks, ReportExpr(cond, path, 2 + Tail(s, ks), InLoop))
    decreases Left(s), 0
  {
    hide Reads, Passed, After, Tail, Next, Skip, Expect, Left, ContextOf, Condition, PrintCondition,
         ReportExpr;
    var p := PrintCondition(cond);
    Token1(s, While, p + [Semicolon]);
    var s1 := Passed(s, [While], []);
    TokenAfter(s1, p, ReportExpr(cond, path, 1 + Tail(s1, p), InLoop), Semicolon);
    ConditionRead(s1, cond, path);
  }

  lemma {:induction false} TryRead(s: Progress, b: Bare, path: seq<Construct>)
    requires b.TryStmt? && Reads(s, PrintBare(b)) && MayFollow(After(s, PrintBare(b)))
    ensures Unlabelled(s, ContextOf(path))
            == Passed(s, PrintBare(b), ReportBare(b, path, Tail(s, PrintBare(b)), InLoop))
    decreases Left(s), 1
  {
    Keywords();
    hide Unlabelled, MayFollow, HasStatement, IsBlockStatement;
    hide Reads, Passed, After, Tail, Next, Skip, Expect, Left, ContextOf, Block, Rescued, Keyword, PrintBlock,
         PrintRescue, ReportAll, ReportRescue;
    var TryStmt(body, rescue) := b;
    var p1, p2 := PrintBlock(body), PrintRescue(rescue);
    Token1(s, Try, p1 + p2);
    KeywordRead(s, Try, p1 + p2, ContextOf(path));
    var s1 := Passed(s, [Try], []);
    TryIs(s1, ContextOf(path));
    var w := ReportAll(body, path, 1 + |p2| + Tail(s1, p1 + p2), InLoop);
    Split(s1, p1, p2, w);
    BlockRead(s1, body, path);
    var s2 := Passed(s1, p1, w);
    RescueRead(s2, rescue, path);
    Join(s1, p1, p2, w, ReportRescue(rescue, path, Tail(s2, p2), InLoop));
  }

  lemma {:induction false} FunctionStmtRead(s: Progress, b: Bare, path: seq<Construct>)
    requires b.FunctionStmt? && Reads(s, PrintBare(b)) && MayFollow(After(s, PrintBare(b)))
    ensures Unlabelled(s, ContextOf(path))
            == Passed(s, PrintBare(b), ReportBare(b, path, Tail(s, PrintBare(b)), InLoop))
    decreases Left(s), 1
  {
    NoParenthesis(After(s, PrintBare(b)));
    Keywords();
    hide Unlabelled, MayFollow, Keyword, Identifier, HasStatement, IsBlockStatement, IsPunctuation;
    hide Reads, Passed, After, Tail, Next, Skip, Expect, Left, ContextOf, FunctionRest, PrintFunction,
         ReportFunction;
    var FunctionStmt(params, body) := b;
    var p := PrintFunction(params, body);
    assert PrintBare(b) == [Function] + ([Name] + p);
    KeywordRead(s, Function, [Name] + p, ContextOf(path));
    Token1(s, Function, [Name] + p);
    var s1 := Passed(s, [Function], []);
    Token1(s1, Name, p);
    var s2 := Passed(s1, [Name], []);
    IdentifierRead(s1, true);
    FunctionRead(s2, params, body, path);
    var w := ReportFunction(body, path, Tail(s2, p), InLoop);
    PassedFacts(s2, p, w);
    NotInvoked(s1, ContextOf(path), Passed(s2, p, w));
  }

  lemma IdentifierRead(s: Progress, nameless: bool)
    requires Next(s) == Name
    ensures Identifier(s, nameless) == Skip(s)
  {
  }

  lemma NoParenthesis(k: Kind)
    requires MayFollow(k)
    ensures k != OpenParen
  {
  }

  lemma NotInvoked(s: Progress, c: Context, r: Progress)
    requires FunctionRest(Identifier(s, true)) == r && Next(r) != OpenParen
    ensures Keyword(s, Function, c) == r
  {
  }

  lemma {:induction false} VarRead(s: Progress, b: Bare, path: seq<Construct>)
    requires b.VarStmt? && Reads(s, PrintBare(b))
    ensures Unlabelled(s, ContextOf(path))
            == Passed(s, PrintBare(b), ReportBare(b, path, Tail(s, PrintBare(b)), InLoop))
    decreases Left(s), 1
  {
    Keywords();
    hide Unlabelled, MayFollow, HasStatement, IsBlockStatement, Keyword, IsReach;
    hide Reads, Passed, After, Tail, Next, Skip, Expect, Left, ContextOf, Variables, PrintDecls, ReportDecls;
    var p := PrintDecls(b.ds);
    Token1(s, Var, p + [Semicolon]);
    KeywordRead(s, Var, p + [Semicolon], ContextOf(path));
    var s1 := Passed(s, [Var], []);
    VarIs(s1, ContextOf(path));
    TokenAfter(s1, p, ReportDecls(b.ds, path, Tail(s1, p), InLoop), Semicolon);
    DeclsRead(s1, b.ds, path);
  }

  lemma VarIs(s: Progress, c: Context)
    ensures Keyword(s, Var, c) == Variables(s, c)
  {
    hide Variables;
  }

  lemma ReturnIs(s: Progress, c: Context)
    ensures Next(s) == Semicolon ==> Keyword(s, Return, c) == s
    ensures IsPiece(Next(s)) ==> Keyword(s, Return, c) == Expression(s, false, c)
  {
    hide Expression;
  }

  lemma ThrowIs(s: Progress, c: Context)
    ensures Keyword(s, Throw, c) == Expression(s, false, c)
  {
    hide Expression;
  }

  lemma {:induction false} ReturnRead(s: Progress, b: Bare, path: seq<Construct>)
    requires b.ReturnStmt? && Reads(s, PrintBare(b))
    ensures Unlabelled(s, ContextOf(path))
            == Passed(s, PrintBare(b), ReportBare(b, path, Tail(s, PrintBare(b)), InLoop))
    decreases Left(s), 1
  {
    Keywords();
    hide Unlabelled, MayFollow, HasStatement, IsBlockStatement, Keyword, IsReach;
    hide Reads, Passed, After, Tail, Next, Skip, Expect, Left, ContextOf, Expression, PrintOption,
         ReportOption;
    var p := PrintOption(b.result);
    Token1(s, Return, p + [Semicolon]);
    KeywordRead(s, Return, p + [Semicolon], ContextOf(path));
    var s1 := Passed(s, [Return], []);
    ReturnIs(s1, ContextOf(path));
    var w := ReportOption(b.result, path, Tail(s1, p), InLoop);
    TokenAfter(s1, p, w, Semicolon);
    OptionRead(s1, b.result, path);
    PassedFacts(s1, p, w);
  }

  lemma {:induction false} ThrowRead(s: Progress, b: Bare, path: seq<Construct>)
    requires b.ThrowStmt? && Reads(s, PrintBare(b))
    ensures Unlabelled(s, ContextOf(path))
            == Passed(s, PrintBare(b), ReportBare(b, path, Tail(s, PrintBare(b)), InLoop))
    decreases Left(s), 1
  {
    Keywords();
    hide Unlabelled, MayFollow, HasStatement, IsBlockStatement, Keyword, IsReach;
    hide Reads, Passed, After, Tail, Next, Skip, Expect, Left, ContextOf, Expression, PrintExpr, ReportExpr;
    var p := PrintExpr(b.e);
    Token1(s, Throw, p + [Semicolon]);
    KeywordRead(s, Throw, p + [Semicolon], ContextOf(path));
    var s1 := Passed(s, [Throw], []);
    ThrowIs(s1, ContextOf(path));
    var w := ReportExpr(b.e, path, Tail(s1, p), InLoop);
    TokenAfter(s1, p, w, Semicolon);
    ExprRead(s1, b.e, false, path);
  }

  lemma {:induction false} JumpRead(s: Progress, b: Bare, path: seq<Construct>)
    requires (b.BreakStmt? || b.ContinueStmt?) && Reads(s, PrintBare(b))
    ensures Unlabelled(s, ContextOf(path))
            == Passed(s, PrintBare(b), ReportBare(b, path, Tail(s, PrintBare(b)), InLoop))
  {
    if b.labelled {
      LabelledJumpRead(s, b, path);
    } else {
      PlainJumpRead(s, b, path);
    }
  }

  lemma LabelledJumpRead(s: Progress, b: Bare, path: seq<Construct>)
    requires (b.BreakStmt? || b.ContinueStmt?) && b.labelled && Reads(s, PrintBare(b))
    ensures Unlabelled(s, ContextOf(path))
            == Passed(s, PrintBare(b), ReportBare(b, path, Tail(s, PrintBare(b)), InLoop))
  {
    Keywords();
    hide Unlabelled, HasStatement, IsBlockStatement, Encloses, Reads, Passed, After, Tail, Next, Skip, Expect, Left,
         NoteIf, Label, Finish, Keyword;
    var k := if b.BreakStmt? then Break else Continue;
    var rest := [Name] + [Semicolon];
    assert PrintBare(b) == [k] + rest;
    KeywordRead(s, k, rest, ContextOf(path));
    Token1(s, k, rest);
    var s1 := Passed(s, [k], []);
    var c, w := !Encloses(path, false), Unexpected(2 + Tail(s1, rest));
    LabelRead(s, k, c, w);
    JumpIs(s1, k, ContextOf(path));
    assert When(c, w) + [] == When(c, w);
  }

  lemma PlainJumpRead(s: Progress, b: Bare, path: seq<Construct>)
    requires (b.BreakStmt? || b.ContinueStmt?) && !b.labelled && Reads(s, PrintBare(b))
    ensures Unlabelled(s, ContextOf(path))
            == Passed(s, PrintBare(b), ReportBare(b, path, Tail(s, PrintBare(b)), InLoop))
  {
    Keywords();
    hide Unlabelled, HasStatement, IsBlockStatement, Encloses, Reads, Passed, After, Tail, Next, Skip, Expect, Left,
         NoteIf, Label, Finish, Keyword;
    var k := if b.BreakStmt? then Break else Continue;
    assert PrintBare(b) == [k] + [Semicolon];
    KeywordRead(s, k, [Semicolon], ContextOf(path));
    Token1(s, k, [Semicolon]);
    var s1 := Passed(s, [k], []);
    var c1, w1 := !Encloses(path, false), Unexpected(1 + Tail(s1, [Semicolon]));
    var c2, w2 := k == Continue && !Encloses(path, true), Unexpected(1 + Tail(s1, [Semicolon]));
    BareJumpRead(s1, c1, w1, c2, w2);
    JumpIs(s1, k, ContextOf(path));
    assert When(c1, w1) + [] == When(c1, w1);
  }

  lemma JumpIs(s: Progress, k: Kind, c: Context)
    requires k in {Break, Continue}
    ensures var s2 := NoteIf(s, !c.breakable, Unexpected(Left(s)));
            Keyword(s, k, c)
            == if Next(s2) != Semicolon then Label(s2)
               else NoteIf(s2, k == Continue && !c.looping, Unexpected(Left(s2)))
  {
  }

  /** The semicolon right after a break or a continue. */
  lemma BareJumpRead(s1: Progress, c1: bool, w1: Warning, c2: bool, w2: Warning)
    requires Reads(s1, [Semicolon])
    ensures var s2 := NoteIf(s1, c1, w1);
            && Next(s2) == Semicolon
            && Finish(NoteIf(s2, c2, w2)) == Passed(s1, [Semicolon], When(c1, w1) + When(c2, w2))
            && (!c2 ==> NoteIf(s2, c2, w2) == s2)
  {
    hide Reads, Passed, After, Tail, Next, Skip, Expect, Left, NoteIf;
    var s2 := NoteIf(s1, c1, w1);
    NoteBefore(s1, c1, w1, [Semicolon], When(c2, w2));
    assert [Semicolon] + [] == [Semicolon];
    Token1(s2, Semicolon, []);
    NoteBefore(s2, c2, w2, [Semicolon], []);
    Token1(NoteIf(s2, c2, w2), Semicolon, []);
    assert When(c2, w2) + [] == When(c2, w2);
    NotedNot(s2, w2);
  }

  lemma NotedNot(s: Progress, w: Warning)
    ensures NoteIf(s, false, w) == s
  {
  }

  lemma LabelRead(s: Progress, k: Kind, c: bool, w: Warning)
    requires k in {Break, Continue} && Reads(s, [k] + ([Name] + [Semicolon]))
    ensures var s2 := NoteIf(Passed(s, [k], []), c, w);
            Next(s2) == Name && Finish(Label(s2)) == Passed(s, [k] + ([Name] + [Semicolon]), When(c, w))
  {
    var ks := [k] + ([Name] + [Semicolon]);
    assert s.ts[0].kind == ks[0] && s.ts[1].kind == ks[1] && s.ts[2].kind == ks[2] && IsNeatAt(s.ts, 1);
    var s1 := Passed(s, [k], []);
    assert s1.ts == s.ts[1..] && s1.ts[0] == s.ts[1];
    assert s1.ts[1..][0] == s.ts[2] && s1.ts[1..][1..] == s.ts[3..];
    assert s.ws + [] == s.ws;
  }

  // ------------------------------------------------------------ the parser

  datatype Outcome = Fine | Stopped | Hung {
    predicate IsFailure() { this != Fine }
    function PropagateFailure(): Outcome { this }
  }

  /** Once parsing has stopped, nothing moves it. */
  lemma Halted()
    ensures forall s: Progress, c {:trigger Statements(s, c)} :: !s.Going? ==> Statements(s, c) == s
    ensures forall s: Progress, c {:trigger Statement(s, c)} :: !s.Going? ==> Statement(s, c) == s
    ensures forall s: Progress, c {:trigger Block(s, c)} :: !s.Going? ==> Block(s, c) == s
    ensures forall s: Progress, k {:trigger Expect(s, k)} :: !s.Going? ==> Expect(s, k) == s
    ensures forall s: Progress {:trigger Skip(s)} :: !s.Going? ==> Skip(s) == s
    ensures forall s: Progress {:trigger Next(s)} :: !s.Going? ==> Next(s) == End
    ensures forall s: Progress, b, c {:trigger Expression(s, b, c)} :: !s.Going? ==> Expression(s, b, c) == s
    ensures forall s: Progress, c {:trigger OnePiece(s, c)} :: !s.Going? ==> OnePiece(s, c) == s
    ensures forall s: Progress, b {:trigger Identifier(s, b)} :: !s.Going? ==> Identifier(s, b) == s
    ensures forall s: Progress {:trigger Parameters(s)} :: !s.Going? ==> Parameters(s) == s
    ensures forall s: Progress {:trigger FunctionRest(s)} :: !s.Going? ==> FunctionRest(s) == s
    ensures forall s: Progress, c, w {:trigger NoteIf(s, c, w)} :: !s.Going? ==> NoteIf(s, c, w) == s
    ensures forall s: Progress {:trigger Finish(s)} :: !s.Going? ==> Finish(s) == s
    ensures forall s: Progress, c {:trigger Otherwise(s, c)} :: !s.Going? ==> Otherwise(s, c) == s
    ensures forall s: Progress, c {:trigger Rescued(s, c)} :: !s.Going? ==> Rescued(s, c) == s
    ensures forall s: Progress, c {:trigger Initial(s, c)} :: !s.Going? ==> Initial(s, c) == s
    ensures forall s: Progress, c {:trigger Condition(s, c)} :: !s.Going? ==> Condition(s, c) == s
    ensures forall s: Progress, c {:trigger Test(s, c)} :: !s.Going? ==> Test(s, c) == s
    ensures forall s: Progress, c {:trigger Expressions(s, c)} :: !s.Going? ==> Expressions(s, c) == s
    ensures forall s: Progress, g, c {:trigger Cases(s, g, c)} :: !s.Going? ==> Cases(s, g, c) == s
  {
  }

  lemma CasesStep(s: Progress, g: bool, c: Context)
    requires s.Going?
    ensures Cases(Quit, g, c) == Quit && Cases(Stuck, g, c) == Stuck
    ensures Cases(Quit, true, c) == Quit && Cases(Stuck, true, c) == Stuck
    ensures Cases(s, g, c)
            == if Next(s) == CloseBrace then Skip(s)
               else if Next(s) == End then Quit
               else Cases(OneClause(s, g, c), g || Next(s) in {Case, Default}, c)
  {
  }

  /** The counters of one function. */
  class Funct {
    var breakage: nat
    var loopage: nat
    const context: Funct?

    constructor (context: Funct?)
      ensures breakage == loopage == 0 && this.context == context
    {
      breakage, loopage, this.context := 0, 0, context;
    }
  }

  class Parser {
    var ts: seq<Token>
    var token: Kind
    var ws: seq<Warning>
    var funct: Funct

    constructor (ts: seq<Token>)
      ensures Now() == Going(ts, End, []) && Here() == OUTSIDE && fresh(funct)
    {
      this.ts, token, ws := ts, End, [];
      funct := new Funct(null);
    }

    function Now(): Progress
      reads this
    {
      Going(ts, token, ws)
    }

    ghost function Here(): Context
      reads this, funct
    {
      Context(funct.breakage > 0, funct.loopage > 0)
    }

    ghost function Result(o: Outcome): Progress
      reads this
    {
      match o
      case Fine => Now()
      case Stopped => Quit
      case Hung => Stuck
    }

    /** The function being parsed, and its counters, are what they were. */
    ghost predicate Kept(o: Outcome, f: Funct, breakage: nat, loopage: nat)
      reads this, funct
    {
      o == Fine ==> funct == f && funct.breakage == breakage && funct.loopage == loopage
    }

    method Advance()
      modifies this`ts, this`token
      ensures Now() == Skip(old(Now()))
    {
      if ts == [] {
        token := End;
      } else {
        token := ts[0].kind;
        ts := ts[1..];
      }
    }

    method Warn(w: Warning)
      modifies this`ws
      ensures Now() == Note(old(Now()), w)
    {
      ws := ws + [w];
    }

    method AdvanceTo(k: Kind)
      modifies this`ts, this`token, this`ws
      ensures Now() == Expect(old(Now()), k)
    {
      if Next(Now()) != k { Warn(Flaw(|ts|)); }
      Advance();
    }

    method ParseIdentifier(nameless: bool) returns (o: Outcome)
      modifies this`ts, this`token, this`ws
      ensures Result(o) == Identifier(old(Now()), nameless) && o != Hung
    {
      if !IsPunctuation(Next(Now())) {
        if Next(Now()) != Name { Warn(Flaw(|ts|)); }
        Advance();
        return Fine;
      }
      if nameless && Next(Now()) == OpenParen {
        Warn(Flaw(|ts|));
        return Fine;
      }
      return Stopped;
    }

    method ParseParameters() returns (o: Outcome)
      modifies this`ts, this`token, this`ws
      ensures Result(o) == Parameters(old(Now()))
    {
      ghost var start := Now();
      while true
        invariant Parameters(Now()) == Parameters(start)
        decreases |ts|
      {
        o := ParseIdentifier(false);
        if o != Fine { return; }
        if Next(Now()) != Comma { break; }
        Advance();
      }
      AdvanceTo(CloseParen);
      return Fine;
    }

    method ParseStatements() returns (o: Outcome)
      modifies this`ts, this`token, this`ws, this`funct, funct
      ensures Result(o) == Statements(old(Now()), old(Here()))
      ensures Kept(o, old(funct), old(funct.breakage), old(funct.loopage))
      decreases |ts|, 14
    {
      hide Statement;
      Halted();
      ghost var start, c := Now(), Here();
      ghost var breakage, loopage := funct.breakage, funct.loopage;
      while !IsReach(Next(Now()))
        invariant Statements(Now(), c) == Statements(start, c)
        invariant Kept(Fine, old(funct), breakage, loopage)
        invariant |ts| <= old(|ts|)
        decreases |ts|
      {
        if Next(Now()) == Semicolon {
          Warn(Flaw(|ts|));
          Advance();
        } else {
          o := ParseStatement();
          if o != Fine { return; }
        }
      }
      return Fine;
    }

    method ParseStatement() returns (o: Outcome)
      modifies this`ts, this`token, this`ws, this`funct, funct
      ensures Result(o) == Statement(old(Now()), old(Here()))
      ensures Kept(o, old(funct), old(funct.breakage), old(funct.loopage))
      decreases |ts|, 13
    {
      hide Unlabelled;
      Halted();
      if Next(Now()) == Semicolon {
        Warn(Flaw(|ts|));
        Advance();
        return Fine;
      }
      if Next(Now()) == Name && Peek(Now(), 0) == Colon {
        Advance();
        Advance();
        if !MayBeLabelled(Next(Now())) { Warn(Flaw(|ts|)); }
      }
      o := ParseUnlabelled();
    }

    method ParseUnlabelled() returns (o: Outcome)
      modifies this`ts, this`token, this`ws, this`funct, funct
      ensures Result(o) == Unlabelled(old(Now()), old(Here()))
      ensures Kept(o, old(funct), old(funct.breakage), old(funct.loopage))
      decreases |ts|, 12
    {
      hide Keyword, Expression, Finish;
      Halted();
      var k := Next(Now());
      if IsPiece(k) && k != Function {
        :- ParseExpression(true);
        FinishStatement();
        return Fine;
      }
      if k == End || !HasStatement(k) { return Stopped; }
      Advance();
      :- ParseKeyword(k);
      if !IsBlockStatement(k) { FinishStatement(); }
      return Fine;
    }

    method FinishStatement()
      modifies this`ts, this`token, this`ws
      ensures Now() == Finish(old(Now()))
    {
      if Next(Now()) == Semicolon { Advance(); } else { Warn(Flaw(|ts|)); }
    }

    method ParseKeyword(k: Kind) returns (o: Outcome)
      modifies this`ts, this`token, this`ws, this`funct, funct
      ensures Result(o) == Keyword(old(Now()), k, old(Here()))
      ensures Kept(o, old(funct), old(funct.breakage), old(funct.loopage))
      decreases |ts|, 19
    {
      hide Expression, Variables;
      Halted();
      match k {
        case Function => o := ParseFunctionStatement();
        case If => o := ParseIf();
        case While => o := ParseWhile();
        case Do => o := ParseDo();
        case For => o := ParseFor();
        case Var => o := ParseVariables();
        case Switch => o := ParseSwitch();
        case Break => ParseBreak(); o := Fine;
        case Continue => ParseContinue(); o := Fine;
        case Return => o := ParseReturn();
        case Throw => o := ParseExpression(false);
        case Try => o := ParseTry();
        case _ => o := Stopped;
      }
    }

    method ParseFunctionStatement() returns (o: Outcome)
      modifies this`ts, this`token, this`ws, this`funct, funct
      ensures Result(o) == Keyword(old(Now()), Function, old(Here()))
      ensures Kept(o, old(funct), old(funct.breakage), old(funct.loopage))
      decreases |ts|, 17
    {
      hide FunctionRest, Identifier;
      Halted();
      :- ParseIdentifier(true);
      :- DoFunction();
      if Next(Now()) == OpenParen && !NextLeads(Now()) { return Stopped; }
      return Fine;
    }

    method ParseIf() returns (o: Outcome)
      modifies this`ts, this`token, this`ws, this`funct, funct
      ensures Result(o) == Keyword(old(Now()), If, old(Here()))
      ensures Kept(o, old(funct), old(funct.breakage), old(funct.loopage))
      decreases |ts|, 17
    {
      hide Condition, Block, Otherwise;
      Halted();
      :- ParseCondition();
      :- ParseBlock();
      o := ParseElse();
    }

    method ParseElse() returns (o: Outcome)
      modifies this`ts, this`token, this`ws, this`funct, funct
      ensures Result(o) == Otherwise(old(Now()), old(Here()))
      ensures Kept(o, old(funct), old(funct.breakage), old(funct.loopage))
      decreases |ts|, 16
    {
      hide Statement, Block;
      Halted();
      if Next(Now()) != Else { return Fine; }
      Advance();
      if Next(Now()) in {If, Switch} {
        o := ParseStatement();
      } else {
        o := ParseBlock();
      }
    }

    method ParseWhile() returns (o: Outcome)
      modifies this`ts, this`token, this`ws, this`funct, funct
      ensures Result(o) == Keyword(old(Now()), While, old(Here()))
      ensures Kept(o, old(funct), old(funct.breakage), old(funct.loopage))
      decreases |ts|, 17
    {
      hide Condition, Block;
      Halted();
      funct.breakage := funct.breakage + 1;
      funct.loopage := funct.loopage + 1;
      :- ParseCondition();
      :- ParseBlock();
      funct.breakage := funct.breakage - 1;
      funct.loopage := funct.loopage - 1;
      return Fine;
    }

    method ParseDo() returns (o: Outcome)
      modifies this`ts, this`token, this`ws, this`funct, funct
      ensures Result(o) == Keyword(old(Now()), Do, old(Here()))
      ensures Kept(o, old(funct), old(funct.breakage), old(funct.loopage))
      decreases |ts|, 17
    {
      hide Condition, Block, Expect;
      Halted();
      funct.breakage := funct.breakage + 1;
      funct.loopage := funct.loopage + 1;
      :- ParseBlock();
      AdvanceTo(While);
      :- ParseCondition();
      funct.breakage := funct.breakage - 1;
      funct.loopage := funct.loopage - 1;
      return Fine;
    }

    method ParseFor() returns (o: Outcome)
      modifies this`ts, this`token, this`ws, this`funct, funct
      ensures Result(o) == Keyword(old(Now()), For, old(Here()))
      ensures Kept(o, old(funct), old(funct.breakage), old(funct.loopage))
      decreases |ts|, 18
    {
      hide ForRest;
      Halted();
      funct.breakage := funct.breakage + 1;
      funct.loopage := funct.loopage + 1;
      AdvanceTo(OpenParen);
      :- ParseForRest();
      funct.breakage := funct.breakage - 1;
      funct.loopage := funct.loopage - 1;
      return Fine;
    }

    method ParseForRest() returns (o: Outcome)
      modifies this`ts, this`token, this`ws, this`funct, funct
      ensures Result(o) == ForRest(old(Now()), old(Here()))
      ensures Kept(o, old(funct), old(funct.breakage), old(funct.loopage))
      decreases |ts|, 17
    {
      hide ForRest, Peek;
      if Peek(Now(), if Next(Now()) == Var then 1 else 0) == In {
        o := ParseForIn();
      } else {
        o := ParseForParts();
      }
    }

    /** The rest of a `for` in which `in` comes after the variable. */
    method ParseForIn() returns (o: Outcome)
      requires Peek(Now(), if Next(Now()) == Var then 1 else 0) == In
      modifies this`ts, this`token, this`ws, this`funct, funct
      ensures Result(o) == ForRest(old(Now()), old(Here()))
      ensures Kept(o, old(funct), old(funct.breakage), old(funct.loopage))
      decreases |ts|, 16
    {
      hide Expression, Block, Identifier, Peek, Expect, ForHead, Test, Expressions;
      Halted();
      if Next(Now()) == Var {
        Advance();
        :- ParseIdentifier(false);
      } else {
        Advance();
      }
      AdvanceTo(In);
      :- ParseExpression(false);
      AdvanceTo(CloseParen);
      o := ParseBlock();
    }

    /** The rest of a `for` with three parts. */
    method ParseForParts() returns (o: Outcome)
      requires Peek(Now(), if Next(Now()) == Var then 1 else 0) != In
      modifies this`ts, this`token, this`ws, this`funct, funct
      ensures Result(o) == ForRest(old(Now()), old(Here()))
      ensures Kept(o, old(funct), old(funct.breakage), old(funct.loopage))
      decreases |ts|, 16
    {
      hide Expression, Block, ForHead, Test, Expressions, Identifier, Peek, Expect;
      Halted();
      :- ParseForHead();
      AdvanceTo(Semicolon);
      if Next(Now()) != Semicolon { :- ParseTest(); }
      AdvanceTo(Semicolon);
      if Next(Now()) == Semicolon { return Stopped; }
      if Next(Now()) != CloseParen { :- ParseExpressions(); }
      AdvanceTo(CloseParen);
      o := ParseBlock();
    }

    method ParseForHead() returns (o: Outcome)
      modifies this`ts, this`token, this`ws, this`funct, funct
      ensures Result(o) == ForHead(old(Now()), old(Here()))
      ensures Kept(o, old(funct), old(funct.breakage), old(funct.loopage))
      decreases |ts|, 13
    {
      hide Variables, Expressions;
      Halted();
      if Next(Now()) == Semicolon { return Fine; }
      if Next(Now()) == Var {
        Advance();
        o := ParseVariables();
      } else {
        o := ParseExpressions();
      }
    }

    method ParseSwitch() returns (o: Outcome)
      modifies this`ts, this`token, this`ws, this`funct, funct
      ensures Result(o) == Keyword(old(Now()), Switch, old(Here()))
      ensures Kept(o, old(funct), old(funct.breakage), old(funct.loopage))
      decreases |ts|, 17
    {
      hide Expression, Cases, Expect;
      Halted();
      funct.breakage := funct.breakage + 1;
      AdvanceTo(OpenParen);
      :- ParseExpression(false);
      AdvanceTo(CloseParen);
      AdvanceTo(OpenBrace);
      :- ParseCases();
      funct.breakage := funct.breakage - 1;
      return Fine;
    }

    method ParseCases() returns (o: Outcome)
      modifies this`ts, this`token, this`ws, this`funct, funct
      ensures Result(o) == Cases(old(Now()), false, old(Here()))
      ensures Kept(o, old(funct), old(funct.breakage), old(funct.loopage))
      decreases |ts|, 17
    {
      hide Cases, Skip, OneClause;
      ghost var start, c := Now(), Here();
      ghost var breakage, loopage := funct.breakage, funct.loopage;
      var g := false;
      while Next(Now()) !in {CloseBrace, End}
        invariant Cases(Now(), g, c) == Cases(start, false, c)
        invariant Kept(Fine, old(funct), breakage, loopage)
        invariant |ts| <= old(|ts|)
        decreases |ts|
      {
        CasesStep(Now(), g, c);
        var labelled := Next(Now()) in {Case, Default};
        :- ParseClause(g);
        g := g || labelled;
      }
      CasesStep(Now(), g, c);
      if Next(Now()) == End { return Stopped; }
      Advance();
      return Fine;
    }

    method ParseClause(g: bool) returns (o: Outcome)
      requires Next(Now()) != End
      modifies this`ts, this`token, this`ws, this`funct, funct
      ensures Result(o) == OneClause(old(Now()), g, old(Here()))
      ensures Kept(o, old(funct), old(funct.breakage), old(funct.loopage)) && (o == Fine ==> |ts| < old(|ts|))
      decreases |ts|, 16
    {
      hide Expression, Expect, ClauseBody;
      if Next(Now()) == Case {
        o := ParseCase();
      } else if Next(Now()) == Default {
        Advance();
        AdvanceTo(Colon);
        o := Fine;
      } else {
        o := ParseClauseBody(g);
      }
    }

    method ParseClauseBody(g: bool) returns (o: Outcome)
      requires Next(Now()) != End
      modifies this`ts, this`token, this`ws, this`funct, funct
      ensures Result(o) == ClauseBody(old(Now()), g, old(Here()))
      ensures Kept(o, old(funct), old(funct.breakage), old(funct.loopage)) && (o == Fine ==> |ts| < old(|ts|))
      decreases |ts|, 15
    {
      hide Statements;
      Halted();
      if !g || token != Colon { return Stopped; }
      var left := |ts|;
      :- ParseStatements();
      return if |ts| == left then Hung else Fine;
    }

    method ParseCase() returns (o: Outcome)
      requires Next(Now()) == Case
      modifies this`ts, this`token, this`ws, this`funct, funct
      ensures Result(o) == Expect(Expression(Skip(old(Now())), false, old(Here())), Colon)
      ensures Kept(o, old(funct), old(funct.breakage), old(funct.loopage)) && (o == Fine ==> |ts| < old(|ts|))
      decreases |ts|, 13
    {
      hide Expression, Expect;
      Halted();
      Advance();
      :- ParseExpression(false);
      AdvanceTo(Colon);
      return Fine;
    }

    method ParseBreak()
      modifies this`ts, this`token, this`ws
      ensures Now() == Keyword(old(Now()), Break, Here())
    {
      if funct.breakage == 0 { Warn(Unexpected(|ts|)); }
      if Next(Now()) != Semicolon { ParseLabel(); }
    }

    method ParseContinue()
      modifies this`ts, this`token, this`ws
      ensures Now() == Keyword(old(Now()), Continue, Here())
    {
      if funct.breakage == 0 { Warn(Unexpected(|ts|)); }
      if Next(Now()) != Semicolon {
        ParseLabel();
      } else if funct.loopage == 0 {
        Warn(Unexpected(|ts|));
      }
    }

    method ParseLabel()
      modifies this`ts, this`token, this`ws
      ensures Now() == Label(old(Now()))
    {
      if !NextLeads(Now()) {
        if Next(Now()) != Name { Warn(Flaw(|ts|)); }
        Advance();
      }
    }

    method ParseReturn() returns (o: Outcome)
      modifies this`ts, this`token, this`ws, this`funct, funct
      ensures Result(o) == Keyword(old(Now()), Return, old(Here()))
      ensures Kept(o, old(funct), old(funct.breakage), old(funct.loopage))
      decreases |ts|, 17
    {
      hide Expression;
      Halted();
      if Next(Now()) == Semicolon || IsReach(Next(Now())) { return Fine; }
      o := ParseExpression(false);
    }

    method ParseTry() returns (o: Outcome)
      modifies this`ts, this`token, this`ws, this`funct, funct
      ensures Result(o) == Keyword(old(Now()), Try, old(Here()))
      ensures Kept(o, old(funct), old(funct.breakage), old(funct.loopage))
      decreases |ts|, 18
    {
      hide Block, Rescued;
      Halted();
      :- ParseBlock();
      o := ParseRescue();
    }

    method ParseRescue() returns (o: Outcome)
      modifies this`ts, this`token, this`ws, this`funct, funct
      ensures Result(o) == Rescued(old(Now()), old(Here()))
      ensures Kept(o, old(funct), old(funct.breakage), old(funct.loopage))
      decreases |ts|, 17
    {
      hide Block, Expect, Skip;
      Halted();
      var caught := Next(Now()) == Catch;
      if caught { :- ParseCatch(); }
      if Next(Now()) == Finally {
        Advance();
        o := ParseBlock();
        return;
      }
      return if caught then Fine else Stopped;
    }

    method ParseCatch() returns (o: Outcome)
      requires Next(Now()) == Catch
      modifies this`ts, this`token, this`ws, this`funct, funct
      ensures Result(o)
              == Block(Expect(CatchName(Expect(Skip(old(Now())), OpenParen)), CloseParen), old(Here()))
      ensures Kept(o, old(funct), old(funct.breakage), old(funct.loopage))
      decreases |ts|, 16
    {
      hide Block, Expect;
      Halted();
      Advance();
      AdvanceTo(OpenParen);
      if Next(Now()) != Name { Warn(Flaw(|ts|)); }
      Advance();
      AdvanceTo(CloseParen);
      o := ParseBlock();
    }

    method ParseBlock() returns (o: Outcome)
      modifies this`ts, this`token, this`ws, this`funct, funct
      ensures Result(o) == Block(old(Now()), old(Here()))
      ensures Kept(o, old(funct), old(funct.breakage), old(funct.loopage))
      decreases |ts|, 15
    {
      hide Statements, Statement, Expect;
      Halted();
      if Next(Now()) == OpenBrace {
        Advance();
        :- ParseStatements();
        AdvanceTo(CloseBrace);
        return Fine;
      }
      Warn(Flaw(|ts|));
      o := ParseStatement();
    }

    /** Parses a function with counters of its own, and goes back to those of the one around it. */
    method DoFunction() returns (o: Outcome)
      modifies this`ts, this`token, this`ws, this`funct, funct
      ensures Result(o) == FunctionRest(old(Now()))
      ensures Kept(o, old(funct), old(funct.breakage), old(funct.loopage))
      decreases |ts|, 16
    {
      hide Parameters, Block, Expect;
      Halted();
      ghost var outer := funct;
      AdvanceTo(OpenParen);
      if Next(Now()) == CloseParen {
        Advance();
      } else {
        :- ParseParameters();
      }
      funct := new Funct(funct);
      :- ParseBlock();
      funct := funct.context;
      return Fine;
    }

    method ParseCondition() returns (o: Outcome)
      modifies this`ts, this`token, this`ws, this`funct, funct
      ensures Result(o) == Condition(old(Now()), old(Here()))
      ensures Kept(o, old(funct), old(funct.breakage), old(funct.loopage))
      decreases |ts|, 13
    {
      hide Test, Expect;
      Halted();
      AdvanceTo(OpenParen);
      :- ParseTest();
      AdvanceTo(CloseParen);
      return Fine;
    }

    method ParseTest() returns (o: Outcome)
      modifies this`ts, this`token, this`ws, this`funct, funct
      ensures Result(o) == Test(old(Now()), old(Here()))
      ensures Kept(o, old(funct), old(funct.breakage), old(funct.loopage))
      decreases |ts|, 12
    {
      hide Expression;
      Halted();
      :- ParseExpression(false);
      if Next(Now()) == Assign {
        Warn(Flaw(|ts|));
        Advance();
        o := ParseExpression(false);
        return;
      }
      return Fine;
    }

    method ParseExpression(low: bool) returns (o: Outcome)
      modifies this`ts, this`token, this`ws, this`funct, funct
      ensures Result(o) == Expression(old(Now()), low, old(Here()))
      ensures Kept(o, old(funct), old(funct.breakage), old(funct.loopage))
      decreases |ts|, 11
    {
      hide OnePiece;
      Halted();
      ghost var start, c := Now(), Here();
      ghost var breakage, loopage := funct.breakage, funct.loopage;
      while true
        invariant Expression(Now(), low, c) == Expression(start, low, c)
        invariant Kept(Fine, old(funct), breakage, loopage)
        invariant |ts| <= old(|ts|)
        decreases |ts|
      {
        :- ParsePiece();
        if low && Next(Now()) == Assign {
          Advance();
        } else if !IsPiece(Next(Now())) {
          return Fine;
        }
      }
    }

    method ParsePiece() returns (o: Outcome)
      modifies this`ts, this`token, this`ws, this`funct, funct
      ensures Result(o) == OnePiece(old(Now()), old(Here()))
      ensures Kept(o, old(funct), old(funct.breakage), old(funct.loopage))
      ensures o == Fine ==> |ts| < old(|ts|)
      decreases |ts|, 10
    {
      hide Literal;
      if !IsPiece(Next(Now())) { return Stopped; }
      if Next(Now()) == Function {
        Advance();
        o := ParseLiteral();
      } else {
        Advance();
        o := Fine;
      }
    }

    method ParseLiteral() returns (o: Outcome)
      modifies this`ts, this`token, this`ws, this`funct, funct
      ensures Result(o) == Literal(old(Now()), old(Here()))
      ensures Kept(o, old(funct), old(funct.breakage), old(funct.loopage))
      decreases |ts|, 17
    {
      hide Identifier, FunctionRest;
      Halted();
      if !IsPunctuation(Next(Now())) { :- ParseIdentifier(false); }
      :- DoFunction();
      if funct.loopage > 0 { Warn(FunctionInLoop(|ts|)); }
      return Fine;
    }

    method ParseVariables() returns (o: Outcome)
      modifies this`ts, this`token, this`ws, this`funct, funct
      ensures Result(o) == Variables(old(Now()), old(Here()))
      ensures Kept(o, old(funct), old(funct.breakage), old(funct.loopage))
      decreases |ts|, 12
    {
      hide Expression, Identifier, Peek;
      Halted();
      ghost var start, c := Now(), Here();
      ghost var breakage, loopage := funct.breakage, funct.loopage;
      while true
        invariant Variables(Now(), c) == Variables(start, c)
        invariant Kept(Fine, old(funct), breakage, loopage)
        invariant |ts| <= old(|ts|)
        decreases |ts|
      {
        :- ParseIdentifier(false);
        if Next(Now()) == Assign {
          Advance();
          if !IsPunctuation(Next(Now())) && Peek(Now(), 0) == Assign { return Stopped; }
          :- ParseExpression(true);
        }
        if Next(Now()) != Comma { return Fine; }
        Advance();
      }
    }

    method ParseExpressions() returns (o: Outcome)
      modifies this`ts, this`token, this`ws, this`funct, funct
      ensures Result(o) == Expressions(old(Now()), old(Here()))
      ensures Kept(o, old(funct), old(funct.breakage), old(funct.loopage))
      decreases |ts|, 12
    {
      hide Expression;
      Halted();
      ghost var start, c := Now(), Here();
      ghost var breakage, loopage := funct.breakage, funct.loopage;
      while true
        invariant Expressions(Now(), c) == Expressions(start, c)
        invariant Kept(Fine, old(funct), breakage, loopage)
        invariant |ts| <= old(|ts|)
        decreases |ts|
      {
        :- ParseExpression(true);
        if Next(Now()) != Comma { return Fine; }
        Advance();
      }
    }
  }
}
