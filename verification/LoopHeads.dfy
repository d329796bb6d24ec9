/** The parts of a loop's head that run once: the first part of a `for` and the object of a for-in.
    The statement parser takes a function made there for one made in the loop.  Its report is the
    deserved one just for the programs without such a function. */
module LoopHeads {
  import opened StatementNesting
  import opened Wrappers

  // ------------------------------------------------------------ programs without such functions

  /** `once` says that the place is run once, outside all loops of its function, though the parser
      takes it for a part of a loop; no function literal may stand there. */
  predicate ClearPiece(p: Piece, once: bool) {
    match p
    case Plain(_) => true
    case FunctionLiteral(_, _, body) => !once && ClearAll(body, false)
  }

  predicate ClearExpr(e: Expr, once: bool) {
    match e
    case Last(p) => ClearPiece(p, once)
    case More(p, rest) => ClearPiece(p, once) && ClearExpr(rest, once)
  }

  predicate ClearChain(ch: Chain, once: bool) {
    match ch
    case Single(e) => ClearExpr(e, once)
    case Assigned(e, rest) => ClearExpr(e, once) && ClearChain(rest, once)
  }

  predicate ClearChains(chs: Chains, once: bool) {
    match chs
    case OneChain(ch) => ClearChain(ch, once)
    case MoreChains(ch, rest) => ClearChain(ch, once) && ClearChains(rest, once)
  }

  predicate ClearOption(e: Option<Expr>, once: bool) { e.Some? ==> ClearExpr(e.value, once) }

  predicate ClearMore(ch: Option<Chain>) { ch.Some? ==> ClearChain(ch.value, false) }

  predicate ClearSteps(chs: Option<Chains>) { chs.Some? ==> ClearChains(chs.value, false) }

  predicate ClearDecls(ds: Decls, once: bool) {
    match ds
    case OneVar(init) => ClearOption(init, once)
    case MoreVars(init, rest) => ClearOption(init, once) && ClearDecls(rest, once)
  }

  predicate ClearForInit(init: ForInit, once: bool) {
    match init
    case NoInit => true
    case VarInit(ds) => ClearDecls(ds, once)
    case ExprInit(chs) => ClearChains(chs, once)
  }

  /** `looping` says that a loop of the same function is around. */
  predicate ClearAll(ss: seq<Stmt>, looping: bool) {
    ss != [] ==> Clear(ss[0], looping) && ClearAll(ss[1..], looping)
  }

  predicate Clear(s: Stmt, looping: bool) { ClearBare(s.b, looping) }

  predicate ClearClauses(cs: seq<Clause>, looping: bool) {
    cs != [] ==>
      && (cs[0].CaseClause? ==> ClearExpr(cs[0].e, false))
      && ClearAll(cs[0].body, looping)
      && ClearClauses(cs[1..], looping)
  }

  predicate ClearElse(els: ElsePart, looping: bool) {
    match els
    case NoElse => true
    case ElseBlock(body) => ClearAll(body, looping)
    case ElseStmt(b) => ClearBare(b, looping)
  }

  predicate ClearRescue(r: Rescue, looping: bool) {
    match r
    case CatchOnly(h) => ClearAll(h, looping)
    case FinallyOnly(f) => ClearAll(f, looping)
    case CatchFinally(h, f) => ClearAll(h, looping) && ClearAll(f, looping)
  }

  predicate ClearBare(b: Bare, looping: bool) {
    match b
    case ExprStmt(_, rest, more) => ClearOption(rest, false) && ClearMore(more)
    case VarStmt(ds) => ClearDecls(ds, false)
    case IfStmt(cond, body, els) => ClearExpr(cond, false) && ClearAll(body, looping) && ClearElse(els, looping)
    case WhileStmt(cond, body) => ClearExpr(cond, false) && ClearAll(body, true)
    case DoStmt(body, cond) => ClearAll(body, true) && ClearExpr(cond, false)
    case ForStmt(init, test, step, body) =>
      ClearForInit(init, !looping) && ClearOption(test, false) && ClearSteps(step) && ClearAll(body, true)
    case ForInStmt(_, e, body) => ClearExpr(e, !looping) && ClearAll(body, true)
    case SwitchStmt(cond, clauses) => ClearExpr(cond, false) && ClearClauses(clauses, looping)
    case BreakStmt(_) => true
    case ContinueStmt(_) => true
    case ReturnStmt(result) => ClearOption(result, false)
    case ThrowStmt(e) => ClearExpr(e, false)
    case TryStmt(body, rescue) => ClearAll(body, looping) && ClearRescue(rescue, looping)
    case FunctionStmt(_, body) => ClearAll(body, false)
  }

  // ------------------------------------------------------------ the parser's report

  /** The parser reports what a program deserves, with the parts of heads that run once counted as
      the place before the loop, just when no function literal stands in such a part that has no
      loop of the same function around it. */
  lemma {:induction false} HeadCountsAsLoop(ts: seq<Token>, ss: seq<Stmt>)
    requires |ts| == |PrintAll(ss)| && IsNeat(ts) && forall i :: 0 <= i < |ts| ==> ts[i].kind == PrintAll(ss)[i]
    ensures var r := Statements(Going(ts, End, []), OUTSIDE);
            r.Going? && (r.ws == ReportAll(ss, [], 0, RunOnce) <==> ClearAll(ss, false))
  {
    ProgramRead(ts, ss);
    AllThinner(ss, [], [], 0);
  }

  /** The shorter report is the longer one just when `same` holds. */
  ghost predicate Thinner(f: seq<Warning>, r: seq<Warning>, same: bool) {
    |f| <= |r| && (if same then f == r else |f| < |r|)
  }

  /** The parser takes p for where q is; `once` says that it sees a loop that is not there. */
  ghost predicate Seen(p: seq<Construct>, q: seq<Construct>, once: bool) {
    Encloses(p, true) == (once || Encloses(q, true)) && !(once && Encloses(q, true))
  }

  lemma {:induction false} PieceThinner(e: Piece, p: seq<Construct>, q: seq<Construct>, once: bool, tail: nat)
    requires Seen(p, q, once)
    ensures Thinner(ReportPiece(e, q, tail, RunOnce), ReportPiece(e, p, tail, InLoop), ClearPiece(e, once))
    decreases e
  {
    hide Encloses, ReportAll;
    if e.FunctionLiteral? {
      EnterConstruct(p);
      EnterConstruct(q);
      AllThinner(e.body, p + [FunctionBody], q + [FunctionBody], 1 + tail);
    }
  }

  lemma {:induction false} ExprThinner(e: Expr, p: seq<Construct>, q: seq<Construct>, once: bool, tail: nat)
    requires Seen(p, q, once)
    ensures Thinner(ReportExpr(e, q, tail, RunOnce), ReportExpr(e, p, tail, InLoop), ClearExpr(e, once))
    decreases e
  {
    hide Seen, ReportPiece, ClearPiece;
    match e
    case Last(p1) =>
      PieceThinner(p1, p, q, once, tail);
    case More(p1, rest) =>
      PieceThinner(p1, p, q, once, |PrintExpr(rest)| + tail);
      ExprThinner(rest, p, q, once, tail);
  }

  lemma {:induction false} ChainThinner(ch: Chain, p: seq<Construct>, q: seq<Construct>, once: bool, tail: nat)
    requires Seen(p, q, once)
    ensures Thinner(ReportChain(ch, q, tail, RunOnce), ReportChain(ch, p, tail, InLoop), ClearChain(ch, once))
    decreases ch
  {
    hide Seen, ReportExpr, ClearExpr;
    match ch
    case Single(e) =>
      ExprThinner(e, p, q, once, tail);
    case Assigned(e, rest) =>
      ExprThinner(e, p, q, once, 1 + |PrintChain(rest)| + tail);
      ChainThinner(rest, p, q, once, tail);
  }

  lemma {:induction false} ChainsThinner(chs: Chains, p: seq<Construct>, q: seq<Construct>, once: bool, tail: nat)
    requires Seen(p, q, once)
    ensures Thinner(ReportChains(chs, q, tail, RunOnce), ReportChains(chs, p, tail, InLoop), ClearChains(chs, once))
    decreases chs
  {
    hide Seen, ReportChain, ClearChain;
    match chs
    case OneChain(ch) =>
      ChainThinner(ch, p, q, once, tail);
    case MoreChains(ch, rest) =>
      ChainThinner(ch, p, q, once, 1 + |PrintChains(rest)| + tail);
      ChainsThinner(rest, p, q, once, tail);
  }

  lemma {:induction false} OptionThinner(e: Option<Expr>, p: seq<Construct>, q: seq<Construct>, once: bool, tail: nat)
    requires Seen(p, q, once)
    ensures Thinner(ReportOption(e, q, tail, RunOnce), ReportOption(e, p, tail, InLoop), ClearOption(e, once))
    decreases e
  {
    hide Seen, ReportExpr, ClearExpr;
    if e.Some? { ExprThinner(e.value, p, q, once, tail); }
  }

  lemma {:induction false} MoreThinner(ch: Option<Chain>, p: seq<Construct>, q: seq<Construct>, tail: nat)
    requires Seen(p, q, false)
    ensures Thinner(ReportMore(ch, q, tail, RunOnce), ReportMore(ch, p, tail, InLoop), ClearMore(ch))
    decreases ch
  {
    hide Seen, ReportChain, ClearChain;
    if ch.Some? { ChainThinner(ch.value, p, q, false, tail); }
  }

  lemma {:induction false} StepsThinner(chs: Option<Chains>, p: seq<Construct>, q: seq<Construct>, tail: nat)
    requires Seen(p, q, false)
    ensures Thinner(ReportSteps(chs, q, tail, RunOnce), ReportSteps(chs, p, tail, InLoop), ClearSteps(chs))
    decreases chs
  {
    hide Seen, ReportChains, ClearChains;
    if chs.Some? { ChainsThinner(chs.value, p, q, false, tail); }
  }

  lemma {:induction false} DeclsThinner(ds: Decls, p: seq<Construct>, q: seq<Construct>, once: bool, tail: nat)
    requires Seen(p, q, once)
    ensures Thinner(ReportDecls(ds, q, tail, RunOnce), ReportDecls(ds, p, tail, InLoop), ClearDecls(ds, once))
    decreases ds
  {
    hide Seen, ReportOption, ClearOption;
    match ds
    case OneVar(init) =>
      OptionThinner(init, p, q, once, tail);
    case MoreVars(init, rest) =>
      OptionThinner(init, p, q, once, 1 + |PrintDecls(rest)| + tail);
      DeclsThinner(rest, p, q, once, tail);
  }

  lemma {:induction false} ForInitThinner(init: ForInit, p: seq<Construct>, q: seq<Construct>, once: bool, tail: nat)
    requires Seen(p, q, once)
    ensures Thinner(ReportForInit(init, q, tail, RunOnce), ReportForInit(init, p, tail, InLoop),
                    ClearForInit(init, once))
    decreases init
  {
    hide Seen, ReportDecls, ReportChains, ClearDecls, ClearChains;
    match init
    case NoInit =>
    case VarInit(ds) => DeclsThinner(ds, p, q, once, tail);
    case ExprInit(chs) => ChainsThinner(chs, p, q, once, tail);
  }

  lemma SeenAlike(p: seq<Construct>, q: seq<Construct>)
    requires ContextOf(p) == ContextOf(q)
    ensures Seen(p, q, false)
  {
  }

  /** At a head, the parser sees a loop; one is there if one was around already. */
  lemma SeenAtHead(p: seq<Construct>, q: seq<Construct>)
    requires ContextOf(p) == ContextOf(q)
    ensures Seen(p + [LoopBody], q, !Encloses(q, true))
  {
    EnterConstruct(p);
  }

  lemma {:induction false} AllThinner(ss: seq<Stmt>, p: seq<Construct>, q: seq<Construct>, tail: nat)
    requires ContextOf(p) == ContextOf(q)
    ensures Thinner(ReportAll(ss, q, tail, RunOnce), ReportAll(ss, p, tail, InLoop), ClearAll(ss, Encloses(q, true)))
    decreases ss
  {
    hide Encloses, ContextOf, Report, Clear;
    if ss != [] {
      StmtThinner(ss[0], p, q, |PrintAll(ss[1..])| + tail);
      AllThinner(ss[1..], p, q, tail);
    }
  }

  lemma {:induction false} StmtThinner(st: Stmt, p: seq<Construct>, q: seq<Construct>, tail: nat)
    requires ContextOf(p) == ContextOf(q)
    ensures Thinner(Report(st, q, tail, RunOnce), Report(st, p, tail, InLoop), Clear(st, Encloses(q, true)))
    decreases st
  {
    hide Encloses, ContextOf, ReportBare, ClearBare;
    BareThinner(st.b, p, q, tail);
  }

  lemma {:induction false} ClausesThinner(cs: seq<Clause>, p: seq<Construct>, q: seq<Construct>, tail: nat)
    requires ContextOf(p) == ContextOf(q)
    ensures Thinner(ReportClauses(cs, q, tail, RunOnce), ReportClauses(cs, p, tail, InLoop),
                    ClearClauses(cs, Encloses(q, true)))
    decreases cs
  {
    SeenAlike(p, q);
    hide Seen, Encloses, ContextOf, ReportExpr, ReportAll, ClearExpr, ClearAll;
    if cs != [] {
      var after := |PrintClauses(cs[1..])| + tail;
      if cs[0].CaseClause? {
        ExprThinner(cs[0].e, p, q, false, 1 + |PrintAll(cs[0].body)| + after);
      }
      AllThinner(cs[0].body, p, q, after);
      ClausesThinner(cs[1..], p, q, tail);
    }
  }

  lemma {:induction false} ElseThinner(els: ElsePart, p: seq<Construct>, q: seq<Construct>, tail: nat)
    requires ContextOf(p) == ContextOf(q)
    ensures Thinner(ReportElse(els, q, tail, RunOnce), ReportElse(els, p, tail, InLoop),
                    ClearElse(els, Encloses(q, true)))
    decreases els
  {
    hide Encloses, ContextOf, ReportAll, ReportBare, ClearAll, ClearBare;
    match els
    case NoElse =>
    case ElseBlock(body) => AllThinner(body, p, q, 1 + tail);
    case ElseStmt(b) => BareThinner(b, p, q, tail);
  }

  lemma {:induction false} RescueThinner(r: Rescue, p: seq<Construct>, q: seq<Construct>, tail: nat)
    requires ContextOf(p) == ContextOf(q)
    ensures Thinner(ReportRescue(r, q, tail, RunOnce), ReportRescue(r, p, tail, InLoop),
                    ClearRescue(r, Encloses(q, true)))
    decreases r
  {
    hide Encloses, ContextOf, ReportAll, ClearAll;
    match r
    case CatchOnly(h) => AllThinner(h, p, q, 1 + tail);
    case FinallyOnly(f) => AllThinner(f, p, q, 1 + tail);
    case CatchFinally(h, f) =>
      AllThinner(h, p, q, 2 + |PrintBlock(f)| + tail);
      AllThinner(f, p, q, 1 + tail);
  }

  lemma {:induction false} BareThinner(b: Bare, p: seq<Construct>, q: seq<Construct>, tail: nat)
    requires ContextOf(p) == ContextOf(q)
    ensures Thinner(ReportBare(b, q, tail, RunOnce), ReportBare(b, p, tail, InLoop), ClearBare(b, Encloses(q, true)))
    decreases b, 1
  {
    SeenAlike(p, q);
    EnterConstruct(p);
    EnterConstruct(q);
    hide Encloses, Seen, ReportExpr, ReportAll, ReportOption, ReportMore, ReportDecls, ReportElse, ReportClauses,
         ReportRescue, ClearExpr, ClearAll, ClearOption, ClearMore, ClearDecls, ClearElse, ClearClauses, ClearRescue;
    match b
    case ExprStmt(_, rest, more) =>
      OptionThinner(rest, p, q, false, |PrintMore(more)| + 1 + tail);
      MoreThinner(more, p, q, 1 + tail);
    case VarStmt(ds) =>
      DeclsThinner(ds, p, q, false, 1 + tail);
    case IfStmt(_, _, _) => IfThinner(b, p, q, tail);
    case WhileStmt(_, _) => LoopThinner(b, p, q, tail);
    case DoStmt(_, _) => LoopThinner(b, p, q, tail);
    case ForStmt(_, _, _, _) => ForThinner(b, p, q, tail);
    case ForInStmt(_, _, _) => LoopThinner(b, p, q, tail);
    case SwitchStmt(_, _) => SwitchThinner(b, p, q, tail);
    case BreakStmt(_) =>
    case ContinueStmt(_) =>
    case ReturnStmt(result) =>
      OptionThinner(result, p, q, false, 1 + tail);
    case ThrowStmt(e) =>
      ExprThinner(e, p, q, false, 1 + tail);
    case TryStmt(body, rescue) =>
      AllThinner(body, p, q, 1 + |PrintRescue(rescue)| + tail);
      RescueThinner(rescue, p, q, tail);
    case FunctionStmt(_, body) =>
      AllThinner(body, p + [FunctionBody], q + [FunctionBody], 1 + tail);
  }

  lemma {:induction false} IfThinner(b: Bare, p: seq<Construct>, q: seq<Construct>, tail: nat)
    requires ContextOf(p) == ContextOf(q) && b.IfStmt?
    ensures Thinner(ReportBare(b, q, tail, RunOnce), ReportBare(b, p, tail, InLoop), ClearBare(b, Encloses(q, true)))
    decreases b, 0
  {
    SeenAlike(p, q);
    hide Encloses, Seen, ReportExpr, ReportAll, ReportElse, ClearExpr, ClearAll, ClearElse;
    ExprThinner(b.cond, p, q, false, 1 + |PrintBlock(b.body)| + |PrintElse(b.els)| + tail);
    AllThinner(b.body, p, q, 1 + |PrintElse(b.els)| + tail);
    ElseThinner(b.els, p, q, tail);
  }

  lemma {:induction false} LoopThinner(b: Bare, p: seq<Construct>, q: seq<Construct>, tail: nat)
    requires ContextOf(p) == ContextOf(q) && (b.WhileStmt? || b.DoStmt? || b.ForInStmt?)
    ensures Thinner(ReportBare(b, q, tail, RunOnce), ReportBare(b, p, tail, InLoop), ClearBare(b, Encloses(q, true)))
    decreases b, 0
  {
    SeenAtHead(p, q);
    EnterConstruct(p);
    EnterConstruct(q);
    var r, s := p + [LoopBody], q + [LoopBody];
    SeenAlike(r, s);
    hide Encloses, Seen, ReportExpr, ReportAll, ClearExpr, ClearAll;
    match b
    case WhileStmt(cond, body) =>
      ExprThinner(cond, r, s, false, 1 + |PrintBlock(body)| + tail);
      AllThinner(body, r, s, 1 + tail);
    case DoStmt(body, cond) =>
      AllThinner(body, r, s, 3 + |PrintCondition(cond)| + tail);
      ExprThinner(cond, r, s, false, 2 + tail);
    case ForInStmt(_, e, body) =>
      ExprThinner(e, r, q, !Encloses(q, true), 1 + |PrintBlock(body)| + tail);
      AllThinner(body, r, s, 1 + tail);
  }

  lemma {:induction false} ForThinner(b: Bare, p: seq<Construct>, q: seq<Construct>, tail: nat)
    requires ContextOf(p) == ContextOf(q) && b.ForStmt?
    ensures Thinner(ReportBare(b, q, tail, RunOnce), ReportBare(b, p, tail, InLoop), ClearBare(b, Encloses(q, true)))
    decreases b, 0
  {
    SeenAtHead(p, q);
    EnterConstruct(p);
    EnterConstruct(q);
    var r, s := p + [LoopBody], q + [LoopBody];
    SeenAlike(r, s);
    hide Encloses, Seen, ReportForInit, ReportOption, ReportSteps, ReportAll, ClearForInit, ClearOption, ClearSteps,
         ClearAll;
    var tail3 := 1 + |PrintBlock(b.body)| + tail;
    var tail2 := 1 + |PrintSteps(b.step)| + tail3;
    var tail1 := 1 + |PrintOption(b.test)| + tail2;
    ForInitThinner(b.init, r, q, !Encloses(q, true), tail1);
    OptionThinner(b.test, r, s, false, tail2);
    StepsThinner(b.step, r, s, tail3);
    AllThinner(b.body, r, s, 1 + tail);
  }

  lemma {:induction false} SwitchThinner(b: Bare, p: seq<Construct>, q: seq<Construct>, tail: nat)
    requires ContextOf(p) == ContextOf(q) && b.SwitchStmt?
    ensures Thinner(ReportBare(b, q, tail, RunOnce), ReportBare(b, p, tail, InLoop), ClearBare(b, Encloses(q, true)))
    decreases b, 0
  {
    EnterConstruct(p);
    EnterConstruct(q);
    var r, s := p + [SwitchBody], q + [SwitchBody];
    SeenAlike(r, s);
    hide Encloses, Seen, ReportExpr, ReportClauses, ClearExpr, ClearClauses;
    ExprThinner(b.cond, r, s, false, 2 + |PrintClauses(b.clauses)| + tail);
    ClausesThinner(b.clauses, r, s, tail);
  }
}
