/** The operator precedence parser for expressions: binding powers, null and left denotations, the
    parser state that every method advances, and a printer that the parser undoes. */
module PrattParser {
  import opened Wrappers

  datatype InfixOp =
    | Or | And | BitOr | BitXor | BitAnd
    | Equal | StrictEqual | NotEqual | StrictNotEqual | Less | Greater | LessEqual | GreaterEqual
    | ShiftLeft | ShiftRight | ShiftRightUnsigned | In | InstanceOf
    | Plus | Minus | Times | Divide | Modulo

  datatype AssignOp = Assign | PlusAssign | MinusAssign | TimesAssign | DivideAssign | ModuloAssign

  datatype PrefixOp = Positive | Negative | Not | TypeOf | PreIncrement | PreDecrement

  /** The last token, '(end)', is not in the list: it is what follows an empty rest. */
  datatype Token =
    | Number(value: string) | Text(value: string)
    | Identifier(value: string) | Reserved(value: string)   // Reserved: this, true, null, ...
    | Infix(op: InfixOp) | Assignment(assign: AssignOp)
    | Bang | TypeOfWord | Increment | Decrement
    | Question | Colon | Dot | Comma
    | LeftParen | RightParen | LeftBracket | RightBracket
    | Other(id: string)                                     // no power, no denotation

  function InfixPower(op: InfixOp): (p: nat)
    ensures 40 <= p <= 140
  {
    match op
    case Or => 40
    case And => 50
    case BitOr => 70
    case BitXor => 80
    case BitAnd => 90
    case Equal | StrictEqual | NotEqual | StrictNotEqual | Less | Greater | LessEqual | GreaterEqual => 100
    case ShiftLeft | ShiftRight | ShiftRightUnsigned | In | InstanceOf => 120
    case Plus | Minus => 130
    case Times | Divide | Modulo => 140
  }

  /** Left binding power. */
  function Lbp(t: Token): nat {
    match t
    case Infix(op) => InfixPower(op)
    case Assignment(_) => 20
    case Question => 30
    case Bang | TypeOfWord | Increment | Decrement => 150
    case LeftParen => 155
    case Dot | LeftBracket => 160
    case _ => 0
  }

  /** Left binding power of the next token. */
  function NextLbp(ts: seq<Token>): nat { if ts == [] then 0 else Lbp(ts[0]) }

  datatype Node =
    | Num(value: string) | Str(value: string) | Name(value: string) | Word(value: string)
    | Binary(op: InfixOp, left: Node, right: Node)
    | Assigned(assign: AssignOp, left: Node, right: Node)
    | Conditional(left: Node, right: Node, otherwise: Node)
    | Unary(prefix: PrefixOp, right: Node)
    | Postfix(increment: bool, left: Node)
    | Member(left: Node, name: string)
    | Index(left: Node, key: Node)
    | Call(left: Node, args: seq<Node>)
    | ArrayLiteral(first: seq<Node>)

  function PrefixToken(op: PrefixOp): Token {
    match op
    case Positive => Infix(Plus)
    case Negative => Infix(Minus)
    case Not => Bang
    case TypeOf => TypeOfWord
    case PreIncrement => Increment
    case PreDecrement => Decrement
  }

  /** The prefix operators among the tokens. */
  function AsPrefix(t: Token): Option<PrefixOp> {
    match t
    case Infix(op) => if op == Plus then Some(Positive) else if op == Minus then Some(Negative) else None
    case Bang => Some(Not)
    case TypeOfWord => Some(TypeOf)
    case Increment => Some(PreIncrement)
    case Decrement => Some(PreDecrement)
    case _ => None
  }

  function AsLeaf(t: Token): Option<Node> {
    match t
    case Number(v) => Some(Num(v))
    case Text(v) => Some(Str(v))
    case Identifier(v) => Some(Name(v))
    case Reserved(v) => Some(Word(v))
    case _ => None
  }

  /** The name a token gives after a dot: any word will do, reserved or not. */
  function AsName(t: Token): Option<string> {
    match t
    case Identifier(v) => Some(v)
    case Reserved(v) => Some(v)
    case TypeOfWord => Some("typeof")
    case Infix(op) => if op == In then Some("in") else if op == InstanceOf then Some("instanceof") else None
    case Other(id) => if IsWord(id) then Some(id) else None
    case _ => None
  }

  /** The tokens that the lexer takes for identifiers, statement keywords included. */
  predicate IsWord(id: string) {
    id != "" && ('a' <= id[0] <= 'z' || 'A' <= id[0] <= 'Z' || id[0] == '_' || id[0] == '$')
  }

  /** What may stand to the left of an assignment: a node made by '.' or '[' or a plain name. */
  predicate IsTarget(n: Node) { n.Member? || n.Index? || n.ArrayLiteral? || n.Name? }

  /** '+' of two string literals is folded into one. */
  function MakeBinary(op: InfixOp, l: Node, r: Node): Node {
    if op == Plus && l.Str? && r.Str? then Str(l.value + r.value) else Binary(op, l, r)
  }

  // ------------------------------------------------------- the parser as functions on the rest

  /** Failure is the error that stops everything.  A warning (a delimiter that is not there, an
      extra comma) does not stop the parser. */
  datatype Out<+T> = Fail | Out(node: T, rest: seq<Token>, warnings: nat)

  function Skip(ts: seq<Token>): seq<Token> { if ts == [] then [] else ts[1..] }

  /** advance(id): takes the next token whatever it is, and warns when it is another one. */
  function Missing(t: Token, ts: seq<Token>): nat { if ts != [] && ts[0] == t then 0 else 1 }

  function Parse(rbp: nat, ts: seq<Token>): (r: Out<Node>)
    ensures r.Out? ==> |r.rest| < |ts|
    decreases |ts|, 4
  {
    if ts == [] then Fail
    else if ts[0].Dot? && |ts| > 1 && ts[1].Number? then
      Out(Num(ts[1].value), ts[2..], 1)    // a leading decimal point; the operator loop is skipped
    else
      var n := Nud(ts[0], ts[1..]);
      if n.Fail? then Fail
      else
        var r := Loop(rbp, n.node, n.rest);
        if r.Fail? then Fail else r.(warnings := n.warnings + r.warnings)
  }

  function Nud(t: Token, ts: seq<Token>): (r: Out<Node>)
    ensures r.Out? ==> |r.rest| <= |ts|
    decreases |ts|, 6
  {
    if AsLeaf(t).Some? then Out(AsLeaf(t).value, ts, 0)
    else if AsPrefix(t).Some? then
      var r := Parse(150, ts);
      if r.Fail? then Fail else r.(node := Unary(AsPrefix(t).value, r.node))
    else if t == LeftParen then
      var r := Parse(0, ts);
      if r.Fail? then Fail
      else Out(r.node, Skip(r.rest), r.warnings + Missing(RightParen, r.rest))
    else if t == LeftBracket then
      var r := Elements(ts);
      if r.Fail? then Fail
      else Out(ArrayLiteral(r.node), Skip(r.rest), r.warnings + Missing(RightBracket, r.rest))
    else Fail
  }

  function Loop(rbp: nat, left: Node, ts: seq<Token>): (r: Out<Node>)
    ensures r.Out? ==> |r.rest| <= |ts|
    decreases |ts|, 2
  {
    if NextLbp(ts) <= rbp then Out(left, ts, 0)
    else
      var n := Led(ts[0], left, ts[1..]);
      if n.Fail? then Fail
      else
        var r := Loop(rbp, n.node, n.rest);
        if r.Fail? then Fail else r.(warnings := n.warnings + r.warnings)
  }

  function Led(t: Token, left: Node, ts: seq<Token>): (r: Out<Node>)
    ensures r.Out? ==> |r.rest| <= |ts|
    decreases |ts|, 6
  {
    match t
    case Infix(op) =>
      var r := Parse(InfixPower(op), ts);
      if r.Fail? then Fail else r.(node := MakeBinary(op, left, r.node))
    case Assignment(op) =>
      if !IsTarget(left) then Fail
      else
        var r := Parse(19, ts);
        if r.Fail? then Fail
        else r.(node := Assigned(op, left, r.node))
    case Question =>
      var yes := Parse(10, ts);
      if yes.Fail? then Fail
      else
        var no := Parse(10, Skip(yes.rest));
        if no.Fail? then Fail
        else Out(Conditional(left, yes.node, no.node), no.rest,
                 yes.warnings + Missing(Colon, yes.rest) + no.warnings)
    case Increment => Out(Postfix(true, left), ts, 0)
    case Decrement => Out(Postfix(false, left), ts, 0)
    case Dot =>
      if ts == [] || AsName(ts[0]).None? then Fail
      else Out(Member(left, AsName(ts[0]).value), ts[1..], 0)
    case LeftParen =>
      var r := if ts != [] && ts[0] == RightParen then Out([], ts, 0) else Arguments(ts);
      if r.Fail? then Fail
      else Out(Call(left, []), Skip(r.rest), r.warnings + Missing(RightParen, r.rest))
    case LeftBracket =>
      var r := Parse(0, ts);
      if r.Fail? then Fail
      else Out(Index(left, r.node), Skip(r.rest), r.warnings + Missing(RightBracket, r.rest))
    case _ => Fail
  }

  /** One or more arguments; they are parsed but not kept in the tree. */
  function Arguments(ts: seq<Token>): (r: Out<seq<Node>>)
    ensures r.Out? ==> |r.rest| < |ts|
    decreases |ts|, 5
  {
    var a := Parse(10, ts);
    if a.Fail? then Fail
    else if a.rest == [] || a.rest[0] != Comma then Out([a.node], a.rest, a.warnings)
    else
      var r := Arguments(a.rest[1..]);
      if r.Fail? then Fail else Out([a.node] + r.node, r.rest, a.warnings + r.warnings)
  }

  function Commas(ts: seq<Token>): (n: nat)
    ensures n <= |ts|
  {
    if ts != [] && ts[0] == Comma then 1 + Commas(ts[1..]) else 0
  }

  /** The elements of an array literal; extra commas are warned about and dropped. */
  function Elements(ts: seq<Token>): (r: Out<seq<Node>>)
    ensures r.Out? ==> |r.rest| <= |ts|
    decreases |ts|, 5
  {
    var extra := Commas(ts);
    var ts' := ts[extra..];
    if ts == [] then Out([], ts, 0)
    else if ts' != [] && ts'[0] == RightBracket then Out([], ts', extra)
    else
      var a := Parse(10, ts');
      if a.Fail? then Fail
      else if a.rest == [] || a.rest[0] != Comma then Out([a.node], a.rest, extra + a.warnings)
      else if |a.rest| > 1 && a.rest[1] == RightBracket then Out([a.node], a.rest[1..], extra + a.warnings + 1)
      else
        var r := Elements(a.rest[1..]);
        if r.Fail? then Fail else Out([a.node] + r.node, r.rest, extra + a.warnings + r.warnings)
  }

  // ------------------------------------------------------- the printer

  const UNBOUND := 1000   // above every power

  function Min(a: nat, b: nat): nat { if a < b then a else b }

  /** A left operand of power p stands without parentheses when no operator inside it would take
      the following one for its own; a right operand parsed at power q when its operators are
      stronger than q. */
  predicate BareLeft(p: nat, n: Node)
    decreases n, 1
  {
    Trail(n) >= p
  }

  predicate BareRight(q: nat, n: Node)
    decreases n, 1
  {
    Lead(n) > q
  }

  /** The least left binding power among the operators on the open left side. */
  function Lead(n: Node): nat
    decreases n, 0
  {
    match n
    case Binary(op, l, _) => LeadLeft(InfixPower(op), l)
    case Assigned(_, l, _) => LeadLeft(20, l)
    case Conditional(l, _, _) => LeadLeft(30, l)
    case Postfix(_, l) => LeadLeft(150, l)
    case Member(l, _) => LeadLeft(160, l)
    case Index(l, _) => LeadLeft(160, l)
    case Call(l, _) => LeadLeft(155, l)
    case _ => UNBOUND
  }

  function LeadLeft(p: nat, l: Node): nat
    decreases l, 2
  {
    if BareLeft(p, l) then Min(p, Lead(l)) else p
  }

  /** The least right binding power still open at the end. */
  function Trail(n: Node): nat
    decreases n, 0
  {
    match n
    case Binary(op, _, r) => TrailRight(InfixPower(op), r)
    case Assigned(_, _, r) => TrailRight(19, r)
    case Conditional(_, _, r) => TrailRight(10, r)
    case Unary(_, r) => TrailRight(150, r)
    case _ => UNBOUND
  }

  function TrailRight(q: nat, r: Node): nat
    decreases r, 2
  {
    if BareRight(q, r) then Min(q, Trail(r)) else q
  }

  function Parens(ts: seq<Token>): seq<Token> { [LeftParen] + ts + [RightParen] }

  function PrintLeft(p: nat, n: Node): seq<Token>
    decreases n, 1
  {
    if BareLeft(p, n) then Print(n) else Parens(Print(n))
  }

  function PrintRight(q: nat, n: Node): seq<Token>
    decreases n, 1
  {
    if BareRight(q, n) then Print(n) else Parens(Print(n))
  }

  function Print(n: Node): seq<Token>
    decreases n, 0
  {
    match n
    case Num(v) => [Number(v)]
    case Str(v) => [Text(v)]
    case Name(v) => [Identifier(v)]
    case Word(v) => [Reserved(v)]
    case Binary(op, l, r) => PrintLeft(InfixPower(op), l) + ([Infix(op)] + PrintRight(InfixPower(op), r))
    case Assigned(op, l, r) => PrintLeft(20, l) + ([Assignment(op)] + PrintRight(19, r))
    case Conditional(c, y, n) =>
      PrintLeft(30, c) + ([Question] + PrintRight(10, y) + [Colon] + PrintRight(10, n))
    case Unary(op, r) => [PrefixToken(op)] + PrintRight(150, r)
    case Postfix(inc, l) => PrintLeft(150, l) + [PostfixToken(inc)]
    case Member(l, name) => PrintLeft(160, l) + [Dot, Identifier(name)]
    case Index(l, k) => PrintLeft(160, l) + ([LeftBracket] + PrintRight(0, k) + [RightBracket])
    case Call(l, args) => PrintLeft(155, l) + ([LeftParen] + PrintList(args) + [RightParen])
    case ArrayLiteral(es) => [LeftBracket] + PrintList(es) + [RightBracket]
  }

  function PrintList(ns: seq<Node>): seq<Token>
    decreases ns, 0
  {
    if ns == [] then []
    else if |ns| == 1 then PrintRight(10, ns[0])
    else PrintRight(10, ns[0]) + ([Comma] + PrintList(ns[1..]))
  }

  /** What the parser keeps of a tree: string literals joined by '+' become one, and the arguments
      of a call are dropped. */
  function Recorded(n: Node): Node
    decreases n, 0
  {
    match n
    case Binary(op, l, r) => MakeBinary(op, Recorded(l), Recorded(r))
    case Assigned(op, l, r) => Assigned(op, Recorded(l), Recorded(r))
    case Conditional(c, y, n) => Conditional(Recorded(c), Recorded(y), Recorded(n))
    case Unary(op, r) => Unary(op, Recorded(r))
    case Postfix(inc, l) => Postfix(inc, Recorded(l))
    case Member(l, name) => Member(Recorded(l), name)
    case Index(l, k) => Index(Recorded(l), Recorded(k))
    case Call(l, args) => Call(Recorded(l), [])
    case ArrayLiteral(es) => ArrayLiteral(RecordedList(es))
    case _ => n
  }

  function RecordedList(ns: seq<Node>): (r: seq<Node>)
    ensures |r| == |ns|
    decreases ns, 0
  {
    if ns == [] then [] else [Recorded(ns[0])] + RecordedList(ns[1..])
  }

  /** Every assignment in the tree, also among dropped arguments, has a proper target. */
  predicate TargetsOk(n: Node)
    decreases n, 0
  {
    match n
    case Binary(_, l, r) => TargetsOk(l) && TargetsOk(r)
    case Assigned(_, l, r) => IsTarget(l) && TargetsOk(l) && TargetsOk(r)
    case Conditional(c, y, n) => TargetsOk(c) && TargetsOk(y) && TargetsOk(n)
    case Unary(_, r) => TargetsOk(r)
    case Postfix(_, l) => TargetsOk(l)
    case Member(l, _) => TargetsOk(l)
    case Index(l, k) => TargetsOk(l) && TargetsOk(k)
    case Call(l, args) => TargetsOk(l) && TargetsOkList(args)
    case ArrayLiteral(es) => TargetsOkList(es)
    case _ => true
  }

  predicate TargetsOkList(ns: seq<Node>)
    decreases ns, 0
  {
    ns == [] || (TargetsOk(ns[0]) && TargetsOkList(ns[1..]))
  }

  // ------------------------------------------------------- the parser undoes the printer

  /** A printed tree begins with a token that has a null denotation. */
  predicate Begins(t: Token) {
    AsLeaf(t).Some? || AsPrefix(t).Some? || t == LeftParen || t == LeftBracket
  }

  lemma {:induction false} PrintBegins(n: Node)
    ensures Print(n) != [] && Begins(Print(n)[0])
    ensures Lead(n) > 0
    decreases n
  {
    match n
    case Binary(op, l, r) => PrintBegins(l);
    case Assigned(op, l, r) => PrintBegins(l);
    case Conditional(l, y, r) => PrintBegins(l);
    case Unary(op, r) =>
    case Postfix(inc, l) => PrintBegins(l);
    case Member(l, name) => PrintBegins(l);
    case Index(l, k) => PrintBegins(l);
    case Call(l, args) => PrintBegins(l);
    case _ =>
  }

  /** Starting at ts the parser reaches the end of the tree n, with rest still to come. */
  ghost predicate Reaches(q: nat, ts: seq<Token>, n: Node, rest: seq<Token>) {
    Parse(q, ts) == if TargetsOk(n) then Loop(q, Recorded(n), rest) else Fail
  }

  /** It reads the tree n and stops in front of rest. */
  ghost predicate Reads(q: nat, ts: seq<Token>, n: Node, rest: seq<Token>) {
    Parse(q, ts) == if TargetsOk(n) then Out(Recorded(n), rest, 0) else Fail
  }

  /** One round of the operator loop. */
  lemma LoopStep(q: nat, left: Node, ts: seq<Token>, node: Node, rest: seq<Token>)
    requires NextLbp(ts) > q && Led(ts[0], left, ts[1..]) == Out(node, rest, 0)
    ensures Loop(q, left, ts) == Loop(q, node, rest)
  {
    hide Led;
  }

  lemma LoopFails(q: nat, left: Node, ts: seq<Token>)
    requires NextLbp(ts) > q && Led(ts[0], left, ts[1..]).Fail?
    ensures Loop(q, left, ts).Fail?
  {
    hide Led;
  }

  /** A null denotation, then the operator loop. */
  lemma ParseStep(q: nat, ts: seq<Token>, node: Node, rest: seq<Token>)
    requires ts != [] && !ts[0].Dot? && Nud(ts[0], ts[1..]) == Out(node, rest, 0)
    ensures Parse(q, ts) == Loop(q, node, rest)
  {
    hide Nud, Loop;
  }

  lemma ParseFails(q: nat, ts: seq<Token>)
    requires ts != [] && !ts[0].Dot? && Nud(ts[0], ts[1..]).Fail?
    ensures Parse(q, ts).Fail?
  {
    hide Nud;
  }

  /** A parenthesized tree is an operand at any power. */
  lemma ParensRead(q: nat, n: Node, rest: seq<Token>)
    requires Reads(0, Print(n) + ([RightParen] + rest), n, [RightParen] + rest)
    ensures Reaches(q, Parens(Print(n)) + rest, n, rest)
  {
    hide Loop, Parse, Print, Recorded, TargetsOk;
    var ts := Parens(Print(n)) + rest;
    assert ts[0] == LeftParen && ts[1..] == Print(n) + ([RightParen] + rest);
    assert ([RightParen] + rest)[1..] == rest;
    if TargetsOk(n) {
      ParseStep(q, ts, Recorded(n), rest);
    } else {
      ParseFails(q, ts);
    }
  }

  lemma StopHere(q: nat, left: Node, rest: seq<Token>)
    requires NextLbp(rest) <= q
    ensures Loop(q, left, rest) == Out(left, rest, 0)
  {
  }

  lemma {:induction false} ReadRight(q: nat, n: Node, rest: seq<Token>)
    requires NextLbp(rest) <= q && (BareRight(q, n) ==> NextLbp(rest) <= Trail(n))
    ensures Reads(q, PrintRight(q, n) + rest, n, rest)
    decreases n, 2
  {
    hide Loop, Parse, Print, Recorded, TargetsOk, Lead, Trail;
    StopHere(q, Recorded(n), rest);
    if BareRight(q, n) {
      Spine(q, n, rest);
    } else {
      Whole(n, [RightParen] + rest);
      ParensRead(q, n, rest);
    }
  }

  /** At power 0, followed by a delimiter. */
  lemma {:induction false} Whole(n: Node, rest: seq<Token>)
    requires NextLbp(rest) == 0
    ensures Reads(0, Print(n) + rest, n, rest)
    decreases n, 1
  {
    hide Loop, Parse, Print, Recorded, TargetsOk;
    PrintBegins(n);
    StopHere(0, Recorded(n), rest);
    Spine(0, n, rest);
  }

  lemma {:induction false} ReadLeft(q: nat, p: nat, n: Node, rest: seq<Token>)
    requires NextLbp(rest) == p && q < LeadLeft(p, n)
    ensures Reaches(q, PrintLeft(p, n) + rest, n, rest)
    decreases n, 2
  {
    hide Loop, Parse, Print, Recorded, TargetsOk;
    if BareLeft(p, n) {
      Spine(q, n, rest);
    } else {
      Whole(n, [RightParen] + rest);
      ParensRead(q, n, rest);
    }
  }

  lemma {:induction false} Spine(q: nat, n: Node, rest: seq<Token>)
    requires q < Lead(n) && NextLbp(rest) <= Trail(n)
    ensures Reaches(q, Print(n) + rest, n, rest)
    decreases n, 0
  {
    hide Loop, Parse, Print, Recorded, TargetsOk, InfixPower, Reaches, Reads;
    match n
    case Num(_) => SpineLeaf(q, n, rest);
    case Str(_) => SpineLeaf(q, n, rest);
    case Name(_) => SpineLeaf(q, n, rest);
    case Word(_) => SpineLeaf(q, n, rest);
    case Binary(op, l, r) =>
      var p := InfixPower(op);
      ReadLeft(q, p, l, [Infix(op)] + PrintRight(p, r) + rest);
      ReadRight(p, r, rest);
      SpineBinary(q, n, rest);
    case Assigned(op, l, r) =>
      ReadLeft(q, 20, l, [Assignment(op)] + PrintRight(19, r) + rest);
      ReadRight(19, r, rest);
      SpineAssigned(q, n, rest);
    case Conditional(c, y, o) =>
      ReadLeft(q, 30, c, [Question] + PrintRight(10, y) + [Colon] + PrintRight(10, o) + rest);
      ReadRight(10, y, [Colon] + PrintRight(10, o) + rest);
      ReadRight(10, o, rest);
      SpineConditional(q, n, rest);
    case Unary(op, r) =>
      ReadRight(150, r, rest);
      SpineUnary(q, n, rest);
    case Postfix(inc, l) =>
      ReadLeft(q, 150, l, [PostfixToken(inc)] + rest);
      SpinePostfix(q, n, rest);
    case Member(l, name) =>
      ReadLeft(q, 160, l, [Dot, Identifier(name)] + rest);
      SpineMember(q, n, rest);
    case Index(l, k) =>
      ReadLeft(q, 160, l, [LeftBracket] + PrintRight(0, k) + [RightBracket] + rest);
      ReadRight(0, k, [RightBracket] + rest);
      SpineIndex(q, n, rest);
    case Call(l, args) =>
      ReadLeft(q, 155, l, [LeftParen] + PrintList(args) + [RightParen] + rest);
      if args != [] { ReadArguments(args, [RightParen] + rest); }
      SpineCall(q, n, rest);
    case ArrayLiteral(es) =>
      ReadElements(es, [RightBracket] + rest);
      SpineArray(q, n, rest);
  }

  /** The arguments between the parentheses of a call. */
  lemma {:induction false} ReadArguments(ns: seq<Node>, rest: seq<Token>)
    requires ns != [] && rest != [] && rest[0] == RightParen
    ensures Arguments(PrintList(ns) + rest)
         == if TargetsOkList(ns) then Out(RecordedList(ns), rest, 0) else Fail
    ensures PrintList(ns) != [] && PrintList(ns)[0] != RightParen
    decreases ns, 0
  {
    hide Parse, Print, Recorded, TargetsOk, Trail, Lead;
    var tail := if |ns| == 1 then rest else [Comma] + (PrintList(ns[1..]) + rest);
    assert PrintList(ns) + rest == PrintRight(10, ns[0]) + tail;
    ReadRight(10, ns[0], tail);
    RightBegins(10, ns[0]);
    if |ns| == 1 {
      assert ns[1..] == [] && TargetsOkList(ns[1..]) && RecordedList(ns) == [Recorded(ns[0])];
    } else {
      assert tail[1..] == PrintList(ns[1..]) + rest;
      ReadArguments(ns[1..], rest);
    }
  }

  /** The elements between the brackets of an array literal. */
  lemma {:induction false} ReadElements(ns: seq<Node>, rest: seq<Token>)
    requires rest != [] && rest[0] == RightBracket
    ensures Elements(PrintList(ns) + rest)
         == if TargetsOkList(ns) then Out(RecordedList(ns), rest, 0) else Fail
    ensures ns != [] ==> PrintList(ns) != [] && PrintList(ns)[0] != RightBracket
    decreases ns, 0
  {
    hide Parse, Print, Recorded, TargetsOk, Trail, Lead;
    var ts := PrintList(ns) + rest;
    if ns == [] {
      assert ts == rest;
    } else {
      var tail := if |ns| == 1 then rest else [Comma] + (PrintList(ns[1..]) + rest);
      assert ts == PrintRight(10, ns[0]) + tail;
      ReadRight(10, ns[0], tail);
      RightBegins(10, ns[0]);
      assert Commas(ts) == 0 && ts[0..] == ts;
      if |ns| == 1 {
        assert ns[1..] == [] && TargetsOkList(ns[1..]) && RecordedList(ns) == [Recorded(ns[0])];
      } else {
        assert tail[1..] == PrintList(ns[1..]) + rest;
        ReadElements(ns[1..], rest);
        assert PrintList(ns[1..])[0] == (PrintList(ns[1..]) + rest)[0] == tail[1];
      }
    }
  }

  lemma RightBegins(q: nat, n: Node)
    ensures PrintRight(q, n) != [] && Begins(PrintRight(q, n)[0])
  {
    PrintBegins(n);
  }

  function PostfixToken(increment: bool): Token { if increment then Increment else Decrement }

  lemma SpineLeaf(q: nat, n: Node, rest: seq<Token>)
    requires n.Num? || n.Str? || n.Name? || n.Word?
    ensures Reaches(q, Print(n) + rest, n, rest)
  {
    hide Loop, Parse;
    assert (Print(n) + rest)[0] == Print(n)[0] && (Print(n) + rest)[1..] == rest;
    ParseStep(q, Print(n) + rest, n, rest);
  }

  lemma SpineAssigned(q: nat, n: Node, rest: seq<Token>)
    requires n.Assigned? && q < 20
    requires var ts := [Assignment(n.assign)] + PrintRight(19, n.right) + rest;
             && Reaches(q, PrintLeft(20, n.left) + ts, n.left, ts)
             && Reads(19, PrintRight(19, n.right) + rest, n.right, rest)
    ensures Reaches(q, Print(n) + rest, n, rest)
  {
    hide Loop, Parse, PrintLeft, PrintRight;
    var ts := [Assignment(n.assign)] + PrintRight(19, n.right) + rest;
    assert Print(n) + rest == PrintLeft(20, n.left) + ts;
    assert ts[0] == Assignment(n.assign) && ts[1..] == PrintRight(19, n.right) + rest;
    var l := Recorded(n.left);
    RecordedTarget(n.left);
    if TargetsOk(n.left) {
      if IsTarget(l) && TargetsOk(n.right) {
        LoopStep(q, l, ts, Recorded(n), rest);
      } else {
        LoopFails(q, l, ts);
      }
    }
  }

  lemma RecordedTarget(n: Node)
    ensures IsTarget(Recorded(n)) <==> IsTarget(n)
  {
  }

  lemma SpineConditional(q: nat, n: Node, rest: seq<Token>)
    requires n.Conditional? && q < 30
    requires var ts3 := PrintRight(10, n.otherwise) + rest;
             var ts2 := [Colon] + PrintRight(10, n.otherwise) + rest;
             var ts1 := [Question] + PrintRight(10, n.right) + [Colon] + PrintRight(10, n.otherwise) + rest;
             && Reaches(q, PrintLeft(30, n.left) + ts1, n.left, ts1)
             && Reads(10, PrintRight(10, n.right) + ts2, n.right, ts2)
             && Reads(10, ts3, n.otherwise, rest)
    ensures Reaches(q, Print(n) + rest, n, rest)
  {
    hide Loop, Parse, PrintLeft, PrintRight;
    var ts3 := PrintRight(10, n.otherwise) + rest;
    var ts2 := [Colon] + PrintRight(10, n.otherwise) + rest;
    var ts1 := [Question] + PrintRight(10, n.right) + [Colon] + PrintRight(10, n.otherwise) + rest;
    assert Print(n) + rest == PrintLeft(30, n.left) + ts1;
    assert ts1[0] == Question && ts1[1..] == PrintRight(10, n.right) + ts2;
    assert ts2[0] == Colon && ts2[1..] == ts3;
    var l := Recorded(n.left);
    if TargetsOk(n.left) {
      if TargetsOk(n.right) && TargetsOk(n.otherwise) {
        LoopStep(q, l, ts1, Recorded(n), rest);
      } else {
        LoopFails(q, l, ts1);
      }
    }
  }

  lemma SpineUnary(q: nat, n: Node, rest: seq<Token>)
    requires n.Unary? && Reads(150, PrintRight(150, n.right) + rest, n.right, rest)
    ensures Reaches(q, Print(n) + rest, n, rest)
  {
    hide Loop, Parse, PrintRight;
    var ts := Print(n) + rest;
    assert ts[0] == PrefixToken(n.prefix) && ts[1..] == PrintRight(150, n.right) + rest;
    assert AsPrefix(ts[0]) == Some(n.prefix) && AsLeaf(ts[0]).None?;
    if TargetsOk(n) {
      ParseStep(q, ts, Recorded(n), rest);
    } else {
      ParseFails(q, ts);
    }
  }

  lemma SpinePostfix(q: nat, n: Node, rest: seq<Token>)
    requires n.Postfix? && q < 150
    requires var ts := [PostfixToken(n.increment)] + rest;
             Reaches(q, PrintLeft(150, n.left) + ts, n.left, ts)
    ensures Reaches(q, Print(n) + rest, n, rest)
  {
    hide Loop, Parse, PrintLeft;
    var ts := [PostfixToken(n.increment)] + rest;
    assert Print(n) + rest == PrintLeft(150, n.left) + ts;
    assert ts[1..] == rest;
    if TargetsOk(n) { LoopStep(q, Recorded(n.left), ts, Recorded(n), rest); }
  }

  lemma SpineMember(q: nat, n: Node, rest: seq<Token>)
    requires n.Member? && q < 160
    requires var ts := [Dot, Identifier(n.name)] + rest;
             Reaches(q, PrintLeft(160, n.left) + ts, n.left, ts)
    ensures Reaches(q, Print(n) + rest, n, rest)
  {
    hide Loop, Parse, PrintLeft;
    var ts := [Dot, Identifier(n.name)] + rest;
    assert Print(n) + rest == PrintLeft(160, n.left) + ts;
    assert ts[1..][0] == Identifier(n.name) && ts[1..][1..] == rest;
    if TargetsOk(n) { LoopStep(q, Recorded(n.left), ts, Recorded(n), rest); }
  }

  lemma SpineIndex(q: nat, n: Node, rest: seq<Token>)
    requires n.Index? && q < 160
    requires var ts := [LeftBracket] + PrintRight(0, n.key) + [RightBracket] + rest;
             && Reaches(q, PrintLeft(160, n.left) + ts, n.left, ts)
             && Reads(0, PrintRight(0, n.key) + ([RightBracket] + rest), n.key, [RightBracket] + rest)
    ensures Reaches(q, Print(n) + rest, n, rest)
  {
    hide Loop, Parse, PrintLeft, PrintRight;
    var ts := [LeftBracket] + PrintRight(0, n.key) + [RightBracket] + rest;
    assert Print(n) + rest == PrintLeft(160, n.left) + ts;
    assert ts[0] == LeftBracket && ts[1..] == PrintRight(0, n.key) + ([RightBracket] + rest);
    assert ([RightBracket] + rest)[1..] == rest;
    var l := Recorded(n.left);
    if TargetsOk(n.left) {
      if TargetsOk(n.key) {
        LoopStep(q, l, ts, Recorded(n), rest);
      } else {
        LoopFails(q, l, ts);
      }
    }
  }

  lemma SpineCall(q: nat, n: Node, rest: seq<Token>)
    requires n.Call? && q < 155
    requires var ts := [LeftParen] + PrintList(n.args) + [RightParen] + rest;
             Reaches(q, PrintLeft(155, n.left) + ts, n.left, ts)
    requires n.args != [] ==>
               && PrintList(n.args) != [] && PrintList(n.args)[0] != RightParen
               && Arguments(PrintList(n.args) + ([RightParen] + rest))
                  == if TargetsOkList(n.args) then Out(RecordedList(n.args), [RightParen] + rest, 0) else Fail
    ensures Reaches(q, Print(n) + rest, n, rest)
  {
    hide Loop, Parse, Led, PrintLeft, PrintList, Arguments;
    var ts := [LeftParen] + PrintList(n.args) + [RightParen] + rest;
    assert Print(n) + rest == PrintLeft(155, n.left) + ts;
    assert ts[0] == LeftParen && ts[1..] == PrintList(n.args) + ([RightParen] + rest);
    var l := Recorded(n.left);
    if TargetsOk(n.left) {
      LedCall(l, n.args, rest);
      if TargetsOkList(n.args) {
        LoopStep(q, l, ts, Recorded(n), rest);
      } else {
        LoopFails(q, l, ts);
      }
    }
  }

  lemma LedCall(left: Node, args: seq<Node>, rest: seq<Token>)
    requires args != [] ==>
               && PrintList(args) != [] && PrintList(args)[0] != RightParen
               && Arguments(PrintList(args) + ([RightParen] + rest))
                  == if TargetsOkList(args) then Out(RecordedList(args), [RightParen] + rest, 0) else Fail
    ensures Led(LeftParen, left, PrintList(args) + ([RightParen] + rest))
            == if TargetsOkList(args) then Out(Call(left, []), rest, 0) else Fail
  {
    hide Arguments;
    var ts := PrintList(args) + ([RightParen] + rest);
    assert ([RightParen] + rest)[1..] == rest;
    assert if args == [] then ts == [RightParen] + rest else ts[0] == PrintList(args)[0];
  }

  lemma SpineArray(q: nat, n: Node, rest: seq<Token>)
    requires n.ArrayLiteral?
    requires Elements(PrintList(n.first) + ([RightBracket] + rest))
          == if TargetsOkList(n.first) then Out(RecordedList(n.first), [RightBracket] + rest, 0) else Fail
    ensures Reaches(q, Print(n) + rest, n, rest)
  {
    hide Loop, Parse, Elements, PrintList;
    var ts := Print(n) + rest;
    assert ts[0] == LeftBracket && ts[1..] == PrintList(n.first) + ([RightBracket] + rest);
    assert ([RightBracket] + rest)[1..] == rest;
    if TargetsOk(n) {
      ParseStep(q, ts, Recorded(n), rest);
    } else {
      ParseFails(q, ts);
    }
  }

  lemma SpineBinary(q: nat, n: Node, rest: seq<Token>)
    requires n.Binary? && q < InfixPower(n.op)
    requires var p := InfixPower(n.op);
             var ts := [Infix(n.op)] + PrintRight(p, n.right) + rest;
             && Reaches(q, PrintLeft(p, n.left) + ts, n.left, ts)
             && Reads(p, PrintRight(p, n.right) + rest, n.right, rest)
    ensures Reaches(q, Print(n) + rest, n, rest)
  {
    hide Loop, Parse, PrintLeft, PrintRight, MakeBinary;
    var p := InfixPower(n.op);
    var ts := [Infix(n.op)] + PrintRight(p, n.right) + rest;
    assert Print(n) + rest == PrintLeft(p, n.left) + ts;
    assert ts[0] == Infix(n.op) && ts[1..] == PrintRight(p, n.right) + rest;
    var l := Recorded(n.left);
    if TargetsOk(n.left) {
      if TargetsOk(n.right) {
        LoopStep(q, l, ts, Recorded(n), rest);
      } else {
        LoopFails(q, l, ts);
      }
    }
  }

  /** The parser undoes the printer: a printed tree is read to its end, without a counted warning, as what
      the parser records of it; and it is refused just when an assignment has an improper target. */
  lemma RoundTrip(n: Node)
    ensures Parse(0, Print(n)) == if TargetsOk(n) then Out(Recorded(n), [], 0) else Fail
  {
    assert Print(n) + [] == Print(n);
    Whole(n, []);
  }

  /** The parentheses around a right operand are needed: without them the parser stops before the
      end of the operand. */
  lemma {:induction false} RightParensNeeded(q: nat, n: Node, rest: seq<Token>)
    requires !BareRight(q, n) && q < UNBOUND && TargetsOk(n)
    ensures var r := Parse(q, Print(n) + rest);
            r.Out? && |r.rest| > |rest|
    decreases n
  {
    hide Parse, Loop, Recorded, PrintLeft, PrintRight, PrintList, LeadLeft;
    match n
    case Binary(op, l, r) =>
      StopsAtOperator(q, InfixPower(op), n, l, [Infix(op)] + PrintRight(InfixPower(op), r), rest);
    case Assigned(op, l, r) => StopsAtOperator(q, 20, n, l, [Assignment(op)] + PrintRight(19, r), rest);
    case Conditional(l, y, o) =>
      StopsAtOperator(q, 30, n, l, [Question] + PrintRight(10, y) + [Colon] + PrintRight(10, o), rest);
    case Postfix(inc, l) => StopsAtOperator(q, 150, n, l, [PostfixToken(inc)], rest);
    case Member(l, name) => StopsAtOperator(q, 160, n, l, [Dot, Identifier(name)], rest);
    case Index(l, k) => StopsAtOperator(q, 160, n, l, [LeftBracket] + PrintRight(0, k) + [RightBracket], rest);
    case Call(l, args) => StopsAtOperator(q, 155, n, l, [LeftParen] + PrintList(args) + [RightParen], rest);
    case _ =>
  }

  lemma {:induction false} StopsAtOperator(q: nat, p: nat, n: Node, l: Node, tail: seq<Token>, rest: seq<Token>)
    requires l < n && TargetsOk(l) && LeadLeft(p, l) <= q < UNBOUND
    requires tail != [] && Lbp(tail[0]) == p && Print(n) == PrintLeft(p, l) + tail
    ensures var r := Parse(q, Print(n) + rest);
            r.Out? && |r.rest| > |rest|
    decreases n, 0
  {
    hide Parse, Loop, Print, Recorded, TargetsOk;
    var ts := tail + rest;
    assert Print(n) + rest == PrintLeft(p, l) + ts && NextLbp(ts) == p;
    if BareLeft(p, l) && Lead(l) <= q {
      RightParensNeeded(q, l, ts);
    } else if BareLeft(p, l) {
      Spine(q, l, ts);
      StopHere(q, Recorded(l), ts);
    } else {
      Whole(l, [RightParen] + ts);
      ParensRead(q, l, ts);
      StopHere(q, Recorded(l), ts);
    }
  }

  // ------------------------------------------------------- parentheses of left operands

  predicate HasLeft(n: Node) {
    n.Binary? || n.Assigned? || n.Conditional? || n.Postfix? || n.Member? || n.Index? || n.Call?
  }

  /** The left binding power of the operator at the top of a tree with a left operand. */
  function LeftPower(n: Node): nat
    requires HasLeft(n)
  {
    match n
    case Binary(op, _, _) => InfixPower(op)
    case Assigned(_, _, _) => 20
    case Conditional(_, _, _) => 30
    case Postfix(_, _) => 150
    case Call(_, _) => 155
    case _ => 160
  }

  /** What the printer puts after the left operand. */
  function AfterLeft(n: Node): seq<Token>
    requires HasLeft(n)
  {
    match n
    case Binary(op, _, r) => [Infix(op)] + PrintRight(InfixPower(op), r)
    case Assigned(op, _, r) => [Assignment(op)] + PrintRight(19, r)
    case Conditional(_, y, o) => [Question] + PrintRight(10, y) + [Colon] + PrintRight(10, o)
    case Postfix(inc, _) => [PostfixToken(inc)]
    case Member(_, name) => [Dot, Identifier(name)]
    case Index(_, k) => [LeftBracket] + PrintRight(0, k) + [RightBracket]
    case Call(_, args) => [LeftParen] + PrintList(args) + [RightParen]
  }

  lemma PrintedLeft(n: Node)
    requires HasLeft(n)
    ensures Print(n) == PrintLeft(LeftPower(n), n.left) + AfterLeft(n)
    ensures NextLbp(AfterLeft(n)) == LeftPower(n) >= 20
  {
    hide PrintLeft, PrintRight, PrintList;
  }

  /** A tree that is open at its right end. */
  predicate HasRight(n: Node) { n.Binary? || n.Assigned? || n.Conditional? || n.Unary? }

  /** The power at which the right operand is parsed. */
  function RightPower(n: Node): (q: nat)
    requires HasRight(n)
    ensures q <= 150
  {
    match n
    case Binary(op, _, _) => InfixPower(op)
    case Assigned(_, _, _) => 19
    case Conditional(_, _, _) => 10
    case Unary(_, _) => 150
  }

  function RightOf(n: Node): Node
    requires HasRight(n)
  {
    if n.Conditional? then n.otherwise else n.right
  }

  /** What the parser makes of n with r for its right operand. */
  function WithRight(n: Node, r: Node): Node
    requires HasRight(n)
  {
    match n
    case Binary(op, l, _) => MakeBinary(op, Recorded(l), r)
    case Assigned(op, l, _) => Assigned(op, Recorded(l), r)
    case Conditional(c, y, _) => Conditional(Recorded(c), Recorded(y), r)
    case Unary(op, _) => Unary(op, r)
  }

  /** The outcome of the operator loop after a part that drew the given warnings. */
  function Resumed(q: nat, node: Node, rest: seq<Token>, warnings: nat): Out<Node> {
    var r := Loop(q, node, rest);
    if r.Fail? then Fail else r.(warnings := warnings + r.warnings)
  }

  /** Operators stronger than the right operand's power are taken into the right operand. */
  lemma {:induction false} RightTakes(q: nat, l: Node, ts: seq<Token>)
    requires HasRight(l) && TargetsOk(l) && q < Lead(l)
    ensures var r := Parse(RightPower(l), PrintRight(RightPower(l), RightOf(l)) + ts);
            Parse(q, Print(l) + ts)
            == if r.Fail? then Fail else Resumed(q, WithRight(l, r.node), r.rest, r.warnings)
  {
    hide Parse, Loop, Print, PrintLeft, PrintRight, Recorded, TargetsOk, Trail, LeadLeft;
    match l
    case Binary(op, l1, r) => BinaryTakes(q, l, ts);
    case Assigned(op, l1, r) => AssignedTakes(q, l, ts);
    case Conditional(c, y, o) => ConditionalTakes(q, l, ts);
    case Unary(op, r) => UnaryTakes(q, l, ts);
  }

  lemma BinaryTakes(q: nat, l: Node, ts: seq<Token>)
    requires l.Binary? && TargetsOk(l) && q < Lead(l)
    ensures var r := Parse(InfixPower(l.op), PrintRight(InfixPower(l.op), l.right) + ts);
            Parse(q, Print(l) + ts)
            == if r.Fail? then Fail else Resumed(q, MakeBinary(l.op, Recorded(l.left), r.node), r.rest, r.warnings)
  {
    hide Parse, Loop, PrintLeft, PrintRight, Recorded, MakeBinary, InfixPower;
    var p := InfixPower(l.op);
    var ks := [Infix(l.op)] + PrintRight(p, l.right) + ts;
    assert Print(l) + ts == PrintLeft(p, l.left) + ks;
    assert ks[0] == Infix(l.op) && ks[1..] == PrintRight(p, l.right) + ts;
    ReadLeft(q, p, l.left, ks);
    LoopUnfolds(q, Recorded(l.left), ks);
  }

  lemma AssignedTakes(q: nat, l: Node, ts: seq<Token>)
    requires l.Assigned? && TargetsOk(l) && q < Lead(l)
    ensures var r := Parse(19, PrintRight(19, l.right) + ts);
            Parse(q, Print(l) + ts)
            == if r.Fail? then Fail else Resumed(q, Assigned(l.assign, Recorded(l.left), r.node), r.rest, r.warnings)
  {
    hide Parse, Loop, PrintLeft, PrintRight, Recorded;
    var ks := [Assignment(l.assign)] + PrintRight(19, l.right) + ts;
    assert Print(l) + ts == PrintLeft(20, l.left) + ks;
    assert ks[0] == Assignment(l.assign) && ks[1..] == PrintRight(19, l.right) + ts;
    ReadLeft(q, 20, l.left, ks);
    RecordedTarget(l.left);
    LoopUnfolds(q, Recorded(l.left), ks);
  }

  lemma ConditionalTakes(q: nat, l: Node, ts: seq<Token>)
    requires l.Conditional? && TargetsOk(l) && q < Lead(l)
    ensures var r := Parse(10, PrintRight(10, l.otherwise) + ts);
            Parse(q, Print(l) + ts)
            == if r.Fail? then Fail
               else Resumed(q, Conditional(Recorded(l.left), Recorded(l.right), r.node), r.rest, r.warnings)
  {
    hide Parse, Loop, PrintLeft, PrintRight, Recorded, Trail;
    var k2 := [Colon] + PrintRight(10, l.otherwise) + ts;
    var ks := [Question] + PrintRight(10, l.right) + [Colon] + PrintRight(10, l.otherwise) + ts;
    assert Print(l) + ts == PrintLeft(30, l.left) + ks;
    assert ks[0] == Question && ks[1..] == PrintRight(10, l.right) + k2;
    assert k2[0] == Colon && k2[1..] == PrintRight(10, l.otherwise) + ts;
    ReadLeft(q, 30, l.left, ks);
    ReadRight(10, l.right, k2);
    LoopUnfolds(q, Recorded(l.left), ks);
  }

  lemma UnaryTakes(q: nat, l: Node, ts: seq<Token>)
    requires l.Unary? && TargetsOk(l)
    ensures var r := Parse(150, PrintRight(150, l.right) + ts);
            Parse(q, Print(l) + ts)
            == if r.Fail? then Fail else Resumed(q, Unary(l.prefix, r.node), r.rest, r.warnings)
  {
    hide Parse, Loop, PrintRight;
    var ks := Print(l) + ts;
    assert ks[0] == PrefixToken(l.prefix) && ks[1..] == PrintRight(150, l.right) + ts;
    assert AsPrefix(ks[0]) == Some(l.prefix) && AsLeaf(ks[0]).None?;
    ParseUnfolds(q, ks);
  }

  lemma ParseUnfolds(q: nat, ts: seq<Token>)
    requires ts != [] && !ts[0].Dot?
    ensures var n := Nud(ts[0], ts[1..]);
            Parse(q, ts) == if n.Fail? then Fail else Resumed(q, n.node, n.rest, n.warnings)
  {
    hide Nud, Loop;
  }

  lemma LoopUnfolds(q: nat, left: Node, ts: seq<Token>)
    requires NextLbp(ts) > q
    ensures var n := Led(ts[0], left, ts[1..]);
            Loop(q, left, ts) == if n.Fail? then Fail else Resumed(q, n.node, n.rest, n.warnings)
  {
    hide Led;
  }

  lemma {:induction false} LoopStops(q: nat, left: Node, ts: seq<Token>)
    ensures var r := Loop(q, left, ts); r.Out? ==> NextLbp(r.rest) <= q
    decreases |ts|
  {
    if NextLbp(ts) > q {
      hide Led;
      var n := Led(ts[0], left, ts[1..]);
      if n.Out? { LoopStops(q, n.node, n.rest); }
    }
  }

  lemma ParseStops(q: nat, ts: seq<Token>)
    requires ts != [] && !ts[0].Dot?
    ensures var r := Parse(q, ts); r.Out? ==> NextLbp(r.rest) <= q
  {
    hide Parse, Nud, Loop;
    ParseUnfolds(q, ts);
    var n := Nud(ts[0], ts[1..]);
    if n.Out? { LoopStops(q, n.node, n.rest); }
  }

  /** The powers of the operators down the left side of a tree, the innermost first. */
  function Powers(n: Node): seq<nat> {
    if HasLeft(n) then Powers(n.left) + [LeftPower(n)] else []
  }

  /** What one operator makes of its left operand; only joined strings lose it. */
  lemma LedKeepsLeft(t: Token, left: Node, ts: seq<Token>)
    requires !left.Str?
    ensures var n := Led(t, left, ts);
            n.Out? ==> HasLeft(n.node) && n.node.left == left && LeftPower(n.node) == Lbp(t) && !n.node.Str?
  {
    hide Parse, Arguments, InfixPower;
  }

  /** The operator loop builds upon its left operand, beginning with the next operator. */
  lemma {:induction false} LoopPowers(q: nat, left: Node, ts: seq<Token>)
    requires !left.Str?
    ensures var r := Loop(q, left, ts);
            r.Out? ==>
              && Powers(left) <= Powers(r.node)
              && (Powers(r.node) != Powers(left) ==> Powers(left) + [NextLbp(ts)] <= Powers(r.node))
    decreases |ts|
  {
    if NextLbp(ts) > q {
      hide Led;
      LedKeepsLeft(ts[0], left, ts[1..]);
      var n := Led(ts[0], left, ts[1..]);
      if n.Out? { LoopPowers(q, n.node, n.rest); }
    }
  }

  /** A tree whose operators are all stronger than q is closed for operators up to q. */
  lemma {:induction false} TrailAbove(q: nat, n: Node)
    requires 30 <= q <= 150 && Lead(n) > q
    ensures Trail(n) >= q
    decreases n
  {
    hide InfixPower;
    if HasRight(n) {
      if BareRight(RightPower(n), RightOf(n)) && RightPower(n) >= 30 { TrailAbove(RightPower(n), RightOf(n)); }
    }
  }

  lemma RightPowerBelow(p: nat, l: Node)
    requires p >= 20 && !BareLeft(p, l) && p <= 160
    ensures HasRight(l) && RightPower(l) < p
  {
    hide Trail;
    TrailIs(l);
    if HasRight(l) && RightPower(l) >= p && BareRight(RightPower(l), RightOf(l)) {
      TrailAbove(RightPower(l), RightOf(l));
    }
  }

  lemma TrailIs(l: Node)
    ensures Trail(l) == if HasRight(l) then TrailRight(RightPower(l), RightOf(l)) else UNBOUND
    ensures HasRight(l) ==> RightPower(l) < 20 || RightPower(l) >= 40
  {
    hide InfixPower, TrailRight;
  }

  /** Nothing that takes an operator stronger than '+' ends up as a string literal. */
  lemma {:induction false} NoString(q: nat, left: Node, ts: seq<Token>)
    requires q >= 130 && (NextLbp(ts) > q || !left.Str?)
    ensures var r := Loop(q, left, ts); r.Out? ==> !r.node.Str?
    decreases |ts|
  {
    if NextLbp(ts) > q {
      StrongIsNoString(q, left, ts);
      hide Led;
      var n := Led(ts[0], left, ts[1..]);
      if n.Out? { NoString(q, n.node, n.rest); }
    }
  }

  lemma StrongIsNoString(q: nat, left: Node, ts: seq<Token>)
    requires q >= 130 && NextLbp(ts) > q
    ensures var n := Led(ts[0], left, ts[1..]); n.Out? ==> !n.node.Str?
  {
    hide Parse, Arguments;
  }

  lemma {:induction false} RightIsNoString(q: nat, p: nat, r: Node, ts: seq<Token>)
    requires TargetsOk(r) && 130 <= q < p == NextLbp(ts)
    ensures var o := Parse(q, PrintRight(q, r) + ts); o.Out? ==> !o.node.Str?
  {
    hide Parse, Loop, Print, Recorded, TargetsOk, Lead, Trail, WithRight;
    NoString(q, Recorded(r), ts);
    if !BareRight(q, r) {
      Whole(r, [RightParen] + ts);
      ParensRead(q, r, ts);
    } else if p <= Trail(r) {
      Spine(q, r, ts);
    } else {
      OpenAtEnd(p, r);
      RightTakes(q, r, ts);
      StrongTree(q, r);
      var o := Parse(RightPower(r), PrintRight(RightPower(r), RightOf(r)) + ts);
      if o.Out? { NoString(q, WithRight(r, o.node), o.rest); }
    }
  }

  lemma OpenAtEnd(p: nat, n: Node)
    requires Trail(n) < p <= 160
    ensures HasRight(n)
  {
  }

  lemma StrongTree(q: nat, r: Node)
    requires HasRight(r) && q >= 130 && Lead(r) > q
    ensures forall x {:trigger WithRight(r, x)} :: !WithRight(r, x).Str?
  {
    hide Recorded;
  }

  /** No tree comes out in which an operator of power p stands upon l, if l is printed without
      parentheses in front of it and is open for operators of that power. */
  lemma LeftLost(q: nat, p: nat, l: Node, ts: seq<Token>)
    requires TargetsOk(l) && !BareLeft(p, l) && NextLbp(ts) == p >= 20 && q < Lead(l)
    ensures var r := Parse(q, Print(l) + ts);
            r.Out? ==> !(Powers(Recorded(l)) + [p] <= Powers(r.node))
  {
    RightPowerBelow(p, l);
    var k := RightPower(l);
    var o := Parse(k, PrintRight(k, RightOf(l)) + ts);
    RightTakes(q, l, ts);
    RightBegins(k, RightOf(l));
    ParseStops(k, PrintRight(k, RightOf(l)) + ts);
    if o.Out? {
      NewTop(p, l, ts);
      hide Parse, Loop, Print, TargetsOk, Recorded, PrintRight, Powers, WithRight, BareLeft, Lead;
      var x := WithRight(l, o.node);
      LoopPowers(q, x, o.rest);
      var r := Parse(q, Print(l) + ts);
      if r.Out? {
        AtNext(Powers(Recorded(l)), p, Powers(r.node));
        AtNext(Powers(x), NextLbp(o.rest), Powers(r.node));
        AtNext([], k, Powers(r.node));
      }
    }
  }

  lemma AtNext(a: seq<nat>, p: nat, b: seq<nat>)
    ensures a + [p] <= b ==> |b| > |a| && b[|a|] == p
  {
    if a + [p] <= b { assert (a + [p])[|a|] == p; }
  }

  /** The top that the parser makes of l with a longer right operand. */
  lemma NewTop(p: nat, l: Node, ts: seq<Token>)
    requires TargetsOk(l) && HasRight(l) && RightPower(l) < p == NextLbp(ts)
    ensures var k := RightPower(l);
            var o := Parse(k, PrintRight(k, RightOf(l)) + ts);
            o.Out? ==>
              var x := WithRight(l, o.node);
              && !x.Str?
              && (Powers(x) == Powers(Recorded(l)) || (Powers(Recorded(l)) == [] && Powers(x) == [k]))
  {
    hide Parse, Print, PrintRight;
    if l.Binary? && l.op == Plus { RightIsNoString(130, p, l.right, ts); }
  }

  /** The parentheses around a left operand are needed: without them the operator goes to the open
      right operand of l, and what is read is another tree or nothing. */
  lemma LeftParensNeeded(n: Node, rest: seq<Token>)
    requires HasLeft(n) && TargetsOk(n) && !BareLeft(LeftPower(n), n.left)
    ensures var r := Parse(0, Print(n.left) + (AfterLeft(n) + rest));
            r.Out? ==> r.node != Recorded(n)
  {
    PrintedLeft(n);
    PrintBegins(n.left);
    hide Parse, Print, AfterLeft, Lead;
    LeftLost(0, LeftPower(n), n.left, AfterLeft(n) + rest);
    RecordedLeft(n);
  }

  lemma RecordedLeft(n: Node)
    requires HasLeft(n) && !BareLeft(LeftPower(n), n.left)
    ensures Powers(Recorded(n.left)) + [LeftPower(n)] == Powers(Recorded(n))
  {
    RightPowerBelow(LeftPower(n), n.left);
    hide BareLeft;
  }

  /** No call has arguments and no two string literals are joined by '+'. */
  predicate KeptWhole(n: Node)
    decreases n, 0
  {
    match n
    case Binary(op, l, r) => KeptWhole(l) && KeptWhole(r) && !(op == Plus && l.Str? && r.Str?)
    case Assigned(_, l, r) => KeptWhole(l) && KeptWhole(r)
    case Conditional(c, y, n) => KeptWhole(c) && KeptWhole(y) && KeptWhole(n)
    case Unary(_, r) => KeptWhole(r)
    case Postfix(_, l) => KeptWhole(l)
    case Member(l, _) => KeptWhole(l)
    case Index(l, k) => KeptWhole(l) && KeptWhole(k)
    case Call(l, args) => KeptWhole(l) && args == []
    case ArrayLiteral(es) => KeptWholeList(es)
    case _ => true
  }

  predicate KeptWholeList(ns: seq<Node>)
    decreases ns, 0
  {
    ns == [] || (KeptWhole(ns[0]) && KeptWholeList(ns[1..]))
  }

  lemma {:induction false} RecordedIsKept(n: Node)
    ensures Recorded(n) == n <==> KeptWhole(n)
    decreases n, 0
  {
    match n
    case Binary(op, l, r) => RecordedIsKept(l); RecordedIsKept(r);
    case Assigned(_, l, r) => RecordedIsKept(l); RecordedIsKept(r);
    case Conditional(c, y, o) => RecordedIsKept(c); RecordedIsKept(y); RecordedIsKept(o);
    case Unary(_, r) => RecordedIsKept(r);
    case Postfix(_, l) => RecordedIsKept(l);
    case Member(l, _) => RecordedIsKept(l);
    case Index(l, k) => RecordedIsKept(l); RecordedIsKept(k);
    case Call(l, args) => RecordedIsKept(l);
    case ArrayLiteral(es) => RecordedListIsKept(es);
    case _ =>
  }

  lemma {:induction false} RecordedListIsKept(ns: seq<Node>)
    ensures RecordedList(ns) == ns <==> KeptWholeList(ns)
    decreases ns, 0
  {
    if ns != [] {
      RecordedIsKept(ns[0]);
      RecordedListIsKept(ns[1..]);
      assert ns == [ns[0]] + ns[1..];
      assert RecordedList(ns)[0] == Recorded(ns[0]) && RecordedList(ns)[1..] == RecordedList(ns[1..]);
    }
  }

  /** Exactly which trees come back unchanged. */
  lemma ExactRoundTrip(n: Node)
    ensures Parse(0, Print(n)) == Out(n, [], 0) <==> TargetsOk(n) && KeptWhole(n)
  {
    RoundTrip(n);
    RecordedIsKept(n);
  }

  /** The arguments of a call leave no trace in the tree: different calls are parsed alike. */
  lemma ArgumentsLost()
    ensures var f, x := Name("f"), Name("x");
            && Call(f, [x]) != Call(f, [])
            && Parse(0, Print(Call(f, [x]))) == Parse(0, Print(Call(f, []))) == Out(Call(f, []), [], 0)
  {
    var f, x := Name("f"), Name("x");
    RoundTrip(Call(f, [x]));
    RoundTrip(Call(f, []));
    assert TargetsOkList([]) && [x][1..] == [];
    assert TargetsOkList([x]) && TargetsOk(Call(f, [x])) && TargetsOk(Call(f, []));
    assert Recorded(Call(f, [x])) == Recorded(Call(f, [])) == Call(f, []);
  }

  lemma NameFacts(v: string)
    ensures Print(Name(v)) == [Identifier(v)] && Lead(Name(v)) == Trail(Name(v)) == UNBOUND
    ensures TargetsOk(Name(v)) && Recorded(Name(v)) == Name(v)
  {
  }

  /** The classes of binary operators, from the one that is divided first to the one whose operators
      keep together most. */
  function Tier(op: InfixOp): (t: nat)
    ensures t <= 8
  {
    if op == Or then 0
    else if op == And then 1
    else if op == BitOr then 2
    else if op == BitXor then 3
    else if op == BitAnd then 4
    else if op in {Equal, StrictEqual, NotEqual, StrictNotEqual, Less, Greater, LessEqual, GreaterEqual} then 5
    else if op in {ShiftLeft, ShiftRight, ShiftRightUnsigned, In, InstanceOf} then 6
    else if op in {Plus, Minus} then 7
    else 8   // Times, Divide, Modulo
  }

  lemma PowersFollowTiers(op1: InfixOp, op2: InfixOp)
    ensures Tier(op1) < Tier(op2) <==> InfixPower(op1) < InfixPower(op2)
  {
  }

  /** How two operators share an operand: the operand goes to the higher class, and within a class to
      the left. */
  lemma Precedence(op1: InfixOp, op2: InfixOp, a: string, b: string, c: string)
    ensures Parse(0, [Identifier(a), Infix(op1), Identifier(b), Infix(op2), Identifier(c)])
         == Out(if Tier(op1) >= Tier(op2)
                then Binary(op2, Binary(op1, Name(a), Name(b)), Name(c))
                else Binary(op1, Name(a), Binary(op2, Name(b), Name(c))), [], 0)
  {
    hide Tier;
    PowersFollowTiers(op1, op2);
    var ts := [Identifier(a), Infix(op1), Identifier(b), Infix(op2), Identifier(c)];
    var l, r := Binary(op1, Name(a), Name(b)), Binary(op2, Name(b), Name(c));
    NameFacts(a);
    NameFacts(b);
    NameFacts(c);
    if Tier(op1) >= Tier(op2) {
      var n := Binary(op2, l, Name(c));
      assert Print(l) == [Identifier(a), Infix(op1), Identifier(b)];
      assert Trail(l) == InfixPower(op1) && BareRight(InfixPower(op2), Name(c));
      assert Print(n) == Print(l) + ([Infix(op2)] + [Identifier(c)]) == ts;
      RoundTrip(n);
      assert TargetsOk(l) && Recorded(l) == l;
    } else {
      var n := Binary(op1, Name(a), r);
      assert Print(r) == [Identifier(b), Infix(op2), Identifier(c)];
      assert Lead(r) == InfixPower(op2) && BareLeft(InfixPower(op1), Name(a));
      assert Print(n) == [Identifier(a)] + ([Infix(op1)] + Print(r)) == ts;
      RoundTrip(n);
      assert TargetsOk(r) && Recorded(r) == r;
    }
  }

  /** Assignments associate to the right, and a conditional may stand on their right side. */
  lemma AssignmentsNest(op1: AssignOp, op2: AssignOp, a: string, b: string, c: string)
    ensures Parse(0, [Identifier(a), Assignment(op1), Identifier(b), Assignment(op2), Identifier(c)])
         == Out(Assigned(op1, Name(a), Assigned(op2, Name(b), Name(c))), [], 0)
  {
    NameFacts(a);
    NameFacts(b);
    NameFacts(c);
    var r := Assigned(op2, Name(b), Name(c));
    var n := Assigned(op1, Name(a), r);
    assert Print(r) == [Identifier(b), Assignment(op2), Identifier(c)];
    assert Lead(r) == 20 && BareLeft(20, Name(a));
    assert Print(n) == [Identifier(a)] + ([Assignment(op1)] + Print(r));
    assert Print(n) == [Identifier(a), Assignment(op1), Identifier(b), Assignment(op2), Identifier(c)];
    RoundTrip(n);
    assert TargetsOk(r) && Recorded(r) == r;
  }

  // ------------------------------------------------------- what the parser accepts

  /** A tree the parser can have built. */
  predicate Canonical(n: Node) { TargetsOk(n) && KeptWhole(n) }

  predicate CanonicalList(ns: seq<Node>) { TargetsOkList(ns) && KeptWholeList(ns) }

  lemma {:induction false} ParseCanonical(rbp: nat, ts: seq<Token>)
    ensures Parse(rbp, ts).Out? ==> Canonical(Parse(rbp, ts).node)
    decreases |ts|, 4
  {
    if ts != [] && Parse(rbp, ts).Out? {
      var n := Nud(ts[0], ts[1..]);
      NudCanonical(ts[0], ts[1..]);
      if n.Out? { LoopCanonical(rbp, n.node, n.rest); }
    }
  }

  lemma {:induction false} NudCanonical(t: Token, ts: seq<Token>)
    ensures Nud(t, ts).Out? ==> Canonical(Nud(t, ts).node)
    decreases |ts|, 6
  {
    ParseCanonical(150, ts);
    ParseCanonical(0, ts);
    ElementsCanonical(ts);
  }

  lemma {:induction false} LoopCanonical(rbp: nat, left: Node, ts: seq<Token>)
    requires Canonical(left)
    ensures Loop(rbp, left, ts).Out? ==> Canonical(Loop(rbp, left, ts).node)
    decreases |ts|, 2
  {
    if NextLbp(ts) > rbp {
      var n := Led(ts[0], left, ts[1..]);
      LedCanonical(ts[0], left, ts[1..]);
      if n.Out? { LoopCanonical(rbp, n.node, n.rest); }
    }
  }

  lemma {:induction false} LedCanonical(t: Token, left: Node, ts: seq<Token>)
    requires Canonical(left)
    ensures Led(t, left, ts).Out? ==> Canonical(Led(t, left, ts).node)
    decreases |ts|, 6
  {
    hide Parse, Arguments, InfixPower;
    match t
    case Infix(op) => ParseCanonical(InfixPower(op), ts);
    case Assignment(op) => ParseCanonical(19, ts);
    case Question =>
      ParseCanonical(10, ts);
      var yes := Parse(10, ts);
      if yes.Out? {
        ParseCanonical(10, Skip(yes.rest));
        var no := Parse(10, Skip(yes.rest));
        if no.Out? { CanonicalConditional(left, yes.node, no.node); }
      }
    case LeftBracket =>
      ParseCanonical(0, ts);
      var key := Parse(0, ts);
      if key.Out? { CanonicalIndex(left, key.node); }
    case LeftParen => assert TargetsOkList([]);
    case _ =>
  }

  lemma CanonicalConditional(c: Node, y: Node, o: Node)
    requires Canonical(c) && Canonical(y) && Canonical(o)
    ensures Canonical(Conditional(c, y, o))
  {
  }

  lemma CanonicalIndex(l: Node, k: Node)
    requires Canonical(l) && Canonical(k)
    ensures Canonical(Index(l, k))
  {
  }

  lemma {:induction false} ElementsCanonical(ts: seq<Token>)
    ensures Elements(ts).Out? ==> CanonicalList(Elements(ts).node)
    decreases |ts|, 5
  {
    var ts' := ts[Commas(ts)..];
    ParseCanonical(10, ts');
    var a := Parse(10, ts');
    assert TargetsOkList([]) && KeptWholeList([]);
    if a.Out? {
      assert [a.node][1..] == [];
      if a.rest != [] {
        ElementsCanonical(a.rest[1..]);
        var r := Elements(a.rest[1..]);
        if r.Out? { assert ([a.node] + r.node)[1..] == r.node; }
      }
    }
  }

  /** Whatever the parser accepts, from any tokens and at any power, printing the tree and parsing
      it again gives the same tree. */
  lemma Reparse(rbp: nat, ts: seq<Token>)
    ensures var r := Parse(rbp, ts);
            r.Out? ==> Parse(0, Print(r.node)) == Out(r.node, [], 0)
  {
    ParseCanonical(rbp, ts);
    if Parse(rbp, ts).Out? { ExactRoundTrip(Parse(rbp, ts).node); }
  }

  // ------------------------------------------------------- folding keeps the value

  /** Values, of which the texts are the ones '+' joins. */
  datatype Val = TextVal(text: string) | OtherVal(id: int)

  /** Any meaning of the other constructs. */
  datatype Meaning = Meaning(
    leaf: Node -> Val,
    binary: (InfixOp, Val, Val) -> Val,
    assignment: (AssignOp, Val, Val) -> Val,
    conditional: (Val, Val, Val) -> Val,
    unary: (PrefixOp, Val) -> Val,
    postfix: (bool, Val) -> Val,
    member: (Val, string) -> Val,
    index: (Val, Val) -> Val,
    call: (Val, seq<Val>) -> Val,
    elements: seq<Val> -> Val)

  function Eval(n: Node, m: Meaning): Val
    decreases n, 0
  {
    match n
    case Str(v) => TextVal(v)
    case Binary(op, l, r) =>
      var a, b := Eval(l, m), Eval(r, m);
      if op == Plus && a.TextVal? && b.TextVal? then TextVal(a.text + b.text) else m.binary(op, a, b)
    case Assigned(op, l, r) => m.assignment(op, Eval(l, m), Eval(r, m))
    case Conditional(c, y, o) => m.conditional(Eval(c, m), Eval(y, m), Eval(o, m))
    case Unary(op, r) => m.unary(op, Eval(r, m))
    case Postfix(inc, l) => m.postfix(inc, Eval(l, m))
    case Member(l, name) => m.member(Eval(l, m), name)
    case Index(l, k) => m.index(Eval(l, m), Eval(k, m))
    case Call(l, args) => m.call(Eval(l, m), EvalList(args, m))
    case ArrayLiteral(es) => m.elements(EvalList(es, m))
    case _ => m.leaf(n)
  }

  function EvalList(ns: seq<Node>, m: Meaning): seq<Val>
    decreases ns, 0
  {
    if ns == [] then [] else [Eval(ns[0], m)] + EvalList(ns[1..], m)
  }

  /** Folding alone, with the arguments of calls kept. */
  function Folded(n: Node): Node
    decreases n, 0
  {
    match n
    case Binary(op, l, r) => MakeBinary(op, Folded(l), Folded(r))
    case Assigned(op, l, r) => Assigned(op, Folded(l), Folded(r))
    case Conditional(c, y, o) => Conditional(Folded(c), Folded(y), Folded(o))
    case Unary(op, r) => Unary(op, Folded(r))
    case Postfix(inc, l) => Postfix(inc, Folded(l))
    case Member(l, name) => Member(Folded(l), name)
    case Index(l, k) => Index(Folded(l), Folded(k))
    case Call(l, args) => Call(Folded(l), FoldedList(args))
    case ArrayLiteral(es) => ArrayLiteral(FoldedList(es))
    case _ => n
  }

  function FoldedList(ns: seq<Node>): seq<Node>
    decreases ns, 0
  {
    if ns == [] then [] else [Folded(ns[0])] + FoldedList(ns[1..])
  }

  /** Folding keeps the value of every tree, whatever the other constructs mean. */
  lemma {:induction false} FoldingKeepsValue(n: Node, m: Meaning)
    ensures Eval(Folded(n), m) == Eval(n, m)
    decreases n, 0
  {
    match n
    case Binary(op, l, r) => FoldingKeepsValue(l, m); FoldingKeepsValue(r, m);
    case Assigned(_, l, r) => FoldingKeepsValue(l, m); FoldingKeepsValue(r, m);
    case Conditional(c, y, o) => FoldingKeepsValue(c, m); FoldingKeepsValue(y, m); FoldingKeepsValue(o, m);
    case Unary(_, r) => FoldingKeepsValue(r, m);
    case Postfix(_, l) => FoldingKeepsValue(l, m);
    case Member(l, _) => FoldingKeepsValue(l, m);
    case Index(l, k) => FoldingKeepsValue(l, m); FoldingKeepsValue(k, m);
    case Call(l, args) => FoldingKeepsValue(l, m); FoldingKeepsValues(args, m);
    case ArrayLiteral(es) => FoldingKeepsValues(es, m);
    case _ =>
  }

  lemma {:induction false} FoldingKeepsValues(ns: seq<Node>, m: Meaning)
    ensures EvalList(FoldedList(ns), m) == EvalList(ns, m)
    decreases ns, 0
  {
    if ns != [] {
      FoldingKeepsValue(ns[0], m);
      FoldingKeepsValues(ns[1..], m);
      assert FoldedList(ns)[1..] == FoldedList(ns[1..]);
    }
  }

  predicate NoArguments(n: Node)
    decreases n, 0
  {
    match n
    case Binary(_, l, r) => NoArguments(l) && NoArguments(r)
    case Assigned(_, l, r) => NoArguments(l) && NoArguments(r)
    case Conditional(c, y, o) => NoArguments(c) && NoArguments(y) && NoArguments(o)
    case Unary(_, r) => NoArguments(r)
    case Postfix(_, l) => NoArguments(l)
    case Member(l, _) => NoArguments(l)
    case Index(l, k) => NoArguments(l) && NoArguments(k)
    case Call(l, args) => NoArguments(l) && args == []
    case ArrayLiteral(es) => NoArgumentsList(es)
    case _ => true
  }

  predicate NoArgumentsList(ns: seq<Node>)
    decreases ns, 0
  {
    ns == [] || (NoArguments(ns[0]) && NoArgumentsList(ns[1..]))
  }

  lemma {:induction false} RecordedIsFolded(n: Node)
    requires NoArguments(n)
    ensures Recorded(n) == Folded(n)
    decreases n, 0
  {
    match n
    case Binary(op, l, r) => RecordedIsFolded(l); RecordedIsFolded(r);
    case Assigned(_, l, r) => RecordedIsFolded(l); RecordedIsFolded(r);
    case Conditional(c, y, o) => RecordedIsFolded(c); RecordedIsFolded(y); RecordedIsFolded(o);
    case Unary(_, r) => RecordedIsFolded(r);
    case Postfix(_, l) => RecordedIsFolded(l);
    case Member(l, _) => RecordedIsFolded(l);
    case Index(l, k) => RecordedIsFolded(l); RecordedIsFolded(k);
    case Call(l, args) => RecordedIsFolded(l);
    case ArrayLiteral(es) => RecordedIsFoldedList(es);
    case _ =>
  }

  lemma {:induction false} RecordedIsFoldedList(ns: seq<Node>)
    requires NoArgumentsList(ns)
    ensures RecordedList(ns) == FoldedList(ns)
    decreases ns, 0
  {
    if ns != [] {
      RecordedIsFolded(ns[0]);
      RecordedIsFoldedList(ns[1..]);
    }
  }

  /** Parsing a printed tree whose calls have no arguments gives a tree of the same value. */
  lemma ParseKeepsValue(n: Node, m: Meaning)
    requires TargetsOk(n) && NoArguments(n)
    ensures var r := Parse(0, Print(n));
            r.Out? && r.rest == [] && Eval(r.node, m) == Eval(n, m)
  {
    RoundTrip(n);
    RecordedIsFolded(n);
    FoldingKeepsValue(n, m);
  }

  // ------------------------------------------------------- the parser with its state

  /** A result and the state after it are what the functions say. */
  ghost predicate Agrees<T(!new)>(r: Option<T>, out: Out<T>, rest: seq<Token>, warnings: int) {
    match r
    case None => out.Fail?
    case Some(n) => out.Out? && out.node == n && out.rest == rest && out.warnings == warnings
  }

  /** A list read in part: done, and more to come. */
  ghost predicate Continues(all: Out<seq<Node>>, done: seq<Node>, more: Out<seq<Node>>, warnings: int) {
    if all.Fail? then more.Fail?
    else more.Out? && all.node == done + more.node && all.rest == more.rest && all.warnings == more.warnings + warnings
  }

  /** One more element is done. */
  lemma ContinuesStep(all: Out<seq<Node>>, done: seq<Node>, n: Node, more: Out<seq<Node>>, more': Out<seq<Node>>,
                      warnings: int, warnings': int)
    requires Continues(all, done, more, warnings)
    requires if more'.Fail? then more.Fail?
             else more.Out? && more.node == [n] + more'.node && more.rest == more'.rest
                  && more.warnings + warnings == more'.warnings + warnings'
    ensures Continues(all, done + [n], more', warnings')
  {
    if all.Out? { assert done + [n] + more'.node == done + ([n] + more'.node); }
  }

  datatype ElementStep = Failed | NoMore | Last(node: Node) | More(node: Node)

  lemma ElementsAtEnd()
    ensures Elements([]) == Out([], [], 0)
  {
  }

  class Parser {
    const input: seq<Token>
    var pos: nat          // the next token is input[pos], or '(end)' behind the last one
    var warnings: nat

    predicate Valid()
      reads this
    {
      pos <= |input|
    }

    function Rest(): seq<Token>
      requires Valid()
      reads this
    {
      input[pos..]
    }

    constructor (input: seq<Token>)
      ensures Valid() && this.input == input && Rest() == input && warnings == 0
    {
      this.input, this.pos, this.warnings := input, 0, 0;
    }

    method Advance() returns (token: Token)
      requires Valid() && Rest() != []
      modifies this`pos
      ensures Valid() && token == old(Rest())[0] && Rest() == old(Rest())[1..] && pos == old(pos) + 1
    {
      token := input[pos];
      pos := pos + 1;
    }

    method AdvanceTo(t: Token)
      requires Valid()
      modifies this
      ensures Valid() && Rest() == Skip(old(Rest())) && warnings == old(warnings) + Missing(t, old(Rest()))
      ensures pos >= old(pos)
    {
      if pos == |input| || input[pos] != t { warnings := warnings + 1; }
      if pos < |input| { pos := pos + 1; }
    }

    method ParseNext(rbp: nat) returns (r: Option<Node>)
      requires Valid()
      modifies this
      ensures Valid() && pos >= old(pos)
      ensures Agrees(r, Parse(rbp, old(Rest())), Rest(), warnings - old(warnings))
      decreases |input| - pos, 4
    {
      hide Nud, Led;
      if pos == |input| { return None; }
      var token := Advance();
      if token.Dot? && pos < |input| && input[pos].Number? {
        warnings := warnings + 1;
        var number := Advance();
        return Some(Num(number.value));
      }
      var n := RunNud(token);
      if n.None? { return None; }
      var left := n.value;
      ghost var all, start := Loop(rbp, left, Rest()), warnings;
      while rbp < NextLbp(Rest())
        invariant Valid() && pos > old(pos) && warnings >= start
        invariant var more := Loop(rbp, left, Rest());
                  if all.Fail? then more.Fail?
                  else more.Out? && all == more.(warnings := more.warnings + (warnings - start))
        decreases |input| - pos
      {
        token := Advance();
        var l := RunLed(token, left);
        if l.None? { return None; }
        left := l.value;
      }
      r := Some(left);
    }

    method RunNud(t: Token) returns (r: Option<Node>)
      requires Valid()
      modifies this
      ensures Valid() && pos >= old(pos)
      ensures Agrees(r, Nud(t, old(Rest())), Rest(), warnings - old(warnings))
      decreases |input| - pos, 7
    {
      hide Parse, Elements, Loop;
      if AsLeaf(t).Some? {
        return AsLeaf(t);
      } else if AsPrefix(t).Some? {
        var right := ParseNext(150);
        return if right.None? then None else Some(Unary(AsPrefix(t).value, right.value));
      } else if t == LeftParen {
        r := ParseNext(0);
        if r.Some? { AdvanceTo(RightParen); }
      } else if t == LeftBracket {
        var es := RunElements();
        if es.None? { return None; }
        AdvanceTo(RightBracket);
        return Some(ArrayLiteral(es.value));
      } else {
        return None;
      }
    }

    method RunLed(t: Token, left: Node) returns (r: Option<Node>)
      requires Valid()
      modifies this
      ensures Valid() && pos >= old(pos)
      ensures Agrees(r, Led(t, left, old(Rest())), Rest(), warnings - old(warnings))
      decreases |input| - pos, 6
    {
      hide Parse, Arguments, Loop, MakeBinary, InfixPower, IsTarget, Skip, Missing, AsName;
      match t {
        case Infix(op) =>
          var right := ParseNext(InfixPower(op));
          return if right.None? then None else Some(MakeBinary(op, left, right.value));
        case Assignment(op) =>
          if !IsTarget(left) { return None; }
          var right := ParseNext(19);
          return if right.None? then None else Some(Assigned(op, left, right.value));
        case Question =>
          r := RunConditional(left);
        case Increment => return Some(Postfix(true, left));
        case Decrement => return Some(Postfix(false, left));
        case Dot =>
          if pos == |input| || AsName(input[pos]).None? { return None; }
          var word := Advance();
          return Some(Member(left, AsName(word).value));
        case LeftParen =>
          if pos == |input| || input[pos] != RightParen {
            var args := RunArguments();
            if args.None? { return None; }
          }
          AdvanceTo(RightParen);
          return Some(Call(left, []));
        case LeftBracket =>
          var key := ParseNext(0);
          if key.None? { return None; }
          AdvanceTo(RightBracket);
          return Some(Index(left, key.value));
        case _ => return None;
      }
    }

    /** The rest of a conditional, behind the question mark. */
    method RunConditional(left: Node) returns (r: Option<Node>)
      requires Valid()
      modifies this
      ensures Valid() && pos >= old(pos)
      ensures Agrees(r, Led(Question, left, old(Rest())), Rest(), warnings - old(warnings))
      decreases |input| - pos, 5
    {
      hide Parse, Skip, Missing;
      var yes := ParseNext(10);
      if yes.None? { return None; }
      AdvanceTo(Colon);
      var no := ParseNext(10);
      return if no.None? then None else Some(Conditional(left, yes.value, no.value));
    }

    method RunArguments() returns (r: Option<seq<Node>>)
      requires Valid()
      modifies this
      ensures Valid() && pos >= old(pos)
      ensures Agrees(r, Arguments(old(Rest())), Rest(), warnings - old(warnings))
      decreases |input| - pos, 5
    {
      hide Parse;
      ghost var all := Arguments(Rest());
      var args: seq<Node> := [];
      while true
        invariant Valid() && pos >= old(pos) && warnings >= old(warnings)
        invariant Continues(all, args, Arguments(Rest()), warnings - old(warnings))
        decreases |input| - pos
      {
        ghost var more, start := Arguments(Rest()), warnings - old(warnings);
        var a := ParseNext(10);
        if a.None? { return None; }
        if pos == |input| || input[pos] != Comma {
          assert more.node == [a.value];
          return Some(args + [a.value]);
        }
        var _ := Advance();
        ContinuesStep(all, args, a.value, more, Arguments(Rest()), start, warnings - old(warnings));
        args := args + [a.value];
      }
    }

    method RunElements() returns (r: Option<seq<Node>>)
      requires Valid()
      modifies this
      ensures Valid() && pos >= old(pos)
      ensures Agrees(r, Elements(old(Rest())), Rest(), warnings - old(warnings))
      decreases |input| - pos, 6
    {
      hide Elements;
      ghost var all := Elements(Rest());
      var first: seq<Node> := [];
      while pos < |input|
        invariant Valid() && pos >= old(pos) && warnings >= old(warnings)
        invariant Continues(all, first, Elements(Rest()), warnings - old(warnings))
        decreases |input| - pos
      {
        ghost var more, start := Elements(Rest()), warnings - old(warnings);
        var e := RunElement();
        match e {
          case Failed => return None;
          case NoMore =>
            assert first + [] == first;
            return Some(first);
          case Last(n) => return Some(first + [n]);
          case More(n) =>
            ContinuesStep(all, first, n, more, Elements(Rest()), start, warnings - old(warnings));
            first := first + [n];
        }
      }
      ElementsAtEnd();
      assert Rest() == [] && first + [] == first;
      return Some(first);
    }

    /** One round of that loop. */
    method RunElement() returns (e: ElementStep)
      requires Valid() && pos < |input|
      modifies this
      ensures Valid() && pos >= old(pos) && (!e.Failed? ==> warnings >= old(warnings))
      ensures var was, w := Elements(old(Rest())), warnings - old(warnings);
              match e
              case Failed => was.Fail?
              case NoMore => was == Out([], Rest(), w)
              case Last(n) => was == Out([n], Rest(), w)
              case More(n) =>
                && pos > old(pos)
                && var more := Elements(Rest());
                   if more.Fail? then was.Fail? else was == Out([n] + more.node, more.rest, w + more.warnings)
      decreases |input| - pos, 5
    {
      hide Parse, Commas;
      SkipCommas();
      if pos < |input| && input[pos] == RightBracket { return NoMore; }
      var a := ParseNext(10);
      if a.None? { return Failed; }
      if pos == |input| || input[pos] != Comma { return Last(a.value); }
      var _ := Advance();
      if pos < |input| && input[pos] == RightBracket {
        warnings := warnings + 1;
        return Last(a.value);
      }
      return More(a.value);
    }

    method SkipCommas()
      requires Valid()
      modifies this
      ensures Valid() && pos == old(pos) + Commas(old(Rest())) && Rest() == old(Rest())[Commas(old(Rest()))..]
      ensures warnings == old(warnings) + Commas(old(Rest()))
    {
      while pos < |input| && input[pos] == Comma
        invariant old(pos) <= pos <= |input|
        invariant Commas(old(Rest())) == pos - old(pos) + Commas(Rest())
        invariant warnings == old(warnings) + (pos - old(pos))
      {
        warnings := warnings + 1;
        pos := pos + 1;
      }
    }
  }
}
