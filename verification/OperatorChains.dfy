/** Which tree the expression parser makes of operands and operators without parentheses: the operator
    classes by name, chains of any length, and the operators that stand outside them. */
module OperatorChains {
  import opened PrattParser

  /** Trees that hold together next to any binary operator: names and literals, with prefix and postfix
      operators, members, indices and calls. */
  predicate IsOperand(n: Node) { !n.Binary? && !n.Assigned? && !n.Conditional? }

  /** The tokens of an operand: any other tree is one in parentheses. */
  function OperandTokens(n: Node): seq<Token> { if IsOperand(n) then Print(n) else Parens(Print(n)) }

  /** Where a chain is divided: at the last operator of its lowest class. */
  ghost predicate IsTop(ops: seq<InfixOp>, k: nat) {
    && k < |ops|
    && (forall i :: 0 <= i < |ops| ==> Tier(ops[k]) <= Tier(ops[i]))
    && (forall i :: k < i < |ops| ==> Tier(ops[k]) < Tier(ops[i]))
  }

  function Top(ops: seq<InfixOp>): (k: nat)
    requires ops != []
    ensures k < |ops| && IsTop(ops, k)
  {
    if |ops| == 1 then 0
    else
      var k := Top(ops[1..]);
      assert forall i :: 0 < i < |ops| ==> ops[i] == ops[1..][i - 1];
      if Tier(ops[0]) < Tier(ops[k + 1]) then 0 else k + 1
  }

  /** Operands with an operator between each two. */
  predicate IsChain(xs: seq<Node>, ops: seq<InfixOp>) { |xs| == |ops| + 1 }

  /** The tree of a chain: divided at its top, and so on in both parts. */
  function ChainTree(xs: seq<Node>, ops: seq<InfixOp>): Node
    requires IsChain(xs, ops)
    decreases |ops|
  {
    if ops == [] then xs[0]
    else
      var k := Top(ops);
      Binary(ops[k], ChainTree(xs[..k + 1], ops[..k]), ChainTree(xs[k + 1..], ops[k + 1..]))
  }

  /** The tokens of a chain, one operand after the other. */
  function ChainTokens(xs: seq<Node>, ops: seq<InfixOp>): seq<Token>
    requires IsChain(xs, ops)
    decreases |ops|
  {
    if ops == [] then OperandTokens(xs[0])
    else OperandTokens(xs[0]) + ([Infix(ops[0])] + ChainTokens(xs[1..], ops[1..]))
  }

  lemma {:induction false} TokensDivide(xs: seq<Node>, ops: seq<InfixOp>, k: nat)
    requires IsChain(xs, ops) && k < |ops|
    ensures ChainTokens(xs, ops)
         == ChainTokens(xs[..k + 1], ops[..k]) + ([Infix(ops[k])] + ChainTokens(xs[k + 1..], ops[k + 1..]))
    decreases k
  {
    if k > 0 {
      TokensDivide(xs[1..], ops[1..], k - 1);
      assert xs[1..][..k] == xs[..k + 1][1..] && ops[1..][..k - 1] == ops[..k][1..];
      assert xs[1..][k..] == xs[k + 1..] && ops[1..][k..] == ops[k + 1..];
    } else {
      assert xs[..1] == [xs[0]] && ops[..0] == [];
    }
  }

  /** An operand is open to nothing weaker than 150, on either side. */
  lemma {:induction false} OperandHolds(x: Node)
    requires IsOperand(x)
    ensures Lead(x) >= 150 && Trail(x) >= 150
    decreases x, 0
  {
    match x
    case Unary(_, r) => if BareRight(150, r) { TrailAbove(150, r); }
    case Postfix(_, l) => HoldsLeft(150, l);
    case Member(l, _) => HoldsLeft(160, l);
    case Index(l, _) => HoldsLeft(160, l);
    case Call(l, _) => HoldsLeft(155, l);
    case _ =>
  }

  lemma {:induction false} HoldsLeft(p: nat, l: Node)
    requires p >= 150
    ensures LeadLeft(p, l) >= 150
    decreases l, 1
  {
    if IsOperand(l) { OperandHolds(l); } else { TrailIs(l); }
  }

  /** An operand is read whole, whatever binary operator or delimiter comes behind it. */
  lemma OperandReaches(q: nat, n: Node, rest: seq<Token>)
    requires q < 150 && NextLbp(rest) <= 150
    ensures Reaches(q, OperandTokens(n) + rest, n, rest)
  {
    hide Reaches, Lead, Trail;
    if IsOperand(n) {
      OperandHolds(n);
      Spine(q, n, rest);
    } else {
      Whole(n, [RightParen] + rest);
      ParensRead(q, n, rest);
    }
  }

  /** The powers on the two sides of the top: at least its own, and above it on the right. */
  lemma TopPowers(ops: seq<InfixOp>, k: nat)
    requires IsTop(ops, k)
    ensures forall op :: op in ops[..k] ==> InfixPower(op) >= InfixPower(ops[k])
    ensures forall op :: op in ops[k + 1..] ==> InfixPower(op) > InfixPower(ops[k])
  {
    hide InfixPower, Tier;
    forall i | 0 <= i < |ops|
      ensures InfixPower(ops[i]) >= InfixPower(ops[k]) && (i > k ==> InfixPower(ops[i]) > InfixPower(ops[k]))
    {
      PowersFollowTiers(ops[i], ops[k]);
      PowersFollowTiers(ops[k], ops[i]);
    }
  }

  /** A chain whose operators are all stronger than q, and as strong as what comes behind it, is read
      as its tree at power q. */
  lemma {:induction false} ChainReaches(q: nat, xs: seq<Node>, ops: seq<InfixOp>, rest: seq<Token>)
    requires IsChain(xs, ops) && q < 150 && NextLbp(rest) <= 150
    requires forall op :: op in ops ==> InfixPower(op) > q && InfixPower(op) >= NextLbp(rest)
    ensures Reaches(q, ChainTokens(xs, ops) + rest, ChainTree(xs, ops), rest)
    decreases |ops|
  {
    hide Top, ChainTokens, ChainTree, InfixPower, Tier, Reaches, OperandTokens, IsTop;
    if ops == [] {
      OneChain(xs, ops);
      OperandReaches(q, xs[0], rest);
    } else {
      var k := Top(ops);
      var left, right := ChainTokens(xs[..k + 1], ops[..k]), ChainTokens(xs[k + 1..], ops[k + 1..]);
      var more := [Infix(ops[k])] + (right + rest);
      TokensDivide(xs, ops, k);
      Regroup(left, [Infix(ops[k])], right, rest);
      TopPowers(ops, k);
      ChainReaches(q, xs[..k + 1], ops[..k], more);
      ChainReaches(InfixPower(ops[k]), xs[k + 1..], ops[k + 1..], rest);
      ChainDivides(xs, ops);
      TopReached(q, left, right, ChainTree(xs, ops), rest);
    }
  }

  lemma Regroup(a: seq<Token>, b: seq<Token>, c: seq<Token>, d: seq<Token>)
    ensures a + (b + c) + d == a + (b + (c + d))
  {
  }

  /** Both sides and the operator between them. */
  lemma TopReached(q: nat, left: seq<Token>, right: seq<Token>, n: Node, rest: seq<Token>)
    requires n.Binary? && InfixPower(n.op) > q && InfixPower(n.op) >= NextLbp(rest)
    requires var more := [Infix(n.op)] + (right + rest); Reaches(q, left + more, n.left, more)
    requires Reaches(InfixPower(n.op), right + rest, n.right, rest)
    ensures Reaches(q, left + ([Infix(n.op)] + (right + rest)), n, rest)
  {
    hide Loop, Parse, MakeBinary;
    var p, more := InfixPower(n.op), [Infix(n.op)] + (right + rest);
    assert more[1..] == right + rest;
    StopHere(p, Recorded(n.right), rest);
    var l := Recorded(n.left);
    if TargetsOk(n.left) {
      if TargetsOk(n.right) { LoopStep(q, l, more, Recorded(n), rest); } else { LoopFails(q, l, more); }
    }
  }

  predicate TargetsIn(xs: seq<Node>) { forall x :: x in xs ==> TargetsOk(x) }

  /** No string literals among the operands, and in each nothing that the parser would not keep. */
  predicate KeptIn(xs: seq<Node>) { forall x :: x in xs ==> KeptWhole(x) && !x.Str? }

  lemma BothIn(a: seq<Node>, b: seq<Node>)
    ensures TargetsIn(a + b) <==> TargetsIn(a) && TargetsIn(b)
    ensures KeptIn(a + b) <==> KeptIn(a) && KeptIn(b)
  {
    hide TargetsOk, KeptWhole;
    assert forall x :: x in a + b <==> x in a || x in b;
  }

  lemma ChainDivides(xs: seq<Node>, ops: seq<InfixOp>)
    requires IsChain(xs, ops) && ops != []
    ensures var k := Top(ops);
            && xs == xs[..k + 1] + xs[k + 1..]
            && ChainTree(xs, ops)
            == Binary(ops[k], ChainTree(xs[..k + 1], ops[..k]), ChainTree(xs[k + 1..], ops[k + 1..]))
  {
    hide Top;
  }

  lemma BinaryFacts(op: InfixOp, l: Node, r: Node)
    ensures TargetsOk(Binary(op, l, r)) <==> TargetsOk(l) && TargetsOk(r)
    ensures KeptWhole(l) && KeptWhole(r) && !l.Str? ==> KeptWhole(Binary(op, l, r))
  {
  }

  lemma OneChain(xs: seq<Node>, ops: seq<InfixOp>)
    requires IsChain(xs, ops) && ops == []
    ensures ChainTree(xs, ops) == xs[0] && ChainTokens(xs, ops) == OperandTokens(xs[0])
    ensures TargetsIn(xs) <==> TargetsOk(xs[0])
    ensures KeptIn(xs) <==> KeptWhole(xs[0]) && !xs[0].Str?
  {
    hide TargetsOk, KeptWhole;
    assert xs == [xs[0]];
  }

  lemma {:induction false} ChainFacts(xs: seq<Node>, ops: seq<InfixOp>)
    requires IsChain(xs, ops)
    ensures TargetsOk(ChainTree(xs, ops)) <==> TargetsIn(xs)
    ensures KeptIn(xs) ==> KeptWhole(ChainTree(xs, ops)) && !ChainTree(xs, ops).Str?
    decreases |ops|
  {
    hide Top, ChainTree, TargetsIn, KeptIn, TargetsOk, KeptWhole;
    if ops == [] {
      OneChain(xs, ops);
    } else {
      var k := Top(ops);
      var first, second := xs[..k + 1], xs[k + 1..];
      ChainDivides(xs, ops);
      BothIn(first, second);
      ChainFacts(first, ops[..k]);
      ChainFacts(second, ops[k + 1..]);
      BinaryFacts(ops[k], ChainTree(first, ops[..k]), ChainTree(second, ops[k + 1..]));
    }
  }

  /** Every chain, of any operands and operators, is read to its end as the tree that is divided at the
      last operator of the lowest class, and again so in both parts. */
  lemma ChainRead(xs: seq<Node>, ops: seq<InfixOp>)
    requires IsChain(xs, ops) && TargetsIn(xs)
    ensures Parse(0, ChainTokens(xs, ops)) == Out(Recorded(ChainTree(xs, ops)), [], 0)
    ensures KeptIn(xs) ==> Recorded(ChainTree(xs, ops)) == ChainTree(xs, ops)
  {
    hide ChainTree, ChainTokens, Parse, Recorded, TargetsOk, KeptWhole, InfixPower, Loop;
    assert ChainTokens(xs, ops) + [] == ChainTokens(xs, ops);
    ChainReaches(0, xs, ops, []);
    StopHere(0, Recorded(ChainTree(xs, ops)), []);
    ChainFacts(xs, ops);
    RecordedIsKept(ChainTree(xs, ops));
  }

  // ------------------------------------------------------- around the chains

  /** Every tree stands to the right of an assignment, and in a conditional behind the question mark. */
  lemma {:induction false} LeadAbove(n: Node)
    ensures Lead(n) >= 20
    decreases n
  {
    hide InfixPower;
    if HasLeft(n) { LeadAbove(n.left); }
  }

  /** A tree is read whole to the right of an assignment, and as a part of a conditional. */
  lemma RightPart(q: nat, n: Node, rest: seq<Token>)
    requires q <= 19 && NextLbp(rest) == 0
    ensures Parse(q, Print(n) + rest) == if TargetsOk(n) then Out(Recorded(n), rest, 0) else Fail
  {
    hide Parse, Print, Recorded, TargetsOk;
    LeadAbove(n);
    assert BareRight(q, n) && PrintRight(q, n) == Print(n);
    ReadRight(q, n, rest);
  }

  /** An assignment behind a chain: whatever the tree to the right is, it is assigned; but only to a
      name, a member, an element or an array literal.  After any other chain the parser gives up. */
  lemma AssignmentRead(xs: seq<Node>, ops: seq<InfixOp>, op: AssignOp, r: Node)
    requires IsChain(xs, ops) && TargetsIn(xs) && TargetsOk(r)
    ensures Parse(0, ChainTokens(xs, ops) + ([Assignment(op)] + Print(r)))
         == if ops == [] && (xs[0].Name? || xs[0].Member? || xs[0].Index? || xs[0].ArrayLiteral?)
            then Out(Assigned(op, Recorded(xs[0]), Recorded(r)), [], 0) else Fail
  {
    hide ChainTokens, Parse, Recorded, Print, InfixPower, Top, TargetsOk, Loop;
    var n := ChainTree(xs, ops);
    var t := Recorded(n);
    var ts := [Assignment(op)] + Print(r);
    ChainReaches(0, xs, ops, ts);
    ChainFacts(xs, ops);
    RecordedTarget(n);
    assert Print(r) + [] == Print(r) && ts[1..] == Print(r);
    RightPart(19, r, []);
    if IsTarget(t) {
      LoopStep(0, t, ts, Assigned(op, t, Recorded(r)), []);
      StopHere(0, Assigned(op, t, Recorded(r)), []);
    } else {
      LoopFails(0, t, ts);
    }
  }

  /** A chain and a question mark: the whole chain is the condition, and the two other parts may be
      any trees. */
  lemma ConditionalRead(xs: seq<Node>, ops: seq<InfixOp>, yes: Node, no: Node)
    requires IsChain(xs, ops) && TargetsIn(xs) && TargetsOk(yes) && TargetsOk(no)
    ensures Parse(0, ChainTokens(xs, ops) + ([Question] + (Print(yes) + ([Colon] + Print(no)))))
         == Out(Conditional(Recorded(ChainTree(xs, ops)), Recorded(yes), Recorded(no)), [], 0)
  {
    hide ChainTree, ChainTokens, Parse, InfixPower, Recorded, Print, TargetsOk, Loop;
    var c := Recorded(ChainTree(xs, ops));
    var us := [Colon] + Print(no);
    var ts := [Question] + (Print(yes) + us);
    ChainReaches(0, xs, ops, ts);
    ChainFacts(xs, ops);
    assert Print(no) + [] == Print(no) && us[1..] == Print(no) && ts[1..] == Print(yes) + us;
    RightPart(10, yes, us);
    RightPart(10, no, []);
    var n := Conditional(c, Recorded(yes), Recorded(no));
    LoopStep(0, c, ts, n, []);
    StopHere(0, n, []);
  }

  /** A prefix operator takes an operand with its members, indices and calls, but not with what
      increments it. */
  lemma PrefixRead(op: PrefixOp, op2: PrefixOp, a: string, name: string, increment: bool)
    ensures Parse(0, [PrefixToken(op), Identifier(a), Dot, Identifier(name)])
         == Out(Unary(op, Member(Name(a), name)), [], 0)
    ensures Parse(0, [PrefixToken(op), Identifier(a), LeftBracket, Identifier(name), RightBracket])
         == Out(Unary(op, Index(Name(a), Name(name))), [], 0)
    ensures Parse(0, [PrefixToken(op), Identifier(a), LeftParen, RightParen])
         == Out(Unary(op, Node.Call(Name(a), [])), [], 0)
    ensures Parse(0, [PrefixToken(op), PrefixToken(op2), Identifier(a)])
         == Out(Unary(op, Unary(op2, Name(a))), [], 0)
    ensures Parse(0, [PrefixToken(op), Identifier(a), PostfixToken(increment)])
         == Out(Postfix(increment, Unary(op, Name(a))), [], 0)
  {
    hide Parse, Print, Recorded;
    var x := Name(a);
    SuffixFacts(a, name);
    PrefixTree(op, Member(x, name), [Identifier(a), Dot, Identifier(name)]);
    PrefixTree(op, Index(x, Name(name)), [Identifier(a), LeftBracket, Identifier(name), RightBracket]);
    PrefixTree(op, Node.Call(x, []), [Identifier(a), LeftParen, RightParen]);
    UnaryFacts(op2, a);
    PrefixTree(op, Unary(op2, x), [PrefixToken(op2), Identifier(a)]);
    UnaryFacts(op, a);
    PostfixTree(increment, Unary(op, x), [PrefixToken(op), Identifier(a)]);
    assert [PrefixToken(op)] + [Identifier(a), Dot, Identifier(name)]
        == [PrefixToken(op), Identifier(a), Dot, Identifier(name)];
    assert [PrefixToken(op)] + [Identifier(a), LeftBracket, Identifier(name), RightBracket]
        == [PrefixToken(op), Identifier(a), LeftBracket, Identifier(name), RightBracket];
    assert [PrefixToken(op)] + [Identifier(a), LeftParen, RightParen]
        == [PrefixToken(op), Identifier(a), LeftParen, RightParen];
    assert [PrefixToken(op)] + [PrefixToken(op2), Identifier(a)] == [PrefixToken(op), PrefixToken(op2), Identifier(a)];
    assert [PrefixToken(op), Identifier(a)] + [PostfixToken(increment)]
        == [PrefixToken(op), Identifier(a), PostfixToken(increment)];
  }

  /** The tree is a whole operand, printed as these tokens. */
  ghost predicate StandsAs(n: Node, ts: seq<Token>) { TargetsOk(n) && Recorded(n) == n && Print(n) == ts }

  lemma SuffixFacts(a: string, name: string)
    ensures var x := Name(a);
            && StandsAs(Member(x, name), [Identifier(a), Dot, Identifier(name)])
            && StandsAs(Index(x, Name(name)), [Identifier(a), LeftBracket, Identifier(name), RightBracket])
            && StandsAs(Node.Call(x, []), [Identifier(a), LeftParen, RightParen])
            && Lead(Member(x, name)) > 150 && Lead(Index(x, Name(name))) > 150 && Lead(Node.Call(x, [])) > 150
  {
    Names(a);
    Names(name);
  }

  lemma UnaryFacts(op: PrefixOp, a: string)
    ensures StandsAs(Unary(op, Name(a)), [PrefixToken(op), Identifier(a)])
    ensures Lead(Unary(op, Name(a))) > 150 && Trail(Unary(op, Name(a))) == 150
  {
    Names(a);
  }

  lemma Names(v: string)
    ensures Print(Name(v)) == [Identifier(v)] && Lead(Name(v)) == Trail(Name(v)) == UNBOUND
  {
  }

  lemma PrefixTree(op: PrefixOp, r: Node, ts: seq<Token>)
    requires StandsAs(r, ts) && Lead(r) > 150
    ensures Parse(0, [PrefixToken(op)] + ts) == Out(Unary(op, r), [], 0)
  {
    hide Parse;
    RoundTrip(Unary(op, r));
  }

  lemma PostfixTree(increment: bool, l: Node, ts: seq<Token>)
    requires StandsAs(l, ts) && Trail(l) >= 150
    ensures Parse(0, ts + [PostfixToken(increment)]) == Out(Postfix(increment, l), [], 0)
  {
    hide Parse;
    RoundTrip(Postfix(increment, l));
  }

  // ------------------------------------------------------- the classes of the language

  /** The classes of sections 11.5 to 11.11 of ECMA-262, 5th edition. */
  function StandardTier(op: InfixOp): nat {
    match op
    case Or => 0
    case And => 1
    case BitOr => 2
    case BitXor => 3
    case BitAnd => 4
    case Equal | StrictEqual | NotEqual | StrictNotEqual => 5
    case Less | Greater | LessEqual | GreaterEqual | In | InstanceOf => 6
    case ShiftLeft | ShiftRight | ShiftRightUnsigned => 7
    case Plus | Minus => 8
    case Times | Divide | Modulo => 9
  }

  predicate IsEquality(op: InfixOp) { op in {Equal, StrictEqual, NotEqual, StrictNotEqual} }
  predicate IsComparison(op: InfixOp) { op in {Less, Greater, LessEqual, GreaterEqual} }
  predicate IsShift(op: InfixOp) { op in {ShiftLeft, ShiftRight, ShiftRightUnsigned} }
  predicate IsWordOperator(op: InfixOp) { op in {In, InstanceOf} }

  /** Three kinds of pairs, and only these, are divided otherwise than the language says: an equality
      before a comparison, a comparison before `in` or `instanceof`, and one of these before a shift. */
  lemma StandardTree(op1: InfixOp, op2: InfixOp, a: string, b: string, c: string)
    ensures Parse(0, [Identifier(a), Infix(op1), Identifier(b), Infix(op2), Identifier(c)])
         == Out(if StandardTier(op1) >= StandardTier(op2)
                then Binary(op2, Binary(op1, Name(a), Name(b)), Name(c))
                else Binary(op1, Name(a), Binary(op2, Name(b), Name(c))), [], 0)
        <==> !(|| (IsEquality(op1) && IsComparison(op2))
               || (IsComparison(op1) && IsWordOperator(op2))
               || (IsWordOperator(op1) && IsShift(op2)))
  {
    hide Parse;
    Precedence(op1, op2, a, b, c);
    TreesDiffer(op1, op2, Name(a), Name(b), Name(c));
  }

  lemma TreesDiffer(op1: InfixOp, op2: InfixOp, a: Node, b: Node, c: Node)
    requires a.Name?
    ensures Binary(op2, Binary(op1, a, b), c) != Binary(op1, a, Binary(op2, b, c))
  {
  }
}
