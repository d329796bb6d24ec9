/** What the expression parser does with slips that it only warns about: a delimiter that is not there,
    extra commas, a leading decimal point; and which words it takes for the name of a member. */
module ExpressionErrors {
  import opened Wrappers
  import opened PrattParser
  import opened OperatorChains

  /** At most one token, which no expression goes on with, where a delimiter ought to be. */
  predicate IsClosing(closing: seq<Token>) {
    |closing| <= 1 && forall t :: t in closing ==> Lbp(t) == 0
  }

  function Slips(closing: seq<Token>, delimiter: Token): nat { if closing == [delimiter] then 0 else 1 }

  lemma ClosingFacts(closing: seq<Token>)
    requires IsClosing(closing)
    ensures NextLbp(closing) == 0 && Skip(closing) == []
    ensures forall t :: Missing(t, closing) == Slips(closing, t)
  {
    forall t: Token ensures Missing(t, closing) == Slips(closing, t) {
      if closing != [] { assert closing == [closing[0]]; }
    }
  }

  /** Any tree in parentheses whose last one is missing, or is another token: the tree is read, that
      token is passed, and there is one warning. */
  lemma ParenMissing(n: Node, closing: seq<Token>)
    requires TargetsOk(n) && IsClosing(closing)
    ensures Parse(0, [LeftParen] + (Print(n) + closing)) == Out(Recorded(n), [], Slips(closing, RightParen))
  {
    hide Parse, Print, Recorded, TargetsOk;
    ClosingFacts(closing);
    Whole(n, closing);
    var ts := [LeftParen] + (Print(n) + closing);
    assert ts[1..] == Print(n) + closing;
    NudThenStop(ts, Out(Recorded(n), [], Slips(closing, RightParen)));
  }

  /** A null denotation that uses up the tokens is the whole expression. */
  lemma NudThenStop(ts: seq<Token>, n: Out<Node>)
    requires ts != [] && !ts[0].Dot? && n.Out? && n.rest == [] && Nud(ts[0], ts[1..]) == n
    ensures Parse(0, ts) == n
  {
    hide Nud;
  }

  /** So is a left denotation behind a name. */
  lemma LedThenStop(a: string, ts: seq<Token>, n: Out<Node>)
    requires ts != [] && NextLbp(ts) > 0 && n.Out? && n.rest == [] && Led(ts[0], Name(a), ts[1..]) == n
    ensures Parse(0, [Identifier(a)] + ts) == n
  {
    hide Led;
    assert ([Identifier(a)] + ts)[1..] == ts;
    assert Nud(Identifier(a), ts) == Out(Name(a), ts, 0);
    assert Loop(0, n.node, []) == Out(n.node, [], 0);
    assert Loop(0, Name(a), ts) == n;
  }

  lemma LedFails(a: string, ts: seq<Token>)
    requires ts != [] && NextLbp(ts) > 0 && Led(ts[0], Name(a), ts[1..]).Fail?
    ensures Parse(0, [Identifier(a)] + ts) == Fail
  {
    hide Led;
    assert ([Identifier(a)] + ts)[1..] == ts;
  }

  lemma SubscriptMissing(a: string, n: Node, closing: seq<Token>)
    requires TargetsOk(n) && IsClosing(closing)
    ensures Parse(0, [Identifier(a)] + ([LeftBracket] + (Print(n) + closing)))
         == Out(Index(Name(a), Recorded(n)), [], Slips(closing, RightBracket))
  {
    hide Parse, Print, Recorded, TargetsOk;
    ClosingFacts(closing);
    Whole(n, closing);
    var ts := [LeftBracket] + (Print(n) + closing);
    assert ts[1..] == Print(n) + closing;
    LedThenStop(a, ts, Out(Index(Name(a), Recorded(n)), [], Slips(closing, RightBracket)));
  }

  /** A tree is read whole as an argument, an element or a part of a conditional. */
  lemma PartRead(n: Node, rest: seq<Token>)
    requires TargetsOk(n) && NextLbp(rest) == 0
    ensures Parse(10, Print(n) + rest) == Out(Recorded(n), rest, 0)
    ensures Print(n) != [] && Begins(Print(n)[0])
  {
    hide Parse, Recorded, TargetsOk;
    PrintBegins(n);
    RightPart(10, n, rest);
  }

  lemma ArgumentMissing(a: string, n: Node, closing: seq<Token>)
    requires TargetsOk(n) && IsClosing(closing) && closing != [Comma]
    ensures Parse(0, [Identifier(a)] + ([LeftParen] + (Print(n) + closing)))
         == Out(Call(Name(a), []), [], Slips(closing, RightParen))
  {
    hide Parse, Print, Recorded, TargetsOk;
    ClosingFacts(closing);
    PartRead(n, closing);
    var us := Print(n) + closing;
    var ts := [LeftParen] + us;
    assert ts[1..] == us && us[0] == Print(n)[0] != RightParen;
    assert closing != [] ==> closing == [closing[0]];
    assert Arguments(us) == Out([Recorded(n)], closing, 0);
    LedThenStop(a, ts, Out(Call(Name(a), []), [], Slips(closing, RightParen)));
  }

  /** k commas. */
  function CommasOnly(k: nat): (ts: seq<Token>)
    ensures |ts| == k && forall t :: t in ts ==> t == Comma
  {
    if k == 0 then [] else [Comma] + CommasOnly(k - 1)
  }

  lemma {:induction false} CommasCounted(k: nat, rest: seq<Token>)
    requires rest == [] || rest[0] != Comma
    ensures Commas(CommasOnly(k) + rest) == k && (CommasOnly(k) + rest)[k..] == rest
  {
    var ts := CommasOnly(k) + rest;
    if k > 0 {
      assert ts[0] == Comma && ts[1..] == CommasOnly(k - 1) + rest;
      CommasCounted(k - 1, rest);
    } else {
      assert ts == rest;
    }
  }

  /** Commas in front of an element, and a missing bracket: each is warned about, and the element is
      kept. */
  lemma ElementSlips(k: nat, n: Node, closing: seq<Token>)
    requires TargetsOk(n) && IsClosing(closing) && closing != [Comma]
    ensures Parse(0, [LeftBracket] + (CommasOnly(k) + (Print(n) + closing)))
         == Out(ArrayLiteral([Recorded(n)]), [], k + Slips(closing, RightBracket))
  {
    hide Parse, Print, Recorded, TargetsOk;
    ClosingFacts(closing);
    PartRead(n, closing);
    var vs := Print(n) + closing;
    var us := CommasOnly(k) + vs;
    var ts := [LeftBracket] + us;
    assert vs[0] == Print(n)[0] != RightBracket && vs[0] != Comma;
    CommasCounted(k, vs);
    assert ts[1..] == us;
    assert closing != [] ==> closing == [closing[0]];
    assert Elements(us) == Out([Recorded(n)], closing, k);
    NudThenStop(ts, Out(ArrayLiteral([Recorded(n)]), [], k + Slips(closing, RightBracket)));
  }

  /** One comma behind the last element is warned about and dropped. */
  lemma TrailingComma(n: Node)
    requires TargetsOk(n)
    ensures Parse(0, [LeftBracket] + (Print(n) + [Comma, RightBracket])) == Out(ArrayLiteral([Recorded(n)]), [], 1)
  {
    hide Parse, Print, Recorded, TargetsOk;
    var end := [Comma, RightBracket];
    PartRead(n, end);
    var us := Print(n) + end;
    var ts := [LeftBracket] + us;
    assert us[0] == Print(n)[0] != RightBracket && us[0] != Comma && us[0..] == us;
    assert ts[1..] == us && end[1..] == [RightBracket];
    assert Elements(us) == Out([Recorded(n)], [RightBracket], 1);
    NudThenStop(ts, Out(ArrayLiteral([Recorded(n)]), [], 1));
  }

  /** Another token in the place of the colon of a conditional. */
  lemma ColonMissing(a: string, yes: Node, t: Token, no: Node)
    requires TargetsOk(yes) && TargetsOk(no) && Lbp(t) == 0
    ensures Parse(0, [Identifier(a)] + ([Question] + (Print(yes) + ([t] + Print(no)))))
         == Out(Conditional(Name(a), Recorded(yes), Recorded(no)), [], if t == Colon then 0 else 1)
  {
    hide Parse, Print, Recorded, TargetsOk;
    var vs := [t] + Print(no);
    var us := Print(yes) + vs;
    var ts := [Question] + us;
    PartRead(yes, vs);
    PartRead(no, []);
    assert Print(no) + [] == Print(no) && vs[1..] == Print(no) && ts[1..] == us;
    LedThenStop(a, ts, Out(Conditional(Name(a), Recorded(yes), Recorded(no)), [], if t == Colon then 0 else 1));
  }

  /** A number behind a decimal point is an expression at any power, with a warning, and no operator
      behind it is looked at: `.5 + a` ends before the plus. */
  lemma LeadingPoint(q: nat, v: string, rest: seq<Token>)
    ensures Parse(q, [Dot, Number(v)] + rest) == Out(Num(v), rest, 1)
  {
    var ts := [Dot, Number(v)] + rest;
    assert ts[2..] == rest;
  }

  /** Behind a dot any word will do, and nothing else. */
  lemma WordsAreNames(a: string, t: Token)
    ensures Parse(0, [Identifier(a)] + [Dot, t])
         == match t
            case Identifier(v) => Out(Member(Name(a), v), [], 0)
            case Reserved(v) => Out(Member(Name(a), v), [], 0)
            case TypeOfWord => Out(Member(Name(a), "typeof"), [], 0)
            case Infix(In) => Out(Member(Name(a), "in"), [], 0)
            case Infix(InstanceOf) => Out(Member(Name(a), "instanceof"), [], 0)
            case Other(v) =>
              if v != "" && ('a' <= v[0] <= 'z' || 'A' <= v[0] <= 'Z' || v[0] in {'_', '$'})
              then Out(Member(Name(a), v), [], 0) else Fail
            case _ => Fail
  {
    hide Parse;
    var ts := [Dot, t];
    assert ts[1..] == [t] && [t][1..] == [];
    var r := Led(Dot, Name(a), [t]);
    if r.Fail? { LedFails(a, ts); } else { LedThenStop(a, ts, r); }
  }
}
