/** What line ends between the tokens of a statement change: the look-ahead stops at them. */
module LineEnds {
  import opened StatementNesting

  /** The line ends before these tokens. */
  function Ends(ts: seq<Token>): nat { if ts == [] then 0 else ts[0].ends + Ends(ts[1..]) }

  /** The entry of the look-ahead at which the token i is: behind all line ends before it. */
  function PlaceOf(ts: seq<Token>, i: nat): nat
    requires i < |ts|
  {
    i + Ends(ts[..i + 1])
  }

  lemma PlaceNext(ts: seq<Token>, i: nat)
    requires i + 1 < |ts|
    ensures PlaceOf(ts, i + 1) == ts[0].ends + 1 + PlaceOf(ts[1..], i)
  {
    assert ts[..i + 2][1..] == ts[1..][..i + 1];
  }

  lemma PlaceFirst(ts: seq<Token>)
    requires ts != []
    ensures PlaceOf(ts, 0) == ts[0].ends
  {
    assert ts[..0 + 1] == [ts[0]];
    assert Ends([ts[0]]) == ts[0].ends + Ends([ts[0]][1..]);
  }

  /** A look ahead finds a token in its place. */
  lemma {:induction false} AheadSees(ts: seq<Token>, i: nat)
    requires i < |ts|
    ensures Ahead(ts, PlaceOf(ts, i)) == ts[i].kind
    decreases i
  {
    if i > 0 {
      PlaceNext(ts, i - 1);
      AheadSees(ts[1..], i - 1);
    } else {
      PlaceFirst(ts);
    }
  }

  /** And in any other place a line end, or nothing. */
  lemma {:induction false} AheadElsewhere(ts: seq<Token>, n: nat)
    requires forall i: nat :: i < |ts| ==> n != PlaceOf(ts, i)
    ensures Ahead(ts, n) == End
    decreases |ts|
  {
    if ts != [] {
      PlaceFirst(ts);
      assert n != PlaceOf(ts, 0);
      if n > ts[0].ends {
        var rest, m := ts[1..], n - ts[0].ends - 1;
        forall i: nat | i < |rest| ensures m != PlaceOf(rest, i) {
          PlaceNext(ts, i);
          assert n != PlaceOf(ts, i + 1);
        }
        AheadElsewhere(rest, m);
      }
    }
  }

  /** A name and a colon are a label only when the colon is on the line of the name; else the name is a
      statement by itself without its semicolon, and the list of statements ends at the colon. */
  lemma LabelOnItsLine(s: Progress, c: Context)
    requires s.Going? && |s.ts| >= 2 && s.ts[0].kind == Name && s.ts[1].kind == Colon
    ensures s.ts[1].ends > 0 ==>
              Statements(s, c) == Going(s.ts[1..], Name, s.ws + [Flaw(|s.ts| - 1)])
    ensures s.ts[1].ends == 0 ==>
              var t := Going(s.ts[2..], Colon, s.ws);
              Statement(s, c)
              == Unlabelled(if Next(t) in {While, Do, For, Switch} then t else Note(t, Flaw(|s.ts| - 2)), c)
  {
    hide Unlabelled;
    assert Skip(s).ts == s.ts[1..] && Next(Skip(s)) == Colon;
    NameAlone(s, c);
    if s.ts[1].ends > 0 {
      assert Statement(s, c) == Going(s.ts[1..], Name, s.ws + [Flaw(|s.ts| - 1)]);
    } else {
      assert Skip(Skip(s)) == Going(s.ts[2..], Colon, s.ws);
    }
  }

  lemma NameAlone(s: Progress, c: Context)
    requires s.Going? && |s.ts| >= 2 && s.ts[0].kind == Name && s.ts[1].kind == Colon
    ensures Unlabelled(s, c) == Going(s.ts[1..], Name, s.ws + [Flaw(|s.ts| - 1)])
  {
    assert Skip(s).ts == s.ts[1..] && Next(Skip(s)) == Colon;
    assert Expression(s, true, c) == Skip(s);
  }

  /** A break or a continue takes a name for its label only when it is on the same line. */
  lemma JumpOnItsLine(s: Progress, c: Context)
    requires s.Going? && |s.ts| >= 2 && s.ts[0].kind in {Break, Continue} && s.ts[1].kind == Name
    ensures var r := Statement(s, c);
            && r.Going?
            && r.ts == s.ts[if s.ts[1].leads then 1 else if |s.ts| > 2 && s.ts[2].kind == Semicolon then 3 else 2..]
            && r.ws == s.ws + (if c.breakable then [] else [Unexpected(|s.ts| - 1)])
                       + (if s.ts[1].leads then [Flaw(|s.ts| - 1)]
                          else if |s.ts| > 2 && s.ts[2].kind == Semicolon then []
                          else [Flaw(|s.ts| - 2)])
  {
    hide Ahead, Expression, Block, Cases, ForRest, FunctionRest, Condition, Variables, Rescued, Otherwise;
    var k, one := s.ts[0].kind, Skip(s);
    var two := NoteIf(one, !c.breakable, Unexpected(Left(one)));
    var three := if s.ts[1].leads then two else Skip(two);
    assert one.ts == s.ts[1..] && Next(one) == Next(two) == Name && NextLeads(two) == s.ts[1].leads;
    assert Keyword(one, k, c) == three;
    assert Statement(s, c) == Unlabelled(s, c) == Finish(three);
    assert !s.ts[1].leads ==> three.ts == s.ts[2..];
    assert |s.ts| > 2 ==> s.ts[2..][1..] == s.ts[3..];
  }
}
