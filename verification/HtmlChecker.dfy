/** The HTML part of a lint program: a loop over tags with a stack of the elements that are open. */
module HtmlChecker {
  import opened Wrappers

  /** A token's id is its syntax; its value is its text. */
  datatype Token = Token(id: string, value: string, identifier: bool)

  const END_TOKEN := Token("(end)", "", false)

  /** What the table says of an element: whether it has no content, and what it must be in. */
  datatype Tag = Tag(empty: bool, parents: Option<seq<string>>)

  datatype Options = Options(cap: bool, fragment: bool, table: map<string, Tag>)

  function Next(ts: seq<Token>): Token { if ts == [] then END_TOKEN else ts[0] }

  predicate IsRest(r: seq<Token>, ts: seq<Token>) { |r| <= |ts| && forall t :: t in r ==> t in ts }

  function Skip(ts: seq<Token>): (r: seq<Token>)
    ensures IsRest(r, ts) && (ts != [] ==> |r| < |ts|)
  {
    if ts == [] then [] else ts[1..]
  }

  // ------------------------------------------------------------ names

  function LowerChar(c: char): char { if 'A' <= c <= 'Z' then c - 'A' + 'a' else c }

  function Lower(s: string): string { if s == [] then [] else [LowerChar(s[0])] + Lower(s[1..]) }

  function TagName(s: string, o: Options): string { if o.cap then Lower(s) else s }

  predicate Contains(s: string, part: string) { exists i: nat :: i <= |s| && part <= s[i..] }

  // ------------------------------------------------------------ one step over the tokens

  /** A tag, or something that does not touch the stack. */
  datatype Event = Open(n: string) | Void(n: string) | Close(n: string) | Other

  predicate IsTag(e: Event) { e.Open? || e.Void? }

  /** The attributes of a tag, up to its `>` or past its `/`; whether it has a source. */
  function Attributes(ts: seq<Token>, src: bool): (r: Option<(seq<Token>, bool)>)
    ensures r.Some? ==> IsRest(r.value.0, ts)
    decreases |ts|
  {
    var t := Next(ts);
    if t.id == "/" then Some((Skip(ts), src))
    else if [ '>' ] <= t.id then Some((ts, src))
    else if ts == [] || (!t.identifier && t.id in {"(end)", "(error)"}) then None
    else
      var a, ts := Lower(t.value), Skip(ts);
      if Next(ts).id == "=" then
        var ts := Skip(ts);
        Attributes(Skip(ts), if a == "src" then Next(ts).value != "" else src)
      else Attributes(ts, a == "src" || src)
  }

  /** Script or style text, which ends at the next closing tag. */
  function RawText(ts: seq<Token>): (r: seq<Token>)
    ensures IsRest(r, ts)
    decreases |ts|
  {
    if ts == [] || ts[0].id in {"</", "(end)"} then ts else RawText(ts[1..])
  }

  /** The content and the closing tag of a script or style element, whatever its name. */
  function RawElement(ts: seq<Token>, text: bool): (r: seq<Token>)
    ensures IsRest(r, ts)
  {
    var ts := Skip(ts);
    Skip(Skip(if text then RawText(ts) else ts))
  }

  function OpeningTag(ts: seq<Token>, o: Options): (r: Option<(Event, seq<Token>)>)
    requires ts != []
    ensures r.Some? ==> IsRest(r.value.1, ts) && |r.value.1| < |ts| && IsTag(r.value.0) && r.value.0.n in o.table
  {
    var ts := Skip(ts);
    var n := TagName(Next(ts).value, o);
    if n !in o.table then None
    else
      match Attributes(Skip(ts), false)
      case None => None
      case Some((ts, src)) =>
        var ts := if n == "script" then RawElement(ts, !src) else if n == "style" then RawElement(ts, true) else ts;
        Some((if o.table[n].empty then Void(n) else Open(n), Skip(ts)))
  }

  function ClosingTag(ts: seq<Token>, o: Options): (r: Option<(Event, seq<Token>)>)
    requires ts != []
    ensures r.Some? ==> IsRest(r.value.1, ts) && |r.value.1| < |ts|
  {
    var ts := Skip(ts);
    var n, ts := TagName(Next(ts).value, o), Skip(ts);
    if Next(ts).id != ">" then None else Some((Close(n), Skip(ts)))
  }

  function Declaration(ts: seq<Token>): (r: Option<(Event, seq<Token>)>)
    requires ts != []
    ensures r.Some? ==> IsRest(r.value.1, ts) && |r.value.1| < |ts| && r.value.0 == Other
    decreases |ts|
  {
    var ts := Skip(ts);
    var t := Next(ts);
    if t.id == ">" || ts == [] || t.id == "(end)" then Some((Other, Skip(ts)))
    else if Contains(t.value, "--") || Contains(t.value, "<") || Contains(t.value, ">") then None
    else Declaration(ts)
  }

  /** One round of the loop, but for the stack; None is an error that ends checking. */
  function Step(ts: seq<Token>, o: Options): (r: Option<(Event, seq<Token>)>)
    ensures r.Some? ==> IsRest(r.value.1, ts) && |r.value.1| < |ts|
  {
    if ts == [] then None
    else if ts[0].value == "<" then OpeningTag(ts, o)
    else if ts[0].value == "</" then ClosingTag(ts, o)
    else if ts[0].value == "<!" then Declaration(ts)
    else if ts[0].id == "(end)" then None
    else Some((Other, Skip(ts)))
  }

  // ------------------------------------------------------------ the stack

  /** Where an element may stand among the open ones, the innermost last. */
  predicate MayStand(n: string, open: seq<string>, o: Options) {
    n in o.table
    && (open == []
        || (n != "html"
            && match o.table[n].parents
               case Some(ps) => open[|open| - 1] in ps
               case None => o.fragment || "body" in open))
  }

  /** The stack after a round; before the first tag there is none. */
  function Stack(s: Option<seq<string>>, e: Event, o: Options): Option<Option<seq<string>>> {
    match e
    case Other => Some(s)
    case Close(n) =>
      if s == None || s.value == [] || s.value[|s.value| - 1] != n then None
      else Some(Some(s.value[..|s.value| - 1]))
    case _ =>
      if s == None && e.n != "html" && !o.fragment then None
      else
        var open := if s == None then [] else s.value;
        if !MayStand(e.n, open, o) then None else Some(Some(if e.Open? then open + [e.n] else open))
  }

  /** Whether checking comes to its end without an error. */
  function Accepts(ts: seq<Token>, s: Option<seq<string>>, o: Options): bool
    decreases |ts|
  {
    if Next(ts).value == "(end)" then true
    else
      match Step(ts, o)
      case None => false
      case Some((e, rest)) =>
        match Stack(s, e, o)
        case None => false
        case Some(s) =>
          if s == Some([]) && (!o.fragment || Next(rest).id == "(end)") then Next(rest).id == "(end)"
          else Accepts(rest, s, o)
  }

  // ------------------------------------------------------------ well-nested documents

  /** The tags of a text, read without a stack; `cut` says that a round came upon a token whose text
      is `(end)` and the rest was left unread. */
  datatype Reading = Reading(es: seq<Event>, cut: bool)

  function Trace(ts: seq<Token>, o: Options): Option<Reading>
    decreases |ts|
  {
    if ts == [] then Some(Reading([], false))
    else if ts[0].value == "(end)" then Some(Reading([], true))
    else
      match Step(ts, o)
      case None => None
      case Some((e, rest)) =>
        match Trace(rest, o)
        case None => None
        case Some(r) => Some(r.(es := [e] + r.es))
  }

  /** Every element that is opened is closed, by a tag of its own name, around whole elements. */
  ghost predicate Balanced(es: seq<Event>)
    decreases |es|
  {
    es == []
    || ((es[0].Void? || es[0].Other?) && Balanced(es[1..]))
    || (es[0].Open? && exists k: nat ::
          0 < k < |es| && es[k] == Close(es[0].n) && Balanced(es[1..k]) && Balanced(es[k + 1..]))
  }

  /** The elements open after es, if no closing tag is out of place. */
  function Reduce(es: seq<Event>, open: seq<string>): Option<seq<string>> {
    if es == [] then Some(open)
    else
      match Reduce(es[..|es| - 1], open)
      case None => None
      case Some(open) => ReduceOne(es[|es| - 1], open)
  }

  function ReduceOne(e: Event, open: seq<string>): Option<seq<string>> {
    match e
    case Open(n) => Some(open + [n])
    case Close(n) => if open != [] && open[|open| - 1] == n then Some(open[..|open| - 1]) else None
    case _ => Some(open)
  }

  predicate HasTag(es: seq<Event>) { exists k :: 0 <= k < |es| && IsTag(es[k]) }

  /** No closing tag is out of place: each closes an element of its name, around whole elements. */
  ghost predicate ClosesWell(es: seq<Event>) {
    forall k: nat :: k < |es| && es[k].Close? ==> IsInnermost(es[..k], es[k].n)
  }

  /** An element n has been opened, and only whole elements have come since. */
  ghost predicate IsInnermost(es: seq<Event>, n: string) {
    exists j: nat :: j < |es| && es[j] == Open(n) && Balanced(es[j + 1..])
  }

  /** An element n has been opened and has not been closed: no closing tag of its name has come right
      after whole elements. */
  ghost predicate IsOpen(es: seq<Event>, n: string) {
    exists j: nat :: j < |es| && es[j] == Open(n) && !ClosedAfter(es, j)
  }

  ghost predicate ClosedAfter(es: seq<Event>, j: nat)
    requires j < |es| && es[j].Open?
  {
    exists i: nat :: j < i < |es| && es[i] == Close(es[j].n) && Balanced(es[j + 1..i])
  }

  /** Where an element n may stand: at the outside; or else, unless it is html, right inside one of its
      parents, or if the table gives it none, anywhere in the body or in a fragment. */
  ghost predicate HasPlace(n: string, before: seq<Event>, o: Options) {
    n in o.table
    && (Balanced(before)
        || (n != "html"
            && if o.table[n].parents.Some? then exists p :: p in o.table[n].parents.value && IsInnermost(before, p)
               else o.fragment || IsOpen(before, "body")))
  }

  /** Every element stands where the table allows it. */
  ghost predicate Placed(es: seq<Event>, o: Options) {
    forall k: nat :: k < |es| && IsTag(es[k]) ==> HasPlace(es[k].n, es[..k], o)
  }

  /** A whole document begins with its html element. */
  ghost predicate RootOk(es: seq<Event>, o: Options) {
    o.fragment || forall k: nat :: k < |es| && IsTag(es[k]) && !HasTag(es[..k]) ==> es[k].n == "html"
  }

  /** A whole document is over when its first element is closed; nothing may come then. */
  ghost predicate OneRoot(r: Reading, o: Options) {
    o.fragment || forall k: nat :: 0 < k < Stops(r) && HasTag(r.es[..k]) ==> !Balanced(r.es[..k])
  }

  /** The number of places after which something comes, counted from zero. */
  function Stops(r: Reading): nat { if r.cut then |r.es| + 1 else |r.es| }

  function StackAll(es: seq<Event>, s: Option<seq<string>>, o: Options): Option<Option<seq<string>>> {
    if es == [] then Some(s)
    else
      match StackAll(es[..|es| - 1], s, o)
      case None => None
      case Some(t) => Stack(t, es[|es| - 1], o)
  }

  lemma {:induction false} ReduceCons(e: Event, es: seq<Event>, open: seq<string>)
    ensures Reduce([e] + es, open)
            == match ReduceOne(e, open) case None => None case Some(t) => Reduce(es, t)
  {
    if es == [] {
      assert [e] + es == [e] && [e][..0] == [];
    } else {
      var front := es[..|es| - 1];
      ReduceCons(e, front, open);
      assert ([e] + es)[..|es|] == [e] + front;
    }
  }

  lemma {:induction false} ReduceBoth(es: seq<Event>, fs: seq<Event>, open: seq<string>)
    ensures Reduce(es + fs, open)
            == match Reduce(es, open) case None => None case Some(t) => Reduce(fs, t)
    decreases |fs|
  {
    if fs == [] {
      assert es + fs == es;
    } else {
      var front := fs[..|fs| - 1];
      ReduceBoth(es, front, open);
      assert (es + fs)[..|es + fs| - 1] == es + front;
    }
  }

  /** An element and what comes after it. */
  function Element(n: string, inner: seq<Event>, outer: seq<Event>): seq<Event> {
    [Open(n)] + (inner + ([Close(n)] + outer))
  }

  function Closing(n: string, outer: seq<Event>): seq<Event> { [Close(n)] + outer }

  lemma ReduceElement(n: string, inner: seq<Event>, outer: seq<Event>, open: seq<string>)
    requires Reduce(inner, open + [n]) == Some(open + [n])
    ensures Reduce(Element(n, inner, outer), open) == Reduce(outer, open)
  {
    hide Reduce;
    ReduceCons(Open(n), inner + ([Close(n)] + outer), open);
    ReduceBoth(inner, [Close(n)] + outer, open + [n]);
    ReduceCons(Close(n), outer, open + [n]);
    assert (open + [n])[..|open|] == open;
  }

  lemma BalancedElement(n: string, inner: seq<Event>, outer: seq<Event>)
    requires Balanced(inner) && Balanced(outer)
    ensures Balanced(Element(n, inner, outer))
  {
    var es := Element(n, inner, outer);
    var k := 1 + |inner|;
    assert es[k] == Close(n) && es[1..k] == inner && es[k + 1..] == outer;
  }

  lemma SplitElement(es: seq<Event>, k: nat)
    requires 0 < k < |es| && es[0].Open? && es[k] == Close(es[0].n)
    ensures es == Element(es[0].n, es[1..k], es[k + 1..])
  {
  }

  /** A balanced word that begins with an opening tag is an element and a balanced word. */
  lemma FirstElement(es: seq<Event>) returns (inner: seq<Event>, outer: seq<Event>)
    requires Balanced(es) && es != [] && es[0].Open?
    ensures Balanced(inner) && Balanced(outer) && |inner| < |es| && |outer| < |es|
    ensures es == Element(es[0].n, inner, outer)
  {
    hide Element;
    var k: nat :| 0 < k < |es| && es[k] == Close(es[0].n) && Balanced(es[1..k]) && Balanced(es[k + 1..]);
    inner, outer := es[1..k], es[k + 1..];
    SplitElement(es, k);
  }

  lemma {:induction false} BalancedReduces(es: seq<Event>, open: seq<string>)
    requires Balanced(es)
    ensures Reduce(es, open) == Some(open)
    decreases |es|
  {
    if es != [] {
      var e := es[0];
      if e.Open? {
        var inner, outer := FirstElement(es);
        BalancedReduces(inner, open + [e.n]);
        BalancedReduces(outer, open);
        ReduceElement(e.n, inner, outer, open);
      } else {
        assert es == [e] + es[1..];
        BalancedReduces(es[1..], open);
        ReduceCons(e, es[1..], open);
      }
    }
  }

  lemma BalancedStep(e: Event, es: seq<Event>)
    requires (e.Void? || e.Other?) && Balanced(es)
    ensures Balanced([e] + es)
  {
    assert ([e] + es)[1..] == es;
  }

  lemma ElementThen(n: string, inner: seq<Event>, outer: seq<Event>, fs: seq<Event>)
    ensures Element(n, inner, outer) + fs == Element(n, inner, outer + fs)
  {
  }

  lemma ElementStarts(n: string, inner: seq<Event>, outer: seq<Event>)
    ensures [Open(n)] + (inner + Closing(n, outer)) == Element(n, inner, outer)
  {
  }

  lemma StepThen(e: Event, inner: seq<Event>, outer: seq<Event>)
    ensures [e] + (inner + outer) == ([e] + inner) + outer
  {
  }

  /** An element that is closed in the end is closed by its own tag, around whole elements. */
  lemma {:induction false} ClosingOf(es: seq<Event>, open: seq<string>, n: string)
    returns (inner: seq<Event>, outer: seq<Event>)
    requires Reduce(es, open + [n]).Some? && |Reduce(es, open + [n]).value| <= |open|
    ensures es == inner + Closing(n, outer) && Balanced(inner) && |outer| < |es|
    ensures Reduce(outer, open) == Reduce(es, open + [n])
    decreases |es|
  {
    assert es != [];
    var e, rest := es[0], es[1..];
    assert es == [e] + rest;
    ReduceCons(e, rest, open + [n]);
    assert Balanced([]);
    hide Reduce, Balanced, Element;
    match e
    case Close(m) =>
      assert (open + [n])[..|open|] == open;
      inner, outer := [], rest;
      assert es == [] + Closing(n, rest);
    case Open(m) =>
      hide Closing;
      var first, after := ClosingOf(rest, open + [n], m);
      var second;
      second, outer := ClosingOf(after, open, n);
      inner := Element(m, first, second);
      BalancedElement(m, first, second);
      ElementStarts(m, first, after);
      ElementThen(m, first, second, Closing(n, outer));
    case _ =>
      hide Closing;
      var more;
      more, outer := ClosingOf(rest, open, n);
      inner := [e] + more;
      BalancedStep(e, more);
      StepThen(e, more, Closing(n, outer));
  }

  lemma {:induction false} ReducesBalanced(es: seq<Event>)
    requires Reduce(es, []) == Some([])
    ensures Balanced(es)
    decreases |es|
  {
    if es != [] {
      var e, rest := es[0], es[1..];
      assert es == [e] + rest;
      ReduceCons(e, rest, []);
      if e.Open? {
        assert [] + [e.n] == [e.n];
        var inner, outer := ClosingOf(rest, [], e.n);
        ReducesBalanced(outer);
        BalancedElement(e.n, inner, outer);
        ElementStarts(e.n, inner, outer);
      } else if !e.Close? {
        ReducesBalanced(rest);
      }
    }
  }

  /** The stack comes out empty exactly when the tags are a balanced word. */
  lemma BalancedIff(es: seq<Event>)
    ensures Balanced(es) <==> Reduce(es, []) == Some([])
  {
    if Balanced(es) { BalancedReduces(es, []); }
    if Reduce(es, []) == Some([]) { ReducesBalanced(es); }
  }

  // ------------------------------------------------------------ what is open, told from the tags

  /** What is opened stays open, below what comes later, or is closed around whole elements. */
  lemma {:induction false} ClosedOrKept(es: seq<Event>, open: seq<string>, n: string)
    requires Reduce(es, open + [n]).Some?
    ensures || (exists k: nat :: k < |es| && es[k] == Close(n) && Balanced(es[..k]))
            || (Reduce(es, []).Some? && Reduce(es, open + [n]).value == open + [n] + Reduce(es, []).value)
    decreases |es|
  {
    if es == [] {
      assert open + [n] + [] == open + [n];
    } else {
      hide Balanced;
      var front, e := es[..|es| - 1], es[|es| - 1];
      ClosedOrKept(front, open, n);
      if k: nat :| k < |front| && front[k] == Close(n) && Balanced(front[..k]) {
        assert es[k] == Close(n) && es[..k] == front[..k];
      } else {
        var later := Reduce(front, []).value;
        var all := open + [n] + later;
        if e.Close? && later == [] {
          BalancedIff(front);
          assert all[|all| - 1] == n && es[..|es| - 1] == front;
        } else if e.Close? {
          assert all[|all| - 1] == later[|later| - 1] && all[..|all| - 1] == open + [n] + later[..|later| - 1];
        } else if e.Open? {
          assert all + [e.n] == open + [n] + (later + [e.n]);
        }
      }
    }
  }

  lemma ReduceLast(es: seq<Event>, open: seq<string>)
    requires es != []
    ensures Reduce(es, open)
            == match Reduce(es[..|es| - 1], open) case None => None case Some(t) => ReduceOne(es[|es| - 1], t)
  {
  }

  /** The upper part of the stack, and the same after one more event that leaves the lower part alone. */
  lemma UpperPart(e: Event, open: seq<string>, i: nat)
    requires i < |open| && ReduceOne(e, open).Some? && i < |ReduceOne(e, open).value|
    ensures ReduceOne(e, open[i + 1..]) == Some(ReduceOne(e, open).value[i + 1..])
    ensures ReduceOne(e, open).value[i] == open[i]
  {
    var upper, after := open[i + 1..], ReduceOne(e, open).value;
    if e.Open? {
      assert after[i + 1..] == upper + [e.n];
    } else if e.Close? {
      assert after[i + 1..] == upper[..|upper| - 1];
    }
  }

  /** Where the element at place i of the stack was opened. */
  lemma {:induction false} OpenedAt(es: seq<Event>, i: nat) returns (j: nat)
    requires Reduce(es, []).Some? && i < |Reduce(es, []).value|
    ensures j < |es| && es[j] == Open(Reduce(es, []).value[i])
    ensures Reduce(es[j + 1..], []) == Some(Reduce(es, []).value[i + 1..])
    decreases |es|
  {
    ReduceNothing([]);
    assert es != [];
    hide Reduce;
    var front, e := es[..|es| - 1], es[|es| - 1];
    ReduceLast(es, []);
    var open, before := Reduce(es, []).value, Reduce(front, []).value;
    if e.Open? && i == |open| - 1 {
      j := |es| - 1;
      assert es[j + 1..] == [] && open[i + 1..] == [];
    } else {
      j := OpenedAt(front, i);
      var later := es[j + 1..];
      assert later[..|later| - 1] == front[j + 1..] && later[|later| - 1] == e;
      ReduceLast(later, []);
      UpperPart(e, before, i);
    }
  }

  lemma ReduceNothing(open: seq<string>)
    ensures Reduce([], open) == Some(open)
  {
  }

  lemma SplitReduce(es: seq<Event>, j: nat)
    requires j < |es| && Reduce(es, []).Some? && es[j].Open?
    ensures Reduce(es[..j], []).Some?
    ensures Reduce(es, []) == Reduce(es[j + 1..], Reduce(es[..j], []).value + [es[j].n])
  {
    hide Reduce;
    assert es == es[..j] + ([es[j]] + es[j + 1..]);
    ReduceBoth(es[..j], [es[j]] + es[j + 1..], []);
    if Reduce(es[..j], []).Some? { ReduceCons(es[j], es[j + 1..], Reduce(es[..j], []).value); }
  }

  /** The innermost open element is the top of the stack. */
  lemma InnermostIs(es: seq<Event>, n: string)
    requires Reduce(es, []).Some?
    ensures var open := Reduce(es, []).value; IsInnermost(es, n) <==> open != [] && open[|open| - 1] == n
  {
    hide Reduce, Balanced;
    var open := Reduce(es, []).value;
    if IsInnermost(es, n) {
      var j: nat :| j < |es| && es[j] == Open(n) && Balanced(es[j + 1..]);
      SplitReduce(es, j);
      BalancedReduces(es[j + 1..], Reduce(es[..j], []).value + [n]);
    }
    if open != [] && open[|open| - 1] == n {
      var j := OpenedAt(es, |open| - 1);
      assert open[|open|..] == [];
      BalancedIff(es[j + 1..]);
      assert es[j] == Open(n);
    }
  }

  lemma NoClosing(es: seq<Event>, j: nat)
    requires j < |es| && es[j].Open? && !ClosedAfter(es, j)
    ensures var later := es[j + 1..];
            forall k: nat :: k < |later| && later[k] == Close(es[j].n) ==> !Balanced(later[..k])
  {
    hide Balanced;
    var later := es[j + 1..];
    forall k: nat | k < |later| && later[k] == Close(es[j].n) ensures !Balanced(later[..k]) {
      assert es[j + 1 + k] == later[k] && es[j + 1..j + 1 + k] == later[..k];
    }
  }

  lemma OpenIsOnStack(es: seq<Event>, n: string)
    requires Reduce(es, []).Some? && IsOpen(es, n)
    ensures n in Reduce(es, []).value
  {
    hide Reduce, Balanced, ClosedAfter;
    var j: nat :| j < |es| && es[j] == Open(n) && !ClosedAfter(es, j);
    SplitReduce(es, j);
    var below := Reduce(es[..j], []).value;
    NoClosing(es, j);
    ClosedOrKept(es[j + 1..], below, n);
    assert (below + [n])[|below|] == n;
  }

  lemma StillInside(es: seq<Event>, j: nat)
    requires j < |es| && es[j].Open? && Reduce(es[j + 1..], []).Some?
    ensures !ClosedAfter(es, j)
  {
    hide Reduce, Balanced;
    if ClosedAfter(es, j) {
      var n := es[j].n;
      var k: nat :| j < k < |es| && es[k] == Close(n) && Balanced(es[j + 1..k]);
      assert es[j + 1..] == es[j + 1..k] + ([Close(n)] + es[k + 1..]);
      NotClosed(es[j + 1..k], n, es[k + 1..]);
    }
  }

  /** The open elements are those on the stack. */
  lemma OpenIs(es: seq<Event>, n: string)
    requires Reduce(es, []).Some?
    ensures IsOpen(es, n) <==> n in Reduce(es, []).value
  {
    hide Reduce, Balanced, ClosedAfter;
    var open := Reduce(es, []).value;
    if IsOpen(es, n) { OpenIsOnStack(es, n); }
    if n in open {
      var i :| 0 <= i < |open| && open[i] == n;
      var j := OpenedAt(es, i);
      StillInside(es, j);
      assert es[j] == Open(n);
    }
  }

  lemma NotClosed(first: seq<Event>, n: string, after: seq<Event>)
    requires Balanced(first)
    ensures Reduce(first + ([Close(n)] + after), []) == None
  {
    hide Reduce, Balanced;
    ReduceBoth(first, [Close(n)] + after, []);
    BalancedIff(first);
    ReduceCons(Close(n), after, []);
  }

  lemma HasPlaceIs(n: string, before: seq<Event>, o: Options)
    requires Reduce(before, []).Some?
    ensures HasPlace(n, before, o) <==> MayStand(n, Reduce(before, []).value, o)
  {
    hide Reduce, Balanced, IsInnermost, IsOpen;
    var open := Reduce(before, []).value;
    BalancedIff(before);
    OpenIs(before, "body");
    forall p ensures IsInnermost(before, p) <==> open != [] && open[|open| - 1] == p { InnermostIs(before, p); }
  }

  lemma {:induction false} ClosesWellIs(es: seq<Event>)
    ensures ClosesWell(es) <==> Reduce(es, []).Some?
    decreases |es|
  {
    if es != [] {
      var front, e := es[..|es| - 1], es[|es| - 1];
      ClosesWellIs(front);
      ClosesWellNext(es);
      if Reduce(front, []).Some? && e.Close? { InnermostIs(front, e.n); }
    }
  }

  lemma ClosesWellNext(es: seq<Event>)
    requires es != []
    ensures var front, e := es[..|es| - 1], es[|es| - 1];
            ClosesWell(es) <==> ClosesWell(front) && (e.Close? ==> IsInnermost(front, e.n))
  {
    hide IsInnermost;
    var front, e := es[..|es| - 1], es[|es| - 1];
    assert forall k: nat :: k < |front| ==> es[..k] == front[..k] && es[k] == front[k];
    if ClosesWell(es) {
      forall k: nat | k < |front| && front[k].Close? ensures IsInnermost(front[..k], front[k].n) {
        assert es[k].Close?;
      }
    }
  }

  lemma {:induction false} ReducePrefix(es: seq<Event>, k: nat)
    requires k <= |es| && Reduce(es, []).Some?
    ensures Reduce(es[..k], []).Some?
  {
    assert es == es[..k] + es[k..];
    ReduceBoth(es[..k], es[k..], []);
  }

  /** In terms of the stack or of the tags, the elements stand where they may. */
  lemma PlacedIs(es: seq<Event>, o: Options)
    requires Reduce(es, []).Some?
    ensures Placed(es, o) <==> StackPlaced(es, o)
  {
    hide Reduce, MayStand, HasPlace;
    forall k: nat | k <= |es|
      ensures Reduce(es[..k], []).Some?
      ensures k < |es| && IsTag(es[k]) ==>
                (HasPlace(es[k].n, es[..k], o) <==> MayStand(es[k].n, Reduce(es[..k], []).value, o))
    {
      ReducePrefix(es, k);
      if k < |es| && IsTag(es[k]) { HasPlaceIs(es[k].n, es[..k], o); }
    }
  }

  // ------------------------------------------------------------ the checker is exact

  lemma HasTagNext(es: seq<Event>)
    requires es != []
    ensures HasTag(es) <==> HasTag(es[..|es| - 1]) || IsTag(es[|es| - 1])
  {
    var front := es[..|es| - 1];
    if HasTag(front) {
      var k: nat :| k < |front| && IsTag(front[k]);
      assert IsTag(es[k]);
    }
    if HasTag(es) {
      var k: nat :| k < |es| && IsTag(es[k]);
      if k < |front| { assert IsTag(front[k]); }
    }
  }

  /** No tag is out of place, in terms of the stack. */
  ghost predicate Sound(es: seq<Event>, o: Options) {
    Reduce(es, []).Some? && StackPlaced(es, o) && RootOk(es, o)
  }

  ghost predicate StackPlaced(es: seq<Event>, o: Options) {
    forall k: nat :: k < |es| && IsTag(es[k]) ==>
      Reduce(es[..k], []).Some? && MayStand(es[k].n, Reduce(es[..k], []).value, o)
  }

  lemma SoundNext(es: seq<Event>, o: Options)
    requires es != []
    ensures var front, e := es[..|es| - 1], es[|es| - 1];
            Sound(es, o) <==>
              (Sound(front, o) && Reduce(es, []).Some?
               && (IsTag(e) ==>
                     MayStand(e.n, Reduce(front, []).value, o) && (o.fragment || HasTag(front) || e.n == "html")))
  {
    var front, e := es[..|es| - 1], es[|es| - 1];
    assert forall k: nat :: k <= |front| ==> es[..k] == front[..k];
    assert front[..|front|] == front;
    if Sound(es, o) {
      assert es[..|front|] == front;
      assert StackPlaced(front, o) && RootOk(front, o) by {
        forall k: nat | k < |front| && IsTag(front[k])
          ensures Reduce(front[..k], []).Some? && MayStand(front[k].n, Reduce(front[..k], []).value, o)
          ensures o.fragment || HasTag(front[..k]) || front[k].n == "html"
        {
          assert IsTag(es[k]) && es[..k] == front[..k];
        }
      }
    } else if Sound(front, o) && Reduce(es, []).Some?
              && (IsTag(e) ==>
                    MayStand(e.n, Reduce(front, []).value, o) && (o.fragment || HasTag(front) || e.n == "html")) {
      forall k: nat | k < |es| && IsTag(es[k])
        ensures Reduce(es[..k], []).Some? && MayStand(es[k].n, Reduce(es[..k], []).value, o)
        ensures o.fragment || HasTag(es[..k]) || es[k].n == "html"
      {
        if k < |front| { assert front[k] == es[k] && IsTag(front[k]); }
      }
    }
  }

  /** The checker's stack holds the open elements, unless a rule has been broken. */
  lemma {:induction false} StackIs(es: seq<Event>, o: Options)
    ensures StackAll(es, None, o)
            == if Sound(es, o) then Some(if HasTag(es) then Some(Reduce(es, []).value) else None) else None
    ensures Sound(es, o) && !HasTag(es) ==> Reduce(es, []) == Some([])
    decreases |es|
  {
    if es != [] {
      var front := es[..|es| - 1];
      StackIs(front, o);
      SoundNext(es, o);
      HasTagNext(es);
      hide Sound, HasTag, MayStand, StackAll;
      StackNext(es, None, o);
    }
  }

  lemma StackNext(es: seq<Event>, s: Option<seq<string>>, o: Options)
    requires es != []
    ensures StackAll(es, s, o)
            == match StackAll(es[..|es| - 1], s, o) case None => None case Some(t) => Stack(t, es[|es| - 1], o)
  {
  }

  lemma {:induction false} StackCons(e: Event, es: seq<Event>, s: Option<seq<string>>, o: Options)
    ensures StackAll([e] + es, s, o)
            == match Stack(s, e, o) case None => None case Some(t) => StackAll(es, t, o)
  {
    hide Stack;
    if es == [] {
      assert [e] + es == [e] && [e][..0] == [];
    } else {
      var front := es[..|es| - 1];
      StackCons(e, front, s, o);
      assert ([e] + es)[..|es|] == [e] + front;
    }
  }

  /** The end of the text is no token of the list. */
  ghost predicate EndIsLast(ts: seq<Token>) {
    forall t :: t in ts ==> t.id != "(end)"
  }

  /** The stack is never empty when something comes after a round, once there is one. */
  ghost predicate NeverEmpty(r: Reading, s: Option<seq<string>>, o: Options) {
    forall k: nat :: 0 < k < Stops(r) ==> StackAll(r.es[..k], s, o) != Some(Some([]))
  }

  lemma NeverEmptyCons(e: Event, r: Reading, s: Option<seq<string>>, o: Options)
    requires Stack(s, e, o).Some?
    ensures var t := Stack(s, e, o).value;
            NeverEmpty(r.(es := [e] + r.es), s, o) <==> ((r.es != [] || r.cut ==> t != Some([])) && NeverEmpty(r, t, o))
  {
    var t := Stack(s, e, o).value;
    var es, all := r.es, r.(es := [e] + r.es);
    forall k: nat | 0 < k <= |all.es| ensures StackAll(all.es[..k], s, o) == StackAll(es[..k - 1], t, o) {
      StackCons(e, es[..k - 1], s, o);
      assert all.es[..k] == [e] + es[..k - 1];
    }
    if NeverEmpty(all, s, o) {
      forall k: nat | 0 < k < Stops(r) ensures StackAll(es[..k], t, o) != Some(Some([])) {
        assert StackAll(all.es[..k + 1], s, o) != Some(Some([]));
      }
      if Stops(all) > 1 {
        assert StackAll(all.es[..1], s, o) != Some(Some([]));
        assert es[..0] == [];
      }
    }
    if (r.es != [] || r.cut ==> t != Some([])) && NeverEmpty(r, t, o) {
      forall k: nat | 0 < k < Stops(all) ensures StackAll(all.es[..k], s, o) != Some(Some([])) {
        if k == 1 { assert es[..0] == []; } else { assert StackAll(es[..k - 1], t, o) != Some(Some([])); }
      }
    }
  }

  lemma TraceNone(ts: seq<Token>, o: Options)
    ensures Trace(ts, o).Some? ==> (Trace(ts, o).value == Reading([], false) <==> ts == [])
  {
  }

  /** What the stack must have done for checking to come to its end. */
  ghost predicate Passes(r: Reading, s: Option<seq<string>>, o: Options) {
    && (if r.cut then StackAll(r.es, s, o).Some? else r.es != [] && StackAll(r.es, s, o) == Some(Some([])))
    && (o.fragment || NeverEmpty(r, s, o))
  }

  lemma {:induction false} AcceptsAs(ts: seq<Token>, s: Option<seq<string>>, o: Options)
    requires EndIsLast(ts)
    ensures Accepts(ts, s, o) <==> Trace(ts, o).Some? && Passes(Trace(ts, o).value, s, o)
    decreases |ts|
  {
    var step := Step(ts, o);
    if ts != [] && ts[0].value != "(end)" && step.Some? {
      var e, rest := step.value.0, step.value.1;
      assert EndIsLast(rest);
      var t := Stack(s, e, o);
      if t.Some? { AcceptsAs(rest, t.value, o); }
      if Trace(rest, o).Some? { PassesCons(e, Trace(rest, o).value, s, o); }
      TraceNone(rest, o);
    }
  }

  lemma PassesCons(e: Event, r: Reading, s: Option<seq<string>>, o: Options)
    ensures var all := r.(es := [e] + r.es);
            Passes(all, s, o)
            <==> match Stack(s, e, o)
                 case None => false
                 case Some(t) =>
                   if r == Reading([], false) then t == Some([])
                   else Passes(r, t, o) && (o.fragment || t != Some([]))
  {
    hide Stack, NeverEmpty;
    StackCons(e, r.es, s, o);
    if Stack(s, e, o).Some? {
      NeverEmptyCons(e, r, s, o);
      if r == Reading([], false) { NothingAfter(r, Stack(s, e, o).value, o); }
    }
  }

  lemma NothingAfter(r: Reading, s: Option<seq<string>>, o: Options)
    requires r == Reading([], false)
    ensures NeverEmpty(r, s, o)
  {
  }

  /** A document: its tags are balanced, stand where they may, and begin and end with one root
      (unless it is a fragment). */
  ghost predicate IsDocument(r: Reading, o: Options) {
    !r.cut && HasTag(r.es) && Balanced(r.es) && Placed(r.es, o) && RootOk(r.es, o) && OneRoot(r, o)
  }

  /** What a document might begin with, cut off by `(end)`: no closing tag is out of place, but any
      elements may be open. */
  ghost predicate IsBeginning(r: Reading, o: Options) {
    r.cut && ClosesWell(r.es) && Placed(r.es, o) && RootOk(r.es, o) && OneRoot(r, o)
  }

  lemma {:induction false} SoundPrefix(es: seq<Event>, k: nat, o: Options)
    requires k <= |es| && Sound(es, o)
    ensures Sound(es[..k], o)
    decreases |es|
  {
    if k < |es| {
      SoundNext(es, o);
      SoundPrefix(es[..|es| - 1], k, o);
      assert es[..|es| - 1][..k] == es[..k];
    } else {
      assert es[..k] == es;
    }
  }

  lemma NeverEmptyIs(r: Reading, o: Options)
    requires Sound(r.es, o) && !o.fragment
    ensures NeverEmpty(r, None, o) <==> OneRoot(r, o)
  {
    var es := r.es;
    forall k: nat | k <= |es|
      ensures StackAll(es[..k], None, o) == Some(Some([])) <==> HasTag(es[..k]) && Balanced(es[..k])
    {
      SoundPrefix(es, k, o);
      StackIs(es[..k], o);
      BalancedIff(es[..k]);
    }
  }

  /** Of all lists of tokens, the checker accepts exactly those whose tags make up a document, and those
      that a token with the text `(end)` cuts off within one. */
  lemma AcceptsDocuments(ts: seq<Token>, o: Options)
    requires EndIsLast(ts)
    ensures Accepts(ts, None, o)
            <==> Trace(ts, o).Some? && (IsDocument(Trace(ts, o).value, o) || IsBeginning(Trace(ts, o).value, o))
  {
    AcceptsAs(ts, None, o);
    if Trace(ts, o).Some? {
      var r := Trace(ts, o).value;
      StackIs(r.es, o);
      BalancedIff(r.es);
      ClosesWellIs(r.es);
      if Reduce(r.es, []).Some? { PlacedIs(r.es, o); }
      if Sound(r.es, o) && !o.fragment { NeverEmptyIs(r, o); }
    }
  }

  // ------------------------------------------------------------ texts as the lexer puts them out

  /** What the lexer puts at the head of a round: only a string has the text `(end)`, and behind a
      tag or a declaration, where the lexer skips everything up to the next one, there is no string. */
  predicate HeadsLexed(ts: seq<Token>, marked: bool, o: Options)
    decreases |ts|
  {
    ts != [] ==>
      && (ts[0].value == "(end)" ==> ts[0].id == "(string)")
      && (marked ==> ts[0].id != "(string)")
      && (Step(ts, o).Some? ==> HeadsLexed(Step(ts, o).value.1, marked || IsMarkup(ts[0]), o))
  }

  predicate IsMarkup(t: Token) { t.value in {"<", "</", "<!"} }

  ghost predicate FromLexer(ts: seq<Token>, o: Options) {
    EndIsLast(ts) && HeadsLexed(ts, false, o)
  }

  lemma {:induction false} CutBeforeMarkup(ts: seq<Token>, marked: bool, o: Options)
    requires HeadsLexed(ts, marked, o)
    requires Trace(ts, o).Some? && Trace(ts, o).value.cut
    ensures !marked && AllOther(Trace(ts, o).value.es)
    decreases |ts|
  {
    hide OpeningTag, ClosingTag, Declaration;
    if ts[0].value != "(end)" {
      CutBeforeMarkup(Step(ts, o).value.1, marked || IsMarkup(ts[0]), o);
    }
  }

  predicate AllOther(es: seq<Event>) { forall k :: 0 <= k < |es| ==> es[k] == Other }

  lemma {:induction false} OthersReduce(es: seq<Event>)
    requires AllOther(es)
    ensures Reduce(es, []) == Some([]) && !HasTag(es)
  {
    if es != [] { OthersReduce(es[..|es| - 1]); }
  }

  lemma CutIsBeginning(r: Reading, o: Options)
    requires r.cut && AllOther(r.es)
    ensures IsBeginning(r, o) && !HasTag(r.es)
  {
    hide Reduce;
    OthersReduce(r.es);
    forall k: nat | k <= |r.es| ensures !HasTag(r.es[..k]) { OthersReduce(r.es[..k]); }
  }

  /** Of the texts that the lexer puts out, the checker accepts exactly the documents, and those in
      which a string `(end)` comes before any tag. */
  lemma AcceptsTexts(ts: seq<Token>, o: Options)
    requires FromLexer(ts, o)
    ensures Accepts(ts, None, o)
            <==> Trace(ts, o).Some? && (IsDocument(Trace(ts, o).value, o) || Trace(ts, o).value.cut)
    ensures Trace(ts, o).Some? && Trace(ts, o).value.cut ==> !HasTag(Trace(ts, o).value.es)
  {
    hide Trace, Accepts, HeadsLexed;
    AcceptsDocuments(ts, o);
    if Trace(ts, o).Some? && Trace(ts, o).value.cut {
      CutBeforeMarkup(ts, false, o);
      CutIsBeginning(Trace(ts, o).value, o);
    }
  }

  // ------------------------------------------------------------ names and declarations

  /** The same letter, small or capital. */
  predicate SameLetter(c: char, d: char) {
    c == d || ('A' <= c <= 'Z' && d as int == c as int + 32) || ('A' <= d <= 'Z' && c as int == d as int + 32)
  }

  lemma {:induction false} LowerIs(s: string)
    ensures |Lower(s)| == |s|
    ensures forall i :: 0 <= i < |s| ==> SameLetter(Lower(s)[i], s[i]) && !('A' <= Lower(s)[i] <= 'Z')
  {
    if s != [] { LowerIs(s[1..]); }
  }

  /** Two names are of the same element if they are the same, or with option.cap if they differ in
      small and capital letters only. */
  lemma NamesMatch(s: string, t: string, o: Options)
    ensures TagName(s, o) == TagName(t, o)
            <==> if o.cap then |s| == |t| && forall i :: 0 <= i < |s| ==> SameLetter(s[i], t[i]) else s == t
  {
    LowerIs(s);
    LowerIs(t);
    if o.cap && |s| == |t| && forall i :: 0 <= i < |s| ==> SameLetter(s[i], t[i]) {
      forall i | 0 <= i < |s| ensures Lower(s)[i] == Lower(t)[i] { assert SameLetter(Lower(s)[i], s[i]); }
    }
  }

  /** A declaration is passed up to its `>` if nothing in it holds a comment sign or an angle. */
  lemma {:induction false} DeclarationRead(open: Token, inner: seq<Token>, rest: seq<Token>)
    requires forall t :: t in inner ==> t.id !in {">", "(end)"}
    ensures Declaration([open] + (inner + ([Punctuator(">")] + rest)))
            == if forall t :: t in inner ==> forall i: nat :: i < |t.value| ==> !IsSign(t.value, i)
               then Some((Other, rest)) else None
    decreases |inner|
  {
    var ts := inner + ([Punctuator(">")] + rest);
    assert Skip([open] + ts) == ts;
    if inner == [] {
      assert ts == [Punctuator(">")] + rest && Skip(ts) == rest;
    } else {
      var t := inner[0];
      assert ts == [t] + (inner[1..] + ([Punctuator(">")] + rest));
      assert inner == [t] + inner[1..];
      SignsIn(t.value);
      DeclarationRead(t, inner[1..], rest);
    }
  }

  /** A comment sign or an angle is at i. */
  predicate IsSign(v: string, i: nat)
    requires i < |v|
  {
    v[i] in {'<', '>'} || (i + 1 < |v| && v[i] == '-' == v[i + 1])
  }

  lemma SignsIn(v: string)
    ensures Contains(v, "--") || Contains(v, "<") || Contains(v, ">") <==> exists i: nat :: i < |v| && IsSign(v, i)
  {
    if i: nat :| i < |v| && IsSign(v, i) {
      assert v[i] == '<' ==> "<" <= v[i..];
      assert v[i] == '>' ==> ">" <= v[i..];
      assert i + 1 < |v| && v[i] == '-' == v[i + 1] ==> "--" <= v[i..];
    }
    if Contains(v, "--") { SignAt(v, "--"); }
    if Contains(v, "<") { SignAt(v, "<"); }
    if Contains(v, ">") { SignAt(v, ">"); }
  }

  lemma SignAt(v: string, part: string)
    requires Contains(v, part) && part in {"--", "<", ">"}
    ensures exists i: nat :: i < |v| && IsSign(v, i)
  {
    var i: nat :| i <= |v| && part <= v[i..];
    assert v[i] == v[i..][0] == part[0];
    assert |part| == 2 ==> v[i + 1] == v[i..][1] == part[1];
    assert IsSign(v, i);
  }

  // ------------------------------------------------------------ where acceptance says less

  lemma {:induction false} OpenIsNotEmpty(ts: seq<Token>, o: Options)
    ensures Trace(ts, o).Some? ==>
              forall e :: e in Trace(ts, o).value.es && e.Open? ==> e.n in o.table && !o.table[e.n].empty
    decreases |ts|
  {
    if ts != [] && ts[0].value != "(end)" && Step(ts, o).Some? {
      OpenIsNotEmpty(Step(ts, o).value.1, o);
    }
  }

  lemma {:induction false} OpenedBefore(es: seq<Event>, open: seq<string>, n: string)
    requires Reduce(es, open).Some? && Close(n) in es
    ensures Open(n) in es || n in open
    decreases |es|
  {
    var front, e := es[..|es| - 1], es[|es| - 1];
    if Close(n) in front {
      OpenedBefore(front, open, n);
    } else {
      assert e == Close(n);
      StillOpen(front, open, n);
    }
  }

  lemma {:induction false} StillOpen(es: seq<Event>, open: seq<string>, n: string)
    requires Reduce(es, open).Some? && n in Reduce(es, open).value
    ensures Open(n) in es || n in open
    decreases |es|
  {
    if es != [] {
      var front, e := es[..|es| - 1], es[|es| - 1];
      if n in Reduce(front, open).value { StillOpen(front, open, n); } else { assert e == Open(n); }
    }
  }

  /** An element that the table calls empty may not be closed by a tag of its own. */
  lemma EmptyIsNeverClosed(ts: seq<Token>, o: Options, n: string)
    requires EndIsLast(ts) && n in o.table && o.table[n].empty
    requires Trace(ts, o).Some? && Close(n) in Trace(ts, o).value.es
    ensures !Accepts(ts, None, o)
  {
    if Accepts(ts, None, o) {
      AcceptsDocuments(ts, o);
      var es := Trace(ts, o).value.es;
      BalancedIff(es);
      OpenIsNotEmpty(ts, o);
      OpenedBefore(es, [], n);
    }
  }

  function Punctuator(p: string): Token { Token(p, p, false) }
  function Word(n: string): Token { Token("(identifier)", n, true) }

  /** `<script></b>` is taken for a whole element: the name of the closing tag is not looked at. */
  lemma ScriptEndsWithAnyTag(o: Options)
    requires o.fragment && !o.cap && "script" in o.table && o.table["script"].empty
    ensures Accepts([Punctuator("<"), Word("script"), Punctuator(">"),
                     Punctuator("</"), Word("b"), Punctuator(">")], None, o)
  {
    var g := Punctuator(">");
    var t4 := [Punctuator("</"), Word("b"), g];
    var t2 := [g] + t4;
    var ts := [Punctuator("<"), Word("script")] + t2;
    assert ts == [Punctuator("<"), Word("script"), g, Punctuator("</"), Word("b"), g];
    assert Skip(ts) == [Word("script")] + t2 && Skip(Skip(ts)) == t2 && Skip(t2) == t4;
    assert [ '>' ] <= ">";
    assert Attributes(t2, false) == Some((t2, false));
    assert RawText(t4) == t4;
    assert Skip(Skip(t4)) == [g] && Skip([g]) == [];
    assert Step(ts, o) == Some((Void("script"), []));
  }

  lemma {:induction false} AttributesLocal(a: seq<Token>, g: Token, rest: seq<Token>, src: bool)
    requires [ '>' ] <= g.id && Attributes(a + [g], src).Some? && Attributes(a + [g], src).value.0 == [g]
    ensures Attributes(a + ([g] + rest), src) == Some(([g] + rest, Attributes(a + [g], src).value.1))
    decreases |a|
  {
    var ts, us := a + [g], a + ([g] + rest);
    if a == [] {
      assert ts == [g] && us == [g] + rest;
    } else {
      var b, c := a[1..], if |a| > 1 then a[2..] else [];
      assert ts[1..] == b + [g] && us[1..] == b + ([g] + rest) && us[0] == ts[0] == a[0];
      if b != [] { assert ts[2..] == c + [g] && us[2..] == c + ([g] + rest); }
      if b != [] && c != [] { assert ts[3..] == c[1..] + [g] && us[3..] == c[1..] + ([g] + rest); }
      if a[0].id == "/" {
        assert b == [];
        assert us[1..] == [g] + rest;
      } else {
        var n := Lower(a[0].value);
        if b != [] && b[0].id == "=" {
          assert c != [];
          AttributesLocal(c[1..], g, rest, if n == "src" then c[0].value != "" else src);
        } else {
          AttributesLocal(b, g, rest, n == "src" || src);
        }
      }
    }
  }

  lemma {:induction false} RawTextPassed(raw: seq<Token>, close: Token, rest: seq<Token>)
    requires close.id == "</" && forall t :: t in raw ==> t.id !in {"</", "(end)"}
    ensures RawText(raw + ([close] + rest)) == [close] + rest
    decreases |raw|
  {
    if raw == [] {
      assert raw + ([close] + rest) == [close] + rest;
    } else {
      assert (raw + ([close] + rest))[1..] == raw[1..] + ([close] + rest);
      assert (raw + ([close] + rest))[0] == raw[0];
      RawTextPassed(raw[1..], close, rest);
    }
  }

  /** A script or a style: its tag's attributes a up to g, its text, and a closing tag named m. */
  function RawOne(name: Token, a: seq<Token>, g: Token, raw: seq<Token>, m: Token, rest: seq<Token>): seq<Token> {
    [Punctuator("<"), name] + (a + ([g] + (raw + ([Punctuator("</")] + ([m] + rest)))))
  }

  lemma RawOneRead(name: Token, a: seq<Token>, g: Token, raw: seq<Token>, m: Token, rest: seq<Token>, o: Options)
    requires TagName(name.value, o) in {"script", "style"}
    requires [ '>' ] <= g.id && Attributes(a + [g], false).Some? && Attributes(a + [g], false).value.0 == [g]
    requires forall t :: t in raw ==> t.id !in {"</", "(end)"}
    requires TagName(name.value, o) == "script" && Attributes(a + [g], false).value.1 ==> raw == []
    ensures var n := TagName(name.value, o);
            Step(RawOne(name, a, g, raw, m, rest), o)
            == if n in o.table then Some((if o.table[n].empty then Void(n) else Open(n), Skip(rest))) else None
  {
    hide Attributes, RawElement, Lower, RawOne;
    var t2 := raw + ([Punctuator("</")] + ([m] + rest));
    AttributesLocal(a, g, t2, false);
    RawElementRead(g, raw, m, rest, true);
    if raw == [] { RawElementRead(g, raw, m, rest, false); }
    RawOneParts(name, a, g, raw, m, rest);
  }

  lemma RawOneParts(name: Token, a: seq<Token>, g: Token, raw: seq<Token>, m: Token, rest: seq<Token>)
    ensures var ts := RawOne(name, a, g, raw, m, rest);
            && Next(ts).value == "<" && Next(Skip(ts)) == name
            && Skip(Skip(ts)) == a + ([g] + (raw + ([Punctuator("</")] + ([m] + rest))))
  {
    var t1 := a + ([g] + (raw + ([Punctuator("</")] + ([m] + rest))));
    assert ([Punctuator("<"), name] + t1)[1..] == [name] + t1 && ([name] + t1)[1..] == t1;
  }

  lemma RawElementRead(g: Token, raw: seq<Token>, m: Token, rest: seq<Token>, text: bool)
    requires (forall t :: t in raw ==> t.id !in {"</", "(end)"}) && (text || raw == [])
    ensures RawElement([g] + (raw + ([Punctuator("</")] + ([m] + rest))), text) == rest
  {
    hide RawText;
    var t4 := [m] + rest;
    var t3 := [Punctuator("</")] + t4;
    RawTextPassed(raw, Punctuator("</"), t4);
    assert ([g] + (raw + t3))[1..] == raw + t3 && t3[1..] == t4 && t4[1..] == rest;
    assert raw == [] ==> raw + t3 == t3;
  }

  /** The name of the tag that closes a script or a style is not looked at: with any other name the
      text is accepted or refused alike, whatever comes after it and whatever is open. */
  lemma RawNameIgnored(name: Token, a: seq<Token>, g: Token, raw: seq<Token>, m: Token, k: Token, rest: seq<Token>,
                       s: Option<seq<string>>, o: Options)
    requires TagName(name.value, o) in {"script", "style"}
    requires [ '>' ] <= g.id && Attributes(a + [g], false).Some? && Attributes(a + [g], false).value.0 == [g]
    requires forall t :: t in raw ==> t.id !in {"</", "(end)"}
    requires TagName(name.value, o) == "script" && Attributes(a + [g], false).value.1 ==> raw == []
    ensures Accepts(RawOne(name, a, g, raw, m, rest), s, o) == Accepts(RawOne(name, a, g, raw, k, rest), s, o)
  {
    RawOneRead(name, a, g, raw, m, rest, o);
    RawOneRead(name, a, g, raw, k, rest, o);
    hide Step;
    SameStep(RawOne(name, a, g, raw, m, rest), RawOne(name, a, g, raw, k, rest), s, o);
  }

  lemma SameStep(ts: seq<Token>, us: seq<Token>, s: Option<seq<string>>, o: Options)
    requires Next(ts).value == Next(us).value && Step(ts, o) == Step(us, o)
    ensures Accepts(ts, s, o) == Accepts(us, s, o)
  {
    hide Step, Stack;
  }

  /** `<= "(end)"` is accepted, and whatever comes after it is not looked at. */
  lemma StringEndsChecking(rest: seq<Token>, o: Options)
    ensures var ts := [Punctuator("<="), Token("(string)", "(end)", false)];
            FromLexer(ts, o) && Accepts(ts + rest, None, o)
  {
    var s := Token("(string)", "(end)", false);
    var ts := [Punctuator("<="), s];
    assert Skip(ts) == [s] && Skip([s]) == [];
    assert Step(ts, o) == Some((Other, [s]));
    assert Step([s], o) == Some((Other, []));
    assert HeadsLexed([s], false, o) && HeadsLexed(ts, false, o);
    assert Skip(ts + rest) == [s] + rest;
    assert Step(ts + rest, o) == Some((Other, [s] + rest));
    assert Accepts([s] + rest, None, o);
  }

  // ------------------------------------------------------------ the loop

  class Checker {
    const o: Options
    var ts: seq<Token>
    var stack: Option<seq<string>>

    constructor (ts: seq<Token>, o: Options)
      ensures this.ts == ts && this.o == o && stack == None
    {
      this.ts, this.o, stack := ts, o, None;
    }

    method Advance()
      modifies this`ts
      ensures ts == Skip(old(ts))
    {
      if ts != [] { ts := ts[1..]; }
    }

    method ParseAttributes() returns (ok: bool, src: bool)
      modifies this`ts
      ensures Attributes(old(ts), false) == if ok then Some((ts, src)) else None
    {
      src := false;
      while true
        invariant Attributes(ts, src) == Attributes(old(ts), false)
        decreases |ts|
      {
        var t := Next(ts);
        if t.id == "/" {
          Advance();
          return true, src;
        }
        if [ '>' ] <= t.id { return true, src; }
        if ts == [] || (!t.identifier && t.id in {"(end)", "(error)"}) { return false, src; }
        var a := Lower(t.value);
        Advance();
        if Next(ts).id == "=" {
          Advance();
          var v := Next(ts).value;
          Advance();
          if a == "src" { src := v != ""; }
        } else if a == "src" {
          src := true;
        }
      }
    }

    /** The content and the closing tag of a script or a style. */
    method PassRawElement(text: bool)
      modifies this`ts
      ensures ts == RawElement(old(ts), text)
    {
      Advance();
      ghost var start := ts;
      if text {
        while ts != [] && ts[0].id !in {"</", "(end)"}
          invariant RawText(ts) == RawText(start)
          decreases |ts|
        {
          ts := ts[1..];
        }
      }
      Advance();
      Advance();
    }

    method OpenTag() returns (ok: bool)
      requires ts != [] && ts[0].value == "<"
      modifies this
      ensures var r := OpeningTag(old(ts), o);
              ok <==> r.Some? && Stack(old(stack), r.value.0, o).Some?
      ensures ok ==> var r := OpeningTag(old(ts), o).value;
                ts == r.1 && stack == Stack(old(stack), r.0, o).value
    {
      Advance();
      var n := TagName(Next(ts).value, o);
      Advance();
      if stack == None {
        if n != "html" && !o.fragment { return false; }
        stack := Some([]);
      }
      if n !in o.table { return false; }
      var src;
      ok, src := ParseAttributes();
      if !ok { return; }
      if !MayStand(n, stack.value, o) { return false; }
      if n == "script" {
        PassRawElement(!src);
      } else if n == "style" {
        PassRawElement(true);
      }
      if !o.table[n].empty { stack := Some(stack.value + [n]); }
      Advance();
    }

    method CloseTag() returns (ok: bool)
      requires ts != [] && ts[0].value == "</"
      modifies this
      ensures var r := ClosingTag(old(ts), o);
              ok <==> r.Some? && Stack(old(stack), r.value.0, o).Some?
      ensures ok ==> var r := ClosingTag(old(ts), o).value;
                ts == r.1 && stack == Stack(old(stack), r.0, o).value
    {
      Advance();
      var n := TagName(Next(ts).value, o);
      Advance();
      if stack == None || stack.value == [] { return false; }
      var open := stack.value;
      var last := open[|open| - 1];
      stack := Some(open[..|open| - 1]);
      if last != n || Next(ts).id != ">" { return false; }
      Advance();
      return true;
    }

    method PassDeclaration() returns (ok: bool)
      requires ts != []
      modifies this`ts
      ensures ok <==> Declaration(old(ts)).Some?
      ensures ok ==> ts == Declaration(old(ts)).value.1
    {
      while true
        invariant ts != [] && Declaration(ts) == Declaration(old(ts))
        decreases |ts|
      {
        Advance();
        var t := Next(ts);
        if t.id == ">" || ts == [] || t.id == "(end)" { break; }
        if Contains(t.value, "--") || Contains(t.value, "<") || Contains(t.value, ">") { return false; }
      }
      Advance();
      return true;
    }

    /** Goes over the text; false is an error that ends checking. */
    method Html() returns (ok: bool)
      modifies this
      ensures ok == Accepts(old(ts), None, o)
    {
      stack := None;
      while true
        invariant Accepts(ts, stack, o) == Accepts(old(ts), None, o)
        decreases |ts|
      {
        var t := Next(ts);
        if t.value == "(end)" { return true; }
        if t.value == "<" {
          ok := OpenTag();
        } else if t.value == "</" {
          ok := CloseTag();
        } else if t.value == "<!" {
          ok := PassDeclaration();
        } else if t.id == "(end)" {
          ok := false;
        } else {
          Advance();
          ok := true;
        }
        if !ok { return; }
        if stack == Some([]) && (!o.fragment || Next(ts).id == "(end)") { break; }
      }
      return Next(ts).id == "(end)";
    }

    /** When checking ends without an error, the tags are well nested up to where it ends. */
    method Check() returns (ok: bool)
      modifies this
      ensures EndIsLast(old(ts)) ==>
                var r := Trace(old(ts), o);
                ok <==> r.Some? && (IsDocument(r.value, o) || IsBeginning(r.value, o))
      ensures FromLexer(old(ts), o) ==>
                var r := Trace(old(ts), o);
                ok <==> r.Some? && (IsDocument(r.value, o) || r.value.cut)
    {
      if EndIsLast(ts) { AcceptsDocuments(ts, o); }
      if FromLexer(ts, o) { AcceptsTexts(ts, o); }
      ok := Html();
    }
  }
}
