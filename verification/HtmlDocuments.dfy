/** Documents as trees, written out as tags: which trees the loop over tags lets pass. */
module HtmlDocuments {
  import opened Wrappers
  import opened HtmlChecker

  datatype Attribute = Bare(name: Token) | Valued(name: Token, value: Token)

  datatype Content =
    | Piece(token: Token)                                                             // no tag
    | Single(name: Token, attributes: seq<Attribute>, slash: bool)                    // <br> or <br/>
    | Raw(name: Token, attributes: seq<Attribute>, text: seq<Token>, closer: Token)   // a script or a style
    | Element(name: Token, attributes: seq<Attribute>, inner: seq<Content>, closer: Token)

  // ------------------------------------------------------------ writing a tree out

  function AttributeTokens(a: Attribute): seq<Token> {
    match a
    case Bare(name) => [name]
    case Valued(name, value) => [name, Punctuator("="), value]
  }

  function AllAttributes(attributes: seq<Attribute>): seq<Token> {
    if attributes == [] then [] else AttributeTokens(attributes[0]) + AllAttributes(attributes[1..])
  }

  const GREATER := Punctuator(">")

  /** A tag with everything in it, and what follows. */
  function TagThen(name: Token, attributes: seq<Attribute>, slash: bool, rest: seq<Token>): seq<Token> {
    [Punctuator("<"), name] + (AllAttributes(attributes) + TagEnd(slash, rest))
  }

  function TagEnd(slash: bool, rest: seq<Token>): seq<Token> {
    if slash then [Punctuator("/"), GREATER] + rest else [GREATER] + rest
  }

  function ClosingThen(closer: Token, rest: seq<Token>): seq<Token> { [Punctuator("</"), closer, GREATER] + rest }

  /** The tokens of a tree, and what follows. */
  function Write(c: Content, rest: seq<Token>): seq<Token>
    decreases c, 0
  {
    match c
    case Piece(t) => [t] + rest
    case Single(name, attributes, slash) => TagThen(name, attributes, slash, rest)
    case Raw(name, attributes, text, closer) =>
      TagThen(name, attributes, false, text + ClosingThen(closer, rest))
    case Element(name, attributes, inner, closer) =>
      TagThen(name, attributes, false, WriteAll(inner, ClosingThen(closer, rest)))
  }

  function WriteAll(cs: seq<Content>, rest: seq<Token>): seq<Token>
    decreases cs, 0
  {
    if cs == [] then rest else Write(cs[0], WriteAll(cs[1..], rest))
  }

  // ------------------------------------------------------------ which trees are meant

  /** No token of an attribute is taken for something else. */
  predicate AttributesOk(attributes: seq<Attribute>) {
    forall a :: a in attributes ==>
      a.name.id !in {"/", "=", "(end)", "(error)"} && !([ '>' ] <= a.name.id)
  }

  /** Whether the last `src` attribute, if there is one, is not empty. */
  function HasSource(attributes: seq<Attribute>, otherwise: bool): bool {
    if attributes == [] then otherwise
    else
      var a := attributes[0];
      HasSource(attributes[1..], if Lower(a.name.value) != "src" then otherwise else a.Bare? || a.value.value != "")
  }

  /** A tree in which the tags are written as the table has them: those without content, scripts and
      styles, and all others. */
  predicate IsMeant(c: Content, o: Options)
    decreases c, 0
  {
    match c
    case Piece(t) => t.value !in {"<", "</", "<!", "(end)"} && t.id != "(end)"
    case Single(name, attributes, _) =>
      var n := TagName(name.value, o);
      AttributesOk(attributes) && n !in {"script", "style"} && (n in o.table ==> o.table[n].empty)
    case Raw(name, attributes, text, _) =>
      var n := TagName(name.value, o);
      && AttributesOk(attributes) && n in {"script", "style"} && (n in o.table ==> o.table[n].empty)
      && (forall t :: t in text ==> t.id !in {"</", "(end)"})
      && (n == "script" && HasSource(attributes, false) ==> text == [])
    case Element(name, attributes, inner, _) =>
      var n := TagName(name.value, o);
      && AttributesOk(attributes) && n !in {"script", "style"} && (n in o.table ==> !o.table[n].empty)
      && AllMeant(inner, o)
  }

  predicate AllMeant(cs: seq<Content>, o: Options)
    decreases cs, 0
  {
    cs == [] || (IsMeant(cs[0], o) && AllMeant(cs[1..], o))
  }

  /** The tree is in order inside its parent, if it has one: the table knows every element, each has a
      parent the table allows, those without a choice of parents are somewhere in the body unless this
      is a fragment, no html is inside another element, and every element is closed by its name. */
  predicate InOrder(c: Content, parent: Option<string>, inBody: bool, o: Options)
    decreases c, 0
  {
    c.Piece?
    || (var n := TagName(c.name.value, o);
        && n in o.table
        && (parent.Some? ==> n != "html")
        && (parent.Some? && o.table[n].parents.Some? ==> parent.value in o.table[n].parents.value)
        && (parent.Some? && o.table[n].parents.None? && !o.fragment ==> inBody)
        && (c.Element? ==>
              TagName(c.closer.value, o) == n && AllInOrder(c.inner, Some(n), inBody || n == "body", o)))
  }

  predicate AllInOrder(cs: seq<Content>, parent: Option<string>, inBody: bool, o: Options)
    decreases cs, 0
  {
    cs == [] || (InOrder(cs[0], parent, inBody, o) && AllInOrder(cs[1..], parent, inBody, o))
  }

  // ------------------------------------------------------------ one tag

  lemma {:induction false} AttributesRead(attributes: seq<Attribute>, end: seq<Token>, src: bool)
    requires AttributesOk(attributes) && end != [] && (end[0].id == "/" || [ '>' ] <= end[0].id)
    ensures Attributes(AllAttributes(attributes) + end, src)
         == Some((if end[0].id == "/" then Skip(end) else end, HasSource(attributes, src)))
    decreases |attributes|
  {
    hide Attributes, Lower, AttributesOk, AttributeTokens;
    if attributes == [] {
      assert AllAttributes(attributes) + end == end;
      EndRead(end, src);
    } else {
      var a, more := attributes[0], attributes[1..];
      var ts := AllAttributes(more) + end;
      var src' := if Lower(a.name.value) != "src" then src else a.Bare? || a.value.value != "";
      FirstTokens(attributes, end);
      FewerOk(attributes);
      AttributesRead(more, end, src');
      FirstToken(more, end);
      OneAttributeRead(a, ts, src);
      assert HasSource(attributes, src) == HasSource(more, src');
    }
  }

  lemma FirstTokens(attributes: seq<Attribute>, end: seq<Token>)
    requires attributes != []
    ensures AllAttributes(attributes) + end == AttributeTokens(attributes[0]) + (AllAttributes(attributes[1..]) + end)
  {
  }

  lemma OneAttributeRead(a: Attribute, ts: seq<Token>, src: bool)
    requires AttributesOk([a]) && Next(ts).id != "="
    ensures Attributes(AttributeTokens(a) + ts, src)
         == Attributes(ts, if Lower(a.name.value) != "src" then src else a.Bare? || a.value.value != "")
  {
    hide Attributes, Lower, AttributesOk;
    match a
    case Bare(name) => BareRead(name, ts, src);
    case Valued(name, value) =>
      assert AttributeTokens(a) + ts == [name] + ([Punctuator("=")] + ([value] + ts));
      ValuedRead(name, value, ts, src);
  }

  lemma EndRead(end: seq<Token>, src: bool)
    requires end != [] && (end[0].id == "/" || [ '>' ] <= end[0].id)
    ensures Attributes(end, src) == Some((if end[0].id == "/" then Skip(end) else end, src))
  {
  }

  lemma FewerOk(attributes: seq<Attribute>)
    requires AttributesOk(attributes) && attributes != []
    ensures AttributesOk([attributes[0]]) && AttributesOk(attributes[1..])
  {
  }

  lemma FirstToken(attributes: seq<Attribute>, end: seq<Token>)
    requires AttributesOk(attributes) && end != [] && (end[0].id == "/" || [ '>' ] <= end[0].id)
    ensures Next(AllAttributes(attributes) + end).id != "="
  {
    if attributes == [] {
      assert AllAttributes(attributes) + end == end;
      assert [ '>' ] <= end[0].id ==> end[0].id[0] == '>';
    } else {
      assert attributes[0] in attributes;
    }
  }

  lemma BareRead(name: Token, ts: seq<Token>, src: bool)
    requires AttributesOk([Bare(name)]) && Next(ts).id != "="
    ensures Attributes([name] + ts, src) == Attributes(ts, if Lower(name.value) != "src" then src else true)
  {
    hide Lower;
    assert Bare(name) in [Bare(name)];
    assert Skip([name] + ts) == ts;
  }

  lemma ValuedRead(name: Token, value: Token, ts: seq<Token>, src: bool)
    requires AttributesOk([Valued(name, value)])
    ensures Attributes([name] + ([Punctuator("=")] + ([value] + ts)), src)
         == Attributes(ts, if Lower(name.value) != "src" then src else value.value != "")
  {
    hide Lower;
    assert Valued(name, value) in [Valued(name, value)];
    var us := [value] + ts;
    var vs := [Punctuator("=")] + us;
    assert Skip([name] + vs) == vs && Skip(vs) == us && Skip(us) == ts;
  }

  lemma TagRead(name: Token, attributes: seq<Attribute>, slash: bool, rest: seq<Token>, o: Options)
    requires AttributesOk(attributes)
    ensures var n := TagName(name.value, o);
            n !in {"script", "style"} ==>
              Step(TagThen(name, attributes, slash, rest), o)
              == if n !in o.table then None else Some((if o.table[n].empty then Void(n) else Open(n), rest))
  {
    hide Attributes, Lower, AllAttributes, RawElement, TagThen, Skip, TagName, TagEnd, AttributesOk;
    TagParts(name, attributes, slash, rest);
    AttributesRead(attributes, TagEnd(slash, rest), false);
  }

  lemma TagParts(name: Token, attributes: seq<Attribute>, slash: bool, rest: seq<Token>)
    ensures var ts := TagThen(name, attributes, slash, rest);
            && ts != [] && ts[0].value == "<" && Next(Skip(ts)) == name
            && Skip(Skip(ts)) == AllAttributes(attributes) + TagEnd(slash, rest)
    ensures var end := TagEnd(slash, rest);
            && end != [] && (end[0].id == "/" || [ '>' ] <= end[0].id)
            && Skip(if end[0].id == "/" then Skip(end) else end) == rest
  {
    var ts := TagThen(name, attributes, slash, rest);
    assert Skip(ts) == [name] + (AllAttributes(attributes) + TagEnd(slash, rest));
    assert [ '>' ] <= ">";
    assert Skip([Punctuator("/"), GREATER] + rest) == [GREATER] + rest && Skip([GREATER] + rest) == rest;
  }

  lemma ClosingRead(closer: Token, rest: seq<Token>, o: Options)
    ensures Step(ClosingThen(closer, rest), o) == Some((Close(TagName(closer.value, o)), rest))
  {
    hide Lower;
    var ts := ClosingThen(closer, rest);
    assert Skip(ts) == [closer, GREATER] + rest && Skip(Skip(ts)) == [GREATER] + rest;
    assert Skip([GREATER] + rest) == rest;
  }

  lemma RawRead(c: Content, rest: seq<Token>, o: Options)
    requires c.Raw? && IsMeant(c, o)
    ensures var n := TagName(c.name.value, o);
            Step(Write(c, rest), o) == if n in o.table then Some((Void(n), rest)) else None
  {
    hide Lower, Step, Attributes;
    var a := AllAttributes(c.attributes);
    var more := [GREATER] + rest;
    assert [ '>' ] <= ">";
    AttributesRead(c.attributes, [GREATER], false);
    assert Write(c, rest) == RawOne(c.name, a, GREATER, c.text, c.closer, more) by {
      assert ClosingThen(c.closer, rest) == [Punctuator("</")] + ([c.closer] + more);
    }
    RawOneRead(c.name, a, GREATER, c.text, c.closer, more, o);
    assert Skip(more) == rest;
  }

  lemma PieceRead(t: Token, rest: seq<Token>, o: Options)
    requires IsMeant(Piece(t), o)
    ensures Step([t] + rest, o) == Some((Other, rest))
  {
    assert Skip([t] + rest) == rest;
  }

  // ------------------------------------------------------------ inside an element

  /** A round that is no error. */
  lemma Round(ts: seq<Token>, s: Option<seq<string>>, o: Options)
    requires Next(ts).value != "(end)" && ts != []
    ensures Accepts(ts, s, o) <==>
              && Step(ts, o).Some?
              && var (e, rest) := Step(ts, o).value;
                 && Stack(s, e, o).Some?
                 && var t := Stack(s, e, o).value;
                    if t == Some([]) && (!o.fragment || Next(rest).id == "(end)") then Next(rest).id == "(end)"
                    else Accepts(rest, t, o)
  {
    hide Step, Stack;
  }

  lemma {:induction false} Inside(cs: seq<Content>, open: seq<string>, rest: seq<Token>, o: Options)
    requires AllMeant(cs, o) && open != []
    ensures Accepts(WriteAll(cs, rest), Some(open), o)
            <==> AllInOrder(cs, Some(open[|open| - 1]), "body" in open, o) && Accepts(rest, Some(open), o)
    decreases cs, 0
  {
    if cs != [] {
      OneInside(cs[0], open, WriteAll(cs[1..], rest), o);
      Inside(cs[1..], open, rest, o);
    }
  }

  lemma {:induction false} OneInside(c: Content, open: seq<string>, rest: seq<Token>, o: Options)
    requires IsMeant(c, o) && open != []
    ensures Accepts(Write(c, rest), Some(open), o)
            <==> InOrder(c, Some(open[|open| - 1]), "body" in open, o) && Accepts(rest, Some(open), o)
    decreases c, 0
  {
    hide Accepts, Step, TagName, WriteAll, AttributesOk;
    match c
    case Piece(t) =>
      PieceRead(t, rest, o);
      Round([t] + rest, Some(open), o);
    case Single(name, attributes, slash) =>
      TagRead(name, attributes, slash, rest, o);
      Round(Write(c, rest), Some(open), o);
    case Raw(name, _, _, _) =>
      RawRead(c, rest, o);
      Round(Write(c, rest), Some(open), o);
    case Element(name, attributes, inner, closer) =>
      var n := TagName(name.value, o);
      var within := WriteAll(inner, ClosingThen(closer, rest));
      TagRead(name, attributes, false, within, o);
      Round(Write(c, rest), Some(open), o);
      Inside(inner, open + [n], ClosingThen(closer, rest), o);
      assert "body" in open + [n] <==> "body" in open || n == "body";
      Closed(closer, n, open, rest, o);
  }

  /** The closing tag of an element: it must have the element's name. */
  lemma Closed(closer: Token, n: string, open: seq<string>, rest: seq<Token>, o: Options)
    ensures Accepts(ClosingThen(closer, rest), Some(open + [n]), o)
            <==> TagName(closer.value, o) == n
                 && if open == [] && (!o.fragment || Next(rest).id == "(end)") then Next(rest).id == "(end)"
                    else Accepts(rest, Some(open), o)
  {
    hide Accepts, Step, TagName;
    ClosingRead(closer, rest, o);
    Round(ClosingThen(closer, rest), Some(open + [n]), o);
    assert (open + [n])[..|open|] == open;
  }

  // ------------------------------------------------------------ whole texts

  lemma OutsideClosed(c: Content, n: string, rest: seq<Token>, o: Options)
    requires c.Element? && IsMeant(c, o) && n == TagName(c.name.value, o)
    ensures Accepts(WriteAll(c.inner, ClosingThen(c.closer, rest)), Some([n]), o)
            <==> && AllInOrder(c.inner, Some(n), n == "body", o) && TagName(c.closer.value, o) == n
                 && if !o.fragment || Next(rest).id == "(end)" then Next(rest).id == "(end)"
                    else Accepts(rest, Some([]), o)
  {
    hide Accepts, TagName, WriteAll, AllInOrder;
    Inside(c.inner, [n], ClosingThen(c.closer, rest), o);
    assert [] + [n] == [n];
    Closed(c.closer, n, [], rest, o);
  }

  /** An element at the outside. */
  lemma OneOutside(c: Content, s: Option<seq<string>>, rest: seq<Token>, o: Options)
    requires IsMeant(c, o) && !c.Piece? && (s == None || s == Some([]))
    ensures Accepts(Write(c, rest), s, o)
            <==> && InOrder(c, None, false, o)
                 && (s == None && !o.fragment ==> TagName(c.name.value, o) == "html")
                 && if !o.fragment || Next(rest).id == "(end)" then Next(rest).id == "(end)"
                    else Accepts(rest, Some([]), o)
  {
    hide Accepts, Step, TagName, WriteAll, AttributesOk, AllMeant, AllInOrder;
    var n := TagName(c.name.value, o);
    Round(Write(c, rest), s, o);
    match c
    case Single(name, attributes, slash) =>
      TagRead(name, attributes, slash, rest, o);
    case Raw(name, _, _, _) =>
      RawRead(c, rest, o);
    case Element(name, attributes, inner, closer) =>
      TagRead(name, attributes, false, WriteAll(inner, ClosingThen(closer, rest)), o);
      assert [] + [n] == [n];
      OutsideClosed(c, n, rest, o);
  }

  /** The end of the text is no token of a tree. */
  lemma NotTheEnd(cs: seq<Content>, o: Options)
    requires AllMeant(cs, o)
    ensures Next(WriteAll(cs, [])).id == "(end)" <==> cs == []
  {
  }

  predicate HasElement(cs: seq<Content>) { exists k :: 0 <= k < |cs| && !cs[k].Piece? }

  lemma HasElementNext(cs: seq<Content>)
    requires cs != []
    ensures HasElement(cs) <==> !cs[0].Piece? || HasElement(cs[1..])
  {
    if k :| 0 <= k < |cs[1..]| && !cs[1..][k].Piece? { assert !cs[k + 1].Piece?; }
    if k :| 0 <= k < |cs| && !cs[k].Piece? { if k > 0 { assert !cs[1..][k - 1].Piece?; } }
  }

  lemma {:induction false} FragmentRead(cs: seq<Content>, s: Option<seq<string>>, o: Options)
    requires AllMeant(cs, o) && o.fragment && (s == None || s == Some([]))
    ensures Accepts(WriteAll(cs, []), s, o)
            <==> AllInOrder(cs, None, false, o) && (HasElement(cs) || (s == Some([]) && cs != []))
    decreases cs
  {
    hide Write, Step, IsMeant, InOrder, HasElement;
    NotTheEnd(cs, o);
    if cs == [] {
      NothingRead(s, o);
      NothingInOrder(None, false, o);
    } else {
      HasElementNext(cs);
      var c, rest := cs[0], WriteAll(cs[1..], []);
      FragmentRead(cs[1..], Some([]), o);
      FragmentRead(cs[1..], None, o);
      NotTheEnd(cs[1..], o);
      hide Accepts, AllInOrder, HasElement;
      if c.Piece? { PieceOutside(c, s, rest, o); } else { OneOutside(c, s, rest, o); }
      AllInOrderNext(cs, None, false, o);
      if cs[1..] == [] { NothingInOrder(None, false, o); }
    }
  }

  lemma AllInOrderNext(cs: seq<Content>, parent: Option<string>, inBody: bool, o: Options)
    requires cs != []
    ensures AllInOrder(cs, parent, inBody, o)
            <==> InOrder(cs[0], parent, inBody, o) && AllInOrder(cs[1..], parent, inBody, o)
    ensures cs[0].Piece? ==> InOrder(cs[0], parent, inBody, o)
  {
  }

  lemma NothingInOrder(parent: Option<string>, inBody: bool, o: Options)
    ensures AllInOrder([], parent, inBody, o) && !HasElement([])
  {
  }

  lemma NothingRead(s: Option<seq<string>>, o: Options)
    ensures !Accepts([], s, o)
  {
  }

  lemma PieceOutside(c: Content, s: Option<seq<string>>, rest: seq<Token>, o: Options)
    requires IsMeant(c, o) && c.Piece? && (s == None || s == Some([]))
    ensures Accepts(Write(c, rest), s, o)
            <==> if s == Some([]) && (!o.fragment || Next(rest).id == "(end)") then Next(rest).id == "(end)"
                 else Accepts(rest, s, o)
  {
    hide Accepts, Step;
    PieceRead(c.token, rest, o);
    Round(Write(c, rest), s, o);
  }

  /** A whole document: one html element in order, with nothing after it and no tag before it. */
  predicate IsWhole(cs: seq<Content>, o: Options) {
    cs != []
    && (forall k :: 0 <= k < |cs| - 1 ==> cs[k].Piece?)
    && var root := cs[|cs| - 1];
       !root.Piece? && TagName(root.name.value, o) == "html" && InOrder(root, None, false, o)
  }

  lemma {:induction false} WholeRead(cs: seq<Content>, o: Options)
    requires AllMeant(cs, o) && !o.fragment
    ensures Accepts(WriteAll(cs, []), None, o) <==> IsWhole(cs, o)
    decreases cs
  {
    hide Write, Step, IsMeant, InOrder, Accepts, TagName;
    if cs == [] {
      NothingRead(None, o);
    } else {
      var c, rest := cs[0], WriteAll(cs[1..], []);
      if c.Piece? {
        WholeRead(cs[1..], o);
        PieceOutside(c, None, rest, o);
      } else {
        NotTheEnd(cs[1..], o);
        OneOutside(c, None, rest, o);
      }
    }
  }

  /** Of all trees written out as tags, with any attributes and any text, the checker lets pass exactly
      those in order: a fragment with some element in it, or one whole html element. */
  lemma TreesAccepted(cs: seq<Content>, o: Options)
    requires AllMeant(cs, o)
    ensures Accepts(WriteAll(cs, []), None, o)
            <==> if o.fragment then AllInOrder(cs, None, false, o) && HasElement(cs) else IsWhole(cs, o)
  {
    if o.fragment { FragmentRead(cs, None, o); } else { WholeRead(cs, o); }
  }
}
