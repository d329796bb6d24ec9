/** That the analyses of regular expression trees find all there is: greatest lengths are reached, and
    trees that match at one end of the input only are known to. */
module RegExpTightness {
  import opened RegExpAnalysis

  // ------------------------------------------------------------ greatest lengths

  /** An input that a plain tree matches, as long as possible; an unlimited repetition stands for
      INFINITY rounds. */
  ghost function Longest(t: Tree): (w: seq<Char>)
    requires IsPlain(t)
    decreases t, 0
  {
    match t
    case Empty => []
    case Text(es) => ShortestText(es)
    case Disjunction(ts) => LongestOf(ts)
    case Alternative(ts) => LongestAll(ts)
    case Quantifier(min, max, _, b) => Copies(Longest(b), Rounds(b, min, max))
    case Capture(_, b) => Longest(b)
  }

  /** Rounds that consume nothing are made only as often as they must be. */
  ghost function Rounds(b: Tree, min: nat, max: nat): nat
    requires IsPlain(b)
    decreases b, 1
  {
    if Longest(b) == [] then min else max
  }

  ghost function LongestOf(ts: seq<Tree>): (w: seq<Char>)
    requires ts != [] && AllPlain(ts)
    decreases ts, 1
  {
    if |ts| == 1 || |Longest(ts[0])| > |LongestOf(ts[1..])| then Longest(ts[0]) else LongestOf(ts[1..])
  }

  ghost function LongestAll(ts: seq<Tree>): (w: seq<Char>)
    requires AllPlain(ts)
    decreases ts, 1
  {
    if ts == [] then [] else Longest(ts[0]) + LongestAll(ts[1..])
  }

  /** The number, unless it is too big for an int. */
  function Capped(n: nat): int { if n > INFINITY then INFINITY else n }

  lemma CappedProduct(max: nat, n: nat)
    requires max <= INFINITY
    ensures SatMul(max, Capped(n)) == Capped(max * n)
  {
    hide SatMul;
    SatMulIs(max, Capped(n));
    if n > INFINITY && max > 0 {
      Times(1, max, n);
      Times(1, max, INFINITY);
    }
  }

  /** MaxMatch is the length of that input. */
  lemma {:induction false} LongestIs(t: Tree, bounds: map<nat, int>)
    requires IsPlain(t) && Fits(t, bounds)
    ensures MaxMatch(t) == Capped(|Longest(t)|)
    decreases t, 0
  {
    match t
    case Disjunction(ts) => LongestOfIs(ts, bounds);
    case Alternative(ts) => LongestAllIs(ts, 0, bounds);
    case Quantifier(min, max, _, b) =>
      LongestIs(b, bounds);
      CappedProduct(max, |Longest(b)|);
      assert Longest(b) == [] ==> max * |Longest(b)| == 0 == min * |Longest(b)|;
    case Capture(_, b) => LongestIs(b, bounds);
    case _ =>
  }

  lemma {:induction false} LongestOfIs(ts: seq<Tree>, bounds: map<nat, int>)
    requires ts != [] && AllPlain(ts) && FitsAll(ts, bounds)
    ensures MaxGreatest(ts) == Capped(|LongestOf(ts)|)
    decreases ts, 1
  {
    LongestIs(ts[0], bounds);
    if |ts| > 1 { LongestOfIs(ts[1..], bounds); }
  }

  lemma {:induction false} LongestAllIs(ts: seq<Tree>, sofar: nat, bounds: map<nat, int>)
    requires AllPlain(ts) && FitsAll(ts, bounds)
    ensures MaxSum(ts, Capped(sofar)) == Capped(sofar + |LongestAll(ts)|)
    decreases ts, 1
  {
    if ts != [] {
      LongestIs(ts[0], bounds);
      LongestAllIs(ts[1..], sofar + |Longest(ts[0])|, bounds);
    }
  }

  /** A plain tree does match that input. */
  lemma {:induction false} LongestMatches(t: Tree, s: seq<Char>, x: State, bounds: map<nat, int>) returns (y: State)
    requires IsPlain(t) && Fits(t, bounds) && Ok(x, s) && StandsAt(Longest(t), s, x.pos)
    ensures y in Results(t, s, x) && y.pos == x.pos + |Longest(t)|
    decreases t, 0
  {
    hide AnyOf, InOrder, Repeat;
    match t
    case Empty => y := x;
    case Text(es) =>
      ShortestTextMatches(es, s, x.pos);
      y := x.(pos := x.pos + TextLength(es));
    case Disjunction(ts) => y := LongestOfMatches(ts, s, x, bounds);
    case Alternative(ts) => y := LongestAllMatches(ts, s, x, bounds);
    case Quantifier(min, max, greed, b) =>
      y := RoundsMatch(b, Rounds(b, min, max), min, max, greed != NonGreedy, s, x, bounds);
    case Capture(i, b) =>
      var z := LongestMatches(b, s, x, bounds);
      y := CapturedHas(i, Results(b, s, x), s, x, z);
  }

  lemma CapturedHas(i: nat, rs: seq<State>, s: seq<Char>, x: State, z: State) returns (y: State)
    requires AllAfter(rs, x, s) && z in rs
    ensures y in Captured(i, x.pos, rs, x, s) && y.pos == z.pos
  {
    var k :| 0 <= k < |rs| && rs[k] == z;
    y := Captured(i, x.pos, rs, x, s)[k];
  }

  lemma {:induction false} LongestOfMatches(ts: seq<Tree>, s: seq<Char>, x: State, bounds: map<nat, int>)
    returns (y: State)
    requires ts != [] && AllPlain(ts) && FitsAll(ts, bounds) && Ok(x, s) && StandsAt(LongestOf(ts), s, x.pos)
    ensures y in AnyOf(ts, s, x) && y.pos == x.pos + |LongestOf(ts)|
    decreases ts, 1
  {
    hide Results;
    if |ts| == 1 || |Longest(ts[0])| > |LongestOf(ts[1..])| {
      y := LongestMatches(ts[0], s, x, bounds);
    } else {
      y := LongestOfMatches(ts[1..], s, x, bounds);
    }
  }

  lemma {:induction false} LongestAllMatches(ts: seq<Tree>, s: seq<Char>, x: State, bounds: map<nat, int>)
    returns (y: State)
    requires AllPlain(ts) && FitsAll(ts, bounds) && Ok(x, s) && StandsAt(LongestAll(ts), s, x.pos)
    ensures y in InOrder(ts, s, x) && y.pos == x.pos + |LongestAll(ts)|
    decreases ts, 1
  {
    hide Results;
    if ts == [] { return x; }
    StandsParts(Longest(ts[0]), LongestAll(ts[1..]), s, x.pos);
    var z := LongestMatches(ts[0], s, x, bounds);
    var rs := Results(ts[0], s, x);
    var k: nat :| k < |rs| && rs[k] == z;
    y := LongestAllMatches(ts[1..], s, z, bounds);
    ThenHas(rs, ts[1..], s, x, k, y);
  }

  /** n rounds, as many as are needed and no more than are allowed. */
  lemma {:induction false} RoundsMatch(b: Tree, n: nat, min: nat, max: nat, greedy: bool, s: seq<Char>, x: State,
                                       bounds: map<nat, int>)
    returns (y: State)
    requires IsPlain(b) && Fits(b, bounds) && min <= n <= max && Ok(x, s) && (Longest(b) == [] ==> n == min)
    requires StandsAt(Copies(Longest(b), n), s, x.pos)
    ensures y in Repeat(b, min, max, greedy, s, x) && y.pos == x.pos + |Copies(Longest(b), n)|
    decreases b, 1, n
  {
    hide Results, RepeatAfter, Longest;
    if n == 0 { return x; }
    var w := Longest(b);
    var clear := x.(caps := x.caps - Captures(b));
    StandsParts(w, Copies(w, n - 1), s, x.pos);
    var z := LongestMatches(b, s, clear, bounds);
    var min', max' := if min > 0 then min - 1 else 0, if max == INFINITY then INFINITY else max - 1;
    y := RoundsMatch(b, n - 1, min', max', greedy, s, z, bounds);
    RepeatAfterHas(Results(b, s, clear), b, min, max, greedy, s, x, z, y);
  }

  /** Every match of the tree is at most that long. */
  ghost predicate AtMost(t: Tree, bound: nat) {
    forall s: seq<Char>, x: State, y: State ::
      Ok(x, s) && x.caps == map[] && y in Results(t, s, x) ==> y.pos - x.pos <= bound
  }

  /** For plain trees max_match is the least bound there is, or there is none below kInfinity. */
  lemma MaxMatchIsLeast(t: Tree, bound: nat, bounds: map<nat, int>)
    requires IsPlain(t) && Fits(t, bounds) && bound < INFINITY
    ensures AtMost(t, bound) <==> MaxMatch(t) <= bound
  {
    hide Results, MaxMatch;
    LongestIs(t, bounds);
    if MaxMatch(t) <= bound {
      forall s: seq<Char>, x: State, y: State | Ok(x, s) && x.caps == map[] && y in Results(t, s, x)
        ensures y.pos - x.pos <= bound
      {
        MaxMatchSound(t, s, x, bounds);
        var k :| 0 <= k < |Results(t, s, x)| && Results(t, s, x)[k] == y;
      }
    } else {
      var s, x := Longest(t), State(0, map[]);
      assert s[0..0 + |s|] == s;
      var y := LongestMatches(t, s, x, bounds);
      assert Ok(x, s) && y.pos - x.pos > bound;
    }
  }

  // ------------------------------------------------------------ anchors

  /** A list is anchored when some node in it is and what stands before it consumes nothing; a list of
      alternatives when all are. */
  lemma AnchoredAtStartWhen(ts: seq<Tree>)
    ensures IsAnchoredAtStart(Alternative(ts)) <==>
            exists k :: 0 <= k < |ts| && IsAnchoredAtStart(ts[k]) && forall j :: 0 <= j < k ==> MaxMatch(ts[j]) <= 0
    ensures IsAnchoredAtStart(Disjunction(ts)) <==> forall k :: 0 <= k < |ts| ==> IsAnchoredAtStart(ts[k])
  {
    hide *;
    ListsAnchored(ts);
    FirstWhen(ts);
    AllWhen(ts);
  }

  lemma ListsAnchored(ts: seq<Tree>)
    ensures IsAnchoredAtStart(Alternative(ts)) == FirstAnchored(ts)
    ensures IsAnchoredAtStart(Disjunction(ts)) == AllAnchoredAtStart(ts)
    ensures IsAnchoredAtEnd(Alternative(ts)) == LastAnchored(ts)
    ensures IsAnchoredAtEnd(Disjunction(ts)) == AllAnchoredAtEnd(ts)
  {
  }

  lemma {:induction false} FirstWhen(ts: seq<Tree>)
    ensures FirstAnchored(ts) <==>
            exists k :: 0 <= k < |ts| && IsAnchoredAtStart(ts[k]) && forall j :: 0 <= j < k ==> MaxMatch(ts[j]) <= 0
  {
    hide IsAnchoredAtStart, MaxMatch;
    if ts != [] {
      var rest := ts[1..];
      FirstWhen(rest);
      if FirstAnchored(ts) && !IsAnchoredAtStart(ts[0]) {
        var k :| 0 <= k < |rest| && IsAnchoredAtStart(rest[k]) && forall j :: 0 <= j < k ==> MaxMatch(rest[j]) <= 0;
        forall j | 0 <= j < k + 1 ensures MaxMatch(ts[j]) <= 0 { if j > 0 { assert ts[j] == rest[j - 1]; } }
        assert IsAnchoredAtStart(ts[k + 1]);
      }
      if k :| 0 <= k < |ts| && IsAnchoredAtStart(ts[k]) && forall j :: 0 <= j < k ==> MaxMatch(ts[j]) <= 0 {
        if k > 0 {
          assert IsAnchoredAtStart(rest[k - 1]) && MaxMatch(ts[0]) <= 0;
          assert forall j :: 0 <= j < k - 1 ==> MaxMatch(rest[j]) <= 0;
        }
      }
    }
  }

  lemma {:induction false} AllWhen(ts: seq<Tree>)
    ensures AllAnchoredAtStart(ts) <==> forall k :: 0 <= k < |ts| ==> IsAnchoredAtStart(ts[k])
    ensures AllAnchoredAtEnd(ts) <==> forall k :: 0 <= k < |ts| ==> IsAnchoredAtEnd(ts[k])
  {
    hide IsAnchoredAtStart, IsAnchoredAtEnd;
    if ts != [] {
      AllWhen(ts[1..]);
      assert forall k :: 0 < k < |ts| ==> ts[k] == ts[1..][k - 1];
    }
  }

  /** The mirror image. */
  lemma AnchoredAtEndWhen(ts: seq<Tree>)
    ensures IsAnchoredAtEnd(Alternative(ts)) <==>
            exists k :: 0 <= k < |ts| && IsAnchoredAtEnd(ts[k]) && forall j :: k < j < |ts| ==> MaxMatch(ts[j]) <= 0
    ensures IsAnchoredAtEnd(Disjunction(ts)) <==> forall k :: 0 <= k < |ts| ==> IsAnchoredAtEnd(ts[k])
  {
    hide *;
    ListsAnchored(ts);
    LastWhen(ts);
    AllWhen(ts);
  }

  lemma {:induction false} LastWhen(ts: seq<Tree>)
    ensures LastAnchored(ts) <==>
            exists k :: 0 <= k < |ts| && IsAnchoredAtEnd(ts[k]) && forall j :: k < j < |ts| ==> MaxMatch(ts[j]) <= 0
  {
    hide IsAnchoredAtEnd, MaxMatch;
    if ts != [] {
      var last, front := |ts| - 1, ts[..|ts| - 1];
      LastWhen(front);
      if LastAnchored(ts) && !IsAnchoredAtEnd(ts[last]) {
        var k :| 0 <= k < last && IsAnchoredAtEnd(front[k]) && forall j :: k < j < last ==> MaxMatch(front[j]) <= 0;
        forall j | k < j < |ts| ensures MaxMatch(ts[j]) <= 0 { if j < last { assert ts[j] == front[j]; } }
        assert IsAnchoredAtEnd(ts[k]);
      }
      if k :| 0 <= k < |ts| && IsAnchoredAtEnd(ts[k]) && forall j :: k < j < |ts| ==> MaxMatch(ts[j]) <= 0 {
        if k < last {
          assert IsAnchoredAtEnd(front[k]) && MaxMatch(ts[last]) <= 0;
          assert forall j :: k < j < last ==> MaxMatch(front[j]) <= 0;
        }
      }
    }
  }

  predicate NoneConsumes(ts: seq<Tree>) { forall k :: 0 <= k < |ts| ==> MaxMatch(ts[k]) <= 0 }

  /** Plain trees with '^' wherever nothing can be consumed before it and '$' wherever nothing can be
      consumed after it.  head and tail say whether that is so for the tree itself. */
  predicate IsFramed(t: Tree, head: bool, tail: bool)
    decreases t, 0
  {
    IsPlain(t) ||
    match t
    case Assertion(kind) => (head && kind == StartOfInput) || (tail && kind == EndOfInput)
    case Lookahead(positive, b) => head && positive && b == Assertion(StartOfInput)
    case Capture(_, b) => IsFramed(b, head, tail)
    case Disjunction(ts) => ts != [] && EachFramed(ts, head, tail)
    case Alternative(ts) => ListFramed(ts, head, tail)
    case _ => false
  }

  predicate EachFramed(ts: seq<Tree>, head: bool, tail: bool)
    decreases ts, 0
  {
    ts == [] || (IsFramed(ts[0], head, tail) && EachFramed(ts[1..], head, tail))
  }

  predicate ListFramed(ts: seq<Tree>, head: bool, tail: bool)
    decreases ts, 0
  {
    ts == [] ||
    (IsFramed(ts[0], head, tail && NoneConsumes(ts[1..])) && ListFramed(ts[1..], head && MaxMatch(ts[0]) <= 0, tail))
  }

  datatype End = Front | Back

  /** The tree is not anchored at that end, as far as that matters. */
  predicate IsLoose(t: Tree, head: bool, tail: bool, end: End) {
    match end
    case Front => head ==> !IsAnchoredAtStart(t)
    case Back => tail ==> !IsAnchoredAtEnd(t)
  }

  predicate ListIsLoose(ts: seq<Tree>, head: bool, tail: bool, end: End) {
    match end
    case Front => head ==> !FirstAnchored(ts)
    case Back => tail ==> !LastAnchored(ts)
  }

  predicate SomeIsLoose(ts: seq<Tree>, head: bool, tail: bool, end: End) {
    match end
    case Front => head ==> !AllAnchoredAtStart(ts)
    case Back => tail ==> !AllAnchoredAtEnd(ts)
  }

  /** The parts of a loose list are loose. */
  lemma LooseParts(ts: seq<Tree>, head: bool, tail: bool, end: End)
    requires ts != [] && ListIsLoose(ts, head, tail, end)
    ensures IsLoose(ts[0], head, tail && NoneConsumes(ts[1..]), end)
    ensures ListIsLoose(ts[1..], head && MaxMatch(ts[0]) <= 0, tail, end)
  {
    hide IsAnchoredAtStart, IsAnchoredAtEnd, MaxMatch, LastAnchored;
    LastWhen(ts);
    LastWhen(ts[1..]);
    var rest := ts[1..];
    assert forall k :: 0 <= k < |rest| ==> rest[k] == ts[k + 1];
    if tail && NoneConsumes(rest) && IsAnchoredAtEnd(ts[0]) {
      assert forall j :: 0 < j < |ts| ==> ts[j] == rest[j - 1];
    }
    if k :| 0 <= k < |rest| && IsAnchoredAtEnd(rest[k]) && forall j :: k < j < |rest| ==> MaxMatch(rest[j]) <= 0 {
      assert IsAnchoredAtEnd(ts[k + 1]);
      assert forall j :: k + 1 < j < |ts| ==> ts[j] == rest[j - 1];
    }
  }

  /** What a framed tree that is loose at an end matches away from that end. */
  ghost function Inner(t: Tree, head: bool, tail: bool, end: End): (w: seq<Char>)
    requires IsFramed(t, head, tail) && IsLoose(t, head, tail, end)
    decreases t, 0
  {
    if IsPlain(t) then Shortest(t)
    else
      match t
      case Capture(_, b) => Inner(b, head, tail, end)
      case Disjunction(ts) => InnerOf(ts, head, tail, end)
      case Alternative(ts) => InnerAll(ts, head, tail, end)
      case _ => []
  }

  ghost function InnerOf(ts: seq<Tree>, head: bool, tail: bool, end: End): (w: seq<Char>)
    requires ts != [] && EachFramed(ts, head, tail) && SomeIsLoose(ts, head, tail, end)
    decreases ts, 1
  {
    if IsLoose(ts[0], head, tail, end) then Inner(ts[0], head, tail, end)
    else
      assert |ts| == 1 ==> ts[1..] == [] && AllAnchoredAtStart(ts[1..]) && AllAnchoredAtEnd(ts[1..]);
      InnerOf(ts[1..], head, tail, end)
  }

  ghost function InnerAll(ts: seq<Tree>, head: bool, tail: bool, end: End): (w: seq<Char>)
    requires ListFramed(ts, head, tail) && ListIsLoose(ts, head, tail, end)
    decreases ts, 1
  {
    if ts == [] then []
    else
      LooseParts(ts, head, tail, end);
      Inner(ts[0], head, tail && NoneConsumes(ts[1..]), end)
        + InnerAll(ts[1..], head && MaxMatch(ts[0]) <= 0, tail, end)
  }

  /** The word stands in s, at the other end of the input where that is demanded. */
  predicate StandsInside(w: seq<Char>, s: seq<Char>, x: State, head: bool, tail: bool, end: End) {
    && StandsAt(w, s, x.pos)
    && (end == Front && tail ==> x.pos + |w| == |s|)
    && (end == Back && head ==> x.pos == 0)
  }

  lemma {:induction false} InnerIsEmpty(t: Tree, head: bool, tail: bool, end: End, bounds: map<nat, int>)
    requires IsFramed(t, head, tail) && IsLoose(t, head, tail, end) && Fits(t, bounds) && MaxMatch(t) <= 0
    ensures Inner(t, head, tail, end) == []
    decreases t, 0
  {
    if IsPlain(t) {
      var s, x := Shortest(t), State(0, map[]);
      assert s[0..0 + |s|] == s;
      var y := ShortestMatches(t, s, x, bounds);
      MaxMatchSound(t, s, x, bounds);
      var k :| 0 <= k < |Results(t, s, x)| && Results(t, s, x)[k] == y;
    } else {
      match t
      case Capture(_, b) => InnerIsEmpty(b, head, tail, end, bounds);
      case Disjunction(ts) => InnerOfIsEmpty(ts, head, tail, end, bounds);
      case Alternative(ts) => InnerAllIsEmpty(ts, head, tail, end, 0, bounds);
      case _ =>
    }
  }

  lemma {:induction false} InnerOfIsEmpty(ts: seq<Tree>, head: bool, tail: bool, end: End, bounds: map<nat, int>)
    requires ts != [] && EachFramed(ts, head, tail) && SomeIsLoose(ts, head, tail, end)
    requires FitsAll(ts, bounds) && MaxGreatest(ts) <= 0
    ensures InnerOf(ts, head, tail, end) == []
    decreases ts, 1
  {
    if IsLoose(ts[0], head, tail, end) {
      InnerIsEmpty(ts[0], head, tail, end, bounds);
    } else {
      assert |ts| == 1 ==> ts[1..] == [] && AllAnchoredAtStart(ts[1..]) && AllAnchoredAtEnd(ts[1..]);
      InnerOfIsEmpty(ts[1..], head, tail, end, bounds);
    }
  }

  lemma {:induction false} InnerAllIsEmpty(ts: seq<Tree>, head: bool, tail: bool, end: End, sofar: nat,
                                           bounds: map<nat, int>)
    requires ListFramed(ts, head, tail) && ListIsLoose(ts, head, tail, end)
    requires FitsAll(ts, bounds) && MaxSum(ts, sofar) <= 0 && sofar <= INFINITY
    ensures InnerAll(ts, head, tail, end) == []
    decreases ts, 1
  {
    if ts != [] {
      LooseParts(ts, head, tail, end);
      MaxMatchRange(ts[0], bounds);
      MaxSumRange(ts, sofar, bounds);
      MaxSumRange(ts[1..], SatAdd(sofar, MaxMatch(ts[0])), bounds);
      InnerIsEmpty(ts[0], head, tail && NoneConsumes(ts[1..]), end, bounds);
      InnerAllIsEmpty(ts[1..], head && MaxMatch(ts[0]) <= 0, tail, end, SatAdd(sofar, MaxMatch(ts[0])), bounds);
    }
  }

  /** A framed tree that is loose at an end does match its inner word there. */
  lemma {:induction false} InnerMatches(t: Tree, head: bool, tail: bool, end: End, s: seq<Char>, x: State,
                                        bounds: map<nat, int>) returns (y: State)
    requires IsFramed(t, head, tail) && IsLoose(t, head, tail, end) && Fits(t, bounds) && Ok(x, s)
    requires StandsInside(Inner(t, head, tail, end), s, x, head, tail, end)
    ensures y in Results(t, s, x) && y.pos == x.pos + |Inner(t, head, tail, end)|
    decreases t, 0
  {
    hide AnyOf, InOrder, Repeat, StandsAt;
    if IsPlain(t) {
      y := ShortestMatches(t, s, x, bounds);
    } else {
      match t
      case Assertion(_) => y := x;
      case Lookahead(_, b) => y := x;
      case Capture(i, b) =>
        var z := InnerMatches(b, head, tail, end, s, x, bounds);
        y := CapturedHas(i, Results(b, s, x), s, x, z);
      case Disjunction(ts) => y := InnerOfMatches(ts, head, tail, end, s, x, bounds);
      case Alternative(ts) => y := InnerAllMatches(ts, head, tail, end, s, x, bounds);
    }
  }

  lemma {:induction false} InnerOfMatches(ts: seq<Tree>, head: bool, tail: bool, end: End, s: seq<Char>, x: State,
                                          bounds: map<nat, int>) returns (y: State)
    requires ts != [] && EachFramed(ts, head, tail) && SomeIsLoose(ts, head, tail, end) && FitsAll(ts, bounds)
    requires Ok(x, s) && StandsInside(InnerOf(ts, head, tail, end), s, x, head, tail, end)
    ensures y in AnyOf(ts, s, x) && y.pos == x.pos + |InnerOf(ts, head, tail, end)|
    decreases ts, 1
  {
    hide Results, StandsAt;
    if IsLoose(ts[0], head, tail, end) {
      y := InnerMatches(ts[0], head, tail, end, s, x, bounds);
    } else {
      assert |ts| == 1 ==> ts[1..] == [] && AllAnchoredAtStart(ts[1..]) && AllAnchoredAtEnd(ts[1..]);
      y := InnerOfMatches(ts[1..], head, tail, end, s, x, bounds);
    }
  }

  lemma {:induction false} InnerAllMatches(ts: seq<Tree>, head: bool, tail: bool, end: End, s: seq<Char>, x: State,
                                           bounds: map<nat, int>) returns (y: State)
    requires ListFramed(ts, head, tail) && ListIsLoose(ts, head, tail, end) && FitsAll(ts, bounds)
    requires Ok(x, s) && StandsInside(InnerAll(ts, head, tail, end), s, x, head, tail, end)
    ensures y in InOrder(ts, s, x) && y.pos == x.pos + |InnerAll(ts, head, tail, end)|
    decreases ts, 1
  {
    hide Results, StandsAt, Inner, IsLoose, ListIsLoose, MaxMatch;
    if ts == [] { return x; }
    LooseParts(ts, head, tail, end);
    var head', tail' := head && MaxMatch(ts[0]) <= 0, tail && NoneConsumes(ts[1..]);
    var v, w := Inner(ts[0], head, tail', end), InnerAll(ts[1..], head', tail, end);
    StandsParts(v, w, s, x.pos);
    if NoneConsumes(ts[1..]) { NothingBehind(ts[1..], head', tail, end, bounds); }
    var z := InnerMatches(ts[0], head, tail', end, s, x, bounds);
    if head' { InnerIsEmpty(ts[0], head, tail', end, bounds); }
    var rs := Results(ts[0], s, x);
    var k: nat :| k < |rs| && rs[k] == z;
    y := InnerAllMatches(ts[1..], head', tail, end, s, z, bounds);
    ThenHas(rs, ts[1..], s, x, k, y);
  }

  lemma {:induction false} NothingBehind(ts: seq<Tree>, head: bool, tail: bool, end: End, bounds: map<nat, int>)
    requires ListFramed(ts, head, tail) && ListIsLoose(ts, head, tail, end) && FitsAll(ts, bounds) && NoneConsumes(ts)
    ensures InnerAll(ts, head, tail, end) == []
    decreases ts, 1
  {
    if ts != [] {
      LooseParts(ts, head, tail, end);
      InnerIsEmpty(ts[0], head, tail && NoneConsumes(ts[1..]), end, bounds);
      assert forall k :: 0 <= k < |ts| - 1 ==> ts[1..][k] == ts[k + 1];
      NothingBehind(ts[1..], head && MaxMatch(ts[0]) <= 0, tail, end, bounds);
    }
  }

  /** All matches of the tree begin where the input does. */
  ghost predicate OnlyAtStart(t: Tree) {
    forall s: seq<Char>, x: State :: Ok(x, s) && x.caps == map[] && Results(t, s, x) != [] ==> x.pos == 0
  }

  /** All matches of the tree end where the input does. */
  ghost predicate OnlyAtEnd(t: Tree) {
    forall s: seq<Char>, x: State, y: State :: Ok(x, s) && x.caps == map[] && y in Results(t, s, x) ==> y.pos == |s|
  }

  /** A framed tree is found to be anchored at the start exactly when it matches nowhere else. */
  lemma AnchoredAtStartIff(t: Tree, bounds: map<nat, int>)
    requires IsFramed(t, true, true) && Fits(t, bounds)
    ensures IsAnchoredAtStart(t) <==> OnlyAtStart(t)
  {
    hide Results, IsAnchoredAtStart, IsFramed;
    if IsAnchoredAtStart(t) {
      forall s: seq<Char>, x: State | Ok(x, s) && x.caps == map[] && Results(t, s, x) != [] ensures x.pos == 0 {
        AnchoredAtStartSound(t, s, x, bounds);
      }
    } else {
      var w := Inner(t, true, true, Front);
      var s, x := [A] + w, State(1, map[]);
      assert s[1..1 + |w|] == w;
      var y := InnerMatches(t, true, true, Front, s, x, bounds);
      assert Ok(x, s) && Results(t, s, x) != [];
    }
  }

  /** And at the end. */
  lemma AnchoredAtEndIff(t: Tree, bounds: map<nat, int>)
    requires IsFramed(t, true, true) && Fits(t, bounds)
    ensures IsAnchoredAtEnd(t) <==> OnlyAtEnd(t)
  {
    hide Results, IsAnchoredAtEnd, IsFramed;
    if IsAnchoredAtEnd(t) {
      forall s: seq<Char>, x: State, y: State | Ok(x, s) && x.caps == map[] && y in Results(t, s, x)
        ensures y.pos == |s|
      {
        AnchoredAtEndSound(t, s, x, y, bounds);
      }
    } else {
      var w := Inner(t, true, true, Back);
      var s, x := w + [A], State(0, map[]);
      assert s[0..0 + |w|] == w;
      var y := InnerMatches(t, true, true, Back, s, x, bounds);
      assert Ok(x, s) && y in Results(t, s, x) && y.pos != |s|;
    }
  }

  // ------------------------------------------------------------ the order of the matches

  function Reversed(rs: seq<State>): (r: seq<State>)
    ensures |r| == |rs|
  {
    if rs == [] then [] else Reversed(rs[1..]) + [rs[0]]
  }

  lemma {:induction false} ReversedBoth(a: seq<State>, b: seq<State>)
    ensures Reversed(a + b) == Reversed(b) + Reversed(a)
  {
    if a == [] {
      assert a + b == b;
    } else {
      assert (a + b)[1..] == a[1..] + b;
      ReversedBoth(a[1..], b);
    }
  }

  /** Longer matches come first. */
  predicate Descends(rs: seq<State>) { forall i, j :: 0 <= i < j < |rs| ==> rs[i].pos > rs[j].pos }

  /** The matches that begin with one more round of text. */
  function Further(es: seq<Element>, min: nat, max: nat, greedy: bool, s: seq<Char>, x: State): seq<State>
    requires Ok(x, s) && max > 0
  {
    if !TextMatches(es, s, x.pos) || (min == 0 && TextLength(es) == 0) then []
    else
      TextFits(es, s, x.pos);
      Repeat(Text(es), if min > 0 then min - 1 else 0, if max == INFINITY then INFINITY else max - 1, greedy, s,
             x.(pos := x.pos + TextLength(es)))
  }

  lemma TextRound(es: seq<Element>, min: nat, max: nat, greedy: bool, s: seq<Char>, x: State)
    requires Ok(x, s) && max > 0
    ensures var more := Further(es, min, max, greedy, s, x);
            Repeat(Text(es), min, max, greedy, s, x)
            == if min > 0 then more else if greedy then more + [x] else [x] + more
  {
    var b := Text(es);
    assert x.(caps := x.caps - Captures(b)) == x by { assert x.caps - Captures(b) == x.caps; }
    var rs := Results(b, s, x);
    if rs != [] {
      assert rs[1..] == [];
      var more := RepeatAfter(rs, b, min, max, greedy, s, x);
      assert RepeatAfter([], b, min, max, greedy, s, x) == [];
    }
  }

  lemma {:induction false} RoundsInOrder(es: seq<Element>, min: nat, max: nat, s: seq<Char>, x: State)
    requires Ok(x, s)
    ensures var rs := Repeat(Text(es), min, max, true, s, x);
            Descends(rs) && Repeat(Text(es), min, max, false, s, x) == Reversed(rs)
    decreases min, |s| - x.pos
  {
    hide Repeat;
    if max == 0 {
      NoRounds(Text(es), min, s, x);
      assert [x][1..] == [];
    } else {
      TextRound(es, min, max, true, s, x);
      TextRound(es, min, max, false, s, x);
      assert Reversed([]) == [] && [x][1..] == [] && Reversed([x]) == [x];
      if TextMatches(es, s, x.pos) && !(min == 0 && TextLength(es) == 0) {
        TextFits(es, s, x.pos);
        var y := x.(pos := x.pos + TextLength(es));
        var min', max' := if min > 0 then min - 1 else 0, if max == INFINITY then INFINITY else max - 1;
        RoundsInOrder(es, min', max', s, y);
        var more := Repeat(Text(es), min', max', true, s, y);
        assert AllAfter(more, y, s);
        ReversedBoth(more, [x]);
      }
    }
  }

  lemma NoRounds(b: Tree, min: nat, s: seq<Char>, x: State)
    requires Ok(x, s)
    ensures Repeat(b, min, 0, true, s, x) == Repeat(b, min, 0, false, s, x) == [x]
  {
  }

  /** Repeated text is matched in as many ways by a greedy quantifier as by one that is not, the longest
      first by the one and last by the other; a possessive one keeps the longest alone. */
  lemma QuantifierOrder(es: seq<Element>, min: nat, max: nat, s: seq<Char>, x: State)
    requires Ok(x, s)
    ensures var greedy := Results(Quantifier(min, max, Greedy, Text(es)), s, x);
            && Descends(greedy)
            && Results(Quantifier(min, max, NonGreedy, Text(es)), s, x) == Reversed(greedy)
            && Results(Quantifier(min, max, Possessive, Text(es)), s, x) == if greedy == [] then [] else [greedy[0]]
  {
    hide Repeat;
    RoundsInOrder(es, min, max, s, x);
  }
}
