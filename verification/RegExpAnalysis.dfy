/** Regular expression trees: what they match, and the static analyses that the compiler relies on
    (match lengths, anchoring, capture registers). */
module RegExpAnalysis {

  const INFINITY := 0x7FFF_FFFF   // kMaxInt: no upper bound

  type Char = c: int | 0 <= c < 0x1_0000

  datatype AssertionKind = StartOfLine | StartOfInput | EndOfLine | EndOfInput | Boundary | NonBoundary

  datatype Greed = Greedy | NonGreedy | Possessive

  /** A piece of text: literal characters or one character of a set of ranges. */
  datatype Element = Chars(text: seq<Char>) | OneOf(ranges: seq<(Char, Char)>, negated: bool)

  datatype Tree =
    | Empty
    | Assertion(kind: AssertionKind)
    | Text(elements: seq<Element>)      // an atom or a character class is a text of one element
    | Disjunction(alternatives: seq<Tree>)
    | Alternative(nodes: seq<Tree>)
    | Quantifier(min: nat, max: nat, greed: Greed, body: Tree)
    | Capture(index: nat, body: Tree)
    | Lookahead(positive: bool, body: Tree)
    | BackReference(index: nat, captured: Tree)   // the number and the body of the capture meant

  // ------------------------------------------------------------ matching

  /** A position in the input and the ranges captured so far. */
  datatype State = State(pos: nat, caps: map<nat, (nat, nat)>)

  predicate Ok(x: State, s: seq<Char>) {
    x.pos <= |s| && forall i :: i in x.caps ==> x.caps[i].0 <= x.caps[i].1 <= |s|
  }

  /** A list of results, best first, of a match that began at x. */
  predicate AllAfter(rs: seq<State>, x: State, s: seq<Char>) {
    forall k :: 0 <= k < |rs| ==> Ok(rs[k], s) && x.pos <= rs[k].pos
  }

  predicate IsLineEnd(c: Char) { c == 0xA || c == 0xD || c == 0x2028 || c == 0x2029 }

  predicate IsWordChar(c: Char) {
    (0x30 <= c <= 0x39) || (0x41 <= c <= 0x5A) || c == 0x5F || (0x61 <= c <= 0x7A)
  }

  predicate WordAt(s: seq<Char>, i: int) { 0 <= i < |s| && IsWordChar(s[i]) }

  predicate Holds(kind: AssertionKind, s: seq<Char>, i: nat)
    requires i <= |s|
  {
    match kind
    case StartOfLine => i == 0 || IsLineEnd(s[i - 1])
    case StartOfInput => i == 0
    case EndOfLine => i == |s| || IsLineEnd(s[i])
    case EndOfInput => i == |s|
    case Boundary => WordAt(s, i - 1) != WordAt(s, i)
    case NonBoundary => WordAt(s, i - 1) == WordAt(s, i)
  }

  predicate InRanges(ranges: seq<(Char, Char)>, c: Char) {
    exists k :: 0 <= k < |ranges| && ranges[k].0 <= c <= ranges[k].1
  }

  function ElementLength(e: Element): nat {
    match e
    case Chars(text) => |text|
    case OneOf(_, _) => 1
  }

  function TextLength(es: seq<Element>): nat {
    if es == [] then 0 else ElementLength(es[0]) + TextLength(es[1..])
  }

  predicate ElementMatches(e: Element, s: seq<Char>, i: nat)
    requires i + ElementLength(e) <= |s|
  {
    match e
    case Chars(text) => s[i..i + |text|] == text
    case OneOf(ranges, negated) => InRanges(ranges, s[i]) != negated
  }

  predicate TextMatches(es: seq<Element>, s: seq<Char>, i: nat) {
    es == [] ||
    (i + ElementLength(es[0]) <= |s| && ElementMatches(es[0], s, i) && TextMatches(es[1..], s, i + ElementLength(es[0])))
  }

  lemma {:induction false} TextFits(es: seq<Element>, s: seq<Char>, i: nat)
    requires TextMatches(es, s, i) && i <= |s|
    ensures i + TextLength(es) <= |s|
  {
    if es != [] { TextFits(es[1..], s, i + ElementLength(es[0])); }
  }

  /** The numbers of the captures in a tree. */
  function Captures(t: Tree): set<nat>
    decreases t, 0
  {
    match t
    case Disjunction(ts) => CapturesIn(ts)
    case Alternative(ts) => CapturesIn(ts)
    case Quantifier(_, _, _, b) => Captures(b)
    case Capture(i, b) => {i} + Captures(b)
    case Lookahead(_, b) => Captures(b)
    case _ => {}
  }

  function CapturesIn(ts: seq<Tree>): set<nat>
    decreases ts, 0
  {
    if ts == [] then {} else Captures(ts[0]) + CapturesIn(ts[1..])
  }

  /** All ways to match t from x, in the order in which a backtracking matcher tries them
      (section 15.10.2 of ECMA-262, 5th edition). */
  function Results(t: Tree, s: seq<Char>, x: State): (rs: seq<State>)
    requires Ok(x, s)
    ensures AllAfter(rs, x, s)
    decreases t, 0
  {
    match t
    case Empty => [x]
    case Assertion(kind) => if Holds(kind, s, x.pos) then [x] else []
    case Text(es) =>
      if TextMatches(es, s, x.pos) then TextFits(es, s, x.pos); [x.(pos := x.pos + TextLength(es))] else []
    case Disjunction(ts) => AnyOf(ts, s, x)
    case Alternative(ts) => InOrder(ts, s, x)
    case Quantifier(min, max, greed, b) =>
      var rs := Repeat(b, min, max, greed != NonGreedy, s, x);
      if greed == Possessive && rs != [] then [rs[0]] else rs
    case Capture(i, b) => Captured(i, x.pos, Results(b, s, x), x, s)
    case Lookahead(positive, b) =>
      var rs := Results(b, s, x);
      if positive then (if rs == [] then [] else [rs[0].(pos := x.pos)])
      else (if rs == [] then [x] else [])
    case BackReference(i, _) =>
      if i !in x.caps then [x]
      else
        var text := s[x.caps[i].0..x.caps[i].1];
        if x.pos + |text| <= |s| && s[x.pos..x.pos + |text|] == text then [x.(pos := x.pos + |text|)] else []
  }

  function Captured(i: nat, start: nat, rs: seq<State>, x: State, s: seq<Char>): (rs': seq<State>)
    requires AllAfter(rs, x, s) && start == x.pos
    ensures AllAfter(rs', x, s)
    ensures |rs'| == |rs|
    ensures forall k :: 0 <= k < |rs| ==> rs'[k] == rs[k].(caps := rs[k].caps[i := (start, rs[k].pos)])
  {
    if rs == [] then []
    else
      var y := rs[0].(caps := rs[0].caps[i := (start, rs[0].pos)]);
      assert AllAfter(rs[1..], x, s);
      [y] + Captured(i, start, rs[1..], x, s)
  }

  function AnyOf(ts: seq<Tree>, s: seq<Char>, x: State): (rs: seq<State>)
    requires Ok(x, s)
    ensures AllAfter(rs, x, s)
    decreases ts, 0
  {
    if ts == [] then [] else Results(ts[0], s, x) + AnyOf(ts[1..], s, x)
  }

  function InOrder(ts: seq<Tree>, s: seq<Char>, x: State): (rs: seq<State>)
    requires Ok(x, s)
    ensures AllAfter(rs, x, s)
    decreases ts, 1
  {
    if ts == [] then [x] else Then(Results(ts[0], s, x), ts[1..], s, x)
  }

  /** Goes on with ts from every one of the results rs. */
  function Then(rs: seq<State>, ts: seq<Tree>, s: seq<Char>, x: State): (rs': seq<State>)
    requires AllAfter(rs, x, s)
    ensures AllAfter(rs', x, s)
    decreases ts, 2, |rs|
  {
    if rs == [] then []
    else
      assert AllAfter(rs[1..], x, s);
      InOrder(ts, s, rs[0]) + Then(rs[1..], ts, s, x)
  }

  /** One more try of a repeated body when max allows it, and no more of it when min allows that.
      A round that is not needed must consume something. */
  function Repeat(b: Tree, min: nat, max: nat, greedy: bool, s: seq<Char>, x: State): (rs: seq<State>)
    requires Ok(x, s)
    ensures AllAfter(rs, x, s)
    decreases b, 1, min, |s| - x.pos, 1
  {
    if max == 0 then [x]
    else
      var clear := x.(caps := x.caps - Captures(b));
      var more := RepeatAfter(Results(b, s, clear), b, min, max, greedy, s, x);
      if min > 0 then more else if greedy then more + [x] else [x] + more
  }

  function RepeatAfter(rs: seq<State>, b: Tree, min: nat, max: nat, greedy: bool, s: seq<Char>, x: State): (rs': seq<State>)
    requires Ok(x, s) && AllAfter(rs, x, s) && max > 0
    ensures AllAfter(rs', x, s)
    decreases b, 1, min, |s| - x.pos, 0, |rs|
  {
    if rs == [] then []
    else
      assert AllAfter(rs[1..], x, s);
      var later := RepeatAfter(rs[1..], b, min, max, greedy, s, x);
      if min == 0 && rs[0].pos == x.pos then later
      else
        Repeat(b, if min > 0 then min - 1 else 0, if max == INFINITY then INFINITY else max - 1, greedy, s, rs[0]) + later
  }

  // ------------------------------------------------------------ match lengths

  /** int addition and multiplication wrap around. */
  function Wrap32(x: int): (r: int)
    ensures -0x8000_0000 <= r <= 0x7FFF_FFFF
    ensures -0x8000_0000 <= x <= 0x7FFF_FFFF ==> r == x
  {
    (x + 0x8000_0000) % 0x1_0000_0000 - 0x8000_0000
  }

  /** The saturating sum in the constructor of an alternative. */
  function SatAdd(a: int, b: int): int { if INFINITY - a < b then INFINITY else a + b }

  /** The saturating product in the constructor of a quantifier. */
  function SatMul(max: nat, m: int): int {
    if max > 0 && m > INFINITY / max then INFINITY else max * m
  }

  function MinMatch(t: Tree): int
    decreases t, 0
  {
    match t
    case Text(es) => TextLength(es)
    case Disjunction(ts) => MinLeast(ts)
    case Alternative(ts) => MinSum(ts, 0)
    case Quantifier(min, _, _, b) => Wrap32(min * MinMatch(b))
    case Capture(_, b) => MinMatch(b)
    case _ => 0
  }

  function MinLeast(ts: seq<Tree>): int
    decreases ts, 1
  {
    if ts == [] then 0
    else if |ts| == 1 then MinMatch(ts[0])
    else
      var a, b := MinMatch(ts[0]), MinLeast(ts[1..]);
      if a < b then a else b
  }

  /** The loop of the constructor, with what has been added up so far. */
  function MinSum(ts: seq<Tree>, sofar: int): int
    decreases ts, 1
  {
    if ts == [] then sofar else MinSum(ts[1..], Wrap32(sofar + MinMatch(ts[0])))
  }

  function MaxMatch(t: Tree): int
    decreases t, 0
  {
    match t
    case Text(es) => TextLength(es)
    case Disjunction(ts) => MaxGreatest(ts)
    case Alternative(ts) => MaxSum(ts, 0)
    case Quantifier(_, max, _, b) => SatMul(max, MaxMatch(b))
    case Capture(_, b) => MaxMatch(b)
    case BackReference(_, b) => MaxMatch(b)
    case _ => 0
  }

  function MaxGreatest(ts: seq<Tree>): int
    decreases ts, 1
  {
    if ts == [] then 0
    else if |ts| == 1 then MaxMatch(ts[0])
    else
      var a, b := MaxMatch(ts[0]), MaxGreatest(ts[1..]);
      if a > b then a else b
  }

  function MaxSum(ts: seq<Tree>, sofar: int): int
    decreases ts, 1
  {
    if ts == [] then sofar else MaxSum(ts[1..], SatAdd(sofar, MaxMatch(ts[0])))
  }

  /** What the parser guarantees: texts of a length that an int holds, and one body for all the
      captures and back references of a number; bounds gives the greatest length for it. */
  predicate Fits(t: Tree, bounds: map<nat, int>)
    decreases t, 0
  {
    match t
    case Text(es) => TextLength(es) <= INFINITY
    case Disjunction(ts) => FitsAll(ts, bounds)
    case Alternative(ts) => FitsAll(ts, bounds)
    case Quantifier(min, max, _, b) => min <= max <= INFINITY && Fits(b, bounds)
    case Capture(i, b) => i in bounds && bounds[i] == MaxMatch(b) && Fits(b, bounds)
    case Lookahead(_, b) => Fits(b, bounds)
    case BackReference(i, b) => i in bounds && bounds[i] == MaxMatch(b) && Fits(b, bounds)
    case _ => true
  }

  predicate FitsAll(ts: seq<Tree>, bounds: map<nat, int>)
    decreases ts, 0
  {
    ts == [] || (Fits(ts[0], bounds) && FitsAll(ts[1..], bounds))
  }

  /** The product is the exact one unless that is too big for an int. */
  lemma SatMulIs(max: nat, m: nat)
    requires max <= INFINITY && m <= INFINITY
    ensures SatMul(max, m) == if max * m > INFINITY then INFINITY else max * m
    ensures 0 <= SatMul(max, m) <= INFINITY
    ensures max > 0 ==> m <= SatMul(max, m)
  {
    if max > 0 {
      var q, r := INFINITY / max, INFINITY % max;
      assert q * max + r == INFINITY;
      if m > q {
        Times(q + 1, m, max);
        assert (q + 1) * max == q * max + max;
      } else {
        Times(m, q, max);
      }
      Times(1, max, m);
    }
  }

  lemma Times(a: int, b: int, c: nat)
    requires a <= b
    ensures a * c <= b * c
  {
  }

  /** The greatest length never leaves the range of an int, so "no bound" is never exceeded. */
  lemma {:induction false} MaxMatchRange(t: Tree, bounds: map<nat, int>)
    requires Fits(t, bounds)
    ensures 0 <= MaxMatch(t) <= INFINITY
    decreases t, 0
  {
    match t
    case Disjunction(ts) => MaxGreatestRange(ts, bounds);
    case Alternative(ts) => MaxSumRange(ts, 0, bounds);
    case Quantifier(_, max, _, b) =>
      MaxMatchRange(b, bounds);
      SatMulIs(max, MaxMatch(b));
    case Capture(_, b) => MaxMatchRange(b, bounds);
    case BackReference(_, b) => MaxMatchRange(b, bounds);
    case _ =>
  }

  lemma {:induction false} MaxGreatestRange(ts: seq<Tree>, bounds: map<nat, int>)
    requires FitsAll(ts, bounds)
    ensures 0 <= MaxGreatest(ts) <= INFINITY
    decreases ts, 1
  {
    if ts != [] {
      MaxMatchRange(ts[0], bounds);
      MaxGreatestRange(ts[1..], bounds);
    }
  }

  lemma {:induction false} MaxSumRange(ts: seq<Tree>, sofar: int, bounds: map<nat, int>)
    requires FitsAll(ts, bounds) && 0 <= sofar <= INFINITY
    ensures sofar <= MaxSum(ts, sofar) <= INFINITY
    decreases ts, 1
  {
    if ts != [] {
      MaxMatchRange(ts[0], bounds);
      MaxSumRange(ts[1..], SatAdd(sofar, MaxMatch(ts[0])), bounds);
    }
  }

  /** A length does not exceed a bound. */
  predicate Within(length: int, bound: int) { bound == INFINITY || length <= bound }

  /** No captured range is longer than its capture can match. */
  predicate CapsFit(x: State, bounds: map<nat, int>) {
    forall i :: i in x.caps && i in bounds ==> Within(Length(x.caps[i]), bounds[i])
  }

  function Length(range: (nat, nat)): int { range.1 as int - range.0 as int }

  /** Every result rs of a match begun at x is at most bound away, with fitting captures. */
  predicate Bounded(rs: seq<State>, x: State, bound: int, bounds: map<nat, int>) {
    forall k :: 0 <= k < |rs| ==> Within(rs[k].pos - x.pos, bound) && CapsFit(rs[k], bounds)
  }

  /** Every match is at most MaxMatch long, and keeps the captures within their bounds. */
  lemma {:induction false} MaxMatchSound(t: Tree, s: seq<Char>, x: State, bounds: map<nat, int>)
    requires Ok(x, s) && Fits(t, bounds) && CapsFit(x, bounds)
    ensures Bounded(Results(t, s, x), x, MaxMatch(t), bounds)
    decreases t, 0
  {
    hide AnyOf, InOrder, Repeat, SatMul, MaxGreatest, MaxSum;
    match t
    case Disjunction(ts) => AnyOfMax(ts, s, x, bounds);
    case Alternative(ts) => InOrderMax(ts, s, x, 0, x.pos, bounds);
    case Quantifier(min, max, greed, b) => RepeatMax(b, min, max, greed != NonGreedy, s, x, bounds);
    case Capture(i, b) =>
      MaxMatchSound(b, s, x, bounds);
      CapturedMax(i, Results(b, s, x), x, s, MaxMatch(b), bounds);
    case Lookahead(_, b) => MaxMatchSound(b, s, x, bounds);
    case BackReference(i, b) =>
      MaxMatchRange(b, bounds);
      if i in x.caps {
        assert Within(Length(x.caps[i]), bounds[i]);
        assert |s[x.caps[i].0..x.caps[i].1]| == Length(x.caps[i]);
      }
    case _ =>
  }

  lemma CapturedMax(i: nat, rs: seq<State>, x: State, s: seq<Char>, m: int, bounds: map<nat, int>)
    requires AllAfter(rs, x, s) && Bounded(rs, x, m, bounds) && i in bounds && bounds[i] == m
    ensures Bounded(Captured(i, x.pos, rs, x, s), x, m, bounds)
  {
    var rs' := Captured(i, x.pos, rs, x, s);
    forall k | 0 <= k < |rs'|
      ensures Within(rs'[k].pos - x.pos, m) && CapsFit(rs'[k], bounds)
    {
      assert CapsFit(rs[k], bounds) && rs'[k] == rs[k].(caps := rs[k].caps[i := (x.pos, rs[k].pos)]);
    }
  }

  lemma {:induction false} AnyOfMax(ts: seq<Tree>, s: seq<Char>, x: State, bounds: map<nat, int>)
    requires Ok(x, s) && FitsAll(ts, bounds) && CapsFit(x, bounds)
    ensures Bounded(AnyOf(ts, s, x), x, MaxGreatest(ts), bounds)
    decreases ts, 0
  {
    if ts != [] {
      MaxMatchSound(ts[0], s, x, bounds);
      AnyOfMax(ts[1..], s, x, bounds);
      MaxMatchRange(ts[0], bounds);
      MaxGreatestRange(ts[1..], bounds);
    }
  }

  /** start is where the alternative began, and sofar bounds the length up to x. */
  lemma {:induction false} InOrderMax(ts: seq<Tree>, s: seq<Char>, x: State, sofar: int, start: nat,
                                      bounds: map<nat, int>)
    requires Ok(x, s) && FitsAll(ts, bounds) && CapsFit(x, bounds)
    requires 0 <= sofar <= INFINITY && Within(x.pos - start, sofar)
    ensures Bounded(InOrder(ts, s, x), State(start, map[]), MaxSum(ts, sofar), bounds)
    decreases ts, 1
  {
    if ts != [] {
      MaxMatchSound(ts[0], s, x, bounds);
      MaxMatchRange(ts[0], bounds);
      ThenMax(Results(ts[0], s, x), ts[1..], s, x, SatAdd(sofar, MaxMatch(ts[0])), start, bounds);
    }
  }

  lemma {:induction false} ThenMax(rs: seq<State>, ts: seq<Tree>, s: seq<Char>, x: State, sofar: int, start: nat,
                                   bounds: map<nat, int>)
    requires AllAfter(rs, x, s) && FitsAll(ts, bounds) && 0 <= sofar <= INFINITY
    requires Bounded(rs, State(start, map[]), sofar, bounds)
    ensures Bounded(Then(rs, ts, s, x), State(start, map[]), MaxSum(ts, sofar), bounds)
    decreases ts, 2, |rs|
  {
    if rs != [] {
      InOrderMax(ts, s, rs[0], sofar, start, bounds);
      assert AllAfter(rs[1..], x, s) && Bounded(rs[1..], State(start, map[]), sofar, bounds);
      ThenMax(rs[1..], ts, s, x, sofar, start, bounds);
    }
  }

  lemma {:induction false} RepeatMax(b: Tree, min: nat, max: nat, greedy: bool, s: seq<Char>, x: State,
                                     bounds: map<nat, int>)
    requires Ok(x, s) && Fits(b, bounds) && CapsFit(x, bounds) && max <= INFINITY
    ensures Bounded(Repeat(b, min, max, greedy, s, x), x, SatMul(max, MaxMatch(b)), bounds)
    decreases b, 1, min, |s| - x.pos, 1
  {
    hide Results, RepeatAfter, SatMul, Bounded, CapsFit;
    var m := MaxMatch(b);
    MaxMatchRange(b, bounds);
    SatMulIs(max, m);
    OnlyHere(x, SatMul(max, m), bounds);
    if max > 0 {
      var clear := x.(caps := x.caps - Captures(b));
      ClearFits(x, Captures(b), bounds);
      MaxMatchSound(b, s, clear, bounds);
      SameStart(Results(b, s, clear), clear, x, m, bounds);
      var more := RepeatAfter(Results(b, s, clear), b, min, max, greedy, s, x);
      RepeatAfterMax(Results(b, s, clear), b, min, max, greedy, s, x, bounds);
      BothBounded(more, [x], x, SatMul(max, m), bounds);
      BothBounded([x], more, x, SatMul(max, m), bounds);
    }
  }

  lemma OnlyHere(x: State, bound: nat, bounds: map<nat, int>)
    requires CapsFit(x, bounds)
    ensures Bounded([x], x, bound, bounds)
  {
  }

  lemma ClearFits(x: State, captures: set<nat>, bounds: map<nat, int>)
    requires CapsFit(x, bounds)
    ensures CapsFit(x.(caps := x.caps - captures), bounds)
  {
  }

  lemma SameStart(rs: seq<State>, x: State, y: State, bound: int, bounds: map<nat, int>)
    requires Bounded(rs, x, bound, bounds) && x.pos == y.pos
    ensures Bounded(rs, y, bound, bounds)
  {
  }

  lemma BothBounded(a: seq<State>, b: seq<State>, x: State, bound: int, bounds: map<nat, int>)
    requires Bounded(a, x, bound, bounds) && Bounded(b, x, bound, bounds)
    ensures Bounded(a + b, x, bound, bounds)
  {
  }

  lemma {:induction false} RepeatAfterMax(rs: seq<State>, b: Tree, min: nat, max: nat, greedy: bool,
                                          s: seq<Char>, x: State,
                                          bounds: map<nat, int>)
    requires Ok(x, s) && AllAfter(rs, x, s) && 0 < max <= INFINITY && Fits(b, bounds)
    requires Bounded(rs, x, MaxMatch(b), bounds)
    ensures Bounded(RepeatAfter(rs, b, min, max, greedy, s, x), x, SatMul(max, MaxMatch(b)), bounds)
    decreases b, 1, min, |s| - x.pos, 0, |rs|
  {
    hide Repeat, Within, CapsFit, SatMul, MaxMatch, Fits;
    if rs != [] {
      MaxMatchRange(b, bounds);
      assert AllAfter(rs[1..], x, s) && Bounded(rs[1..], x, MaxMatch(b), bounds);
      RepeatAfterMax(rs[1..], b, min, max, greedy, s, x, bounds);
      if !(min == 0 && rs[0].pos == x.pos) {
        var max', min' := if max == INFINITY then INFINITY else max - 1, if min > 0 then min - 1 else 0;
        RepeatMax(b, min', max', greedy, s, rs[0], bounds);
        MoreRounds(Repeat(b, min', max', greedy, s, rs[0]), rs[0], x, s, max, MaxMatch(b), bounds);
      }
    }
  }

  /** A round of at most m, and the rounds after it. */
  lemma MoreRounds(rs: seq<State>, y: State, x: State, s: seq<Char>, max: nat, m: int, bounds: map<nat, int>)
    requires 0 < max <= INFINITY && 0 <= m <= INFINITY && Within(y.pos - x.pos, m) && AllAfter(rs, y, s)
    requires Bounded(rs, y, SatMul(if max == INFINITY then INFINITY else max - 1, m), bounds)
    ensures Bounded(rs, x, SatMul(max, m), bounds)
  {
    forall k | 0 <= k < |rs| ensures Within(rs[k].pos - x.pos, SatMul(max, m)) {
      OneRound(max, m, y.pos - x.pos, rs[k].pos - y.pos);
    }
  }

  lemma OneRound(max: nat, m: nat, length: int, later: nat)
    requires 0 < max <= INFINITY && m <= INFINITY && Within(length, m)
    requires Within(later, SatMul(if max == INFINITY then INFINITY else max - 1, m))
    ensures Within(length + later, SatMul(max, m))
  {
    hide SatMul;
    var max' := if max == INFINITY then INFINITY else max - 1;
    SatMulIs(max, m);
    SatMulIs(max', m);
    assert max' == max - 1 ==> max * m == max' * m + m;
  }

  // ------------------------------------------------------------ least lengths

  /** The least length, computed without overflow. */
  function ExactMin(t: Tree): nat
    decreases t, 0
  {
    match t
    case Text(es) => TextLength(es)
    case Disjunction(ts) => ExactLeast(ts)
    case Alternative(ts) => ExactSum(ts)
    case Quantifier(min, _, _, b) => min * ExactMin(b)
    case Capture(_, b) => ExactMin(b)
    case _ => 0
  }

  function ExactLeast(ts: seq<Tree>): nat
    decreases ts, 1
  {
    if ts == [] then 0
    else if |ts| == 1 then ExactMin(ts[0])
    else if ExactMin(ts[0]) < ExactLeast(ts[1..]) then ExactMin(ts[0]) else ExactLeast(ts[1..])
  }

  function ExactSum(ts: seq<Tree>): nat
    decreases ts, 1
  {
    if ts == [] then 0 else ExactMin(ts[0]) + ExactSum(ts[1..])
  }

  /** Nothing overflows on the way to the least length. */
  predicate MinFits(t: Tree)
    decreases t, 0
  {
    && ExactMin(t) <= INFINITY
    && match t
       case Disjunction(ts) => MinFitsAll(ts)
       case Alternative(ts) => MinFitsAll(ts)
       case Quantifier(_, _, _, b) => MinFits(b)
       case Capture(_, b) => MinFits(b)
       case _ => true
  }

  predicate MinFitsAll(ts: seq<Tree>)
    decreases ts, 0
  {
    ts == [] || (MinFits(ts[0]) && MinFitsAll(ts[1..]))
  }

  lemma {:induction false} MinMatchExact(t: Tree)
    requires MinFits(t)
    ensures MinMatch(t) == ExactMin(t)
    decreases t, 0
  {
    match t
    case Disjunction(ts) => MinLeastExact(ts);
    case Alternative(ts) => MinSumExact(ts, 0);
    case Quantifier(min, _, _, b) => MinMatchExact(b);
    case Capture(_, b) => MinMatchExact(b);
    case _ =>
  }

  lemma {:induction false} MinLeastExact(ts: seq<Tree>)
    requires MinFitsAll(ts)
    ensures MinLeast(ts) == ExactLeast(ts)
    decreases ts, 1
  {
    if ts != [] {
      MinMatchExact(ts[0]);
      MinLeastExact(ts[1..]);
    }
  }

  lemma {:induction false} MinSumExact(ts: seq<Tree>, sofar: nat)
    requires MinFitsAll(ts) && sofar + ExactSum(ts) <= INFINITY
    ensures MinSum(ts, sofar) == sofar + ExactSum(ts)
    decreases ts, 1
  {
    if ts != [] {
      MinMatchExact(ts[0]);
      MinSumExact(ts[1..], sofar + ExactMin(ts[0]));
    }
  }

  /** Every result is at least least away from start. */
  predicate AtLeast(rs: seq<State>, start: int, least: int) {
    forall k :: 0 <= k < |rs| ==> rs[k].pos >= start + least
  }

  lemma {:induction false} ExactMinSound(t: Tree, s: seq<Char>, x: State, bounds: map<nat, int>)
    requires Ok(x, s) && Fits(t, bounds)
    ensures AtLeast(Results(t, s, x), x.pos, ExactMin(t))
    decreases t, 0
  {
    hide AnyOf, InOrder, Repeat, ExactLeast, ExactSum;
    match t
    case Disjunction(ts) => AnyOfMin(ts, s, x, bounds);
    case Alternative(ts) => InOrderMin(ts, s, x, 0, x.pos, bounds);
    case Quantifier(min, max, greed, b) =>
      RepeatMin(b, min, max, greed != NonGreedy, s, x, bounds);
    case Capture(i, b) => ExactMinSound(b, s, x, bounds);
    case _ =>
  }

  lemma {:induction false} AnyOfMin(ts: seq<Tree>, s: seq<Char>, x: State, bounds: map<nat, int>)
    requires Ok(x, s) && FitsAll(ts, bounds)
    ensures AtLeast(AnyOf(ts, s, x), x.pos, ExactLeast(ts))
    decreases ts, 0
  {
    if ts != [] {
      ExactMinSound(ts[0], s, x, bounds);
      AnyOfMin(ts[1..], s, x, bounds);
    }
  }

  lemma {:induction false} InOrderMin(ts: seq<Tree>, s: seq<Char>, x: State, sofar: nat, start: int,
                                      bounds: map<nat, int>)
    requires Ok(x, s) && FitsAll(ts, bounds) && x.pos >= start + sofar
    ensures AtLeast(InOrder(ts, s, x), start, sofar + ExactSum(ts))
    decreases ts, 1
  {
    if ts != [] {
      ExactMinSound(ts[0], s, x, bounds);
      ThenMin(Results(ts[0], s, x), ts[1..], s, x, sofar + ExactMin(ts[0]), start, bounds);
    }
  }

  lemma {:induction false} ThenMin(rs: seq<State>, ts: seq<Tree>, s: seq<Char>, x: State, sofar: nat,
                                   start: int, bounds: map<nat, int>)
    requires AllAfter(rs, x, s) && FitsAll(ts, bounds) && AtLeast(rs, start, sofar)
    ensures AtLeast(Then(rs, ts, s, x), start, sofar + ExactSum(ts))
    decreases ts, 2, |rs|
  {
    if rs != [] {
      InOrderMin(ts, s, rs[0], sofar, start, bounds);
      assert AllAfter(rs[1..], x, s) && AtLeast(rs[1..], start, sofar);
      ThenMin(rs[1..], ts, s, x, sofar, start, bounds);
    }
  }

  lemma {:induction false} RepeatMin(b: Tree, min: nat, max: nat, greedy: bool, s: seq<Char>, x: State,
                                     bounds: map<nat, int>)
    requires Ok(x, s) && Fits(b, bounds) && min <= max
    ensures AtLeast(Repeat(b, min, max, greedy, s, x), x.pos, min * ExactMin(b))
    decreases b, 1, min, |s| - x.pos, 1
  {
    if max > 0 {
      var clear := x.(caps := x.caps - Captures(b));
      ExactMinSound(b, s, clear, bounds);
      RepeatAfterMin(Results(b, s, clear), b, min, max, greedy, s, x, bounds);
    }
  }

  lemma {:induction false} RepeatAfterMin(rs: seq<State>, b: Tree, min: nat, max: nat, greedy: bool,
                                          s: seq<Char>, x: State, bounds: map<nat, int>)
    requires Ok(x, s) && AllAfter(rs, x, s) && Fits(b, bounds) && 0 < max && min <= max && AtLeast(rs, x.pos, ExactMin(b))
    ensures AtLeast(RepeatAfter(rs, b, min, max, greedy, s, x), x.pos, min * ExactMin(b))
    decreases b, 1, min, |s| - x.pos, 0, |rs|
  {
    if rs != [] {
      assert AllAfter(rs[1..], x, s) && AtLeast(rs[1..], x.pos, ExactMin(b));
      RepeatAfterMin(rs[1..], b, min, max, greedy, s, x, bounds);
      if !(min == 0 && rs[0].pos == x.pos) {
        var max', min' := if max == INFINITY then INFINITY else max - 1, if min > 0 then min - 1 else 0;
        RepeatMin(b, min', max', greedy, s, rs[0], bounds);
        assert min > 0 ==> min * ExactMin(b) == min' * ExactMin(b) + ExactMin(b);
      }
    }
  }

  /** Every match is at least MinMatch long if the computation of it did not come out too big. */
  lemma MinMatchSound(t: Tree, s: seq<Char>, x: State, bounds: map<nat, int>)
    requires Ok(x, s) && Fits(t, bounds) && MinMatch(t) <= ExactMin(t)
    ensures AtLeast(Results(t, s, x), x.pos, MinMatch(t))
  {
    ExactMinSound(t, s, x, bounds);
  }

  /** No product and no sum on the way to the least length lies below the least int.  One that is
      above the greatest int comes out too small, which does no harm. */
  predicate NoUnderflow(t: Tree)
    decreases t, 0
  {
    match t
    case Disjunction(ts) => NoUnderflowIn(ts)
    case Alternative(ts) => NoUnderflowAdding(ts, 0)
    case Quantifier(min, _, _, b) => NoUnderflow(b) && min * MinMatch(b) >= -0x8000_0000
    case Capture(_, b) => NoUnderflow(b)
    case _ => true
  }

  predicate NoUnderflowIn(ts: seq<Tree>)
    decreases ts, 0
  {
    ts == [] || (NoUnderflow(ts[0]) && NoUnderflowIn(ts[1..]))
  }

  predicate NoUnderflowAdding(ts: seq<Tree>, sofar: int)
    decreases ts, 0
  {
    ts == [] ||
    (NoUnderflow(ts[0])
     && sofar + MinMatch(ts[0]) >= -0x8000_0000
     && NoUnderflowAdding(ts[1..], Wrap32(sofar + MinMatch(ts[0]))))
  }

  lemma WrapNotAbove(x: int)
    requires x >= -0x8000_0000
    ensures Wrap32(x) <= x
  {
  }

  lemma ProductNotAbove(n: nat, a: int, b: int)
    requires a <= b && n * a >= -0x8000_0000
    ensures Wrap32(n * a) <= n * b
  {
    hide Wrap32;
    WrapNotAbove(n * a);
    assert n * (b - a) >= 0;
    assert n * b == n * a + n * (b - a);
  }

  lemma {:induction false} MinMatchNotAbove(t: Tree)
    requires NoUnderflow(t)
    ensures MinMatch(t) <= ExactMin(t)
    decreases t, 0
  {
    hide Wrap32;
    match t
    case Disjunction(ts) => MinLeastNotAbove(ts);
    case Alternative(ts) => MinSumNotAbove(ts, 0, 0);
    case Quantifier(min, _, _, b) =>
      MinMatchNotAbove(b);
      ProductNotAbove(min, MinMatch(b), ExactMin(b));
    case Capture(_, b) => MinMatchNotAbove(b);
    case _ =>
  }

  lemma {:induction false} MinLeastNotAbove(ts: seq<Tree>)
    requires NoUnderflowIn(ts)
    ensures MinLeast(ts) <= ExactLeast(ts)
    decreases ts, 1
  {
    if ts != [] {
      MinMatchNotAbove(ts[0]);
      MinLeastNotAbove(ts[1..]);
    }
  }

  lemma {:induction false} MinSumNotAbove(ts: seq<Tree>, sofar: int, exact: nat)
    requires NoUnderflowAdding(ts, sofar) && sofar <= exact
    ensures MinSum(ts, sofar) <= exact + ExactSum(ts)
    decreases ts, 1
  {
    hide Wrap32;
    if ts != [] {
      MinMatchNotAbove(ts[0]);
      WrapNotAbove(sofar + MinMatch(ts[0]));
      MinSumNotAbove(ts[1..], Wrap32(sofar + MinMatch(ts[0])), exact + ExactMin(ts[0]));
    }
  }

  /** For every tree, MinMatch is a true bound if nothing underflows on the way to it. */
  lemma NoUnderflowSound(t: Tree, s: seq<Char>, x: State, bounds: map<nat, int>)
    requires Ok(x, s) && Fits(t, bounds) && NoUnderflow(t)
    ensures AtLeast(Results(t, s, x), x.pos, MinMatch(t))
  {
    MinMatchNotAbove(t);
    MinMatchSound(t, s, x, bounds);
  }

  /** In particular it is one if all least lengths are ints. */
  lemma MinFitsSound(t: Tree, s: seq<Char>, x: State, bounds: map<nat, int>)
    requires Ok(x, s) && Fits(t, bounds) && MinFits(t)
    ensures AtLeast(Results(t, s, x), x.pos, MinMatch(t)) && MinMatch(t) == ExactMin(t)
  {
    MinMatchExact(t);
    MinMatchSound(t, s, x, bounds);
  }

  /** Trees in which every part can match wherever it is tried: no conditions on the place, no back
      references, no character class without a character, no choice without a choice. */
  predicate IsPlain(t: Tree)
    decreases t, 0
  {
    match t
    case Text(es) => forall k :: 0 <= k < |es| ==> CanMatch(es[k])
    case Disjunction(ts) => ts != [] && AllPlain(ts)
    case Alternative(ts) => AllPlain(ts)
    case Quantifier(min, max, greed, b) => greed != Possessive && IsPlain(b)
    case Capture(_, b) => IsPlain(b)
    case Empty => true
    case _ => false
  }

  predicate AllPlain(ts: seq<Tree>)
    decreases ts, 0
  {
    ts == [] || (IsPlain(ts[0]) && AllPlain(ts[1..]))
  }

  predicate CanMatch(e: Element) {
    match e
    case Chars(_) => true
    case OneOf(ranges, negated) => exists c: Char :: InRanges(ranges, c) != negated
  }

  /** An input of the least length that a plain tree matches. */
  ghost function Shortest(t: Tree): (w: seq<Char>)
    requires IsPlain(t)
    ensures |w| == ExactMin(t)
    decreases t, 0
  {
    match t
    case Empty => []
    case Text(es) => ShortestText(es)
    case Disjunction(ts) => ShortestOf(ts)
    case Alternative(ts) => ShortestAll(ts)
    case Quantifier(min, _, _, b) => Copies(Shortest(b), min)
    case Capture(_, b) => Shortest(b)
  }

  ghost function ShortestText(es: seq<Element>): (w: seq<Char>)
    requires forall k :: 0 <= k < |es| ==> CanMatch(es[k])
    ensures |w| == TextLength(es)
  {
    if es == [] then [] else ShortestElement(es[0]) + ShortestText(es[1..])
  }

  ghost function ShortestElement(e: Element): (w: seq<Char>)
    requires CanMatch(e)
    ensures |w| == ElementLength(e)
    ensures e.OneOf? ==> InRanges(e.ranges, w[0]) != e.negated
    ensures e.Chars? ==> w == e.text
  {
    match e
    case Chars(text) => text
    case OneOf(ranges, negated) =>
      var c: Char :| InRanges(ranges, c) != negated;
      [c]
  }

  ghost function ShortestOf(ts: seq<Tree>): (w: seq<Char>)
    requires ts != [] && AllPlain(ts)
    ensures |w| == ExactLeast(ts)
    decreases ts, 1
  {
    if |ts| == 1 || ExactMin(ts[0]) < ExactLeast(ts[1..]) then Shortest(ts[0]) else ShortestOf(ts[1..])
  }

  ghost function ShortestAll(ts: seq<Tree>): (w: seq<Char>)
    requires AllPlain(ts)
    ensures |w| == ExactSum(ts)
    decreases ts, 1
  {
    if ts == [] then [] else Shortest(ts[0]) + ShortestAll(ts[1..])
  }

  function Copies(w: seq<Char>, n: nat): (r: seq<Char>)
    ensures |r| == n * |w|
  {
    if n == 0 then [] else w + Copies(w, n - 1)
  }

  /** The text w stands in s from i on. */
  predicate StandsAt(w: seq<Char>, s: seq<Char>, i: nat) { i + |w| <= |s| && s[i..i + |w|] == w }

  lemma StandsParts(v: seq<Char>, w: seq<Char>, s: seq<Char>, i: nat)
    requires StandsAt(v + w, s, i)
    ensures StandsAt(v, s, i) && StandsAt(w, s, i + |v|)
  {
    assert s[i..i + |v|] == (v + w)[..|v|];
    assert s[i + |v|..i + |v| + |w|] == (v + w)[|v|..];
  }

  /** A plain tree does match its shortest input. */
  lemma {:induction false} ShortestMatches(t: Tree, s: seq<Char>, x: State, bounds: map<nat, int>) returns (y: State)
    requires IsPlain(t) && Fits(t, bounds) && Ok(x, s) && StandsAt(Shortest(t), s, x.pos)
    ensures y in Results(t, s, x) && y.pos == x.pos + ExactMin(t)
    decreases t, 0
  {
    hide AnyOf, InOrder, Repeat;
    match t
    case Empty => y := x;
    case Text(es) =>
      ShortestTextMatches(es, s, x.pos);
      y := x.(pos := x.pos + TextLength(es));
    case Disjunction(ts) => y := ShortestOfMatches(ts, s, x, bounds);
    case Alternative(ts) => y := ShortestAllMatches(ts, s, x, bounds);
    case Quantifier(min, max, greed, b) => y := CopiesMatch(b, min, max, greed != NonGreedy, s, x, bounds);
    case Capture(i, b) =>
      var z := ShortestMatches(b, s, x, bounds);
      var rs := Results(b, s, x);
      var k :| 0 <= k < |rs| && rs[k] == z;
      y := Captured(i, x.pos, rs, x, s)[k];
  }

  lemma {:induction false} ShortestTextMatches(es: seq<Element>, s: seq<Char>, i: nat)
    requires forall k :: 0 <= k < |es| ==> CanMatch(es[k])
    requires StandsAt(ShortestText(es), s, i)
    ensures TextMatches(es, s, i)
  {
    hide ElementMatches, CanMatch, ShortestElement, StandsAt;
    if es != [] {
      var v, w := ShortestElement(es[0]), ShortestText(es[1..]);
      StandsParts(v, w, s, i);
      ShortestElementMatches(es[0], s, i);
      ShortestTextMatches(es[1..], s, i + |v|);
    }
  }

  lemma ShortestElementMatches(e: Element, s: seq<Char>, i: nat)
    requires CanMatch(e) && StandsAt(ShortestElement(e), s, i)
    ensures i + ElementLength(e) <= |s| && ElementMatches(e, s, i)
  {
    hide InRanges;
    var w := ShortestElement(e);
    assert s[i..i + |w|] == w;
    assert e.OneOf? ==> s[i] == w[0];
  }

  lemma {:induction false} ShortestOfMatches(ts: seq<Tree>, s: seq<Char>, x: State, bounds: map<nat, int>)
    returns (y: State)
    requires ts != [] && AllPlain(ts) && FitsAll(ts, bounds) && Ok(x, s) && StandsAt(ShortestOf(ts), s, x.pos)
    ensures y in AnyOf(ts, s, x) && y.pos == x.pos + ExactLeast(ts)
    decreases ts, 1
  {
    hide Results;
    if |ts| == 1 || ExactMin(ts[0]) < ExactLeast(ts[1..]) {
      y := ShortestMatches(ts[0], s, x, bounds);
    } else {
      y := ShortestOfMatches(ts[1..], s, x, bounds);
    }
  }

  lemma {:induction false} ShortestAllMatches(ts: seq<Tree>, s: seq<Char>, x: State, bounds: map<nat, int>)
    returns (y: State)
    requires AllPlain(ts) && FitsAll(ts, bounds) && Ok(x, s) && StandsAt(ShortestAll(ts), s, x.pos)
    ensures y in InOrder(ts, s, x) && y.pos == x.pos + ExactSum(ts)
    decreases ts, 1
  {
    hide Results;
    if ts == [] { return x; }
    StandsParts(Shortest(ts[0]), ShortestAll(ts[1..]), s, x.pos);
    var z := ShortestMatches(ts[0], s, x, bounds);
    var rs := Results(ts[0], s, x);
    var k: nat :| k < |rs| && rs[k] == z;
    y := ShortestAllMatches(ts[1..], s, z, bounds);
    ThenHas(rs, ts[1..], s, x, k, y);
  }

  lemma {:induction false} CopiesMatch(b: Tree, min: nat, max: nat, greedy: bool, s: seq<Char>, x: State,
                                       bounds: map<nat, int>)
    returns (y: State)
    requires IsPlain(b) && Fits(b, bounds) && min <= max && Ok(x, s)
    requires StandsAt(Copies(Shortest(b), min), s, x.pos)
    ensures y in Repeat(b, min, max, greedy, s, x) && y.pos == x.pos + min * ExactMin(b)
    decreases b, 1, min
  {
    hide Results, RepeatAfter;
    if min == 0 { return x; }
    var clear := x.(caps := x.caps - Captures(b));
    StandsParts(Shortest(b), Copies(Shortest(b), min - 1), s, x.pos);
    var z := ShortestMatches(b, s, clear, bounds);
    var max' := if max == INFINITY then INFINITY else max - 1;
    y := CopiesMatch(b, min - 1, max', greedy, s, z, bounds);
    RepeatAfterHas(Results(b, s, clear), b, min, max, greedy, s, x, z, y);
    assert min * ExactMin(b) == ExactMin(b) + (min - 1) * ExactMin(b);
  }

  /** What follows a round that ends at z: a round that is needed, or that consumes something. */
  lemma {:induction false} RepeatAfterHas(rs: seq<State>, b: Tree, min: nat, max: nat, greedy: bool, s: seq<Char>,
                                          x: State, z: State, y: State)
    requires Ok(x, s) && AllAfter(rs, x, s) && 0 < max && z in rs && Ok(z, s) && (min > 0 || z.pos != x.pos)
    requires y in Repeat(b, if min > 0 then min - 1 else 0, if max == INFINITY then INFINITY else max - 1, greedy, s, z)
    ensures y in RepeatAfter(rs, b, min, max, greedy, s, x)
    decreases |rs|
  {
    hide Repeat;
    assert AllAfter(rs[1..], x, s);
    if rs[0] != z { RepeatAfterHas(rs[1..], b, min, max, greedy, s, x, z, y); }
  }

  /** For plain trees that is exactly when MinMatch is a true bound. */
  lemma MinMatchSoundIff(t: Tree, bounds: map<nat, int>)
    requires IsPlain(t) && Fits(t, bounds)
    ensures (forall s: seq<Char>, x: State :: Ok(x, s) ==> AtLeast(Results(t, s, x), x.pos, MinMatch(t)))
            <==> MinMatch(t) <= ExactMin(t)
  {
    if MinMatch(t) <= ExactMin(t) {
      forall s: seq<Char>, x: State | Ok(x, s) ensures AtLeast(Results(t, s, x), x.pos, MinMatch(t)) {
        MinMatchSound(t, s, x, bounds);
      }
    } else {
      var s, x := Shortest(t), State(0, map[]);
      assert s[0..0 + |s|] == s;
      var y := ShortestMatches(t, s, x, bounds);
      assert Ok(x, s) && !AtLeast(Results(t, s, x), x.pos, MinMatch(t));
    }
  }

  const A: Char := 0x61

  /** n characters, all "a". */
  function Letters(n: nat): (s: seq<Char>)
    ensures |s| == n
  {
    seq(n, i => A)
  }

  /** (?:a{n}){count}|a, where the first alternative is a text of n letters. */
  function Overflowing(n: nat, count: nat): Tree {
    Disjunction([Quantifier(count, count, Greedy, Text([Chars(Letters(n))])), Text([Chars([A])])])
  }

  /** (?:(?:aa){1073741824}|a)(?:(?:aaa){1431655765}|a): the least lengths of the two parts come out
      as -2^31 and -1, their sum as 2^31 - 1, and the input "aa" matches. */
  function OverflowExample(): Tree { Alternative([Overflowing(2, 1073741824), Overflowing(3, 1431655765)]) }

  lemma OverflowExampleMin()
    ensures MinMatch(OverflowExample()) == INFINITY
  {
    hide Overflowing, Wrap32, MinMatch;
    OverflowingMin(2, 1073741824);
    OverflowingMin(3, 1431655765);
    WrapFacts();
    var a, b := Overflowing(2, 1073741824), Overflowing(3, 1431655765);
    assert [a, b][1..] == [b] && [b][1..] == [];
    assert MinSum([a, b], 0) == MinSum([b], -0x8000_0000) == MinSum([], INFINITY);
    AlternativeMin([a, b]);
  }

  lemma AlternativeMin(ts: seq<Tree>)
    ensures MinMatch(Alternative(ts)) == MinSum(ts, 0)
  {
  }

  lemma WrapFacts()
    ensures Wrap32(1073741824 * 2) == Wrap32(0 + -0x8000_0000) == -0x8000_0000
    ensures Wrap32(1431655765 * 3) == -1 && Wrap32(-0x8000_0000 + -1) == INFINITY
  {
  }

  lemma OverflowingMin(n: nat, count: nat)
    ensures MinMatch(Overflowing(n, count)) == (if Wrap32(count * n) < 1 then Wrap32(count * n) else 1)
  {
    hide Wrap32;
    var q, a := Quantifier(count, count, Greedy, Text([Chars(Letters(n))])), Text([Chars([A])]);
    OneElement(Chars(Letters(n)));
    OneElement(Chars([A]));
    assert MinMatch(q) == Wrap32(count * n) && MinMatch(a) == 1;
    assert [q, a][1..] == [a];
    assert MinLeast([a]) == 1;
    assert MinMatch(Overflowing(n, count)) == MinLeast([q, a]);
  }

  lemma OneElement(e: Element)
    ensures TextLength([e]) == ElementLength(e)
  {
    assert [e][1..] == [];
  }

  /** Yet the tree matches two characters: its least length is wrong. */
  lemma OverflowExampleMatches()
    ensures State(2, map[]) in Results(OverflowExample(), [A, A], State(0, map[]))
  {
    hide Overflowing, AnyOf, Repeat;
    var s, x, y := [A, A], State(0, map[]), State(1, map[]);
    var a, b := Overflowing(2, 1073741824), Overflowing(3, 1431655765);
    SecondChoice(2, 1073741824, s, x);
    SecondChoice(3, 1431655765, s, y);
    var rs := Results(a, s, x);
    var k :| 0 <= k < |rs| && rs[k] == y;
    assert [b][1..] == [] && [a, b][1..] == [b];
    var rs' := Results(b, s, y);
    var k' :| 0 <= k' < |rs'| && rs'[k'] == State(2, map[]);
    ThenHas(rs', [], s, y, k', State(2, map[]));
    ThenHas(rs, [b], s, x, k, State(2, map[]));
  }

  lemma SecondChoice(n: nat, count: nat, s: seq<Char>, x: State)
    requires Ok(x, s) && x.pos < |s| && s[x.pos] == A
    ensures x.(pos := x.pos + 1) in Results(Overflowing(n, count), s, x)
  {
    hide Results, AnyOf;
    var q, a := Quantifier(count, count, Greedy, Text([Chars(Letters(n))])), Text([Chars([A])]);
    OneLetter(s, x);
    AnyOfHas([q, a], 1, s, x, x.(pos := x.pos + 1));
    DisjunctionResults([q, a], s, x);
  }

  lemma DisjunctionResults(ts: seq<Tree>, s: seq<Char>, x: State)
    requires Ok(x, s)
    ensures Results(Disjunction(ts), s, x) == AnyOf(ts, s, x)
  {
  }

  lemma OneLetter(s: seq<Char>, x: State)
    requires Ok(x, s) && x.pos < |s| && s[x.pos] == A
    ensures x.(pos := x.pos + 1) in Results(Text([Chars([A])]), s, x)
  {
    var es := [Chars([A])];
    OneElement(es[0]);
    assert s[x.pos..x.pos + 1] == [A] && es[1..] == [];
    assert TextMatches(es, s, x.pos);
  }

  lemma {:induction false} AnyOfHas(ts: seq<Tree>, k: nat, s: seq<Char>, x: State, y: State)
    requires Ok(x, s) && k < |ts| && y in Results(ts[k], s, x)
    ensures y in AnyOf(ts, s, x)
    decreases k
  {
    hide Results;
    if k > 0 { AnyOfHas(ts[1..], k - 1, s, x, y); }
  }

  // ------------------------------------------------------------ anchors

  predicate IsAnchoredAtStart(t: Tree)
    decreases t, 0
  {
    match t
    case Assertion(kind) => kind == StartOfInput
    case Alternative(ts) => FirstAnchored(ts)
    case Disjunction(ts) => AllAnchoredAtStart(ts)
    case Lookahead(positive, b) => positive && IsAnchoredAtStart(b)
    case Capture(_, b) => IsAnchoredAtStart(b)
    case _ => false
  }

  predicate FirstAnchored(ts: seq<Tree>)
    decreases ts, 1
  {
    if ts == [] then false
    else if IsAnchoredAtStart(ts[0]) then true
    else if MaxMatch(ts[0]) > 0 then false
    else FirstAnchored(ts[1..])
  }

  predicate AllAnchoredAtStart(ts: seq<Tree>)
    decreases ts, 1
  {
    ts == [] || (IsAnchoredAtStart(ts[0]) && AllAnchoredAtStart(ts[1..]))
  }

  predicate IsAnchoredAtEnd(t: Tree)
    decreases t, 0
  {
    match t
    case Assertion(kind) => kind == EndOfInput
    case Alternative(ts) => LastAnchored(ts)
    case Disjunction(ts) => AllAnchoredAtEnd(ts)
    case Capture(_, b) => IsAnchoredAtEnd(b)
    case _ => false
  }

  /** Some node is anchored and nothing after it consumes anything: the loop from the last node. */
  predicate LastAnchored(ts: seq<Tree>)
    decreases ts, 1
  {
    if ts == [] then false
    else
      var last := ts[|ts| - 1];
      if IsAnchoredAtEnd(last) then true
      else if MaxMatch(last) > 0 then false
      else LastAnchored(ts[..|ts| - 1])
  }

  predicate AllAnchoredAtEnd(ts: seq<Tree>)
    decreases ts, 1
  {
    ts == [] || (IsAnchoredAtEnd(ts[0]) && AllAnchoredAtEnd(ts[1..]))
  }

  /** A tree anchored at the start matches nowhere but at index 0. */
  lemma {:induction false} AnchoredAtStartSound(t: Tree, s: seq<Char>, x: State, bounds: map<nat, int>)
    requires Ok(x, s) && Fits(t, bounds) && CapsFit(x, bounds)
    requires IsAnchoredAtStart(t) && Results(t, s, x) != []
    ensures x.pos == 0
    decreases t, 0
  {
    match t
    case Assertion(_) =>
    case Alternative(ts) => FirstAnchoredSound(ts, s, x, bounds);
    case Disjunction(ts) => AllAnchoredAtStartSound(ts, s, x, bounds);
    case Lookahead(_, b) => AnchoredAtStartSound(b, s, x, bounds);
    case Capture(_, b) => AnchoredAtStartSound(b, s, x, bounds);
  }

  lemma {:induction false} AllAnchoredAtStartSound(ts: seq<Tree>, s: seq<Char>, x: State, bounds: map<nat, int>)
    requires Ok(x, s) && FitsAll(ts, bounds) && CapsFit(x, bounds)
    requires AllAnchoredAtStart(ts) && AnyOf(ts, s, x) != []
    ensures x.pos == 0
    decreases ts, 1
  {
    if Results(ts[0], s, x) != [] {
      AnchoredAtStartSound(ts[0], s, x, bounds);
    } else {
      AllAnchoredAtStartSound(ts[1..], s, x, bounds);
    }
  }

  lemma {:induction false} FirstAnchoredSound(ts: seq<Tree>, s: seq<Char>, x: State, bounds: map<nat, int>)
    requires Ok(x, s) && FitsAll(ts, bounds) && CapsFit(x, bounds)
    requires FirstAnchored(ts) && InOrder(ts, s, x) != []
    ensures x.pos == 0
    decreases ts, 1
  {
    var rs := Results(ts[0], s, x);
    var k := ThenFrom(rs, ts[1..], s, x, 0);
    if IsAnchoredAtStart(ts[0]) {
      AnchoredAtStartSound(ts[0], s, x, bounds);
    } else {
      MaxMatchSound(ts[0], s, x, bounds);
      MaxMatchRange(ts[0], bounds);
      assert rs[k].pos == x.pos;
      FirstAnchoredSound(ts[1..], s, rs[k], bounds);
    }
  }

  /** Result number j of Then comes from some result k before it. */
  lemma {:induction false} ThenFrom(rs: seq<State>, ts: seq<Tree>, s: seq<Char>, x: State, j: nat) returns (k: nat)
    requires AllAfter(rs, x, s) && j < |Then(rs, ts, s, x)|
    ensures k < |rs| && Then(rs, ts, s, x)[j] in InOrder(ts, s, rs[k])
    decreases |rs|
  {
    assert AllAfter(rs[1..], x, s);
    var here := InOrder(ts, s, rs[0]);
    if j < |here| {
      k := 0;
    } else {
      k := ThenFrom(rs[1..], ts, s, x, j - |here|);
      k := k + 1;
    }
  }

  /** A tree anchored at the end leaves no input behind. */
  lemma {:induction false} AnchoredAtEndSound(t: Tree, s: seq<Char>, x: State, y: State, bounds: map<nat, int>)
    requires Ok(x, s) && Fits(t, bounds) && CapsFit(x, bounds)
    requires IsAnchoredAtEnd(t) && y in Results(t, s, x)
    ensures y.pos == |s|
    decreases t, 0
  {
    match t
    case Assertion(_) =>
    case Alternative(ts) => LastAnchoredSound(ts, s, x, y, bounds);
    case Disjunction(ts) => AllAnchoredAtEndSound(ts, s, x, y, bounds);
    case Capture(i, b) =>
      var rs := Results(b, s, x);
      var k :| 0 <= k < |Results(t, s, x)| && Results(t, s, x)[k] == y;
      assert rs[k].pos == y.pos && rs[k] in rs;
      AnchoredAtEndSound(b, s, x, rs[k], bounds);
  }

  lemma {:induction false} AllAnchoredAtEndSound(ts: seq<Tree>, s: seq<Char>, x: State, y: State, bounds: map<nat, int>)
    requires Ok(x, s) && FitsAll(ts, bounds) && CapsFit(x, bounds)
    requires AllAnchoredAtEnd(ts) && y in AnyOf(ts, s, x)
    ensures y.pos == |s|
    decreases ts, 1
  {
    if y in Results(ts[0], s, x) {
      AnchoredAtEndSound(ts[0], s, x, y, bounds);
    } else {
      AllAnchoredAtEndSound(ts[1..], s, x, y, bounds);
    }
  }

  lemma {:induction false} LastAnchoredSound(ts: seq<Tree>, s: seq<Char>, x: State, y: State, bounds: map<nat, int>)
    requires Ok(x, s) && FitsAll(ts, bounds) && CapsFit(x, bounds)
    requires LastAnchored(ts) && y in InOrder(ts, s, x)
    ensures y.pos == |s|
    decreases ts, 1
  {
    var n := |ts| - 1;
    FitsParts(ts, n, bounds);
    var z := InOrderFromLast(ts, s, x, y, bounds);
    if IsAnchoredAtEnd(ts[n]) {
      AnchoredAtEndSound(ts[n], s, z, y, bounds);
    } else {
      MaxMatchSound(ts[n], s, z, bounds);
      MaxMatchRange(ts[n], bounds);
      LastAnchoredSound(ts[..n], s, x, z, bounds);
    }
  }

  lemma {:induction false} FitsParts(ts: seq<Tree>, n: nat, bounds: map<nat, int>)
    requires FitsAll(ts, bounds) && n < |ts|
    ensures FitsAll(ts[..n], bounds) && Fits(ts[n], bounds)
  {
    if n > 0 {
      FitsParts(ts[1..], n - 1, bounds);
      assert ts[..n][1..] == ts[1..][..n - 1];
    }
  }

  /** Every result in order passes through a result of all nodes but the last. */
  lemma {:induction false} InOrderFromLast(ts: seq<Tree>, s: seq<Char>, x: State, y: State, bounds: map<nat,
                                           int>) returns (z: State)
    requires Ok(x, s) && FitsAll(ts, bounds) && CapsFit(x, bounds) && ts != [] && y in InOrder(ts, s, x)
    ensures z in InOrder(ts[..|ts| - 1], s, x) && Ok(z, s) && CapsFit(z, bounds)
    ensures y in Results(ts[|ts| - 1], s, z)
    decreases |ts|
  {
    var rs := Results(ts[0], s, x);
    var all := Then(rs, ts[1..], s, x);
    var j :| 0 <= j < |all| && all[j] == y;
    var k := ThenFrom(rs, ts[1..], s, x, j);
    MaxMatchSound(ts[0], s, x, bounds);
    if |ts| == 1 {
      z := x;
    } else {
      z := InOrderFromLast(ts[1..], s, rs[k], y, bounds);
      var front := ts[..|ts| - 1];
      assert front[1..] == ts[1..][..|ts[1..]| - 1];
      ThenHas(rs, front[1..], s, x, k, z);
    }
  }

  lemma {:induction false} ThenHas(rs: seq<State>, ts: seq<Tree>, s: seq<Char>, x: State, k: nat, z: State)
    requires AllAfter(rs, x, s) && k < |rs| && z in InOrder(ts, s, rs[k])
    ensures z in Then(rs, ts, s, x)
    decreases |rs|
  {
    assert AllAfter(rs[1..], x, s);
    if k > 0 { ThenHas(rs[1..], ts, s, x, k - 1, z); }
  }

  // ------------------------------------------------------------ capture registers

  const NO_REGISTER := -1

  datatype Interval = Interval(from: int, to: int) {
    function Union(that: Interval): Interval {
      if that.from == NO_REGISTER then this
      else if from == NO_REGISTER then that
      else Interval(if from < that.from then from else that.from, if to > that.to then to else that.to)
    }
  }

  const EMPTY_INTERVAL := Interval(NO_REGISTER, NO_REGISTER)

  function CaptureRegisters(t: Tree): Interval
    decreases t, 0
  {
    match t
    case Disjunction(ts) => ListCaptureRegisters(ts, EMPTY_INTERVAL)
    case Alternative(ts) => ListCaptureRegisters(ts, EMPTY_INTERVAL)
    case Lookahead(_, b) => CaptureRegisters(b)
    case Capture(i, b) => Interval(i * 2, i * 2 + 1).Union(CaptureRegisters(b))
    case Quantifier(_, _, _, b) => CaptureRegisters(b)
    case _ => EMPTY_INTERVAL
  }

  /** The loop over the children, with the union so far. */
  function ListCaptureRegisters(ts: seq<Tree>, sofar: Interval): Interval
    decreases ts, 1
  {
    if ts == [] then sofar else ListCaptureRegisters(ts[1..], sofar.Union(CaptureRegisters(ts[0])))
  }

  /** The smallest interval that holds both registers of every capture: empty when there is none,
      and otherwise from the first register of one to the last register of another. */
  ghost predicate IsHull(r: Interval, captures: set<nat>) {
    if captures == {} then r == EMPTY_INTERVAL
    else
      && r.from % 2 == 0 && r.from >= 0 && r.from / 2 in captures
      && r.to % 2 == 1 && r.to >= 0 && r.to / 2 in captures
      && forall i :: i in captures ==> r.from <= i * 2 && i * 2 + 1 <= r.to
  }

  lemma UnionHull(a: Interval, ca: set<nat>, b: Interval, cb: set<nat>)
    requires IsHull(a, ca) && IsHull(b, cb)
    ensures IsHull(a.Union(b), ca + cb)
  {
    if ca == {} {
      assert ca + cb == cb;
    } else if cb == {} {
      assert ca + cb == ca;
    } else {
      assert a.from / 2 in ca + cb;
    }
  }

  /** CaptureRegisters is the smallest interval that holds the registers of all captures. */
  lemma {:induction false} CaptureRegistersHull(t: Tree)
    ensures IsHull(CaptureRegisters(t), Captures(t))
    decreases t, 0
  {
    match t
    case Disjunction(ts) => ListHull(ts, EMPTY_INTERVAL, {});
    case Alternative(ts) => ListHull(ts, EMPTY_INTERVAL, {});
    case Lookahead(_, b) => CaptureRegistersHull(b);
    case Quantifier(_, _, _, b) => CaptureRegistersHull(b);
    case Capture(i, b) =>
      CaptureRegistersHull(b);
      assert IsHull(Interval(i * 2, i * 2 + 1), {i});
      UnionHull(Interval(i * 2, i * 2 + 1), {i}, CaptureRegisters(b), Captures(b));
    case _ =>
  }

  lemma {:induction false} ListHull(ts: seq<Tree>, sofar: Interval, captures: set<nat>)
    requires IsHull(sofar, captures)
    ensures IsHull(ListCaptureRegisters(ts, sofar), captures + CapturesIn(ts))
    decreases ts, 1
  {
    if ts == [] {
      assert captures + CapturesIn(ts) == captures;
    } else {
      CaptureRegistersHull(ts[0]);
      UnionHull(sofar, captures, CaptureRegisters(ts[0]), Captures(ts[0]));
      ListHull(ts[1..], sofar.Union(CaptureRegisters(ts[0])), captures + Captures(ts[0]));
      assert captures + Captures(ts[0]) + CapturesIn(ts[1..]) == captures + CapturesIn(ts);
    }
  }

  // ------------------------------------------------------------ the loops of the constructors

  /** The fields min_match_ and max_match_ of a new disjunction. */
  method NewDisjunction(alternatives: seq<Tree>) returns (minMatch: int, maxMatch: int)
    requires |alternatives| > 1
    ensures minMatch == MinMatch(Disjunction(alternatives))
    ensures maxMatch == MaxMatch(Disjunction(alternatives))
  {
    minMatch, maxMatch := MinMatch(alternatives[0]), MaxMatch(alternatives[0]);
    for i := 1 to |alternatives|
      invariant var rest := alternatives[i..];
                if rest == [] then minMatch == MinLeast(alternatives) && maxMatch == MaxGreatest(alternatives)
                else && MinLeast(alternatives) == (if minMatch < MinLeast(rest) then minMatch else MinLeast(rest))
                     && MaxGreatest(alternatives) == (if maxMatch > MaxGreatest(rest) then maxMatch else MaxGreatest(rest))
    {
      var alternative := alternatives[i];
      assert alternatives[i..][1..] == alternatives[i + 1..];
      minMatch := if minMatch < MinMatch(alternative) then minMatch else MinMatch(alternative);
      maxMatch := if maxMatch > MaxMatch(alternative) then maxMatch else MaxMatch(alternative);
    }
  }

  /** The fields min_match_ and max_match_ of a new alternative. */
  method NewAlternative(nodes: seq<Tree>) returns (minMatch: int, maxMatch: int)
    requires |nodes| > 1
    ensures minMatch == MinMatch(Alternative(nodes))
    ensures maxMatch == MaxMatch(Alternative(nodes))
  {
    minMatch, maxMatch := 0, 0;
    for i := 0 to |nodes|
      invariant MinSum(nodes[i..], minMatch) == MinSum(nodes, 0)
      invariant MaxSum(nodes[i..], maxMatch) == MaxSum(nodes, 0)
    {
      assert nodes[i..][1..] == nodes[i + 1..];
      minMatch := Wrap32(minMatch + MinMatch(nodes[i]));
      var nodeMaxMatch := MaxMatch(nodes[i]);
      if INFINITY - maxMatch < nodeMaxMatch {
        maxMatch := INFINITY;
      } else {
        maxMatch := maxMatch + nodeMaxMatch;
      }
    }
  }

  method UnionOfRegisters(children: seq<Tree>) returns (result: Interval)
    ensures IsHull(result, CapturesIn(children))
  {
    result := EMPTY_INTERVAL;
    for i := 0 to |children|
      invariant ListCaptureRegisters(children[i..], result) == ListCaptureRegisters(children, EMPTY_INTERVAL)
    {
      assert children[i..][1..] == children[i + 1..];
      result := result.Union(CaptureRegisters(children[i]));
    }
    ListHull(children, EMPTY_INTERVAL, {});
    assert {} + CapturesIn(children) == CapturesIn(children);
  }
}
