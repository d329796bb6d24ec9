/** The JSON checker: a recursive descent over tokens that warns and goes on, or stops with an
    error.  It is compared with the grammar of section 2 of RFC 4627. */
module JsonChecker {
  import opened Wrappers

  datatype Kind =
    | LeftBrace | RightBrace | LeftBracket | RightBracket | Comma | Colon
    | Minus | Decrement | Plus | Increment | Dot
    | TrueWord | FalseWord | NullWord | Number | Text | Identifier | OtherKind

  /** from and character are the columns where the token begins and ends. */
  datatype Token = Token(kind: Kind, value: string, line: int, from: int, character: int)

  // ------------------------------------------------------------ the grammar

  /** When a minus sign and its number make one number: the checker compares their columns, the
      grammar wants them side by side on one line. */
  datatype Adjacency = ByColumn | OnOneLine

  predicate Touches(minus: Token, number: Token, a: Adjacency) {
    minus.character == number.from && (a.OnOneLine? ==> minus.line == number.line)
  }

  /** value = false / null / true / object / array / number / string */
  ghost predicate IsValue(ts: seq<Token>, a: Adjacency)
    decreases |ts|, 3
  {
    || (|ts| == 1 && ts[0].kind in {FalseWord, NullWord, TrueWord, Number, Text})
    || (|ts| == 2 && ts[0].kind == Minus && ts[1].kind == Number && Touches(ts[0], ts[1], a))
    || IsObject(ts, a)
    || IsArray(ts, a)
  }

  /** array = begin-array [ value *( value-separator value ) ] end-array */
  ghost predicate IsArray(ts: seq<Token>, a: Adjacency)
    decreases |ts|, 2
  {
    && |ts| >= 2 && ts[0].kind == LeftBracket && ts[|ts| - 1].kind == RightBracket
    && (|ts| == 2 || IsElements(ts[1..|ts| - 1], a))
  }

  ghost predicate IsElements(ts: seq<Token>, a: Adjacency)
    decreases |ts|, 4
  {
    || IsValue(ts, a)
    || exists k :: 0 < k < |ts| && IsValue(ts[..k], a) && ts[k].kind == Comma && IsElements(ts[k + 1..], a)
  }

  /** object = begin-object [ member *( value-separator member ) ] end-object, with distinct names,
      none of them __proto__ */
  ghost predicate IsObject(ts: seq<Token>, a: Adjacency)
    decreases |ts|, 2
  {
    && |ts| >= 2 && ts[0].kind == LeftBrace && ts[|ts| - 1].kind == RightBrace
    && (|ts| == 2 || exists keys :: IsMembers(ts[1..|ts| - 1], keys, a) && Distinct(keys) && "__proto__" !in keys)
  }

  /** member = string name-separator value; keys lists the names in order. */
  ghost predicate IsMembers(ts: seq<Token>, keys: seq<string>, a: Adjacency)
    decreases |ts|, 4
  {
    && |ts| >= 3 && ts[0].kind == Text && ts[1].kind == Colon
    && keys != [] && keys[0] == ts[0].value
    && (|| (IsValue(ts[2..], a) && |keys| == 1)
        || exists k :: 2 < k < |ts| && IsValue(ts[2..k], a) && ts[k].kind == Comma
                       && IsMembers(ts[k + 1..], keys[1..], a))
  }

  ghost predicate Distinct(keys: seq<string>) {
    forall i, j :: 0 <= i < j < |keys| ==> keys[i] != keys[j]
  }

  // ------------------------------------------------------------ a run without complaint

  /** Where a run of the checker from ts stops when it has nothing to complain about. */
  function Value(ts: seq<Token>): (r: Option<seq<Token>>)
    ensures r.Some? ==> |r.value| < |ts|
    decreases |ts|, 1
  {
    if ts == [] then None
    else if ts[0].kind.TrueWord? || ts[0].kind.FalseWord? || ts[0].kind.NullWord?
            || ts[0].kind.Number? || ts[0].kind.Text? then Some(ts[1..])
    else if ts[0].kind == Minus then
      if |ts| > 1 && ts[1].kind == Number && Touches(ts[0], ts[1], ByColumn) then Some(ts[2..]) else None
    else if ts[0].kind == LeftBrace then
      if |ts| > 1 && ts[1].kind == RightBrace then Some(ts[2..])
      else
        var r := Members(ts[1..], {});
        if r.Some? && r.value != [] && r.value[0].kind == RightBrace then Some(r.value[1..]) else None
    else if ts[0].kind == LeftBracket then
      if |ts| > 1 && ts[1].kind == RightBracket then Some(ts[2..])
      else
        var r := Elements(ts[1..]);
        if r.Some? && r.value != [] && r.value[0].kind == RightBracket then Some(r.value[1..]) else None
    else None
  }

  function Elements(ts: seq<Token>): (r: Option<seq<Token>>)
    ensures r.Some? ==> |r.value| < |ts|
    decreases |ts|, 2
  {
    var v := Value(ts);
    if v.None? then None
    else if v.value != [] && v.value[0].kind == Comma then Elements(v.value[1..])
    else v
  }

  function Members(ts: seq<Token>, seen: set<string>): (r: Option<seq<Token>>)
    ensures r.Some? ==> |r.value| < |ts|
    decreases |ts|, 2
  {
    if |ts| >= 2 && ts[0].kind == Text && ts[0].value !in seen && ts[0].value != "__proto__" && ts[1].kind == Colon then
      var v := Value(ts[2..]);
      if v.None? then None
      else if v.value != [] && v.value[0].kind == Comma then Members(v.value[1..], seen + {ts[0].value})
      else v
    else None
  }

  // ------------------------------------------------------------ runs and grammar agree

  /** r is what is left of ts after a first part. */
  ghost predicate Leaves(ts: seq<Token>, n: nat, r: Option<seq<Token>>) {
    n <= |ts| && r == Some(ts[n..])
  }

  lemma {:induction false} ValueSound(ts: seq<Token>) returns (n: nat)
    requires Value(ts).Some?
    ensures Leaves(ts, n, Value(ts)) && IsValue(ts[..n], ByColumn)
    decreases |ts|, 1
  {
    hide IsElements, IsMembers, Elements, Members;
    var first := ts[0].kind;
    if first in {TrueWord, FalseWord, NullWord, Number, Text} {
      n := 1;
    } else if first == Minus {
      n := 2;
    } else if first == LeftBrace {
      if ts[1].kind == RightBrace {
        n := 2;
        assert IsObject(ts[..2], ByColumn);
      } else {
        var m, keys := MembersSound(ts[1..], {});
        n := m + 2;
        assert ts[..n][1..n - 1] == ts[1..][..m];
        assert IsObject(ts[..n], ByColumn);
      }
    } else {
      if ts[1].kind == RightBracket {
        n := 2;
        assert IsArray(ts[..2], ByColumn);
      } else {
        var m := ElementsSound(ts[1..]);
        n := m + 2;
        assert ts[..n][1..n - 1] == ts[1..][..m];
        assert IsArray(ts[..n], ByColumn);
      }
    }
  }

  lemma {:induction false} ElementsSound(ts: seq<Token>) returns (n: nat)
    requires Elements(ts).Some?
    ensures Leaves(ts, n, Elements(ts)) && n > 0 && IsElements(ts[..n], ByColumn)
    decreases |ts|, 2
  {
    hide IsValue, Value;
    n := ValueSound(ts);
    var v := Value(ts).value;
    if v != [] && v[0].kind == Comma {
      var k := n;
      var m := ElementsSound(v[1..]);
      n := k + 1 + m;
      assert ts[..n][..k] == ts[..k] && ts[..n][k + 1..] == v[1..][..m];
    }
  }

  lemma OneMember(ts: seq<Token>, name: string)
    requires |ts| >= 3 && ts[0].kind == Text && ts[0].value == name && ts[1].kind == Colon && IsValue(ts[2..], ByColumn)
    ensures IsMembers(ts, [name], ByColumn)
  {
    hide IsValue;
  }

  lemma JoinMembers(ts: seq<Token>, k: nat, name: string, rest: seq<string>)
    requires 2 < k < |ts| && ts[0].kind == Text && ts[0].value == name && ts[1].kind == Colon
    requires IsValue(ts[2..k], ByColumn) && ts[k].kind == Comma && IsMembers(ts[k + 1..], rest, ByColumn)
    ensures IsMembers(ts, [name] + rest, ByColumn)
  {
    hide IsValue;
    assert ([name] + rest)[1..] == rest;
  }

  /** Names that an object may still have when those in seen have been used. */
  ghost predicate GoodNames(keys: seq<string>, seen: set<string>) {
    Distinct(keys) && "__proto__" !in keys && forall k :: k in keys ==> k !in seen
  }

  lemma OneName(name: string, seen: set<string>)
    requires name !in seen && name != "__proto__"
    ensures GoodNames([name], seen)
  {
  }

  lemma MoreNames(name: string, rest: seq<string>, seen: set<string>)
    requires name !in seen && name != "__proto__" && GoodNames(rest, seen + {name})
    ensures GoodNames([name] + rest, seen) && ([name] + rest)[1..] == rest
  {
    var keys := [name] + rest;
    forall i, j | 0 <= i < j < |keys| ensures keys[i] != keys[j] {
      assert keys[j] == rest[j - 1] && rest[j - 1] in rest;
    }
  }

  lemma FirstName(keys: seq<string>, seen: set<string>)
    requires GoodNames(keys, seen) && keys != []
    ensures keys[0] !in seen && keys[0] != "__proto__"
  {
  }

  lemma LaterNames(keys: seq<string>, seen: set<string>)
    requires GoodNames(keys, seen) && keys != []
    ensures GoodNames(keys[1..], seen + {keys[0]})
  {
    forall key | key in keys[1..] ensures key in keys && key !in seen + {keys[0]} {
      var i :| 0 <= i < |keys[1..]| && keys[1..][i] == key;
      assert keys[i + 1] == key && keys[0] != keys[i + 1];
    }
  }

  lemma {:induction false} MembersSound(ts: seq<Token>, seen: set<string>) returns (n: nat, keys: seq<string>)
    requires Members(ts, seen).Some?
    ensures Leaves(ts, n, Members(ts, seen)) && IsMembers(ts[..n], keys, ByColumn)
    ensures GoodNames(keys, seen)
    decreases |ts|, 2
  {
    hide IsValue, Value, GoodNames, IsMembers;
    n := ValueSound(ts[2..]);
    var v := Value(ts[2..]).value;
    var name := ts[0].value;
    n := n + 2;
    if v != [] && v[0].kind == Comma {
      var k := n;
      var m, rest := MembersSound(v[1..], seen + {name});
      n := k + 1 + m;
      keys := [name] + rest;
      SplitTail(ts, v, 2, k, m);
      JoinMembers(ts[..n], k, name, rest);
      MoreNames(name, rest, seen);
    } else {
      keys := [name];
      OneName(name, seen);
      assert ts[..n][2..] == ts[2..][..n - 2];
      OneMember(ts[..n], name);
    }
  }

  predicate StartsWith(ts: seq<Token>, k: Kind) { ts != [] && ts[0].kind == k }

  lemma {:induction false} ValueComplete(v: seq<Token>, rest: seq<Token>)
    requires IsValue(v, ByColumn)
    ensures Value(v + rest) == Some(rest)
    decreases |v|, 1
  {
    hide IsElements, IsMembers, Elements, Members;
    if IsObject(v, ByColumn) {
      if |v| > 2 {
        var inner, tail := v[1..|v| - 1], [v[|v| - 1]] + rest;
        var keys :| IsMembers(inner, keys, ByColumn) && Distinct(keys) && "__proto__" !in keys;
        assert (v + rest)[1..] == inner + tail;
        MembersComplete(inner, keys, {}, tail);
        MembersBegin(inner, keys);
        assert tail[1..] == rest;
      }
    } else if IsArray(v, ByColumn) {
      if |v| > 2 {
        var inner, tail := v[1..|v| - 1], [v[|v| - 1]] + rest;
        assert (v + rest)[1..] == inner + tail;
        ElementsComplete(inner, tail);
        ElementsBegin(inner);
        assert tail[1..] == rest;
      }
    }
  }

  lemma MembersBegin(ts: seq<Token>, keys: seq<string>)
    requires IsMembers(ts, keys, ByColumn)
    ensures StartsWith(ts, Text)
  {
  }

  lemma ValueBegins(ts: seq<Token>)
    requires IsValue(ts, ByColumn)
    ensures ts != [] && ts[0].kind != RightBracket
  {
    assert IsObject(ts, ByColumn) ==> ts[0].kind == LeftBrace;
    assert IsArray(ts, ByColumn) ==> ts[0].kind == LeftBracket;
  }

  lemma ElementsBegin(ts: seq<Token>)
    requires IsElements(ts, ByColumn)
    ensures ts != [] && ts[0].kind != RightBracket
  {
    hide IsValue;
    if IsValue(ts, ByColumn) {
      ValueBegins(ts);
    } else {
      var k :| 0 < k < |ts| && IsValue(ts[..k], ByColumn) && ts[k].kind == Comma && IsElements(ts[k + 1..], ByColumn);
      ValueBegins(ts[..k]);
      assert ts[..k][0] == ts[0];
    }
  }

  lemma SplitSum<T>(s: seq<T>, rest: seq<T>, i: nat, k: nat)
    requires i <= k < |s|
    ensures (s + rest)[i..] == s[i..k] + (s[k..] + rest)
    ensures (s[k..] + rest)[0] == s[k] && (s[k..] + rest)[1..] == s[k + 1..] + rest
  {
  }

  /** v is what follows the first k elements of s. */
  lemma SplitTail<T>(s: seq<T>, v: seq<T>, i: nat, k: nat, m: nat)
    requires i <= k < |s| && v == s[k..] && m < |v|
    ensures s[..k + 1 + m][i..k] == s[i..][..k - i]
    ensures s[..k + 1 + m][k] == v[0] && s[..k + 1 + m][k + 1..] == v[1..][..m]
    ensures v[1..][m..] == s[k + 1 + m..]
  {
  }

  lemma {:induction false} ElementsComplete(es: seq<Token>, rest: seq<Token>)
    requires IsElements(es, ByColumn) && !StartsWith(rest, Comma)
    ensures Elements(es + rest) == Some(rest)
    decreases |es|, 2
  {
    hide IsValue, Value;
    if IsValue(es, ByColumn) {
      ValueComplete(es, rest);
    } else {
      var k :| 0 < k < |es| && IsValue(es[..k], ByColumn) && es[k].kind == Comma && IsElements(es[k + 1..], ByColumn);
      SplitSum(es, rest, 0, k);
      assert es[0..k] == es[..k] && (es + rest)[0..] == es + rest;
      ValueComplete(es[..k], es[k..] + rest);
      ElementsComplete(es[k + 1..], rest);
    }
  }

  lemma {:induction false} MembersComplete(ms: seq<Token>, keys: seq<string>, seen: set<string>, rest: seq<Token>)
    requires IsMembers(ms, keys, ByColumn) && !StartsWith(rest, Comma)
    requires GoodNames(keys, seen)
    ensures Members(ms + rest, seen) == Some(rest)
    decreases |ms|, 2
  {
    hide IsValue, Value, GoodNames, Members;
    var ts := ms + rest;
    FirstName(keys, seen);
    if IsValue(ms[2..], ByColumn) && |keys| == 1 {
      ValueComplete(ms[2..], rest);
      assert ts[2..] == ms[2..] + rest;
      MembersStep(ts, seen, rest);
    } else {
      var k :| 2 < k < |ms| && IsValue(ms[2..k], ByColumn) && ms[k].kind == Comma
               && IsMembers(ms[k + 1..], keys[1..], ByColumn);
      var tail := ms[k..] + rest;
      hide IsMembers;
      SplitSum(ms, rest, 2, k);
      ValueComplete(ms[2..k], tail);
      LaterNames(keys, seen);
      MembersComplete(ms[k + 1..], keys[1..], seen + {ts[0].value}, rest);
      MembersStep(ts, seen, tail);
    }
  }

  lemma MembersStep(ts: seq<Token>, seen: set<string>, tail: seq<Token>)
    requires |ts| >= 2 && ts[0].kind == Text && ts[1].kind == Colon && Value(ts[2..]) == Some(tail)
    requires ts[0].value !in seen && ts[0].value != "__proto__"
    ensures Members(ts, seen)
         == if StartsWith(tail, Comma) then Members(tail[1..], seen + {ts[0].value}) else Some(tail)
  {
    hide Value;
  }

  /** A run without complaint that ends at the end of the tokens is exactly a value of the grammar. */
  lemma ExactGrammar(ts: seq<Token>)
    ensures Value(ts) == Some([]) <==> IsValue(ts, ByColumn)
  {
    if Value(ts) == Some([]) {
      var n := ValueSound(ts);
      assert ts[..n] == ts;
    }
    if IsValue(ts, ByColumn) {
      ValueComplete(ts, []);
      assert ts + [] == ts;
    }
  }

  /** The values of one token are the three words, the numbers and the strings; those of two are the
      empty object and the empty array, and a minus sign with a number where it ends. */
  lemma ShortValues(t: Token, u: Token, a: Adjacency)
    ensures IsValue([t], a) <==> t.kind in {TrueWord, FalseWord, NullWord, Number, Text}
    ensures Value([t]) == Some([]) <==> t.kind in {TrueWord, FalseWord, NullWord, Number, Text}
    ensures IsValue([t, u], a)
            <==> (t.kind, u.kind) in {(LeftBrace, RightBrace), (LeftBracket, RightBracket)}
                 || ((t.kind, u.kind) == (Minus, Number) && t.character == u.from
                     && (a == OnOneLine ==> t.line == u.line))
    ensures Value([t, u]) == Some([])
            <==> (t.kind, u.kind) in {(LeftBrace, RightBrace), (LeftBracket, RightBracket)}
                 || ((t.kind, u.kind) == (Minus, Number) && t.character == u.from)
  {
    ExactGrammar([t]);
    ExactGrammar([t, u]);
    hide Value;
    assert !IsArray([t], a) && !IsObject([t], a) && !IsArray([t], ByColumn) && !IsObject([t], ByColumn);
    ShortBrackets(t, u, a);
    ShortBrackets(t, u, ByColumn);
  }

  lemma ShortBrackets(t: Token, u: Token, a: Adjacency)
    ensures IsArray([t, u], a) <==> t.kind == LeftBracket && u.kind == RightBracket
    ensures IsObject([t, u], a) <==> t.kind == LeftBrace && u.kind == RightBrace
  {
  }

  // ------------------------------------------------------------ the checker

  /** The text of a token id that an identifier is compared with. */
  function IdText(k: Kind): string {
    match k
    case LeftBrace => "{"
    case RightBrace => "}"
    case LeftBracket => "["
    case RightBracket => "]"
    case Comma => ","
    case Colon => ":"
    case Minus => "-"
    case Number => "(number)"
    case _ => "?"
  }

  /** The lexer makes identifiers of letters, digits, '_' and '$' only. */
  predicate WellLexed(ts: seq<Token>) {
    forall i :: 0 <= i < |ts| && ts[i].kind == Identifier ==>
      ts[i].value !in {"{", "}", "[", "]", ",", ":", "-", "(number)", "(end)", "?"}
  }

  class Checker {
    const input: seq<Token>
    const white: bool         // option.white
    const maxerr: nat         // option.maxerr, and 1 for option.passfail
    var pos: nat              // the next token is input[pos], or '(end)' behind the last one
    var token: Token          // the current token
    var warnings: nat

    predicate Valid()
      reads this
    {
      pos <= |input| && WellLexed(input) && 0 < maxerr
    }

    function Rest(): seq<Token>
      requires Valid()
      reads this
    {
      input[pos..]
    }

    predicate NextIs(k: Kind)
      requires Valid()
      reads this
    {
      pos < |input| && input[pos].kind == k
    }

    constructor (input: seq<Token>, begin: Token, white: bool, maxerr: nat)
      requires WellLexed(input) && 0 < maxerr && begin.kind == OtherKind
      ensures Valid() && this.input == input && Rest() == input && warnings == 0
      ensures token.kind != Minus
    {
      this.input, this.white, this.maxerr := input, white, maxerr;
      this.pos, this.token, this.warnings := 0, begin, 0;
    }

    /** Records a warning; too many of them stop everything. */
    method Warn() returns (ok: bool)
      requires Valid()
      modifies this`warnings
      ensures Valid() && warnings == old(warnings) + 1
    {
      warnings := warnings + 1;
      ok := warnings < maxerr;
    }

    /** advance(id), or advance() when there is no id; the id of '(end)' is asked for by AdvanceEnd. */
    method Advance(id: Option<Kind>) returns (ok: bool)
      requires Valid()
      modifies this
      ensures Valid() && warnings >= old(warnings) && pos >= old(pos)
      ensures ok ==> Rest() == (if old(Rest()) == [] then [] else old(Rest())[1..])
      ensures ok && old(pos) < |input| ==> token == input[old(pos)] && pos == old(pos) + 1
      ensures warnings == old(warnings) ==> ok
      ensures id.Some? && warnings == old(warnings) ==> old(NextIs(id.value))
      ensures var k := if old(pos) < |input| then input[old(pos)].kind else OtherKind;
              (id.Some? ==> old(NextIs(id.value))) && k !in {Dot, Plus, Increment, Decrement}
              && (k == Minus ==> old(token).kind != Minus)
              ==> warnings == old(warnings)
    {
      ok := true;
      if token.kind == Number && NextIs(Dot) {
        ok := Warn();
      } else if token.kind == Minus && (NextIs(Minus) || NextIs(Decrement)) {
        ok := Warn();
      } else if token.kind == Plus && (NextIs(Plus) || NextIs(Increment)) {
        ok := Warn();
      }
      if !ok { return; }
      if id.Some? && !NextIs(id.value) {
        if !(NextIs(Identifier) && input[pos].value == IdText(id.value)) {
          ok := Warn();
          if !ok { return; }
        }
      }
      if pos < |input| {
        token := input[pos];
        pos := pos + 1;
      }
    }

    method AdvanceEnd() returns (ok: bool)
      requires Valid()
      modifies this
      ensures warnings >= old(warnings)
      ensures ok && warnings == old(warnings) <==> old(Rest()) == []
    {
      ok := true;
      if pos < |input| {
        ok := Warn();
      }
    }

    /** jsonValue: clean says that there was nothing to complain about. */
    method JsonValue() returns (ok: bool)
      requires Valid()
      modifies this
      ensures Valid() && warnings >= old(warnings) && pos >= old(pos)
      ensures ok ==> pos > old(pos)
      ensures ok && warnings == old(warnings) ==> Value(old(Rest())) == Some(Rest())
      ensures Value(old(Rest())).Some? && old(token).kind != Minus ==> ok && warnings == old(warnings)
      decreases |input| - pos, 3
    {
      hide Elements, Members;
      if pos == |input| {
        ok := Error();
        return;
      }
      match input[pos].kind {
        case LeftBrace =>
          ok := JsonObject();
        case LeftBracket =>
          ok := JsonArray();
        case TrueWord | FalseWord | NullWord | Number | Text =>
          ok := Advance(None);
        case Minus =>
          ok := JsonNegative();
        case _ =>
          ok := Error();
      }
    }

    /** Records a warning and stops. */
    method Error() returns (ok: bool)
      requires Valid()
      modifies this`warnings
      ensures Valid() && !ok && warnings == old(warnings) + 1
    {
      ok := Warn();
      ok := false;
    }

    method JsonNegative() returns (ok: bool)
      requires Valid() && NextIs(Minus)
      modifies this
      ensures Valid() && warnings >= old(warnings) && pos >= old(pos)
      ensures ok ==> pos > old(pos)
      ensures ok && warnings == old(warnings) ==> Value(old(Rest())) == Some(Rest())
      ensures Value(old(Rest())).Some? && old(token).kind != Minus ==> ok && warnings == old(warnings)
    {
      ok := Advance(Some(Minus));
      if !ok { return; }
      var here := if pos < |input| then input[pos] else token;   // '(end)' does not touch anything
      if pos == |input| || token.character != here.from {
        ok := Warn();
        if !ok { return; }
      }
      if white && pos < |input| && token.character != here.from && token.line == here.line {
        ok := Warn();
        if !ok { return; }
      }
      ok := Advance(Some(Number));
    }

    method JsonArray() returns (ok: bool)
      requires Valid() && NextIs(LeftBracket)
      modifies this
      ensures Valid() && warnings >= old(warnings) && pos >= old(pos)
      ensures ok ==> pos > old(pos)
      ensures ok && warnings == old(warnings) <==> Value(old(Rest())).Some?
      ensures ok && warnings == old(warnings) ==> Value(old(Rest())) == Some(Rest())
      decreases |input| - pos, 2
    {
      hide Elements, Members;
      ok := Advance(Some(LeftBracket));
      if !ok { return; }
      if !NextIs(RightBracket) {
        ok := JsonElements();
        if !ok { return; }
      }
      ok := Advance(Some(RightBracket));
    }

    /** The loop over the elements, up to what should be the closing bracket. */
    method JsonElements() returns (ok: bool)
      requires Valid() && !NextIs(RightBracket) && token.kind == LeftBracket
      modifies this
      ensures Valid() && warnings >= old(warnings) && pos >= old(pos)
      ensures ok && warnings == old(warnings) <==> Elements(old(Rest())).Some?
      ensures ok && warnings == old(warnings) ==> Elements(old(Rest())) == Some(Rest())
      decreases |input| - pos, 4
    {
      hide Value;
      ok := true;
      ghost var all := Elements(Rest());
      while true
        invariant Valid() && warnings >= old(warnings) && pos >= old(pos) && ok
        invariant warnings == old(warnings) ==> all == Elements(Rest()) && token.kind != Minus
        invariant warnings > old(warnings) ==> all == None
        decreases |input| - pos
      {
        NoElement();
        if pos == |input| {
          ok := Error();
          return;
        } else if NextIs(RightBracket) {
          ok := Warn();
          return;
        } else if NextIs(Comma) {
          ok := Error();
          return;
        }
        ok := JsonValue();
        if !ok { return; }
        if !NextIs(Comma) { return; }
        ok := Advance(Some(Comma));
        if !ok { return; }
      }
    }

    lemma NoElement()
      requires Valid()
      ensures pos == |input| || NextIs(RightBracket) || NextIs(Comma) ==> Elements(Rest()) == None
    {
    }

    method JsonObject() returns (ok: bool)
      requires Valid() && NextIs(LeftBrace)
      modifies this
      ensures Valid() && warnings >= old(warnings) && pos >= old(pos)
      ensures ok ==> pos > old(pos)
      ensures ok && warnings == old(warnings) <==> Value(old(Rest())).Some?
      ensures ok && warnings == old(warnings) ==> Value(old(Rest())) == Some(Rest())
      decreases |input| - pos, 2
    {
      hide Elements, Members;
      ok := Advance(Some(LeftBrace));
      if !ok { return; }
      if !NextIs(RightBrace) {
        ok := JsonMembers();
        if !ok { return; }
      }
      ok := Advance(Some(RightBrace));
    }

    /** The loop over the members, up to what should be the closing brace. */
    method JsonMembers() returns (ok: bool)
      requires Valid() && !NextIs(RightBrace)
      modifies this
      ensures Valid() && warnings >= old(warnings) && pos >= old(pos)
      ensures ok && warnings == old(warnings) <==> Members(old(Rest()), {}).Some?
      ensures ok && warnings == old(warnings) ==> Members(old(Rest()), {}) == Some(Rest())
      decreases |input| - pos, 4
    {
      hide Value;
      ok := true;
      ghost var all := Members(Rest(), {});
      var o: set<string> := {};
      while true
        invariant Valid() && warnings >= old(warnings) && pos >= old(pos) && ok
        invariant warnings == old(warnings) ==> all == Members(Rest(), o)
        invariant warnings > old(warnings) ==> all == None
        decreases |input| - pos
      {
        if pos == |input| {
          ok := Error();
          return;
        } else if NextIs(RightBrace) {
          ok := Warn();
          return;
        } else if NextIs(Comma) {
          ok := Error();
          return;
        } else if !NextIs(Text) {
          ok := Warn();
          if !ok { return; }
        }
        var name := input[pos].value;
        if name in o {
          ok := Warn();
          if !ok { return; }
        } else if name == "__proto__" {
          ok := Warn();
          if !ok { return; }
        } else {
          o := o + {name};
        }
        ok := JsonMember();
        if !ok { return; }
        if !NextIs(Comma) { return; }
        ok := Advance(Some(Comma));
        if !ok { return; }
      }
    }

    /** A name, its colon and its value. */
    method JsonMember() returns (ok: bool)
      requires Valid() && pos < |input|
      modifies this
      ensures Valid() && warnings >= old(warnings) && pos >= old(pos)
      ensures ok ==> pos > old(pos)
      ensures var was := old(Rest());
              ok && warnings == old(warnings) ==>
                |was| >= 2 && was[1].kind == Colon && Value(was[2..]) == Some(Rest())
      ensures var was := old(Rest());
              was[0].kind == Text && |was| >= 2 && was[1].kind == Colon && Value(was[2..]).Some? ==>
                ok && warnings == old(warnings)
      decreases |input| - pos, 3
    {
      hide Value;
      ok := Advance(None);
      if !ok { return; }
      ok := Advance(Some(Colon));
      if !ok { return; }
      ok := JsonValue();
    }

    /** What the main program does with tokens that begin with '{' or '[': there is nothing to
        complain about exactly when they are an object or an array of the grammar. */
    method CheckDocument() returns (ok: bool)
      requires Valid() && token.kind != Minus && warnings == 0
      requires NextIs(LeftBrace) || NextIs(LeftBracket)
      modifies this
      ensures ok && warnings == 0 <==> IsObject(old(Rest()), ByColumn) || IsArray(old(Rest()), ByColumn)
    {
      hide Value;
      ghost var ts := Rest();
      ExactGrammar(ts);
      assert IsValue(ts, ByColumn) <==> IsObject(ts, ByColumn) || IsArray(ts, ByColumn);
      ok := JsonValue();
      if !ok { return; }
      ok := AdvanceEnd();
    }
  }

  // ------------------------------------------------------------ minus signs at line ends

  predicate IsAcross(ts: seq<Token>, i: nat)
    requires i + 1 < |ts|
  {
    ts[i].kind == Minus && ts[i + 1].kind == Number && ts[i].line != ts[i + 1].line
  }

  /** No minus sign has a number after it that is on another line. */
  ghost predicate NoneAcross(ts: seq<Token>) {
    forall i: nat {:trigger IsAcross(ts, i)} :: i + 1 < |ts| ==> !IsAcross(ts, i)
  }

  /** Nothing is across around a token that is no part of a number. */
  lemma AcrossParts(ts: seq<Token>, k: nat)
    requires k < |ts| && ts[k].kind != Minus && ts[k].kind != Number
    ensures NoneAcross(ts) <==> NoneAcross(ts[..k]) && NoneAcross(ts[k + 1..])
  {
    if NoneAcross(ts) {
      forall i: nat | i + 1 < k ensures !IsAcross(ts[..k], i) { assert !IsAcross(ts, i); }
      var rest := ts[k + 1..];
      forall i: nat | i + 1 < |rest| ensures !IsAcross(rest, i) { assert !IsAcross(ts, k + 1 + i); }
    }
    if NoneAcross(ts[..k]) && NoneAcross(ts[k + 1..]) {
      forall i: nat | i + 1 < |ts| ensures !IsAcross(ts, i) {
        if i + 1 < k {
          assert !IsAcross(ts[..k], i);
        } else if i > k {
          assert !IsAcross(ts[k + 1..], i - k - 1);
        }
      }
    }
  }

  lemma AcrossInside(ts: seq<Token>)
    requires |ts| >= 2
    requires ts[0].kind != Minus && ts[0].kind != Number && ts[|ts| - 1].kind != Minus && ts[|ts| - 1].kind != Number
    ensures NoneAcross(ts) <==> NoneAcross(ts[1..|ts| - 1])
  {
    AcrossParts(ts, 0);
    AcrossParts(ts[1..], |ts| - 2);
    assert ts[..0] == [] && ts[1..][|ts| - 1..] == [] && ts[1..][..|ts| - 2] == ts[1..|ts| - 1];
    assert NoneAcross(ts[..0]) && NoneAcross(ts[1..][|ts| - 1..]);
  }

  /** The checker compares columns alone.  It accepts what the grammar accepts just when no minus
      sign has its number on another line. */
  lemma {:induction false} MinusAcrossLines(ts: seq<Token>)
    ensures IsValue(ts, OnOneLine) <==> IsValue(ts, ByColumn) && NoneAcross(ts)
    decreases |ts|, 3
  {
    hide NoneAcross, IsElements, IsMembers;
    if |ts| <= 2 { ShortAcross(ts); }
    if |ts| >= 2 && ts[0].kind == LeftBrace { ObjectAcross(ts); }
    if |ts| >= 2 && ts[0].kind == LeftBracket { ArrayAcross(ts); }
  }

  lemma ShortAcross(ts: seq<Token>)
    requires |ts| <= 2
    ensures NoneAcross(ts) <==> |ts| < 2 || !IsAcross(ts, 0)
  {
  }

  lemma {:induction false} ArrayAcross(ts: seq<Token>)
    requires |ts| >= 2 && ts[0].kind == LeftBracket
    ensures IsArray(ts, OnOneLine) <==> IsArray(ts, ByColumn) && NoneAcross(ts)
    decreases |ts|, 2
  {
    hide NoneAcross, IsElements;
    if ts[|ts| - 1].kind == RightBracket {
      AcrossInside(ts);
      if |ts| == 2 { ShortAcross(ts); } else { ElementsAcross(ts[1..|ts| - 1]); }
    }
  }

  lemma {:induction false} ElementsAcross(ts: seq<Token>)
    ensures IsElements(ts, OnOneLine) <==> IsElements(ts, ByColumn) && NoneAcross(ts)
    decreases |ts|, 4
  {
    hide NoneAcross, IsValue;
    MinusAcrossLines(ts);
    forall k | 0 < k < |ts| && ts[k].kind == Comma
      ensures IsValue(ts[..k], OnOneLine) && IsElements(ts[k + 1..], OnOneLine)
              <==> IsValue(ts[..k], ByColumn) && IsElements(ts[k + 1..], ByColumn) && NoneAcross(ts)
    {
      MinusAcrossLines(ts[..k]);
      ElementsAcross(ts[k + 1..]);
      AcrossParts(ts, k);
    }
  }

  lemma {:induction false} ObjectAcross(ts: seq<Token>)
    requires |ts| >= 2 && ts[0].kind == LeftBrace
    ensures IsObject(ts, OnOneLine) <==> IsObject(ts, ByColumn) && NoneAcross(ts)
    decreases |ts|, 2
  {
    hide NoneAcross, IsMembers, Distinct;
    if ts[|ts| - 1].kind == RightBrace {
      AcrossInside(ts);
      if |ts| == 2 {
        ShortAcross(ts);
      } else {
        var inner := ts[1..|ts| - 1];
        forall keys
          ensures IsMembers(inner, keys, OnOneLine) <==> IsMembers(inner, keys, ByColumn) && NoneAcross(inner)
        {
          MembersAcross(inner, keys);
        }
      }
    }
  }

  lemma {:induction false} MembersAcross(ts: seq<Token>, keys: seq<string>)
    ensures IsMembers(ts, keys, OnOneLine) <==> IsMembers(ts, keys, ByColumn) && NoneAcross(ts)
    decreases |ts|, 4
  {
    hide NoneAcross, IsValue;
    if |ts| >= 3 && ts[0].kind == Text && ts[1].kind == Colon && keys != [] {
      AcrossParts(ts, 1);
      ShortAcross(ts[..1]);
      MinusAcrossLines(ts[2..]);
      forall k | 2 < k < |ts| && ts[k].kind == Comma
        ensures IsValue(ts[2..k], OnOneLine) && IsMembers(ts[k + 1..], keys[1..], OnOneLine)
                <==> IsValue(ts[2..k], ByColumn) && IsMembers(ts[k + 1..], keys[1..], ByColumn) && NoneAcross(ts)
      {
        MinusAcrossLines(ts[2..k]);
        MembersAcross(ts[k + 1..], keys[1..]);
        AcrossParts(ts[2..], k - 2);
        assert ts[2..][..k - 2] == ts[2..k] && ts[2..][k - 1..] == ts[k + 1..];
      }
    }
  }

  /** Such a value: the number on the next line happens to begin in the column where the minus
      sign ends. */
  lemma MinusAcrossExample()
    ensures var minus, number := Token(Minus, "-", 1, 1, 2), Token(Number, "7", 2, 2, 3);
            var ts := [Token(LeftBracket, "[", 1, 0, 1), minus, number, Token(RightBracket, "]", 2, 3, 4)];
            IsValue(ts, ByColumn) && !IsValue(ts, OnOneLine)
  {
    var minus, number := Token(Minus, "-", 1, 1, 2), Token(Number, "7", 2, 2, 3);
    var ts := [Token(LeftBracket, "[", 1, 0, 1), minus, number, Token(RightBracket, "]", 2, 3, 4)];
    assert ts[1..3] == [minus, number];
    assert IsValue([minus, number], ByColumn);
    assert IsElements(ts[1..3], ByColumn);
    assert IsArray(ts, ByColumn);
    MinusAcrossLines(ts);
    assert IsAcross(ts, 1);
  }
}
