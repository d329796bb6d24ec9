/** Object literals: which property stores the compiler leaves out because a later property has
    the same key, and what object the remaining code builds. */
module ObjectLiterals {
  import opened Wrappers

  // ------------------------------------------------------------ keys

  /** A number is given as an integer when its text is a plain numeral, else by its text. */
  datatype Key = NullKey | StringKey(text: string) | IntegerKey(n: nat) | OtherNumberKey(text: string)

  const INDEX_END := 0x1_0000_0000

  predicate IsDigit(c: char) { '0' <= c <= '9' }

  function Digit(d: nat): char
    requires d < 10
  {
    ['0', '1', '2', '3', '4', '5', '6', '7', '8', '9'][d]
  }

  function DigitValue(c: char): (d: nat)
    requires IsDigit(c)
    ensures d < 10
  {
    (c as int) - ('0' as int)
  }

  /** The decimal numeral of n. */
  function Numeral(n: nat): (s: string)
    ensures |s| > 0
  {
    if n < 10 then [Digit(n)] else Numeral(n / 10) + [Digit(n % 10)]
  }

  ghost predicate IsNumeral(s: string) { exists n: nat :: s == Numeral(n) }

  /** The name of the property a key stands for; literals have no null key. */
  function PropertyName(k: Key): string {
    match k
    case NullKey => "null"
    case StringKey(s) => s
    case IntegerKey(n) => Numeral(n)
    case OtherNumberKey(s) => s
  }

  ghost predicate KeyOk(k: Key) { k.OtherNumberKey? ==> !IsNumeral(k.text) }

  /** The value of a string of digits. */
  function Value(s: string): nat
    requires forall i :: 0 <= i < |s| ==> IsDigit(s[i])
  {
    if s == [] then 0 else Value(s[..|s| - 1]) * 10 + DigitValue(s[|s| - 1])
  }

  lemma DigitRoundTrip(d: nat)
    requires d < 10
    ensures IsDigit(Digit(d)) && DigitValue(Digit(d)) == d
  {
  }

  lemma DigitOf(c: char)
    requires IsDigit(c)
    ensures Digit(DigitValue(c)) == c
  {
    var d := DigitValue(c);
    assert c == '0' + d as char;
  }

  lemma {:induction false} NumeralFacts(n: nat)
    ensures var s := Numeral(n);
            && (forall i :: 0 <= i < |s| ==> IsDigit(s[i]))
            && Value(s) == n && (s[0] == '0' <==> n == 0)
            && (n > 0 ==> |s| <= n)
  {
    var s := Numeral(n);
    DigitRoundTrip(n % 10);
    if n < 10 {
      assert s[..0] == [];
    } else {
      NumeralFacts(n / 10);
      assert s[..|s| - 1] == Numeral(n / 10);
    }
  }

  /** A string of digits without a leading zero is the numeral of its value. */
  lemma {:induction false} DigitsAreNumeral(s: string)
    requires s != [] && forall i :: 0 <= i < |s| ==> IsDigit(s[i])
    requires s[0] == '0' ==> |s| == 1
    ensures Numeral(Value(s)) == s
    ensures |s| > 1 ==> Value(s) >= 10
    ensures s[0] != '0' ==> Value(s) > 0
  {
    var last := s[|s| - 1];
    DigitOf(last);
    var front := s[..|s| - 1];
    if front == [] {
      assert s == [last];
    } else {
      DigitsAreNumeral(front);
      assert s == front + [last];
      assert front[0] == s[0] != '0';
      assert Value(s) / 10 == Value(front) && Value(s) % 10 == DigitValue(last);
    }
  }

  // ------------------------------------------------------------ array indices

  const MAX_ARRAY_INDEX_SIZE := 10

  /** The array index a string spells, if it is the numeral of a 32-bit number. */
  ghost function ArrayIndexOf(s: string): Option<nat> {
    if exists n: nat :: n < INDEX_END && s == Numeral(n) then
      var n: nat :| n < INDEX_END && s == Numeral(n);
      Some(n)
    else None
  }

  lemma ArrayIndexOfNumeral(n: nat)
    ensures ArrayIndexOf(Numeral(n)) == if n < INDEX_END then Some(n) else None
  {
    forall m: nat | Numeral(m) == Numeral(n) ensures m == n {
      NumeralFacts(m);
      NumeralFacts(n);
    }
  }

  lemma {:induction false} ValueGrows(s: string, i: nat)
    requires i <= |s| && forall k :: 0 <= k < |s| ==> IsDigit(s[k])
    ensures Value(s) >= Value(s[..i])
  {
    if i < |s| {
      ValueGrows(s[..|s| - 1], i);
      assert s[..|s| - 1][..i] == s[..i];
    } else {
      assert s[..i] == s;
    }
  }

  function Pow10(n: nat): nat { if n == 0 then 1 else 10 * Pow10(n - 1) }

  lemma {:induction false} ValueAtLeast(s: string)
    requires s != [] && s[0] != '0' && forall k :: 0 <= k < |s| ==> IsDigit(s[k])
    ensures Value(s) >= Pow10(|s| - 1)
  {
    if |s| > 1 {
      ValueAtLeast(s[..|s| - 1]);
    } else {
      assert s[..0] == [] && DigitValue(s[0]) >= 1;
    }
  }

  /** A numeral of more than ten digits is too big for an index. */
  lemma LongNumeral(s: string)
    requires |s| > MAX_ARRAY_INDEX_SIZE && forall k :: 0 <= k < |s| ==> IsDigit(s[k])
    requires s[0] != '0'
    ensures Value(s) >= INDEX_END
  {
    ValueGrows(s, 11);
    ValueAtLeast(s[..11]);
    assert Pow10(5) == 100000;
    assert Pow10(10) == 10000000000;
  }

  /** Reads a string as an array index, digit by digit, without leaving 32 bits. */
  method ComputeArrayIndex(s: string) returns (r: Option<nat>)
    ensures r == ArrayIndexOf(s)
  {
    if |s| == 0 || |s| > MAX_ARRAY_INDEX_SIZE {
      NoIndex(s);
      return None;
    }
    if s[0] == '0' {
      if |s| > 1 {
        NoIndex(s);
        return None;
      }
      assert s == Numeral(0);
      ArrayIndexOfNumeral(0);
      return Some(0);
    }
    if !IsDigit(s[0]) {
      NoIndex(s);
      return None;
    }
    var result: nat := DigitValue(s[0]);
    assert Value(s[..0]) == 0 && s[..1][..0] == s[..0];
    var i := 1;
    while i < |s|
      invariant 1 <= i <= |s| && forall k :: 0 <= k < i ==> IsDigit(s[k])
      invariant result == Value(s[..i]) < INDEX_END
    {
      if !IsDigit(s[i]) {
        NoIndex(s);
        return None;
      }
      var d := DigitValue(s[i]);
      assert s[..i + 1][..i] == s[..i] && s[..i + 1][i] == s[i];
      if result > 429496729 - (if d > 5 then 1 else 0) {
        TooBig(s, i + 1);
        return None;
      }
      result := result * 10 + d;
      i := i + 1;
    }
    assert s[..i] == s;
    DigitsAreNumeral(s);
    ArrayIndexOfNumeral(result);
    return Some(result);
  }

  lemma NoIndex(s: string)
    requires s == [] || |s| > MAX_ARRAY_INDEX_SIZE || (s[0] == '0' && |s| > 1)
             || (exists k :: 0 <= k < |s| && !IsDigit(s[k]))
    ensures ArrayIndexOf(s) == None
  {
    if exists n: nat :: n < INDEX_END && s == Numeral(n) {
      var n: nat :| n < INDEX_END && s == Numeral(n);
      NumeralFacts(n);
      if |s| > MAX_ARRAY_INDEX_SIZE && s[0] != '0' { LongNumeral(s); }
    }
  }

  lemma TooBig(s: string, i: nat)
    requires i <= |s| && (forall k :: 0 <= k < i ==> IsDigit(s[k])) && Value(s[..i]) >= INDEX_END
    ensures ArrayIndexOf(s) == None
  {
    if exists n: nat :: n < INDEX_END && s == Numeral(n) {
      var n: nat :| n < INDEX_END && s == Numeral(n);
      NumeralFacts(n);
      ValueGrows(s, i);
    }
  }

  // ------------------------------------------------------------ the table a key goes to

  datatype Slot = Element(n: nat) | Named(text: string)

  /** Where the pass looks a key up: small integers by value, whichever way they are spelled. */
  ghost function SlotOf(k: Key): Slot {
    match k
    case NullKey => Named("null")
    case StringKey(s) => (match ArrayIndexOf(s) case Some(n) => Element(n) case None => Named(s))
    case IntegerKey(n) => if n < INDEX_END then Element(n) else Named(Numeral(n))
    case OtherNumberKey(s) => Named(s)
  }

  lemma SlotName(k: Key)
    requires KeyOk(k)
    ensures match SlotOf(k)
            case Element(n) => n < INDEX_END && PropertyName(k) == Numeral(n)
            case Named(s) => PropertyName(k) == s && (k.NullKey? || ArrayIndexOf(s) == None)
  {
    match k
    case NullKey =>
    case StringKey(s) =>
    case IntegerKey(n) => ArrayIndexOfNumeral(n);
    case OtherNumberKey(s) =>
  }

  /** Two keys share a slot exactly when they name the same property. */
  lemma SlotsAreNames(j: Key, k: Key)
    requires KeyOk(j) && KeyOk(k) && !j.NullKey? && !k.NullKey?
    ensures SlotOf(j) == SlotOf(k) <==> PropertyName(j) == PropertyName(k)
  {
    SlotName(j);
    SlotName(k);
    if SlotOf(j).Element? { ArrayIndexOfNumeral(SlotOf(j).n); }
    if SlotOf(k).Element? { ArrayIndexOfNumeral(SlotOf(k).n); }
  }

  // ------------------------------------------------------------ which stores are left out

  datatype Kind = Constant | Computed | MaterializedLiteral | Getter | Setter | Prototype

  /** One property; `compileTime` says whether a materialized literal is a compile-time value. */
  datatype Entry = Entry(key: Key, kind: Kind, compileTime: bool)

  predicate IsCompileTimeValue(e: Entry) {
    e.kind == Constant || (e.kind == MaterializedLiteral && e.compileTime)
  }

  ghost predicate KeysOk(es: seq<Entry>) { forall i :: 0 <= i < |es| ==> KeyOk(es[i].key) }

  predicate SameName(es: seq<Entry>, i: nat, j: nat)
    requires i < |es| && j < |es|
  {
    !es[i].key.NullKey? && !es[j].key.NullKey? && PropertyName(es[i].key) == PropertyName(es[j].key)
  }

  /** A computed property that a later property of the same name hides. */
  ghost predicate Hidden(es: seq<Entry>, i: nat)
    requires i < |es|
  {
    es[i].kind == Computed && exists j: nat :: i < j < |es| && SameName(es, i, j)
  }

  class Property {
    const entry: Entry
    var emitStore: bool

    constructor (entry: Entry)
      ensures this.entry == entry && emitStore
    {
      this.entry := entry;
      emitStore := true;
    }
  }

  /** The slots of the properties from i on that have a key. */
  ghost predicate Tabled(es: seq<Entry>, i: nat, slot: Slot) {
    exists j: nat :: i <= j < |es| && !es[j].key.NullKey? && SlotOf(es[j].key) == slot
  }

  class Literal {
    const properties: seq<Property>

    ghost predicate Valid() {
      forall i, j :: 0 <= i < j < |properties| ==> properties[i] != properties[j]
    }

    function Entries(): (es: seq<Entry>)
      ensures |es| == |properties|
      ensures forall i :: 0 <= i < |es| ==> es[i] == properties[i].entry
    {
      seq(|properties|, i requires 0 <= i < |properties| => properties[i].entry)
    }

    constructor (properties: seq<Property>)
      requires forall i, j :: 0 <= i < j < |properties| ==> properties[i] != properties[j]
      ensures this.properties == properties && Valid()
    {
      this.properties := properties;
    }

    /** Clears `emitStore` of exactly the hidden properties, going backward with two tables. */
    method CalculateEmitStore()
      requires Valid() && KeysOk(Entries())
      modifies properties
      ensures forall i :: 0 <= i < |properties| ==>
                properties[i].emitStore == (old(properties[i].emitStore) && !Hidden(Entries(), i))
    {
      hide Hidden, Tabled, KeyOk, Numeral, PropertyName, IsNumeral, ArrayIndexOf;
      ghost var es := Entries();
      TabledNone(es);
      var named: set<string> := {};
      var elements: set<nat> := {};
      var i := |properties| - 1;
      while i >= 0
        invariant -1 <= i < |properties|
        invariant forall s :: s in named <==> Tabled(es, i + 1, Named(s))
        invariant forall n :: n in elements <==> Tabled(es, i + 1, Element(n))
        invariant forall k :: 0 <= k <= i ==> properties[k].emitStore == old(properties[k].emitStore)
        invariant forall k :: i < k < |properties| ==>
                    properties[k].emitStore == (old(properties[k].emitStore) && !Hidden(es, k))
      {
        var property := properties[i];
        var slot: Slot;
        match property.entry.key {
          case NullKey => {
            TabledNext(es, i);
            HiddenWhenTabled(es, i);
            i := i - 1;
            continue;
          }
          case StringKey(s) => {
            var index := ComputeArrayIndex(s);
            slot := match index case Some(n) => Element(n) case None => Named(s);
          }
          case IntegerKey(n) => {
            slot := if n < INDEX_END then Element(n) else Named(Numeral(n));
          }
          case OtherNumberKey(s) => {
            slot := Named(s);
          }
        }
        assert slot == SlotOf(es[i].key);
        TabledNext(es, i);
        HiddenWhenTabled(es, i);
        if property.entry.kind == Computed {
          if (slot.Element? && slot.n in elements) || (slot.Named? && slot.text in named) {
            property.emitStore := false;
          }
        }
        match slot {
          case Element(n) => elements := elements + {n};
          case Named(s) => named := named + {s};
        }
        i := i - 1;
      }
    }
  }

  lemma TabledNone(es: seq<Entry>)
    ensures forall slot :: !Tabled(es, |es|, slot)
  {
  }

  lemma TabledNext(es: seq<Entry>, i: nat)
    requires i < |es|
    ensures forall slot :: Tabled(es, i, slot) <==>
              Tabled(es, i + 1, slot) || (!es[i].key.NullKey? && slot == SlotOf(es[i].key))
  {
    forall slot
      ensures Tabled(es, i, slot) <==>
                Tabled(es, i + 1, slot) || (!es[i].key.NullKey? && slot == SlotOf(es[i].key))
    {
      if Tabled(es, i, slot) {
        var j: nat :| i <= j < |es| && !es[j].key.NullKey? && SlotOf(es[j].key) == slot;
        assert j == i || i + 1 <= j;
      }
    }
  }

  lemma HiddenWhenTabled(es: seq<Entry>, i: nat)
    requires i < |es| && KeysOk(es)
    ensures Hidden(es, i) <==>
              !es[i].key.NullKey? && es[i].kind == Computed && Tabled(es, i + 1, SlotOf(es[i].key))
  {
    forall j: nat | i < j < |es| && !es[i].key.NullKey? && !es[j].key.NullKey?
      ensures SameName(es, i, j) <==> SlotOf(es[j].key) == SlotOf(es[i].key)
    {
      SlotsAreNames(es[i].key, es[j].key);
    }
  }

  // ------------------------------------------------------------ the object that is built

  /** What a slot of the object holds: a placeholder, or the value of the property at a position. */
  datatype Held = Undefined | ValueAt(position: nat)

  /** A run of stores: the literal as written; with the hidden stores left out; the boilerplate
      that is cloned; the stores made at run time. */
  datatype Phase = Written | Emitted | Boilerplate | RunTime

  ghost function Stored(es: seq<Entry>, p: Phase, i: nat): Option<Held>
    requires i < |es|
  {
    match p
    case Written => Some(ValueAt(i))
    case Emitted => if Hidden(es, i) then None else Some(ValueAt(i))
    case Boilerplate => Some(if IsCompileTimeValue(es[i]) then ValueAt(i) else Undefined)
    case RunTime => if Hidden(es, i) || IsCompileTimeValue(es[i]) then None else Some(ValueAt(i))
  }

  /** The object after the first n stores of a phase, in source order. */
  ghost function Stores(es: seq<Entry>, p: Phase, n: nat, start: map<string, Held>): map<string, Held>
    requires n <= |es|
  {
    if n == 0 then start
    else
      var before := Stores(es, p, n - 1, start);
      match Stored(es, p, n - 1)
      case None => before
      case Some(h) => before[PropertyName(es[n - 1].key) := h]
  }

  ghost function Meaning(es: seq<Entry>): map<string, Held> { Stores(es, Written, |es|, map[]) }

  ghost function Built(es: seq<Entry>): map<string, Held> {
    Stores(es, RunTime, |es|, Stores(es, Boilerplate, |es|, map[]))
  }

  /** The phase's last store of a name before n, or -1. */
  ghost predicate IsLast(es: seq<Entry>, p: Phase, n: nat, name: string, i: int) {
    && n <= |es| && -1 <= i < n
    && (i >= 0 ==> PropertyName(es[i].key) == name && Stored(es, p, i) != None)
    && (forall k: nat :: i < k < n && PropertyName(es[k].key) == name ==> Stored(es, p, k) == None)
  }

  lemma {:induction false} LastStoreWins(es: seq<Entry>, p: Phase, n: nat, start: map<string, Held>, name: string)
    returns (i: int)
    requires n <= |es|
    ensures IsLast(es, p, n, name, i)
    ensures var m := Stores(es, p, n, start);
            if i >= 0 then name in m && Some(m[name]) == Stored(es, p, i)
            else (name in m <==> name in start) && (name in m ==> m[name] == start[name])
  {
    if n == 0 { return -1; }
    if PropertyName(es[n - 1].key) == name && Stored(es, p, n - 1) != None { return n - 1; }
    i := LastStoreWins(es, p, n - 1, start, name);
  }

  /** Leaving out the hidden stores leaves every name with the value it has in the source. */
  lemma EmittedStoresSuffice(es: seq<Entry>)
    ensures Stores(es, Emitted, |es|, map[]) == Meaning(es)
  {
    var m := Stores(es, Emitted, |es|, map[]);
    forall name: string
      ensures (name in m <==> name in Meaning(es)) && (name in m ==> m[name] == Meaning(es)[name])
    {
      var i := LastStoreWins(es, Written, |es|, map[], name);
      var j := LastStoreWins(es, Emitted, |es|, map[], name);
      if i >= 0 {
        assert Stored(es, Emitted, i) != None;
        assert i == j;
      }
    }
  }

  ghost predicate IsDataLiteral(es: seq<Entry>) {
    forall i :: 0 <= i < |es| ==>
      es[i].kind in {Constant, Computed, MaterializedLiteral} && !es[i].key.NullKey?
  }

  /** A literal built at run time whose name was last given a compile-time value. */
  ghost predicate IsRevived(es: seq<Entry>, i: nat, j: nat) {
    && i < j < |es|
    && es[i].kind == MaterializedLiteral && !es[i].compileTime
    && SameName(es, i, j) && IsCompileTimeValue(es[j])
    && (forall k: nat :: j < k < |es| ==> !SameName(es, j, k))
  }

  ghost predicate HasRevived(es: seq<Entry>) { exists i: nat, j: nat :: IsRevived(es, i, j) }

  lemma Revives(es: seq<Entry>, i: nat, j: nat)
    requires IsDataLiteral(es) && i < |es| && Stored(es, RunTime, i) != None
    requires i < j < |es| && IsCompileTimeValue(es[j])
    requires PropertyName(es[i].key) == PropertyName(es[j].key)
    requires forall k: nat :: j < k < |es| ==> PropertyName(es[k].key) != PropertyName(es[j].key)
    ensures IsRevived(es, i, j)
  {
    assert SameName(es, i, j);
  }

  lemma BuiltName(es: seq<Entry>, name: string)
    requires IsDataLiteral(es) && !HasRevived(es)
    ensures name in Built(es) <==> name in Meaning(es)
    ensures name in Built(es) ==> Built(es)[name] == Meaning(es)[name]
  {
    var base := Stores(es, Boilerplate, |es|, map[]);
    var i := LastStoreWins(es, Written, |es|, map[], name);
    var b := LastStoreWins(es, Boilerplate, |es|, map[], name);
    var r := LastStoreWins(es, RunTime, |es|, base, name);
    if i >= 0 {
      assert b == i by { assert Stored(es, Boilerplate, i) != None; }
      if IsCompileTimeValue(es[i]) {
        if r >= 0 { Revives(es, r, i); }
      } else {
        assert Stored(es, RunTime, i) != None;
        assert r == i;
      }
    }
  }

  lemma RevivedDiffers(es: seq<Entry>, i: nat, j: nat)
    requires IsDataLiteral(es) && IsRevived(es, i, j)
    ensures Built(es) != Meaning(es)
  {
    var name := PropertyName(es[i].key);
    var base := Stores(es, Boilerplate, |es|, map[]);
    var w := LastStoreWins(es, Written, |es|, map[], name);
    var r := LastStoreWins(es, RunTime, |es|, base, name);
    assert Stored(es, Written, j) != None && Stored(es, RunTime, i) != None;
    assert w >= j && (w > j ==> SameName(es, j, w));
    assert Stored(es, RunTime, j) == None;
  }

  /** The object built is the object written, except where a literal built at run time comes
      before the compile-time value that ought to replace it. */
  lemma BuiltIsMeaning(es: seq<Entry>)
    requires IsDataLiteral(es)
    ensures Built(es) == Meaning(es) <==> !HasRevived(es)
  {
    if HasRevived(es) {
      var i: nat, j: nat :| IsRevived(es, i, j);
      RevivedDiffers(es, i, j);
    } else {
      forall name: string
        ensures (name in Built(es) <==> name in Meaning(es))
                && (name in Built(es) ==> Built(es)[name] == Meaning(es)[name])
      {
        BuiltName(es, name);
      }
      assert Built(es) == Meaning(es);
    }
  }

  /** `{a: [g()], a: 1}` keeps the array. */
  lemma RevivedExample()
    ensures var es := [Entry(StringKey("a"), MaterializedLiteral, false), Entry(StringKey("a"), Constant, true)];
            && Meaning(es) == map["a" := ValueAt(1)]
            && Built(es) == map["a" := ValueAt(0)]
  {
    var es := [Entry(StringKey("a"), MaterializedLiteral, false), Entry(StringKey("a"), Constant, true)];
    assert !Hidden(es, 0) && IsCompileTimeValue(es[1]);
    var base := Stores(es, Boilerplate, 2, map[]);
    assert Stores(es, Boilerplate, 1, map[]) == map["a" := Undefined];
    assert base == map["a" := ValueAt(1)];
    assert Stores(es, RunTime, 1, base) == map["a" := ValueAt(0)];
    assert Stores(es, Written, 1, map[]) == map["a" := ValueAt(0)];
  }
}
