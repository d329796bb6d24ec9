/** UTF-8: what one character is encoded as, how it is read back, and the writer that fills a
    buffer of limited capacity with whole characters. */
module Utf8Writer {

  type byte = n: nat | n < 256

  const MAX_ONE_BYTE_CHAR: nat := 0x7F
  const MAX_TWO_BYTE_CHAR: nat := 0x7FF
  const MAX_THREE_BYTE_CHAR: nat := 0xFFFF
  const MAX_FOUR_BYTE_CHAR: nat := 0x1FFFFF
  const MAX_ENCODED_SIZE: nat := 4
  const BAD_CHAR: nat := 0xFFFD
  const NO_CAPACITY := -1

  type uchar = c: nat | c <= MAX_FOUR_BYTE_CHAR

  // ------------------------------------------------------------ one character

  /** A byte that goes on with a character: the bits 10 and six of its bits. */
  function Trail(n: nat): byte { 0x80 + n % 64 }

  function Encode(c: uchar): (bytes: seq<byte>)
    ensures 1 <= |bytes| <= MAX_ENCODED_SIZE
  {
    if c <= MAX_ONE_BYTE_CHAR then [c]
    else if c <= MAX_TWO_BYTE_CHAR then [0xC0 + c / 64, Trail(c)]
    else if c <= MAX_THREE_BYTE_CHAR then [0xE0 + c / 4096, Trail(c / 64), Trail(c)]
    else [0xF0 + c / 262144, Trail(c / 4096), Trail(c / 64), Trail(c)]
  }

  /** A character read, and how many bytes it took. */
  datatype Decoded = Decoded(c: uchar, size: nat)

  predicate IsTrail(b: byte) { 0x80 <= b < 0xC0 }

  const BAD := Decoded(BAD_CHAR, 1)

  /** The character at the head of a non-empty text; of anything but the shortest form of a
      character, one byte is skipped. */
  function ValueOf(s: seq<byte>): (d: Decoded)
    requires s != []
    ensures 1 <= d.size <= |s|
  {
    var first := s[0];
    if first <= MAX_ONE_BYTE_CHAR then Decoded(first, 1)
    else if |s| == 1 || !IsTrail(s[1]) then BAD
    else
      var second := s[1] - 0x80;
      if first < 0xE0 then
        var c := first % 32 * 64 + second;
        if first < 0xC0 || c <= MAX_ONE_BYTE_CHAR then BAD else Decoded(c, 2)
      else if |s| == 2 || !IsTrail(s[2]) then BAD
      else
        var third := s[2] - 0x80;
        if first < 0xF0 then
          var c := (first % 16 * 64 + second) * 64 + third;
          if c <= MAX_TWO_BYTE_CHAR then BAD else Decoded(c, 3)
        else if |s| == 3 || !IsTrail(s[3]) then BAD
        else
          var fourth := s[3] - 0x80;
          if first < 0xF8 then
            var c := ((first % 8 * 64 + second) * 64 + third) * 64 + fourth;
            if c <= MAX_THREE_BYTE_CHAR then BAD else Decoded(c, 4)
          else BAD
  }

  lemma Join(a: nat, b: nat)
    requires b < 64
    ensures (a * 64 + b) / 64 == a && (a * 64 + b) % 64 == b
  {
  }

  lemma DivideTwice(n: nat)
    ensures n / 4096 == n / 64 / 64 && n / 262144 == n / 64 / 64 / 64
  {
  }

  /** The shortest form of a character in each size, by its groups of six bits. */
  lemma EncodeGroups(a: nat, b: nat, c: nat, d: nat)
    requires b < 64 && c < 64 && d < 64
    ensures MAX_ONE_BYTE_CHAR < c * 64 + d <= MAX_TWO_BYTE_CHAR ==>
              Encode(c * 64 + d) == [0xC0 + c, 0x80 + d]
    ensures MAX_TWO_BYTE_CHAR < (b * 64 + c) * 64 + d <= MAX_THREE_BYTE_CHAR ==>
              Encode((b * 64 + c) * 64 + d) == [0xE0 + b, 0x80 + c, 0x80 + d]
    ensures MAX_THREE_BYTE_CHAR < ((a * 64 + b) * 64 + c) * 64 + d <= MAX_FOUR_BYTE_CHAR ==>
              Encode(((a * 64 + b) * 64 + c) * 64 + d) == [0xF0 + a, 0x80 + b, 0x80 + c, 0x80 + d]
  {
    var two, three, four := c * 64 + d, (b * 64 + c) * 64 + d, ((a * 64 + b) * 64 + c) * 64 + d;
    Join(c, d);
    Join(b * 64 + c, d);
    Join(b, c);
    Join((a * 64 + b) * 64 + c, d);
    Join(a * 64 + b, c);
    Join(a, b);
    DivideTwice(three);
    DivideTwice(four);
  }

  /** A character is put together again from its groups of six bits. */
  lemma Groups(c: uchar)
    ensures c == c / 64 * 64 + c % 64
    ensures c == (c / 4096 * 64 + c / 64 % 64) * 64 + c % 64
    ensures c == ((c / 262144 * 64 + c / 4096 % 64) * 64 + c / 64 % 64) * 64 + c % 64
  {
    DivideTwice(c);
  }

  lemma ValueOfTwo(s: seq<byte>, c: nat, d: nat)
    requires c < 32 && d < 64 && |s| >= 2 && s[0] == 0xC0 + c && s[1] == 0x80 + d
    requires c * 64 + d > MAX_ONE_BYTE_CHAR
    ensures ValueOf(s) == Decoded(c * 64 + d, 2)
  {
  }

  lemma ValueOfThree(s: seq<byte>, b: nat, c: nat, d: nat)
    requires b < 16 && c < 64 && d < 64
    requires |s| >= 3 && s[0] == 0xE0 + b && s[1] == 0x80 + c && s[2] == 0x80 + d
    requires (b * 64 + c) * 64 + d > MAX_TWO_BYTE_CHAR
    ensures ValueOf(s) == Decoded((b * 64 + c) * 64 + d, 3)
  {
  }

  lemma ValueOfFour(s: seq<byte>, a: nat, b: nat, c: nat, d: nat)
    requires a < 8 && b < 64 && c < 64 && d < 64
    requires |s| >= 4 && s[0] == 0xF0 + a && s[1] == 0x80 + b && s[2] == 0x80 + c && s[3] == 0x80 + d
    requires ((a * 64 + b) * 64 + c) * 64 + d > MAX_THREE_BYTE_CHAR
    ensures ValueOf(s) == Decoded(((a * 64 + b) * 64 + c) * 64 + d, 4)
  {
  }

  /** What is written reads back, whatever follows it. */
  lemma CharRoundTrip(c: uchar, rest: seq<byte>)
    ensures ValueOf(Encode(c) + rest) == Decoded(c, |Encode(c)|)
  {
    var b := Encode(c);
    var s := b + rest;
    assert forall i :: 0 <= i < |b| ==> s[i] == b[i];
    if c > MAX_ONE_BYTE_CHAR {
      hide ValueOf;
      Groups(c);
      if c <= MAX_TWO_BYTE_CHAR {
        ValueOfTwo(s, c / 64, c % 64);
      } else if c <= MAX_THREE_BYTE_CHAR {
        ValueOfThree(s, c / 4096, c / 64 % 64, c % 64);
      } else {
        ValueOfFour(s, c / 262144, c / 4096 % 64, c / 64 % 64, c % 64);
      }
    }
  }

  lemma OneByte(s: seq<byte>)
    requires s != [] && ValueOf(s).size == 1 && ValueOf(s) != BAD
    ensures s[..1] == Encode(ValueOf(s).c)
  {
  }

  lemma TwoBytes(s: seq<byte>)
    requires s != [] && ValueOf(s).size == 2
    ensures s[..2] == Encode(ValueOf(s).c)
  {
    hide Encode;
    var c, d := s[0] - 0xC0, s[1] - 0x80;
    assert s[0] % 32 == c;
    EncodeGroups(0, 0, c, d);
    assert s[..2] == [0xC0 + c, 0x80 + d];
  }

  lemma ThreeBytes(s: seq<byte>)
    requires s != [] && ValueOf(s).size == 3
    ensures s[..3] == Encode(ValueOf(s).c)
  {
    hide Encode;
    var b, c, d := s[0] - 0xE0, s[1] - 0x80, s[2] - 0x80;
    assert s[0] % 16 == b;
    EncodeGroups(0, b, c, d);
    assert s[..3] == [0xE0 + b, 0x80 + c, 0x80 + d];
  }

  lemma FourBytes(s: seq<byte>)
    requires s != [] && ValueOf(s).size == 4
    ensures s[..4] == Encode(ValueOf(s).c)
  {
    hide Encode;
    var a, b, c, d := s[0] - 0xF0, s[1] - 0x80, s[2] - 0x80, s[3] - 0x80;
    assert s[0] % 8 == a;
    EncodeGroups(a, b, c, d);
    assert s[..4] == [0xF0 + a, 0x80 + b, 0x80 + c, 0x80 + d];
  }

  /** Reading accepts nothing but what is written: a byte not of that form is a bad character. */
  lemma OnlyEncodings(s: seq<byte>)
    requires s != []
    ensures var d := ValueOf(s); (d == BAD && s[0] > MAX_ONE_BYTE_CHAR) || s[..d.size] == Encode(d.c)
  {
    hide Encode;
    var d := ValueOf(s);
    assert d.size <= 4 && (d == BAD ==> s[0] > MAX_ONE_BYTE_CHAR);
    hide ValueOf;
    if d.size == 1 && d != BAD { OneByte(s); }
    if d.size == 2 { TwoBytes(s); }
    if d.size == 3 { ThreeBytes(s); }
    if d.size == 4 { FourBytes(s); }
  }

  /** How many bytes a character takes (section 3 of RFC 3629), and that the seven-bit ones stand for
      themselves. */
  lemma EncodedSize(c: uchar)
    ensures |Encode(c)| == if c < 0x80 then 1 else if c < 0x800 then 2 else if c < 0x1_0000 then 3 else 4
    ensures c < 0x80 ==> Encode(c) == [c]
  {
  }

  /** The first difference of two texts is at k, and a is the smaller one there. */
  predicate Before(a: seq<byte>, b: seq<byte>, k: nat) {
    k < |a| && k < |b| && a[..k] == b[..k] && a[k] < b[k]
  }

  lemma TwoInOrder(c: uchar, d: uchar) returns (k: nat)
    requires c < d && |Encode(c)| == |Encode(d)| == 2
    ensures Before(Encode(c), Encode(d), k)
  {
    Groups(c);
    Groups(d);
    k := if c / 64 < d / 64 then 0 else 1;
  }

  lemma ThreeInOrder(c: uchar, d: uchar) returns (k: nat)
    requires c < d && |Encode(c)| == |Encode(d)| == 3
    ensures Before(Encode(c), Encode(d), k)
  {
    Groups(c);
    Groups(d);
    k := if c / 4096 < d / 4096 then 0 else if c / 64 % 64 < d / 64 % 64 then 1 else 2;
  }

  lemma FourInOrder(c: uchar, d: uchar) returns (k: nat)
    requires c < d && |Encode(c)| == |Encode(d)| == 4
    ensures Before(Encode(c), Encode(d), k)
  {
    Groups(c);
    Groups(d);
    k := if c / 262144 < d / 262144 then 0 else if c / 4096 % 64 < d / 4096 % 64 then 1
         else if c / 64 % 64 < d / 64 % 64 then 2 else 3;
  }

  /** Encodings sort byte by byte as the characters do. */
  lemma SortOrder(c: uchar, d: uchar) returns (k: nat)
    requires c < d
    ensures Before(Encode(c), Encode(d), k)
  {
    if |Encode(c)| == |Encode(d)| == 2 {
      k := TwoInOrder(c, d);
    } else if |Encode(c)| == |Encode(d)| == 3 {
      k := ThreeInOrder(c, d);
    } else if |Encode(c)| == |Encode(d)| == 4 {
      k := FourInOrder(c, d);
    } else {
      k := 0;
    }
  }

  // ------------------------------------------------------------ texts

  function EncodeAll(s: seq<uchar>): seq<byte> {
    if s == [] then [] else EncodeAll(s[..|s| - 1]) + Encode(s[|s| - 1])
  }

  function DecodeAll(s: seq<byte>): seq<uchar> {
    if s == [] then [] else [ValueOf(s).c] + DecodeAll(s[ValueOf(s).size..])
  }

  lemma {:induction false} EncodeNext(c: uchar, s: seq<uchar>)
    ensures EncodeAll([c] + s) == Encode(c) + EncodeAll(s)
  {
    hide Encode;
    var t := [c] + s;
    if s == [] {
      assert t == [c] && t[..0] == [];
    } else {
      var front := s[..|s| - 1];
      EncodeNext(c, front);
      assert t[..|t| - 1] == [c] + front && t[|t| - 1] == s[|s| - 1];
    }
  }

  lemma {:induction false} TextRoundTrip(s: seq<uchar>)
    ensures DecodeAll(EncodeAll(s)) == s
  {
    if s != [] {
      var c, rest := s[0], s[1..];
      assert s == [c] + rest;
      EncodeNext(c, rest);
      CharRoundTrip(c, EncodeAll(rest));
      assert (Encode(c) + EncodeAll(rest))[|Encode(c)|..] == EncodeAll(rest);
      TextRoundTrip(rest);
    }
  }

  function Size(s: seq<uchar>, n: nat): nat
    requires n <= |s|
  {
    |EncodeAll(s[..n])|
  }

  lemma SizeNext(s: seq<uchar>, n: nat)
    requires n < |s|
    ensures EncodeAll(s[..n + 1]) == EncodeAll(s[..n]) + Encode(s[n])
    ensures Size(s, n + 1) == Size(s, n) + |Encode(s[n])|
  {
    assert s[..n + 1][..n] == s[..n];
  }

  lemma {:induction false} SizeGrows(s: seq<uchar>, m: nat, n: nat)
    requires m <= n <= |s|
    ensures Size(s, n) >= Size(s, m) + n - m
  {
    if m < n {
      SizeGrows(s, m, n - 1);
      SizeNext(s, n - 1);
    }
  }

  // ------------------------------------------------------------ the bounded writer

  /** n is the most characters of s whose encodings fit in the capacity. */
  ghost predicate IsLongestFit(s: seq<uchar>, capacity: int, n: nat) {
    && n <= |s|
    && (capacity == NO_CAPACITY ==> n == |s|)
    && (capacity != NO_CAPACITY ==>
          && (n == 0 || Size(s, n) <= capacity)
          && forall m: nat :: n < m <= |s| ==> Size(s, m) > capacity)
  }

  /** There is one longest fit, so the writer's result is determined by the text. */
  lemma FitIsUnique(s: seq<uchar>, capacity: int, m: nat, n: nat)
    requires IsLongestFit(s, capacity, m) && IsLongestFit(s, capacity, n)
    ensures m == n
  {
  }

  method EncodeInto(buffer: array<byte>, pos: nat, c: uchar) returns (written: nat)
    requires pos + |Encode(c)| <= buffer.Length
    modifies buffer
    ensures written == |Encode(c)|
    ensures buffer[..] == old(buffer[..])[..pos] + Encode(c) + old(buffer[..])[pos + |Encode(c)|..]
  {
    ghost var was := buffer[..];
    if c <= MAX_ONE_BYTE_CHAR {
      buffer[pos] := c;
      written := 1;
      Overwritten(buffer[..], was, pos, [c]);
    } else if c <= MAX_TWO_BYTE_CHAR {
      buffer[pos] := 0xC0 + c / 64;
      buffer[pos + 1] := Trail(c);
      written := 2;
      Overwritten(buffer[..], was, pos, [0xC0 + c / 64, Trail(c)]);
    } else if c <= MAX_THREE_BYTE_CHAR {
      buffer[pos] := 0xE0 + c / 4096;
      buffer[pos + 1] := Trail(c / 64);
      buffer[pos + 2] := Trail(c);
      written := 3;
      Overwritten(buffer[..], was, pos, [0xE0 + c / 4096, Trail(c / 64), Trail(c)]);
    } else {
      buffer[pos] := 0xF0 + c / 262144;
      buffer[pos + 1] := Trail(c / 4096);
      buffer[pos + 2] := Trail(c / 64);
      buffer[pos + 3] := Trail(c);
      written := 4;
      Overwritten(buffer[..], was, pos, [0xF0 + c / 262144, Trail(c / 4096), Trail(c / 64), Trail(c)]);
    }
  }

  lemma Overwritten(now: seq<byte>, was: seq<byte>, pos: nat, part: seq<byte>)
    requires |now| == |was| && pos + |part| <= |was|
    requires forall i :: 0 <= i < |was| ==>
               now[i] == if pos <= i < pos + |part| then part[i - pos] else was[i]
    ensures now == was[..pos] + part + was[pos + |part|..]
  {
  }

  method CopyInto(buffer: array<byte>, pos: nat, from: array<byte>, count: nat)
    requires count <= from.Length && pos + count <= buffer.Length && from != buffer
    modifies buffer
    ensures buffer[..] == old(buffer[..])[..pos] + from[..count] + old(buffer[..])[pos + count..]
  {
    var j := 0;
    while j < count
      invariant 0 <= j <= count
      invariant buffer[..] == old(buffer[..])[..pos] + from[..j] + old(buffer[..])[pos + j..]
    {
      buffer[pos + j] := from[j];
      j := j + 1;
    }
  }

  /** The bytes written so far are the encoding of the first n characters; the rest is untouched. */
  ghost predicate Written(now: seq<byte>, was: seq<byte>, s: seq<uchar>, n: nat) {
    n <= |s| && Size(s, n) <= |was| && now == EncodeAll(s[..n]) + was[Size(s, n)..]
  }

  lemma WrittenNext(now: seq<byte>, was: seq<byte>, s: seq<uchar>, n: nat, next: seq<byte>)
    requires Written(now, was, s, n) && n < |s| && Size(s, n) + |Encode(s[n])| <= |was|
    requires next == now[..Size(s, n)] + Encode(s[n]) + now[Size(s, n) + |Encode(s[n])|..]
    ensures Written(next, was, s, n + 1)
  {
    hide EncodeAll, Encode;
    SizeNext(s, n);
    var e, f, more := EncodeAll(s[..n]), Encode(s[n]), was[Size(s, n)..];
    assert now[..|e|] == e && now[|e| + |f|..] == more[|f|..] == was[|e| + |f|..];
  }

  lemma WrittenNone(was: seq<byte>, s: seq<uchar>)
    ensures Written(was, was, s, 0) && Size(s, 0) == 0
  {
    assert s[..0] == [] && was[0..] == was;
  }

  lemma WrittenEnd(now: seq<byte>, was: seq<byte>, s: seq<uchar>, n: nat, capacity: int)
    requires Written(now, was, s, n)
    ensures var e := EncodeAll(s[..n]);
            && |now| == |was| && Size(s, n) == |e| <= |was|
            && now == e + [] + was[|e|..]
            && (|e| < |was| ==> now[|e| := 0] == e + [0] + was[|e| + 1..])
    ensures n == |s| ==> Size(s, n) == |EncodeAll(s)|
  {
    assert s[..|s|] == s;
  }

  /** There is room in the buffer for the next character. */
  lemma Room(s: seq<uchar>, i: nat, capacity: int, length: nat)
    requires i < |s|
    requires if capacity == NO_CAPACITY then length > |EncodeAll(s)|
             else length >= capacity && Size(s, i) < capacity - (MAX_ENCODED_SIZE - 1)
    ensures Size(s, i + 1) == Size(s, i) + |Encode(s[i])| <= length
    ensures capacity == NO_CAPACITY || Size(s, i) + |Encode(s[i])| <= capacity
  {
    SizeNext(s, i);
    SizeGrows(s, i + 1, |s|);
    assert s[..|s|] == s;
  }

  lemma LongestFit(s: seq<uchar>, capacity: int, n: nat)
    requires n <= |s| && (n == 0 || capacity == NO_CAPACITY || Size(s, n) <= capacity)
    requires n < |s| ==> capacity != NO_CAPACITY && Size(s, n + 1) > capacity
    ensures IsLongestFit(s, capacity, n)
  {
    forall m: nat | n < m <= |s| ensures Size(s, m) >= Size(s, n + 1) {
      SizeGrows(s, n + 1, m);
    }
  }

  method EncodeNextInto(buffer: array<byte>, pos: nat, s: seq<uchar>, i: nat, ghost was: seq<byte>)
    returns (written: nat)
    requires i < |s| && pos == Size(s, i) && pos + |Encode(s[i])| <= buffer.Length == |was|
    requires Written(buffer[..], was, s, i)
    modifies buffer
    ensures written == |Encode(s[i])| && Written(buffer[..], was, s, i + 1)
  {
    hide EncodeAll, Encode, Written, Size;
    ghost var now := buffer[..];
    written := EncodeInto(buffer, pos, s[i]);
    WrittenNext(now, was, s, i, buffer[..]);
  }

  /** Writes characters while there is room for any, without checking each. */
  method WriteFast(buffer: array<byte>, s: seq<uchar>, capacity: int) returns (pos: nat, i: nat)
    requires if capacity == NO_CAPACITY then buffer.Length > |EncodeAll(s)| else buffer.Length >= capacity
    modifies buffer
    ensures i <= |s| && pos == Size(s, i) && Written(buffer[..], old(buffer[..]), s, i)
    ensures i == 0 || capacity == NO_CAPACITY || pos <= capacity
    ensures i < |s| ==> capacity != NO_CAPACITY
  {
    hide EncodeAll, Encode, Written, Size;
    ghost var was := buffer[..];
    WrittenNone(was, s);
    var fastEnd := capacity - (MAX_ENCODED_SIZE - 1);
    pos, i := 0, 0;
    while i < |s| && (capacity == NO_CAPACITY || pos < fastEnd)
      invariant i <= |s| && pos == Size(s, i)
      invariant i == 0 || capacity == NO_CAPACITY || pos <= capacity
      invariant Written(buffer[..], was, s, i)
    {
      Room(s, i, capacity, buffer.Length);
      var written := EncodeNextInto(buffer, pos, s, i, was);
      pos := pos + written;
      i := i + 1;
    }
  }

  /** Goes on from character i one character at a time, checking that each fits. */
  method WriteSlowly(buffer: array<byte>, s: seq<uchar>, capacity: int, i: nat, pos: nat, ghost was: seq<byte>)
    returns (end: nat, nchars: nat)
    requires i < |s| && pos == Size(s, i) && Written(buffer[..], was, s, i)
    requires capacity != NO_CAPACITY && |was| == buffer.Length >= capacity && (i == 0 || pos <= capacity)
    modifies buffer
    ensures nchars <= |s| && end == Size(s, nchars) && Written(buffer[..], was, s, nchars)
    ensures nchars == 0 || end <= capacity
    ensures nchars < |s| ==> Size(s, nchars + 1) > capacity
  {
    hide EncodeAll, Encode, Written;
    var intermediate := new byte[MAX_ENCODED_SIZE](_ => 0);
    nchars, end := i, pos;
    while nchars < |s| && end < capacity
      invariant nchars <= |s| && end == Size(s, nchars)
      invariant nchars == 0 || end <= capacity
      invariant Written(buffer[..], was, s, nchars)
    {
      ghost var now := buffer[..];
      SizeNext(s, nchars);
      var written := EncodeInto(intermediate, 0, s[nchars]);
      if end + written > capacity { return; }
      assert intermediate[..written] == Encode(s[nchars]);
      CopyInto(buffer, end, intermediate, written);
      WrittenNext(now, was, s, nchars, buffer[..]);
      end := end + written;
      nchars := nchars + 1;
    }
    if nchars < |s| { SizeNext(s, nchars); }
  }

  /** Writes as many whole characters as fit, and a terminator if all did with a byte to spare. */
  method WriteUtf8(buffer: array<byte>, s: seq<uchar>, capacity: int) returns (pos: nat, nchars: nat)
    requires if capacity == NO_CAPACITY then buffer.Length > |EncodeAll(s)| else buffer.Length >= capacity
    modifies buffer
    ensures IsLongestFit(s, capacity, nchars) && pos <= buffer.Length
    ensures forall m: nat :: IsLongestFit(s, capacity, m) ==> m == nchars
    ensures var size := Size(s, nchars);
            var ends := nchars == |s| && (capacity == NO_CAPACITY || size < capacity);
            && pos == (if ends then size + 1 else size)
            && buffer[..] == EncodeAll(s[..nchars]) + (if ends then [0] else []) + old(buffer[pos..])
  {
    hide EncodeAll, Encode, Written, IsLongestFit, Size;
    ghost var was := buffer[..];
    pos, nchars := WriteFast(buffer, s, capacity);
    if nchars < |s| {
      pos, nchars := WriteSlowly(buffer, s, capacity, nchars, pos, was);
    }
    LongestFit(s, capacity, nchars);
    forall m: nat | IsLongestFit(s, capacity, m) ensures m == nchars {
      FitIsUnique(s, capacity, m, nchars);
    }
    WrittenEnd(buffer[..], was, s, nchars, capacity);
    if nchars == |s| && (capacity == NO_CAPACITY || pos < capacity) {
      buffer[pos] := 0;
      pos := pos + 1;
    }
  }
}
