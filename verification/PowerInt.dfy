/** Raising a number to a whole power by repeated squaring, two bits of the exponent at a time. */
module PowerInt {

  const MIN_INT := -0x8000_0000
  const MAX_INT := 0x7FFF_FFFF

  /** The product of two numbers; proofs about products of products go by its laws below. */
  function Product(x: real, y: real): real { x * y }

  lemma Associate(x: real, y: real, z: real)
    ensures Product(x, Product(y, z)) == Product(Product(x, y), z)
  {
  }

  lemma OneIsUnit(x: real)
    ensures Product(x, 1.0) == x == Product(1.0, x)
  {
  }

  /** The product of n factors x. */
  function Power(x: real, n: nat): real { if n == 0 then 1.0 else Product(x, Power(x, n - 1)) }

  function Square(x: real): real { Product(x, x) }

  lemma {:induction false} PowerSum(x: real, a: nat, b: nat)
    ensures Power(x, a + b) == Product(Power(x, a), Power(x, b))
  {
    hide Product;
    if a == 0 {
      OneIsUnit(Power(x, b));
    } else {
      PowerSum(x, a - 1, b);
      Associate(x, Power(x, a - 1), Power(x, b));
    }
  }

  lemma {:induction false} PowerOfSquare(x: real, n: nat)
    ensures Power(Square(x), n) == Power(x, 2 * n)
  {
    hide Product;
    if n > 0 {
      PowerOfSquare(x, n - 1);
      assert Power(x, 2 * n) == Product(x, Product(x, Power(x, 2 * n - 2)));
      Associate(x, x, Power(x, 2 * n - 2));
    }
  }

  lemma PowerOfFourth(m: real, q: nat)
    ensures Power(m, 4 * q) == Power(Square(Square(m)), q)
  {
    hide Power, Square;
    PowerOfSquare(m, 2 * q);
    PowerOfSquare(Square(m), q);
    assert 2 * (2 * q) == 4 * q;
  }

  lemma PowerOfBit(x: real, b: nat)
    requires b < 2
    ensures Power(x, b) == if b != 0 then x else 1.0
  {
    assert Power(x, 0) == 1.0;
  }

  /** One round takes the two lowest bits of the exponent. */
  lemma Round(p: real, m: real, n: nat)
    ensures var p1 := if n % 2 != 0 then Product(p, m) else p;
            var p2 := if n / 2 % 2 != 0 then Product(p1, Square(m)) else p1;
            Product(p, Power(m, n)) == Product(p2, Power(Square(Square(m)), n / 4))
  {
    var a, b, q := n % 2, n / 2 % 2, n / 4;
    var rest := Power(Square(Square(m)), q);
    assert n == a + (2 * b + 4 * q);
    PowerSum(m, a, 2 * b + 4 * q);
    PowerSum(m, 2 * b, 4 * q);
    PowerOfSquare(m, b);
    PowerOfFourth(m, q);
    PowerOfBit(m, a);
    PowerOfBit(Square(m), b);
    hide Power, Square, Product;
    Associate(p, Power(m, a), Product(Power(Square(m), b), rest));
    Associate(Product(p, Power(m, a)), Power(Square(m), b), rest);
    OneIsUnit(p);
    OneIsUnit(Product(p, Power(m, a)));
  }

  lemma {:induction false} InversePower(x: real, n: nat)
    requires x != 0.0
    ensures Power(x, n) * Power(1.0 / x, n) == 1.0
  {
    if n > 0 {
      InversePower(x, n - 1);
      var p, q := Power(x, n - 1), Power(1.0 / x, n - 1);
      calc {
        (x * p) * ((1.0 / x) * q);
        (x * (1.0 / x)) * (p * q);
        1.0;
      }
    }
  }

  function Pow4(k: nat): nat { if k == 0 then 1 else 4 * Pow4(k - 1) }

  lemma SixteenRounds()
    ensures Pow4(16) > -MIN_INT
  {
    assert Pow4(4) == 256;
    assert Pow4(8) == 65536;
    assert Pow4(12) == 16777216;
  }

  /** x to the power y, in at most sixteen rounds; a negative power is a power of the inverse. */
  method PowerDoubleInt(x: real, y: int) returns (p: real, ghost rounds: nat)
    requires MIN_INT <= y <= MAX_INT && (y < 0 ==> x != 0.0)
    ensures y >= 0 ==> p == Power(x, y)
    ensures y < 0 ==> p == Power(1.0 / x, -y) && p * Power(x, -y) == 1.0
    ensures rounds <= 16
  {
    var m := if y < 0 then 1.0 / x else x;
    var n: nat := if y < 0 then -y else y;
    if y < 0 { InversePower(x, n); }
    ghost var result := Power(m, n);
    assert Power(m, 0) == 1.0;
    hide Power, Square, Product;
    OneIsUnit(result);
    p, rounds := 1.0, 0;
    SixteenRounds();
    while n != 0
      invariant rounds <= 16 && n < Pow4(16 - rounds)
      invariant Product(p, Power(m, n)) == result
    {
      Round(p, m, n);
      if n % 2 != 0 { p := Product(p, m); }
      m := Square(m);
      if n / 2 % 2 != 0 { p := Product(p, m); }
      m := Square(m);
      n := n / 4;
      rounds := rounds + 1;
    }
    PowerOfBit(m, 0);
    OneIsUnit(p);
  }
}
