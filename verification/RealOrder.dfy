// Signs and order of products of reals.
module RealOrder {

  lemma ProductSign(a: real, b: real)
    ensures a > 0.0 && b > 0.0 ==> a * b > 0.0
    ensures a >= 0.0 && b >= 0.0 ==> a * b >= 0.0
  {
  }

  lemma Difference(a: real, b: real, n: real)
    ensures (a - b) * n == a * n - b * n
  {
  }

  // Multiplying by a positive number keeps the order.
  lemma ProductOrder(a: real, b: real, n: real)
    requires n > 0.0
    ensures a * n < b * n <==> a < b
    ensures a * n >= b * n <==> a >= b
  {
    Difference(a, b, n);
    Difference(b, a, n);
    ProductSign(b - a, n);
    ProductSign(a - b, n);
  }
}
