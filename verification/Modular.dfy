/** Residues: the few facts about `%` that the limb arithmetic rests on. */
module Modular {

  lemma ModUnique(a: int, r: int, q: int, m: int)
    requires 0 <= r < m && a == r + m*q
    ensures a % m == r && a / m == q
  {
    var d := a / m - q;
    assert m*d == r - a % m;
    assert d >= 1 ==> m*d >= m;
    assert d <= -1 ==> m*d <= -m;
  }

  lemma ModShift(a: int, b: int, q: int, m: int)
    requires m > 0 && a == b + m*q
    ensures a % m == b % m
  {
    assert a == b % m + m*(b / m + q);
    ModUnique(a, b % m, b / m + q, m);
  }

  lemma ModAdd(a: int, b: int, m: int)
    requires m > 0
    ensures (a + b) % m == (a % m + b % m) % m
  {
    assert a + b == (a % m + b % m) + m*(a / m + b / m);
    ModShift(a + b, a % m + b % m, a / m + b / m, m);
  }

  lemma ModSub(a: int, b: int, m: int)
    requires m > 0
    ensures (a - b) % m == (a % m - b % m) % m
  {
    assert a - b == (a % m - b % m) + m*(a / m - b / m);
    ModShift(a - b, a % m - b % m, a / m - b / m, m);
  }

  lemma ModMul(a: int, b: int, m: int)
    requires m > 0
    ensures (a * b) % m == ((a % m) * (b % m)) % m
  {
    var x, y, s, t := a % m, b % m, a / m, b / m;
    calc {
      a * b;
      (x + m*s) * b;
      x * b + m*(s*b);
      x * (y + m*t) + m*(s*b);
      x * y + m*(x*t) + m*(s*b);
      x * y + m*(x*t + s*b);
    }
    ModShift(a * b, x * y, x*t + s*b, m);
  }
}
