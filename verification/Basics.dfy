/** Datatypes, sequences and rounding shared by the modules of the model. */
module Basics {

  datatype Option<+T> = None | Some(value: T)

  datatype Result<+T, +E> = Ok(value: T) | Err(error: E)

  predicate NoRepeats<T(==)>(s: seq<T>) {
    forall i, j :: 0 <= i < j < |s| ==> s[i] != s[j]
  }

  function Elements<T>(s: seq<T>): set<T> {
    set x | x in s
  }

  lemma OneMoreElement<T>(s: set<T>, x: T)
    ensures |s + {x}| == |s| + if x in s then 0 else 1
  {
    if x in s {
      assert s + {x} == s;
    }
  }

  /** A sequence has at most as many elements as positions, and exactly as many without repeats. */
  lemma {:induction false} ElementsFit<T>(s: seq<T>)
    ensures |Elements(s)| <= |s|
    ensures NoRepeats(s) ==> |Elements(s)| == |s|
  {
    if s == [] {
      assert Elements(s) == {};
    } else {
      var front, last := s[..|s| - 1], s[|s| - 1];
      ElementsFit(front);
      assert Elements(s) == Elements(front) + {last};
      OneMoreElement(Elements(front), last);
    }
  }

  function Digit(n: nat): char
    requires n < 10
  {
    "0123456789"[n]
  }

  function Decimal(n: nat): (s: string)
    ensures s != []
  {
    if n < 10 then [Digit(n)] else Decimal(n / 10) + [Digit(n % 10)]
  }

  /** Python's `round` on a number: nearest integer, ties to the even neighbour. */
  function RoundHalfEven(x: real): (n: int)
    ensures -0.5 <= n as real - x <= 0.5
    ensures n as real - x == 0.5 || n as real - x == -0.5 ==> n % 2 == 0
  {
    var low := x.Floor;
    var rest := x - low as real;
    if rest < 0.5 then low
    else if rest > 0.5 then low + 1
    else if low % 2 == 0 then low else low + 1
  }

  /** Rounding never crosses an integer: it is the identity there and monotone around it. */
  lemma RoundHalfEvenAgainstInteger(x: real, k: int)
    ensures x == k as real ==> RoundHalfEven(x) == k
    ensures x >= k as real - 0.5 && k % 2 == 0 ==> RoundHalfEven(x) >= k
    ensures x > k as real - 0.5 ==> RoundHalfEven(x) >= k
    ensures x < k as real - 0.5 ==> RoundHalfEven(x) < k
  {
    var n := RoundHalfEven(x);
    if n < k {
      assert n as real <= k as real - 1.0;
    } else if n > k {
      assert n as real >= k as real + 1.0;
    }
  }
}
