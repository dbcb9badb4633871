/** Failure-carrying results and the decimal notation shared by every wire format. */
module Common {

  datatype Option<+T> = None | Some(value: T)

  datatype Result<+T, +E> = Success(value: T) | Failure(error: E) {
    predicate IsFailure() { Failure? }

    function PropagateFailure<U>(): Result<U, E>
      requires Failure?
    {
      Failure(error)
    }

    function Extract(): T
      requires Success?
    {
      value
    }
  }
}

/** Decimal digits: the minimal form Python's `str(int)` prints and the zero-padded `{:0wd}` form. */
module Decimals {

  predicate IsDigit(c: char) { '0' <= c <= '9' }

  predicate AllDigits(s: string) { forall i | 0 <= i < |s| :: IsDigit(s[i]) }

  function DigitChar(d: nat): (c: char)
    requires d < 10
    ensures IsDigit(c)
  {
    (48 + d) as char
  }

  function DigitValue(c: char): (d: nat)
    requires IsDigit(c)
    ensures d < 10 && DigitChar(d) == c
  {
    c as int - 48
  }

  function Pow10(n: nat): nat { if n == 0 then 1 else 10 * Pow10(n - 1) }

  /** The minimal decimal numeral. */
  function Dec(n: nat): (s: string)
    ensures s != [] && AllDigits(s)
    ensures s[0] == '0' ==> n == 0 && s == "0"
  {
    if n < 10 then [DigitChar(n)] else Dec(n / 10) + [DigitChar(n % 10)]
  }

  /** The low `width` digits, zero padded. */
  function Pad(n: nat, width: nat): (s: string)
    ensures |s| == width && AllDigits(s)
  {
    if width == 0 then [] else Pad(n / 10, width - 1) + [DigitChar(n % 10)]
  }

  function Value(s: string): nat
    requires AllDigits(s)
  {
    if s == [] then 0 else 10 * Value(s[..|s| - 1]) + DigitValue(s[|s| - 1])
  }

  lemma {:induction false} ValueOfDec(n: nat)
    ensures Value(Dec(n)) == n
  {
    if n >= 10 {
      var s := Dec(n);
      assert s[..|s| - 1] == Dec(n / 10);
      ValueOfDec(n / 10);
    }
  }

  lemma {:induction false} ValueOfPad(n: nat, width: nat)
    requires n < Pow10(width)
    ensures Value(Pad(n, width)) == n
  {
    if width > 0 {
      var s := Pad(n, width);
      assert s[..|s| - 1] == Pad(n / 10, width - 1);
      ValueOfPad(n / 10, width - 1);
    }
  }

  lemma {:induction false} DecOfValue(s: string)
    requires AllDigits(s) && s != [] && (s[0] == '0' ==> |s| == 1)
    ensures Dec(Value(s)) == s
  {
    if |s| == 1 {
      assert s[..0] == [];
      assert Value(s) == DigitValue(s[0]);
    } else {
      var t := s[..|s| - 1];
      DecOfValue(t);
      ValuePositive(t);
      assert s == t + [s[|s| - 1]];
    }
  }

  lemma {:induction false} ValuePositive(s: string)
    requires AllDigits(s) && s != [] && s[0] != '0'
    ensures Value(s) > 0
  {
    if |s| == 1 {
      assert s[..0] == [];
    } else {
      ValuePositive(s[..|s| - 1]);
    }
  }

  lemma {:induction false} PadOfValue(s: string)
    requires AllDigits(s)
    ensures Pad(Value(s), |s|) == s && Value(s) < Pow10(|s|)
  {
    if s != [] {
      PadOfValue(s[..|s| - 1]);
      assert s == s[..|s| - 1] + [s[|s| - 1]];
    }
  }

  lemma ShiftProduct(v: nat, p: nat)
    ensures 10 * (v * p) == v * (10 * p)
  {
  }

  /** Leading zeros change neither the value nor what follows. */
  lemma {:induction false} ValueOfConcat(a: string, b: string)
    requires AllDigits(a) && AllDigits(b)
    ensures AllDigits(a + b)
    ensures Value(a + b) == Value(a) * Pow10(|b|) + Value(b)
  {
    if b == [] {
      assert a + b == a;
    } else {
      var c := b[..|b| - 1];
      ValueOfConcat(a, c);
      assert (a + b)[..|a + b| - 1] == a + c;
      ShiftProduct(Value(a), Pow10(|c|));
    }
  }

  /** Python's `str` of a signed integer. */
  function Signed(n: int): (s: string)
    ensures s != [] && (s[0] == '-' <==> n < 0) && (n >= 0 ==> IsDigit(s[0]))
    ensures forall i | 0 < i < |s| :: IsDigit(s[i])
  {
    if n < 0 then "-" + Dec(-n) else Dec(n)
  }

  lemma {:induction false} DecLength(n: nat, width: nat)
    requires width > 0 && n < Pow10(width)
    ensures |Dec(n)| <= width
  {
    if n >= 10 {
      DecLength(n / 10, width - 1);
    }
  }
}

/** The largest element of a finite set of integers. */
module Largest {
  /** `max(s, default=0)`. */
  function Highest(s: set<int>): (r: int)
    ensures forall q <- s :: q <= r
    ensures r in s || (r == 0 && s == {})
  {
    if s == {} then 0
    else
      assert exists q :: q in s && forall p <- s :: p <= q by { SomeLargest(s); }
      var q :| q in s && forall p <- s :: p <= q;
      q
  }

  lemma {:induction false} SomeLargest(s: set<int>)
    requires s != {}
    ensures exists q :: q in s && forall p <- s :: p <= q
  {
    if forall q :: q !in s { assert false; }
    var q :| q in s;
    if s - {q} != {} {
      SomeLargest(s - {q});
      var r :| r in s - {q} && forall p <- s - {q} :: p <= r;
      var top := if r < q then q else r;
      forall p <- s ensures p <= top {
        if p != q { assert p in s - {q}; }
      }
      assert top in s;
    } else {
      assert s == {q};
    }
  }

  predicate Ascends(a: seq<int>) { forall i, j | 0 <= i < j < |a| :: a[i] < a[j] }

  /** `sorted(s)`. */
  function Ascending(s: set<int>): (a: seq<int>)
    ensures Ascends(a) && forall q :: q in a <==> q in s
  {
    if s == {} then []
    else
      var q := Highest(s);
      var rest := Ascending(s - {q});
      rest + [q]
  }
}
