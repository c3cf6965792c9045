/** The generator behind Thompson selection.  Its u64 state word is its 64 bits, least significant
    first, so that shifting drops bits exactly as the machine does. */
module Xorshift {

  type Word = w: seq<bool> | |w| == 64 witness Zeros(64)

  function Zeros(n: nat): (r: seq<bool>)
    ensures |r| == n && forall i :: 0 <= i < n ==> !r[i]
  {
    if n == 0 then [] else Zeros(n - 1) + [false]
  }

  const ZERO: Word := Zeros(64)
  const ONE: Word := Zeros(64)[0 := true]

  /** `x ^ (x << k)` */
  function XorUp(x: Word, k: nat): Word {
    seq(64, i requires 0 <= i < 64 => x[i] != (i >= k && x[i - k]))
  }

  /** `x ^ (x >> k)` */
  function XorDown(x: Word, k: nat): Word {
    seq(64, i requires 0 <= i < 64 => x[i] != (i + k < 64 && x[i + k]))
  }

  /** One step of the state word. */
  function Step(x: Word): Word {
    XorUp(XorDown(XorUp(x, 13), 7), 17)
  }

  class Xorshift64 {
    var word: Word

    constructor (seed: Word)
      ensures word == (if seed == ZERO then ONE else seed) && word != ZERO
    {
      assert ONE[0] != ZERO[0];
      word := if seed == ZERO then ONE else seed;
    }

    method NextU64() returns (r: Word)
      requires word != ZERO
      modifies this
      ensures word == Step(old(word)) && r == word && word != ZERO
    {
      var x := word;
      x := XorUp(x, 13);
      x := XorDown(x, 7);
      x := XorUp(x, 17);
      StepKeepsNonzero(word);
      word := x;
      r := x;
    }
  }

  /** Bit i of the result and the bits below i determine bit i of the argument. */
  lemma {:induction false} UpBits(x: Word, y: Word, k: nat, i: nat)
    requires k > 0 && i < 64 && XorUp(x, k) == XorUp(y, k)
    ensures x[i] == y[i]
    decreases i
  {
    if i >= k { UpBits(x, y, k, i - k); }
    assert XorUp(x, k)[i] == XorUp(y, k)[i];
  }

  lemma {:induction false} DownBits(x: Word, y: Word, k: nat, i: nat)
    requires k > 0 && i < 64 && XorDown(x, k) == XorDown(y, k)
    ensures x[i] == y[i]
    decreases 64 - i
  {
    if i + k < 64 { DownBits(x, y, k, i + k); }
    assert XorDown(x, k)[i] == XorDown(y, k)[i];
  }

  lemma UpInjective(x: Word, y: Word, k: nat)
    requires k > 0 && XorUp(x, k) == XorUp(y, k)
    ensures x == y
  {
    forall i | 0 <= i < 64 ensures x[i] == y[i] { UpBits(x, y, k, i); }
  }

  lemma DownInjective(x: Word, y: Word, k: nat)
    requires k > 0 && XorDown(x, k) == XorDown(y, k)
    ensures x == y
  {
    forall i | 0 <= i < 64 ensures x[i] == y[i] { DownBits(x, y, k, i); }
  }

  /** No two states share a successor. */
  lemma StepInjective(x: Word, y: Word)
    requires Step(x) == Step(y)
    ensures x == y
  {
    UpInjective(XorDown(XorUp(x, 13), 7), XorDown(XorUp(y, 13), 7), 17);
    DownInjective(XorUp(x, 13), XorUp(y, 13), 7);
    UpInjective(x, y, 13);
  }

  lemma ZeroIsFixed()
    ensures Step(ZERO) == ZERO
  {
    assert XorUp(ZERO, 13) == ZERO;
    assert XorDown(ZERO, 7) == ZERO;
    assert XorUp(ZERO, 17) == ZERO;
  }

  lemma StepKeepsNonzero(x: Word)
    requires x != ZERO
    ensures Step(x) != ZERO
  {
    ZeroIsFixed();
    if Step(x) == ZERO { StepInjective(x, ZERO); }
  }

  function Iterate<T>(f: T -> T, x: T, n: nat): T {
    if n == 0 then x else f(Iterate(f, x, n - 1))
  }

  /** Iterating an injective function keeps distinct arguments distinct. */
  lemma {:induction false} IterateInjective<T(!new)>(f: T -> T, x: T, y: T, n: nat)
    requires x != y && forall a, b :: f(a) == f(b) ==> a == b
    ensures Iterate(f, x, n) != Iterate(f, y, n)
  {
    if n > 0 { IterateInjective(f, x, y, n - 1); }
  }

  lemma {:induction false} IterateFixed<T>(f: T -> T, x: T, n: nat)
    requires f(x) == x
    ensures Iterate(f, x, n) == x
  {
    if n > 0 { IterateFixed(f, x, n - 1); }
  }

  /** The state after `n` draws. */
  function Draws(x: Word, n: nat): Word {
    Iterate(Step, x, n)
  }

  /** Distinct states stay distinct after any equal number of draws. */
  lemma NeverMerge(x: Word, y: Word, n: nat)
    requires x != y
    ensures Draws(x, n) != Draws(y, n)
  {
    forall a, b | Step(a) == Step(b) ensures a == b { StepInjective(a, b); }
    IterateInjective(Step, x, y, n);
  }

  /** No run of draws from a seeded generator ever reaches the absorbing state zero. */
  lemma NeverZero(x: Word, n: nat)
    requires x != ZERO
    ensures Draws(x, n) != ZERO
  {
    NeverMerge(x, ZERO, n);
    ZeroIsFixed();
    IterateFixed(Step, ZERO, n);
  }

  /** The shifts are 13, 7 and 17: from the state one, the first draw is 1082269761. */
  lemma FirstDraw(i: nat)
    requires i < 64
    ensures Step(ONE)[i] <==> i == 0 || i == 6 || i == 13 || i == 17 || i == 23 || i == 30
  {
    var a := XorUp(ONE, 13);
    var b := XorDown(a, 7);
    assert forall k :: 0 <= k < 64 ==> (a[k] <==> k == 0 || k == 13);
    assert forall k :: 0 <= k < 64 ==> (b[k] <==> k == 0 || k == 6 || k == 13);
  }

  /** A step is linear: it turns the exclusive or of two words into that of their steps. */
  lemma StepLinear(x: Word, y: Word)
    ensures Step(Xor(x, y)) == Xor(Step(x), Step(y))
  {
    XorUpLinear(x, y, 13);
    XorUpLinear(XorDown(XorUp(x, 13), 7), XorDown(XorUp(y, 13), 7), 17);
  }

  function Xor(x: Word, y: Word): Word {
    seq(64, i requires 0 <= i < 64 => x[i] != y[i])
  }

  lemma XorUpLinear(x: Word, y: Word, k: nat)
    ensures XorUp(Xor(x, y), k) == Xor(XorUp(x, k), XorUp(y, k))
  {
  }
}
