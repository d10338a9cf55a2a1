/** The arithmetic behind the Bech32 checksum: the field of 32 elements.

    BIP-173 defines its checksum as the remainder of a polynomial over GF(32) modulo a generator
    of degree six.  Here both are written down without the words of the program: the field as
    bit polynomials modulo x^5 + x^3 + 1, the generator by its six lower coefficients. */
module GF32 {
  import opened Bytes
  import opened Polymod

  /** Multiplication by x modulo x^5 + x^3 + 1. */
  function Double(b: Byte): Byte {
    if b & 16 != 0 then ((b << 1) & 31) ^ 9 else b << 1
  }

  /** The product of the `n` low bits of `a` with `b`, as polynomials. */
  function Times(a: Byte, b: Byte, n: nat): Byte
    decreases n
  {
    if n == 0 then 0
    else if a & 1 == 1 then b ^ Times(a >> 1, Double(b), n - 1)
    else Times(a >> 1, Double(b), n - 1)
  }

  function Mul(a: Byte, b: Byte): Byte {
    Times(a, b, 5)
  }

  /** The generator x^6 + 29x^5 + 22x^4 + 20x^3 + 21x^2 + 29x + 18, without its leading term. */
  const COEFFICIENTS: seq<Byte> := [29, 22, 20, 21, 29, 18]

  // ---------- A product, bit by bit ----------

  function Bit(a: Byte, i: nat, b: Byte): Byte
    requires i < 5
  {
    if (a >> i) & 1 == 1 then b else 0
  }

  function Sum(v: Byte, w: Byte): Byte {
    v ^ w
  }

  lemma TimesNothing(a: Byte, b: Byte)
    ensures Times(a, b, 0) == 0
  {}

  lemma TimesStep(a: Byte, b: Byte, n: nat)
    requires n > 0
    ensures Times(a, b, n) == Sum(Bit(a, 0, b), Times(a >> 1, Double(b), n - 1))
  {}

  lemma BitOfShift(a: Byte, b: Byte)
    ensures Bit(a >> 1, 0, b) == Bit(a, 1, b)
    ensures Bit(a >> 1 >> 1, 0, b) == Bit(a, 2, b)
    ensures Bit(a >> 1 >> 1 >> 1, 0, b) == Bit(a, 3, b)
    ensures Bit(a >> 1 >> 1 >> 1 >> 1, 0, b) == Bit(a, 4, b)
  {}

  lemma MulBits(a: Byte, b: Byte)
    ensures var b1 := Double(b); var b2 := Double(b1); var b3 := Double(b2); var b4 := Double(b3);
            Mul(a, b) == Sum(Bit(a, 0, b), Sum(Bit(a, 1, b1), Sum(Bit(a, 2, b2), Sum(Bit(a, 3, b3), Sum(Bit(a, 4, b4), 0)))))
  {
    hide Double, Times, Bit, Sum;
    var b1 := Double(b); var b2 := Double(b1); var b3 := Double(b2); var b4 := Double(b3);
    TimesStep(a, b, 5);
    TimesStep(a >> 1, b1, 4);
    TimesStep(a >> 1 >> 1, b2, 3);
    TimesStep(a >> 1 >> 1 >> 1, b3, 2);
    TimesStep(a >> 1 >> 1 >> 1 >> 1, b4, 1);
    TimesNothing(a >> 1 >> 1 >> 1 >> 1 >> 1, Double(b4));
    BitOfShift(a, b1);
    BitOfShift(a, b2);
    BitOfShift(a, b3);
    BitOfShift(a, b4);
  }

  lemma SumZero(v: Byte)
    ensures Sum(v, 0) == v && Sum(0, v) == v
  {}

  lemma SumAssociates(u: Byte, v: Byte, w: Byte)
    ensures Sum(Sum(u, v), w) == Sum(u, Sum(v, w))
  {}

  // ---------- The digits of a word ----------

  function Digit(word: bv32, k: nat): Byte
    requires k < 6
  {
    if k == 0 then ((word >> 25) & 31) as Byte
    else if k == 1 then ((word >> 20) & 31) as Byte
    else if k == 2 then ((word >> 15) & 31) as Byte
    else if k == 3 then ((word >> 10) & 31) as Byte
    else if k == 4 then ((word >> 5) & 31) as Byte
    else (word & 31) as Byte
  }

  lemma SplitDigits(word: bv32)
    ensures forall k :: 0 <= k < 6 ==> Split(word)[k] == Digit(word, k)
  {}

  lemma DigitAdd(a: bv32, b: bv32, k: nat)
    requires k < 6
    ensures Digit(Add(a, b), k) == Sum(Digit(a, k), Digit(b, k))
  {
    if k == 0 {
      assert (((a ^ b) >> 25) & 31) as Byte == ((a >> 25) & 31) as Byte ^ ((b >> 25) & 31) as Byte;
    } else if k == 1 {
      assert (((a ^ b) >> 20) & 31) as Byte == ((a >> 20) & 31) as Byte ^ ((b >> 20) & 31) as Byte;
    } else if k == 2 {
      assert (((a ^ b) >> 15) & 31) as Byte == ((a >> 15) & 31) as Byte ^ ((b >> 15) & 31) as Byte;
    } else if k == 3 {
      assert (((a ^ b) >> 10) & 31) as Byte == ((a >> 10) & 31) as Byte ^ ((b >> 10) & 31) as Byte;
    } else if k == 4 {
      assert (((a ^ b) >> 5) & 31) as Byte == ((a >> 5) & 31) as Byte ^ ((b >> 5) & 31) as Byte;
    } else {
      assert ((a ^ b) & 31) as Byte == (a & 31) as Byte ^ (b & 31) as Byte;
    }
  }

  lemma DigitLow(c: bv32, k: nat)
    requires k < 6
    ensures Digit(Low(c), k) == if k == 5 then 0 else Digit(c, k + 1)
  {}

  lemma DigitSymbol(v: Byte, k: nat)
    requires k < 6 && v < 32
    ensures Digit(v as bv32, k) == if k == 5 then v else 0
  {}

  lemma DigitZero(k: nat)
    requires k < 6
    ensures Digit(0, k) == 0
  {}

  /** The words of the program are the generator's coefficients times 1, x, x^2, x^3 and x^4. */
  lemma GeneratorDigits(k: nat)
    requires k < 6
    ensures var b := COEFFICIENTS[k]; var b1 := Double(b); var b2 := Double(b1); var b3 := Double(b2); var b4 := Double(b3);
            && Digit(GENERATOR[0], k) == b && Digit(GENERATOR[1], k) == b1 && Digit(GENERATOR[2], k) == b2
            && Digit(GENERATOR[3], k) == b3 && Digit(GENERATOR[4], k) == b4
  {}

  lemma TopBit(c: bv32, i: nat)
    requires IsWord(c) && i < 5
    ensures ((c >> 25) >> i) & 1 == 1 <==> (Digit(c, 0) >> i) & 1 == 1
  {}

  lemma TapDigit(c: bv32, i: nat, k: nat)
    requires IsWord(c) && i < 5 && k < 6
    ensures Digit(Tap(c >> 25, i), k) == Bit(Digit(c, 0), i, Digit(GENERATOR[i], k))
  {
    hide Digit;
    TopBit(c, i);
    DigitZero(k);
  }

  lemma FeedbackDigit(top: bv32, n: nat, k: nat)
    requires 0 < n <= 5 && k < 6
    ensures Digit(Feedback(top, n), k) == Sum(Digit(Feedback(top, n - 1), k), Digit(Tap(top, n - 1), k))
  {
    hide Digit, Tap, Add, Feedback, Sum;
    FeedbackUnfold(top, n);
    DigitAdd(Feedback(top, n - 1), Tap(top, n - 1), k);
  }

  lemma SumOfFive(t0: Byte, t1: Byte, t2: Byte, t3: Byte, t4: Byte)
    ensures Sum(Sum(Sum(Sum(Sum(0, t0), t1), t2), t3), t4) == Sum(t0, Sum(t1, Sum(t2, Sum(t3, Sum(t4, 0)))))
  {
    hide Sum;
    SumZero(t0);
    SumZero(t4);
    SumAssociates(t0, t1, t2);
    SumAssociates(t0, Sum(t1, t2), t3);
    SumAssociates(t0, Sum(Sum(t1, t2), t3), t4);
    SumAssociates(t1, t2, t3);
    SumAssociates(t1, Sum(t2, t3), t4);
    SumAssociates(t2, t3, t4);
  }

  /** What the program feeds back is the top digit times the generator. */
  lemma FeedbackIsProduct(c: bv32, k: nat)
    requires IsWord(c) && k < 6
    ensures Digit(Feedback(c >> 25, 5), k) == Mul(Digit(c, 0), COEFFICIENTS[k])
  {
    hide Digit, Tap, Feedback, Sum, Bit, Mul, Double;
    var top, a, b := c >> 25, Digit(c, 0), COEFFICIENTS[k];
    FeedbackEmpty(top);
    DigitZero(k);
    FeedbackDigit(top, 1, k);
    FeedbackDigit(top, 2, k);
    FeedbackDigit(top, 3, k);
    FeedbackDigit(top, 4, k);
    FeedbackDigit(top, 5, k);
    TapDigit(c, 0, k);
    TapDigit(c, 1, k);
    TapDigit(c, 2, k);
    TapDigit(c, 3, k);
    TapDigit(c, 4, k);
    GeneratorDigits(k);
    MulBits(a, b);
    SumOfFive(Digit(Tap(top, 0), k), Digit(Tap(top, 1), k), Digit(Tap(top, 2), k), Digit(Tap(top, 3), k), Digit(Tap(top, 4), k));
  }

  lemma SumOfThree(d: Byte, m: Byte, v: Byte)
    ensures Sum(Sum(d, m), 0) == d ^ m && Sum(Sum(0, m), v) == v ^ m
  {}

  /** Main result: the register divides by the generator of BIP-173.  One step shifts the six
      digits up, brings in the next symbol, and subtracts the digit shifted out times the
      generator. */
  lemma StepDivides(c: bv32, v: Byte, k: nat)
    requires IsWord(c) && v < 32 && k < 6
    ensures Split(Step(c, v))[k] == (if k == 5 then v else Split(c)[k + 1]) ^ Mul(Split(c)[0], COEFFICIENTS[k])
  {
    hide Split, Digit, Low, Feedback, Sum, Mul, Add, Advance, Step;
    SplitDigits(c);
    SplitDigits(Step(c, v));
    StepUnfold(c, v);
    AdvanceUnfold(c);
    DigitAdd(Advance(c), v as bv32, k);
    DigitAdd(Low(c), Feedback(c >> 25, 5), k);
    DigitLow(c, k);
    DigitSymbol(v, k);
    FeedbackIsProduct(c, k);
    SumOfThree(if k == 5 then v else Digit(c, k + 1), Mul(Digit(c, 0), COEFFICIENTS[k]), v);
  }
}
