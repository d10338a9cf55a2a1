/** The Bech32 checksum register: a linear recurrence over GF(2) on 30-bit words.

    One step multiplies the register by x modulo the generator polynomial and adds the next
    symbol.  `Advance` is the multiplication, `Add` the addition of GF(2) vectors; `Advance`
    is linear and injective on 30-bit words, and everything the checksum promises follows
    from those two facts. */
module Polymod {

  import opened Bytes

  const GENERATOR: seq<bv32> := [0x3b6a57b2, 0x26508e6d, 0x1ea119fa, 0x3d4233dd, 0x2a1462b3]

  // Words of the register never leave 30 bits.
  predicate IsWord(c: bv32) {
    c < 0x4000_0000
  }

  function Add(a: bv32, b: bv32): bv32 {
    a ^ b
  }

  function Low(c: bv32): bv32 {
    (c & 0x1ffffff) << 5
  }

  function Tap(top: bv32, i: nat): bv32
    requires i < 5
  {
    if (top >> i) & 1 == 1 then GENERATOR[i] else 0
  }

  function Feedback(top: bv32, n: nat): bv32
    requires n <= 5
  {
    if n == 0 then 0 else Add(Feedback(top, n - 1), Tap(top, n - 1))
  }

  function Advance(c: bv32): bv32 {
    Add(Low(c), Feedback(c >> 25, 5))
  }

  function Step(c: bv32, v: Byte): bv32 {
    Add(Advance(c), v as bv32)
  }

  /** The register after reading `vs`, starting from `c`. */
  function Run(c: bv32, vs: seq<Byte>): bv32 {
    if vs == [] then c else Step(Run(c, vs[..|vs| - 1]), vs[|vs| - 1])
  }

  function Checksum(vs: seq<Byte>): bv32 {
    Run(1, vs)
  }

  ghost predicate Symbols(vs: seq<Byte>) {
    forall i :: 0 <= i < |vs| ==> vs[i] < 32
  }

  // ---------- Vector-space laws of exclusive or ----------

  lemma AddZero(a: bv32)
    ensures Add(a, 0) == a && Add(0, a) == a
  {}

  lemma AddCommutes(a: bv32, b: bv32)
    ensures Add(a, b) == Add(b, a)
  {}

  lemma AddAssociates(a: bv32, b: bv32, c: bv32)
    ensures Add(Add(a, b), c) == Add(a, Add(b, c))
  {}

  lemma AddMedial(a: bv32, b: bv32, c: bv32, d: bv32)
    ensures Add(Add(a, b), Add(c, d)) == Add(Add(a, c), Add(b, d))
  {
    hide *;
    AddAssociates(a, b, Add(c, d));
    AddAssociates(b, c, d);
    AddCommutes(b, c);
    AddAssociates(c, b, d);
    AddAssociates(a, c, Add(b, d));
  }

  lemma AddCancel(a: bv32, b: bv32)
    ensures Add(a, b) == 0 <==> a == b
  {
    hide *;
    AddSelf(a);
    AddAssociates(a, a, b);
    AddZero(a);
    AddZero(b);
  }

  lemma AddSelf(a: bv32)
    ensures Add(a, a) == 0
  {}

  // ---------- Advance is linear ----------

  lemma LowLinear(a: bv32, b: bv32)
    ensures Low(Add(a, b)) == Add(Low(a), Low(b))
  {}

  lemma BitXor(a: bv32, b: bv32, i: nat)
    requires i < 5
    ensures ((a ^ b) >> i) & 1 == ((a >> i) & 1) ^ ((b >> i) & 1)
    ensures (a >> i) & 1 == 0 || (a >> i) & 1 == 1
    ensures (b >> i) & 1 == 0 || (b >> i) & 1 == 1
  {}

  lemma AddIsXor(a: bv32, b: bv32)
    ensures Add(a, b) == a ^ b
  {}

  lemma TapLinear(a: bv32, b: bv32, i: nat)
    requires i < 5
    ensures Tap(Add(a, b), i) == Add(Tap(a, i), Tap(b, i))
  {
    hide Add;
    BitXor(a, b, i);
    AddIsXor(a, b);
    AddZero(0);
    AddZero(GENERATOR[i]);
    AddCancel(GENERATOR[i], GENERATOR[i]);
  }

  lemma FeedbackUnfold(top: bv32, n: nat)
    requires 0 < n <= 5
    ensures Feedback(top, n) == Add(Feedback(top, n - 1), Tap(top, n - 1))
  {}

  lemma FeedbackEmpty(top: bv32)
    ensures Feedback(top, 0) == 0
  {}

  lemma {:induction false} FeedbackLinear(a: bv32, b: bv32, n: nat)
    requires n <= 5
    ensures Feedback(Add(a, b), n) == Add(Feedback(a, n), Feedback(b, n))
  {
    hide *;
    if n == 0 {
      FeedbackEmpty(a);
      FeedbackEmpty(b);
      FeedbackEmpty(Add(a, b));
      AddZero(0);
    } else {
      FeedbackUnfold(a, n);
      FeedbackUnfold(b, n);
      FeedbackUnfold(Add(a, b), n);
      FeedbackLinear(a, b, n - 1);
      TapLinear(a, b, n - 1);
      AddMedial(Feedback(a, n - 1), Feedback(b, n - 1), Tap(a, n - 1), Tap(b, n - 1));
    }
  }

  lemma TopLinear(a: bv32, b: bv32)
    ensures Add(a, b) >> 25 == Add(a >> 25, b >> 25)
  {}

  lemma AdvanceUnfold(c: bv32)
    ensures Advance(c) == Add(Low(c), Feedback(c >> 25, 5))
  {
    hide Feedback, Low, Add;
  }

  lemma AdvanceLinear(a: bv32, b: bv32)
    ensures Advance(Add(a, b)) == Add(Advance(a), Advance(b))
  {
    hide *;
    AdvanceUnfold(a);
    AdvanceUnfold(b);
    AdvanceUnfold(Add(a, b));
    LowLinear(a, b);
    TopLinear(a, b);
    FeedbackLinear(a >> 25, b >> 25, 5);
    AddMedial(Low(a), Low(b), Feedback(a >> 25, 5), Feedback(b >> 25, 5));
  }

  // ---------- Advance is injective on 30-bit words ----------

  /** The five taps spelled out, so that the solver can bit-blast them. */
  function Taps(top: bv32): bv32 {
    Add(Add(Add(Add(Add(0,
      if top & 1 == 1 then 0x3b6a57b2 else 0),
      if (top >> 1) & 1 == 1 then 0x26508e6d else 0),
      if (top >> 2) & 1 == 1 then 0x1ea119fa else 0),
      if (top >> 3) & 1 == 1 then 0x3d4233dd else 0),
      if (top >> 4) & 1 == 1 then 0x2a1462b3 else 0)
  }

  lemma FeedbackIsTaps(top: bv32)
    ensures Feedback(top, 5) == Taps(top)
  {
    hide Add, Feedback;
    FeedbackEmpty(top);
    FeedbackUnfold(top, 1);
    FeedbackUnfold(top, 2);
    FeedbackUnfold(top, 3);
    FeedbackUnfold(top, 4);
    FeedbackUnfold(top, 5);
  }

  lemma AdvanceKernel(c: bv32)
    requires IsWord(c) && Advance(c) == 0
    ensures c == 0
  {
    hide Feedback;
    FeedbackIsTaps(c >> 25);
  }

  lemma StepBound(c: bv32, v: Byte)
    requires IsWord(c)
    ensures IsWord(Step(c, v))
  {
    hide Feedback;
    FeedbackIsTaps(c >> 25);
  }

  lemma AdvanceInjective(a: bv32, b: bv32)
    requires IsWord(a) && IsWord(b) && Advance(a) == Advance(b)
    ensures a == b
  {
    hide *;
    AdvanceLinear(a, b);
    AddCancel(Advance(a), Advance(b));
    AddBound(a, b);
    AdvanceKernel(Add(a, b));
    AddCancel(a, b);
  }

  lemma OneIsWord()
    ensures IsWord(1)
  {}

  lemma AddBound(a: bv32, b: bv32)
    requires IsWord(a) && IsWord(b)
    ensures IsWord(Add(a, b))
  {}

  // ---------- Runs of the register ----------

  lemma StepUnfold(c: bv32, v: Byte)
    ensures Step(c, v) == Add(Advance(c), v as bv32)
  {
    hide Add, Advance;
  }

  lemma RunEmpty(c: bv32)
    ensures Run(c, []) == c
  {}

  lemma RunSnoc(c: bv32, vs: seq<Byte>, v: Byte)
    ensures Run(c, vs + [v]) == Step(Run(c, vs), v)
  {
    hide Step;
    assert (vs + [v])[..|vs|] == vs;
  }

  lemma {:induction false} RunBound(c: bv32, vs: seq<Byte>)
    requires IsWord(c)
    ensures IsWord(Run(c, vs))
  {
    hide *;
    if vs == [] {
      RunEmpty(c);
    } else {
      var init, v := vs[..|vs| - 1], vs[|vs| - 1];
      assert vs == init + [v];
      RunBound(c, init);
      StepBound(Run(c, init), v);
      RunSnoc(c, init, v);
    }
  }

  lemma {:induction false} RunConcat(c: bv32, us: seq<Byte>, vs: seq<Byte>)
    ensures Run(c, us + vs) == Run(Run(c, us), vs)
  {
    hide *;
    if vs == [] {
      RunEmpty(Run(c, us));
      assert us + vs == us;
    } else {
      var init, v := vs[..|vs| - 1], vs[|vs| - 1];
      assert vs == init + [v];
      assert us + vs == (us + init) + [v];
      RunConcat(c, us, init);
      RunSnoc(c, us + init, v);
      RunSnoc(Run(c, us), init, v);
    }
  }

  lemma StepInjective(a: bv32, b: bv32, v: Byte)
    requires IsWord(a) && IsWord(b) && Step(a, v) == Step(b, v)
    ensures a == b
  {
    hide *;
    StepUnfold(a, v);
    StepUnfold(b, v);
    AddRightCancel(Advance(a), Advance(b), v as bv32);
    AdvanceInjective(a, b);
  }

  lemma AddRightCancel(a: bv32, b: bv32, v: bv32)
    requires Add(a, v) == Add(b, v)
    ensures a == b
  {}

  /** Reading the same symbols never brings two different registers together. */
  lemma {:induction false} RunInjective(a: bv32, b: bv32, vs: seq<Byte>)
    requires IsWord(a) && IsWord(b) && Run(a, vs) == Run(b, vs)
    ensures a == b
  {
    hide *;
    if vs == [] {
      RunEmpty(a);
      RunEmpty(b);
    } else {
      var init, v := vs[..|vs| - 1], vs[|vs| - 1];
      assert vs == init + [v];
      RunSnoc(a, init, v);
      RunSnoc(b, init, v);
      RunBound(a, init);
      RunBound(b, init);
      StepInjective(Run(a, init), Run(b, init), v);
      RunInjective(a, b, init);
    }
  }

  // ---------- Up to six symbols are read off the register ----------

  const LIMITS: seq<bv32> := [1, 0x20, 0x400, 0x8000, 0x10_0000, 0x200_0000, 0x4000_0000]

  /** `j` is `k` symbols wide. */
  predicate Fits(j: bv32, k: nat) {
    k <= 6 && j < LIMITS[k]
  }

  /** `j` with one more symbol on the right. */
  function Push(j: bv32, v: Byte): bv32 {
    Add(j << 5, v as bv32)
  }

  /** The symbols laid side by side, five bits each. */
  function Join(vs: seq<Byte>): bv32 {
    if vs == [] then 0 else Push(Join(vs[..|vs| - 1]), vs[|vs| - 1])
  }

  function Zeros(n: nat): (zs: seq<Byte>)
    ensures |zs| == n
  {
    seq(n, _ => 0)
  }

  lemma JoinSnoc(vs: seq<Byte>, v: Byte)
    ensures Join(vs + [v]) == Push(Join(vs), v)
  {
    hide Push;
    assert (vs + [v])[..|vs|] == vs;
  }

  lemma FitsGrows(k: nat, j: bv32, v: Byte)
    requires k < 6 && Fits(j, k) && v < 32
    ensures Fits(Push(j, v), k + 1)
  {}

  lemma JoinEmpty()
    ensures Join([]) == 0 && Fits(0, 0)
  {}

  lemma {:induction false} JoinFits(vs: seq<Byte>)
    requires |vs| <= 6 && Symbols(vs)
    ensures Fits(Join(vs), |vs|)
  {
    hide Join, Push, Fits;
    if vs == [] {
      JoinEmpty();
    } else {
      var init, v := vs[..|vs| - 1], vs[|vs| - 1];
      assert vs == init + [v];
      JoinFits(init);
      JoinSnoc(init, v);
      FitsGrows(|init|, Join(init), v);
    }
  }

  lemma FitsFive(j: bv32, k: nat)
    requires k <= 5 && Fits(j, k)
    ensures Fits(j, 5)
  {}

  lemma LowSymbol(i: bv32, j: bv32, u: Byte, v: Byte)
    requires Fits(i, 5) && Fits(j, 5) && u < 32 && v < 32
    requires Push(i, u) == Push(j, v)
    ensures i == j && u == v
  {}

  lemma {:induction false} JoinInjective(us: seq<Byte>, vs: seq<Byte>)
    requires |us| == |vs| <= 6 && Symbols(us) && Symbols(vs)
    requires Join(us) == Join(vs)
    ensures us == vs
  {
    hide Join, Push, Fits;
    if us != [] {
      var us', u := us[..|us| - 1], us[|us| - 1];
      var vs', v := vs[..|vs| - 1], vs[|vs| - 1];
      assert us == us' + [u] && vs == vs' + [v];
      JoinSnoc(us', u);
      JoinSnoc(vs', v);
      JoinFits(us');
      JoinFits(vs');
      FitsFive(Join(us'), |us'|);
      FitsFive(Join(vs'), |vs'|);
      LowSymbol(Join(us'), Join(vs'), u, v);
      JoinInjective(us', vs');
    }
  }

  lemma AdvanceShort(j: bv32)
    requires Fits(j, 5)
    ensures Advance(j) == j << 5
  {
    hide Feedback;
    FeedbackIsTaps(j >> 25);
  }

  lemma PushUnfold(j: bv32, v: Byte)
    ensures Push(j, v) == Add(j << 5, v as bv32)
  {}

  lemma StepOverZero(c: bv32, j: bv32, v: Byte)
    requires Fits(j, 5)
    ensures Step(Add(c, j), v) == Add(Step(c, 0), Push(j, v))
  {
    hide *;
    StepUnfold(Add(c, j), v);
    StepUnfold(c, 0);
    AdvanceLinear(c, j);
    AdvanceShort(j);
    AddZero(Advance(c));
    AddAssociates(Advance(c), j << 5, v as bv32);
    PushUnfold(j, v);
  }

  /** Six or fewer symbols enter the register unmixed: the run equals the run over zeros plus
      the symbols side by side. */
  lemma {:induction false} RunReadsJoin(c: bv32, vs: seq<Byte>)
    requires |vs| <= 6 && Symbols(vs)
    ensures Run(c, vs) == Add(Run(c, Zeros(|vs|)), Join(vs))
  {
    hide Run, Join, Push, Add, Step, Fits;
    if vs == [] {
      assert Zeros(0) == [];
      RunEmpty(c);
      JoinEmpty();
      AddZero(c);
    } else {
      var init, v := vs[..|vs| - 1], vs[|vs| - 1];
      assert vs == init + [v];
      assert Zeros(|vs|) == Zeros(|init|) + [0];
      RunReadsJoin(c, init);
      RunSnoc(c, init, v);
      RunSnoc(c, Zeros(|init|), 0);
      JoinSnoc(init, v);
      JoinFits(init);
      FitsFive(Join(init), |init|);
      StepOverZero(Run(c, Zeros(|init|)), Join(init), v);
    }
  }

  // ---------- Main results ----------

  /** Burst detection at every length: two sequences that differ only inside a window of at
      most six consecutive symbols never share a checksum, whatever surrounds the window. */
  lemma BurstDetection(before: seq<Byte>, us: seq<Byte>, vs: seq<Byte>, after: seq<Byte>)
    requires |us| == |vs| <= 6 && Symbols(us) && Symbols(vs) && us != vs
    ensures Checksum(before + us + after) != Checksum(before + vs + after)
  {
    hide Run, Join, Add, IsWord;
    var c := Run(1, before);
    RunConcat(1, before, us);
    RunConcat(1, before, vs);
    RunConcat(1, before + us, after);
    RunConcat(1, before + vs, after);
    if Checksum(before + us + after) == Checksum(before + vs + after) {
      OneIsWord();
      RunBound(1, before + us);
      RunBound(1, before + vs);
      RunInjective(Run(c, us), Run(c, vs), after);
      RunReadsJoin(c, us);
      RunReadsJoin(c, vs);
      AddLeftCancel(Run(c, Zeros(|us|)), Join(us), Join(vs));
      JoinInjective(us, vs);
    }
  }

  lemma AddLeftCancel(c: bv32, a: bv32, b: bv32)
    requires Add(c, a) == Add(c, b)
    ensures a == b
  {}

  /** The six symbols of a 30-bit word, most significant first. */
  function Split(word: bv32): (vs: seq<Byte>)
    ensures |vs| == 6 && Symbols(vs)
  {
    [((word >> 25) & 31) as Byte, ((word >> 20) & 31) as Byte, ((word >> 15) & 31) as Byte,
     ((word >> 10) & 31) as Byte, ((word >> 5) & 31) as Byte, (word & 31) as Byte]
  }

  function CreateChecksum(values: seq<Byte>): seq<Byte> {
    Split(Add(Checksum(values + Zeros(6)), 1))
  }

  lemma JoinSix(a: Byte, b: Byte, c: Byte, d: Byte, e: Byte, f: Byte)
    ensures Join([a, b, c, d, e, f]) == Push(Push(Push(Push(Push(Push(0, a), b), c), d), e), f)
  {
    hide Join, Push;
    JoinEmpty();
    JoinSnoc([], a);
    JoinSnoc([a], b);
    JoinSnoc([a, b], c);
    JoinSnoc([a, b, c], d);
    JoinSnoc([a, b, c, d], e);
    JoinSnoc([a, b, c, d, e], f);
    assert [] + [a] == [a] && [a] + [b] == [a, b] && [a, b] + [c] == [a, b, c];
    assert [a, b, c] + [d] == [a, b, c, d] && [a, b, c, d] + [e] == [a, b, c, d, e];
    assert [a, b, c, d, e] + [f] == [a, b, c, d, e, f];
  }

  lemma SixDigits(w: bv32, a: Byte, b: Byte, c: Byte, d: Byte, e: Byte, f: Byte)
    requires IsWord(w) && [a, b, c, d, e, f] == Split(w)
    ensures Push(Push(Push(Push(Push(Push(0, a), b), c), d), e), f) == w
  {
    assert a == Split(w)[0] && b == Split(w)[1] && c == Split(w)[2];
    assert d == Split(w)[3] && e == Split(w)[4] && f == Split(w)[5];
  }

  lemma SplitJoins(word: bv32)
    requires IsWord(word)
    ensures Join(Split(word)) == word
  {
    hide *;
    var vs := Split(word);
    assert vs == [vs[0], vs[1], vs[2], vs[3], vs[4], vs[5]];
    JoinSix(vs[0], vs[1], vs[2], vs[3], vs[4], vs[5]);
    SixDigits(word, vs[0], vs[1], vs[2], vs[3], vs[4], vs[5]);
  }

  /** The created checksum is accepted, and no other six symbols are. */
  lemma ChecksumUnique(values: seq<Byte>, tail: seq<Byte>)
    requires |tail| == 6 && Symbols(tail)
    ensures Checksum(values + tail) == 1 <==> tail == CreateChecksum(values)
  {
    hide Run, Join, Add, Split, IsWord;
    var c := Run(1, values);
    RunConcat(1, values, tail);
    RunConcat(1, values, Zeros(6));
    RunReadsJoin(c, tail);
    var base := Checksum(values + Zeros(6));
    OneIsWord();
    RunBound(1, values + Zeros(6));
    AddBound(base, 1);
    var own := CreateChecksum(values);
    SplitJoins(Add(base, 1));
    AddMeets(base, Join(tail));
    if Join(tail) == Add(base, 1) {
      JoinInjective(tail, own);
    }
  }

  lemma AddMeets(base: bv32, j: bv32)
    ensures Add(base, j) == 1 <==> j == Add(base, 1)
  {
    hide *;
    AddCancel(base, base);
    AddAssociates(base, base, j);
    AddAssociates(base, base, 1);
    AddZero(j);
    AddZero(1);
  }

  // ---------- The loop of the source ----------

  /** `polymod`: the register is updated in place, symbol by symbol and tap by tap. */
  method ComputePolymod(values: seq<Byte>) returns (chk: bv32)
    ensures chk == Checksum(values)
  {
    hide Run, Add, Tap, Advance;
    chk := 1;
    RunEmpty(1);
    var k := 0;
    while k < |values|
      invariant 0 <= k <= |values|
      invariant chk == Run(1, values[..k])
    {
      ghost var before := chk;
      var top := chk >> 25;
      var v := values[k] as bv32;
      chk := Add(Low(chk), v);
      ghost var shifted := chk;
      AddZero(chk);
      FeedbackEmpty(top);
      var i := 0;
      while i < 5
        invariant 0 <= i <= 5
        invariant chk == Add(shifted, Feedback(top, i))
      {
        if (top >> i) & 1 == 1 {
          chk := Add(chk, GENERATOR[i]);
        }
        TapApplied(top, i);
        AddZero(Add(shifted, Feedback(top, i)));
        AddAssociates(shifted, Feedback(top, i), Tap(top, i));
        FeedbackUnfold(top, i + 1);
        i := i + 1;
      }
      AdvanceUnfold(before);
      AddMedial(Low(before), v, Feedback(top, 5), 0);
      AddZero(Feedback(top, 5));
      AddZero(v);
      StepUnfold(before, values[k]);
      RunSnoc(1, values[..k], values[k]);
      assert values[..k + 1] == values[..k] + [values[k]];
      k := k + 1;
    }
    assert values[..k] == values;
  }

  lemma TapApplied(top: bv32, i: nat)
    requires i < 5
    ensures Tap(top, i) == if (top >> i) & 1 == 1 then GENERATOR[i] else 0
  {}
}
