/** The Go transform: a precomputed twiddle table and three nested loops over one buffer. */
module GoFft {
  import opened Complex
  import opened Dft
  import opened Stages
  import opened Ints

  /** twiddle[i] is the i-th power of the base w, for the half turn the loops read. */
  ghost predicate TwiddleTable(twiddle: seq<Complex>, n: nat, w: Complex) {
    && |twiddle| == n / 2
    && forall i: nat :: i < n / 2 ==> twiddle[i] == Pow(w, i)
  }

  lemma StagesRunOut(w: Complex, s: nat, levels: nat)
    requires s <= levels && Pow2(s + 1) > Pow2(levels)
    ensures s == levels && Pow2(levels - s) == 1 && Pow(w, 1) == w
  {
    hide Mul;
    assert Pow(w, 1) == Mul(Pow(w, 0), w);
    MulUnits(w);
    if s < levels {
      Pow2Add(levels - s - 1, s + 1);
      ProductGrows(Pow2(levels - s - 1), Pow2(s + 1));
    }
  }

  lemma StageRoot(w: Complex, blocks: nat)
    ensures Mul(Pow(w, blocks), Pow(w, blocks)) == Pow(w, 2 * blocks)
  {
    hide Mul, Pow;
    PowAdd(w, blocks, blocks);
  }

  lemma TwiddleIndex(w: Complex, step: nat, h: nat, j: nat)
    requires j < h
    ensures Times(j, step) + step <= Times(h, step)
    ensures Pow(w, Times(j, step)) == Pow(Pow(w, step), j)
  {
    hide Mul, Pow;
    BlockFits(j, h, step);
    TimesIs(j, step);
    PowMul(w, step, j);
  }

  /** The inner loop: the butterflies of the block at i, reading every twiddleStep-th twiddle. */
  method CombineBlock(data: array<Complex>, n: nat, twiddle: seq<Complex>, i: nat, halfSize: nat, twiddleStep: nat, ghost w: Complex)
    returns (ghost butterflies: nat)
    requires n <= data.Length && i + 2 * halfSize <= n
    requires TwiddleTable(twiddle, n, w) && Times(halfSize, twiddleStep) == n / 2 && twiddleStep > 0
    modifies data
    ensures Combined(data[..n], old(data[..n]), i, halfSize, Pow(w, twiddleStep))
    ensures forall p: nat :: p < i || i + 2 * halfSize <= p < n ==> data[p] == old(data[p])
    ensures data[n..] == old(data[n..])
    ensures butterflies == halfSize
  {
    hide Mul, Add, Sub, Pow, PartlyCombined, Combined, Times;
    ghost var before := data[..n];
    ghost var root := Pow(w, twiddleStep);
    NothingCombined(before, i, halfSize, root);
    butterflies := 0;
    TimesIs(0, twiddleStep);
    var k := 0;
    for j := 0 to halfSize
      invariant k == Times(j, twiddleStep)
      invariant PartlyCombined(data[..n], before, i, halfSize, root, j)
      invariant data[n..] == old(data[n..])
      invariant butterflies == j
    {
      ghost var now := data[..n];
      TwiddleIndex(w, twiddleStep, halfSize, j);
      var even := data[i + j];
      var odd := Mul(data[i + j + halfSize], twiddle[k]);
      data[i + j] := Add(even, odd);
      data[i + j + halfSize] := Sub(even, odd);
      k := k + twiddleStep;
      butterflies := butterflies + 1;
      TimesNext(j, twiddleStep);
      CombineOne(data[..n], now, before, i, halfSize, root, j);
    }
    AllCombined(data[..n], before, i, halfSize, root);
  }

  /**
   Runs the network in place on the first n cells of data and leaves the rest alone.
   The ghost result counts the butterflies.
   */
  method FftInPlace(data: array<Complex>, n: nat, twiddle: seq<Complex>, ghost w: Complex, ghost levels: nat)
    returns (ghost butterflies: nat)
    requires n == Pow2(levels) <= data.Length && TwiddleTable(twiddle, n, w)
    modifies data
    ensures data[..n] == Network(old(data[..n]), w, levels)
    ensures data[n..] == old(data[n..])
    ensures butterflies == n / 2 * levels
  {
    hide Mul, Add, Sub, Pow, Network, PartlyCombined, Combined, BlocksDone, Times;
    ghost var orig := data[..n];
    ghost var s := 0;
    butterflies := 0;
    StageZero(orig, Pow(w, n));
    var size := 2;
    while size <= n
      invariant s <= levels && size == Pow2(s + 1)
      invariant BlocksDone(data[..n], orig, Pow(w, Pow2(levels - s)), Pow2(levels - s), s)
      invariant data[n..] == old(data[n..])
      invariant butterflies == Times(s, n / 2)
      decreases n - size
    {
      assert s < levels;
      var halfSize := size / 2;
      var twiddleStep := n / size;
      ghost var blocks := Pow2(levels - s - 1);
      ghost var root := Pow(w, blocks);
      StageSizes(n, levels, s, halfSize, blocks);
      StageRoot(w, blocks);
      ghost var stageBase := butterflies;
      ghost var start := data[..n];
      ghost var b := 0;
      NoBlocksYet(start, orig, root, s + 1);
      var i := 0;
      while i < n
        invariant b <= blocks && i == Times(b, size)
        invariant BlocksDone(data[..n], orig, root, b, s + 1)
        invariant forall p: nat :: i <= p < n ==> data[p] == start[p]
        invariant data[n..] == old(data[n..])
        invariant butterflies == stageBase + Times(b, halfSize)
        decreases n - i
      {
        BlockFits(b, blocks, size);
        ghost var before := data[..n];
        ghost var done := CombineBlock(data, n, twiddle, i, halfSize, twiddleStep, w);
        butterflies := butterflies + done;
        BlockJoin(data[..n], before, start, orig, root, b, i, s, blocks);
        TimesNext(b, halfSize);
        TimesNext(b, size);
        b := b + 1;
        i := i + size;
      }
      if b < blocks { BlockFits(b, blocks, size); }
      TimesNext(s, n / 2);
      s := s + 1;
      size := size * 2;
    }
    StagesRunOut(w, s, levels);
    TimesIs(levels, n / 2);
    LastStage(data[..n], orig, w, levels);
  }
}
