/** Stages of the iterative network: after stage s every aligned block of 2^s cells is a finished network. */
module Stages {
  import opened Complex
  import opened Dft
  import opened Ints

  /** The 2^s cells from offset i are the finished network of the original cells there. */
  ghost predicate SegmentDone(now: seq<Complex>, orig: seq<Complex>, root: Complex, i: nat, s: nat) {
    && i + Pow2(s) <= |now| == |orig|
    && now[i..i + Pow2(s)] == Network(orig[i..i + Pow2(s)], root, s)
  }

  ghost predicate BlockDone(now: seq<Complex>, orig: seq<Complex>, root: Complex, b: nat, s: nat) {
    SegmentDone(now, orig, root, Times(b, Pow2(s)), s)
  }

  /** The first `done` blocks of stage s are finished. */
  ghost predicate BlocksDone(now: seq<Complex>, orig: seq<Complex>, root: Complex, done: nat, s: nat) {
    forall b: nat :: b < done ==> BlockDone(now, orig, root, b, s)
  }

  lemma BlockFits(b: nat, blocks: nat, size: nat)
    requires b < blocks
    ensures Times(b, size) + size <= Times(blocks, size)
  {
    ProductGrows(blocks - b, size);
    assert (blocks - b) * size == blocks * size - b * size;
  }

  /** Block b of 2h cells is made of blocks 2b and 2b + 1 of h cells. */
  lemma BlockHalves(b: nat, h: nat)
    ensures Times(2 * b, h) == Times(b, 2 * h)
    ensures Times(2 * b + 1, h) == Times(b, 2 * h) + h
  {}

  lemma StageZero(a: seq<Complex>, root: Complex)
    ensures BlocksDone(a, a, root, |a|, 0)
  {}

  /** Sizes in stage s: `blocks` blocks of 2h cells, each read with every blocks-th twiddle. */
  lemma StageSizes(n: nat, levels: nat, s: nat, h: nat, blocks: nat)
    requires s < levels && n == Pow2(levels) && h == Pow2(s) && blocks == Pow2(levels - s - 1)
    ensures n == Times(blocks, 2 * h) && n / (2 * h) == blocks
    ensures Times(blocks, h) == Times(h, blocks) == n / 2
    ensures Pow2(levels - s) == 2 * blocks
  {
    Pow2Add(levels - s - 1, s + 1);
    DivUnique(n, 2 * h, blocks, 0);
    assert blocks * (2 * h) == 2 * (blocks * h);
  }

  lemma NoBlocksYet(now: seq<Complex>, orig: seq<Complex>, root: Complex, s: nat)
    ensures BlocksDone(now, orig, root, 0, s)
  {}

  lemma LastStage(now: seq<Complex>, orig: seq<Complex>, root: Complex, s: nat)
    requires |now| == |orig| == Pow2(s) && BlocksDone(now, orig, root, 1, s)
    ensures now == Network(orig, root, s)
  {
    assert BlockDone(now, orig, root, 0, s);
    assert now[0..Pow2(s)] == now && orig[0..Pow2(s)] == orig;
  }

  /**
   The inner loop after `done` butterflies: those cells of the two halves from offset i are combined,
   every other cell of the buffer is as before.
   */
  ghost predicate PartlyCombined(now: seq<Complex>, before: seq<Complex>, i: nat, h: nat, root: Complex, done: nat) {
    && done <= h && i + 2 * h <= |now| == |before|
    && (forall j: nat :: j < done ==> now[i + j] == Add(before[i + j], Mul(before[i + j + h], Pow(root, j))))
    && (forall j: nat :: j < done ==> now[i + j + h] == Sub(before[i + j], Mul(before[i + j + h], Pow(root, j))))
    && (forall p: nat :: p < |now| && !(i <= p < i + done) && !(i + h <= p < i + h + done) ==> now[p] == before[p])
  }

  /** All h butterflies of the segment are done. */
  ghost predicate Combined(now: seq<Complex>, before: seq<Complex>, i: nat, h: nat, root: Complex) {
    && i + 2 * h <= |now| == |before|
    && (forall j: nat :: j < h ==> now[i + j] == Add(before[i + j], Mul(before[i + j + h], Pow(root, j))))
    && (forall j: nat :: j < h ==> now[i + j + h] == Sub(before[i + j], Mul(before[i + j + h], Pow(root, j))))
  }

  lemma AllCombined(now: seq<Complex>, before: seq<Complex>, i: nat, h: nat, root: Complex)
    requires PartlyCombined(now, before, i, h, root, h)
    ensures Combined(now, before, i, h, root)
    ensures forall p: nat :: p < i || i + 2 * h <= p < |now| ==> now[p] == before[p]
  {
    hide Mul, Add, Sub, Pow;
  }

  lemma NothingCombined(before: seq<Complex>, i: nat, h: nat, root: Complex)
    requires i + 2 * h <= |before|
    ensures PartlyCombined(before, before, i, h, root, 0)
  {}

  /** One butterfly. */
  lemma CombineOne(next: seq<Complex>, now: seq<Complex>, before: seq<Complex>, i: nat, h: nat, root: Complex, j: nat)
    requires j < h && PartlyCombined(now, before, i, h, root, j)
    requires var t := Mul(now[i + j + h], Pow(root, j));
      next == now[i + j := Add(now[i + j], t)][i + j + h := Sub(now[i + j], t)]
    ensures PartlyCombined(next, before, i, h, root, j + 1)
  {
    hide Mul, Add, Sub, Pow;
    assert now[i + j] == before[i + j] && now[i + j + h] == before[i + j + h];
  }

  lemma CombinedFits(now: seq<Complex>, before: seq<Complex>, i: nat, h: nat, root: Complex)
    requires Combined(now, before, i, h, root)
    ensures i + 2 * h <= |now| == |before|
  {}

  lemma CombinedAt(now: seq<Complex>, before: seq<Complex>, i: nat, h: nat, root: Complex, j: nat)
    requires Combined(now, before, i, h, root) && j < h
    ensures i + 2 * h <= |now| == |before|
    ensures now[i + j] == Add(before[i + j], Mul(before[i + j + h], Pow(root, j)))
    ensures now[i + j + h] == Sub(before[i + j], Mul(before[i + j + h], Pow(root, j)))
  {
    hide Mul, Add, Sub, Pow;
  }

  lemma ButterfliesAt(e: seq<Complex>, o: seq<Complex>, root: Complex, j: nat)
    requires |e| == |o| && j < |e|
    ensures |Butterflies(e, o, root)| == 2 * |e|
    ensures Butterflies(e, o, root)[j] == Add(e[j], Mul(o[j], Pow(root, j)))
    ensures Butterflies(e, o, root)[|e| + j] == Sub(e[j], Mul(o[j], Pow(root, j)))
  {
    hide Mul, Add, Sub, Pow;
  }

  lemma CombinedIsButterflies(now: seq<Complex>, before: seq<Complex>, i: nat, h: nat, root: Complex)
    requires Combined(now, before, i, h, root)
    ensures now[i..i + 2 * h] == Butterflies(before[i..i + h], before[i + h..i + 2 * h], root)
  {
    hide Mul, Add, Sub, Pow, Combined, Butterflies;
    CombinedFits(now, before, i, h, root);
    var e, o := before[i..i + h], before[i + h..i + 2 * h];
    forall k: nat | k < 2 * h
      ensures now[i..i + 2 * h][k] == Butterflies(e, o, root)[k]
    {
      var j := if k < h then k else k - h;
      CombinedAt(now, before, i, h, root, j);
      ButterfliesAt(e, o, root, j);
    }
  }

  lemma NetworkUnfold(a: seq<Complex>, w: Complex, s: nat)
    requires |a| == Pow2(s + 1)
    ensures Network(a, w, s + 1)
         == Butterflies(Network(a[..Pow2(s)], Mul(w, w), s), Network(a[Pow2(s)..], Mul(w, w), s), w)
  {
    hide Mul, Butterflies;
  }

  /** Combining two finished neighbours finishes the segment they form. */
  lemma SegmentJoin(now: seq<Complex>, before: seq<Complex>, orig: seq<Complex>, root: Complex, i: nat, s: nat)
    requires SegmentDone(before, orig, Mul(root, root), i, s)
    requires SegmentDone(before, orig, Mul(root, root), i + Pow2(s), s)
    requires Combined(now, before, i, Pow2(s), root)
    ensures SegmentDone(now, orig, root, i, s + 1)
  {
    hide Mul, Network, Butterflies, Combined;
    assert i + 2 * Pow2(s) <= |now| == |before| by { CombinedFits(now, before, i, Pow2(s), root); }
    var h := Pow2(s);
    assert Pow2(s + 1) == 2 * h;
    CombinedIsButterflies(now, before, i, h, root);
    var src := orig[i..i + 2 * h];
    assert src[..h] == orig[i..i + h] && src[h..] == orig[i + h..i + 2 * h];
    NetworkUnfold(src, root, s);
  }

  lemma SegmentFramed(now: seq<Complex>, before: seq<Complex>, orig: seq<Complex>, root: Complex, i: nat, s: nat)
    requires SegmentDone(before, orig, root, i, s) && |now| == |before|
    requires now[i..i + Pow2(s)] == before[i..i + Pow2(s)]
    ensures SegmentDone(now, orig, root, i, s)
  {
    hide Network;
  }

  /** Finished blocks stay finished while later cells change. */
  lemma BlocksFramed(now: seq<Complex>, before: seq<Complex>, orig: seq<Complex>, root: Complex, done: nat, s: nat)
    requires |now| == |before| == |orig| && Times(done, Pow2(s)) <= |now|
    requires forall p: nat :: p < Times(done, Pow2(s)) ==> now[p] == before[p]
    requires BlocksDone(before, orig, root, done, s)
    ensures BlocksDone(now, orig, root, done, s)
  {
    hide Network, SegmentDone, Times;
    forall b: nat | b < done
      ensures BlockDone(now, orig, root, b, s)
    {
      BlockFits(b, done, Pow2(s));
      assert BlockDone(before, orig, root, b, s);
      SegmentFramed(now, before, orig, root, Times(b, Pow2(s)), s);
    }
  }

  /** One more block of stage s + 1, at offset i, made of two blocks of stage s. */
  lemma BlockJoin(now: seq<Complex>, before: seq<Complex>, start: seq<Complex>, orig: seq<Complex>, root: Complex, b: nat, i: nat, s: nat, blocks: nat)
    requires |now| == |before| == |start| == |orig| == Times(blocks, Pow2(s + 1)) && b < blocks
    requires i == Times(b, Pow2(s + 1))
    requires BlocksDone(start, orig, Mul(root, root), 2 * blocks, s)
    requires BlocksDone(before, orig, root, b, s + 1)
    requires forall p: nat :: i <= p < |orig| ==> before[p] == start[p]
    requires Combined(now, before, i, Pow2(s), root)
    requires forall p: nat :: p < i ==> now[p] == before[p]
    ensures BlocksDone(now, orig, root, b + 1, s + 1)
  {
    hide Network, SegmentDone, Combined, Mul, Times;
    BlockFits(b, blocks, Pow2(s + 1));
    var h := Pow2(s);
    BlockHalves(b, h);
    assert BlockDone(start, orig, Mul(root, root), 2 * b, s);
    assert BlockDone(start, orig, Mul(root, root), 2 * b + 1, s);
    SegmentFramed(before, start, orig, Mul(root, root), i, s);
    SegmentFramed(before, start, orig, Mul(root, root), i + h, s);
    SegmentJoin(now, before, orig, root, i, s);
    BlocksFramed(now, before, orig, root, b, s + 1);
    assert BlockDone(now, orig, root, b, s + 1);
  }
}
