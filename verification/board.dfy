/** Board generation: the difficulty table, the pair draw from the MIDI
    pool, the Fisher-Yates shuffle and the tile records of one layer.

    `Math.random()` is not modelled: every call is replaced by a value the
    caller supplies, a real in [0, 1), consumed in the order the generator
    consumes random numbers. */
module Board {
  import opened Decimal

  datatype Difficulty = Easy | Medium | Hard

  /** A tile; its rendering position is not part of the model. */
  datatype Tile = Tile(
    id: string,
    layerIndex: int,
    midiNumber: int,
    isFlipped: bool,
    isMatched: bool,
    isActive: bool)

  datatype Layer = Layer(
    index: int,
    gridSize: nat,
    tiles: seq<Tile>,
    isActive: bool,
    isCleared: bool)

  /** MIDI numbers 1..PoolSize are available to every layer. */
  const PoolSize: nat := 128

  /** The grid sizes of the layers of a difficulty, outermost (played first)
      last. */
  function GridSizes(d: Difficulty): (sizes: seq<nat>)
    ensures 2 <= |sizes| <= 4
    ensures forall k :: 0 <= k < |sizes| ==> sizes[k] % 2 == 0 && 2 <= sizes[k] <= 6
    ensures forall k :: 0 <= k < |sizes| ==> (sizes[k] * sizes[k]) % 2 == 0
    ensures forall k :: 0 <= k < |sizes| ==> PairCount(sizes[k]) <= 18 <= PoolSize
    ensures forall k :: 0 <= k < |sizes| - 1 ==> sizes[k] >= sizes[k + 1]
  {
    match d
    case Easy => [4, 2]
    case Medium => [6, 4, 2]
    case Hard => [6, 6, 4, 2]
  }

  function PairCount(gridSize: nat): nat {
    gridSize * gridSize / 2
  }

  /** Number of random values the shuffle of `n` items consumes. */
  function ShuffleDraws(n: nat): nat {
    if n == 0 then 0 else n - 1
  }

  /** A grid the generator can fill: an even side, and no more pairs than
      the pool holds. */
  predicate ValidGridSize(gridSize: nat) {
    gridSize % 2 == 0 && PairCount(gridSize) <= PoolSize
  }

  /** Values `Math.random()` may return. */
  predicate IsRandom(rs: seq<real>) {
    forall i :: 0 <= i < |rs| ==> 0.0 <= rs[i] < 1.0
  }

  predicate Distinct(s: seq<int>) {
    forall i, j :: 0 <= i < j < |s| ==> s[i] != s[j]
  }

  function Values(s: seq<int>): set<int> {
    set x | x in s
  }

  /** `Math.floor(r * n)`: a uniform index below `n` when r is uniform. */
  function RandomIndex(r: real, n: nat): (k: nat)
    requires 0.0 <= r < 1.0 && 0 < n
    ensures k < n
  {
    var x := r * n as real;
    assert x < n as real by {
      var d := 1.0 - r;
      assert d > 0.0;
      assert n as real - x == d * n as real;
      assert d * n as real > 0.0;
    }
    x.Floor
  }

  /** The MIDI pool [1, 2, ..., 128]. */
  function Pool(): (p: seq<int>)
    ensures |p| == PoolSize && Distinct(p)
    ensures forall x :: x in p ==> 1 <= x <= PoolSize
  {
    seq(PoolSize, i => i + 1)
  }

  /** The pool with the element at `k` spliced out. */
  function RemoveAt(s: seq<int>, k: nat): (r: seq<int>)
    requires k < |s|
    ensures |r| == |s| - 1
    ensures forall x :: x in r ==> x in s
    ensures Distinct(s) ==> Distinct(r) && s[k] !in r
  {
    var r := s[..k] + s[k + 1..];
    assert forall i :: 0 <= i < |r| ==> r[i] == if i < k then s[i] else s[i + 1];
    r
  }

  /** The draw loop: each random value splices one MIDI number out of the
      remaining pool and pushes it twice. */
  function DrawPairs(avail: seq<int>, draws: seq<real>): (r: seq<int>)
    requires IsRandom(draws) && |draws| <= |avail|
    ensures |r| == 2 * |draws|
    ensures forall x :: x in r ==> x in avail
    decreases |draws|
  {
    if |draws| == 0 then []
    else
      var k := RandomIndex(draws[0], |avail|);
      [avail[k], avail[k]] + DrawPairs(RemoveAt(avail, k), draws[1..])
  }

  /** Every number the draw yields occurs exactly twice, and there are as
      many different numbers as draws: the draw is without replacement. */
  lemma {:induction false} DrawPairsArePairs(avail: seq<int>, draws: seq<real>)
    requires IsRandom(draws) && |draws| <= |avail| && Distinct(avail)
    ensures forall m :: m in multiset(DrawPairs(avail, draws)) ==> multiset(DrawPairs(avail, draws))[m] == 2
    ensures |Values(DrawPairs(avail, draws))| == |draws|
    decreases |draws|
  {
    if |draws| > 0 {
      var k := RandomIndex(draws[0], |avail|);
      var m := avail[k];
      var rest := RemoveAt(avail, k);
      var tail := DrawPairs(rest, draws[1..]);
      DrawPairsArePairs(rest, draws[1..]);
      var r := DrawPairs(avail, draws);
      assert r == [m, m] + tail;
      assert m !in tail;
      assert multiset(r) == multiset{m, m} + multiset(tail);
      assert Values(r) == {m} + Values(tail);
    }
  }

  function Swap(s: seq<int>, i: nat, j: nat): (r: seq<int>)
    requires i < |s| && j < |s|
    ensures multiset(r) == multiset(s) && |r| == |s|
    ensures r[i] == s[j] && r[j] == s[i]
    ensures forall k :: 0 <= k < |s| && k != i && k != j ==> r[k] == s[k]
  {
    s[i := s[j]][j := s[i]]
  }

  /** The Fisher-Yates loop from index `i` down to 1, swapping index i with
      `floor(random * (i + 1))`. */
  function ShuffleDown(s: seq<int>, i: nat, swaps: seq<real>): (r: seq<int>)
    requires i < |s| && |swaps| == i && IsRandom(swaps)
    ensures multiset(r) == multiset(s) && |r| == |s|
    decreases i
  {
    if i == 0 then s
    else ShuffleDown(Swap(s, i, RandomIndex(swaps[0], i + 1)), i - 1, swaps[1..])
  }

  /** The shuffle is a permutation of its input. */
  function Shuffle(s: seq<int>, swaps: seq<real>): (r: seq<int>)
    requires |swaps| == ShuffleDraws(|s|) && IsRandom(swaps)
    ensures multiset(r) == multiset(s) && |r| == |s|
  {
    if |s| == 0 then s else ShuffleDown(s, |s| - 1, swaps)
  }

  /** The id `layer{layerIndex}-tile{k}`. */
  function TileId(layerIndex: nat, k: nat): string {
    "layer" + Digits(layerIndex) + "-tile" + Digits(k)
  }

  /** Different positions get different ids, across all layers. */
  lemma TileIdInjective(i: nat, k: nat, i': nat, k': nat)
    requires TileId(i, k) == TileId(i', k')
    ensures i == i' && k == k'
  {
    var s := TileId(i, k);
    var di, di' := Digits(i), Digits(i');
    if |di| < |di'| {
      SeparatorAfterNumeral(di, Digits(k));
      assert false;
    } else if |di'| < |di| {
      SeparatorAfterNumeral(di', Digits(k'));
      assert false;
    } else {
      assert di == s[5..5 + |di|] == di';
      DigitsInjective(i, i');
      assert Digits(k) == s[10 + |di|..] == Digits(k');
      DigitsInjective(k, k');
    }
  }

  lemma SeparatorAfterNumeral(a: string, t: string)
    ensures ("layer" + a + "-tile" + t)[5 + |a|] == '-'
  {
  }

  function Midis(ts: seq<Tile>): (ms: seq<int>)
    ensures |ms| == |ts|
  {
    seq(|ts|, k requires 0 <= k < |ts| => ts[k].midiNumber)
  }

  /** Every number of `xs` occurs exactly twice, and there are `pairs`
      different ones. */
  ghost predicate Paired(xs: seq<int>, pairs: nat) {
    && (forall m :: m in multiset(xs) ==> multiset(xs)[m] == 2)
    && |Values(xs)| == pairs
  }

  /** The draw followed by the shuffle: the MIDI numbers of one layer in
      row-major order. */
  function Deal(gridSize: nat, draws: seq<real>, swaps: seq<real>): (selected: seq<int>)
    requires ValidGridSize(gridSize)
    requires IsRandom(draws) && |draws| == PairCount(gridSize)
    requires IsRandom(swaps) && |swaps| == ShuffleDraws(gridSize * gridSize)
    ensures |selected| == gridSize * gridSize
    ensures InPool(selected)
    ensures Paired(selected, PairCount(gridSize))
  {
    EvenSquare(gridSize);
    var pool := Pool();
    var drawn := DrawPairs(pool, draws);
    DrawPairsArePairs(pool, draws);
    var selected := Shuffle(drawn, swaps);
    SameValues(drawn, selected);
    InPoolPermutation(drawn, selected);
    selected
  }

  lemma EvenSquare(g: nat)
    requires g % 2 == 0
    ensures 2 * PairCount(g) == g * g
  {
    var h := g / 2;
    assert g * g == 2 * (2 * h * h);
  }

  /** Every number is a valid MIDI number of the pool. */
  predicate InPool(s: seq<int>) {
    forall i :: 0 <= i < |s| ==> 1 <= s[i] <= PoolSize
  }

  lemma InPoolPermutation(a: seq<int>, b: seq<int>)
    requires forall x :: x in a <==> x in b
    requires forall x :: x in a ==> 1 <= x <= PoolSize
    ensures InPool(b)
  {
    forall i | 0 <= i < |b| ensures 1 <= b[i] <= PoolSize {
      assert b[i] in b;
    }
  }

  lemma SameValues(a: seq<int>, b: seq<int>)
    requires multiset(a) == multiset(b)
    ensures Values(a) == Values(b)
    ensures forall x :: x in a <==> x in b
  {
    forall x ensures x in a <==> x in b {
      assert x in a <==> x in multiset(a);
      assert x in b <==> x in multiset(b);
    }
  }

  /** The tiles of layer `layerIndex`, in row-major order, none flipped,
      matched or active. */
  function GenerateTilesForLayer(layerIndex: nat, gridSize: nat, draws: seq<real>, swaps: seq<real>): (tiles: seq<Tile>)
    requires ValidGridSize(gridSize)
    requires IsRandom(draws) && |draws| == PairCount(gridSize)
    requires IsRandom(swaps) && |swaps| == ShuffleDraws(gridSize * gridSize)
    ensures |tiles| == gridSize * gridSize
    ensures forall k :: 0 <= k < |tiles| ==>
      && tiles[k].id == TileId(layerIndex, k)
      && tiles[k].layerIndex == layerIndex
      && !tiles[k].isFlipped && !tiles[k].isMatched && !tiles[k].isActive
    ensures forall k :: 0 <= k < |tiles| ==> 1 <= tiles[k].midiNumber <= PoolSize
    ensures ExactPairs(tiles, gridSize)
  {
    var selected := Deal(gridSize, draws, swaps);
    var tiles := seq(|selected|, k requires 0 <= k < |selected| =>
      Tile(TileId(layerIndex, k), layerIndex, selected[k], false, false, false));
    assert Midis(tiles) == selected;
    tiles
  }

  /** Every MIDI number of `tiles` occurs exactly twice, and there are
      gridSize^2 / 2 different ones. */
  ghost predicate ExactPairs(tiles: seq<Tile>, gridSize: nat) {
    Paired(Midis(tiles), PairCount(gridSize))
  }

  /** The random values one layer consumes: its draw, then its shuffle. */
  datatype LayerDraws = LayerDraws(draws: seq<real>, swaps: seq<real>)

  predicate DrawsFit(gridSize: nat, r: LayerDraws) {
    && IsRandom(r.draws) && |r.draws| == PairCount(gridSize)
    && IsRandom(r.swaps) && |r.swaps| == ShuffleDraws(gridSize * gridSize)
  }

  predicate RandomFor(sizes: seq<nat>, rand: seq<LayerDraws>) {
    |rand| == |sizes| && forall k :: 0 <= k < |sizes| ==> DrawsFit(sizes[k], rand[k])
  }

  /** The layers `initGame` builds before activating the outermost one. */
  function GenerateLayers(d: Difficulty, rand: seq<LayerDraws>): (ls: seq<Layer>)
    requires RandomFor(GridSizes(d), rand)
    ensures |ls| == |GridSizes(d)|
    ensures forall k :: 0 <= k < |ls| ==>
      && ls[k].index == k
      && ls[k].gridSize == GridSizes(d)[k]
      && !ls[k].isActive && !ls[k].isCleared
      && |ls[k].tiles| == ls[k].gridSize * ls[k].gridSize
    ensures forall k :: 0 <= k < |ls| ==> ExactPairs(ls[k].tiles, ls[k].gridSize)
  {
    var sizes := GridSizes(d);
    seq(|sizes|, k requires 0 <= k < |sizes| =>
      Layer(k, sizes[k], GenerateTilesForLayer(k, sizes[k], rand[k].draws, rand[k].swaps), false, false))
  }
}
