/** Whole rounds of play: two flips, the evaluation 800 ms later and the
    continuation after it, run one after the other from an idle session. */
module Rounds {
  import opened Optional
  import opened Board
  import opened Engine
  import opened Protocol

  /** With unique ids, looking a tile up by its id finds that tile. */
  lemma FindTileByUniqueId(ls: seq<Layer>, k: nat, j: nat)
    requires UniqueIds(ls) && k < |ls| && j < |ls[k].tiles|
    ensures FindTile(ls, Some(ls[k].tiles[j].id)) == Some(ls[k].tiles[j])
  {
    var t := ls[k].tiles[j];
    var r := FindTile(ls, Some(t.id));
    assert HasTile(ls, t.id);
    var k', j' :| 0 <= k' < |ls| && 0 <= j' < |ls[k'].tiles| && ls[k'].tiles[j'] == r.value;
  }

  /** Changing tile flags keeps ids unique. */
  lemma UniqueIdsKept(a: seq<Layer>, b: seq<Layer>)
    requires UniqueIds(a) && SameLayout(a, b)
    requires forall k, j :: 0 <= k < |a| && 0 <= j < |a[k].tiles| ==> b[k].tiles[j].id == a[k].tiles[j].id
    ensures UniqueIds(b)
  {
  }

  /** The idle state a round starts from: nothing scheduled, nothing
      pending, ids unique. */
  ghost predicate Idle(s: Session) {
    && Inv(World(s, multiset{}))
    && |s.flippedTiles| == 0
    && UniqueIds(s.layers)
  }

  /** Two different active, unmatched tiles of layer k. */
  ghost predicate Playable(s: Session, k: nat, j1: nat, j2: nat) {
    && k < |s.layers| && j1 < |s.layers[k].tiles| && j2 < |s.layers[k].tiles| && j1 != j2
    && s.layers[k].tiles[j1].isActive && !s.layers[k].tiles[j1].isMatched
    && s.layers[k].tiles[j2].isActive && !s.layers[k].tiles[j2].isMatched
  }

  /** The world after the two flips of tiles (k, j1) and (k, j2). */
  function TwoFlips(s: Session, k: nat, j1: nat, j2: nat): World
    requires Playable(s, k, j1, j2)
  {
    var w1 := Press(World(s, multiset{}), s.layers[k].tiles[j1].id);
    Press(w1, s.layers[k].tiles[j2].id)
  }

  /** An accepted flip of tile (k, j): the tile turns face up, its id is
      appended, one move is counted, and nothing but flip flags changes on
      the board. */
  lemma FlipOne(w: World, k: nat, j: nat)
    requires Inv(w) && UniqueIds(w.session.layers)
    requires k < |w.session.layers| && j < |w.session.layers[k].tiles|
    requires w.session.layers[k].tiles[j].isActive && !w.session.layers[k].tiles[j].isMatched
    requires !FlipIgnored(w.session, w.session.layers[k].tiles[j].id)
    ensures var s, a := w.session, w.session.layers[k].tiles[j];
      var w' := Press(w, a.id);
      && w'.session.flippedTiles == s.flippedTiles + [a.id]
      && w'.session.moves == s.moves + 1
      && w'.session.isBusy == (|s.flippedTiles| == 1)
      && w'.pending == (if |s.flippedTiles| == 1 then w.pending + multiset{CheckMatchDue} else w.pending)
      && Inv(w') && UniqueIds(w'.session.layers)
      && SameLayout(s.layers, w'.session.layers)
      && w'.session.layers[k].tiles[j] == a.(isFlipped := true)
      && forall k', j' :: 0 <= k' < |s.layers| && 0 <= j' < |s.layers[k'].tiles| ==>
           var t0, t1 := s.layers[k'].tiles[j'], w'.session.layers[k'].tiles[j'];
           && t1 == t0.(isFlipped := t1.isFlipped)
           && (t0.isFlipped ==> t1.isFlipped)
  {
    var a := w.session.layers[k].tiles[j];
    var w' := Press(w, a.id);
    FlipPreservesInv(w, a.id);
    UniqueIdsKept(w.session.layers, w'.session.layers);
  }

  /** After two accepted flips both tiles are face up, two moves are
      counted, the lock is held and the evaluation is scheduled. */
  lemma TwoFlipsLock(s: Session, k: nat, j1: nat, j2: nat)
    requires Idle(s) && Playable(s, k, j1, j2)
    ensures var w := TwoFlips(s, k, j1, j2);
      && w.session.flippedTiles == [s.layers[k].tiles[j1].id, s.layers[k].tiles[j2].id]
      && w.session.moves == s.moves + 2
      && w.session.isBusy
      && w.pending == multiset{CheckMatchDue}
      && Inv(w) && UniqueIds(w.session.layers)
      && SameLayout(s.layers, w.session.layers)
      && w.session.layers[k].tiles[j1] == s.layers[k].tiles[j1].(isFlipped := true)
      && w.session.layers[k].tiles[j2] == s.layers[k].tiles[j2].(isFlipped := true)
      && forall k', j :: 0 <= k' < |s.layers| && 0 <= j < |s.layers[k'].tiles| ==>
           w.session.layers[k'].tiles[j] == s.layers[k'].tiles[j].(isFlipped := w.session.layers[k'].tiles[j].isFlipped)
  {
    var a, b := s.layers[k].tiles[j1], s.layers[k].tiles[j2];
    var w0 := World(s, multiset{});
    FlipOne(w0, k, j1);
    var w1 := Press(w0, a.id);
    assert a.id != b.id;
    assert w1.session.layers[k].tiles[j2] == b;
    FlipOne(w1, k, j2);
  }

  /** The world two accepted flips leave: tiles (k, j1) and (k, j2) are
      pending and only their evaluation is scheduled. */
  ghost predicate PairPending(w: World, k: nat, j1: nat, j2: nat) {
    var s := w.session;
    && k < |s.layers| && j1 < |s.layers[k].tiles| && j2 < |s.layers[k].tiles| && j1 != j2
    && s.flippedTiles == [s.layers[k].tiles[j1].id, s.layers[k].tiles[j2].id]
    && UniqueIds(s.layers)
    && w.pending == multiset{CheckMatchDue}
    && Inv(w)
  }

  /** The evaluation of a pending pair with equal MIDI numbers marks both
      tiles matched, keeps them face up, leaves every other tile alone, and
      schedules the 500 ms continuation. */
  lemma EvaluateMatchingPair(w: World, catalog: seq<Note>, k: nat, j1: nat, j2: nat)
    requires PairPending(w, k, j1, j2)
    requires w.session.layers[k].tiles[j1].midiNumber == w.session.layers[k].tiles[j2].midiNumber
    ensures var s, w' := w.session, Run(w, CheckMatchDue, catalog);
      && w'.pending == multiset{AfterMatchDue}
      && Inv(w')
      && k < |w'.session.layers| && j1 < |w'.session.layers[k].tiles| && j2 < |w'.session.layers[k].tiles|
      && w'.session.layers[k].tiles[j1] == s.layers[k].tiles[j1].(isMatched := true)
      && w'.session.layers[k].tiles[j2] == s.layers[k].tiles[j2].(isMatched := true)
      && w'.session.flippedTiles == [] && w'.session.moves == s.moves
      && |s.discoveredNotes| <= |w'.session.discoveredNotes| <= |s.discoveredNotes| + 1
      && SameLayout(s.layers, w'.session.layers)
      && forall k', j' :: 0 <= k' < |s.layers| && 0 <= j' < |s.layers[k'].tiles| && !(k' == k && (j' == j1 || j' == j2)) ==>
           w'.session.layers[k'].tiles[j'] == s.layers[k'].tiles[j']
  {
    var s := w.session;
    var m := s.layers[k].tiles[j1].midiNumber;
    FindTileByUniqueId(s.layers, k, j1);
    FindTileByUniqueId(s.layers, k, j2);
    assert HasTile(s.layers, s.flippedTiles[0]) && HasTile(s.layers, s.flippedTiles[1]);
    assert PairMatches(s);
    assert Run(w, CheckMatchDue, catalog) == World(SettleMatch(s, catalog, m), multiset{AfterMatchDue});
    SettleMarksPair(s, catalog, m, k, j1, j2);
    CheckMatchPreservesInv(w, catalog);
  }

  /** Settling a pending pair of tiles with unique ids marks exactly those
      two tiles matched. */
  lemma SettleMarksPair(s: Session, catalog: seq<Note>, m: int, k: nat, j1: nat, j2: nat)
    requires k < |s.layers| && j1 < |s.layers[k].tiles| && j2 < |s.layers[k].tiles|
    requires s.flippedTiles == [s.layers[k].tiles[j1].id, s.layers[k].tiles[j2].id]
    requires UniqueIds(s.layers)
    ensures var r := SettleMatch(s, catalog, m);
      && SameLayout(s.layers, r.layers)
      && r.layers[k].tiles[j1] == s.layers[k].tiles[j1].(isMatched := true)
      && r.layers[k].tiles[j2] == s.layers[k].tiles[j2].(isMatched := true)
      && forall k', j' :: 0 <= k' < |s.layers| && 0 <= j' < |s.layers[k'].tiles| && !(k' == k && (j' == j1 || j' == j2)) ==>
           r.layers[k'].tiles[j'] == s.layers[k'].tiles[j']
  {
    var r := SettleMatch(s, catalog, m);
    forall k', j' | 0 <= k' < |s.layers| && 0 <= j' < |s.layers[k'].tiles| && !(k' == k && (j' == j1 || j' == j2))
      ensures r.layers[k'].tiles[j'] == s.layers[k'].tiles[j']
    {
      var t0 := s.layers[k'].tiles[j'];
      assert t0.id != s.flippedTiles[0] && t0.id != s.flippedTiles[1];
    }
  }

  /** The evaluation of a pending pair with different MIDI numbers changes
      nothing yet and schedules the 600 ms continuation. */
  lemma EvaluateMismatchingPair(w: World, catalog: seq<Note>, k: nat, j1: nat, j2: nat)
    requires PairPending(w, k, j1, j2)
    requires w.session.layers[k].tiles[j1].midiNumber != w.session.layers[k].tiles[j2].midiNumber
    ensures Run(w, CheckMatchDue, catalog) == w.(pending := multiset{AfterMismatchDue})
  {
    var s := w.session;
    FindTileByUniqueId(s.layers, k, j1);
    FindTileByUniqueId(s.layers, k, j2);
    assert HasTile(s.layers, s.flippedTiles[0]) && HasTile(s.layers, s.flippedTiles[1]);
    assert !PairMatches(s);
    assert CheckMatch(s, catalog) == Transition(s, Some(AfterMismatchDue));
    assert multiset{CheckMatchDue} - multiset{CheckMatchDue} + multiset{AfterMismatchDue} == multiset{AfterMismatchDue};
  }

  /** The 500 ms continuation after a match releases the lock and keeps
      every tile's matched and flipped flags. */
  lemma AfterMatchReleases(w: World, catalog: seq<Note>, k: nat, j: nat)
    requires Inv(w) && w.pending == multiset{AfterMatchDue}
    requires k < |w.session.layers| && j < |w.session.layers[k].tiles|
    ensures var s, w' := w.session, Run(w, AfterMatchDue, catalog);
      && Inv(w') && Resolving(w'.pending) == 0
      && k < |w'.session.layers| && j < |w'.session.layers[k].tiles|
      && !w'.session.isBusy && w'.session.flippedTiles == [] && w'.session.moves == s.moves
      && w'.session.discoveredNotes == s.discoveredNotes
      && w'.session.layers[k].tiles[j].isMatched == s.layers[k].tiles[j].isMatched
      && w'.session.layers[k].tiles[j].isFlipped == s.layers[k].tiles[j].isFlipped
  {
    AfterMatchPreservesInv(w, catalog);
    ClearLayerKeepsFlags(w.session, k, j);
  }

  /** The 600 ms continuation after a mismatch turns the two tiles face
      down, releases the lock and leaves nothing scheduled. */
  lemma AfterMismatchReleases(w: World, catalog: seq<Note>, k: nat, j1: nat, j2: nat)
    requires Inv(w) && w.pending == multiset{AfterMismatchDue}
    requires k < |w.session.layers| && j1 < |w.session.layers[k].tiles| && j2 < |w.session.layers[k].tiles|
    requires w.session.flippedTiles == [w.session.layers[k].tiles[j1].id, w.session.layers[k].tiles[j2].id]
    requires !w.session.layers[k].tiles[j1].isMatched && !w.session.layers[k].tiles[j2].isMatched
    ensures var s, w' := w.session, Run(w, AfterMismatchDue, catalog);
      && w'.pending == multiset{} && Inv(w')
      && w'.session.layers[k].tiles[j1] == s.layers[k].tiles[j1].(isFlipped := false)
      && w'.session.layers[k].tiles[j2] == s.layers[k].tiles[j2].(isFlipped := false)
      && !w'.session.isBusy && w'.session.flippedTiles == [] && w'.session.moves == s.moves
      && w'.session.discoveredNotes == s.discoveredNotes
  {
    var s := w.session;
    AfterMismatchPreservesInv(w, catalog);
    assert s.layers[k].tiles[j1].id in s.flippedTiles && s.layers[k].tiles[j2].id in s.flippedTiles;
  }

  /** Handing the lock from the evaluation to the 600 ms continuation keeps
      the invariant. */
  lemma MismatchHoldsLock(w: World)
    requires Inv(w) && w.pending == multiset{CheckMatchDue}
    ensures Inv(w.(pending := multiset{AfterMismatchDue}))
  {
    assert Resolving(multiset{AfterMismatchDue}) == 1;
  }

  /** A whole round with a matching pair, from an idle session: both tiles
      end matched and face up, two moves are counted, the lock is released
      and no resolution is left scheduled. */
  lemma MatchingRound(s: Session, catalog: seq<Note>, k: nat, j1: nat, j2: nat)
    requires Idle(s) && Playable(s, k, j1, j2)
    requires s.layers[k].tiles[j1].midiNumber == s.layers[k].tiles[j2].midiNumber
    ensures var w2 := TwoFlips(s, k, j1, j2);
      CheckMatchDue in w2.pending &&
      var w3 := Run(w2, CheckMatchDue, catalog);
      AfterMatchDue in w3.pending &&
      var w4 := Run(w3, AfterMatchDue, catalog);
      && k < |w4.session.layers| && j1 < |w4.session.layers[k].tiles| && j2 < |w4.session.layers[k].tiles|
      && w4.session.layers[k].tiles[j1].isMatched && w4.session.layers[k].tiles[j1].isFlipped
      && w4.session.layers[k].tiles[j2].isMatched && w4.session.layers[k].tiles[j2].isFlipped
      && w4.session.flippedTiles == [] && !w4.session.isBusy
      && w4.session.moves == s.moves + 2
      && Resolving(w4.pending) == 0
      && |s.discoveredNotes| <= |w4.session.discoveredNotes| <= |s.discoveredNotes| + 1
      && Inv(w4)
  {
    var w2 := TwoFlips(s, k, j1, j2);
    TwoFlipsLock(s, k, j1, j2);
    EvaluateMatchingPair(w2, catalog, k, j1, j2);
    var w3 := Run(w2, CheckMatchDue, catalog);
    AfterMatchReleases(w3, catalog, k, j1);
    AfterMatchReleases(w3, catalog, k, j2);
  }

  /** A whole round with a mismatching pair, from an idle session: both
      tiles end face down and unmatched, two moves are counted, the lock is
      released and nothing is left scheduled. */
  lemma MismatchingRound(s: Session, catalog: seq<Note>, k: nat, j1: nat, j2: nat)
    requires Idle(s) && Playable(s, k, j1, j2)
    requires s.layers[k].tiles[j1].midiNumber != s.layers[k].tiles[j2].midiNumber
    ensures var w2 := TwoFlips(s, k, j1, j2);
      CheckMatchDue in w2.pending &&
      var w3 := Run(w2, CheckMatchDue, catalog);
      AfterMismatchDue in w3.pending &&
      var w4 := Run(w3, AfterMismatchDue, catalog);
      && k < |w4.session.layers| && j1 < |w4.session.layers[k].tiles| && j2 < |w4.session.layers[k].tiles|
      && !w4.session.layers[k].tiles[j1].isFlipped && !w4.session.layers[k].tiles[j1].isMatched
      && !w4.session.layers[k].tiles[j2].isFlipped && !w4.session.layers[k].tiles[j2].isMatched
      && w4.session.flippedTiles == [] && !w4.session.isBusy
      && w4.session.moves == s.moves + 2
      && w4.session.discoveredNotes == s.discoveredNotes
      && w4.pending == multiset{}
      && Inv(w4)
  {
    var w2 := TwoFlips(s, k, j1, j2);
    TwoFlipsLock(s, k, j1, j2);
    EvaluateMismatchingPair(w2, catalog, k, j1, j2);
    MismatchHoldsLock(w2);
    var w3 := Run(w2, CheckMatchDue, catalog);
    AfterMismatchReleases(w3, catalog, k, j1, j2);
  }

  /** Clearing a layer changes no tile's matched or flipped flag. */
  lemma ClearLayerKeepsFlags(s: Session, k: nat, j: nat)
    requires k < |s.layers| && j < |s.layers[k].tiles|
    ensures var r := ClearLayer(s, s.currentLayerIndex).next;
      && r.layers[k].tiles[j].isMatched == s.layers[k].tiles[j].isMatched
      && r.layers[k].tiles[j].isFlipped == s.layers[k].tiles[j].isFlipped
  {
  }
}
