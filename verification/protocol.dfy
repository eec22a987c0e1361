/** The store together with the callbacks it has scheduled: a small
    sequential state machine whose events are the player-facing actions and
    the firing of a scheduled callback. `Inv` is the invariant the flip,
    match and layer-cascade protocol keeps. */
module Protocol {
  import opened Optional
  import opened Board
  import opened Engine

  /** The session and the callbacks scheduled but not yet run. */
  datatype World = World(session: Session, pending: multiset<Continuation>)

  datatype Event =
    | Init(difficulty: Difficulty, rand: seq<LayerDraws>)
    | Flip(id: string)
    | Start
    | Reset
    | SetTeam(team: string)
    | DismissNote
    | Fire(due: Continuation)

  /** An event can happen: a callback fires only when scheduled, and a new
      board needs its random values. */
  predicate Enabled(w: World, e: Event) {
    match e
    case Init(d, rand) => RandomFor(GridSizes(d), rand)
    case Fire(c) => c in w.pending
    case _ => true
  }

  function Schedule(pending: multiset<Continuation>, c: Option<Continuation>): multiset<Continuation> {
    if c.Some? then pending + multiset{c.value} else pending
  }

  /** A flip request from the player. */
  function Press(w: World, id: string): World {
    var t := FlipTile(w.session, id);
    World(t.next, Schedule(w.pending, t.scheduled))
  }

  /** The callbacks a callback may schedule: the evaluation schedules the
      layer check or the flip-back, and the layer check the end of the
      game. */
  predicate Follows(c: Continuation, d: Continuation) {
    || (c == CheckMatchDue && (d == AfterMatchDue || d == AfterMismatchDue))
    || (c == AfterMatchDue && d == EndGameDue)
  }

  /** A scheduled callback runs and leaves the set of pending callbacks; it
      schedules at most one successor, of a kind it may schedule. */
  function Run(w: World, c: Continuation, catalog: seq<Note>): (r: World)
    requires c in w.pending
    ensures w.pending - multiset{c} <= r.pending
    ensures |r.pending| <= |w.pending|
    ensures forall d :: r.pending[d] > (w.pending - multiset{c})[d] ==> Follows(c, d)
  {
    var s, rest := w.session, w.pending - multiset{c};
    match c
    case CheckMatchDue =>
      var t := CheckMatch(s, catalog);
      ScheduleFollows(w.pending, c, t.scheduled);
      World(t.next, Schedule(rest, t.scheduled))
    case AfterMatchDue =>
      var t := AfterMatch(s);
      ScheduleFollows(w.pending, c, t.scheduled);
      World(t.next, Schedule(rest, t.scheduled))
    case AfterMismatchDue => World(AfterMismatch(s), rest)
    case EndGameDue => World(EndGame(s), rest)
  }

  /** Replacing a fired callback by a successor it may schedule. */
  lemma ScheduleFollows(pending: multiset<Continuation>, c: Continuation, next: Option<Continuation>)
    requires c in pending
    requires next.Some? ==> Follows(c, next.value)
    ensures var rest := pending - multiset{c};
      && rest <= Schedule(rest, next)
      && |Schedule(rest, next)| <= |pending|
      && forall d :: Schedule(rest, next)[d] > rest[d] ==> Follows(c, d)
  {
  }

  function Step(w: World, e: Event, catalog: seq<Note>): World
    requires Enabled(w, e)
  {
    var s := w.session;
    match e
    case Init(d, rand) => World(InitGame(s, d, rand), w.pending)
    case Flip(id) => Press(w, id)
    case Start => World(StartPlaying(s), w.pending)
    case Reset => World(ResetGame(s), w.pending)
    case SetTeam(team) => World(SetTeamId(s, team), w.pending)
    case DismissNote => World(ClearMatchedNote(s), w.pending)
    case Fire(c) => Run(w, c, catalog)
  }

  /** Scheduled callbacks that belong to the resolution of a pair. */
  function Resolving(pending: multiset<Continuation>): nat {
    pending[CheckMatchDue] + pending[AfterMatchDue] + pending[AfterMismatchDue]
  }

  /** At most two pending ids, none twice. */
  ghost predicate PendingOk(s: Session) {
    && |s.flippedTiles| <= 2
    && (|s.flippedTiles| == 2 ==> s.flippedTiles[0] != s.flippedTiles[1])
  }

  /** Layers know their position; only the current layer may be active; a
      tile is active exactly when its layer is; the layer index is on a layer
      (or 0 when there are none). */
  ghost predicate LayersOk(s: Session) {
    && (forall k :: 0 <= k < |s.layers| ==> s.layers[k].index == k)
    && (forall k :: 0 <= k < |s.layers| && s.layers[k].isActive ==> k == s.currentLayerIndex)
    && (forall k, j :: 0 <= k < |s.layers| && 0 <= j < |s.layers[k].tiles| ==>
          s.layers[k].tiles[j].isActive == s.layers[k].isActive)
    && (if |s.layers| == 0 then s.currentLayerIndex == 0 else 0 <= s.currentLayerIndex < |s.layers|)
  }

  /** The lock is held exactly while one pair is being resolved, and the
      pending ids are those the scheduled callback will look at. */
  ghost predicate LockOk(w: World) {
    var s := w.session;
    && Resolving(w.pending) <= 1
    && (s.isBusy <==> Resolving(w.pending) == 1)
    && (w.pending[CheckMatchDue] == 1 ==> |s.flippedTiles| == 2)
    && (w.pending[AfterMismatchDue] == 1 ==> |s.flippedTiles| == 2)
    && (w.pending[AfterMatchDue] == 1 ==> |s.flippedTiles| == 0 && |s.layers| > 0)
    && (Resolving(w.pending) == 0 ==> |s.flippedTiles| < 2)
  }

  /** The part of the invariant that holds on every run, whatever the
      order of events: at most two distinct pending ids, the layer
      invariant, and discovered notes without duplicates. */
  ghost predicate Shape(w: World) {
    && PendingOk(w.session)
    && LayersOk(w.session)
    && NoDuplicateMidi(w.session.discoveredNotes)
  }

  ghost predicate Inv(w: World) {
    && Shape(w)
    && LockOk(w)
  }

  /** The store as created, with nothing scheduled, satisfies the
      invariant. */
  lemma InitialInv()
    ensures Inv(World(InitialSession, multiset{}))
  {
  }

  /** Under the invariant at most one layer is active. */
  lemma AtMostOneActiveLayer(w: World, k: int, k': int)
    requires Inv(w)
    requires 0 <= k < |w.session.layers| && 0 <= k' < |w.session.layers|
    requires w.session.layers[k].isActive && w.session.layers[k'].isActive
    ensures k == k'
  {
  }

  /** Tile flags only: the layer fields and the tiles' activity are kept. */
  lemma LayersOkKeptByTileFlags(a: Session, b: Session)
    requires LayersOk(a)
    requires SameLayout(a.layers, b.layers) && b.currentLayerIndex == a.currentLayerIndex
    requires forall k, j :: 0 <= k < |a.layers| && 0 <= j < |a.layers[k].tiles| ==>
      b.layers[k].tiles[j].isActive == a.layers[k].tiles[j].isActive
    ensures LayersOk(b)
  {
    assert forall k :: 0 <= k < |a.layers| ==> b.layers[k].index == a.layers[k].index
                                                && b.layers[k].isActive == a.layers[k].isActive;
  }

  lemma FlipPreservesInv(w: World, id: string)
    requires Inv(w)
    ensures Inv(Press(w, id))
  {
    var s := w.session;
    var t := FlipTile(s, id);
    if !FlipIgnored(s, id) {
      LayersOkKeptByTileFlags(s, t.next);
    }
  }

  /** Taking one resolving callback out of a world holding at most one
      leaves none. */
  lemma FiredResolvingLeavesNone(pending: multiset<Continuation>, c: Continuation)
    requires Resolving(pending) <= 1 && c in pending && c != EndGameDue
    ensures Resolving(pending - multiset{c}) == 0
  {
  }

  /** The evaluation hands the lock to the 500 ms callback, with nothing
      pending and the board non-empty. */
  lemma HandOverToAfterMatch(pending: multiset<Continuation>, r: Session)
    requires Resolving(pending) == 1 && CheckMatchDue in pending
    requires r.isBusy && r.flippedTiles == [] && |r.layers| > 0
    ensures LockOk(World(r, pending - multiset{CheckMatchDue} + multiset{AfterMatchDue}))
  {
    FiredResolvingLeavesNone(pending, CheckMatchDue);
  }

  /** A found matching pair: tiles marked matched, the 500 ms callback
      takes over the lock. */
  lemma MatchedPairKeepsInv(w: World, catalog: seq<Note>)
    requires Inv(w) && CheckMatchDue in w.pending && PairMatches(w.session)
    ensures Inv(Run(w, CheckMatchDue, catalog))
  {
    var s := w.session;
    var m := FindTile(s.layers, PendingId(s, 0)).value.midiNumber;
    var r := SettleMatch(s, catalog, m);
    var p := w.pending - multiset{CheckMatchDue} + multiset{AfterMatchDue};
    FiredResolvingLeavesNone(w.pending, CheckMatchDue);
    assert Run(w, CheckMatchDue, catalog) == World(r, p);
    LayersOkKeptByTileFlags(s, r);
    HandOverToAfterMatch(w.pending, r);
  }

  lemma CheckMatchPreservesInv(w: World, catalog: seq<Note>)
    requires Inv(w) && CheckMatchDue in w.pending
    ensures Inv(Run(w, CheckMatchDue, catalog))
  {
    var s := w.session;
    var rest := w.pending - multiset{CheckMatchDue};
    FiredResolvingLeavesNone(w.pending, CheckMatchDue);
    if PairUnresolved(s) {
      assert Run(w, CheckMatchDue, catalog) == World(s.(flippedTiles := [], isBusy := false), rest);
    } else if PairMatches(s) {
      MatchedPairKeepsInv(w, catalog);
    } else {
      assert Run(w, CheckMatchDue, catalog) == World(s, rest + multiset{AfterMismatchDue});
    }
  }

  /** Clearing the current layer keeps the layer invariant: the active
      mark moves from layer i to layer i - 1 together with the layer index. */
  lemma ClearLayerKeepsLayersOk(s: Session)
    requires LayersOk(s) && |s.layers| > 0
    ensures LayersOk(ClearLayer(s, s.currentLayerIndex).next)
  {
    var i := s.currentLayerIndex;
    var r := ClearLayer(s, i).next;
    forall k, j | 0 <= k < |r.layers| && 0 <= j < |r.layers[k].tiles|
      ensures r.layers[k].tiles[j].isActive == r.layers[k].isActive
    {
      if k != i && k != i - 1 {
        assert r.layers[k] == s.layers[k];
      }
    }
  }

  lemma AfterMatchPreservesInv(w: World, catalog: seq<Note>)
    requires Inv(w) && AfterMatchDue in w.pending
    ensures Inv(Run(w, AfterMatchDue, catalog))
  {
    var s := w.session;
    var i := s.currentLayerIndex;
    if AllMatched(s.layers[i]) {
      ClearLayerKeepsLayersOk(s);
    }
  }

  lemma AfterMismatchPreservesInv(w: World, catalog: seq<Note>)
    requires Inv(w) && AfterMismatchDue in w.pending
    ensures Inv(Run(w, AfterMismatchDue, catalog))
  {
    var s := w.session;
    var r := AfterMismatch(s);
    var r0 := ResetFlippedTiles(s);
    assert forall k, j :: 0 <= k < |s.layers| && 0 <= j < |s.layers[k].tiles| ==>
      r.layers[k].tiles[j].isActive == r0.layers[k].tiles[j].isActive == s.layers[k].tiles[j].isActive;
    LayersOkKeptByTileFlags(s, r);
  }

  /** A new board satisfies the layer invariant. */
  lemma InitLayersOk(s: Session, d: Difficulty, rand: seq<LayerDraws>)
    requires RandomFor(GridSizes(d), rand)
    ensures LayersOk(InitGame(s, d, rand))
    ensures var r := InitGame(s, d, rand);
      && 0 <= r.currentLayerIndex < |r.layers|
      && r.layers[r.currentLayerIndex].isActive
      && forall j :: 0 <= j < |r.layers[r.currentLayerIndex].tiles| ==> r.layers[r.currentLayerIndex].tiles[j].isActive
  {
    var r := InitGame(s, d, rand);
    var top := |r.layers| - 1;
    assert r.currentLayerIndex == top;
    forall k | 0 <= k < |r.layers|
      ensures r.layers[k].index == k && (r.layers[k].isActive <==> k == top)
    {
    }
    forall k, j | 0 <= k < |r.layers| && 0 <= j < |r.layers[k].tiles|
      ensures r.layers[k].tiles[j].isActive == r.layers[k].isActive
    {
      assert r.layers[k].tiles[j].isActive <==> k == top;
    }
  }

  lemma InitPreservesInv(w: World, d: Difficulty, rand: seq<LayerDraws>)
    requires Inv(w) && Resolving(w.pending) == 0
    requires RandomFor(GridSizes(d), rand)
    ensures Inv(World(InitGame(w.session, d, rand), w.pending))
  {
    InitLayersOk(w.session, d, rand);
  }

  /** Every enabled event keeps the invariant, provided a new board or a
      reset is requested only while no pair is being resolved: neither
      cancels the callbacks already scheduled. */
  lemma StepPreservesInv(w: World, e: Event, catalog: seq<Note>)
    requires Inv(w) && Enabled(w, e)
    requires e.Init? || e.Reset? ==> Resolving(w.pending) == 0
    ensures Inv(Step(w, e, catalog))
  {
    match e
    case Init(d, rand) => InitPreservesInv(w, d, rand);
    case Flip(id) => FlipPreservesInv(w, id);
    case Start =>
    case Reset =>
    case SetTeam(team) =>
    case DismissNote =>
    case Fire(c) =>
      match c
      case CheckMatchDue => CheckMatchPreservesInv(w, catalog);
      case AfterMatchDue => AfterMatchPreservesInv(w, catalog);
      case AfterMismatchDue => AfterMismatchPreservesInv(w, catalog);
      case EndGameDue =>
  }

  /** A flip keeps the shape, whatever the state of the lock. */
  lemma FlipKeepsShape(w: World, id: string)
    requires Shape(w)
    ensures Shape(Press(w, id))
  {
    var s := w.session;
    if !FlipIgnored(s, id) {
      LayersOkKeptByTileFlags(s, FlipTile(s, id).next);
    }
  }

  /** An evaluation keeps the shape, even one left over from an earlier
      session. */
  lemma CheckMatchKeepsShape(w: World, catalog: seq<Note>)
    requires Shape(w) && CheckMatchDue in w.pending
    ensures Shape(Run(w, CheckMatchDue, catalog))
  {
    var s := w.session;
    if PairMatches(s) {
      LayersOkKeptByTileFlags(s, SettleMatch(s, catalog, FindTile(s.layers, PendingId(s, 0)).value.midiNumber));
    }
  }

  /** A layer check keeps the shape, even one left over from an earlier
      session. */
  lemma AfterMatchKeepsShape(w: World, catalog: seq<Note>)
    requires Shape(w) && AfterMatchDue in w.pending
    ensures Shape(Run(w, AfterMatchDue, catalog))
  {
    var s := w.session;
    if 0 <= s.currentLayerIndex < |s.layers| && AllMatched(s.layers[s.currentLayerIndex]) {
      ClearLayerKeepsLayersOk(s);
    }
  }

  /** A flip-back keeps the shape, even one left over from an earlier
      session. */
  lemma AfterMismatchKeepsShape(w: World, catalog: seq<Note>)
    requires Shape(w) && AfterMismatchDue in w.pending
    ensures Shape(Run(w, AfterMismatchDue, catalog))
  {
    var s := w.session;
    var r, r0 := AfterMismatch(s), ResetFlippedTiles(s);
    assert forall k, j :: 0 <= k < |s.layers| && 0 <= j < |s.layers[k].tiles| ==>
      r.layers[k].tiles[j].isActive == r0.layers[k].tiles[j].isActive == s.layers[k].tiles[j].isActive;
    LayersOkKeptByTileFlags(s, r);
  }

  /** Every enabled event keeps the shape of the state, with no condition
      on when new boards, resets or stale callbacks come. */
  lemma StepKeepsShape(w: World, e: Event, catalog: seq<Note>)
    requires Shape(w) && Enabled(w, e)
    ensures Shape(Step(w, e, catalog))
  {
    match e
    case Init(d, rand) => InitLayersOk(w.session, d, rand);
    case Flip(id) => FlipKeepsShape(w, id);
    case Start =>
    case Reset =>
    case SetTeam(team) =>
    case DismissNote =>
    case Fire(c) =>
      match c
      case CheckMatchDue => CheckMatchKeepsShape(w, catalog);
      case AfterMatchDue => AfterMatchKeepsShape(w, catalog);
      case AfterMismatchDue => AfterMismatchKeepsShape(w, catalog);
      case EndGameDue =>
  }

  /** A reset while a pair is being resolved releases the lock but leaves
      the evaluation scheduled: the next flip is accepted and a later one
      can pair with it while the stale evaluation is still to run. */
  lemma ResetDuringResolutionBreaksLock(w: World, id: string, catalog: seq<Note>)
    requires Inv(w) && w.pending[CheckMatchDue] == 1
    ensures var w' := Step(Step(w, Reset, catalog), Flip(id), catalog);
      && w'.session.flippedTiles == [id] && w'.session.moves == 1
      && !w'.session.isBusy && w'.pending[CheckMatchDue] == 1
      && !Inv(w')
  {
  }
}
