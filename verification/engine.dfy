/** The game-state store: one session record and the actions that replace
    it. Each `setTimeout` callback of the store is its own transition
    (`CheckMatch`, `AfterMatch`, `AfterMismatch`, `EndGame`); a transition
    reports the continuation it schedules, and nothing runs it until the
    caller does. */
module Engine {
  import opened Optional
  import opened Board

  datatype Phase = Menu | Playing | Ended

  /** An entry of the MIDI note catalogue; `name` stands for every field
      other than the MIDI number. */
  datatype Note = Note(midi: int, name: string)

  /** The delayed callbacks the store schedules. */
  datatype Continuation = CheckMatchDue | AfterMatchDue | AfterMismatchDue | EndGameDue

  /** The store's state, without the clock fields (`startTime`,
      `elapsedTime`). */
  datatype Session = Session(
    phase: Phase,
    difficulty: Difficulty,
    layers: seq<Layer>,
    currentLayerIndex: int,
    flippedTiles: seq<string>,
    moves: nat,
    isBusy: bool,
    teamId: Option<string>,
    discoveredNotes: seq<Note>,
    matchedNote: Option<Note>)

  /** The state after an action, and the callback it leaves scheduled. */
  datatype Transition = Transition(next: Session, scheduled: Option<Continuation>)

  /** The store as created. */
  const InitialSession: Session :=
    Session(Menu, Medium, [], 0, [], 0, false, None, [], None)

  // ---------------------------------------------------------------------
  // Layers and tiles

  /** Apply `f` to every tile of every layer, keeping everything else. */
  function MapTiles(ls: seq<Layer>, f: Tile -> Tile): (r: seq<Layer>)
    ensures SameLayout(ls, r)
    ensures forall k, j :: 0 <= k < |ls| && 0 <= j < |ls[k].tiles| ==> r[k].tiles[j] == f(ls[k].tiles[j])
  {
    seq(|ls|, k requires 0 <= k < |ls| =>
      ls[k].(tiles := seq(|ls[k].tiles|, j requires 0 <= j < |ls[k].tiles| => f(ls[k].tiles[j]))))
  }

  /** `b` has the layers of `a`, with the same tile count each; only the
      tiles themselves may differ. */
  ghost predicate SameLayout(a: seq<Layer>, b: seq<Layer>) {
    && |a| == |b|
    && forall k :: 0 <= k < |a| ==> b[k] == a[k].(tiles := b[k].tiles) && |b[k].tiles| == |a[k].tiles|
  }

  function SetActive(ts: seq<Tile>, active: bool): (r: seq<Tile>)
    ensures |r| == |ts|
    ensures forall j :: 0 <= j < |ts| ==> r[j] == ts[j].(isActive := active)
  {
    seq(|ts|, j requires 0 <= j < |ts| => ts[j].(isActive := active))
  }

  /** The layer as the current point of play: it and all its tiles active. */
  function Activate(l: Layer): Layer {
    l.(isActive := true, tiles := SetActive(l.tiles, true))
  }

  /** The layer once its last pair is matched: cleared, it and its tiles
      inactive. */
  function Retire(l: Layer): Layer {
    l.(isCleared := true, isActive := false, tiles := SetActive(l.tiles, false))
  }

  predicate AllMatched(l: Layer) {
    forall j :: 0 <= j < |l.tiles| ==> l.tiles[j].isMatched
  }

  ghost predicate HasTile(ls: seq<Layer>, id: string) {
    exists k, j :: 0 <= k < |ls| && 0 <= j < |ls[k].tiles| && ls[k].tiles[j].id == id
  }

  /** No two tile positions share an id. */
  ghost predicate UniqueIds(ls: seq<Layer>) {
    forall k1, j1, k2, j2 ::
      (0 <= k1 < |ls| && 0 <= j1 < |ls[k1].tiles| && 0 <= k2 < |ls| && 0 <= j2 < |ls[k2].tiles| &&
       ls[k1].tiles[j1].id == ls[k2].tiles[j2].id) ==> k1 == k2 && j1 == j2
  }

  ghost predicate TileIn(ls: seq<Layer>, t: Tile) {
    exists k, j :: 0 <= k < |ls| && 0 <= j < |ls[k].tiles| && ls[k].tiles[j] == t
  }

  /** The number of tiles on the layers `ls`. */
  function TileCount(ls: seq<Layer>): nat
    decreases |ls|
  {
    if |ls| == 0 then 0 else |ls[0].tiles| + TileCount(ls[1..])
  }

  /** All tiles in the order the lookup loop visits them; the order itself
      is `AllTilesOrder`. */
  function AllTiles(ls: seq<Layer>): (ts: seq<Tile>)
    ensures forall t :: t in ts <==> TileIn(ls, t)
    ensures |ts| == TileCount(ls)
    decreases |ls|
  {
    if |ls| == 0 then []
    else
      var rest := AllTiles(ls[1..]);
      ConsMembers(ls, rest);
      ls[0].tiles + rest
  }

  /** The tiles of the first layer followed by those of the others are the
      tiles of all layers. */
  lemma ConsMembers(ls: seq<Layer>, rest: seq<Tile>)
    requires |ls| > 0
    requires forall t :: t in rest <==> TileIn(ls[1..], t)
    ensures forall t :: t in ls[0].tiles + rest <==> TileIn(ls, t)
  {
    forall t | TileIn(ls[1..], t) ensures TileIn(ls, t) {
      var k, j :| 0 <= k < |ls[1..]| && 0 <= j < |ls[1..][k].tiles| && ls[1..][k].tiles[j] == t;
      assert ls[k + 1].tiles[j] == t;
    }
    forall t | TileIn(ls, t) ensures t in ls[0].tiles || TileIn(ls[1..], t) {
      var k, j :| 0 <= k < |ls| && 0 <= j < |ls[k].tiles| && ls[k].tiles[j] == t;
      if k > 0 {
        assert ls[1..][k - 1].tiles[j] == t;
      }
    }
    forall t | t in ls[0].tiles ensures TileIn(ls, t) {
      var j :| 0 <= j < |ls[0].tiles| && ls[0].tiles[j] == t;
      assert ls[0].tiles[j] == t;
    }
  }

  /** The loop visits the layers in order and each layer's tiles in order:
      tile j of layer k comes right after the tiles of the layers before k,
      at position j among them. */
  lemma {:induction false} AllTilesOrder(ls: seq<Layer>, k: nat, j: nat)
    requires k < |ls| && j < |ls[k].tiles|
    ensures TileCount(ls[..k]) + j < |AllTiles(ls)|
    ensures AllTiles(ls)[TileCount(ls[..k]) + j] == ls[k].tiles[j]
    decreases |ls|
  {
    var rest := AllTiles(ls[1..]);
    assert AllTiles(ls) == ls[0].tiles + rest;
    if k == 0 {
      assert TileCount(ls[..0]) == 0;
    } else {
      AllTilesOrder(ls[1..], k - 1, j);
      TileCountPrefix(ls, k);
      assert ls[1..][k - 1] == ls[k];
    }
  }

  /** Counting the tiles of the first k layers starts with the first one. */
  lemma TileCountPrefix(ls: seq<Layer>, k: nat)
    requires 0 < k <= |ls|
    ensures TileCount(ls[..k]) == |ls[0].tiles| + TileCount(ls[1..][..k - 1])
  {
    assert ls[..k][1..] == ls[1..][..k - 1];
  }

  /** The last tile of `ts` with the given id: the lookup loop overwrites
      its candidate on every hit. */
  function FindLast(ts: seq<Tile>, id: string): (r: Option<Tile>)
    ensures r.None? <==> forall i :: 0 <= i < |ts| ==> ts[i].id != id
    ensures r.Some? ==> exists i :: 0 <= i < |ts| && ts[i] == r.value && r.value.id == id
                                    && forall i' :: i < i' < |ts| ==> ts[i'].id != id
    decreases |ts|
  {
    if |ts| == 0 then None
    else if ts[|ts| - 1].id == id then Some(ts[|ts| - 1])
    else
      var front := ts[..|ts| - 1];
      assert forall i :: 0 <= i < |front| ==> front[i] == ts[i];
      FindLast(front, id)
  }

  /** The tile a pending id denotes; an absent id (`undefined`) denotes
      none. */
  function FindTile(ls: seq<Layer>, id: Option<string>): (r: Option<Tile>)
    ensures r.Some? ==> id.Some? && r.value.id == id.value && TileIn(ls, r.value)
    ensures r.None? <==> id.None? || !HasTile(ls, id.value)
  {
    if id.None? then None
    else
      var ts := AllTiles(ls);
      var r := FindLast(ts, id.value);
      assert HasTile(ls, id.value) ==> exists i :: 0 <= i < |ts| && ts[i].id == id.value by {
        if HasTile(ls, id.value) {
          var k, j :| 0 <= k < |ls| && 0 <= j < |ls[k].tiles| && ls[k].tiles[j].id == id.value;
          assert TileIn(ls, ls[k].tiles[j]);
          var i :| 0 <= i < |ts| && ts[i] == ls[k].tiles[j];
        }
      }
      assert r.Some? ==> TileIn(ls, r.value) by {
        if r.Some? {
          assert r.value in ts;
        }
      }
      r
  }

  // ---------------------------------------------------------------------
  // Notes

  /** The first catalogue entry for MIDI number `m` (`Array.find`). */
  function FindNote(catalog: seq<Note>, m: int): (r: Option<Note>)
    ensures r.None? <==> forall i :: 0 <= i < |catalog| ==> catalog[i].midi != m
    ensures r.Some? ==> exists i :: 0 <= i < |catalog| && catalog[i] == r.value && r.value.midi == m
                                    && forall i' :: 0 <= i' < i ==> catalog[i'].midi != m
    decreases |catalog|
  {
    if |catalog| == 0 then None
    else if catalog[0].midi == m then Some(catalog[0])
    else
      var r := FindNote(catalog[1..], m);
      assert forall i :: 1 <= i < |catalog| ==> catalog[i] == catalog[1..][i - 1];
      r
  }

  ghost predicate KnowsMidi(notes: seq<Note>, m: int) {
    exists i :: 0 <= i < |notes| && notes[i].midi == m
  }

  /** No two discovered notes carry the same MIDI number. */
  ghost predicate NoDuplicateMidi(notes: seq<Note>) {
    forall i, j :: 0 <= i < j < |notes| ==> notes[i].midi != notes[j].midi
  }

  /** Record a found note unless one with its MIDI number is known. */
  function Discover(notes: seq<Note>, found: Option<Note>): (r: seq<Note>)
    ensures |notes| <= |r| <= |notes| + 1 && r[..|notes|] == notes
    ensures |r| == |notes| + 1 <==> found.Some? && !KnowsMidi(notes, found.value.midi)
    ensures |r| == |notes| + 1 ==> r[|notes|] == found.value
    ensures NoDuplicateMidi(notes) ==> NoDuplicateMidi(r)
  {
    if found.Some? && !(exists i :: 0 <= i < |notes| && notes[i].midi == found.value.midi) then
      notes + [found.value]
    else notes
  }

  // ---------------------------------------------------------------------
  // Session actions

  /** Set up a session for `d`: all layers generated, the last one (the
      outermost) active. The phase, the busy flag and the team are kept. */
  function InitGame(s: Session, d: Difficulty, rand: seq<LayerDraws>): (r: Session)
    requires RandomFor(GridSizes(d), rand)
    ensures r == s.(difficulty := d, layers := r.layers, currentLayerIndex := |r.layers| - 1,
                    flippedTiles := [], moves := 0, discoveredNotes := [], matchedNote := None)
    ensures |r.layers| == |GridSizes(d)| >= 2
    ensures forall k :: 0 <= k < |r.layers| ==>
      && r.layers[k].index == k
      && r.layers[k].gridSize == GridSizes(d)[k]
      && !r.layers[k].isCleared
      && (r.layers[k].isActive <==> k == |r.layers| - 1)
      && |r.layers[k].tiles| == r.layers[k].gridSize * r.layers[k].gridSize
    ensures forall k, j :: 0 <= k < |r.layers| && 0 <= j < |r.layers[k].tiles| ==>
      var t := r.layers[k].tiles[j];
      && t.id == TileId(k, j) && t.layerIndex == k
      && !t.isFlipped && !t.isMatched
      && (t.isActive <==> k == |r.layers| - 1)
      && 1 <= t.midiNumber <= PoolSize
  {
    var ls := GenerateLayers(d, rand);
    var top := |ls| - 1;
    var layers := ls[top := Activate(ls[top])];
    s.(difficulty := d, layers := layers, currentLayerIndex := top, flippedTiles := [], moves := 0,
       discoveredNotes := [], matchedNote := None)
  }

  /** Every tile's id is the one its position gives it. */
  ghost predicate PositionalIds(ls: seq<Layer>) {
    forall k, j :: 0 <= k < |ls| && 0 <= j < |ls[k].tiles| ==> ls[k].tiles[j].id == TileId(k, j)
  }

  /** Positional ids are unique. */
  lemma PositionalIdsUnique(ls: seq<Layer>)
    requires PositionalIds(ls)
    ensures UniqueIds(ls)
  {
    forall k1, j1, k2, j2 |
      (0 <= k1 < |ls| && 0 <= j1 < |ls[k1].tiles| && 0 <= k2 < |ls| && 0 <= j2 < |ls[k2].tiles| &&
       ls[k1].tiles[j1].id == ls[k2].tiles[j2].id)
      ensures k1 == k2 && j1 == j2
    {
      assert ls[k1].tiles[j1].id == TileId(k1, j1) && ls[k2].tiles[j2].id == TileId(k2, j2);
      TileIdInjective(k1, j1, k2, j2);
    }
  }

  /** A new board has unique tile ids. */
  lemma InitGameUniqueIds(s: Session, d: Difficulty, rand: seq<LayerDraws>)
    requires RandomFor(GridSizes(d), rand)
    ensures UniqueIds(InitGame(s, d, rand).layers)
  {
    var r := InitGame(s, d, rand);
    assert PositionalIds(r.layers);
    PositionalIdsUnique(r.layers);
  }

  /** Every layer of a new board holds exact pairs. */
  lemma InitGamePairs(s: Session, d: Difficulty, rand: seq<LayerDraws>)
    requires RandomFor(GridSizes(d), rand)
    ensures var r := InitGame(s, d, rand);
      forall k :: 0 <= k < |r.layers| ==> ExactPairs(r.layers[k].tiles, r.layers[k].gridSize)
  {
    var ls := GenerateLayers(d, rand);
    assert InitGame(s, d, rand).layers == ls[|ls| - 1 := Activate(ls[|ls| - 1])];
    ActivateKeepsPairs(ls, |ls| - 1);
  }

  /** Activating one layer keeps every layer's exact pairs. */
  lemma ActivateKeepsPairs(ls: seq<Layer>, top: nat)
    requires top < |ls|
    requires forall k :: 0 <= k < |ls| ==> ExactPairs(ls[k].tiles, ls[k].gridSize)
    ensures var r := ls[top := Activate(ls[top])];
      forall k :: 0 <= k < |r| ==> ExactPairs(r[k].tiles, r[k].gridSize)
  {
    var r := ls[top := Activate(ls[top])];
    forall k | 0 <= k < |r|
      ensures ExactPairs(r[k].tiles, r[k].gridSize)
    {
      if k == top {
        ActivateKeepsMidis(ls[top]);
      } else {
        assert r[k] == ls[k];
      }
    }
  }

  lemma ActivateKeepsMidis(l: Layer)
    ensures Midis(Activate(l).tiles) == Midis(l.tiles) && Activate(l).gridSize == l.gridSize
  {
    assert forall j :: 0 <= j < |l.tiles| ==> Activate(l).tiles[j].midiNumber == l.tiles[j].midiNumber;
  }

  /** The guards under which a flip request is dropped. */
  predicate FlipIgnored(s: Session, id: string) {
    s.isBusy || |s.flippedTiles| >= 2 || id in s.flippedTiles
  }

  /** A flip request. Unless dropped, the id is appended and the move
      counted even when no tile flips (an unknown, inactive or matched id);
      the second pending id locks the session and schedules `CheckMatch`. */
  function FlipTile(s: Session, id: string): (t: Transition)
    ensures FlipIgnored(s, id) ==> t == Transition(s, None)
    ensures !FlipIgnored(s, id) ==>
      && t.next == s.(layers := t.next.layers, flippedTiles := s.flippedTiles + [id],
                      moves := s.moves + 1, isBusy := |s.flippedTiles| == 1)
      && (t.scheduled.Some? <==> |s.flippedTiles| == 1)
      && (t.scheduled.Some? ==> t.scheduled.value == CheckMatchDue)
      && SameLayout(s.layers, t.next.layers)
      && forall k, j :: 0 <= k < |s.layers| && 0 <= j < |s.layers[k].tiles| ==>
           var t0, t1 := s.layers[k].tiles[j], t.next.layers[k].tiles[j];
           && t1 == t0.(isFlipped := t1.isFlipped)
           && (t1.isFlipped <==> t0.isFlipped || (t0.id == id && t0.isActive && !t0.isMatched))
  {
    if FlipIgnored(s, id) then Transition(s, None)
    else
      var layers := MapTiles(s.layers, (tile: Tile) =>
        if tile.id == id && !tile.isMatched && tile.isActive then tile.(isFlipped := true) else tile);
      var flipped := s.flippedTiles + [id];
      var next := s.(layers := layers, flippedTiles := flipped, moves := s.moves + 1);
      if |flipped| == 2 then Transition(next.(isBusy := true), Some(CheckMatchDue))
      else Transition(next, None)
  }

  /** The i-th pending id; `undefined` past the end. */
  function PendingId(s: Session, i: nat): Option<string> {
    if i < |s.flippedTiles| then Some(s.flippedTiles[i]) else None
  }

  /** `CheckMatch` finds no tile for one of the two pending ids. */
  ghost predicate PairUnresolved(s: Session) {
    |s.flippedTiles| < 2 || !HasTile(s.layers, s.flippedTiles[0]) || !HasTile(s.layers, s.flippedTiles[1])
  }

  /** Both pending tiles are found and carry the same MIDI number. */
  ghost predicate PairMatches(s: Session) {
    && !PairUnresolved(s)
    && FindTile(s.layers, PendingId(s, 0)).value.midiNumber == FindTile(s.layers, PendingId(s, 1)).value.midiNumber
  }

  /** Mark matched every tile whose id is one of the pending ids. */
  function MarkMatched(ls: seq<Layer>, id1: Option<string>, id2: Option<string>): (r: seq<Layer>)
    ensures SameLayout(ls, r)
    ensures forall k, j :: 0 <= k < |ls| && 0 <= j < |ls[k].tiles| ==>
      var t0, t1 := ls[k].tiles[j], r[k].tiles[j];
      && t1 == t0.(isMatched := t1.isMatched)
      && (t1.isMatched <==> t0.isMatched || Some(t0.id) == id1 || Some(t0.id) == id2)
  {
    MapTiles(ls, (tile: Tile) =>
      if Some(tile.id) == id1 || Some(tile.id) == id2 then tile.(isMatched := true) else tile)
  }

  /** The state a found pair with MIDI number `m` leaves behind: both
      tiles matched, the note recorded and shown, nothing pending. The lock
      stays until `AfterMatch`. */
  function SettleMatch(s: Session, catalog: seq<Note>, m: int): (r: Session)
    requires |s.flippedTiles| >= 2
    ensures r == s.(layers := r.layers, flippedTiles := [],
                    discoveredNotes := r.discoveredNotes, matchedNote := FindNote(catalog, m))
    ensures |s.discoveredNotes| <= |r.discoveredNotes| <= |s.discoveredNotes| + 1
    ensures r.discoveredNotes[..|s.discoveredNotes|] == s.discoveredNotes
    ensures |r.discoveredNotes| == |s.discoveredNotes| + 1 <==>
              FindNote(catalog, m).Some? && !KnowsMidi(s.discoveredNotes, m)
    ensures |r.discoveredNotes| == |s.discoveredNotes| + 1 ==> r.discoveredNotes[|s.discoveredNotes|] == FindNote(catalog, m).value
    ensures NoDuplicateMidi(s.discoveredNotes) ==> NoDuplicateMidi(r.discoveredNotes)
    ensures SameLayout(s.layers, r.layers)
    ensures forall k, j :: 0 <= k < |s.layers| && 0 <= j < |s.layers[k].tiles| ==>
      var t0, t1 := s.layers[k].tiles[j], r.layers[k].tiles[j];
      && t1 == t0.(isMatched := t1.isMatched)
      && (t1.isMatched <==> t0.isMatched || t0.id == s.flippedTiles[0] || t0.id == s.flippedTiles[1])
  {
    var note := FindNote(catalog, m);
    s.(layers := MarkMatched(s.layers, PendingId(s, 0), PendingId(s, 1)), flippedTiles := [],
       discoveredNotes := Discover(s.discoveredNotes, note), matchedNote := note)
  }

  /** The evaluation of the pending pair, 800 ms after the second flip. A
      pending id that names no tile (or is missing) abandons the pair. */
  function CheckMatch(s: Session, catalog: seq<Note>): (t: Transition)
    ensures PairUnresolved(s) ==> t == Transition(s.(flippedTiles := [], isBusy := false), None)
    ensures !PairUnresolved(s) && !PairMatches(s) ==> t == Transition(s, Some(AfterMismatchDue))
    ensures PairMatches(s) ==>
      t == Transition(SettleMatch(s, catalog, FindTile(s.layers, PendingId(s, 0)).value.midiNumber), Some(AfterMatchDue))
  {
    var id1, id2 := PendingId(s, 0), PendingId(s, 1);
    var tile1, tile2 := FindTile(s.layers, id1), FindTile(s.layers, id2);
    if tile1.None? || tile2.None? then
      Transition(s.(flippedTiles := [], isBusy := false), None)
    else if tile1.value.midiNumber == tile2.value.midiNumber then
      Transition(SettleMatch(s, catalog, tile1.value.midiNumber), Some(AfterMatchDue))
    else
      Transition(s, Some(AfterMismatchDue))
  }

  /** Flip back every pending tile that is not matched and forget the
      pending ids. */
  function ResetFlippedTiles(s: Session): (r: Session)
    ensures r == s.(layers := r.layers, flippedTiles := [])
    ensures SameLayout(s.layers, r.layers)
    ensures forall k, j :: 0 <= k < |s.layers| && 0 <= j < |s.layers[k].tiles| ==>
      var t0, t1 := s.layers[k].tiles[j], r.layers[k].tiles[j];
      && t1 == t0.(isFlipped := t1.isFlipped)
      && (t1.isFlipped <==> t0.isFlipped && (t0.isMatched || t0.id !in s.flippedTiles))
  {
    var layers := MapTiles(s.layers, (tile: Tile) =>
      if tile.id in s.flippedTiles && !tile.isMatched then tile.(isFlipped := false) else tile);
    s.(layers := layers, flippedTiles := [])
  }

  /** A second flip-back finds nothing pending and changes nothing. */
  lemma ResetFlippedTilesIdempotent(s: Session)
    ensures ResetFlippedTiles(ResetFlippedTiles(s)) == ResetFlippedTiles(s)
  {
    var r := ResetFlippedTiles(s);
    var r2 := ResetFlippedTiles(r);
    assert r2.layers == r.layers by {
      forall k | 0 <= k < |r.layers| ensures r2.layers[k] == r.layers[k] {
        assert r2.layers[k].tiles == r.layers[k].tiles;
      }
    }
  }

  /** The callback 600 ms after a mismatch: flip back, then release the
      lock. */
  function AfterMismatch(s: Session): (r: Session)
    ensures r == ResetFlippedTiles(s).(isBusy := false)
    ensures r.flippedTiles == [] && !r.isBusy
    ensures SameLayout(s.layers, r.layers)
    ensures forall k, j :: 0 <= k < |s.layers| && 0 <= j < |s.layers[k].tiles| ==>
      var t0, t1 := s.layers[k].tiles[j], r.layers[k].tiles[j];
      t0.isMatched ==> t1 == t0
  {
    ResetFlippedTiles(s).(isBusy := false)
  }

  /** Layer `i` is done: retire it and hand play to layer i - 1, or, when
      there is none, keep the layer index and schedule the end of the game. */
  function ClearLayer(s: Session, i: int): (t: Transition)
    ensures t.next == s.(layers := t.next.layers, currentLayerIndex := if i <= 0 then i else i - 1)
    ensures t.scheduled == if i <= 0 then Some(EndGameDue) else None
    ensures |t.next.layers| == |s.layers|
    ensures 0 <= i < |s.layers| ==>
      var l0, l1 := s.layers[i], t.next.layers[i];
      && l1.isCleared && !l1.isActive
      && l1.index == l0.index && l1.gridSize == l0.gridSize && |l1.tiles| == |l0.tiles|
      && forall j :: 0 <= j < |l0.tiles| ==> l1.tiles[j] == l0.tiles[j].(isActive := false)
    ensures 0 < i <= |s.layers| ==>
      var l0, l1 := s.layers[i - 1], t.next.layers[i - 1];
      && l1.isActive && l1.isCleared == l0.isCleared
      && l1.index == l0.index && l1.gridSize == l0.gridSize && |l1.tiles| == |l0.tiles|
      && forall j :: 0 <= j < |l0.tiles| ==> l1.tiles[j] == l0.tiles[j].(isActive := true)
    ensures forall k :: 0 <= k < |s.layers| && k != i && k != i - 1 ==> t.next.layers[k] == s.layers[k]
  {
    var next := i - 1;
    var isLast := next < 0;
    var layers := seq(|s.layers|, k requires 0 <= k < |s.layers| =>
      if k == i then Retire(s.layers[k])
      else if k == next && !isLast then Activate(s.layers[k])
      else s.layers[k]);
    Transition(
      s.(layers := layers, currentLayerIndex := if isLast then i else next),
      if isLast then Some(EndGameDue) else None)
  }

  /** The callback 500 ms after a match: clear the current layer when all
      its tiles are matched, then release the lock. With the layer index off
      the layer list the callback throws before releasing anything. */
  function AfterMatch(s: Session): (t: Transition)
    ensures !(0 <= s.currentLayerIndex < |s.layers|) ==> t == Transition(s, None)
    ensures 0 <= s.currentLayerIndex < |s.layers| && !AllMatched(s.layers[s.currentLayerIndex]) ==>
      t == Transition(s.(isBusy := false), None)
    ensures 0 <= s.currentLayerIndex < |s.layers| && AllMatched(s.layers[s.currentLayerIndex]) ==>
      var i := s.currentLayerIndex;
      && t.next == ClearLayer(s, i).next.(isBusy := false)
      && !t.next.isBusy
      && t.next.layers[i].isCleared && !t.next.layers[i].isActive
      && (i > 0 ==> t.next.currentLayerIndex == i - 1 && t.next.layers[i - 1].isActive && t.scheduled == None)
      && (i == 0 ==> t.next.currentLayerIndex == 0 && t.scheduled == Some(EndGameDue))
  {
    var i := s.currentLayerIndex;
    if !(0 <= i < |s.layers|) then Transition(s, None)
    else if AllMatched(s.layers[i]) then
      var c := ClearLayer(s, i);
      Transition(c.next.(isBusy := false), c.scheduled)
    else Transition(s.(isBusy := false), None)
  }

  function EndGame(s: Session): (r: Session)
    ensures r.phase == Ended && r.(phase := s.phase) == s
  {
    s.(phase := Ended)
  }

  function StartPlaying(s: Session): (r: Session)
    ensures r.phase == Playing && r.(phase := s.phase) == s
  {
    s.(phase := Playing)
  }

  function SetTeamId(s: Session, team: string): (r: Session)
    ensures r.teamId == Some(team) && r.(teamId := s.teamId) == s
  {
    s.(teamId := Some(team))
  }

  /** Dismiss the matched-note popup. */
  function ClearMatchedNote(s: Session): (r: Session)
    ensures r.matchedNote == None && r.(matchedNote := s.matchedNote) == s
  {
    s.(matchedNote := None)
  }

  /** Back to the menu with every session field at its initial value; only
      the chosen difficulty survives. */
  function ResetGame(s: Session): (r: Session)
    ensures r == InitialSession.(difficulty := s.difficulty)
  {
    s.(phase := Menu, layers := [], currentLayerIndex := 0, flippedTiles := [], moves := 0,
       discoveredNotes := [], matchedNote := None, teamId := None, isBusy := false)
  }
}
