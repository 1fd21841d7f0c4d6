/**
 * Simultaneous explosions. Whatever the order in which the due bombs of a tick are resolved, the world ends in
 * one closed form over the union of their blasts on the map as it was before the first explosion.
 */
module ExplosionOrder {
  import opened Wrappers
  import opened Tiles
  import opened Movement
  import opened Blast
  import opened World

  predicate Live(w: World, i: nat) {
    i < |w.bombs| && w.bombs[i].Some?
  }

  /** Bomb i, traced on the map of w, breaks the brick at c. */
  predicate Breaks(w: World, i: nat, c: Cell) {
    Live(w, i) && c in BrokenBricks(w.tiles, w.bombs[i].value.cell, w.bombs[i].value.radius)
  }

  /** Bomb i, traced on the map of w, burns a hitbox at pos. */
  predicate Burns(w: World, i: nat, pos: TilePos) {
    Live(w, i) && OverlapsAny(pos, BlastCells(w.tiles, w.bombs[i].value.cell, w.bombs[i].value.radius))
  }

  predicate BrokenBy(w: World, s: set<nat>, c: Cell) {
    exists i :: i in s && Breaks(w, i, c)
  }

  predicate BurnedBy(w: World, s: set<nat>, pos: TilePos) {
    exists i :: i in s && Burns(w, i, pos)
  }

  function OwnedIn(w: World, s: set<nat>, id: nat): nat {
    |set i | i in s && Live(w, i) && w.bombs[i].value.ownerId == id|
  }

  function Minus(a: nat, b: nat): nat {
    if a < b then 0 else a - b
  }

  // ----- The closed form, part by part -----

  ghost predicate TilesClosed(w: World, s: set<nat>, tiles: TileMap) {
    forall c | Inside(c) :: TileAt(tiles, c) == if BrokenBy(w, s, c) then Grass else TileAt(w.tiles, c)
  }

  /** A player after the blasts of s: dead if any of them reached it unprotected, and owning s's bombs no more. */
  function PlayerClosed(w: World, s: set<nat>, id: nat): Option<Player>
    requires id < |w.players|
  {
    if w.players[id].None? then None
    else
      var p := w.players[id].value;
      var q := if p.alive && !EffectActive(p.invincibleUntilTick, w.tick) && BurnedBy(w, s, p.pos) then Dead(p) else p;
      Some(q.(activeBombCount := Minus(p.activeBombCount, OwnedIn(w, s, id))))
  }

  /** A powerup after the blasts of s: revealed now if the brick over it was broken. */
  function PowerupClosed(w: World, s: set<nat>, j: nat): Option<Powerup>
    requires j < |w.powerups|
  {
    var slot := w.powerups[j];
    if w.powersEnabled && slot.Some? && !slot.value.revealed && BrokenBy(w, s, slot.value.cell)
    then Some(slot.value.(revealed := true, revealedTick := w.tick)) else slot
  }

  ghost predicate PlayersClosed(w: World, s: set<nat>, players: seq<Option<Player>>) {
    |players| == |w.players| && forall id | 0 <= id < |players| :: players[id] == PlayerClosed(w, s, id)
  }

  ghost predicate PowerupsClosed(w: World, s: set<nat>, powerups: seq<Option<Powerup>>) {
    |powerups| == |w.powerups| && forall j | 0 <= j < |powerups| :: powerups[j] == PowerupClosed(w, s, j)
  }

  ghost predicate BombsClosed(w: World, s: set<nat>, bombs: seq<Option<BombState>>) {
    |bombs| == |w.bombs| && forall i | 0 <= i < |bombs| :: bombs[i] == if i in s then None else w.bombs[i]
  }

  /** The state after the bombs of s went off in world w, whatever the order. */
  ghost predicate ClosedForm(w: World, s: set<nat>, after: World) {
    && after.tick == w.tick && after.powersEnabled == w.powersEnabled
    && TilesClosed(w, s, after.tiles)
    && PlayersClosed(w, s, after.players)
    && PowerupsClosed(w, s, after.powerups)
    && BombsClosed(w, s, after.bombs)
  }

  // ----- One more bomb -----

  lemma {:induction false} IntactCells(tiles: TileMap, cells: seq<Cell>, c: Cell)
    ensures c in Intact(tiles, cells) <==> c in cells && Inside(c) && TileAt(tiles, c) == Brick
    decreases |cells|
  {
    if cells != [] {
      var n := |cells| - 1;
      IntactCells(tiles, cells[..n], c);
      assert cells == cells[..n] + [cells[n]];
    }
  }

  lemma ClearedAt(tiles: TileMap, cells: seq<Cell>, c: Cell)
    requires Inside(c)
    ensures TileAt(Cleared(tiles, cells), c) == if c in cells then Grass else TileAt(tiles, c)
  {
    assert CellOf(CellKey(c.col, c.row)) == c;
  }

  /** A broken brick was a brick on the map it was traced on. */
  lemma BreaksABrick(w: World, i: nat, c: Cell)
    requires Breaks(w, i, c)
    ensures Inside(c) && TileAt(w.tiles, c) == Brick
  {
    var b := w.bombs[i].value;
    BrokenBricksAreTheBurnedOnes(w.tiles, b.cell, b.radius, c);
  }

  lemma NextTiles(w: World, s: set<nat>, i: nat, tiles: TileMap)
    requires Live(w, i) && TilesClosed(w, s, tiles)
    ensures var b := w.bombs[i].value; var bricks := Intact(tiles, BrokenBricks(w.tiles, b.cell, b.radius));
      && TilesClosed(w, s + {i}, Cleared(tiles, bricks))
      && forall c :: c in bricks <==> Breaks(w, i, c) && !BrokenBy(w, s, c)
  {
    var b := w.bombs[i].value;
    var broken := BrokenBricks(w.tiles, b.cell, b.radius);
    var bricks := Intact(tiles, broken);
    forall c ensures c in bricks <==> Breaks(w, i, c) && !BrokenBy(w, s, c) {
      IntactCells(tiles, broken, c);
      if c in broken {
        BreaksABrick(w, i, c);
      }
    }
    forall c | Inside(c)
      ensures TileAt(Cleared(tiles, bricks), c) == if BrokenBy(w, s + {i}, c) then Grass else TileAt(w.tiles, c)
    {
      ClearedAt(tiles, bricks, c);
    }
  }

  lemma OwnedAtMost(w: World, s: set<nat>, id: nat)
    ensures OwnedIn(w, s, id) <= |s|
  {
    var owned := set i | i in s && Live(w, i) && w.bombs[i].value.ownerId == id;
    assert s == owned + (s - owned);
  }

  lemma NextOwned(w: World, s: set<nat>, i: nat, id: nat)
    requires Live(w, i) && i !in s
    ensures OwnedIn(w, s + {i}, id) == OwnedIn(w, s, id) + if w.bombs[i].value.ownerId == id then 1 else 0
  {
    var before := set j | j in s && Live(w, j) && w.bombs[j].value.ownerId == id;
    var after := set j | j in s + {i} && Live(w, j) && w.bombs[j].value.ownerId == id;
    assert after == if w.bombs[i].value.ownerId == id then before + {i} else before;
  }

  lemma NextPlayers(w: World, s: set<nat>, i: nat, players: seq<Option<Player>>)
    requires Live(w, i) && i !in s && PlayersClosed(w, s, players)
    ensures var b := w.bombs[i].value; var cells := BlastCells(w.tiles, b.cell, b.radius);
      PlayersClosed(w, s + {i}, ReleaseOwnership(KillPlayers(players, w.tick, cells), b.ownerId))
  {
    hide BlastCells, OverlapsAny;
    var b := w.bombs[i].value;
    var cells := BlastCells(w.tiles, b.cell, b.radius);
    var after := ReleaseOwnership(KillPlayers(players, w.tick, cells), b.ownerId);
    forall id | 0 <= id < |after| ensures after[id] == PlayerClosed(w, s + {i}, id) {
      NextOwned(w, s, i, id);
      assert players[id] == PlayerClosed(w, s, id);
      if w.players[id].Some? {
        var p := w.players[id].value;
        assert BurnedBy(w, s + {i}, p.pos) <==> BurnedBy(w, s, p.pos) || OverlapsAny(p.pos, cells);
      }
    }
  }

  lemma NextPowerups(w: World, s: set<nat>, i: nat, powerups: seq<Option<Powerup>>, bricks: seq<Cell>)
    requires Live(w, i) && PowerupsClosed(w, s, powerups)
    requires forall c :: c in bricks <==> Breaks(w, i, c) && !BrokenBy(w, s, c)
    ensures PowerupsClosed(w, s + {i}, RevealPowerups(powerups, w.powersEnabled, w.tick, bricks))
  {
    hide Breaks;
    var after := RevealPowerups(powerups, w.powersEnabled, w.tick, bricks);
    forall j | 0 <= j < |after| ensures after[j] == PowerupClosed(w, s + {i}, j) {
      assert powerups[j] == PowerupClosed(w, s, j);
      if w.powerups[j].Some? {
        var c := w.powerups[j].value.cell;
        assert BrokenBy(w, s + {i}, c) <==> BrokenBy(w, s, c) || Breaks(w, i, c);
      }
    }
  }

  /** Resolving one more bomb turns the closed form of s into that of s + {i}. */
  lemma OneMoreBomb(w: World, s: set<nat>, i: nat, now: World)
    requires Live(w, i) && i !in s && ClosedForm(w, s, now)
    ensures ClosedForm(w, s + {i}, ExplodeOne(now, i, w.tiles))
    ensures forall c :: c in ExplodeOne(now, i, w.tiles).sent[|now.sent|].destroyedBricks <==> Breaks(w, i, c) && !BrokenBy(w, s, c)
  {
    hide TilesClosed, PlayersClosed, PowerupsClosed, Breaks, BrokenBricks, BlastCells, RevealPowerups, KillPlayers, ReleaseOwnership, Cleared;
    var b := w.bombs[i].value;
    var bricks := Intact(now.tiles, BrokenBricks(w.tiles, b.cell, b.radius));
    assert now.bombs[i] == w.bombs[i];
    NextTiles(w, s, i, now.tiles);
    NextPlayers(w, s, i, now.players);
    NextPowerups(w, s, i, now.powerups, bricks);
  }

  // ----- Any order -----

  lemma DueIsInRange(w: World, order: seq<nat>)
    requires ListsDue(w, order)
    ensures forall j | 0 <= j < |order| :: order[j] < |w.bombs|
  {
  }

  function SetOf(order: seq<nat>): set<nat> {
    set i | i in order
  }

  ghost predicate NoRepeats(order: seq<nat>) {
    forall j, k | 0 <= j < k < |order| :: order[j] != order[k]
  }

  lemma EmptyClosedForm(w: World)
    ensures ClosedForm(w, {}, w)
  {
    forall id | 0 <= id < |w.players| ensures w.players[id] == PlayerClosed(w, {}, id) {
      OwnedAtMost(w, {}, id);
    }
  }

  /** Resolving the listed bombs, in whatever order, yields the closed form of the set of them. */
  lemma {:induction false} ExplodeAllIsClosed(w: World, order: seq<nat>)
    requires NoRepeats(order) && forall j | 0 <= j < |order| :: order[j] < |w.bombs| && Live(w, order[j])
    ensures ClosedForm(w, SetOf(order), ExplodeAll(w, order, w.tiles))
    decreases |order|
  {
    if order == [] {
      EmptyClosedForm(w);
      assert SetOf([]) == {};
    } else {
      hide ClosedForm, ExplodeOne;
      var n := |order| - 1;
      ExplodeAllIsClosed(w, order[..n]);
      var now := ExplodeAll(w, order[..n], w.tiles);
      assert order == order[..n] + [order[n]];
      assert SetOf(order) == SetOf(order[..n]) + {order[n]};
      SameBombSlots(w, SetOf(order[..n]), now);
      OneMoreBomb(w, SetOf(order[..n]), order[n], now);
    }
  }

  lemma SameBombSlots(w: World, s: set<nat>, now: World)
    requires ClosedForm(w, s, now)
    ensures |now.bombs| == |w.bombs|
  {
  }

  /** The closed form leaves nothing open but the order of the messages. */
  lemma ClosedFormIsUnique(w: World, s: set<nat>, a: World, b: World)
    requires ClosedForm(w, s, a) && ClosedForm(w, s, b)
    ensures a == b.(sent := a.sent)
  {
    assert a.tiles == b.tiles by {
      forall k | 0 <= k < TILE_COUNT ensures a.tiles[k] == b.tiles[k] {
        var c := CellOf(k);
        assert Inside(c) && CellKey(c.col, c.row) == k;
        assert TileAt(a.tiles, c) == TileAt(b.tiles, c);
      }
    }
    assert a.players == b.players;
    assert a.powerups == b.powerups;
    assert a.bombs == b.bombs;
  }

  /** Two resolution orders of the same due bombs agree on everything but the order of the messages. */
  lemma OrderDoesNotMatter(w: World, order: seq<nat>, other: seq<nat>)
    requires ListsDue(w, order) && ListsDue(w, other)
    ensures ExplodeAll(w, order, w.tiles) == ExplodeAll(w, other, w.tiles).(sent := ExplodeAll(w, order, w.tiles).sent)
  {
    assert SetOf(order) == SetOf(other);
    ExplodeAllIsClosed(w, order);
    ExplodeAllIsClosed(w, other);
    ClosedFormIsUnique(w, SetOf(order), ExplodeAll(w, order, w.tiles), ExplodeAll(w, other, w.tiles));
  }
}
