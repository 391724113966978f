/**
 * The reveal systems of the board plugin: `trigger_event_handler` puts an
 * `Uncover` marker on the cover of a triggered tile, and `uncover_tiles`
 * consumes every marker once per pass, uncovering the tile, reporting a win
 * or an explosion, and marking the covered neighbours of an empty tile for
 * the next pass. The engine's queries, commands and event channels are
 * replaced by plain state: the board's covered set, the tile components of
 * each coordinate, the set of marked covers and the list of sent events.
 */
module Uncover {
  import opened Wrappers
  import opened BoardResource

  /** The two events the pass sends: `BoardCompletedEvent` and `BombExplosionEvent`. */
  datatype Event = BoardCompleted | BombExplosion

  /** The optional `Bomb` and `BombNeighbor` components of a tile entity. */
  datatype TileComponents = TileComponents(bomb: bool, bombNeighbor: bool)

  /** Only a tile with neither a bomb nor a bomb counter opens its neighbours. */
  predicate Cascades(t: TileComponents)
  {
    !t.bomb && !t.bombNeighbor
  }

  /** What one pass reads and writes: the board's covers, the marked covers, the sent events. */
  datatype State = State(covered: set<Coord>, pending: set<Coord>, events: seq<Event>)

  /**
   * Processing one marker of a pass. `tiles` holds the components of every
   * tile entity that the lookup finds; a coordinate missing from it is a
   * failed lookup.
   */
  function Step(tiles: map<Coord, TileComponents>, bombCount: nat, s: State, c: Coord): (r: State)
    // the marker is always consumed; a failed lookup changes nothing else
    ensures c !in r.pending
    ensures c !in tiles ==> r == s.(pending := s.pending - {c})
    // only the processed tile loses its cover, and only when it had one
    ensures r.covered == if c in tiles then s.covered - {c} else s.covered
    // other markers survive; new markers are covered neighbours of an opening tile
    ensures s.pending - {c} <= r.pending
    ensures forall n :: n in r.pending && n !in s.pending ==>
      c in tiles && Cascades(tiles[c]) && n in r.covered && Adjacent(c, n)
    ensures c in tiles && Cascades(tiles[c]) ==> AdjacentCovered(r.covered, c) <= r.pending
    // events are only appended: a win exactly when the board is completed, an explosion exactly on a bomb
    ensures |s.events| <= |r.events| && r.events[..|s.events|] == s.events
    ensures c in tiles ==> (BoardCompleted in r.events[|s.events|..] <==> Completed(r.covered, bombCount))
    ensures BombExplosion in r.events[|s.events|..] <==> c in tiles && tiles[c].bomb
    // at most one of each, the win first
    ensures |r.events| - |s.events| <= 2
    ensures |r.events| - |s.events| == 2 ==> r.events[|s.events|..] == [BoardCompleted, BombExplosion]
  {
    var pending := s.pending - {c};
    if c !in tiles then State(s.covered, pending, s.events)
    else
      var covered := s.covered - {c};
      var t := tiles[c];
      var sent := (if Completed(covered, bombCount) then [BoardCompleted] else [])
        + (if t.bomb then [BombExplosion] else []);
      assert (s.events + sent)[..|s.events|] == s.events && (s.events + sent)[|s.events|..] == sent;
      State(covered, if Cascades(t) then pending + AdjacentCovered(covered, c) else pending, s.events + sent)
  }

  /** One pass of `uncover_tiles`: the markers processed in the order the query yields them. */
  function Pass(tiles: map<Coord, TileComponents>, bombCount: nat, s: State, order: seq<Coord>): State
    decreases |order|
  {
    if order == [] then s
    else Pass(tiles, bombCount, Step(tiles, bombCount, s, order[0]), order[1..])
  }

  predicate Distinct(order: seq<Coord>)
  {
    forall i, j :: 0 <= i < j < |order| ==> order[i] != order[j]
  }

  /** The tiles of `order` whose lookup succeeds, i.e. that the pass uncovers. */
  function Found(tiles: map<Coord, TileComponents>, order: seq<Coord>): set<Coord>
  {
    set c | c in order && c in tiles
  }

  /** `n` neighbours a tile of `order` that opens its neighbours. */
  ghost predicate NextToOpening(tiles: map<Coord, TileComponents>, order: seq<Coord>, n: Coord)
  {
    exists c :: c in order && c in tiles && Cascades(tiles[c]) && Adjacent(c, n)
  }

  /** Map consistency: a tile next to a bomb carries a bomb or a bomb counter. */
  ghost predicate CountersConsistent(tiles: map<Coord, TileComponents>)
  {
    forall c, n :: c in tiles && n in tiles && Adjacent(c, n) && tiles[n].bomb ==>
      tiles[c].bomb || tiles[c].bombNeighbor
  }

  ghost predicate NoBombMarked(tiles: map<Coord, TileComponents>, pending: set<Coord>)
  {
    forall p :: p in pending && p in tiles ==> !tiles[p].bomb
  }

  /** Processing one more marker extends the pass by one step. */
  lemma {:induction false} PassSnoc(tiles: map<Coord, TileComponents>, bombCount: nat, s: State, order: seq<Coord>, c: Coord)
    ensures Pass(tiles, bombCount, s, order + [c]) == Step(tiles, bombCount, Pass(tiles, bombCount, s, order), c)
    decreases |order|
  {
    if order == [] {
      assert order + [c] == [c];
    } else {
      assert (order + [c])[1..] == order[1..] + [c];
      PassSnoc(tiles, bombCount, Step(tiles, bombCount, s, order[0]), order[1..], c);
    }
  }

  /** A pass uncovers exactly the processed tiles whose lookup succeeds; covers never come back. */
  lemma {:induction false} PassCovered(tiles: map<Coord, TileComponents>, bombCount: nat, s: State, order: seq<Coord>)
    ensures Pass(tiles, bombCount, s, order).covered == s.covered - Found(tiles, order)
    decreases |order|
  {
    if order != [] {
      var s1 := Step(tiles, bombCount, s, order[0]);
      PassCovered(tiles, bombCount, s1, order[1..]);
      assert Found(tiles, order) == Found(tiles, [order[0]]) + Found(tiles, order[1..]) by {
        assert order == [order[0]] + order[1..];
      }
    }
  }

  /** Events are only ever appended. */
  lemma {:induction false} PassExtendsEvents(tiles: map<Coord, TileComponents>, bombCount: nat, s: State, order: seq<Coord>)
    ensures |s.events| <= |Pass(tiles, bombCount, s, order).events|
    ensures Pass(tiles, bombCount, s, order).events[..|s.events|] == s.events
    decreases |order|
  {
    if order != [] {
      var s1 := Step(tiles, bombCount, s, order[0]);
      PassExtendsEvents(tiles, bombCount, s1, order[1..]);
      assert s1.events[..|s.events|] == s.events;
    }
  }

  /**
   * Every marker the pass processes is consumed, markers it does not process
   * stay, and the new markers are exactly the still-covered neighbours of the
   * opening tiles it uncovered.
   */
  lemma {:induction false} PassPending(tiles: map<Coord, TileComponents>, bombCount: nat, s: State, order: seq<Coord>)
    requires s.covered <= tiles.Keys
    ensures var r := Pass(tiles, bombCount, s, order);
      r.pending == (s.pending - set c | c in order) + (set n | n in r.covered && NextToOpening(tiles, order, n))
    decreases |order|
  {
    var r := Pass(tiles, bombCount, s, order);
    if order != [] {
      var c, rest := order[0], order[1..];
      assert order == [c] + rest;
      var s1 := Step(tiles, bombCount, s, c);
      PassPending(tiles, bombCount, s1, rest);
      PassCovered(tiles, bombCount, s1, rest);
      forall n ensures n in r.pending <==> (n in s.pending && n !in order) || (n in r.covered && NextToOpening(tiles, order, n)) {
        if n in r.covered && c in tiles && Cascades(tiles[c]) && Adjacent(c, n) {
          // still covered at the end, so covered when `c` opened, and never processed afterwards
          assert n in AdjacentCovered(s1.covered, c);
          assert n !in rest;
        }
        if n in r.covered && NextToOpening(tiles, rest, n) {
          var c' :| c' in rest && c' in tiles && Cascades(tiles[c']) && Adjacent(c', n);
          assert c' in order;
        }
        if n in r.covered && NextToOpening(tiles, order, n) && !NextToOpening(tiles, rest, n) {
          var c' :| c' in order && c' in tiles && Cascades(tiles[c']) && Adjacent(c', n);
          assert c' == c;
        }
      }
    }
  }

  /** Markers only ever sit on covered tiles. */
  lemma {:induction false} PassKeepsMarkersCovered(tiles: map<Coord, TileComponents>, bombCount: nat, s: State, order: seq<Coord>)
    requires s.pending <= s.covered
    ensures Pass(tiles, bombCount, s, order).pending <= Pass(tiles, bombCount, s, order).covered
    decreases |order|
  {
    if order != [] {
      PassKeepsMarkersCovered(tiles, bombCount, Step(tiles, bombCount, s, order[0]), order[1..]);
    }
  }

  /**
   * A pass over a non-empty set of markers that sit on covered tiles strictly
   * shrinks the covered set: the cascade terminates.
   */
  lemma PassShrinksCovered(tiles: map<Coord, TileComponents>, bombCount: nat, s: State, order: seq<Coord>)
    requires s.covered <= tiles.Keys && s.pending <= s.covered
    requires (set c | c in order) == s.pending && s.pending != {}
    ensures |Pass(tiles, bombCount, s, order).covered| < |s.covered|
  {
    PassCovered(tiles, bombCount, s, order);
    assert Found(tiles, order) == s.pending;
    var left := s.covered - s.pending;
    assert s.covered == left + s.pending;
    assert |s.covered| == |left| + |s.pending|;
  }

  /** An explosion is sent exactly when a processed tile is a bomb. */
  lemma {:induction false} PassExplosion(tiles: map<Coord, TileComponents>, bombCount: nat, s: State, order: seq<Coord>)
    ensures var r := Pass(tiles, bombCount, s, order);
      |s.events| <= |r.events| &&
      (BombExplosion in r.events[|s.events|..] <==> exists c :: c in order && c in tiles && tiles[c].bomb)
    decreases |order|
  {
    if order != [] {
      var c, rest := order[0], order[1..];
      var s1 := Step(tiles, bombCount, s, c);
      var r := Pass(tiles, bombCount, s, order);
      PassExplosion(tiles, bombCount, s1, rest);
      PassExtendsEvents(tiles, bombCount, s1, rest);
      assert r.events[|s.events|..] == s1.events[|s.events|..] + r.events[|s1.events|..];
      if c' :| c' in order && c' in tiles && tiles[c'].bomb {
        if c' != c { assert c' in rest; }
      }
    }
  }

  /** A pass that uncovers something and leaves the board completed sends `BoardCompleted`. */
  lemma {:induction false} PassReportsWin(tiles: map<Coord, TileComponents>, bombCount: nat, s: State, order: seq<Coord>)
    requires Found(tiles, order) != {}
    requires Completed(Pass(tiles, bombCount, s, order).covered, bombCount)
    ensures var r := Pass(tiles, bombCount, s, order);
      |s.events| <= |r.events| && BoardCompleted in r.events[|s.events|..]
    decreases |order|
  {
    var c, rest := order[0], order[1..];
    var s1 := Step(tiles, bombCount, s, c);
    var r := Pass(tiles, bombCount, s1, rest);
    assert r == Pass(tiles, bombCount, s, order);
    PassExtendsEvents(tiles, bombCount, s1, rest);
    var tail := r.events[|s1.events|..];
    assert r.events[|s.events|..] == s1.events[|s.events|..] + tail;
    if Found(tiles, rest) == {} {
      assert c in tiles by {
        var x :| x in Found(tiles, order);
        assert x in order;
        if x != c { assert x in rest && x in Found(tiles, rest); }
      }
      PassCovered(tiles, bombCount, s1, rest);
      assert BoardCompleted in s1.events[|s.events|..];
    } else {
      PassReportsWin(tiles, bombCount, s1, rest);
      assert BoardCompleted in tail;
    }
  }

  /** A pass that sends `BoardCompleted` leaves no more covers than there are bombs. */
  lemma {:induction false} PassWinIsReal(tiles: map<Coord, TileComponents>, bombCount: nat, s: State, order: seq<Coord>)
    ensures var r := Pass(tiles, bombCount, s, order);
      |s.events| <= |r.events| && (BoardCompleted in r.events[|s.events|..] ==> |r.covered| <= bombCount)
    decreases |order|
  {
    if order != [] {
      var c, rest := order[0], order[1..];
      var s1 := Step(tiles, bombCount, s, c);
      var r := Pass(tiles, bombCount, s, order);
      PassWinIsReal(tiles, bombCount, s1, rest);
      PassExtendsEvents(tiles, bombCount, s1, rest);
      assert r.events[|s.events|..] == s1.events[|s.events|..] + r.events[|s1.events|..];
      if BoardCompleted in s1.events[|s.events|..] {
        PassCovered(tiles, bombCount, s1, rest);
        assert r.covered <= s1.covered;
        assert |r.covered| <= |s1.covered|;
      }
    }
  }

  /**
   * On a consistent map the cascade never reaches a bomb: a pass over markers
   * that are not on bombs sends no explosion and leaves no marker on a bomb.
   */
  lemma {:induction false} PassNeverMarksBomb(tiles: map<Coord, TileComponents>, bombCount: nat, s: State, order: seq<Coord>)
    requires CountersConsistent(tiles) && NoBombMarked(tiles, s.pending)
    requires forall c :: c in order && c in tiles ==> !tiles[c].bomb
    ensures var r := Pass(tiles, bombCount, s, order);
      NoBombMarked(tiles, r.pending) && |s.events| <= |r.events| && BombExplosion !in r.events[|s.events|..]
    decreases |order|
  {
    if order != [] {
      var c, rest := order[0], order[1..];
      var s1 := Step(tiles, bombCount, s, c);
      var r := Pass(tiles, bombCount, s, order);
      forall p | p in s1.pending && p in tiles ensures !tiles[p].bomb {
        if p !in s.pending {
          assert Adjacent(c, p);
        }
      }
      PassNeverMarksBomb(tiles, bombCount, s1, rest);
      PassExtendsEvents(tiles, bombCount, s1, rest);
      assert r.events[|s.events|..] == s1.events[|s.events|..] + r.events[|s1.events|..];
    }
  }

  /**
   * The completion check runs before the bomb check and only counts covers,
   * so uncovering the last-but-one cover when it hides a bomb sends both a
   * win and an explosion: here one bomb at (0, 0) and one counter tile at
   * (1, 0) are covered, and the bomb's marker is processed.
   */
  lemma WinAndExplosionTogether()
    ensures var tiles := map[Coord(0, 0) := TileComponents(true, false), Coord(1, 0) := TileComponents(false, true)];
      var s := State({Coord(0, 0), Coord(1, 0)}, {Coord(0, 0)}, []);
      Step(tiles, 1, s, Coord(0, 0)).events == [BoardCompleted, BombExplosion]
  {
  }

  /**
   * The part of the game world the two systems touch: the board resource,
   * the tile entities' components, the `Uncover` markers and the two event
   * channels (merged into one list in the order the events are sent).
   */
  class World {
    const board: Board
    const tiles: map<Coord, TileComponents>
    var pending: set<Coord>
    var events: seq<Event>

    constructor (board: Board, tiles: map<Coord, TileComponents>)
      requires board.covered <= tiles.Keys
      ensures this.board == board && this.tiles == tiles
      ensures pending == {} && events == []
      ensures Valid()
    {
      this.board := board;
      this.tiles := tiles;
      pending := {};
      events := [];
    }

    function Snapshot(): State
      reads this, board
    {
      State(board.covered, pending, events)
    }

    /** Every covered tile has a tile entity, and markers only sit on covers. */
    ghost predicate Valid()
      reads this, board
    {
      board.covered <= tiles.Keys && pending <= board.covered
    }

    /** `trigger_event_handler`: mark the cover of every triggered tile that is still covered. */
    method TriggerEventHandler(triggers: seq<Coord>)
      modifies this`pending
      ensures pending == old(pending) + set t | t in triggers && t in board.covered
      ensures old(Valid()) ==> Valid()
    {
      var i := 0;
      while i < |triggers|
        invariant 0 <= i <= |triggers|
        invariant pending == old(pending) + set t | t in triggers[..i] && t in board.covered
      {
        var t := triggers[i];
        match board.TileToUncover(t) {
          case Some(cover) => pending := pending + {cover};
          case None =>
        }
        assert triggers[..i + 1] == triggers[..i] + [t];
        i := i + 1;
      }
      assert triggers[..i] == triggers;
    }

    /** Inserts an `Uncover` marker on each of `covers`, one at a time. */
    method MarkAll(covers: set<Coord>)
      modifies this`pending
      ensures pending == old(pending) + covers
    {
      var todo := covers;
      while todo != {}
        invariant todo <= covers
        invariant pending == old(pending) + (covers - todo)
        decreases todo
      {
        var n :| n in todo;
        pending := pending + {n};
        todo := todo - {n};
      }
    }

    /** The body of the pass for one marker, on the cover of tile `c`. */
    method ProcessMarker(c: Coord)
      modifies this`pending, this`events, board
      ensures Snapshot() == Step(tiles, board.bombCount, old(Snapshot()), c)
    {
      // the marker is despawned whatever happens next
      pending := pending - {c};
      if c !in tiles {
        // the tile's components cannot be looked up: skip it
        return;
      }
      var t := tiles[c];
      var uncovered := board.TryUncoverTile(c);
      if board.IsCompleted() {
        events := events + [BoardCompleted];
      }
      if t.bomb {
        events := events + [BombExplosion];
      } else if !t.bombNeighbor {
        MarkAll(board.AdjacentCoveredTiles(c));
      }
    }

    /**
     * `uncover_tiles`: one pass over every marker present when it starts, in
     * the order the query yields them, which is returned.
     */
    method UncoverTiles() returns (order: seq<Coord>)
      modifies this`pending, this`events, board
      ensures (set c | c in order) == old(pending) && Distinct(order)
      ensures Snapshot() == Pass(tiles, board.bombCount, old(Snapshot()), order)
      ensures old(Valid()) ==> Valid()
      ensures old(Valid()) && old(pending) != {} ==> |board.covered| < old(|board.covered|)
    {
      var batch := pending;
      order := [];
      while batch != {}
        invariant (set c | c in order) + batch == old(pending)
        invariant forall c :: c in order ==> c !in batch
        invariant Distinct(order)
        invariant Snapshot() == Pass(tiles, board.bombCount, old(Snapshot()), order)
        decreases batch
      {
        var c :| c in batch;
        batch := batch - {c};
        ProcessMarker(c);
        PassSnoc(tiles, board.bombCount, old(Snapshot()), order, c);
        order := order + [c];
      }
      if old(Valid()) {
        PassKeepsMarkersCovered(tiles, board.bombCount, old(Snapshot()), order);
        PassCovered(tiles, board.bombCount, old(Snapshot()), order);
        if old(pending) != {} {
          PassShrinksCovered(tiles, board.bombCount, old(Snapshot()), order);
        }
      }
    }
  }
}
