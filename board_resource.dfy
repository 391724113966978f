/**
 * The board resource as the reveal systems see it. The tile map and the
 * board's own bookkeeping are not part of this model; what is modelled is the
 * interface the systems call, with the behaviour those call sites rely on:
 * a set of still-covered tile coordinates and the number of bombs on the map.
 * The cover sprite of a tile is identified by the tile's coordinates.
 */
module BoardResource {
  import opened Wrappers

  /** Grid address of a tile (two `u16` in the game; only adjacency matters here). */
  datatype Coord = Coord(x: nat, y: nat)

  /** The eight surrounding tiles: Chebyshev distance one, the tile itself excluded. */
  predicate Adjacent(a: Coord, b: Coord)
  {
    a != b && -1 <= a.x - b.x <= 1 && -1 <= a.y - b.y <= 1
  }

  /** The neighbours of `c` that are still covered. */
  function AdjacentCovered(covered: set<Coord>, c: Coord): set<Coord>
  {
    set n | n in covered && Adjacent(c, n)
  }

  /** The win condition: exactly the bombs are left covered. */
  predicate Completed(covered: set<Coord>, bombCount: nat)
  {
    |covered| == bombCount
  }

  class Board {
    /** Coordinates of the tiles whose cover is still on the board. */
    var covered: set<Coord>
    const bombCount: nat

    /** A fresh board: every tile of the map is covered. */
    constructor (tiles: set<Coord>, bombCount: nat)
      ensures covered == tiles && this.bombCount == bombCount
    {
      covered := tiles;
      this.bombCount := bombCount;
    }

    /** The cover to mark when the player triggers `c`: only a covered tile has one. */
    function TileToUncover(c: Coord): (r: Option<Coord>)
      reads this
      ensures r.Some? <==> c in covered
      ensures r.Some? ==> r.value == c
    {
      if c in covered then Some(c) else None
    }

    /**
     * Removes the cover of `c`. Uncovering a tile that is already uncovered
     * is a no-op that yields no cover.
     */
    method TryUncoverTile(c: Coord) returns (r: Option<Coord>)
      modifies this
      ensures covered == old(covered) - {c}
      ensures r.Some? <==> c in old(covered)
      ensures r.Some? ==> r.value == c
    {
      if c in covered {
        covered := covered - {c};
        r := Some(c);
      } else {
        r := None;
      }
    }

    /** The covers of the neighbours of `c` that are still on the board. */
    function AdjacentCoveredTiles(c: Coord): (r: set<Coord>)
      reads this
      ensures r <= covered && c !in r
      ensures forall n :: n in covered && Adjacent(c, n) ==> n in r
      ensures forall n :: n in r ==> Adjacent(c, n)
    {
      AdjacentCovered(covered, c)
    }

    predicate IsCompleted()
      reads this
    {
      Completed(covered, bombCount)
    }
  }
}
