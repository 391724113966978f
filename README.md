# Minesweeper board plugin: the reveal cascade and the counter palette

A Dafny model of two pieces of a Bevy minesweeper plugin.

The first piece is the pair of systems that reveal tiles. `trigger_event_handler` turns a
tile-trigger event into an `Uncover` marker on the tile's cover, but only when the board still
has a cover there. `uncover_tiles` then makes one pass over every marker:
- it consumes (despawns) the marker;
- it skips the tile when the tile's components cannot be looked up;
- otherwise it removes the tile's cover from the board and sends `BoardCompleted` when the
  board reports completion;
- it sends `BombExplosion` for a bomb;
- a tile with neither a bomb nor a bomb counter marks every neighbour that is still covered.
  Those markers are consumed by the next pass.

The engine plumbing becomes plain state. The class `Uncover.World` holds the board resource, the
components of each tile entity, the set of marked covers and the list of sent events.
`BoardResource.Board` models the board's interface that these systems call: a set of covered
coordinates and the bomb count. A cover is identified by its tile's coordinates. One pass is
also given as a function on values, `Uncover.Pass`, a fold of `Uncover.Step` over the order
in which the query yields the markers. The method `World.UncoverTiles` is proved equal to
it. The lemmas about `Pass` state what a pass guarantees:
- exactly the found tiles lose their covers;
- all processed markers are consumed;
- the new markers are exactly the still-covered neighbours of the opening tiles;
- markers stay on covered tiles;
- the covered set strictly shrinks, so the cascade terminates;
- explosions and wins are reported as the code promises;
- on a consistent map the cascade never marks a bomb.

The second piece is `BoardAssets::bomb_counter_colors`: the colour of a bomb counter, chosen
from a palette with a saturating index and two fallbacks. It comes with the default palette
and the default sprite material.

One tile can report both a win and a loss. The pass checks completion
(board_plugin/src/systems/uncover.rs:49) before it checks for a bomb
(board_plugin/src/systems/uncover.rs:53). The model takes `is_completed` to mean "as many
covers left as there are bombs". Under that reading, uncovering a bomb that leaves as many
covers as bombs sends both events. `Uncover.WinAndExplosionTogether` exhibits such a state.

## Model

| member | source | states |
|---|---|---|
| `BoardResource.Board.TileToUncover` | board_plugin/src/systems/uncover.rs:20 | the board yields a cover for a coordinate exactly when that tile is still covered, and it is that tile's cover |
| `BoardResource.Board.TryUncoverTile` | board_plugin/src/systems/uncover.rs:45-48 | removes only that tile's cover; yields the cover exactly when the tile was covered; on an uncovered tile it is a no-op yielding none |
| `BoardResource.Board.AdjacentCoveredTiles` | board_plugin/src/systems/uncover.rs:58 | exactly the neighbours of the tile that are still covered; never the tile itself or an uncovered tile |
| `Uncover.Step` | board_plugin/src/systems/uncover.rs:34-61 | one marker: always consumed; a failed lookup changes nothing else; only the processed tile loses its cover; new markers are only covered neighbours of an opening tile, and all of them are marked; events are only appended, at most one of each and the win first, with a win exactly when the board is completed and an explosion exactly on a bomb |
| `Uncover.PassSnoc` | board_plugin/src/systems/uncover.rs:34-62 | processing one more marker extends the pass by one step, so the pass can be built marker by marker |
| `Uncover.PassCovered` | board_plugin/src/systems/uncover.rs:38-48 | after a pass the covered set is the old one minus exactly the processed tiles whose lookup succeeded; covers never come back |
| `Uncover.PassExtendsEvents` | board_plugin/src/systems/uncover.rs:49-56 | a pass only appends events; earlier events are kept |
| `Uncover.PassPending` | board_plugin/src/systems/uncover.rs:34-60 | after a pass, the markers are the unprocessed old markers plus exactly the still-covered neighbours of the processed tiles that have neither bomb nor counter |
| `Uncover.PassKeepsMarkersCovered` | board_plugin/src/systems/uncover.rs:57-60 | if markers sit only on covered tiles before a pass, they do after it too |
| `Uncover.PassShrinksCovered` | board_plugin/src/systems/uncover.rs:34-62 | a pass over a non-empty set of markers that all sit on covered tiles strictly shrinks the covered set, so the cascade terminates |
| `Uncover.PassExplosion` | board_plugin/src/systems/uncover.rs:53-56 | a pass sends an explosion exactly when one of its processed tiles is a bomb |
| `Uncover.PassReportsWin` | board_plugin/src/systems/uncover.rs:49-52 | a pass that uncovers something and leaves the board completed sends `BoardCompleted` |
| `Uncover.PassWinIsReal` | board_plugin/src/systems/uncover.rs:49-52 | a pass that sends `BoardCompleted` leaves at most as many covers as bombs |
| `Uncover.PassNeverMarksBomb` | board_plugin/src/systems/uncover.rs:53-60 | on a map where every tile next to a bomb is a bomb or carries a counter, a pass whose markers are not on bombs sends no explosion and leaves no marker on a bomb |
| `Uncover.WinAndExplosionTogether` | board_plugin/src/systems/uncover.rs:49-56 | with one bomb and one other tile covered, processing the bomb sends `BoardCompleted` followed by `BombExplosion` |
| `Uncover.World.TriggerEventHandler` | board_plugin/src/systems/uncover.rs:13-24 | marks exactly the triggered tiles that are still covered; every other marker stays; markers stay on covered tiles |
| `Uncover.World.MarkAll` | board_plugin/src/systems/uncover.rs:58-60 | inserting a marker on each given cover adds exactly those covers to the markers |
| `Uncover.World.ProcessMarker` | board_plugin/src/systems/uncover.rs:35-61 | the loop body for one marker changes the world exactly as `Step` says |
| `Uncover.World.UncoverTiles` | board_plugin/src/systems/uncover.rs:26-63 | visits every marker present at the start exactly once and leaves the world equal to `Pass` over that order; keeps markers on covered tiles; strictly shrinks the covered set when there were markers |
| `Assets.SaturatingSub` | board_plugin/src/resources/board_assets.rs:52 | `u8` subtraction that yields 0 instead of going negative |
| `Assets.Get` | board_plugin/src/resources/board_assets.rs:53 | the element at an index exactly when the index is in range |
| `Assets.Last` | board_plugin/src/resources/board_assets.rs:55 | the final element exactly when the sequence is not empty |
| `Assets.SpriteMaterial.Default` | board_plugin/src/resources/board_assets.rs:10-15 | the default material is white with the default texture |
| `Assets.BoardAssets.DefaultColor` | board_plugin/src/resources/board_assets.rs:40-47 | the default palette has five distinct colours and starts with white |
| `Assets.BoardAssets.BombCounterColor` | board_plugin/src/resources/board_assets.rs:51-60 | counters 0 and 1 give the first colour; counter n up to the palette length gives entry n - 1; a larger counter gives the last colour; an empty palette gives white; otherwise the result is always a palette colour |

## Left out

- The tile map, mine placement, adjacency counting and the board's own bookkeeping: `tile.rs`, `tile_map.rs`, `board.rs` and `cordinates.rs` are not part of this model. `BoardResource.Board` is a model of the board's interface. Where the call sites leave its behaviour open, the model fills it in with the assumptions named below.
- BoardResource.Board.TileToUncover: assumes every covered tile has a cover to mark and that no covered tile is withheld (for example a flagged one). The call site only shows that a returned cover belongs to a covered tile. The "exactly" in `Uncover.World.TriggerEventHandler` rests on this assumption.
- BoardResource.Board.IsCompleted: assumes completion means "covers left == bombs", with no check of which tiles are still covered.
- Deferred engine commands: the model applies despawns and marker inserts in program order. The engine applies them after the system has run. Both give the same markers, with one exception. A marker whose tile lookup failed is despawned, and that same tile may be marked again later in the same pass. The engine would then insert onto a despawned entity, which Bevy's `insert` documents as a panic. The model instead keeps the new marker, and a later trigger on that tile behaves differently from the engine too. This case cannot arise under `Uncover.World.Valid()`: every covered tile has components, so a failed lookup is never on a covered tile and is never marked again.
- The frame loop that reruns `uncover_tiles` until no marker is left is not modelled. Its termination is stated by `Uncover.PassShrinksCovered`.
- Logging, the plugin registration and board spawning in `lib.rs` (including its `todo!()` and the float tile-size and position arithmetic), app setup in `main.rs`, and the `board_options.rs` configuration.
- Colours are exact sRGBA reals, not `f32`. Image and font handles are opaque identifiers.
