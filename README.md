# The guessing game and the tile-game core, in Dafny

This project models the two small programs of the repository and proves what they promise:

- **The number-guessing game** (`guess_the_number.py`, module `GuessTheNumber`). `init` draws a magic number. `processInput` reads words until one is `Quit` or an integer. `update` turns a guess into a status: `end`, `win`, `lower` or `higher`. `render` prints the message for a status, or raises on any other status. `runGame` loops until the status is `win` or `end`. Typed input is a finite sequence of words. The messages `render` prints are returned values. The random draw is a parameter.
- **The tile game's state** (`the_alex_game.py`, module `AlexGameState`). This covers units (`GameItem`/`Unit`) and the `GameState` class: the world bounds test, the first-match unit lookup, the live-unit lookup, observer registration and the "unit destroyed" broadcast. `GameState` is a class whose observer list `AddObserver` extends in place. Observers are identified by handles. A broadcast returns the sequence of `unitDestroyed` calls it makes.
- **The tile game's layers** (`the_alex_game.py`, module `AlexGameLayers`). This covers the coordinate arithmetic of `Layer.renderTile`, the cached terrain surface of `ArrayLayer`, and the per-frame drawing of `UnitsLayer`. A surface is modelled as the sequence of `blit`s made on it. The `ArrayLayer` cache is an optional such sequence, plus a ghost count of rebuilds.

`wrappers.dfy` holds the `Option` and `Result` datatypes used by both programs.

Highlights of what is proved:

- `render` is never handed a status it does not know inside `runGame`.
- `runGame` stops exactly at the first `Quit` or the first correct guess, and prints the messages of the game's transition table.
- The terrain rebuild visits every non-empty cell exactly once, in row-major order.
- Unrotated tiles of different cells never overlap on screen and leave no gaps.
- The terrain cache is never stale. It is rebuilt once at the first render, and once for each tileset change that a render follows.

## Model

| member | source | states |
|---|---|---|
| `GuessTheNumber.Init` | guess_the_number.py:3-12 | The initial status is `None`, which `render` does not accept. The magic number is the value drawn, between 1 and 10. |
| `GuessTheNumber.ParseIntOfIntToString` | guess_the_number.py:31-32 | Every integer, typed in its decimal spelling, is read back by the integer parser as itself. |
| `GuessTheNumber.ParseIntAccepts` | guess_the_number.py:30-36 | The integer parser (`int(word)`) succeeds exactly on integer words: a digit or a sign first, only digits after it, and at least one digit. |
| `GuessTheNumber.DecimalsAreRejected` | guess_the_number.py:31-35 | A word with a decimal point is not a number, so the player is asked again. |
| `GuessTheNumber.QuitIsCaseSensitive` | guess_the_number.py:27-28 | For every word: it quits iff it is exactly `Quit`. `quit` and `QUIT` are skipped like any other non-number. |
| `GuessTheNumber.ClassifyCases` | guess_the_number.py:27-36 | How `processInput` treats one word. A word other than `Quit` is a guess iff it is an integer word, and the guess is the parsed value. Every other word is skipped. |
| `GuessTheNumber.ProcessInput` | guess_the_number.py:15-38 | Skips the words that are neither `Quit` nor integers. Stops at the first word that is one of them. Returns `None` for `Quit` and the number otherwise. Reports running out of input exactly when every remaining word is skipped. |
| `GuessTheNumber.Update` | guess_the_number.py:40-61 | No input gives `end`. A guess gives `win` iff it equals the magic number, `lower` iff the magic number is below it, and `higher` iff it is above. A guess always gives one of these three, so the final fall-through is never taken. The magic number is returned unchanged. |
| `GuessTheNumber.UpdateIgnoresStatus` | guess_the_number.py:52-61 | The previous status has no influence on the new one, and the new status is always one `render` knows. |
| `GuessTheNumber.Render` | guess_the_number.py:63-80 | Succeeds exactly for `win`, `end`, `lower` and `higher`. Every other status, `None` included, gives the `Unexpected game status …` error. |
| `GuessTheNumber.RenderMessagesDistinct` | guess_the_number.py:71-78 | The four known statuses have four different messages. |
| `GuessTheNumber.InitialStatusDoesNotRender` | guess_the_number.py:79-80 | Rendering the initial status raises `Unexpected game status None`. |
| `GuessTheNumber.UpdateThenRenderIsFeedback` | guess_the_number.py:52-78 | `update` followed by `render` prints what the transition table says. `Quit` gives `Bye!`. The magic number wins. A smaller guess is told "higher" and a larger one "lower". |
| `GuessTheNumber.TypingTheMagicNumberWins` | guess_the_number.py:52-55 | For every magic number from 1 to 10, typing it ends the game with `win`. |
| `GuessTheNumber.Turn` | guess_the_number.py:84-87 | One loop turn. If it ends the game, it stopped on the first stop word seen. Otherwise no stop word has been read so far. The message printed is the table's, and the transcript grows by exactly that message. |
| `GuessTheNumber.RanOut` | guess_the_number.py:23-25 | Running out of input while still guessing means no remaining word could stop the game, and no further message is printed. |
| `GuessTheNumber.RunGame` | guess_the_number.py:82-87 | Every status passed to `render` is one of the four known ones, so its error branch is never reached. The game ends iff some word is `Quit` or the magic number. It then stops at the first such word, with `end` for `Quit` and `win` for the number. The messages are the table's messages for the accepted words read. |
| `AlexGameState.FirstUnitAt` | the_alex_game.py:54-62 | The index found holds a unit on the queried cell, and no earlier unit is on it. Past the end means no unit is on the cell. |
| `AlexGameState.AliveOnly` | the_alex_game.py:68-71 | The status filter passes a live unit through unchanged. It answers nothing for no unit or a unit that is not alive. |
| `AlexGameState.NewUnitIsFoundAlive` | the_alex_game.py:15-24 | A new unit is alive. Listed after units that leave its cell free, it is what the live-unit lookup on its cell returns. |
| `AlexGameState.AliveOnlyFirstMatch` | the_alex_game.py:64-71 | A live-unit lookup answers only with a live unit on the cell. It answers nothing exactly when the first unit on the cell is not alive. |
| `AlexGameState.DeadUnitHidesLiveUnit` | the_alex_game.py:64-71 | A dead unit listed before a live one on the same cell hides the live one. |
| `AlexGameState.GameState.constructor` | the_alex_game.py:14-45 | A 16×10 world (`worldWidth` 16, `worldHeight` 10) with 10 ground rows of 16 tiles (5, 1). One live unit at (8, 9) with tile (1, 0) and orientation 0. No observers. The invariant holds: ground matches the world, and every unit is inside. |
| `AlexGameState.InitialUnitIsInside` | the_alex_game.py:27-30 | The initial unit satisfies `isInside`, is alive, and has orientation 0. |
| `AlexGameState.GameState.InsideIffGroundCell` | the_alex_game.py:33-52 | `isInside` holds iff 0 ≤ x < `worldWidth` and 0 ≤ y < `worldHeight`, which is exactly when the position has a ground tile. |
| `AlexGameState.GameState.OutsideFindsNoUnit` | the_alex_game.py:47-62 | While every unit is inside the world, lookup of a position outside it finds nothing. |
| `AlexGameState.GameState.FindUnit` | the_alex_game.py:54-62 | Returns the first unit in list order on the queried cell. Returns `None` iff no unit is on it. |
| `AlexGameState.GameState.FindLiveUnit` | the_alex_game.py:64-71 | Returns the `findUnit` answer when that unit is alive, and `None` otherwise. A returned unit is alive and on the cell. |
| `AlexGameState.GameState.AddObserver` | the_alex_game.py:73-78 | Appends the observer after all earlier ones. Changes nothing else, and keeps the state invariant. |
| `AlexGameState.GameState.NotifyUnitDestroyed` | the_alex_game.py:80-82 | Makes one `unitDestroyed(unit)` call per registered observer, in registration order, with the same unit each time. |
| `AlexGameState.TwoObserversAreNotifiedInOrder` | the_alex_game.py:73-82 | Two observers registered on a fresh state are each notified once, first before second. |
| `AlexGameLayers.TilesPartitionThePlane` | the_alex_game.py:117-127 | With a positive cell size, a screen pixel lies in an unrotated draw's area iff that cell is the pixel's cell. So unrotated tiles of different cells neither overlap nor leave gaps. Likewise each texture pixel belongs to exactly one tile rectangle. |
| `AlexGameLayers.NeighbouringTilesAbut` | the_alex_game.py:117-123 | `renderTile`'s arithmetic puts the next cell to the right or below exactly one cell width or height further on. The same holds for the next tile in the sprite sheet. |
| `AlexGameLayers.RowTilesFacts` | the_alex_game.py:159-162 | One row of the terrain traversal lists exactly the row's non-empty cells, with their tiles, left to right. |
| `AlexGameLayers.GridTilesFacts` | the_alex_game.py:158-162 | The terrain traversal lists exactly the non-empty cells of the world, each with its own tile, each once, in row-major order (y outer, x inner). |
| `AlexGameLayers.BlitsAt` | the_alex_game.py:160-162 | The terrain draws are one unrotated `renderTile` draw per visited cell, in visiting order. Each is at position·cellSize, with the tile·cellSize texture rectangle of one cell's size. |
| `AlexGameLayers.ArrayLayer.DrawRow` | the_alex_game.py:159-162 | The inner loop of a rebuild draws the non-empty cells of one row, left to right over the world's width. |
| `AlexGameLayers.ArrayLayer.DrawTerrain` | the_alex_game.py:158-162 | A rebuild draws exactly the terrain traversal: rows top to bottom over the world's height, each row by the inner loop. |
| `AlexGameLayers.RebuildsAppend` | the_alex_game.py:151-163 | Rebuild counts and cache state compose over concatenated sequences of `setTileset`/`render` calls. |
| `AlexGameLayers.Drive` | the_alex_game.py:151-163 | Running any sequence of `setTileset`/`render` calls on a layer rebuilds it exactly as often as `Rebuilds` counts for that sequence. It leaves the cache full iff `CachedAfter` says so, and the cache stays never stale. |
| `AlexGameLayers.RebuildsExactly` | the_alex_game.py:148-163 | The surface is rebuilt once by the first render when the cache starts empty, plus once for each tileset change directly followed by a render. There are no other rebuilds. |
| `AlexGameLayers.RebuildsAtMost` | the_alex_game.py:151-156 | There are never more rebuilds than tileset changes, plus one for an initially empty cache. |
| `AlexGameLayers.FramesRebuildOnce` | the_alex_game.py:155-157 | Any number of frames without a tileset change cause one rebuild from an empty cache and none from a full one. Rendering does not rebuild on every frame. |
| `AlexGameLayers.ArrayLayer.constructor` | the_alex_game.py:144-149 | Stores the tileset, state and grid. The cache starts empty. |
| `AlexGameLayers.ArrayLayer.SetTileset` | the_alex_game.py:151-153 | Installs the new cell size and texture and empties the cache. No rebuild happens. |
| `AlexGameLayers.ArrayLayer.Render` | the_alex_game.py:155-163 | Rebuilds only when the cache is empty, counting one rebuild, and leaves the cache full. A full cache is left as it was. What is drawn on the target is always the terrain for the current tileset. A rebuild draws every non-empty grid cell in row-major order over worldHeight × worldWidth. The cache invariant says it is never stale. |
| `AlexGameLayers.UnitsLayer.constructor` | the_alex_game.py:166-169 | Stores the tileset, state and unit list. |
| `AlexGameLayers.UnitsLayer.SetTileset` | the_alex_game.py:105-107 | Installs the new cell size and texture. |
| `AlexGameLayers.UnitsLayer.Render` | the_alex_game.py:171-173 | Makes one draw per unit, in list order. Each draw is at position·cellSize, takes the tile·cellSize texture rectangle of one cell's size, and uses the unit's orientation as the angle. |

Notes on the source:

- `findUnit` (the_alex_game.py:54-62) has no bounds test, so it returns a unit outside the world if one stands there. `GameState.Valid()` keeps every unit inside, and `OutsideFindsNoUnit` proves that lookup outside the world then finds nothing. This also needs whole-number query positions. The source compares `int()` of float coordinates, which truncates toward zero, so `findUnit(Vector2(-0.5, 3))` returns a unit at (0, 3) although `isInside` is false there. Positions in the model are integers.
- The docstrings of `findUnit`/`findLiveUnit` say they return an index. The code returns the unit, and so does the model.
- The rebuild's nested loop is written as two methods. `DrawTerrain` is the outer loop over rows, and `DrawRow` is the inner loop over one row's cells. The drawing order is the same.
- An orientation of 0 is not `None`, so `UnitsLayer.render` always takes the rotating branch of `renderTile`. The model records the angle on every unit draw.

## Left out

- Console I/O (`input`, `print`): typed input is a sequence of words, and the messages `render` prints are returned strings.
- The `input()` prompt (guess_the_number.py:25) and the "Please type a number without decimals!" message printed for a skipped word (guess_the_number.py:35): no member returns them. `ProcessInput` only skips the word.
- `random.randint`: the magic number is the `draw` parameter, which `Init` and `RunGame` require to be between 1 and 10.
- ParseInt: accepts only an optional `+`/`-` followed by one or more ASCII digits. Python's `int()` also accepts surrounding whitespace, underscores between digits and other Unicode digits; these are not modelled.
- End of input: Python's `input()` raises `EOFError` there and the program stops. The model reports this as `EndOfInput` from `ProcessInput` and `exhausted` from `RunGame`.
- The module-level `runGame()` call and the tile game's module-level launch: both are entry-point plumbing.
- All pygame calls: image loading, `Surface` creation (its size and flags), `blit`, `transform.rotate`, the display and the 60 Hz clock. A texture is identified by its image file name. A surface is the sequence of draws made on it. The final copy of the cached surface onto the target is the sequence `ArrayLayer.Render` returns.
- The rotation re-centring offset in `renderTile` (the_alex_game.py:129-138): it depends on the size of the surface `transform.rotate` returns. A rotated draw records the unadjusted screen point and the angle.
- `UserInterface` (the_alex_game.py:185-208): window and event-loop plumbing, built on a base class the source never defines.
- `Command`, `Layer.render` and `GameStateObserver` (the_alex_game.py:84-94, 140-141): they have no behaviour. Observers are handles, and what a real observer does in `unitDestroyed` is outside the model. Python's class hierarchy (`Layer` → `ArrayLayer`/`UnitsLayer`, `GameItem` → `Unit`) is flattened. Each layer class carries the base fields, and `Unit` is a synonym of `GameItem`.
- `GameItem.state` (the back-reference to the game state): no modelled operation reads it.
- Float `Vector2` coordinates and `int()` truncation: positions, tiles and cell sizes are integer pairs, and truncation is the identity on them.
- The row aliasing of `[[...] * 16] * 10`: the ground is an immutable grid.
- Aliasing between `UnitsLayer.units` and `GameState.units`: the layer holds its own copy of the unit list. Units are values, so a later status change made through one reference would not show in the other.
- AlexGameLayers.ArrayLayer.constructor: requires the grid to cover the world. Python accepts a smaller grid at construction and raises `IndexError` only when the first rebuild reaches a missing cell. The source stores the new surface in the cache before its drawing loops (the_alex_game.py:157). So after that `IndexError` the partly drawn surface stays cached, and later renders reuse it until `setTileset` is called. The model does not capture this.
