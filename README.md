# Game of Life and Death starter bot, modelled in Dafny

This project models the core of the C# starter bot for the Riddles.io game
"Game of Life and Death". The bot reads engine lines of the form
`settings <key> <value>`, `update game <key> <value>`,
`update <player> <key> <value>` and `action move <time>`. It keeps the game
state those lines describe. On `action move` it answers with one move,
`kill x,y` or `birth x,y x,y x,y`, or it ends with an exception. The move
classes can also write `pass`, but on a board the bot has mapped that answer
never happens.

The model has four parts:

- **Board** (`board.dfy`, `Field/Field.cs`). The `Field` class keeps a
  `Width x Height` array of cell tokens. `ParseFromString` fills that array
  row by row from a comma-separated snapshot. `GetCellMapping` scans the array
  column by column and groups every point under the token of its cell.
  Both methods are imperative Dafny over an `array2`. They are proved against
  the functions `ParseField` and `CellMapping`. The lemmas state what the
  mapping holds: each list is non-empty and in scan order, and it holds
  exactly the points whose cell has that token.
- **Moves** (`moves.dfy`, `Move/BirthMove.cs`). The text of a move.
  `BirthMoveToString` is the builder loop. A parser `ParseMove` is added as
  its inverse, and the round trip is proved.
- **Starter** (`starter.dfy`, `Bot/BotStarter.cs`). The random strategy:
  - a fair coin chooses a birth move or a kill move;
  - a birth move takes a random dead cell and two different own cells;
  - the kill move picks a random living cell of either player.
  The code has fallbacks for empty lists, but the cell mapping never holds an
  empty list: a token that is absent has no key at all, and looking it up
  throws. So the only fallback that happens is that the birth move becomes a
  kill move when the bot owns exactly one cell. The bot never passes.
  The generator is replaced by the samples in [0, 1) it would have produced.
- **Parser** (`parser.dfy`, `Bot/BotParser.cs`). The class `BotParser` holds
  the game state, with the fields of `BotState` flattened into it. It has one
  method per handler, each proved against a pure function of the state
  (`Settings`, `GameData`, `PlayerData`, `Step`, `Run`).

Shared pieces:

- `text.dfy`: `String.Split`, integer text, `int.Parse` on 32-bit integers,
  and unchecked 32-bit arithmetic.
- `wrappers.dfy`: `Option`, `Result`, and the .NET exceptions the core can
  throw (`Runtime.Fault`).
- `scenarios.dfy`: worked examples on a 2 x 2 board and a five-line session.

An exception that the C# code lets escape becomes an `Err` value, or a
`Crashed` reply from the parser. An exception it catches becomes the
diagnostic line it writes to standard error.

## Model

| member | source | states |
|---|---|---|
| Board.Field.constructor | Field/Field.cs:30-37 | A new field has no ids, zero width and height, and a null grid |
| Board.Field.ParseFromString | Field/Field.cs:42-58 | The new field equals `ParseField` of the old one: a negative dimension throws before the grid is touched; otherwise a fresh grid holds token `y*Width+x` at (x, y), null past the last token, and a snapshot with more tokens than cells throws |
| Board.Field.FillRows | Field/Field.cs:45-57 | The fill loop writes exactly `Parsed(tokens)` into the array, and it throws exactly when there are more tokens than cells |
| Board.Field.ReadCell | Field/Field.cs:71 | Reading `Cells[x,y]` as a key: a null grid, an index outside the array, and a null cell each give their own exception |
| Board.Field.GetCellMapping | Field/Field.cs:63-83 | The method returns `CellMapping` of the field: the fold over all points in column-major order, stopping at the first exception |
| Board.Field.GroupColumn | Field/Field.cs:69-79 | The inner loop over one column extends the grouping of the columns before it by that column's points |
| Board.GroupOntoAppend | Field/Field.cs:67-80 | Grouping a longer scan is the same as carrying on from the grouping of its prefix |
| Board.ScanMembership | Field/Field.cs:67-69 | The loops visit exactly the points with 0 <= x < Width and 0 <= y < Height |
| Board.ScanOrdered | Field/Field.cs:67-69 | The loops visit points column by column, each once, Width*Height points in all |
| Board.GroupSucceeds | Field/Field.cs:71-78 | The mapping is built exactly when every visited cell can be read as a key |
| Board.GroupFault | Field/Field.cs:71-73 | A failed mapping fails with the exception of one of the visited cells |
| Board.GroupFaultPersists | Field/Field.cs:67-80 | Once a cell throws, no later cell changes the outcome |
| Board.GroupIsPointsWith | Field/Field.cs:73-78 | Each list of the mapping equals the independent definition `PointsWith`: the visited points whose cell holds that token, in visit order; no list is empty |
| Board.GroupKeys | Field/Field.cs:73-76 | A token is a key exactly when some visited cell holds it |
| Board.PointsWithOrdered | Field/Field.cs:78 | Points are appended in visit order, so every list is in column-major order |
| Board.GroupTotal | Field/Field.cs:73-78 | The lists together hold as many points as were visited |
| Board.MappingLists | Field/Field.cs:63-83 | For a whole field: no list is empty; a point is in a token's list exactly when it is on the board and its cell holds the token; every list is in scan order |
| Board.ParsedAt | Field/Field.cs:48-56 | The k-th token lands in column `k % Width` and row `k / Width` |
| Board.ParsedCell | Field/Field.cs:48-56 | Cell (x, y) of a parsed grid holds token `y*w+x`, or is null past the last token |
| Board.FullParseCells | Field/Field.cs:42-58 | A snapshot with exactly Width*Height tokens parses without exception, and each cell holds its row-major token |
| Board.ParseThenMap | Field/Field.cs:42-83 | After a full snapshot, the mapping succeeds, puts each point under exactly the token at its row-major position, and holds Width*Height points |
| Board.ParseThenMapKeys | Field/Field.cs:42-83 | After a full snapshot, the keys of the mapping are exactly the tokens of the snapshot |
| Board.ShortSnapshotBreaksMapping | Field/Field.cs:48-78 | A snapshot with fewer tokens than cells parses without exception, but the mapping then throws on the null cell (`ArgumentNullException`) |
| Moves.BirthMoveToString | Move/BirthMove.cs:38-48 | The builder loop yields `MoveText` of the birth move: the label, the birth point, then each sacrifice point, separated by single spaces |
| Moves.MoveTextFields | Move/BirthMove.cs:38-48 | Splitting a move's text on spaces gives back its fields, 2 + the number of sacrifices for a birth move |
| Moves.PointRoundTrip | Move/BirthMove.cs:40 | The text "x,y" of a point with 32-bit coordinates parses back to that point |
| Moves.PointsRoundTrip | Move/BirthMove.cs:42-45 | A list of point texts parses back to the list of points |
| Moves.MoveRoundTrip | Move/BirthMove.cs:38-48 | Every move with 32-bit coordinates is recovered from its text by `ParseMove` |
| Moves.BirthWithoutSacrifices | Move/BirthMove.cs:40-45 | With no sacrifices the text is the label and the birth point only |
| Moves.WireExamples | Move/BirthMove.cs:38-48 | The texts of a pass, of a kill at (3,4) and of a birth at (0,0) sacrificing (1,1) and (2,2) |
| Starter.RandomNext | Bot/BotStarter.cs:77 | `Random.Next(n)` on a sample gives an index in [0, n) |
| Starter.Draw | Bot/BotStarter.cs:80-86 | Drawing without replacement takes exactly one point per draw, and the rest are left |
| Starter.DrawPermutes | Bot/BotStarter.cs:80-86 | The points taken and the points left together are exactly the own cells drawn from, with no point lost or duplicated |
| Starter.DoRandomBirthMove | Bot/BotStarter.cs:66-89 | The method returns `RandomBirthMove`: the lookups of "." and the own id, the fallback to the kill move, the birth point and the two sacrifices drawn from a copy of the own cells |
| Starter.DoMove | Bot/BotStarter.cs:45-60 | The method returns `Decide` of the field: its cell mapping, then a birth move when the coin is below one half and a kill move otherwise |
| Starter.RemoveAtIndex | Bot/BotStarter.cs:85 | After `RemoveAt(i)` the j-th element is the old j-th before i and the old (j+1)-th from i on |
| Starter.KillMoveOutcomes | Bot/BotStarter.cs:94-108 | The kill move throws exactly when a lookup throws; it passes exactly when both players have no cells; a kill targets one of either player's cells; it never births |
| Starter.BirthMoveOutcomes | Bot/BotStarter.cs:66-89 | No "." key throws `KeyNotFound`; a failed own lookup throws its exception; it births exactly when there is a dead cell and two own cells, and otherwise returns exactly the kill move on the first draw; a birth takes a listed dead cell and own cells at two different list positions |
| Starter.TwoDraws | Bot/BotStarter.cs:80-86 | Two draws without replacement take the elements at two different positions |
| Starter.KillRespectsBoard | Bot/BotStarter.cs:94-108 | A kill chosen from a field's mapping targets an on-board cell that holds the bot's or the opponent's id |
| Starter.BirthRespectsBoard | Bot/BotStarter.cs:66-89 | A birth chosen from a field's mapping is on a dead on-board cell and sacrifices two different on-board cells of the bot |
| Starter.MoveRespectsBoard | Bot/BotStarter.cs:45-108 | Any move `DoMove` returns is never a pass, and it respects the board as above |
| Starter.BirthFallbackOnBoard | Bot/BotStarter.cs:72-75 | On a field's mapping, the birth move falls back exactly when the bot has fewer than two cells, which then means exactly one, and the fallback is the kill move on the first draw |
| Starter.KillFailsWithoutOpponentCells | Bot/BotStarter.cs:97-98 | When the coin selects the kill move and the opponent has no cell on the board, `DoMove` throws `KeyNotFoundException` |
| Starter.BirthFailsWithoutDeadCells | Bot/BotStarter.cs:50-69 | When the coin selects the birth move and no cell on the board is dead, `DoMove` throws `KeyNotFoundException` at the lookup of "." |
| Starter.DecideSucceeds | Bot/BotStarter.cs:45-108 | When the mapping succeeds and has keys for ".", the bot's id and the opponent's id, `DoMove` returns a move |
| Parser.BotParser.constructor | Bot/BotParser.cs:36-40 | A new parser holds the initial state and a fresh field |
| Parser.BotParser.ParseSettings | Bot/BotParser.cs:85-129 | The new state and diagnostic equal `Settings` of the old state |
| Parser.BotParser.AddPlayerNames | Bot/BotParser.cs:99-103 | The players become `AddPlayers` of the split names, and a duplicate name is reported; the other fields are unchanged |
| Parser.BotParser.ParseGameData | Bot/BotParser.cs:134-155 | The new state and diagnostic equal `GameData` of the old state |
| Parser.BotParser.ParsePlayerData | Bot/BotParser.cs:160-191 | The new state and diagnostic equal `PlayerData` of the old state |
| Parser.BotParser.HandleLine | Bot/BotParser.cs:51-78 | The new state and reply equal `Step` of the old state on the line |
| Parser.BotParser.RunLines | Bot/BotParser.cs:45-80 | The final state and the replies equal `Run` of the old state over all lines |
| Parser.AddPlayersPrefix | Bot/BotParser.cs:99-103 | `player_names` adds a prefix of the names as fresh players and keeps the players before; all names are added exactly when none clashes; otherwise the first one left out is already present |
| Parser.BotIdSetting | Bot/BotParser.cs:107-110 | `your_botid` with a 32-bit id sets the bot's id to its text and the opponent's id to `2 - (id + 1)`, with no diagnostic |
| Parser.OpponentSwaps | Bot/BotParser.cs:109 | Without wrap-around the opponent of id v is 1 - v, so the ids 0 and 1 swap |
| Parser.OpponentOfZeroAndOne | Bot/BotParser.cs:109 | The opponent of 0 is "1" and of 1 is "0" |
| Parser.BotIdWraps | Bot/BotParser.cs:109 | At the largest id the unchecked sum wraps around |
| Parser.BotIdNotANumber | Bot/BotParser.cs:107-110 | The bot's id is set before the value is parsed; a non-number keeps the opponent's id and is reported |
| Parser.TimebankTogether | Bot/BotParser.cs:91-95 | `timebank` sets the time bank and its maximum to the same value, or changes nothing and is reported; a value that parses sets both to it with no report, and one that does not is reported |
| Parser.IntegerSettingRejected | Bot/BotParser.cs:91-128 | A value that is not a 32-bit integer leaves the state unchanged for every integer setting and is reported |
| Parser.UnknownKeysIgnored | Bot/BotParser.cs:120-183 | An unknown key changes nothing in any of the three handlers and is reported |
| Parser.PlayerDataEffects | Bot/BotParser.cs:160-191 | An unknown player changes nothing and is reported; only the named player changes; a cell count that parses is stored with no report; one that does not changes nothing and is reported; a move is stored as given |
| Parser.FieldUpdate | Bot/BotParser.cs:143-144 | `update game field` replaces only the grid; it is reported exactly when a dimension is negative or there are more tokens than cells |
| Parser.DecidedMoveInInt32 | Bot/BotParser.cs:71 | On a field with 32-bit dimensions every coordinate of the chosen move is a 32-bit integer |
| Parser.StepEffects | Bot/BotParser.cs:51-78 | Only `settings` and `update` lines change the state; only `action move` writes a response; any other command is reported as unknown |
| Parser.StepKeepsDimensions | Bot/BotParser.cs:111-116 | Width and height are only set from parsed 32-bit integers, so every line keeps them within 32 bits, as `Parser.MoveReply` requires |
| Parser.MoveReply | Bot/BotParser.cs:68-73 | Any line whose first two words are `action move`, such as `action move <time>`, keeps the state; it crashes exactly when `DoMove` throws; otherwise it writes one line that parses back to the chosen move, which is never a pass |
| Text.JoinSplit | Bot/BotParser.cs:51 | Joining the parts of a split with the separator gives back the line |
| Text.SplitJoin | Bot/BotParser.cs:51 | Splitting a join of parts without the separator gives back the parts |
| Text.ParseIntText | Bot/BotParser.cs:109 | `int.Parse` reads back the text of every 32-bit integer |
| Text.Wrap32 | Bot/BotParser.cs:109 | Unchecked arithmetic gives a 32-bit value congruent to the exact one, and leaves 32-bit values as they are |
| Scenarios.KillOnSmallBoard | Bot/BotStarter.cs:94-108 | On the board `. . / 0 1`, the kill move hits (0,1) or (1,1) depending on the draw |
| Scenarios.BirthOnSmallBoard | Bot/BotStarter.cs:66-89 | On the board `. 0 / 0 1` with given samples, the birth move is at (0,0) and sacrifices (1,0) then (0,1) |
| Scenarios.OpponentGoneCrashes | Bot/BotStarter.cs:94-98 | On a board without the opponent's cells, the kill move throws `KeyNotFoundException` |
| Scenarios.Session | Bot/BotParser.cs:45-80 | Five engine lines (id, width, height, field, action move) leave the parsed 2 x 2 field and produce only the reply "kill 1,1" |

## Left out

- Console input and output: lines arrive as a sequence, and replies and diagnostics are returned as values. The order of standard output and standard error is not modelled.
- The `System.Random` algorithm: each move gets the samples in [0, 1) the generator would yield. `Random.Next(n)` is taken as `(int)(sample * n)`. The generator's state between moves is not modelled.
- `int.Parse` accepts an optional sign and ASCII digits within the 32-bit range. Surrounding whitespace, culture-specific signs and non-ASCII digits are not modelled.
- `Player.cs`, `BotState.cs`, `AbstractMove`, `KillMove`, `PassMove`, `MoveType` and `Point` are not part of this model. The model assumes what they provide: a new player with no cells and no previous move, and the state's fields.
- The move labels and the point format are assumptions. `BirthMove.ToString` calls `MoveType.ToString()` (Move/BirthMove.cs:33,40), `BotParser` calls `MoveType.Pass.ToString()` (Bot/BotParser.cs:72), and `AbstractMove.PointToString` formats points. None of those is part of this model. The model assumes the lowercase labels "pass", "kill" and "birth" and the point text "x,y" that the engine reads. If `MoveType` is a plain C# enum, its `ToString` gives "Birth" and "Pass" instead.
- Player objects are shared by reference in the source. Here they are values in a map, which is the same for the updates the parser makes.
- The `?? Pass` fallback on a null move is not reachable, because `DoMove` never returns null. `Parser.MoveReply` shows that every reply is a move's text.
- `Moves.ParseMove` and `Moves.ParsePoint` are not in the source. They are an inverse added so that the move text can be specified by a round trip.
- The strategy can throw, although the comment at Bot/BotStarter.cs:41-43 presents it as always performing a birth or a kill move. The mapping has no key for a token that is absent from the board, so each lookup can throw `KeyNotFoundException`. The code does this, so the model does too:
  - the birth branch throws at the lookup of "." when the board has no dead cell (`Starter.BirthFailsWithoutDeadCells`);
  - either branch throws at the lookup of the bot's id when the bot has no cell;
  - the kill branch throws at the lookup of the opponent's id when the opponent has no cell (`Starter.KillFailsWithoutOpponentCells`);
  - so a board with no living cell throws instead of passing.
- The fallbacks for empty lists (no dead cell in the birth move, no living cell in the kill move) are modelled as written, but they are not reachable from `DoMove`, since no list in a mapping is empty (`Board.MappingLists`).
- The single `foreach` of `ParseFromString`, with its x and y counters, is the method `FillRows`. The inner loop of `GetCellMapping` is the method `GroupColumn`. Each has its own small contract. The steps and their order are those of the source.
- The `time` argument of `action move` and the timebank bookkeeping during a move are not used by the core and are not modelled.
