# Nuggets game server, modelled in Dafny

Nuggets is a multi-player treasure hunt played on a text map. A server
loads the map and scatters piles of gold on its room spots. Clients join as
players, or one of them as a spectator. Players move one cell at a time with
vi-style keys (`h j k l y u b n`), or run with the uppercase keys. They
collect gold, swap places when they walk into each other, and see only what
their line of sight allows. The game ends when the last pile is collected,
or when twenty-six players have joined and all of them have quit. Everyone
still connected then receives the summary of purses.

This project models the core of the server:

- `player.dfy` (module `Player`): the player record of `player.c`. It has a
  `class Player` whose fields the setters update in place. It also covers
  name normalisation and the summary line, with a round trip that parses
  the line back.
- `sight.dfy` (module `Sight`): the visibility test of `grid.c`
  (`grid_isVisiblePoint` and `grid_checkForVisiblePassage`) as a
  specification over exact reals. Lemmas cover the shape of the walk, the
  row and column cases, the neighbours, the endpoints and symmetry.
- `grid.dfy` (module `Grid`): the grid of `grid.c` as a `class Grid` over an
  `array<char>` master grid.
  - Its methods are proved against the functions of the module:
    `UpdateCell`, `VisibleView` and `Merge`.
  - The visibility walk is a `while` loop proved equal to
    `Sight.IsVisible`.
- `gamestate.dfy` (module `GameState`): the game of `game.c` as a state
  machine over values.
  - The state holds the master grid, the player records, the spectator, the
    gold counters and the notices sent.
  - Each operation of the game is a function, such as `Join`, `Watch`,
    `PlayerQuit`, `StepState`, `Broadcast` and `Finish`.
  - An invariant `Inv` ties them together. Each cell of the master grid is
    its terrain, gold on a room spot, or the letter of some joined player
    on a room spot or passage. Every joined player has a name, a valid
    address, a purse and a location on a room spot or passage. While the
    game runs, at least one pile is left, each pile holds at least a
    nugget, and every nugget is on the map or in a purse. The `…KeepsInv` lemmas prove each
    operation preserves it.
- `game.dfy` (module `Game`): `class Game` with the fields of `game_t`. Each
  method states its new state as the transition function of `GameState`
  applied to the old state (`Abs() == Join(old(Abs()), …)`).
- `server.dfy` (module `Server`): the message classification of
  `handleClientMessage` in `server.c`, and the dispatch to the game.
- `chars.dfy`, `message.dfy` and `wrappers.dfy` hold the `ctype.h`
  predicates, the notices clients receive (with `message_send` recorded as
  an outbox of mail), and `Option`.

`rand()` is not modelled as a generator. `grid_initialize` and
`grid_playerToGrid` choose a room spot by nondeterministic choice. Each gold
draw of `game_playerMove` is a parameter `roll`, supplied by an oracle
`random` in `Game.Game.PlayerMove`.

## Model

| member | source | states |
|---|---|---|
| Chars.ToLower | game.c:216 | `tolower`: an uppercase letter maps to its lowercase letter, and any other character is unchanged |
| Chars.Letter | game.c:109 | `'A' + i` for a player index below 26 is an uppercase letter whose offset from 'A' is i |
| Player.Player.constructor | player.c:176-185 | a new record has the given address and name, no grid, an empty purse, location -1 and status true |
| Player.NormalizeName | player.c:204-231 | the name is truncated to maxNameLength, and each character that is neither graphic nor blank becomes '_' |
| Player.NormalizedChanges | player.c:219-224 | a character is replaced exactly when it is neither graphic nor blank, so a name of graphic and blank characters within the bound is kept as it is |
| Player.NormalizedIdempotent | player.c:204-231 | a normalised name normalises to itself, and holds only graphic or blank characters |
| Player.NewPlayer | player.c:151-190 | the result is NULL exactly for an invalid address, a missing name or a negative length; otherwise it is a fresh record with the normalised name and the initial field values |
| Player.GettersSentinels | player.c:33-78 | each getter returns its sentinel for a missing record (NULL, -1 or false), and the field otherwise |
| Player.SetGrid | player.c:84-104 | succeeds exactly when the record and the new grid both exist, and only then replaces the grid |
| Player.AddPurse | player.c:107-117 | succeeds exactly for a named player and a positive amount; the purse grows by that amount and never shrinks; nothing else changes |
| Player.SetLoc | player.c:120-131 | succeeds exactly for a named player and a location inside its grid, and only then sets the location |
| Player.QuitGame | player.c:134-144 | succeeds exactly for a named player who is still playing, and the status becomes false |
| Player.Decimal | player.c:252 | the digits `%d` prints for a non-negative int: at least one, and all of them decimal digits |
| Player.DecimalRoundTrip | player.c:252 | reading the printed digits back gives the number |
| Player.SummaryLine | player.c:236-254 | the line is empty exactly for an index outside A..Z, a negative purse or an empty name |
| Player.SummaryAsWritten | player.c:236-254 | defines the line as the code writes it: the letter is `'A' + id` wrapped to an 8-bit `char`, so an id off by a multiple of 256 passes for a letter (`SummaryAsWrittenAgrees`, `SummaryLetterWraps`) |
| Player.SummaryRoundTrip | player.c:236-254 | a non-empty summary line parses back to the player's index, purse and name |
| Player.SummaryAsWrittenAgrees | player.c:239-241 | where `'A' + id` does not wrap around in a `char`, the code as written and the corrected line agree |
| Player.SummaryLetterWraps | player.c:239-241 | index 256 has no letter, yet the code as written prints the line of player A |
| Sight.WalkOf | grid.c:182-214 | the walk always starts from the lower of the two points, so it goes upward or along a row |
| Sight.WalkShape | grid.c:218-221 | the column after k steps is start + k·xinc. A vertical walk climbs one row per step, a walk along a row stays in it, and every walk stays between its start row and end row |
| Sight.WalkContinues | grid.c:220 | the loop goes on while fewer steps than the walk's length are done |
| Sight.WalkArrives | grid.c:261-263 | a step reaches the destination exactly when it is the last step of a walk that leaves its row |
| Sight.WalkExits | grid.c:220 | a walk along a row, or one with no steps, leaves the loop after its last step without the early return |
| Sight.WalkInGrid | grid.c:223-251 | every cell the walk reads (top, below, left and right) is a cell of the map |
| Sight.ClearToTheEnd | grid.c:220-266 | once every step is clear, the walk is a line of sight |
| Sight.BlockedStepHides | grid.c:229-256 | one blocked step hides the point |
| Sight.NeighbourVisible | grid.c:161-298 | the viewer's own cell and its eight neighbours are always visible |
| Sight.RowLineOfSight | grid.c:218-266 | along a row, the line of sight is clear exactly when no cell strictly between the two points blocks |
| Sight.RowVisibility | grid.c:161-298 | a point in the viewer's row is visible exactly when the cells between are clear and the passage rule lets it through |
| Sight.ColumnStep | grid.c:220-260 | a step up a column is blocked exactly when the cell it lands on blocks and is not the destination, or the cell it leaves blocks and is not the start |
| Sight.ColumnLineOfSight | grid.c:218-266 | along a column, the line of sight is clear exactly when no cell strictly between the two points blocks |
| Sight.StepIgnoresEndpoints | grid.c:229-255 | what the start cell and the end cell hold never decides whether a step is blocked |
| Sight.WalkIgnoresEndpoints | grid.c:220-266 | a whole walk does not depend on what its two endpoints hold |
| Sight.EndpointsNeverOcclude | grid.c:161-267 | a player or gold standing at either point does not change whether the line between them is clear |
| Sight.LineOfSightSymmetric | grid.c:187-193 | because the walk is normalised to start at the lower point, the line of sight is the same from either end |
| Sight.VisibleSymmetric | grid.c:161-267 | between two cells that are not passages, visibility goes both ways |
| Sight.PassageSightOneWay | grid.c:174-179 | the passage rule looks only at the map point: on a junction map, a viewer in a passage sees a room cell that cannot see it back |
| Grid.FirstLineLength | grid.c:52-53 | the length of the first line: no newline before it, and a newline (or the end of the text) at it |
| Grid.UpdateCell | grid.c:104-122 | with the index inside the map: '!' restores the terrain, a map character is written and reported as success, and anything else leaves the grid unchanged and fails |
| Grid.UpdateCellAsWritten | grid.c:104-122 | defines grid_updateMaster on the NUL-terminated buffer with the guard as written, which rejects only indices above N and so admits the terminator (`UpdateCellAsWrittenAgrees`, `UpdateCellOverwritesTerminator`) |
| Grid.UpdateCellKeepsTerminator | grid.c:104-122 | the corrected update never writes NUL, so the grid string keeps its length |
| Grid.UpdateCellAsWrittenAgrees | grid.c:104-122 | away from index N, the code as written behaves like the corrected update |
| Grid.UpdateCellOverwritesTerminator | grid.c:106 | as written, gold written at index N succeeds and overwrites the string's terminator |
| Grid.Decay | grid.c:319-322 | a remembered cell that is out of view loses its player, self and gold markers, and keeps every other character |
| Grid.ViewShape | grid.c:134-150 | the visible grid has the master grid's length, newlines in the last column, '@' at the player, and every other cell off the last column is the master cell exactly when it is visible from the player (`Sight.IsVisible`) and a blank otherwise |
| Grid.NeighboursInView | grid.c:126-157 | the cells around the player appear in its view as they are on the map |
| Grid.HiddenPassageInView | grid.c:174-179 | a passage junction away from the player shows as blank |
| Grid.MergeRemembers | grid.c:318-326 | a cell in view shows what is seen; a cell out of view shows the remembered cell, without players or gold |
| Grid.FadeIdempotent | grid.c:318-326 | merging again with the same view changes nothing |
| Grid.Grid.constructor | grid.c:71-78 | the grid holds the given sizes, text and master array |
| Grid.Grid.IsVisiblePoint | grid.c:161-267 | the walk loop returns exactly `Sight.IsVisible` on the current master grid |
| Grid.Grid.WalkIsClear | grid.c:218-266 | the loop answers true exactly when the walk is a line of sight |
| Grid.Grid.LandsOnBarrier | grid.c:223-239 | the first test of a step: the cell landed on (and the one below when the line falls between rows) blocks |
| Grid.Grid.CrossesBarrier | grid.c:243-260 | the second test of a step: some row crossed has blocking cells both left and right of the line |
| Grid.Grid.UpdateMaster | grid.c:104-122 | the master grid and the result are exactly `UpdateCell` of the old grid |
| Grid.Grid.BlankView | grid.c:134-143 | a fresh array of the master's length, with newlines in the last column and rock elsewhere |
| Grid.Grid.GetVisible | grid.c:127-157 | NULL exactly for an index outside 0..N; otherwise the visible view of the map from that index |
| Grid.Grid.UpdatePlayerGrid | grid.c:303-328 | NULL for a missing record; the known grid when the player is off the map; otherwise the view merged with the faded memory |
| Grid.Grid.PlayerToGrid | grid.c:333-347 | for a player and a letter: some room spot gets the letter, the player stands there, and its grid is its view; otherwise nothing changes |
| Grid.Initialize | grid.c:43-99 | the sizes come from the text, the pile count is within the bounds, and the master grid is the text with gold on that many distinct room spots |
| Grid.GridGettersSentinels | grid.c:370-409 | each getter returns its sentinel for a missing grid, and the field otherwise |
| GameState.TotalsKept | game.c:279-283 | rosters with the same purses and statuses have the same gold total and the same number of quits |
| GameState.TotalsUpdate | game.c:283 | replacing one record changes the totals by that record's difference |
| GameState.AllQuit | game.c:377-382 | when as many players have quit as joined, none is still playing |
| GameState.MasterPassages | grid.c:280-289 | passages of the master grid are passages of the terrain, so their four neighbours exist |
| GameState.StartOk | game.c:49-78 | a new game, with gold on some room spots, satisfies the invariant |
| GameState.Start | game.c:49-78 | defines a new game: the master grid with its piles, no players and no spectator, all 250 nuggets in the pool, nobody quit, not ended (`StartOk`) |
| GameState.Award | game.c:278-284 | the corrected draw is between 1 and maxInPile, and leaves at least a nugget for each later pile |
| GameState.AwardAsWritten | game.c:279-280 | defines the draw as written, `rand() % maxInPile + 1` with C's truncating `/` and `%`, and no draw at all when maxInPile is 0 (`DrawFits`, `GoldRunsOut`, `AwardFollowsDraw`) |
| GameState.AwardFollowsDraw | game.c:279-280 | whenever the draw as written leaves a nugget for every later pile, the corrected draw is the same |
| GameState.CollectedFollowsDraw | game.c:279-283 | a step onto a pile that is not the last collects exactly the draw as written whenever that draw has a divisor and leaves a nugget for every later pile |
| GameState.DrawFits | game.c:279-280 | a draw below the bound is taken whole |
| GameState.GoldRunsOut | game.c:278-284 | as written, starting from 250 nuggets in 18 piles, sixteen draws leave -20 nuggets for the last 2 piles, and the next draw divides by zero |
| GameState.KeyDelta | game.c:226-255 | a key in the switch moves by a non-zero offset of at most one row and one column |
| GameState.KeyDirection | game.c:226-255 | exactly the eight movement keys move; each moves by its row and column offset, never (0,0) |
| GameState.OppositeKeys | game.c:228-250 | h/l, j/k, y/n and u/b undo each other |
| GameState.StepIsNeighbour | game.c:226-255 | a step away from the ends of a row lands in a neighbouring row and column |
| GameState.FirstWith | game.c:195-202 | the index of the first player with the address, or -1 when no player has it |
| GameState.FirstActiveWith | game.c:371-389 | the index of the first player with the address who is still playing, or -1 |
| GameState.FirstWithAddresses | game.c:195-202 | lookups by address depend on the addresses only |
| GameState.InvFits | game.c:484-525 | in a valid state every player has a location on the map and a grid at least as long |
| GameState.Regrid | game.c:496-502 | regridding keeps the number of players |
| GameState.Broadcast | game.c:484-525 | defines updateAllPlayers: the spectator gets the master grid and, when gold moved, the gold left; then every player gets its merged view, a display and, when gold moved, a gold notice |
| GameState.FanoutNext | game.c:495-514 | the notices to the first i+1 players extend those to the first i by player i's notices |
| GameState.BroadcastOf | game.c:484-525 | the broadcast consists of the spectator's notices, then each player's new view and notices |
| GameState.FanoutLayout | game.c:495-514 | each player gets its display, and also its gold notice when gold moved |
| GameState.FanoutDisplays | game.c:495-514 | with no gold collected, the i-th notice is player i's display |
| GameState.FanoutPairs | game.c:495-514 | with gold collected, player i gets its display, then gold notice with its own purse; only the mover's notice shows the amount collected |
| GameState.BroadcastKeepsInv | game.c:484-525 | a broadcast changes only the remembered grids and the outbox, and keeps the invariant |
| GameState.QuitAllRecipients | game.c:457-462 | the summary reaches exactly the players still playing, and every such notice is the summary |
| GameState.Finish | game.c:441-476 | defines game_endGame: the game is over, and the summary goes to the players still playing and then to the spectator |
| GameState.FinishKeepsInv | game.c:441-476 | ending the game keeps the invariant and marks the game over |
| GameState.SummaryNext | game.c:448-454 | one more loop iteration appends player i's summary line |
| GameState.QuitAllNext | game.c:457-462 | one more loop iteration sends to player i only if it is still playing |
| GameState.FinishOf | game.c:441-476 | ending the game sends the summary to the players still playing, then to the spectator |
| GameState.LineWidth | game.c:443 | a summary line is at most fourteen characters longer than the name, while the purse has at most ten digits |
| GameState.GameOverFits | game.c:443-445 | the summary fits the buffer game_endGame allocates (header plus `14 + MaxNameLength` per player) |
| GameState.PurseBound | game.c:443-452 | no purse is larger than the total of the purses |
| GameState.PurseNonneg | game.c:443-452 | the total of the purses is never negative |
| GameState.Refusal | game.c:86-105 | defines the checks of game_newPlayer: no name or only blanks is refused first, a full game second, and anything else is let in |
| GameState.Refuse | game.c:86-105 | defines a refusal: the QUIT notice with its reason goes to the address and nothing else changes (`RefuseKeepsInv`) |
| GameState.RefuseKeepsInv | game.c:86-105 | turning a client away with a QUIT notice keeps the invariant |
| GameState.Seated | game.c:109-111 | the newcomer's letter is on its room spot, and the other records are unchanged |
| GameState.Join | game.c:106-121 | defines a join: the newcomer is seated and greeted, everyone already in the game gets a broadcast, and the newcomer joins with an empty purse and the view from its spot |
| GameState.JoinKeepsInv | game.c:106-121 | a join keeps the invariant: one more player at a room spot, with an empty purse, still playing, and the gold unchanged |
| GameState.JoinFields | game.c:106-121 | what a join makes of the master grid, the roster and the counters |
| GameState.SeatMaster | game.c:109-111 | the new letter on a room spot keeps the master grid sound for one more player |
| GameState.AppendSlot | game.c:111-121 | a newcomer with an empty purse keeps the roster sound and the totals unchanged |
| GameState.RegridKeeps | game.c:496-502 | regridding keeps each record's purse, status, address and location |
| GameState.Watch | game.c:144-182 | defines game_newSpectator: the old spectator is told to go, and the new one gets GRID, GOLD and DISPLAY of the master grid |
| GameState.Unwatch | game.c:419-436 | defines spectatorQuit: the spectator is told to go and removed; with no spectator nothing changes |
| GameState.WatchOf | game.c:143-182 | a new spectator replaces the old one, who is told to go; the new one gets GRID, GOLD and DISPLAY |
| GameState.WatchKeepsInv | game.c:143-182 | adding or removing the spectator keeps the invariant and sets the spectator |
| GameState.Leave | game.c:373-383 | defines playerQuit on the player found: its cell shows the terrain, it is marked quit and thanked, and then either the game ends (twenty-six have quit) or everyone gets a broadcast |
| GameState.Departed | game.c:374-377 | defines a departure: the player's cell shows the terrain again, its status turns false, it is thanked, and one more player has quit (`LeaveFits`) |
| GameState.LeaveFits | game.c:373-377 | removing the player's letter and marking it quit keeps the invariant |
| GameState.PlayerQuit | game.c:366-405 | defines playerQuit: an invalid address or no player still playing with it changes nothing; otherwise the first such player leaves |
| GameState.LeaveResult | game.c:366-405 | defines playerQuit's result: 1 for an invalid address or no player still playing with it, -1 when this departure makes twenty-six, 0 otherwise (`LeaveKeepsInv`, `LastQuitEndsGame`) |
| GameState.LeaveKeepsInv | game.c:366-405 | quitting keeps the invariant; result 1 changes nothing, and the game ends exactly when the result is -1 |
| GameState.LastQuitEndsGame | game.c:377-382 | quitting ends the game only when all twenty-six players joined and none is left playing |
| GameState.Disconnect | game.c:324-350 | defines game_clientQuit: an invalid address changes nothing, the spectator's address removes the spectator, and any other address quits a player |
| GameState.DisconnectResult | game.c:324-350 | defines game_clientQuit's result: 1 for an invalid address, 0 for the spectator, and playerQuit's result for any other address (`DisconnectKeepsInv`) |
| GameState.DisconnectKeepsInv | game.c:324-350 | a client quitting keeps the invariant; the game ends exactly on -1, and 1 changes nothing |
| GameState.NeverOrphan | game.c:262-267 | every letter on the map belongs to a joined player, so the fatal branch is never taken |
| GameState.MasterWrite | game.c:269-307 | writing a cell that suits its terrain keeps the master grid valid |
| GameState.RosterWrite | game.c:269-307 | replacing a record by a valid one keeps the roster valid |
| GameState.RelocatedKeeps | game.c:302-308 | walking to a free walkable cell keeps the map, the records and the totals sound |
| GameState.Relocated | game.c:302-308 | defines a walk: the cell left shows its terrain, the destination shows the player's letter, and the player's location is the destination (`RelocatedKeeps`) |
| GameState.AdvanceKeepsInv | game.c:302-308 | a step onto a room spot or passage keeps the invariant |
| GameState.CollectKeepsInv | game.c:276-297 | collecting a pile that is not the last keeps the invariant and every nugget counted |
| GameState.AwardedKeeps | game.c:279-283 | gold moving from the pool into a purse keeps every nugget counted |
| GameState.Awarded | game.c:281-283 | defines taking a pile of g nuggets: the pool has g fewer and one pile fewer, and the player's purse g more (`AwardedKeeps`) |
| GameState.SwapCells | game.c:269-270 | two letters trading places keep the master grid valid |
| GameState.SwapRecords | game.c:272-273 | the other player takes the mover's location, and the mover takes the destination |
| GameState.Swapped | game.c:268-273 | defines two players trading places: the mover's letter goes where the other stands, the other's letter where the mover stood, and the locations are exchanged (`SwapCells`, `SwapRecords`, `SwapKeepsInv`) |
| GameState.SwapKeepsInv | game.c:262-274 | a swap keeps the invariant |
| GameState.ShiftKeepsInv | game.c:262-308 | every step that moves the player keeps the invariant, the gold total included |
| GameState.Payout | game.c:286-289 | defines the last pile: every nugget left goes to the player, who is told; the pool is not reset |
| GameState.PayoutKeepsInv | game.c:286-292 | the last pile's payout keeps every part of the invariant except the gold total |
| GameState.LastPileKeepsInv | game.c:286-292 | taking the last pile ends the game in a valid state |
| GameState.PlanMove | game.c:226-304 | defines what a lowercase step meets: an unknown key, another player (or an unknown letter), a pile (the last one or not), a cell nobody can enter, or a room spot or passage |
| GameState.StepResult | game.c:226-309 | defines a lowercase step's result: 1 for an unknown key or a cell nobody may enter, -1 for the last pile or the fatal branch, and the broadcast's 0 otherwise (`BadKeyStops`, `MoveStep`, `StepKeepsInv`) |
| GameState.Misstep | game.c:204-209 | defines a key from an address of no player: the spectator, if it is the sender, gets the usage error, and otherwise nothing changes (`Game.Game.Scold`) |
| GameState.StepState | game.c:226-309 | defines one lowercase step: a refused key or a blocked cell changes nothing, the last pile pays out and ends the game, and any other step moves the player and is followed by the broadcast |
| GameState.Shift | game.c:262-308 | defines the move of a step that moves the player, before the broadcast: a walk, a pile that is not the last taken with the corrected draw and then a walk, or a swap (`AdvanceKeepsInv`, `CollectKeepsInv`, `SwapKeepsInv`, `ShiftKeepsInv`) |
| GameState.Collected | game.c:276-284 | defines the gold a step collects: the corrected draw for a pile that is not the last, and 0 for any other step (`CollectedFollowsDraw`) |
| GameState.PlanDest | game.c:226-258 | a step that reaches a cell goes by the key's offset and stays on the map |
| GameState.BroadcastStepped | game.c:309 | the broadcast after a step with result 0 keeps what a step promises |
| GameState.BroadcastShifted | game.c:309 | the broadcast after a move keeps the players, their addresses and the new location |
| GameState.MoveStep | game.c:262-309 | a step that moves the player returns 0, and is its move followed by the broadcast |
| GameState.MoveKinds | game.c:262-308 | the move and the gold collected by each kind of step |
| GameState.MoveKeepsInv | game.c:262-309 | a step that moves the player, with its broadcast, keeps the invariant |
| GameState.StepKeepsInv | game.c:226-309 | every lowercase step keeps the invariant; the game ends exactly on -1; result 1 changes nothing |
| GameState.StepKeepsGold | game.c:276-297 | a step that does not end the game neither creates nor loses gold |
| GameState.BadKeyStops | game.c:252-254 | a key outside the switch is refused with result 1 |
| GameState.UppercaseHidesGameEnd | game.c:216-225 | for any run whose last step takes the last pile, the game has ended, yet the result as written is 1 or 0 and only the corrected result is -1 |
| GameState.UppercaseResultAsWritten | game.c:216-225 | defines an uppercase key's result as written: 1 when no step returned 0, else 0, and never -1 (`UppercaseHidesGameEnd`) |
| GameState.UppercaseResult | game.c:216-225 | defines the corrected result of the finding: -1 when the step that stopped the run ended the game, otherwise the result as written (`UppercaseResultAgrees`, `MovedKeepsInv`) |
| GameState.UppercaseResultAgrees | game.c:216-225 | when the last step does not end the game, the corrected result and the one as written agree |
| GameState.RunDistance | game.c:218-220 | after a run, the player is one key offset further for each step that returned 0 |
| GameState.RunLastStays | game.c:218-220 | the step that stops a run leaves the player where it was |
| GameState.RunBadKey | game.c:218-225 | a run with a key that does not move stops at once, with nothing changed |
| GameState.RunAdvance | game.c:218-220 | every step of a run except the last moves the player by the key's offset |
| GameState.RunBound | game.c:218-220 | a run has fewer steps than the map has cells, so the uppercase loop terminates |
| GameState.RunKeeps | game.c:218-220 | every state of a run keeps the number of players, the spectator and the addresses |
| GameState.MovedKeepsInv | game.c:187-319 | a move keeps the invariant, the number of players and the spectator; the game ends exactly on -1, and result 1 leaves the map, the roster and the gold unchanged |
| GameState.RunEnd | game.c:216-225 | at the end of a run, the game is over exactly when the last step returned -1 |
| Game.HasLetter | game.c:90-97 | true exactly when the name has a character that is not blank |
| Game.Game.constructor | game.c:50-78 | for a map the game can run on (`MapOk`, see "Left out"), a new game is valid: the board comes from the map text, the pile count is within the bounds, and the state is the start state |
| Game.Game.SendOk | game.c:531-542 | an OK notice goes out to a valid address, and nothing else changes |
| Game.Game.SendGrid | game.c:548-566 | a GRID notice goes out for a valid address and positive sizes |
| Game.Game.SendGold | game.c:572-594 | a GOLD notice goes out for a valid address and counts that are not negative |
| Game.Game.SendDisplay | game.c:600-612 | a DISPLAY notice goes out for a valid address and an existing grid |
| Game.Game.UpdateOnePlayer | game.c:495-514 | one player gets its merged view, a display notice and (when gold moved) a gold notice |
| Game.Game.UpdateStep | game.c:495-514 | one loop iteration regrids player i and appends its notices; the other records are unchanged |
| Game.Game.UpdateSpectator | game.c:488-493 | the spectator gets the master grid and, when gold moved, the gold left |
| Game.Game.UpdatePlayers | game.c:495-514 | the loop leaves every player regridded and sends the fanout in order |
| Game.Game.UpdateAllPlayers | game.c:484-525 | the new state is the broadcast of the old one, and the result is 0 |
| Game.Game.FindPlayer | game.c:195-202 | the loop finds the first player with the address, or -1 |
| Game.Game.FindActive | game.c:371-389 | the loop finds the first player with the address who is still playing, or -1 |
| Game.Game.GameOverSummary | game.c:443-455 | the text built is the header followed by each player's summary line, in joining order |
| Game.Game.SendSummary | game.c:457-463 | the summary goes to each player still playing, in order |
| Game.Game.EndGame | game.c:441-476 | the new state is `Finish` of the old one |
| Game.Game.Announce | game.c:443-462 | the summary is the header and each player's line, and it goes to the players still playing; nothing else changes |
| Game.Game.Conclude | game.c:466-471 | the summary goes to the spectator, if there is one, and the game is over |
| Game.Game.SpectatorQuit | game.c:419-436 | succeeds exactly when there is a spectator, who is told to go and removed |
| Game.Game.NewSpectator | game.c:144-182 | succeeds exactly for a valid address; the new state is `Watch` of the old one |
| Game.Game.Welcome | game.c:153-164 | the new spectator gets GRID, GOLD and DISPLAY of the master grid and becomes the spectator; the roster is unchanged |
| Game.Game.PlayerQuit | game.c:366-405 | the result and the new state are those of `GameState.PlayerQuit` |
| Game.Game.LeaveAt | game.c:373-383 | the found player leaves: the result is -1 exactly when twenty-six have now quit, and the new state is `Leave` of the old one |
| Game.Game.Depart | game.c:374-377 | the found player's cell shows the terrain again, it is marked quit, thanked, and counted as quit |
| Game.Game.Thank | game.c:376-377 | the player is sent the QUIT thanks and the quit count grows by one; nothing else changes |
| Game.Game.Vacate | game.c:374-375 | only the player's cell changes in the master grid, back to its terrain, and only its status in the roster |
| Game.Game.ClientQuit | game.c:324-350 | the result and the new state are those of `Disconnect`: the spectator leaves if it is the sender, otherwise a player quits |
| Game.Game.NewPlayer | game.c:83-139 | succeeds exactly for a valid address that is not refused; refusals send a QUIT notice; a success is a join at some room spot with the normalised name |
| Game.Game.Screen | game.c:86-105 | the checks on the name and the player count, in the source's order, with the QUIT notice for each refusal |
| Game.Game.Reject | game.c:86-105 | a refused client gets the QUIT notice and nothing else changes |
| Game.Game.Send | game.c:87 | a QUIT or ERROR notice for the address is appended to the outbox, and nothing else changes |
| Game.Game.Admit | game.c:106-121 | the new state is `Join` of the old one, at a room spot and with the normalised name |
| Game.Game.Seat | game.c:107-116 | the newcomer's letter goes to a room spot, its record is written past the joined players with the normalised name, an empty purse and the view from there, and it is greeted |
| Game.Game.Place | game.c:107-111 | the newcomer's record with the normalised name and the view from a room spot, whose cell now shows the newcomer's letter; the roster is unchanged |
| Game.Game.Greet | game.c:113-116 | OK, GRID, GOLD and DISPLAY go to the newcomer, in that order |
| Game.Game.Enroll | game.c:121 | the count moves past the newcomer, and the roster gains its record |
| Game.Game.Enter | game.c:256-309 | a step to a computed destination: the result is `StepResult`, the new state is `StepState`, and the game is over exactly on -1 |
| Game.Game.Relocate | game.c:302-308 | the cell left shows the terrain, the destination shows the letter, and the player stands there |
| Game.Game.Arrive | game.c:302-309 | after the walk everyone gets the broadcast, and the result is 0 |
| Game.Game.Walk | game.c:302-309 | a step onto a room spot or passage is `StepState` and returns 0 |
| Game.Game.Collect | game.c:276-297 | a step onto a pile that is not the last is `StepState` and returns 0 |
| Game.Game.Pile | game.c:276-297 | a pile that is not the last is drawn and collected with result 0; the last one ends the game with -1 |
| Game.Game.Credit | game.c:283 | the player's purse grows by the amount, and nothing else changes |
| Game.Game.AwardPile | game.c:279-283 | the pool loses the pile and its nuggets, and the player's purse gains them |
| Game.Game.Gather | game.c:279-297 | the pile is awarded, the player walks onto it, and everyone gets the broadcast with result 0 |
| Game.Game.Trade | game.c:262-274 | a step into another player is `StepState` and returns 0 |
| Game.Game.SwapPlaces | game.c:269-273 | the two letters trade cells, and the two players trade locations |
| Game.Game.TradeLocations | game.c:272-273 | the other player takes the mover's location, and the mover takes the destination |
| Game.Game.Exchange | game.c:269-309 | the players trade places, and everyone gets the broadcast with result 0 |
| Game.Game.Finale | game.c:286-292 | a step onto the last pile pays out, ends the game and returns -1 |
| Game.Game.Pay | game.c:287-289 | every nugget left goes to the player, who is told; the state is `Payout` of the old one |
| Game.Game.Step | game.c:226-309 | one lowercase step: the result is `StepResult`, the new state is `StepState`, and the game is over exactly on -1 |
| Game.Game.PlayerMove | game.c:187-319 | a move from an address: a stranger is refused (a spectator is told it cannot move); a lowercase key is one step; an uppercase key repeats the step while it returns 0, with the corrected result of the game.c:216-225 finding (-1 when the last step ended the game) |
| Game.Game.Scold | game.c:204-209 | a key from an address of no player: the spectator, if it sent it, gets the usage error |
| Game.Game.Run | game.c:216-225 | a player's move is a single step, or a run of steps with the corrected result |
| Game.Game.First | game.c:218 | the loop's first call is one lowercase step: the game stays valid, has ended exactly when the step returned -1, and the step is a run of one from the state before it |
| Game.Game.Repeat | game.c:217-220 | the steps of the lowercase key, taken while each returns 0, form a run from the state before the move to the state after it, and the last of them returns non-zero |
| Game.Game.Continue | game.c:218-220 | after the first step, the loop steps again while the step returns 0, counts those steps, and ends with a step that returns non-zero |
| Game.Game.Again | game.c:218-219 | one more step extends the run by the state it leaves, and the steps that returned 0 are fewer than the cells of the map, so the loop ends |
| Server.Classify | server.c:148-227 | a message starting with "KEY " gets the format error exactly when its key part is not one character, and the keystroke error exactly for an unknown key; any other message gets the unexpected-message error exactly when it is none of PLAY, SPECTATE and KEY |
| Server.PrefixesDiffer | server.c:149-178 | no message matches two of the prefixes |
| Server.ClassifyRequest | server.c:148-220 | every request is read back as itself |
| Server.RequestClassify | server.c:148-220 | a message that is not answered with an error is exactly the request for its command |
| Server.MoveKeysStep | server.c:193-196 | the sixteen keys passed to the game are exactly those whose lowercase form is in the game's switch |
| Server.HandledStops | server.c:199-210 | handling a message keeps the invariant, and the loop stops exactly when the game has ended |
| Server.HandleMessage | server.c:131-232 | the state after a message is what `Handled` prescribes for its command; an invalid address changes nothing |
| Server.HandlePlay | server.c:150-163 | a PLAY message joins or refuses the sender with the rest of the message as the name, and never stops the loop |
| Server.HandleSpectate | server.c:166-174 | a SPECTATE message makes the sender the spectator, and never stops the loop |
| Server.HandleMove | server.c:193-202 | a movement key moves the sender, and the loop stops exactly when the move returned -1, with the corrected result of the game.c:216-225 finding for an uppercase key |
| Server.HandleError | server.c:185-227 | an error reply goes to the sender, and nothing else changes |

## Left out

- Reading the map file, `malloc` failures, `free`, `player_delete` and `grid_delete`: Dafny has no file I/O or deallocation. The map arrives as a string.
- `main`, `parseArgs` and the message loop of `server.c`: these are process and network plumbing. `message_send` is modelled as appending a mail to an outbox.
- Bytes and characters: the C strings are byte strings, and each Dafny `char` of the model stands for one byte of them. `normalizeName`'s truncation and `isgraph`/`isblank` (player.c:204-231) work on bytes, so a multi-byte UTF-8 character in a name counts as several bytes toward the length bound and becomes several `_`. The model gets the same result only if the name is given to it byte by byte; a Dafny string holding a non-ASCII character as one `char` counts it once and replaces it with a single `_`.
- Logging to stderr and stdout, including the stray `printf("default")` in `game_playerMove`.
- Notice text formatting: the exact `OK`, `GRID`, `GOLD` and `DISPLAY` strings are modelled as structured notices. So the model does not capture that `sendGold` prints each count into a three-byte buffer (game.c:575-580), which any count of 100 or more overflows, the 250 nuggets of the first `GOLD` notice included.
- `rand()`: the draws are parameters or nondeterministic choices. The loops that retry until a room spot is found become a choice of some room spot, under the precondition that one exists (the C loops never end when none does).
- Floating point: the `float` walk of `grid_isVisiblePoint` uses exact reals. `x < ErrorMargin` is read as `x <= 0`, and `x > ErrorMargin` as `x > 0`.
- Index N = numRows·numColumns: `grid_isVisiblePoint` and `grid_getVisible` accept it, and the walk would then read past the map. `Grid.Grid.IsVisiblePoint` and `Grid.Grid.GetVisible` require a point inside the map.
- Game.Game.constructor: requires the map text to be rows of equal width ending in newlines, to have at least as many room spots as the most piles, and to satisfy `MapOk`: no letters and no `*` in the terrain, and every room spot or passage far enough from both ends of the map that a step in any of the eight directions stays on it. `game_new` (game.c:50-78) loads any map file. On a map with letters in the terrain the C code takes those letters for players (game.c:262-267); on a map with a room spot or passage next to its edges a step or the passage test reads outside the map.
- Grid.Grid.IsVisiblePoint: requires passage cells to have a row above and below them, since the passage test reads all four neighbours. Every map the constructor accepts (`MapOk`) satisfies this (`GameState.MasterPassages`).
- Game.Game.PlayerMove: requires a spectator when the address belongs to no player. The C code dereferences the spectator without a check (game.c:205).
- NULL game and NULL address arguments: no caller passes them, so they are not modelled. An invalid address is `Message.NoAddr`, and a missing name or grid is `None`.
- GameState.Payout: the last pile does not set `nuggetsRemaining` to 0. The code leaves the count as it was (game.c:286-292), and the model follows the code, so the gold total is dropped from the invariant once the game is over.
- After `game_endGame`, the game and its players are freed. Using them afterwards is undefined in C: a second `endGame`, or the next message that server.c's message loop hands to the freed game after an uppercase move took the last pile and returned 0 or 1. Here the game is marked ended, and nothing may step it further.
- `player_summary` returns a string literal for an empty line, which `game_endGame` then frees. That line is never produced for a joined player (`Player.SummaryLine`), so the model does not represent it.
- GameState.StepState: a step onto a pile that is not the last awards the corrected draw `Award`, capped so that a nugget is left for every later pile, and not the draw of game.c:279-283, `rand() % maxInPile + 1`, which has no cap. The two agree whenever the draw as written leaves a nugget for every later pile (`GameState.CollectedFollowsDraw`). Where they differ, the C program can drain the pool, pay a later pile with a negative pool or divide by zero (`GameState.GoldRunsOut`). The model keeps the invariant that every pile left holds a nugget, which the code as written does not keep.
- Game.Game.Pile: draws as `GameState.StepState` does, with the corrected draw (game.c:279-283 has no cap).
- Game.Game.Collect: awards the corrected draw of `Game.Game.Pile`.
- Game.Game.Step: a step onto a pile that is not the last awards the corrected draw.
- Game.Game.PlayerMove: a pile step awards the corrected draw, not the uncapped draw as written.
- GameState.CollectKeepsInv: proved for the corrected draw; the draw as written does not keep the gold part of the invariant.
- GameState.ShiftKeepsInv: the gold part rests on the corrected draw.
- GameState.MoveKinds: the gold it states for a pile that is not the last is the corrected draw.
- GameState.StepKeepsInv: proved for a step with the corrected draw.
- GameState.MovedKeepsInv: its gold part holds for runs with the corrected draw.
- A player who has quit can still move, and reappears on the map, because `game_playerMove` never checks the status. The model follows the code.

## Findings

| source | as written | input that shows it | evidently intended | confidence | as-written member | corrected member |
|---|---|---|---|---|---|---|
| grid.c:106 | `idx > numColumns*numRows` accepts idx == N, so a write there overwrites the terminating NUL | `grid_updateMaster(grid, N, '*')` returns true and leaves the master string without a terminator | reject every index from N up: `idx >= numColumns*numRows` | not executed | Grid.UpdateCellOverwritesTerminator | Grid.UpdateCell |
| game.c:278-284 | a pile draws up to `10 + nuggets/piles` with no floor, so the pool can run dry before the last pile | 250 nuggets in 18 piles, with sixteen draws each below the bound, leaves -20 nuggets for 2 piles; a later draw then has `maxInPile == 0` and divides by zero | draw at most what leaves a nugget for every later pile | not executed | GameState.GoldRunsOut | GameState.Award |
| player.c:239-241 | the letter `'A' + id` is computed in a `char`, so it wraps around | `player_summary(p, 256)` prints a line for player 'A' | refuse every index outside 0..25 | not executed | Player.SummaryLetterWraps | Player.SummaryLine |
| game.c:216-225 | an uppercase move returns 1 or 0 according to its count of steps that returned 0, even when the last step returned -1 | an uppercase key whose run ends on the last pile returns 0 (or 1 if that was the first step), so the server keeps going after the game has ended | return -1 when the last step ended the game | not executed | GameState.UppercaseHidesGameEnd | GameState.UppercaseResult |
