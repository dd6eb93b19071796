/**
 * The game structure of game.c: the grid, the array of up to twenty-six
 * players in joining order, the spectator, the counters, and the notices
 * sent so far. Every operation is proved to take the abstract state
 * `Abs()` to the state the matching function of module GameState gives,
 * so that the invariant and the properties proved there carry over.
 */
module Game {
  import opened Wrappers
  import opened Chars
  import opened Message
  import opened Sight
  import opened Grid
  import opened Player
  import PlayerRecord = Player
  import opened GameState

  /** The scan of game_newPlayer for a character that is not blank. */
  method HasLetter(name: string) returns (r: bool)
    ensures r <==> Named(name)
  {
    var i := 0;
    while i < |name|
      invariant 0 <= i <= |name|
      invariant forall j :: 0 <= j < i ==> IsBlank(name[j])
    {
      if !IsBlank(name[i]) {
        return true;
      }
      i := i + 1;
    }
    return false;
  }

  /** A player record as the abstract state sees it. */
  function SlotOf(p: Player): Slot
    reads p
  {
    Slot(p.address, p.name, p.purse, p.location, p.status, p.grid)
  }

  class Game {
    const grid: Grid
    const playerArray: array<Player?>
    var spectator: Player?
    var nextPlayerNumber: int
    var numPlayersQuit: int
    var pilesRemaining: int
    var nuggetsRemaining: int
    /** Every notice message_send has been given, in order. */
    var outbox: seq<Mail>
    /** game_endGame has run: the game and its players are freed. */
    ghost var ended: bool

    /** The joined players. */
    function Players(): set<Player?>
      reads this`nextPlayerNumber, playerArray
    {
      set j | 0 <= j < nextPlayerNumber && j < playerArray.Length :: playerArray[j]
    }

    /**
     * The array holds the joined players, each once, in its first entries.
     * The entry at `nextPlayerNumber` is written by a join before the count
     * moves past it, so nothing is said of the entries from there on.
     */
    predicate Linked()
      reads this`nextPlayerNumber, playerArray
    {
      playerArray.Length == MaxPlayers && 0 <= nextPlayerNumber <= MaxPlayers
      && (forall j :: 0 <= j < nextPlayerNumber ==> playerArray[j] != null)
      && (forall j, k :: 0 <= j < k < nextPlayerNumber ==> playerArray[j] != playerArray[k])
    }

    /** The records of the joined players, in joining order. */
    function Roster(): (s: seq<Slot>)
      requires Linked()
      reads this`nextPlayerNumber, playerArray, Players()
      ensures |s| == nextPlayerNumber && forall j :: 0 <= j < nextPlayerNumber ==> s[j] == SlotOf(playerArray[j])
    {
      var a := playerArray;
      assert forall j :: 0 <= j < nextPlayerNumber ==> a[j] in Players();
      seq(nextPlayerNumber, j requires 0 <= j < a.Length && a[j] != null reads a, if 0 <= j < a.Length then {a[j]} else {} => SlotOf(a[j]))
    }

    function SpectatorAddr(): Option<Addr>
      reads this`spectator, spectator
    {
      if spectator == null then None else Some(spectator.address)
    }

    function Master(): seq<char>
      reads grid.masterGrid
    {
      grid.masterGrid[..]
    }

    function Board(): GameState.Board
    {
      GameState.Board(grid.numRows, grid.numColumns, grid.originalGrid)
    }

    ghost function Abs(): State
      requires Linked()
      reads this, playerArray, Players(), grid.masterGrid, spectator
    {
      State(Master(), Roster(), SpectatorAddr(), pilesRemaining, nuggetsRemaining, numPlayersQuit, outbox, ended)
    }

    /** The spectator is a record of its own with a valid address. */
    predicate SpectatorOk()
      reads this`nextPlayerNumber, this`spectator, playerArray, spectator
    {
      spectator != null ==> spectator !in Players() && IsAddr(spectator.address)
    }

    /** The structure around the abstract state. */
    predicate Shape()
      reads this`nextPlayerNumber, this`spectator, playerArray, spectator
    {
      grid.Valid() && Linked() && SpectatorOk()
    }

    ghost predicate Valid()
      reads this, playerArray, Players(), grid.masterGrid, spectator
    {
      Shape() && Inv(Abs(), Board())
    }

    /**
     * game_new on the text of a map file: the grid with its gold piles, an
     * empty array of players, no spectator and every nugget on the map. The
     * map must have room spots for the most piles and its terrain must be
     * one the game can run on.
     */
    constructor (text: string)
      requires IsMapText(text) && GoldMaxNumPiles <= multiset(text)['.']
      requires FirstLineLength(text) >= 1 && MapOk(text, FirstLineLength(text) + 1)
      ensures Valid() && fresh(grid) && fresh(grid.masterGrid) && fresh(playerArray)
      ensures Board() == GameState.Board(LineCount(text), FirstLineLength(text) + 1, text)
      ensures GoldMinNumPiles <= pilesRemaining <= GoldMaxNumPiles
      ensures Abs() == Start(Board(), Master(), pilesRemaining)
    {
      var g, numPiles;
      ghost var piles;
      g, numPiles, piles := Initialize(text, GoldMinNumPiles, GoldMaxNumPiles);
      grid := g;
      playerArray := new Player?[MaxPlayers](_ => null);
      spectator := null;
      nextPlayerNumber := 0;
      numPlayersQuit := 0;
      pilesRemaining := numPiles;
      nuggetsRemaining := GoldTotal;
      outbox := [];
      ended := false;
      new;
      assert forall i :: 0 <= i < |text| ==> Master()[i] == text[i] || (Master()[i] == '*' && text[i] == '.');
      StartOk(Board(), Master(), pilesRemaining);
      assert Roster() == [];
    }

    // ------------------------------------------------------------ notices

    /** sendOK */
    method SendOk(a: Addr, letter: char)
      modifies this`outbox
      ensures outbox == old(outbox) + OkMail(a, letter)
    {
      if IsAddr(a) {
        outbox := outbox + [Mail(a, Ok(letter))];
      }
    }

    /** sendGrid */
    method SendGrid(a: Addr, nr: int, nc: int)
      modifies this`outbox
      ensures outbox == old(outbox) + GridMail(a, nr, nc)
    {
      if IsAddr(a) && nr > 0 && nc > 0 {
        outbox := outbox + [Mail(a, GridSize(nr, nc))];
      }
    }

    /** sendGold */
    method SendGold(a: Addr, collected: int, purse: int, remaining: int)
      modifies this`outbox
      ensures outbox == old(outbox) + GoldMail(a, collected, purse, remaining)
    {
      if IsAddr(a) && collected >= 0 && purse >= 0 && remaining >= 0 {
        outbox := outbox + [Mail(a, Gold(collected, purse, remaining))];
      }
    }

    /** sendDisplay */
    method SendDisplay(a: Addr, v: Option<string>)
      modifies this`outbox
      ensures outbox == old(outbox) + DisplayMail(a, v)
    {
      if IsAddr(a) && v.Some? {
        outbox := outbox + [Mail(a, Display(v.value))];
      }
    }

    /** message_send of a QUIT or ERROR notice */
    method Send(a: Addr, n: Notice)
      modifies this`outbox
      ensures outbox == old(outbox) + [Mail(a, n)]
    {
      outbox := outbox + [Mail(a, n)];
    }

    // ---------------------------------------------------------- broadcast

    /**
     * The body of the loop of updateAllPlayers for player p: its view is
     * merged into its memory and sent, then, when gold was collected, the
     * gold counts, with the amount found only for the player that moved.
     * `x` is the record p holds and `collected` the amount it is told.
     */
    method UpdateOnePlayer(p: Player, movedPlayer: Player, goldChange: int, ghost x: Slot, ghost collected: int)
      requires grid.Valid() && GridOk(Master(), Board())
      requires SlotOf(p) == x && 0 <= x.location < |Master()| && x.view.Some? && |x.view.value| >= |Master()|
      requires collected == if p == movedPlayer then goldChange else 0
      modifies this`outbox, p`grid
      ensures SlotOf(p) == Regridded(x, Master(), Board())
      ensures outbox == old(outbox) + Notices(Regridded(x, Master(), Board()), collected, goldChange, nuggetsRemaining)
    {
      var updated := grid.UpdatePlayerGrid(p);
      SendDisplay(p.address, updated);
      var _ := SetGrid(p, updated);
      if goldChange > 0 {
        if p == movedPlayer {
          SendGold(p.address, goldChange, GetPurse(p), nuggetsRemaining);
        } else {
          SendGold(p.address, 0, GetPurse(p), nuggetsRemaining);
        }
      }
    }

    /**
     * One pass of the loop of updateAllPlayers, for player i. The players
     * before i hold the records `s1` gives, the others those `r0` gives,
     * and `base` is the outbox before the first player's turn.
     */
    method UpdateStep(i: int, movedPlayer: Player, ghost mover: int, goldChange: int,
                      ghost r0: seq<Slot>, ghost s1: seq<Slot>, ghost base: seq<Mail>)
      requires Linked() && grid.Valid() && GridOk(Master(), Board())
      requires 0 <= i < nextPlayerNumber == |r0| == |s1|
      requires 0 <= r0[i].location < |Master()| && r0[i].view.Some? && |r0[i].view.value| >= |Master()|
      requires s1[i] == Regridded(r0[i], Master(), Board())
      requires (0 <= mover < nextPlayerNumber && playerArray[mover] == movedPlayer)
        || (mover == -1 && movedPlayer !in Players())
      requires outbox == base + Fanout(s1[..i], mover, goldChange, nuggetsRemaining)
      requires forall j :: 0 <= j < nextPlayerNumber ==> SlotOf(playerArray[j]) == if j < i then s1[j] else r0[j]
      modifies this`outbox, {playerArray[i]}`grid
      ensures outbox == base + Fanout(s1[..i + 1], mover, goldChange, nuggetsRemaining)
      ensures forall j :: 0 <= j < nextPlayerNumber ==> SlotOf(playerArray[j]) == if j <= i then s1[j] else r0[j]
    {
      var p := playerArray[i];
      assert p == movedPlayer <==> i == mover;
      ghost var before := outbox;
      UpdateOnePlayer(p, movedPlayer, goldChange, r0[i], if i == mover then goldChange else 0);
      FanoutNext(base, s1, i, mover, goldChange, nuggetsRemaining, before, outbox);
      assert forall j :: 0 <= j < nextPlayerNumber && j != i ==> playerArray[j] != p;
    }

    /** The part of updateAllPlayers for the spectator: the whole master grid, then the gold left. */
    method UpdateSpectator(goldChange: int)
      requires Linked() && SpectatorOk()
      modifies this`outbox
      ensures Abs() == old(Abs()).(outbox := old(outbox) + SpectatorNotices(SpectatorAddr(), Master(), goldChange, nuggetsRemaining))
    {
      if spectator != null {
        SendDisplay(spectator.address, Some(Master()));
        if goldChange > 0 {
          SendGold(spectator.address, 0, 0, nuggetsRemaining);
        }
      }
    }

    /**
     * The loop of updateAllPlayers over the joined players, in order, with
     * `r0` the records they hold and `s1` the records they are to hold.
     */
    method UpdatePlayers(movedPlayer: Player, ghost mover: int, goldChange: int, ghost r0: seq<Slot>, ghost s1: seq<Slot>)
      requires Linked() && grid.Valid() && GridOk(Master(), Board())
      requires |r0| == nextPlayerNumber && forall j :: 0 <= j < nextPlayerNumber ==> SlotOf(playerArray[j]) == r0[j]
      requires ViewsFit(r0, Master()) && s1 == Regrid(r0, Master(), Board())
      requires (0 <= mover < nextPlayerNumber && playerArray[mover] == movedPlayer)
        || (mover == -1 && movedPlayer !in Players())
      modifies this`outbox, Players()`grid
      ensures Linked() && Roster() == s1
      ensures outbox == old(outbox) + Fanout(s1, mover, goldChange, nuggetsRemaining)
    {
      ghost var base := outbox;
      var i := 0;
      while i < nextPlayerNumber
        invariant 0 <= i <= nextPlayerNumber
        invariant outbox == base + Fanout(s1[..i], mover, goldChange, nuggetsRemaining)
        invariant forall j :: 0 <= j < nextPlayerNumber ==> SlotOf(playerArray[j]) == if j < i then s1[j] else r0[j]
      {
        UpdateStep(i, movedPlayer, mover, goldChange, r0, s1, base);
        i := i + 1;
      }
      assert s1[..i] == s1;
      assert Linked();
      assert forall j :: 0 <= j < nextPlayerNumber ==> Roster()[j] == s1[j];
    }

    /**
     * updateAllPlayers: the spectator gets the master grid, then each
     * joined player in order its merged view, and, when gold was
     * collected, every one the gold counts. `mover` is the index of the
     * player that moved, or -1 for a newcomer not yet in the array's range.
     */
    method UpdateAllPlayers(movedPlayer: Player, ghost mover: int, goldChange: int) returns (r: int)
      requires Shape() && GridOk(Master(), Board()) && ViewsFit(Roster(), Master())
      requires (0 <= mover < nextPlayerNumber && playerArray[mover] == movedPlayer)
        || (mover == -1 && movedPlayer !in Players())
      modifies this`outbox, Players()`grid
      ensures Shape() && r == 0
      ensures Abs() == Broadcast(old(Abs()), Board(), mover, goldChange)
    {
      ghost var st0 := Abs();
      UpdateSpectator(goldChange);
      ghost var st := Abs();
      ghost var s1 := Regrid(st.roster, st.master, Board());
      UpdatePlayers(movedPlayer, mover, goldChange, st.roster, s1);
      assert Master() == st.master && SpectatorAddr() == st.spectator;
      assert Abs() == st.(roster := s1, outbox := outbox);
      BroadcastOf(st0, Board(), mover, goldChange, st.outbox, outbox);
      return 0;
    }

    // -------------------------------------------------------------- lookups

    /** The search of game_playerMove: the index of the first player with the address, -1 if there is none. */
    method FindPlayer(address: Addr) returns (i: int)
      requires Linked()
      ensures i == FirstWith(Roster(), address)
    {
      i := 0;
      while i < nextPlayerNumber
        invariant 0 <= i <= nextPlayerNumber
        invariant forall j :: 0 <= j < i ==> playerArray[j].address != address
      {
        if playerArray[i].address == address {
          return;
        }
        i := i + 1;
      }
      return -1;
    }

    /** The search of playerQuit: the index of the first player with the address still in the game, -1 if there is none. */
    method FindActive(address: Addr) returns (i: int)
      requires Linked()
      ensures i == FirstActiveWith(Roster(), address)
    {
      i := 0;
      while i < nextPlayerNumber
        invariant 0 <= i <= nextPlayerNumber
        invariant forall j :: 0 <= j < i ==> !(playerArray[j].address == address && playerArray[j].status)
      {
        if playerArray[i].address == address && playerArray[i].status {
          return;
        }
        i := i + 1;
      }
      return -1;
    }

    // ------------------------------------------------------------ game over

    /** The text game_endGame builds: the header, then the summary line of each player in joining order. */
    method GameOverSummary() returns (summary: string)
      requires Linked()
      ensures summary == GameOverText(Roster())
      ensures Roster() == old(Roster())
    {
      ghost var s := Roster();
      summary := GameOverHeader;
      assert s[..0] == [];
      var i := 0;
      while i < nextPlayerNumber
        invariant 0 <= i <= nextPlayerNumber
        invariant summary == GameOverHeader + SummaryText(s[..i]) && Roster() == s
      {
        var line := Summary(playerArray[i], i);
        assert line == SummaryLine(s[i].name, s[i].purse, i);
        ghost var before := summary;
        if line != "" {
          summary := summary + line;
        } else {
          assert summary == before + line;
        }
        SummaryNext(s, i, GameOverHeader, line, before, summary);
        i := i + 1;
      }
      assert s[..i] == s;
      assert summary == GameOverText(s);
    }

    /** The loop of game_endGame that sends the summary to every player still in the game. */
    method SendSummary(summary: string)
      requires Linked()
      modifies this`outbox
      ensures outbox == old(outbox) + QuitAll(Roster(), summary)
      ensures Roster() == old(Roster())
    {
      ghost var base := outbox;
      ghost var s := Roster();
      var i := 0;
      while i < nextPlayerNumber
        invariant 0 <= i <= nextPlayerNumber
        invariant outbox == base + QuitAll(s[..i], summary) && Roster() == s
      {
        var p := playerArray[i];
        ghost var before := outbox;
        assert s[i].status == GetStatus(p) && s[i].address == GetAddr(p);
        if GetStatus(p) {
          Send(GetAddr(p), Quit(summary));
        }
        QuitAllNext(base, s, i, summary, before, outbox);
        i := i + 1;
      }
      assert s[..i] == s;
    }

    /**
     * game_endGame: the summary goes to every player still in the game,
     * then to the spectator, and the game is over.
     */
    method EndGame()
      requires Linked() && SpectatorOk()
      modifies this`outbox, this`ended
      ensures Linked() && SpectatorOk()
      ensures Abs() == Finish(old(Abs()))
    {
      ghost var st := Abs();
      var summary := Announce();
      ghost var mid := outbox;
      Conclude(summary);
      FinishOf(st, summary, mid, outbox);
    }

    /** The first part of game_endGame: the summary is built and sent to every player still in the game. */
    method Announce() returns (summary: string)
      requires Linked()
      modifies this`outbox
      ensures summary == GameOverText(Roster())
      ensures outbox == old(outbox) + QuitAll(Roster(), summary)
      ensures Abs() == old(Abs()).(outbox := outbox)
    {
      ghost var st := Abs();
      summary := GameOverSummary();
      SendSummary(summary);
      assert Roster() == st.roster && Master() == st.master && SpectatorAddr() == st.spectator;
    }

    /** The end of game_endGame: the summary goes to the spectator, and the game is over. */
    method Conclude(summary: string)
      requires Linked() && SpectatorOk()
      modifies this`outbox, this`ended
      ensures outbox == old(outbox) + if spectator == null then [] else [Mail(spectator.address, Quit(summary))]
      ensures Abs() == old(Abs()).(ended := true, outbox := outbox)
    {
      if spectator != null {
        Send(spectator.address, Quit(summary));
      }
      ended := true;
    }

    // ---------------------------------------------------------- spectating

    /** spectatorQuit: the spectator, if there is one, is thanked for watching and removed. */
    method SpectatorQuit() returns (ok: bool)
      requires Linked() && SpectatorOk()
      modifies this`outbox, this`spectator
      ensures ok <==> old(spectator) != null
      ensures spectator == null
      ensures Abs() == Unwatch(old(Abs()))
    {
      if spectator != null {
        Send(spectator.address, Quit(WatchingText));
        spectator := null;
        return true;
      }
      return false;
    }

    /**
     * game_newSpectator: a valid address replaces the spectator, which is
     * told to go, and is sent the map size, the gold left and a copy of
     * the master grid.
     */
    method NewSpectator(address: Addr) returns (ok: bool)
      requires Shape()
      modifies this`outbox, this`spectator
      ensures Shape() && (ok <==> IsAddr(address))
      ensures Abs() == if IsAddr(address) then Watch(old(Abs()), Board(), address) else old(Abs())
    {
      if !IsAddr(address) {
        return false;
      }
      ghost var st := Abs();
      if spectator != null {
        var _ := SpectatorQuit();
      }
      assert outbox == Unwatch(st).outbox;
      Welcome(address);
      assert Roster() == st.roster && Master() == st.master;
      WatchOf(st, Board(), address, outbox);
      return true;
    }

    /** The second part of game_newSpectator: the record is made, greeted and kept as the spectator. */
    method Welcome(address: Addr)
      requires Linked() && grid.Valid() && IsAddr(address)
      modifies this`outbox, this`spectator
      ensures SpectatorOk() && SpectatorAddr() == Some(address) && Roster() == old(Roster())
      ensures outbox == old(outbox) + GridMail(address, Board().nr, Board().nc)
        + GoldMail(address, 0, 0, nuggetsRemaining) + DisplayMail(address, Some(Master()))
    {
      var player := PlayerRecord.NewPlayer(address, Some(""), MaxNameLength);
      var copy := Master();
      SendGrid(address, GetNR(grid), GetNC(grid));
      SendGold(address, 0, 0, nuggetsRemaining);
      SendDisplay(address, Some(copy));
      var _ := SetGrid(player, Some(copy));
      spectator := player;
    }

    // ------------------------------------------------------------- quitting

    /**
     * The part of playerQuit for the player found at index i: its cell
     * shows the terrain again, it leaves the game, it is thanked for
     * playing and one more player has quit.
     */
    method Depart(i: int, address: Addr)
      requires Shape() && 0 <= i < nextPlayerNumber && playerArray[i].status && playerArray[i].address == address
      requires |playerArray[i].name| > 0 && 0 <= playerArray[i].location < grid.masterGrid.Length
      modifies grid.masterGrid, playerArray[i], this`outbox, this`numPlayersQuit
      ensures Shape()
      ensures Abs() == Departed(old(Abs()), Board(), i)
    {
      ghost var st := Abs();
      ghost var x := st.roster[i];
      ghost var t := st.(master := st.master[x.location := grid.originalGrid[x.location]],
                         roster := st.roster[i := x.(status := false)],
                         quits := st.quits + 1, outbox := st.outbox + [Mail(address, Quit(PlayingText))]);
      assert t == Departed(st, Board(), i);
      Vacate(i);
      assert Master() == t.master && Roster() == t.roster && SpectatorAddr() == t.spectator;
      Thank(address);
    }

    /** The end of a departure: the player is thanked for playing, and one more player has quit. */
    method Thank(address: Addr)
      requires Shape()
      modifies this`outbox, this`numPlayersQuit
      ensures Shape()
      ensures Abs() == old(Abs()).(quits := old(numPlayersQuit) + 1, outbox := old(outbox) + [Mail(address, Quit(PlayingText))])
    {
      Send(address, Quit(PlayingText));
      numPlayersQuit := numPlayersQuit + 1;
    }

    /** The changes of playerQuit to the grid and the record: the cell shows the terrain again, the player leaves. */
    method Vacate(i: int)
      requires Shape() && 0 <= i < nextPlayerNumber && playerArray[i].status
      requires |playerArray[i].name| > 0 && 0 <= playerArray[i].location < grid.masterGrid.Length
      modifies grid.masterGrid, playerArray[i]
      ensures Shape() && SpectatorAddr() == old(SpectatorAddr())
      ensures Master() == old(Master())[old(playerArray[i].location) := grid.originalGrid[old(playerArray[i].location)]]
      ensures Roster() == old(Roster())[i := old(Roster())[i].(status := false)]
    {
      var p := playerArray[i];
      assert p in Players() && spectator != p;
      ghost var r0 := Roster();
      var _ := grid.UpdateMaster(GetLoc(p), '!');
      var _ := QuitGame(p);
      assert Roster() == r0[i := r0[i].(status := false)] by {
        forall j | 0 <= j < nextPlayerNumber && j != i
          ensures playerArray[j] != p
        {
        }
      }
    }

    /**
     * playerQuit: the first player with the address still in the game
     * departs; when every possible player has quit the game ends with -1,
     * otherwise everyone gets a broadcast. An address of no such player
     * gives 1 and changes nothing.
     */
    method PlayerQuit(address: Addr) returns (r: int)
      requires Valid() && !ended
      modifies this`outbox, this`numPlayersQuit, this`ended, grid.masterGrid, Players()
      ensures Valid()
      ensures r == LeaveResult(old(Abs()), address)
      ensures Abs() == GameState.PlayerQuit(old(Abs()), Board(), address)
    {
      if !IsAddr(address) {
        return 1;
      }
      var i := FindActive(address);
      if i == -1 {
        return 1;
      }
      ghost var st := Abs();
      r := LeaveAt(i, address);
      LeaveKeepsInv(st, Board(), address);
    }

    /** The rest of playerQuit once the player at index i is found. */
    method LeaveAt(i: int, address: Addr) returns (r: int)
      requires Valid() && 0 <= i < nextPlayerNumber && playerArray[i].status && playerArray[i].address == address
      modifies this`outbox, this`numPlayersQuit, this`ended, grid.masterGrid, Players()
      ensures Shape()
      ensures r == if old(numPlayersQuit) + 1 == MaxPlayers then -1 else 0
      ensures Abs() == Leave(old(Abs()), Board(), i)
    {
      ghost var st := Abs();
      LeaveFits(st, Board(), i);
      assert SlotOf(playerArray[i]) == st.roster[i];
      Depart(i, address);
      if numPlayersQuit == MaxPlayers {
        EndGame();
        return -1;
      }
      r := UpdateAllPlayers(playerArray[i], i, 0);
    }

    /**
     * game_clientQuit: the spectator's address makes the spectator leave,
     * with 0; any other valid address is handed to playerQuit.
     */
    method ClientQuit(address: Addr) returns (r: int)
      requires Valid() && !ended
      modifies this`outbox, this`numPlayersQuit, this`ended, this`spectator, grid.masterGrid, Players()
      ensures Valid()
      ensures r == DisconnectResult(old(Abs()), address)
      ensures Abs() == Disconnect(old(Abs()), Board(), address)
    {
      if !IsAddr(address) {
        return 1;
      }
      if spectator != null && spectator.address == address {
        ghost var st := Abs();
        var _ := SpectatorQuit();
        WatchKeepsInv(st, Board(), address);
        return 0;
      }
      r := PlayerQuit(address);
    }

    // -------------------------------------------------------------- joining

    /**
     * game_newPlayer: a valid address with a name that has a character
     * other than a blank joins while fewer than twenty-six players have
     * joined; a missing or blank name, or a full game, is refused with a
     * QUIT notice, and an invalid address changes nothing.
     */
    method NewPlayer(address: Addr, realName: Option<string>) returns (ok: bool, ghost name: string, ghost loc: int)
      requires Valid() && !ended
      requires IsAddr(address) && Refusal(Abs(), realName).None? ==> exists i :: 0 <= i < |Master()| && Master()[i] == '.'
      modifies this`outbox, this`nextPlayerNumber, playerArray, grid.masterGrid, Players()`grid
      ensures Valid() && !ended
      ensures ok <==> IsAddr(address) && Refusal(old(Abs()), realName).None?
      ensures !IsAddr(address) ==> Abs() == old(Abs())
      ensures IsAddr(address) && Refusal(old(Abs()), realName).Some? ==>
        Abs() == Refuse(old(Abs()), address, Refusal(old(Abs()), realName).value)
      ensures ok ==>
        IsNormalized(name, realName.value, MaxNameLength)
        && 0 <= loc < |old(Master())| && old(Master())[loc] == '.'
        && Abs() == Join(old(Abs()), Board(), address, name, loc)
    {
      name, loc := "", -1;
      if !IsAddr(address) {
        return false, name, loc;
      }
      ghost var st := Abs();
      var hasLetter := false;
      if realName.Some? {
        hasLetter := HasLetter(realName.value);
        assert Shape() && Abs() == st;
      }
      ok := Screen(address, realName, hasLetter);
      if ok {
        name, loc := Admit(address, realName.value);
      }
    }

    /** The checks of game_newPlayer on the name and the number of players, in its order. */
    method Screen(address: Addr, realName: Option<string>, hasLetter: bool) returns (ok: bool)
      requires Valid() && IsAddr(address) && (realName.Some? ==> (hasLetter <==> Named(realName.value)))
      modifies this`outbox
      ensures Valid()
      ensures ok <==> Refusal(old(Abs()), realName).None?
      ensures ok ==> Abs() == old(Abs())
      ensures !ok ==> Abs() == Refuse(old(Abs()), address, Refusal(old(Abs()), realName).value)
    {
      ghost var st := Abs();
      assert |st.roster| == nextPlayerNumber;
      if realName.None? {
        assert Refusal(st, realName) == Some(NoNameText);
        Reject(address, NoNameText);
        return false;
      }
      if !hasLetter {
        assert Refusal(st, realName) == Some(NoNameText);
        Reject(address, NoNameText);
        return false;
      }
      if nextPlayerNumber >= MaxPlayers {
        assert Refusal(st, realName) == Some(FullText);
        Reject(address, FullText);
        return false;
      }
      assert Refusal(st, realName).None?;
      return true;
    }

    /** game_newPlayer turning a client away. */
    method Reject(address: Addr, text: string)
      requires Valid()
      modifies this`outbox
      ensures Valid()
      ensures Abs() == Refuse(old(Abs()), address, text)
    {
      ghost var st := Abs();
      Send(address, Quit(text));
      assert Abs() == Refuse(st, address, text);
      RefuseKeepsInv(st, Board(), address, text);
    }

    /**
     * game_newPlayer once the name is accepted: the newcomer is seated and
     * greeted, everyone already in the game gets a broadcast, and only then
     * does the number of players move past the newcomer.
     */
    method Admit(address: Addr, realName: string) returns (ghost name: string, ghost loc: int)
      requires Valid() && !ended && IsAddr(address) && Named(realName) && nextPlayerNumber < MaxPlayers
      requires exists i :: 0 <= i < |Master()| && Master()[i] == '.'
      modifies this`outbox, this`nextPlayerNumber, playerArray, grid.masterGrid, Players()`grid
      ensures Valid() && !ended
      ensures IsNormalized(name, realName, MaxNameLength)
      ensures 0 <= loc < |old(Master())| && old(Master())[loc] == '.'
      ensures Abs() == Join(old(Abs()), Board(), address, name, loc)
    {
      ghost var st := Abs();
      var player;
      player, name, loc := Seat(address, realName);
      ghost var x := SlotOf(player);
      ghost var mid := Abs();
      assert player !in Players() && player != spectator;
      var _ := UpdateAllPlayers(player, -1, 0);
      assert SlotOf(player) == x;
      ghost var after := Abs();
      Enroll(player);
      assert Abs() == after.(roster := after.roster + [x]);
      JoinKeepsInv(st, Board(), address, name, loc);
    }

    /** The newcomer placed on the map and greeted; nobody else is told yet. */
    method Seat(address: Addr, realName: string) returns (player: Player, ghost name: string, ghost loc: int)
      requires Valid() && IsAddr(address) && Named(realName) && nextPlayerNumber < MaxPlayers
      requires exists i :: 0 <= i < |Master()| && Master()[i] == '.'
      modifies this`outbox, playerArray, grid.masterGrid
      ensures Shape() && Players() == old(Players())
      ensures fresh(player) && playerArray[nextPlayerNumber] == player
      ensures IsNormalized(name, realName, MaxNameLength)
      ensures 0 <= loc < |old(Master())| && old(Master())[loc] == '.'
      ensures Abs() == Seated(old(Abs()), Board(), address, loc)
      ensures SlotOf(player) == Slot(address, name, 0, loc, true, Some(VisibleView(Master(), grid.numColumns, grid.numRows, loc)))
    {
      ghost var st := Abs();
      InvFits(st, Board());
      player, name, loc := Place(address, realName);
      assert player.purse == 0 && player.grid == Some(VisibleView(Master(), grid.numColumns, grid.numRows, loc));
      ghost var mid := Seated(st, Board(), address, loc);
      assert Master() == mid.master && Roster() == mid.roster;
      Greet(address, player, Letter(nextPlayerNumber));
      assert Abs() == mid;
    }

    /**
     * The first part of the join: the record is made, its letter goes to a
     * room spot of the master grid, it gets the view from there, and it is
     * written to the array's entry past the joined players.
     */
    method Place(address: Addr, realName: string) returns (player: Player, ghost name: string, ghost loc: int)
      requires Shape() && PassagesInterior(Master(), grid.numColumns) && nextPlayerNumber < MaxPlayers
      requires IsAddr(address) && Named(realName)
      requires exists i :: 0 <= i < |Master()| && Master()[i] == '.'
      modifies grid.masterGrid, playerArray
      ensures Shape() && Players() == old(Players()) && Roster() == old(Roster()) && SpectatorAddr() == old(SpectatorAddr())
      ensures 0 <= loc < |Master()| && old(Master())[loc] == '.' && Master() == old(Master())[loc := Letter(nextPlayerNumber)]
      ensures fresh(player) && playerArray[nextPlayerNumber] == player
      ensures IsNormalized(name, realName, MaxNameLength)
      ensures SlotOf(player) == Slot(address, name, 0, loc, true, Some(VisibleView(Master(), grid.numColumns, grid.numRows, loc)))
    {
      var p := PlayerRecord.NewPlayer(address, Some(realName), MaxNameLength);
      name := p.name;
      var letter := Letter(nextPlayerNumber);
      loc := grid.PlayerToGrid(p, letter);
      assert MasterChar(letter);
      ghost var before := playerArray[..];
      playerArray[nextPlayerNumber] := p;
      assert forall j :: 0 <= j < nextPlayerNumber ==> playerArray[j] == before[j];
      player := p;
    }

    /** sendOK, sendGrid, sendGold and sendDisplay to the newcomer. */
    method Greet(address: Addr, player: Player, letter: char)
      requires Shape()
      modifies this`outbox
      ensures Shape()
      ensures Abs() == old(Abs()).(outbox := old(outbox) + OkMail(address, letter) + GridMail(address, Board().nr, Board().nc)
        + GoldMail(address, 0, player.purse, nuggetsRemaining) + DisplayMail(address, player.grid))
    {
      SendOk(address, letter);
      SendGrid(address, GetNR(grid), GetNC(grid));
      SendGold(address, 0, GetPurse(player), nuggetsRemaining);
      SendDisplay(address, GetGrid(player));
    }

    /** The count moves past the newcomer, whose record was written at its entry: the roster gains it. */
    method Enroll(player: Player)
      requires Shape() && nextPlayerNumber < MaxPlayers && playerArray[nextPlayerNumber] == player
      requires player !in Players() && player != spectator
      modifies this`nextPlayerNumber
      ensures Shape()
      ensures Abs() == old(Abs()).(roster := old(Roster()) + [SlotOf(player)])
    {
      ghost var r0 := Roster();
      nextPlayerNumber := nextPlayerNumber + 1;
      assert Roster() == r0 + [SlotOf(player)];
    }

    // --------------------------------------------------------------- moving

    /**
     * The walk of game_playerMove: the cell the player at index i leaves
     * shows the terrain again, `dest` shows the player's letter, and the
     * player stands at `dest`.
     */
    method Relocate(i: int, dest: int)
      requires Shape() && 0 <= i < nextPlayerNumber && |grid.originalGrid| == grid.masterGrid.Length
      requires SlotOk(SlotOf(playerArray[i]), grid.originalGrid) && 0 <= dest < grid.masterGrid.Length
      modifies grid.masterGrid, playerArray[i]
      ensures Shape() && SpectatorAddr() == old(SpectatorAddr())
      ensures Abs() == Relocated(old(Abs()), Board(), i, dest)
    {
      var p := playerArray[i];
      assert p in Players() && spectator != p;
      ghost var r0 := Roster();
      var loc := GetLoc(p);
      assert MasterChar(grid.originalGrid[loc]);
      var _ := grid.UpdateMaster(loc, grid.originalGrid[loc]);
      var _ := grid.UpdateMaster(dest, Letter(i));
      var _ := SetLoc(p, dest);
      assert Roster() == r0[i := r0[i].(location := dest)] by {
        forall j | 0 <= j < nextPlayerNumber && j != i
          ensures playerArray[j] != p
        {
        }
      }
    }

    /** player_addPurse on the player at index i: its purse gains g. */
    method Credit(i: int, g: int)
      requires Shape() && 0 <= i < nextPlayerNumber && |playerArray[i].name| > 0 && g > 0
      modifies playerArray[i]
      ensures Shape()
      ensures var st := old(Abs()); Abs() == st.(roster := st.roster[i := st.roster[i].(purse := st.roster[i].purse + g)])
    {
      var p := playerArray[i];
      assert p in Players() && spectator != p;
      ghost var r0 := Roster();
      var _ := AddPurse(p, g);
      assert Roster() == r0[i := r0[i].(purse := r0[i].purse + g)] by {
        forall j | 0 <= j < nextPlayerNumber && j != i
          ensures playerArray[j] != p
        {
        }
      }
    }

    /** A pile that is not the last: the game's counts lose the pile and its g nuggets, the purse gains them. */
    method AwardPile(i: int, g: int)
      requires Shape() && 0 <= i < nextPlayerNumber && |playerArray[i].name| > 0 && g > 0
      modifies this`nuggetsRemaining, this`pilesRemaining, playerArray[i]
      ensures Shape() && Abs() == Awarded(old(Abs()), i, g)
    {
      ghost var st := Abs();
      ghost var x := st.roster[i];
      ghost var t := st.(nuggets := st.nuggets - g, piles := st.piles - 1, roster := st.roster[i := x.(purse := x.purse + g)]);
      assert t == Awarded(st, i, g);
      nuggetsRemaining := nuggetsRemaining - g;
      pilesRemaining := pilesRemaining - 1;
      assert Abs() == st.(nuggets := st.nuggets - g, piles := st.piles - 1);
      Credit(i, g);
    }

    /**
     * Player i running into the letter at `dest`, which is player q's: q's
     * cell gets i's letter, i's cell the letter at `dest`, q takes i's
     * location and i takes `dest`.
     */
    method SwapPlaces(i: int, q: int, dest: int)
      requires Shape() && 0 <= i < nextPlayerNumber && 0 <= q < nextPlayerNumber && |grid.originalGrid| == grid.masterGrid.Length
      requires SlotOk(SlotOf(playerArray[i]), grid.originalGrid) && SlotOk(SlotOf(playerArray[q]), grid.originalGrid)
      requires 0 <= dest < grid.masterGrid.Length && IsAlpha(grid.masterGrid[dest])
      modifies grid.masterGrid, playerArray[i], playerArray[q]
      ensures Shape() && Abs() == Swapped(old(Abs()), i, q, dest)
    {
      ghost var st := Abs();
      ghost var loc := st.roster[i].location;
      ghost var y := st.roster[q];
      ghost var s := st.roster[q := y.(location := loc)];
      ghost var t := st.(master := st.master[y.location := Letter(i)][loc := st.master[dest]], roster := s[i := s[i].(location := dest)]);
      assert t == Swapped(st, i, q, dest);
      var p := playerArray[i];
      var other := playerArray[q];
      var c := grid.masterGrid[dest];
      var _ := grid.UpdateMaster(GetLoc(other), Letter(i));
      var _ := grid.UpdateMaster(GetLoc(p), c);
      assert Master() == t.master && Roster() == st.roster && SpectatorAddr() == st.spectator;
      assert Abs() == st.(master := t.master);
      TradeLocations(i, q, dest);
    }

    /** player_setLoc on both players of a swap: q takes i's location and i takes `dest`. */
    method TradeLocations(i: int, q: int, dest: int)
      requires Shape() && 0 <= i < nextPlayerNumber && 0 <= q < nextPlayerNumber
      requires SlotOk(SlotOf(playerArray[i]), grid.originalGrid) && SlotOk(SlotOf(playerArray[q]), grid.originalGrid)
      requires 0 <= dest < |grid.originalGrid|
      modifies playerArray[i], playerArray[q]
      ensures Shape()
      ensures var r0 := old(Roster()); var s := r0[q := r0[q].(location := r0[i].location)];
        Abs() == old(Abs()).(roster := s[i := s[i].(location := dest)])
    {
      var p := playerArray[i];
      var other := playerArray[q];
      assert p in Players() && spectator != p && other in Players() && spectator != other;
      ghost var r0 := Roster();
      var _ := SetLoc(other, GetLoc(p));
      var _ := SetLoc(p, dest);
      ghost var s := r0[q := r0[q].(location := r0[i].location)];
      assert Roster() == s[i := s[i].(location := dest)] by {
        forall j | 0 <= j < nextPlayerNumber && j != i && j != q
          ensures playerArray[j] != p && playerArray[j] != other
        {
        }
      }
    }

    /** The last pile: every nugget left goes to the player at index i, who is told. */
    method Pay(i: int)
      requires Shape() && 0 <= i < nextPlayerNumber && |playerArray[i].name| > 0 && nuggetsRemaining > 0
      modifies playerArray[i], this`outbox
      ensures Shape() && Abs() == Payout(old(Abs()), i)
    {
      ghost var st := Abs();
      ghost var x := st.roster[i];
      ghost var y := x.(purse := x.purse + st.nuggets);
      ghost var t := st.(roster := st.roster[i := y], outbox := st.outbox + GoldMail(x.address, st.nuggets, y.purse, st.nuggets));
      assert t == Payout(st, i);
      var p := playerArray[i];
      var goldChange := nuggetsRemaining;
      Credit(i, goldChange);
      assert Abs() == st.(roster := t.roster) && SlotOf(p) == y;
      SendGold(GetAddr(p), goldChange, GetPurse(p), nuggetsRemaining);
    }

    /** The player at index i walks to `dest`, reaching `mid`, and everyone gets the broadcast for g nuggets collected. */
    method Arrive(i: int, dest: int, g: int, ghost mid: State) returns (r: int)
      requires Shape() && 0 <= i < nextPlayerNumber && |grid.originalGrid| == grid.masterGrid.Length
      requires SlotOk(Roster()[i], grid.originalGrid) && 0 <= dest < grid.masterGrid.Length
      requires mid == Relocated(Abs(), Board(), i, dest) && GridOk(mid.master, Board()) && ViewsFit(mid.roster, mid.master)
      modifies this`outbox, grid.masterGrid, Players()
      ensures Shape() && r == 0
      ensures Abs() == Broadcast(mid, Board(), i, g)
    {
      var p := playerArray[i];
      Relocate(i, dest);
      r := UpdateAllPlayers(p, i, g);
    }

    /** The player at index i takes a pile of g nuggets at `dest` and walks there, reaching `mid`; then the broadcast. */
    method Gather(i: int, dest: int, g: int, ghost mid: State) returns (r: int)
      requires Shape() && 0 <= i < nextPlayerNumber && |grid.originalGrid| == grid.masterGrid.Length
      requires SlotOk(Roster()[i], grid.originalGrid) && 0 <= dest < grid.masterGrid.Length && g > 0
      requires mid == Relocated(Awarded(Abs(), i, g), Board(), i, dest) && GridOk(mid.master, Board()) && ViewsFit(mid.roster, mid.master)
      modifies this`outbox, this`nuggetsRemaining, this`pilesRemaining, grid.masterGrid, Players()
      ensures Shape() && r == 0
      ensures Abs() == Broadcast(mid, Board(), i, g)
    {
      ghost var awarded := Awarded(Abs(), i, g);
      assert SlotOk(awarded.roster[i], grid.originalGrid);
      AwardPile(i, g);
      r := Arrive(i, dest, g, mid);
    }

    /** Players i and q trade places, reaching `mid`; then the broadcast. */
    method Exchange(i: int, q: int, dest: int, ghost mid: State) returns (r: int)
      requires Shape() && 0 <= i < nextPlayerNumber && 0 <= q < nextPlayerNumber && |grid.originalGrid| == grid.masterGrid.Length
      requires SlotOk(Roster()[i], grid.originalGrid) && SlotOk(Roster()[q], grid.originalGrid)
      requires 0 <= dest < grid.masterGrid.Length && IsAlpha(grid.masterGrid[dest])
      requires mid == Swapped(Abs(), i, q, dest) && GridOk(mid.master, Board()) && ViewsFit(mid.roster, mid.master)
      modifies this`outbox, grid.masterGrid, Players()
      ensures Shape() && r == 0
      ensures Abs() == Broadcast(mid, Board(), i, 0)
    {
      var p := playerArray[i];
      SwapPlaces(i, q, dest);
      r := UpdateAllPlayers(p, i, 0);
    }

    /** A step to a room spot or passage, then the broadcast. */
    method Walk(i: int, dest: int, ghost key: char, ghost roll: nat) returns (r: int)
      requires Valid() && !ended && 0 <= i < nextPlayerNumber
      requires PlanMove(Abs(), Board(), i, key) == Advance(dest)
      modifies this`outbox, grid.masterGrid, Players()
      ensures Valid() && r == 0 && r == StepResult(old(Abs()), Board(), i, key)
      ensures Abs() == StepState(old(Abs()), Board(), i, key, roll)
    {
      ghost var st := Abs();
      assert SlotOk(st.roster[i], grid.originalGrid);
      PlanDest(st, Board(), i, key);
      MoveStep(st, Board(), i, key, roll);
      MoveKinds(st, Board(), i, key, roll);
      MoveKeepsInv(st, Board(), i, key, roll);
      r := Arrive(i, dest, 0, Shift(st, Board(), i, key, roll));
    }

    /** A step onto a pile that is not the last: g nuggets go to the player, who walks there; then the broadcast. */
    method Collect(i: int, dest: int, g: int, ghost key: char, ghost roll: nat) returns (r: int)
      requires Valid() && !ended && 0 <= i < nextPlayerNumber
      requires PlanMove(Abs(), Board(), i, key) == Plan.Collect(dest)
      requires 2 <= pilesRemaining <= nuggetsRemaining && g == Award(nuggetsRemaining, pilesRemaining, roll)
      modifies this`outbox, this`nuggetsRemaining, this`pilesRemaining, grid.masterGrid, Players()
      ensures Valid() && r == 0 && r == StepResult(old(Abs()), Board(), i, key)
      ensures Abs() == StepState(old(Abs()), Board(), i, key, roll)
    {
      ghost var st := Abs();
      assert SlotOk(st.roster[i], grid.originalGrid);
      PlanDest(st, Board(), i, key);
      MoveStep(st, Board(), i, key, roll);
      MoveKinds(st, Board(), i, key, roll);
      MoveKeepsInv(st, Board(), i, key, roll);
      r := Gather(i, dest, g, Shift(st, Board(), i, key, roll));
    }

    /** A step into another player's letter: the two trade places; then the broadcast. */
    method Trade(i: int, q: int, dest: int, ghost key: char, ghost roll: nat) returns (r: int)
      requires Valid() && !ended && 0 <= i < nextPlayerNumber
      requires PlanMove(Abs(), Board(), i, key) == Swap(dest, q)
      modifies this`outbox, grid.masterGrid, Players()
      ensures Valid() && r == 0 && r == StepResult(old(Abs()), Board(), i, key)
      ensures Abs() == StepState(old(Abs()), Board(), i, key, roll)
    {
      ghost var st := Abs();
      assert SlotOk(st.roster[i], grid.originalGrid) && SlotOk(st.roster[q], grid.originalGrid);
      PlanDest(st, Board(), i, key);
      MoveStep(st, Board(), i, key, roll);
      MoveKinds(st, Board(), i, key, roll);
      MoveKeepsInv(st, Board(), i, key, roll);
      assert IsAlpha(grid.masterGrid[dest]) && Swapped(st, i, q, dest) == Shift(st, Board(), i, key, roll);
      r := Exchange(i, q, dest, Shift(st, Board(), i, key, roll));
    }

    /** A step onto the last pile: the player is paid every nugget left and the game ends. */
    method Finale(i: int, ghost key: char, ghost roll: nat)
      requires Valid() && !ended && 0 <= i < nextPlayerNumber
      requires PlanMove(Abs(), Board(), i, key).LastPile?
      modifies this`outbox, this`ended, playerArray[i]
      ensures Valid() && ended && StepResult(old(Abs()), Board(), i, key) == -1
      ensures Abs() == Finish(Payout(old(Abs()), i)) == StepState(old(Abs()), Board(), i, key, roll)
    {
      ghost var st := Abs();
      assert SlotOk(st.roster[i], grid.originalGrid);
      assert StepState(st, Board(), i, key, roll) == Finish(Payout(st, i)) && StepResult(st, Board(), i, key) == -1;
      Pay(i);
      EndGame();
      LastPileKeepsInv(st, Board(), i, key);
    }

    /**
     * game_playerMove for a lowercase key and the player at index i, with
     * `roll` the value rand() gives if a pile is drawn: a key other than a
     * movement key gives 1, and the cell the key's offset leads to decides
     * the rest.
     */
    method Step(i: int, key: char, roll: nat) returns (r: int)
      requires Valid() && !ended && 0 <= i < nextPlayerNumber
      modifies this`outbox, this`ended, this`nuggetsRemaining, this`pilesRemaining, grid.masterGrid, Players()
      ensures Valid() && (ended <==> r == -1)
      ensures r == StepResult(old(Abs()), Board(), i, key)
      ensures Abs() == StepState(old(Abs()), Board(), i, key, roll)
    {
      var p := playerArray[i];
      var delta := KeyDelta(key, GetNC(grid));
      if delta.None? {
        return 1;
      }
      r := Enter(i, GetLoc(p) + delta.value, key, roll);
    }

    /** The cell a movement key leads to: a letter, a pile, a cell nobody stands in, or a room spot or passage. */
    method Enter(i: int, dest: int, ghost key: char, roll: nat) returns (r: int)
      requires Valid() && !ended && 0 <= i < nextPlayerNumber && KeyDelta(key, grid.numColumns).Some?
      requires dest == Roster()[i].location + KeyDelta(key, grid.numColumns).value
      modifies this`outbox, this`ended, this`nuggetsRemaining, this`pilesRemaining, grid.masterGrid, Players()
      ensures Valid() && (ended <==> r == -1)
      ensures r == StepResult(old(Abs()), Board(), i, key)
      ensures Abs() == StepState(old(Abs()), Board(), i, key, roll)
    {
      ghost var st := Abs();
      assert SlotOk(st.roster[i], grid.originalGrid);
      var c := grid.masterGrid[dest];
      if IsAlpha(c) {
        var q := c as int - 'A' as int;
        if !(0 <= q < nextPlayerNumber) {
          // the letter of no player: the fatal error of game_playerMove, which the invariant rules out
          assert false;
        }
        assert PlanMove(st, Board(), i, key) == Swap(dest, q);
        r := Trade(i, q, dest, key, roll);
      } else if c == '*' {
        r := Pile(i, dest, key, roll);
      } else if c != '.' && c != '#' {
        assert PlanMove(st, Board(), i, key) == Blocked;
        return 1;
      } else {
        assert PlanMove(st, Board(), i, key) == Advance(dest);
        r := Walk(i, dest, key, roll);
      }
    }

    /** A gold pile: one that is not the last is drawn and collected; the last one ends the game with -1. */
    method Pile(i: int, dest: int, ghost key: char, roll: nat) returns (r: int)
      requires Valid() && !ended && 0 <= i < nextPlayerNumber
      requires PlanMove(Abs(), Board(), i, key) == Plan.Collect(dest) || PlanMove(Abs(), Board(), i, key) == LastPile(dest)
      modifies this`outbox, this`ended, this`nuggetsRemaining, this`pilesRemaining, grid.masterGrid, Players()
      ensures Valid() && (ended <==> r == -1)
      ensures r == StepResult(old(Abs()), Board(), i, key)
      ensures Abs() == StepState(old(Abs()), Board(), i, key, roll)
    {
      if pilesRemaining > 1 {
        var maxInPile := 10 + nuggetsRemaining / pilesRemaining;
        var goldChange := roll % maxInPile + 1;
        if goldChange > nuggetsRemaining - (pilesRemaining - 1) {
          goldChange := nuggetsRemaining - (pilesRemaining - 1);
        }
        r := Collect(i, dest, goldChange, key, roll);
      } else if pilesRemaining == 1 {
        Finale(i, key, roll);
        return -1;
      } else {
        // no pile left while the game runs: the invariant rules it out
        assert false;
      }
    }

    /**
     * game_playerMove from an address with a key: an invalid address gives
     * 1 and changes nothing; an address of no player gives 1 and, from the
     * spectator, an error notice; otherwise the first player with the
     * address moves. `random(k)` is the value rand() gives during the k-th
     * lowercase step.
     */
    method PlayerMove(address: Addr, key: char, random: nat -> nat) returns (r: int, ghost trace: seq<State>, ghost rolls: seq<nat>)
      requires Valid() && !ended
      requires IsAddr(address) && FirstWith(Roster(), address) == -1 ==> spectator != null
      modifies this`outbox, this`ended, this`nuggetsRemaining, this`pilesRemaining, grid.masterGrid, Players()
      ensures Valid()
      ensures Moved(old(Abs()), Abs(), Board(), address, key, r, trace, rolls)
    {
      trace, rolls := [], [];
      if !IsAddr(address) {
        return 1, trace, rolls;
      }
      ghost var st := Abs();
      var i := FindPlayer(address);
      assert Shape() && Abs() == st;
      if i == -1 {
        r := 1;
        MovedFrom(st, Misstep(st, address), Board(), address, key, r, trace, rolls, i);
        Scold(address);
      } else {
        r, trace, rolls := Run(address, i, key, random);
      }
    }

    /** A key from an address of no player: the spectator, if it sent it, is told it cannot move. */
    method Scold(address: Addr)
      requires Valid() && spectator != null
      modifies this`outbox
      ensures Valid() && Abs() == Misstep(old(Abs()), address)
    {
      ghost var st := Abs();
      if spectator.address == address {
        Send(address, Error(SpectatorMoveText));
        assert Abs() == Misstep(st, address);
        RefuseKeepsInv(st, Board(), address, SpectatorMoveText);
      }
    }

    /**
     * The player at index i moves with the key: one step for a key that is
     * not uppercase; for an uppercase key the steps of its lowercase key
     * while they give 0, and then -1 if the last step ended the game, 1 if
     * no step moved the player and 0 otherwise.
     */
    method Run(ghost address: Addr, i: int, key: char, random: nat -> nat) returns (r: int, ghost trace: seq<State>, ghost rolls: seq<nat>)
      requires Valid() && !ended && IsAddr(address) && i == FirstWith(Roster(), address) && i != -1
      modifies this`outbox, this`ended, this`nuggetsRemaining, this`pilesRemaining, grid.masterGrid, Players()
      ensures Valid()
      ensures Ran(old(Abs()), Abs(), Board(), i, key, r, trace, rolls)
      ensures Moved(old(Abs()), Abs(), Board(), address, key, r, trace, rolls)
    {
      ghost var st := Abs();
      if !IsUpper(key) {
        r, trace, rolls := First(i, key, random(0));
        ghost var t := Abs();
        RanSingle(st, t, Board(), i, key, r, trace, rolls);
        MovedFrom(st, t, Board(), address, key, r, trace, rolls, i);
        return;
      }
      var last, steps;
      last, steps, trace, rolls := Repeat(i, ToLower(key), random);
      RunLast(trace, rolls, Board(), i, ToLower(key));
      if last == -1 {
        r := -1;
      } else if steps == 0 {
        r := 1;
      } else {
        r := 0;
      }
      ghost var t := Abs();
      RanRepeated(st, t, Board(), i, key, r, trace, rolls, last, steps);
      MovedFrom(st, t, Board(), address, key, r, trace, rolls, i);
    }

    /** The first step of a move: a run of one step. */
    method First(i: int, key: char, roll: nat) returns (last: int, ghost trace: seq<State>, ghost rolls: seq<nat>)
      requires Valid() && !ended && 0 <= i < nextPlayerNumber
      modifies this`outbox, this`ended, this`nuggetsRemaining, this`pilesRemaining, grid.masterGrid, Players()
      ensures Valid() && (ended <==> last == -1)
      ensures Going(trace, rolls, Board(), i, key, 0, last) && trace[0] == old(Abs()) && trace[1] == Abs()
    {
      ghost var st := Abs();
      last := Step(i, key, roll);
      trace, rolls := [st, Abs()], [roll];
      RunOne(st, Board(), i, key, roll);
    }

    /** game_playerMove for an uppercase key: the first lowercase step, then the loop. */
    method Repeat(i: int, lower: char, random: nat -> nat) returns (last: int, steps: nat, ghost trace: seq<State>, ghost rolls: seq<nat>)
      requires Valid() && !ended && 0 <= i < nextPlayerNumber
      modifies this`outbox, this`ended, this`nuggetsRemaining, this`pilesRemaining, grid.masterGrid, Players()
      ensures Shape() && Repeated(trace, rolls, Board(), i, lower, steps, last) && trace[0] == old(Abs()) && trace[steps + 1] == Abs()
    {
      var first;
      ghost var t0, r0;
      first, t0, r0 := First(i, lower, random(0));
      last, steps, trace, rolls := Continue(i, lower, random, Board(), first, t0, r0);
    }

    /**
     * The loop of game_playerMove for an uppercase key, after its first
     * step gave first: the lowercase step while it gives 0, counting those
     * steps. The loop ends because every step that gives 0 moves the player
     * one offset further (RunBound).
     */
    method Continue(i: int, lower: char, random: nat -> nat, ghost b: Board, first: int, ghost t0: seq<State>, ghost r0: seq<nat>)
      returns (last: int, steps: nat, ghost trace: seq<State>, ghost rolls: seq<nat>)
      requires 0 <= i < nextPlayerNumber && |t0| > 0 && Looping(b, i, lower, 0, first, t0, r0, t0[0])
      modifies this`outbox, this`ended, this`nuggetsRemaining, this`pilesRemaining, grid.masterGrid, Players()
      ensures Shape() && Repeated(trace, rolls, b, i, lower, steps, last) && trace[0] == t0[0] && trace[steps + 1] == Abs()
    {
      last, steps, trace, rolls := first, 0, t0, r0;
      while last == 0
        invariant Looping(b, i, lower, steps, last, trace, rolls, t0[0])
        decreases |b.original| - steps
      {
        last, trace, rolls := Again(i, lower, random(steps + 1), b, steps, trace, rolls, t0[0]);
        steps := steps + 1;
      }
    }

    /**
     * Where the loop of an uppercase key stands: the map is b, the steps so
     * far form a run from start whose last step gave last, the game has
     * ended exactly when that step ended it, and the state is the run's last.
     */
    ghost predicate Looping(b: Board, i: int, lower: char, n: nat, last: int, trace: seq<State>, rolls: seq<nat>, start: State)
      reads this, playerArray, Players(), grid.masterGrid, spectator
    {
      Shape() && (ended <==> last == -1) && b == Board()
      && Going(trace, rolls, b, i, lower, n, last) && trace[0] == start && trace[n + 1] == Abs()
    }

    /**
     * One more step of an uppercase key, after n + 1 steps the last of which
     * gave 0; there are fewer such steps than cells on the map.
     */
    method Again(i: int, lower: char, roll: nat, ghost b: Board, ghost n: nat, ghost trace: seq<State>, ghost rolls: seq<nat>, ghost start: State)
      returns (last: int, ghost trace2: seq<State>, ghost rolls2: seq<nat>)
      requires 0 <= i < nextPlayerNumber && Looping(b, i, lower, n, 0, trace, rolls, start)
      modifies this`outbox, this`ended, this`nuggetsRemaining, this`pilesRemaining, grid.masterGrid, Players()
      ensures Looping(b, i, lower, n + 1, last, trace2, rolls2, start) && n + 1 < |b.original|
    {
      RunBound(trace, rolls, b, i, lower);
      RunLast(trace, rolls, b, i, lower);
      assert Valid();
      last := Step(i, lower, roll);
      GoingExtend(trace, rolls, b, i, lower, n, Abs(), roll);
      trace2, rolls2 := trace + [Abs()], rolls + [roll];
    }
  }
}
