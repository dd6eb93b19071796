/**
 * The game of game.c seen as a state machine. A `State` is everything the
 * game structure and its players hold (the map with gold and letters, one
 * record per joined player, the spectator's address, the gold counters) plus
 * the notices sent so far; each operation of the game is a function from a
 * state to the next. The class in module Game is proved to follow these
 * functions, and the lemmas here state what they keep.
 */
module GameState {
  import opened Wrappers
  import opened Chars
  import opened Message
  import opened Sight
  import opened Grid
  import opened Player

  const MaxNameLength := 50
  const MaxPlayers := 26
  const GoldTotal := 250
  const GoldMinNumPiles := 10
  const GoldMaxNumPiles := 30

  const NoNameText := "Sorry - you must provide player's name."
  const FullText := "Game is full: no more players can join."
  const PlayingText := "Thanks for playing!"
  const WatchingText := "Thanks for watching!"
  const SpectatorMoveText := "usage: spectator cannot move\n"
  const GameOverHeader := "GAME OVER:\n"

  // ------------------------------------------------------------- notices

  /** sendOK: only to a valid address. */
  function OkMail(a: Addr, letter: char): seq<Mail>
  {
    if IsAddr(a) then [Mail(a, Ok(letter))] else []
  }

  /** sendGrid: only to a valid address and for positive sizes. */
  function GridMail(a: Addr, nr: int, nc: int): seq<Mail>
  {
    if IsAddr(a) && nr > 0 && nc > 0 then [Mail(a, GridSize(nr, nc))] else []
  }

  /** sendGold: only to a valid address and when no count is negative. */
  function GoldMail(a: Addr, collected: int, purse: int, remaining: int): seq<Mail>
  {
    if IsAddr(a) && collected >= 0 && purse >= 0 && remaining >= 0 then [Mail(a, Gold(collected, purse, remaining))]
    else []
  }

  /** sendDisplay: only to a valid address and with a grid to show. */
  function DisplayMail(a: Addr, v: Option<string>): seq<Mail>
  {
    if IsAddr(a) && v.Some? then [Mail(a, Display(v.value))] else []
  }

  // --------------------------------------------------------------- state

  /** What one player record holds: address, name, purse, location, status, remembered grid. */
  datatype Slot = Slot(address: Addr, name: string, purse: int, location: int, status: bool, view: Option<string>)

  /** The fixed part of a loaded map: its size and its terrain. */
  datatype Board = Board(nr: int, nc: int, original: string)

  /**
   * The changing part of a game: the master grid, the players in joining
   * order (player i has letter 'A' + i), the spectator, the piles and nuggets
   * still on the map, the number of players who quit, every notice sent, and
   * whether the game is over.
   */
  datatype State = State(master: seq<char>, roster: seq<Slot>, spectator: Option<Addr>,
                         piles: int, nuggets: int, quits: int, outbox: seq<Mail>, ended: bool)

  function PurseTotal(s: seq<Slot>): int
  {
    if s == [] then 0 else PurseTotal(s[..|s| - 1]) + s[|s| - 1].purse
  }

  /** The number of players whose status is false. */
  function QuitCount(s: seq<Slot>): (n: nat)
    ensures n <= |s|
  {
    if s == [] then 0 else QuitCount(s[..|s| - 1]) + (if s[|s| - 1].status then 0 else 1)
  }

  /** Two rosters with the same purses and statuses have the same totals. */
  lemma {:induction false} TotalsKept(s: seq<Slot>, t: seq<Slot>)
    requires |s| == |t|
    requires forall j :: 0 <= j < |s| ==> s[j].purse == t[j].purse && s[j].status == t[j].status
    ensures PurseTotal(s) == PurseTotal(t) && QuitCount(s) == QuitCount(t)
  {
    if s != [] {
      TotalsKept(s[..|s| - 1], t[..|t| - 1]);
    }
  }

  /** Replacing one record changes the totals by that record's difference. */
  lemma {:induction false} TotalsUpdate(s: seq<Slot>, j: int, y: Slot)
    requires 0 <= j < |s|
    ensures PurseTotal(s[j := y]) == PurseTotal(s) - s[j].purse + y.purse
    ensures QuitCount(s[j := y]) == QuitCount(s) - (if s[j].status then 0 else 1) + (if y.status then 0 else 1)
  {
    if j < |s| - 1 {
      assert s[j := y][..|s| - 1] == s[..|s| - 1][j := y];
      TotalsUpdate(s[..|s| - 1], j, y);
    } else {
      assert s[j := y][..|s| - 1] == s[..|s| - 1];
    }
  }

  /** When as many players quit as joined, none is still playing. */
  lemma {:induction false} AllQuit(s: seq<Slot>)
    requires QuitCount(s) == |s|
    ensures forall j :: 0 <= j < |s| ==> !s[j].status
  {
    if s != [] {
      AllQuit(s[..|s| - 1]);
      assert forall j :: 0 <= j < |s| - 1 ==> s[j] == s[..|s| - 1][j];
    }
  }

  // ---------------------------------------------------------- invariants

  /** The cells a player can stand in: room spots and passages. */
  predicate Walkable(c: char) { c == '.' || c == '#' }

  /**
   * The maps the game can load: no letters and no gold in the terrain, and
   * every cell a player can stand in far enough from both ends of the map
   * that a step in any direction stays on it.
   */
  predicate MapOk(o: string, nc: int)
  {
    forall i :: 0 <= i < |o| ==>
      !IsAlpha(o[i]) && o[i] != '*' && (Walkable(o[i]) ==> nc + 1 <= i < |o| - nc - 1)
  }

  predicate BoardOk(b: Board)
  {
    b.nr >= 1 && b.nc >= 2 && |b.original| == b.nr * b.nc && MapOk(b.original, b.nc)
  }

  /** A master cell: the terrain, gold on a room spot, or the letter of a joined player on a walkable cell. */
  predicate CellOk(c: char, t: char, n: int)
  {
    c == t || (c == '*' && t == '.') || (IsUpper(c) && c as int - 'A' as int < n && Walkable(t))
  }

  predicate MasterOk(m: seq<char>, o: string, n: int)
  {
    |m| == |o| && forall i :: 0 <= i < |m| ==> CellOk(m[i], o[i], n)
  }

  /** A joined player: a name, a valid address, a purse, a walkable location and a grid of the map's size. */
  predicate SlotOk(x: Slot, o: string)
  {
    0 < |x.name| <= MaxNameLength && IsAddr(x.address) && x.purse >= 0
    && 0 <= x.location < |o| && Walkable(o[x.location])
    && x.view.Some? && |x.view.value| == |o|
  }

  predicate RosterOk(s: seq<Slot>, o: string)
  {
    |s| <= MaxPlayers && forall j :: 0 <= j < |s| ==> SlotOk(s[j], o)
  }

  /** Gold: at least one pile, at least a nugget per pile, and every nugget on the map or in a purse. */
  predicate GoldOk(piles: int, nuggets: int, s: seq<Slot>)
  {
    1 <= piles <= nuggets && nuggets + PurseTotal(s) == GoldTotal
  }

  /** What holds of every state the game reaches. The gold counters are left as they are once the game is over. */
  predicate Inv(st: State, b: Board)
  {
    BoardOk(b) && MasterOk(st.master, b.original, |st.roster|) && RosterOk(st.roster, b.original)
    && st.quits == QuitCount(st.roster) && (!st.ended ==> GoldOk(st.piles, st.nuggets, st.roster))
    && (st.spectator.Some? ==> IsAddr(st.spectator.value))
  }

  /** Passages of the master grid are passages of the terrain, so they keep clear of the map's edges. */
  lemma MasterPassages(m: seq<char>, o: string, n: int, nc: int)
    requires MasterOk(m, o, n) && MapOk(o, nc)
    ensures PassagesInterior(m, nc)
  {
    forall i | 0 <= i < |m| && m[i] == '#'
      ensures nc <= i < |m| - nc
    {
      assert CellOk(m[i], o[i], n);
    }
  }

  /** The map of a new game: the terrain with gold on some room spots. */
  function Start(b: Board, master: seq<char>, piles: int): State
  {
    State(master, [], None, piles, GoldTotal, 0, [], false)
  }

  /** grid_initialize leaves a master grid that is the terrain with piles on room spots; game_new starts valid. */
  lemma StartOk(b: Board, master: seq<char>, piles: int)
    requires BoardOk(b) && |master| == |b.original|
    requires forall i :: 0 <= i < |master| ==> master[i] == b.original[i] || (master[i] == '*' && b.original[i] == '.')
    requires GoldMinNumPiles <= piles <= GoldMaxNumPiles
    ensures Inv(Start(b, master, piles), b)
  {
  }

  // ----------------------------------------------------------- gold draw

  /** C's `/`: the quotient truncated toward zero. */
  function CDiv(a: int, b: int): int
    requires b != 0
  {
    if (a < 0) == (b < 0) then Abs(a) / Abs(b) else -(Abs(a) / Abs(b))
  }

  /** C's `%`: the remainder of the truncated quotient, with the sign of `a`. */
  function CMod(a: int, b: int): int
    requires b != 0
  {
    if a < 0 then -(Abs(a) % Abs(b)) else Abs(a) % Abs(b)
  }

  /** The pile size bound of game_playerMove: ten more than the nuggets per pile left. */
  function MaxInPile(nuggets: int, piles: int): int
    requires piles != 0
  {
    10 + CDiv(nuggets, piles)
  }

  /**
   * The gold of a pile that is not the last, as game_playerMove draws it:
   * `roll % maxInPile + 1`. Nothing keeps the draw below the nuggets left;
   * None is the draw with a zero divisor.
   */
  function AwardAsWritten(nuggets: int, piles: int, roll: nat): Option<int>
    requires piles >= 2
  {
    var m := MaxInPile(nuggets, piles);
    if m == 0 then None else Some(CMod(roll, m) + 1)
  }

  /**
   * The corrected draw: the same draw, but never so large that some later
   * pile would be left without a nugget.
   */
  function Award(nuggets: int, piles: int, roll: nat): (g: int)
    requires 2 <= piles <= nuggets
    ensures 1 <= g <= MaxInPile(nuggets, piles)
    ensures nuggets - g >= piles - 1
  {
    Min(roll % MaxInPile(nuggets, piles) + 1, nuggets - (piles - 1))
  }

  /** Whenever the draw as written leaves a nugget for every later pile, the corrected draw is the same. */
  lemma AwardFollowsDraw(nuggets: int, piles: int, roll: nat)
    requires 2 <= piles <= nuggets
    requires AwardAsWritten(nuggets, piles, roll).Some?
    requires AwardAsWritten(nuggets, piles, roll).value <= nuggets - (piles - 1)
    ensures Award(nuggets, piles, roll) == AwardAsWritten(nuggets, piles, roll).value
  {
    var m := MaxInPile(nuggets, piles);
    assert m > 0;
    assert CDiv(roll, m) == roll / m;
  }

  /**
   * The draws as written from `rolls[k]` on, each from a pile that is not the
   * last; None once a draw has no divisor or only the last pile is left.
   */
  function DrawsAsWritten(nuggets: int, piles: int, rolls: seq<nat>, k: nat): Option<(int, int)>
    decreases |rolls| - k
  {
    if k >= |rolls| then Some((nuggets, piles))
    else if piles < 2 then None
    else match AwardAsWritten(nuggets, piles, rolls[k])
      case None => None
      case Some(g) => DrawsAsWritten(nuggets - g, piles - 1, rolls, k + 1)
  }

  /** One draw as written, then the rest. */
  lemma DrawStep(nuggets: int, piles: int, rolls: seq<nat>, k: nat, g: int)
    requires k < |rolls| && piles >= 2 && AwardAsWritten(nuggets, piles, rolls[k]) == Some(g)
    ensures DrawsAsWritten(nuggets, piles, rolls, k) == DrawsAsWritten(nuggets - g, piles - 1, rolls, k + 1)
  {
  }

  lemma MulMono(p: int, a: int, b: int)
    requires p > 0 && a <= b
    ensures p * a <= p * b
  {
  }

  /** The quotient of `n` by `p` is the `q` with `p * q <= n < p * (q + 1)`. */
  lemma DivBetween(n: int, p: int, q: int)
    requires p > 0 && 0 <= p * q <= n < p * (q + 1)
    ensures n / p == q
  {
    var d := n / p;
    assert n == p * d + n % p;
    if d < q {
      MulMono(p, d + 1, q);
    } else if d > q {
      MulMono(p, q + 1, d);
    }
  }

  /** A draw below the pile bound is taken whole: the pile holds `roll + 1` nuggets. */
  lemma DrawFits(nuggets: int, piles: int, roll: nat, q: int)
    requires piles >= 2 && 0 <= piles * q <= Abs(nuggets) < piles * (q + 1)
    requires 0 <= roll < 10 + (if nuggets < 0 then -q else q)
    ensures AwardAsWritten(nuggets, piles, roll) == Some(roll + 1)
  {
    DivBetween(Abs(nuggets), piles, q);
    DivBetween(roll, MaxInPile(nuggets, piles), 0);
  }

  /** Sixteen draws of `roll % maxInPile`, each below the bound the source computes. */
  const TraceRolls: seq<nat> := [16, 22, 22, 21, 20, 20, 19, 18, 17, 16, 15, 13, 12, 10, 8, 5]

  /** The first eight piles those draws give, from 18 piles and every nugget on the map. */
  lemma TraceAwardsEarly()
    ensures AwardAsWritten(250, 18, TraceRolls[0]) == Some(17)
    ensures AwardAsWritten(233, 17, TraceRolls[1]) == Some(23)
    ensures AwardAsWritten(210, 16, TraceRolls[2]) == Some(23)
    ensures AwardAsWritten(187, 15, TraceRolls[3]) == Some(22)
    ensures AwardAsWritten(165, 14, TraceRolls[4]) == Some(21)
    ensures AwardAsWritten(144, 13, TraceRolls[5]) == Some(21)
    ensures AwardAsWritten(123, 12, TraceRolls[6]) == Some(20)
    ensures AwardAsWritten(103, 11, TraceRolls[7]) == Some(19)
  {
    DrawFits(250, 18, 16, 13);
    DrawFits(233, 17, 22, 13);
    DrawFits(210, 16, 22, 13);
    DrawFits(187, 15, 21, 12);
    DrawFits(165, 14, 20, 11);
    DrawFits(144, 13, 20, 11);
    DrawFits(123, 12, 19, 10);
    DrawFits(103, 11, 18, 9);
  }

  /** The last eight of the sixteen piles, the pool going negative after the fourteenth. */
  lemma TraceAwardsLate()
    ensures AwardAsWritten(84, 10, TraceRolls[8]) == Some(18)
    ensures AwardAsWritten(66, 9, TraceRolls[9]) == Some(17)
    ensures AwardAsWritten(49, 8, TraceRolls[10]) == Some(16)
    ensures AwardAsWritten(33, 7, TraceRolls[11]) == Some(14)
    ensures AwardAsWritten(19, 6, TraceRolls[12]) == Some(13)
    ensures AwardAsWritten(6, 5, TraceRolls[13]) == Some(11)
    ensures AwardAsWritten(-5, 4, TraceRolls[14]) == Some(9)
    ensures AwardAsWritten(-14, 3, TraceRolls[15]) == Some(6)
  {
    DrawFits(84, 10, 17, 8);
    DrawFits(66, 9, 16, 7);
    DrawFits(49, 8, 15, 6);
    DrawFits(33, 7, 13, 4);
    DrawFits(19, 6, 12, 3);
    DrawFits(6, 5, 10, 1);
    DrawFits(-5, 4, 8, 1);
    DrawFits(-14, 3, 5, 4);
  }

  /**
   * Eighteen piles and every nugget on the map: the sixteen draws leave -20
   * nuggets for the last two piles, and the next draw divides by zero.
   */
  lemma GoldRunsOut()
    ensures DrawsAsWritten(GoldTotal, 18, TraceRolls, 0) == Some((-20, 2))
    ensures forall roll: nat :: AwardAsWritten(-20, 2, roll) == None
  {
    TraceAwardsEarly();
    TraceAwardsLate();
    DrawStep(250, 18, TraceRolls, 0, 17);
    DrawStep(233, 17, TraceRolls, 1, 23);
    DrawStep(210, 16, TraceRolls, 2, 23);
    DrawStep(187, 15, TraceRolls, 3, 22);
    DrawStep(165, 14, TraceRolls, 4, 21);
    DrawStep(144, 13, TraceRolls, 5, 21);
    DrawStep(123, 12, TraceRolls, 6, 20);
    DrawStep(103, 11, TraceRolls, 7, 19);
    DrawStep(84, 10, TraceRolls, 8, 18);
    DrawStep(66, 9, TraceRolls, 9, 17);
    DrawStep(49, 8, TraceRolls, 10, 16);
    DrawStep(33, 7, TraceRolls, 11, 14);
    DrawStep(19, 6, TraceRolls, 12, 13);
    DrawStep(6, 5, TraceRolls, 13, 11);
    DrawStep(-5, 4, TraceRolls, 14, 9);
    DrawStep(-14, 3, TraceRolls, 15, 6);
  }

  // ---------------------------------------------------------------- keys

  /** The offset of a movement key in game_playerMove's switch; None for every other key. */
  function KeyDelta(key: char, nc: int): (d: Option<int>)
    requires nc >= 2
    ensures d.Some? ==> d.value != 0 && -nc - 1 <= d.value <= nc + 1
  {
    if key == 'h' then Some(-1)
    else if key == 'l' then Some(1)
    else if key == 'j' then Some(nc)
    else if key == 'k' then Some(-nc)
    else if key == 'y' then Some(-nc - 1)
    else if key == 'u' then Some(-nc + 1)
    else if key == 'b' then Some(nc - 1)
    else if key == 'n' then Some(nc + 1)
    else None
  }

  /** The eight movement keys, and the rows and columns each one moves across. */
  predicate MoveKey(key: char) { key in "hljkyubn" }

  function KeyRow(key: char): int
  {
    if key in "kyu" then -1 else if key in "jbn" then 1 else 0
  }

  function KeyCol(key: char): int
  {
    if key in "hyb" then -1 else if key in "lun" then 1 else 0
  }

  /** Each movement key goes to one of the eight neighbouring cells; no other key moves. */
  lemma KeyDirection(key: char, nc: int)
    requires nc >= 2
    ensures KeyDelta(key, nc).Some? <==> MoveKey(key)
    ensures MoveKey(key) ==> KeyDelta(key, nc).value == KeyRow(key) * nc + KeyCol(key)
    ensures MoveKey(key) ==> (KeyRow(key), KeyCol(key)) != (0, 0)
  {
  }

  /** Opposite keys undo each other's step. */
  lemma OppositeKeys(nc: int)
    requires nc >= 2
    ensures KeyDelta('h', nc).value + KeyDelta('l', nc).value == 0
    ensures KeyDelta('j', nc).value + KeyDelta('k', nc).value == 0
    ensures KeyDelta('y', nc).value + KeyDelta('n', nc).value == 0
    ensures KeyDelta('u', nc).value + KeyDelta('b', nc).value == 0
  {
  }

  /** A step away from the ends of a row lands in the row and column next to the start. */
  lemma StepIsNeighbour(loc: int, key: char, nc: int)
    requires nc >= 2 && loc >= 0 && MoveKey(key)
    requires 0 <= loc % nc + KeyCol(key) < nc && loc / nc + KeyRow(key) >= 0
    ensures var dest := loc + KeyDelta(key, nc).value;
      dest / nc == loc / nc + KeyRow(key) && dest % nc == loc % nc + KeyCol(key)
  {
    KeyDirection(key, nc);
    var dest := loc + KeyDelta(key, nc).value;
    IndexSplit(loc, nc);
    var r := loc / nc + KeyRow(key);
    var x := loc % nc + KeyCol(key);
    assert dest == r * nc + x;
    MulNonneg(r, nc);
    IndexSplit(dest, nc);
    IndexUnique(dest / nc, dest % nc, r, x, nc);
  }

  // ------------------------------------------------------------- lookups

  /** The index of the first player with the address, -1 if there is none. */
  function FirstWith(s: seq<Slot>, a: Addr): (i: int)
    ensures -1 <= i < |s|
    ensures i >= 0 ==> s[i].address == a && forall j :: 0 <= j < i ==> s[j].address != a
    ensures i == -1 ==> forall j :: 0 <= j < |s| ==> s[j].address != a
  {
    if s == [] then -1
    else if s[0].address == a then 0
    else var k := FirstWith(s[1..], a); if k == -1 then -1 else k + 1
  }

  /** The index of the first player with the address still in the game, -1 if there is none. */
  function FirstActiveWith(s: seq<Slot>, a: Addr): (i: int)
    ensures -1 <= i < |s|
    ensures i >= 0 ==> (s[i].address == a && s[i].status
      && forall j :: 0 <= j < i ==> !(s[j].address == a && s[j].status))
    ensures i == -1 ==> forall j :: 0 <= j < |s| ==> !(s[j].address == a && s[j].status)
  {
    if s == [] then -1
    else if s[0].address == a && s[0].status then 0
    else var k := FirstActiveWith(s[1..], a); if k == -1 then -1 else k + 1
  }

  /** Lookups by address see only the addresses. */
  lemma {:induction false} FirstWithAddresses(s: seq<Slot>, t: seq<Slot>, a: Addr)
    requires |s| == |t| && forall j :: 0 <= j < |s| ==> s[j].address == t[j].address
    ensures FirstWith(s, a) == FirstWith(t, a)
  {
    if s != [] {
      FirstWithAddresses(s[1..], t[1..], a);
    }
  }

  // ----------------------------------------------------------- broadcast

  predicate GridOk(m: seq<char>, b: Board)
  {
    b.nr >= 1 && b.nc >= 1 && |m| == b.nc * b.nr && PassagesInterior(m, b.nc)
  }

  /** Every record has a location on the map and a remembered grid at least as long. */
  predicate ViewsFit(s: seq<Slot>, m: seq<char>)
  {
    forall j :: 0 <= j < |s| ==> 0 <= s[j].location < |m| && s[j].view.Some? && |s[j].view.value| >= |m|
  }

  lemma InvFits(st: State, b: Board)
    requires Inv(st, b)
    ensures GridOk(st.master, b) && ViewsFit(st.roster, st.master)
  {
    MasterPassages(st.master, b.original, |st.roster|, b.nc);
  }

  /** grid_updatePlayerGrid then player_setGrid: the player keeps the view merged with memory. */
  function Regridded(x: Slot, m: seq<char>, b: Board): Slot
    requires GridOk(m, b) && 0 <= x.location < |m| && x.view.Some? && |x.view.value| >= |m|
  {
    x.(view := Some(Merge(x.view.value, VisibleView(m, b.nc, b.nr, x.location))))
  }

  function Regrid(s: seq<Slot>, m: seq<char>, b: Board): (t: seq<Slot>)
    requires GridOk(m, b) && ViewsFit(s, m)
    ensures |t| == |s|
  {
    seq(|s|, j requires 0 <= j < |s| => Regridded(s[j], m, b))
  }

  /** The notices updateAllPlayers sends one player: the display, then the gold when some was collected. */
  function Notices(x: Slot, collected: int, g: int, nuggets: int): seq<Mail>
  {
    DisplayMail(x.address, x.view) + (if g > 0 then GoldMail(x.address, collected, x.purse, nuggets) else [])
  }

  /** The notices to the players in order; only the player at index `mover` is told what was collected. */
  function Fanout(s: seq<Slot>, mover: int, g: int, nuggets: int): seq<Mail>
  {
    if s == [] then []
    else Fanout(s[..|s| - 1], mover, g, nuggets) + Notices(s[|s| - 1], if |s| - 1 == mover then g else 0, g, nuggets)
  }

  /** The notices to the first i + 1 players, after any earlier ones, extend those to the first i by the notices to player i. */
  lemma FanoutNext(pre: seq<Mail>, s: seq<Slot>, i: int, mover: int, g: int, nuggets: int, before: seq<Mail>, after: seq<Mail>)
    requires 0 <= i < |s|
    requires before == pre + Fanout(s[..i], mover, g, nuggets)
    requires after == before + Notices(s[i], if i == mover then g else 0, g, nuggets)
    ensures after == pre + Fanout(s[..i + 1], mover, g, nuggets)
  {
    assert s[..i + 1][..i] == s[..i];
    AppendAssoc(pre, Fanout(s[..i], mover, g, nuggets), Notices(s[i], if i == mover then g else 0, g, nuggets));
  }

  /** The notices to the spectator: the whole master grid, and the gold left when some was collected. */
  function SpectatorNotices(spectator: Option<Addr>, m: seq<char>, g: int, nuggets: int): seq<Mail>
  {
    if spectator.None? then []
    else DisplayMail(spectator.value, Some(m)) + (if g > 0 then GoldMail(spectator.value, 0, 0, nuggets) else [])
  }

  /** updateAllPlayers: first the spectator, then every player's merged view and, if gold moved, its gold. */
  function Broadcast(st: State, b: Board, mover: int, g: int): State
    requires GridOk(st.master, b) && ViewsFit(st.roster, st.master)
  {
    var s := Regrid(st.roster, st.master, b);
    st.(roster := s, outbox := st.outbox + SpectatorNotices(st.spectator, st.master, g, st.nuggets)
                                         + Fanout(s, mover, g, st.nuggets))
  }

  /** A broadcast is the regridded roster and the notices to the spectator followed by those to the players. */
  lemma BroadcastOf(st: State, b: Board, mover: int, g: int, mid: seq<Mail>, out: seq<Mail>)
    requires GridOk(st.master, b) && ViewsFit(st.roster, st.master)
    requires mid == st.outbox + SpectatorNotices(st.spectator, st.master, g, st.nuggets)
    requires out == mid + Fanout(Regrid(st.roster, st.master, b), mover, g, st.nuggets)
    ensures Broadcast(st, b, mover, g) == st.(roster := Regrid(st.roster, st.master, b), outbox := out)
  {
  }

  /**
   * The notices of a broadcast, laid out: one display per player in order,
   * each followed by a gold notice when gold was collected, with the amount
   * for the mover and 0 for everyone else.
   */
  lemma FanoutLayout(s: seq<Slot>, mover: int, g: int, nuggets: int)
    requires g >= 0 && nuggets >= 0
    requires forall j :: 0 <= j < |s| ==> IsAddr(s[j].address) && s[j].view.Some? && s[j].purse >= 0
    ensures |Fanout(s, mover, g, nuggets)| == (if g > 0 then 2 else 1) * |s|
    ensures g == 0 ==> forall j :: 0 <= j < |s| ==>
      Fanout(s, mover, g, nuggets)[j] == Mail(s[j].address, Display(s[j].view.value))
    ensures g > 0 ==> forall j :: 0 <= j < |s| ==>
      Fanout(s, mover, g, nuggets)[2 * j] == Mail(s[j].address, Display(s[j].view.value))
      && Fanout(s, mover, g, nuggets)[2 * j + 1] == Mail(s[j].address, Gold(if j == mover then g else 0, s[j].purse, nuggets))
  {
    if g == 0 {
      FanoutDisplays(s, mover, nuggets);
    } else {
      FanoutPairs(s, mover, g, nuggets);
    }
  }

  /** Without gold collected, every player gets its display and nothing else. */
  lemma {:induction false} FanoutDisplays(s: seq<Slot>, mover: int, nuggets: int)
    requires forall j :: 0 <= j < |s| ==> IsAddr(s[j].address) && s[j].view.Some?
    ensures |Fanout(s, mover, 0, nuggets)| == |s|
    ensures forall j :: 0 <= j < |s| ==> Fanout(s, mover, 0, nuggets)[j] == Mail(s[j].address, Display(s[j].view.value))
  {
    if s != [] {
      var p := s[..|s| - 1];
      var x := s[|s| - 1];
      FanoutDisplays(p, mover, nuggets);
      var f := Fanout(s, mover, 0, nuggets);
      assert f == Fanout(p, mover, 0, nuggets) + [Mail(x.address, Display(x.view.value))];
      forall j | 0 <= j < |s|
        ensures f[j] == Mail(s[j].address, Display(s[j].view.value))
      {
        if j < |p| {
          assert p[j] == s[j];
        }
      }
    }
  }

  /** With gold collected, every player gets its display and then its gold notice. */
  lemma {:induction false} FanoutPairs(s: seq<Slot>, mover: int, g: int, nuggets: int)
    requires g > 0 && nuggets >= 0
    requires forall j :: 0 <= j < |s| ==> IsAddr(s[j].address) && s[j].view.Some? && s[j].purse >= 0
    ensures |Fanout(s, mover, g, nuggets)| == 2 * |s|
    ensures forall j :: 0 <= j < |s| ==>
      Fanout(s, mover, g, nuggets)[2 * j] == Mail(s[j].address, Display(s[j].view.value))
      && Fanout(s, mover, g, nuggets)[2 * j + 1] == Mail(s[j].address, Gold(if j == mover then g else 0, s[j].purse, nuggets))
  {
    if s != [] {
      var p := s[..|s| - 1];
      var x := s[|s| - 1];
      var c := if |p| == mover then g else 0;
      FanoutPairs(p, mover, g, nuggets);
      var f := Fanout(s, mover, g, nuggets);
      assert f == Fanout(p, mover, g, nuggets) + [Mail(x.address, Display(x.view.value)), Mail(x.address, Gold(c, x.purse, nuggets))];
      forall j | 0 <= j < |s|
        ensures f[2 * j] == Mail(s[j].address, Display(s[j].view.value))
        ensures f[2 * j + 1] == Mail(s[j].address, Gold(if j == mover then g else 0, s[j].purse, nuggets))
      {
        if j < |p| {
          assert p[j] == s[j];
        }
      }
    }
  }

  /** A broadcast changes the remembered grids and the outbox only, and keeps the invariant. */
  lemma BroadcastKeepsInv(st: State, b: Board, mover: int, g: int)
    requires Inv(st, b)
    ensures GridOk(st.master, b) && ViewsFit(st.roster, st.master)
    ensures var t := Broadcast(st, b, mover, g);
      Inv(t, b) && |t.roster| == |st.roster| && t.master == st.master
      && t.spectator == st.spectator && t.ended == st.ended
      && forall j :: 0 <= j < |t.roster| ==> t.roster[j] == st.roster[j].(view := t.roster[j].view)
  {
    InvFits(st, b);
    RegridKeeps(st.roster, st.master, b, b.original);
  }

  // ------------------------------------------------------------ game over

  /** The summary lines of game_endGame, in joining order. */
  function SummaryText(s: seq<Slot>): string
  {
    if s == [] then "" else SummaryText(s[..|s| - 1]) + SummaryLine(s[|s| - 1].name, s[|s| - 1].purse, |s| - 1)
  }

  function GameOverText(s: seq<Slot>): string
  {
    GameOverHeader + SummaryText(s)
  }

  /** The summary goes to every player still in the game, in order. */
  function QuitAll(s: seq<Slot>, text: string): seq<Mail>
  {
    if s == [] then []
    else QuitAll(s[..|s| - 1], text) + (if s[|s| - 1].status then [Mail(s[|s| - 1].address, Quit(text))] else [])
  }

  function EndMail(s: seq<Slot>, spectator: Option<Addr>, text: string): seq<Mail>
  {
    QuitAll(s, text) + (if spectator.Some? then [Mail(spectator.value, Quit(text))] else [])
  }

  /** The game-over summary reaches exactly the players still in the game, and carries only the summary. */
  lemma {:induction false} QuitAllRecipients(s: seq<Slot>, text: string, a: Addr)
    ensures Mail(a, Quit(text)) in QuitAll(s, text) <==> exists j :: 0 <= j < |s| && s[j].status && s[j].address == a
    ensures forall k :: 0 <= k < |QuitAll(s, text)| ==> QuitAll(s, text)[k].notice == Quit(text)
  {
    if s != [] {
      var p := s[..|s| - 1];
      QuitAllRecipients(p, text, a);
      assert forall j :: 0 <= j < |p| ==> p[j] == s[j];
      if Mail(a, Quit(text)) in QuitAll(s, text) && Mail(a, Quit(text)) !in QuitAll(p, text) {
        assert s[|s| - 1].status && s[|s| - 1].address == a;
      }
    }
  }

  /** game_endGame: the summary to the players still in the game and to the spectator. */
  function Finish(st: State): State
  {
    st.(ended := true, outbox := st.outbox + EndMail(st.roster, st.spectator, GameOverText(st.roster)))
  }

  lemma FinishKeepsInv(st: State, b: Board)
    requires Inv(st.(ended := true), b)
    ensures Inv(Finish(st), b) && Finish(st).ended
  {
  }

  /** One more summary line: the text for the first i + 1 players extends that for the first i by player i's line. */
  lemma SummaryNext(s: seq<Slot>, i: int, head: string, line: string, before: string, after: string)
    requires 0 <= i < |s| && before == head + SummaryText(s[..i])
    requires line == SummaryLine(s[i].name, s[i].purse, i) && after == before + line
    ensures after == head + SummaryText(s[..i + 1])
  {
    var p := s[..i + 1];
    assert p[..|p| - 1] == s[..i] && p[|p| - 1] == s[i];
    assert SummaryText(p) == SummaryText(s[..i]) + line;
    AppendAssoc(head, SummaryText(s[..i]), line);
  }

  /** Concatenation regroups. */
  lemma AppendAssoc<T>(a: seq<T>, b: seq<T>, c: seq<T>)
    ensures (a + b) + c == a + (b + c)
  {
  }

  /** One more recipient of the summary: player i, if it is still in the game. */
  lemma QuitAllNext(pre: seq<Mail>, s: seq<Slot>, i: int, text: string, before: seq<Mail>, after: seq<Mail>)
    requires 0 <= i < |s| && before == pre + QuitAll(s[..i], text)
    requires after == before + (if s[i].status then [Mail(s[i].address, Quit(text))] else [])
    ensures after == pre + QuitAll(s[..i + 1], text)
  {
    assert s[..i + 1][..i] == s[..i];
    AppendAssoc(pre, QuitAll(s[..i], text), if s[i].status then [Mail(s[i].address, Quit(text))] else []);
  }

  /** game_endGame is the summary to the players still in the game, then to the spectator. */
  lemma FinishOf(st: State, text: string, mid: seq<Mail>, out: seq<Mail>)
    requires text == GameOverText(st.roster) && mid == st.outbox + QuitAll(st.roster, text)
    requires out == mid + (if st.spectator.Some? then [Mail(st.spectator.value, Quit(text))] else [])
    ensures Finish(st) == st.(ended := true, outbox := out)
  {
  }

  function Pow10(k: nat): nat
  {
    if k == 0 then 1 else 10 * Pow10(k - 1)
  }

  lemma Pow10Small(k: nat)
    ensures k <= 1 ==> Pow10(k) <= 10
  {
  }

  lemma {:induction false} DecimalWidth(n: nat, k: nat)
    requires k >= 1 && n < Pow10(k)
    ensures |Decimal(n)| <= k
    decreases k
  {
    if n >= 10 {
      Pow10Small(k);
      DecimalWidth(n / 10, k - 1);
    }
  }

  /** A summary line is at most fourteen characters longer than the name while the purse has ten digits or fewer. */
  lemma LineWidth(name: string, purse: int, id: int)
    requires 0 <= purse < 10000000000
    ensures |SummaryLine(name, purse, id)| <= 14 + |name|
  {
    assert Pow10(10) == 10000000000;
    DecimalWidth(purse, 10);
  }

  /**
   * game_endGame allocates the header and `14 + MaxNameLength` characters
   * per player; the summary always fits.
   */
  lemma {:induction false} GameOverFits(s: seq<Slot>)
    requires forall j :: 0 <= j < |s| ==> |s[j].name| <= MaxNameLength && 0 <= s[j].purse <= GoldTotal
    ensures |SummaryText(s)| <= (14 + MaxNameLength) * |s|
    ensures |"QUIT " + GameOverText(s)| + 1 <= 16 + (14 + MaxNameLength) * |s| + 1
  {
    if s != [] {
      var p := s[..|s| - 1];
      assert forall j :: 0 <= j < |p| ==> p[j] == s[j];
      GameOverFits(p);
      LineWidth(s[|s| - 1].name, s[|s| - 1].purse, |s| - 1);
    }
  }

  /** Purses are never negative, so each is at most the total. */
  lemma {:induction false} PurseBound(s: seq<Slot>, j: int)
    requires forall k :: 0 <= k < |s| ==> s[k].purse >= 0
    requires 0 <= j < |s|
    ensures s[j].purse <= PurseTotal(s)
  {
    var p := s[..|s| - 1];
    assert forall k :: 0 <= k < |p| ==> p[k] == s[k];
    if j < |s| - 1 {
      PurseBound(p, j);
      PurseNonneg(p);
    } else {
      PurseNonneg(p);
    }
  }

  lemma {:induction false} PurseNonneg(s: seq<Slot>)
    requires forall k :: 0 <= k < |s| ==> s[k].purse >= 0
    ensures PurseTotal(s) >= 0
  {
    if s != [] {
      var p := s[..|s| - 1];
      assert forall k :: 0 <= k < |p| ==> p[k] == s[k];
      PurseNonneg(p);
    }
  }

  // --------------------------------------------------------------- joining

  /** A PLAY from a valid address that the game refuses: a QUIT notice with the reason. */
  function Refuse(st: State, a: Addr, text: string): State
  {
    st.(outbox := st.outbox + [Mail(a, Quit(text))])
  }

  /** Turning a client away keeps the invariant. */
  lemma RefuseKeepsInv(st: State, b: Board, a: Addr, text: string)
    requires Inv(st, b)
    ensures Inv(Refuse(st, a, text), b)
  {
  }

  /** A name game_newPlayer accepts: one with a character that is not blank. */
  predicate Named(s: string)
  {
    exists i :: 0 <= i < |s| && !IsBlank(s[i])
  }

  /** The reason game_newPlayer turns a PLAY from a valid address away, or None when it lets the player in. */
  function Refusal(st: State, realName: Option<string>): Option<string>
  {
    if realName.None? || !Named(realName.value) then Some(NoNameText)
    else if |st.roster| >= MaxPlayers then Some(FullText)
    else None
  }

  /**
   * The first part of game_newPlayer once the name is accepted: the next
   * letter goes to the room spot `loc`, and the newcomer is told its
   * letter, the map size, the gold and the view from `loc`.
   */
  function Seated(st: State, b: Board, a: Addr, loc: int): (t: State)
    requires Inv(st, b) && |st.roster| < MaxPlayers
    requires 0 <= loc < |st.master| && st.master[loc] == '.'
    ensures t.master == st.master[loc := Letter(|st.roster|)] && t.roster == st.roster
    ensures GridOk(t.master, b) && ViewsFit(t.roster, t.master)
  {
    var letter := Letter(|st.roster|);
    var m := st.master[loc := letter];
    MasterPassages(st.master, b.original, |st.roster|, b.nc);
    assert PassagesInterior(m, b.nc);
    InvFits(st, b);
    st.(master := m, outbox := st.outbox + OkMail(a, letter) + GridMail(a, b.nr, b.nc)
                               + GoldMail(a, 0, 0, st.nuggets) + DisplayMail(a, Some(VisibleView(m, b.nc, b.nr, loc))))
  }

  /**
   * game_newPlayer once the name is accepted: after the newcomer is seated,
   * everyone already in the game gets a broadcast, and the newcomer joins
   * the roster with an empty purse and the view from its room spot.
   */
  function Join(st: State, b: Board, a: Addr, name: string, loc: int): State
    requires Inv(st, b) && |st.roster| < MaxPlayers
    requires 0 <= loc < |st.master| && st.master[loc] == '.'
  {
    var mid := Seated(st, b, a, loc);
    var after := Broadcast(mid, b, -1, 0);
    after.(roster := after.roster + [Slot(a, name, 0, loc, true, Some(VisibleView(mid.master, b.nc, b.nr, loc)))])
  }

  lemma JoinKeepsInv(st: State, b: Board, a: Addr, name: string, loc: int)
    requires Inv(st, b) && !st.ended && |st.roster| < MaxPlayers
    requires 0 <= loc < |st.master| && st.master[loc] == '.'
    requires IsAddr(a) && 0 < |name| <= MaxNameLength
    ensures var t := Join(st, b, a, name, loc);
      Inv(t, b) && !t.ended && |t.roster| == |st.roster| + 1 && t.spectator == st.spectator
      && t.piles == st.piles && t.nuggets == st.nuggets
  {
    var n := |st.roster|;
    var o := b.original;
    var mid := Seated(st, b, a, loc);
    var m := mid.master;
    var v := Regrid(st.roster, m, b);
    var x := Slot(a, name, 0, loc, true, Some(VisibleView(m, b.nc, b.nr, loc)));
    JoinFields(st, b, a, name, loc);
    SeatMaster(st.master, o, n, loc);
    RegridKeeps(st.roster, m, b, o);
    AppendSlot(v, x, o);
  }

  /** What a join makes of each part of the state. */
  lemma JoinFields(st: State, b: Board, a: Addr, name: string, loc: int)
    requires Inv(st, b) && |st.roster| < MaxPlayers
    requires 0 <= loc < |st.master| && st.master[loc] == '.'
    ensures var t := Join(st, b, a, name, loc);
      var m := Seated(st, b, a, loc).master;
      t.master == m && t.spectator == st.spectator && t.piles == st.piles && t.nuggets == st.nuggets
      && t.quits == st.quits && t.ended == st.ended
      && t.roster == Regrid(st.roster, m, b) + [Slot(a, name, 0, loc, true, Some(VisibleView(m, b.nc, b.nr, loc)))]
  {
  }

  /** The newcomer's letter on a room spot keeps the master grid sound for one more player. */
  lemma SeatMaster(m: seq<char>, o: string, n: int, loc: int)
    requires MasterOk(m, o, n) && 0 <= n < MaxPlayers && 0 <= loc < |m| && m[loc] == '.'
    ensures MasterOk(m[loc := Letter(n)], o, n + 1) && Walkable(o[loc])
  {
    assert CellOk(m[loc], o[loc], n);
    var m2 := m[loc := Letter(n)];
    forall i | 0 <= i < |m2|
      ensures CellOk(m2[i], o[i], n + 1)
    {
      assert CellOk(m[i], o[i], n);
    }
  }

  /** A newcomer with an empty purse, still in the game, keeps the roster sound and its totals. */
  lemma AppendSlot(v: seq<Slot>, x: Slot, o: string)
    requires RosterOk(v, o) && |v| < MaxPlayers && SlotOk(x, o) && x.purse == 0 && x.status
    ensures RosterOk(v + [x], o) && PurseTotal(v + [x]) == PurseTotal(v) && QuitCount(v + [x]) == QuitCount(v)
  {
    var s := v + [x];
    assert s[..|s| - 1] == v;
    forall j | 0 <= j < |s|
      ensures SlotOk(s[j], o)
    {
      if j < |v| {
        assert s[j] == v[j];
      }
    }
  }

  /** Regridding keeps every record sound and the purses, the statuses, the addresses and the locations. */
  lemma RegridKeeps(s: seq<Slot>, m: seq<char>, b: Board, o: string)
    requires GridOk(m, b) && ViewsFit(s, m) && RosterOk(s, o) && |m| == |o|
    ensures var t := Regrid(s, m, b);
      RosterOk(t, o) && PurseTotal(t) == PurseTotal(s) && QuitCount(t) == QuitCount(s)
      && forall j :: 0 <= j < |t| ==> t[j] == s[j].(view := t[j].view)
  {
    var t := Regrid(s, m, b);
    forall j | 0 <= j < |t|
      ensures SlotOk(t[j], o) && t[j] == s[j].(view := t[j].view)
    {
      assert SlotOk(s[j], o);
    }
    TotalsKept(s, t);
  }

  // ------------------------------------------------------------- spectating

  /** game_newSpectator: the old spectator is told to go, the new one gets the map size, the gold and the master grid. */
  function Watch(st: State, b: Board, a: Addr): State
  {
    var farewell := if st.spectator.Some? then [Mail(st.spectator.value, Quit(WatchingText))] else [];
    st.(spectator := Some(a),
        outbox := st.outbox + farewell + GridMail(a, b.nr, b.nc) + GoldMail(a, 0, 0, st.nuggets)
                  + DisplayMail(a, Some(st.master)))
  }

  /** spectatorQuit: the spectator is told to go and removed. */
  function Unwatch(st: State): State
  {
    if st.spectator.None? then st
    else st.(spectator := None, outbox := st.outbox + [Mail(st.spectator.value, Quit(WatchingText))])
  }

  /** Watch, as the farewell of spectatorQuit followed by the greeting of the newcomer. */
  lemma WatchOf(st: State, b: Board, a: Addr, out: seq<Mail>)
    requires out == Unwatch(st).outbox + GridMail(a, b.nr, b.nc) + GoldMail(a, 0, 0, st.nuggets) + DisplayMail(a, Some(st.master))
    ensures Watch(st, b, a) == st.(spectator := Some(a), outbox := out)
  {
  }

  lemma WatchKeepsInv(st: State, b: Board, a: Addr)
    requires Inv(st, b) && IsAddr(a)
    ensures Inv(Watch(st, b, a), b) && Inv(Unwatch(st), b)
    ensures Watch(st, b, a).spectator == Some(a) && Unwatch(st).spectator == None
  {
  }

  // ---------------------------------------------------------------- quitting

  /**
   * What playerQuit does to the player at index j before it decides whether
   * the game is over: its cell shows the terrain again, its status turns
   * false, one more player has quit, and it is thanked for playing.
   */
  function Departed(st: State, b: Board, j: int): State
    requires 0 <= j < |st.roster| && |st.master| == |b.original| && 0 <= st.roster[j].location < |st.master|
  {
    var x := st.roster[j];
    st.(master := st.master[x.location := b.original[x.location]], roster := st.roster[j := x.(status := false)],
        quits := st.quits + 1, outbox := st.outbox + [Mail(x.address, Quit(PlayingText))])
  }

  /**
   * playerQuit on the first player with the address still in the game:
   * after its departure either the game is over (every possible player has
   * quit) or everyone gets a broadcast.
   */
  function Leave(st: State, b: Board, j: int): State
    requires Inv(st, b) && 0 <= j < |st.roster| && st.roster[j].status
  {
    LeaveFits(st, b, j);
    var mid := Departed(st, b, j);
    if mid.quits == MaxPlayers then Finish(mid) else Broadcast(mid, b, j, 0)
  }

  /** The state playerQuit continues from is itself valid. */
  lemma LeaveFits(st: State, b: Board, j: int)
    requires Inv(st, b) && 0 <= j < |st.roster| && st.roster[j].status
    ensures SlotOk(st.roster[j], b.original)
    ensures var mid := Departed(st, b, j);
      Inv(mid, b) && GridOk(mid.master, b) && ViewsFit(mid.roster, mid.master)
  {
    var x := st.roster[j];
    assert SlotOk(x, b.original);
    var s := st.roster[j := x.(status := false)];
    var m := st.master[x.location := b.original[x.location]];
    TotalsUpdate(st.roster, j, x.(status := false));
    assert MasterOk(m, b.original, |s|) by {
      forall i | 0 <= i < |m|
        ensures CellOk(m[i], b.original[i], |s|)
      {
        assert CellOk(st.master[i], b.original[i], |s|);
      }
    }
    assert RosterOk(s, b.original) by {
      forall k | 0 <= k < |s|
        ensures SlotOk(s[k], b.original)
      {
        assert SlotOk(st.roster[k], b.original);
      }
    }
    InvFits(Departed(st, b, j), b);
  }

  /** The result code of playerQuit: 1 when no player with the address is in the game, -1 when the game ends. */
  function LeaveResult(st: State, a: Addr): int
  {
    var j := FirstActiveWith(st.roster, a);
    if !IsAddr(a) || j == -1 then 1 else if st.quits + 1 == MaxPlayers then -1 else 0
  }

  /** playerQuit, on the player it finds. */
  function PlayerQuit(st: State, b: Board, a: Addr): State
    requires Inv(st, b)
  {
    var j := FirstActiveWith(st.roster, a);
    if !IsAddr(a) || j == -1 then st else Leave(st, b, j)
  }

  lemma LeaveKeepsInv(st: State, b: Board, a: Addr)
    requires Inv(st, b) && !st.ended
    ensures var t := PlayerQuit(st, b, a);
      Inv(t, b) && |t.roster| == |st.roster| && t.spectator == st.spectator
      && (t.ended <==> LeaveResult(st, a) == -1)
      && (LeaveResult(st, a) == 1 ==> t == st)
  {
    var j := FirstActiveWith(st.roster, a);
    if IsAddr(a) && j != -1 {
      LeaveFits(st, b, j);
      var mid := Departed(st, b, j);
      if mid.quits == MaxPlayers {
        FinishKeepsInv(mid, b);
      } else {
        BroadcastKeepsInv(mid, b, j, 0);
      }
    }
  }

  /** The game ends on quitting only when all twenty-six players joined and none is left in the game. */
  lemma LastQuitEndsGame(st: State, b: Board, a: Addr)
    requires Inv(st, b) && !st.ended && LeaveResult(st, a) == -1
    ensures |st.roster| == MaxPlayers
    ensures var t := PlayerQuit(st, b, a); forall j :: 0 <= j < |t.roster| ==> !t.roster[j].status
  {
    var j := FirstActiveWith(st.roster, a);
    var x := st.roster[j];
    var s := st.roster[j := x.(status := false)];
    TotalsUpdate(st.roster, j, x.(status := false));
    AllQuit(s);
    assert PlayerQuit(st, b, a).roster == s;
  }

  /** game_clientQuit: the spectator leaves if the address is the spectator's; otherwise a player quits. */
  function Disconnect(st: State, b: Board, a: Addr): State
    requires Inv(st, b)
  {
    if !IsAddr(a) then st else if st.spectator == Some(a) then Unwatch(st) else PlayerQuit(st, b, a)
  }

  /** The result code of game_clientQuit. */
  function DisconnectResult(st: State, a: Addr): int
  {
    if !IsAddr(a) then 1 else if st.spectator == Some(a) then 0 else LeaveResult(st, a)
  }

  /** A client quitting keeps the invariant; the game ends exactly when the result is -1, and a result of 1 changes nothing. */
  lemma DisconnectKeepsInv(st: State, b: Board, a: Addr)
    requires Inv(st, b) && !st.ended
    ensures var t := Disconnect(st, b, a);
      Inv(t, b) && |t.roster| == |st.roster|
      && (t.ended <==> DisconnectResult(st, a) == -1)
      && (DisconnectResult(st, a) == 1 ==> t == st)
      && (st.spectator == Some(a) ==> t.spectator == None && t.roster == st.roster)
  {
    if IsAddr(a) && st.spectator == Some(a) {
      WatchKeepsInv(st, b, a);
      assert Disconnect(st, b, a) == Unwatch(st);
    } else if IsAddr(a) {
      LeaveKeepsInv(st, b, a);
      assert Disconnect(st, b, a) == PlayerQuit(st, b, a);
    }
  }

  // ------------------------------------------------------------------ moving

  /** What a lowercase key does, decided by the cell it leads to. */
  datatype Plan =
    | BadKey                        // not a movement key
    | Blocked                       // a cell no player can stand in
    | Advance(dest: int)            // a room spot or passage
    | Collect(dest: int)            // a pile that is not the last
    | LastPile(dest: int)           // the last pile: the game ends
    | Swap(dest: int, other: int)   // another player's letter: the two trade places
    | Orphan(dest: int)             // a letter with no player behind it (the source's fatal error)

  /** The result code game_playerMove returns for a lowercase key. */
  function Outcome(p: Plan): int
  {
    match p
    case BadKey => 1
    case Blocked => 1
    case LastPile(_) => -1
    case Orphan(_) => -1
    case _ => 0
  }

  function PlanMove(st: State, b: Board, i: int, key: char): Plan
    requires Inv(st, b) && 0 <= i < |st.roster|
  {
    var x := st.roster[i];
    assert SlotOk(x, b.original);
    match KeyDelta(key, b.nc)
    case None => BadKey
    case Some(d) =>
      var dest := x.location + d;
      var c := st.master[dest];
      if IsAlpha(c) then
        (var q := c as int - 'A' as int; if 0 <= q < |st.roster| then Swap(dest, q) else Orphan(dest))
      else if c == '*' then
        (if st.piles > 1 then Collect(dest) else if st.piles == 1 then LastPile(dest) else Advance(dest))
      else if c != '.' && c != '#' then Blocked
      else Advance(dest)
  }

  function StepResult(st: State, b: Board, i: int, key: char): int
    requires Inv(st, b) && 0 <= i < |st.roster|
  {
    Outcome(PlanMove(st, b, i, key))
  }

  /** Every letter on the map belongs to a joined player, so the fatal branch is never taken. */
  lemma NeverOrphan(st: State, b: Board, i: int, key: char)
    requires Inv(st, b) && 0 <= i < |st.roster|
    ensures !PlanMove(st, b, i, key).Orphan?
  {
    var x := st.roster[i];
    assert SlotOk(x, b.original);
    if KeyDelta(key, b.nc).Some? {
      var dest := x.location + KeyDelta(key, b.nc).value;
      assert CellOk(st.master[dest], b.original[dest], |st.roster|);
    }
  }

  /**
   * A player walking from its cell to `dest`: the cell it leaves shows the
   * terrain again, `dest` shows its letter, and its location is `dest`.
   */
  function Relocated(st: State, b: Board, i: int, dest: int): State
    requires 0 <= i < |st.roster| && i < MaxPlayers && 0 <= dest < |st.master| == |b.original|
    requires 0 <= st.roster[i].location < |st.master|
  {
    var x := st.roster[i];
    st.(master := st.master[x.location := b.original[x.location]][dest := Letter(i)],
        roster := st.roster[i := x.(location := dest)])
  }

  /** A pile of g nuggets taken by player i: the pool has g fewer, one pile fewer, and the purse g more. */
  function Awarded(st: State, i: int, g: int): State
    requires 0 <= i < |st.roster|
  {
    var x := st.roster[i];
    st.(nuggets := st.nuggets - g, piles := st.piles - 1, roster := st.roster[i := x.(purse := x.purse + g)])
  }

  /**
   * Player i trading places with player q, whose letter is at `dest`: i's
   * letter goes where q is, the letter at `dest` where i is, q takes i's
   * location and i takes `dest`.
   */
  function Swapped(st: State, i: int, q: int, dest: int): State
    requires 0 <= i < |st.roster| && 0 <= q < |st.roster| && i < 26 && 0 <= dest < |st.master|
    requires 0 <= st.roster[i].location < |st.master| && 0 <= st.roster[q].location < |st.master|
  {
    var loc := st.roster[i].location;
    var y := st.roster[q];
    var s := st.roster[q := y.(location := loc)];
    st.(master := st.master[y.location := Letter(i)][loc := st.master[dest]],
        roster := s[i := s[i].(location := dest)])
  }

  /**
   * The master grid and roster after a step that moves the player at index
   * i (a walk, a pile that is not the last, or a swap), before the
   * broadcast. A collection is an award followed by a walk.
   */
  function Shift(st: State, b: Board, i: int, key: char, roll: nat): State
    requires Inv(st, b) && !st.ended && 0 <= i < |st.roster|
    requires PlanMove(st, b, i, key).Advance? || PlanMove(st, b, i, key).Collect? || PlanMove(st, b, i, key).Swap?
  {
    assert SlotOk(st.roster[i], b.original);
    match PlanMove(st, b, i, key)
    case Advance(dest) => Relocated(st, b, i, dest)
    case Collect(dest) => Relocated(Awarded(st, i, Award(st.nuggets, st.piles, roll)), b, i, dest)
    case Swap(dest, q) =>
      assert SlotOk(st.roster[q], b.original);
      Swapped(st, i, q, dest)
  }

  /** The gold a step collects: the corrected draw for a pile that is not the last, 0 otherwise. */
  function Collected(st: State, b: Board, i: int, key: char, roll: nat): int
    requires Inv(st, b) && !st.ended && 0 <= i < |st.roster|
  {
    if PlanMove(st, b, i, key).Collect? then Award(st.nuggets, st.piles, roll) else 0
  }

  /**
   * A step onto a pile that is not the last collects the draw as written
   * whenever that draw has a divisor and leaves a nugget for every later pile.
   */
  lemma CollectedFollowsDraw(st: State, b: Board, i: int, key: char, roll: nat)
    requires Inv(st, b) && !st.ended && 0 <= i < |st.roster| && PlanMove(st, b, i, key).Collect?
    requires st.piles >= 2 && AwardAsWritten(st.nuggets, st.piles, roll).Some?
    requires AwardAsWritten(st.nuggets, st.piles, roll).value <= st.nuggets - (st.piles - 1)
    ensures Collected(st, b, i, key, roll) == AwardAsWritten(st.nuggets, st.piles, roll).value
  {
    AwardFollowsDraw(st.nuggets, st.piles, roll);
  }

  /** Writing a cell that is valid for its terrain keeps the master grid valid. */
  lemma MasterWrite(m: seq<char>, o: string, n: int, k: int, c: char)
    requires MasterOk(m, o, n) && 0 <= k < |m| && CellOk(c, o[k], n)
    ensures MasterOk(m[k := c], o, n)
  {
    var t := m[k := c];
    forall j | 0 <= j < |t|
      ensures CellOk(t[j], o[j], n)
    {
      if j != k {
        assert CellOk(m[j], o[j], n);
      }
    }
  }

  /** Replacing a record by a valid one keeps the roster valid. */
  lemma RosterWrite(s: seq<Slot>, o: string, k: int, y: Slot)
    requires RosterOk(s, o) && 0 <= k < |s| && SlotOk(y, o)
    ensures RosterOk(s[k := y], o)
  {
    var t := s[k := y];
    forall j | 0 <= j < |t|
      ensures SlotOk(t[j], o)
    {
      if j != k {
        assert SlotOk(s[j], o);
      }
    }
  }

  /** What a step that moves the player keeps, before its broadcast. */
  predicate Shifted(st: State, t: State, b: Board, i: int, dest: int)
  {
    Inv(t, b) && !t.ended && |t.roster| == |st.roster| && t.spectator == st.spectator && t.outbox == st.outbox
    && 0 <= i < |t.roster| && t.roster[i].location == dest
    && forall j :: 0 <= j < |t.roster| ==> t.roster[j].address == st.roster[j].address
  }

  /** A player walking to a free walkable cell keeps the map and the records sound, and their totals. */
  lemma RelocatedKeeps(st: State, b: Board, i: int, dest: int)
    requires MasterOk(st.master, b.original, |st.roster|) && RosterOk(st.roster, b.original)
    requires 0 <= i < |st.roster| && 0 <= dest < |b.original| && Walkable(b.original[dest])
    ensures var t := Relocated(st, b, i, dest);
      MasterOk(t.master, b.original, |t.roster|) && RosterOk(t.roster, b.original)
      && PurseTotal(t.roster) == PurseTotal(st.roster) && QuitCount(t.roster) == QuitCount(st.roster)
      && |t.roster| == |st.roster| && t.roster[i].location == dest
      && forall j :: 0 <= j < |t.roster| ==> t.roster[j].address == st.roster[j].address
  {
    var o := b.original;
    var n := |st.roster|;
    var x := st.roster[i];
    assert SlotOk(x, o);
    MasterWrite(st.master, o, n, x.location, o[x.location]);
    MasterWrite(st.master[x.location := o[x.location]], o, n, dest, Letter(i));
    RosterWrite(st.roster, o, i, x.(location := dest));
    TotalsUpdate(st.roster, i, x.(location := dest));
  }

  lemma AdvanceKeepsInv(st: State, b: Board, i: int, key: char, roll: nat)
    requires Inv(st, b) && !st.ended && 0 <= i < |st.roster| && PlanMove(st, b, i, key).Advance?
    ensures Shifted(st, Shift(st, b, i, key, roll), b, i, PlanMove(st, b, i, key).dest)
  {
    var dest := PlanMove(st, b, i, key).dest;
    assert CellOk(st.master[dest], b.original[dest], |st.roster|);
    RelocatedKeeps(st, b, i, dest);
  }

  lemma CollectKeepsInv(st: State, b: Board, i: int, key: char, roll: nat)
    requires Inv(st, b) && !st.ended && 0 <= i < |st.roster| && PlanMove(st, b, i, key).Collect?
    ensures Shifted(st, Shift(st, b, i, key, roll), b, i, PlanMove(st, b, i, key).dest)
  {
    var dest := PlanMove(st, b, i, key).dest;
    assert CellOk(st.master[dest], b.original[dest], |st.roster|);
    var g := Award(st.nuggets, st.piles, roll);
    var mid := Awarded(st, i, g);
    AwardedKeeps(st, b, i, g);
    RelocatedKeeps(mid, b, i, dest);
    assert Shift(st, b, i, key, roll) == Relocated(mid, b, i, dest);
  }

  /** Gold moving from the map's count into a purse keeps the records sound and every nugget counted. */
  lemma AwardedKeeps(st: State, b: Board, i: int, g: int)
    requires RosterOk(st.roster, b.original) && 0 <= i < |st.roster| && g >= 0
    ensures var t := Awarded(st, i, g);
      RosterOk(t.roster, b.original) && |t.roster| == |st.roster|
      && t.nuggets + PurseTotal(t.roster) == st.nuggets + PurseTotal(st.roster)
      && QuitCount(t.roster) == QuitCount(st.roster)
      && forall j :: 0 <= j < |t.roster| ==> t.roster[j].address == st.roster[j].address
  {
    var x := st.roster[i];
    assert SlotOk(x, b.original);
    RosterWrite(st.roster, b.original, i, x.(purse := x.purse + g));
    TotalsUpdate(st.roster, i, x.(purse := x.purse + g));
  }

  /** Two letters trading places: each goes to a walkable cell. */
  lemma SwapCells(m: seq<char>, o: string, n: int, ploc: int, qloc: int, dest: int, i: int)
    requires MasterOk(m, o, n) && 0 <= ploc < |m| && 0 <= qloc < |m| && 0 <= dest < |m| && 0 <= i < n <= 26
    requires Walkable(o[ploc]) && Walkable(o[qloc]) && IsUpper(m[dest]) && m[dest] as int - 'A' as int < n
    ensures MasterOk(m[qloc := Letter(i)][ploc := m[dest]], o, n)
  {
    MasterWrite(m, o, n, qloc, Letter(i));
    MasterWrite(m[qloc := Letter(i)], o, n, ploc, m[dest]);
  }

  /** Two records trading places: the other player takes the mover's location, the mover takes `dest`. */
  lemma SwapRecords(s: seq<Slot>, o: string, i: int, q: int, dest: int)
    requires RosterOk(s, o) && 0 <= i < |s| && 0 <= q < |s| && 0 <= dest < |o| && Walkable(o[dest])
    ensures var s1 := s[q := s[q].(location := s[i].location)];
      var s2 := s1[i := s1[i].(location := dest)];
      RosterOk(s2, o) && PurseTotal(s2) == PurseTotal(s) && QuitCount(s2) == QuitCount(s)
      && |s2| == |s| && s2[i].location == dest
      && forall j :: 0 <= j < |s2| ==> s2[j].address == s[j].address
  {
    assert SlotOk(s[i], o) && SlotOk(s[q], o);
    var s1 := s[q := s[q].(location := s[i].location)];
    RosterWrite(s, o, q, s[q].(location := s[i].location));
    RosterWrite(s1, o, i, s1[i].(location := dest));
    TotalsUpdate(s, q, s[q].(location := s[i].location));
    TotalsUpdate(s1, i, s1[i].(location := dest));
  }

  lemma SwapKeepsInv(st: State, b: Board, i: int, key: char, roll: nat)
    requires Inv(st, b) && !st.ended && 0 <= i < |st.roster| && PlanMove(st, b, i, key).Swap?
    ensures Shifted(st, Shift(st, b, i, key, roll), b, i, PlanMove(st, b, i, key).dest)
  {
    var o := b.original;
    var n := |st.roster|;
    var x := st.roster[i];
    assert SlotOk(x, o);
    var dest := PlanMove(st, b, i, key).dest;
    var q := PlanMove(st, b, i, key).other;
    assert SlotOk(st.roster[q], o);
    assert CellOk(st.master[dest], o[dest], n) && !IsAlpha(o[dest]);
    SwapCells(st.master, o, n, x.location, st.roster[q].location, dest, i);
    SwapRecords(st.roster, o, i, q, dest);
  }

  /** A step that moves the player keeps the invariant, the gold total among it. */
  lemma ShiftKeepsInv(st: State, b: Board, i: int, key: char, roll: nat)
    requires Inv(st, b) && !st.ended && 0 <= i < |st.roster|
    requires PlanMove(st, b, i, key).Advance? || PlanMove(st, b, i, key).Collect? || PlanMove(st, b, i, key).Swap?
    ensures Shifted(st, Shift(st, b, i, key, roll), b, i, PlanMove(st, b, i, key).dest)
    ensures GridOk(Shift(st, b, i, key, roll).master, b)
    ensures ViewsFit(Shift(st, b, i, key, roll).roster, Shift(st, b, i, key, roll).master)
  {
    var p := PlanMove(st, b, i, key);
    if p.Advance? {
      AdvanceKeepsInv(st, b, i, key, roll);
    } else if p.Collect? {
      CollectKeepsInv(st, b, i, key, roll);
    } else {
      SwapKeepsInv(st, b, i, key, roll);
    }
    InvFits(Shift(st, b, i, key, roll), b);
  }

  /**
   * game_playerMove for a lowercase key and the player at index i, with
   * `roll` the draw for a pile that is not the last. The last pile goes to
   * the player's purse, which is told, and ends the game; the nuggets left
   * are not reset.
   */
  function StepState(st: State, b: Board, i: int, key: char, roll: nat): State
    requires Inv(st, b) && !st.ended && 0 <= i < |st.roster|
  {
    var p := PlanMove(st, b, i, key);
    match p
    case BadKey => st
    case Blocked => st
    case Orphan(_) => st
    case LastPile(_) => Finish(Payout(st, i))
    case _ =>
      ShiftKeepsInv(st, b, i, key, roll);
      Broadcast(Shift(st, b, i, key, roll), b, i, Collected(st, b, i, key, roll))
  }

  /**
   * What a step keeps: the invariant and the roster's addresses; a step
   * with result 0 moves the player by the key's offset and leaves the game
   * running, a step with result 1 changes nothing, and only the last pile
   * ends the game.
   */
  predicate Stepped(st: State, t: State, b: Board, i: int, key: char)
    requires Inv(st, b) && 0 <= i < |st.roster|
  {
    var r := StepResult(st, b, i, key);
    Inv(t, b) && |t.roster| == |st.roster| && t.spectator == st.spectator
    && (forall j :: 0 <= j < |t.roster| ==> t.roster[j].address == st.roster[j].address)
    && (t.ended <==> r == -1)
    && (r == 1 ==> t == st)
    && (r != 0 ==> t.roster[i].location == st.roster[i].location)
    && (r == 0 ==> KeyDelta(key, b.nc).Some? && t.roster[i].location == st.roster[i].location + KeyDelta(key, b.nc).value)
  }

  /** The last pile goes to the player at index i, who is told; the pool is not emptied. */
  function Payout(st: State, i: int): State
    requires 0 <= i < |st.roster|
  {
    var x := st.roster[i];
    var y := x.(purse := x.purse + st.nuggets);
    st.(roster := st.roster[i := y], outbox := st.outbox + GoldMail(x.address, st.nuggets, y.purse, st.nuggets))
  }

  /** The payout keeps every part of the invariant but the gold total, which no longer matters once the game is over. */
  lemma PayoutKeepsInv(st: State, b: Board, i: int)
    requires Inv(st, b) && !st.ended && 0 <= i < |st.roster|
    ensures var t := Payout(st, i);
      Inv(t.(ended := true), b) && |t.roster| == |st.roster| && t.spectator == st.spectator
      && t.roster[i].location == st.roster[i].location
      && t.roster[i].purse == st.roster[i].purse + st.nuggets
      && forall j :: 0 <= j < |t.roster| ==> t.roster[j].address == st.roster[j].address
  {
    var x := st.roster[i];
    var y := x.(purse := x.purse + st.nuggets);
    assert SlotOk(x, b.original);
    RosterWrite(st.roster, b.original, i, y);
    TotalsUpdate(st.roster, i, y);
  }

  lemma LastPileKeepsInv(st: State, b: Board, i: int, key: char)
    requires Inv(st, b) && !st.ended && 0 <= i < |st.roster| && PlanMove(st, b, i, key).LastPile?
    ensures Stepped(st, Finish(Payout(st, i)), b, i, key)
  {
    PayoutKeepsInv(st, b, i);
    FinishKeepsInv(Payout(st, i), b);
    assert StepResult(st, b, i, key) == -1;
  }

  /** A step that reaches a cell goes by the key's offset. */
  lemma PlanDest(st: State, b: Board, i: int, key: char)
    requires Inv(st, b) && 0 <= i < |st.roster|
    requires PlanMove(st, b, i, key).Advance? || PlanMove(st, b, i, key).Collect? || PlanMove(st, b, i, key).Swap?
    ensures KeyDelta(key, b.nc).Some?
    ensures PlanMove(st, b, i, key).dest == st.roster[i].location + KeyDelta(key, b.nc).value
    ensures 0 <= PlanMove(st, b, i, key).dest < |st.master|
  {
    assert SlotOk(st.roster[i], b.original);
  }

  /** A broadcast after a step with result 0 keeps what Stepped states. */
  lemma BroadcastStepped(st: State, mid: State, b: Board, i: int, key: char, g: int)
    requires Inv(st, b) && 0 <= i < |st.roster| && StepResult(st, b, i, key) == 0 && KeyDelta(key, b.nc).Some?
    requires Shifted(st, mid, b, i, st.roster[i].location + KeyDelta(key, b.nc).value)
    ensures GridOk(mid.master, b) && ViewsFit(mid.roster, mid.master)
    ensures Stepped(st, Broadcast(mid, b, i, g), b, i, key)
  {
    BroadcastShifted(st, mid, b, i, st.roster[i].location + KeyDelta(key, b.nc).value, g);
  }

  /** The broadcast after a player moved keeps the invariant, the players, their addresses and the new location. */
  lemma BroadcastShifted(st: State, mid: State, b: Board, i: int, dest: int, g: int)
    requires Shifted(st, mid, b, i, dest)
    ensures GridOk(mid.master, b) && ViewsFit(mid.roster, mid.master)
    ensures Shifted(st, Broadcast(mid, b, i, g).(outbox := st.outbox), b, i, dest)
    ensures Inv(Broadcast(mid, b, i, g), b)
  {
    BroadcastKeepsInv(mid, b, i, g);
    var t := Broadcast(mid, b, i, g);
    assert t.roster[i].location == mid.roster[i].location;
    assert forall j :: 0 <= j < |t.roster| ==> t.roster[j].address == mid.roster[j].address;
  }

  /** A step that moves the player gives 0 and is its shift followed by the broadcast, for each kind of step. */
  lemma MoveStep(st: State, b: Board, i: int, key: char, roll: nat)
    requires Inv(st, b) && !st.ended && 0 <= i < |st.roster|
    requires PlanMove(st, b, i, key).Advance? || PlanMove(st, b, i, key).Collect? || PlanMove(st, b, i, key).Swap?
    ensures StepResult(st, b, i, key) == 0
    ensures StepState(st, b, i, key, roll) == Broadcast(Shift(st, b, i, key, roll), b, i, Collected(st, b, i, key, roll))
  {
    ShiftKeepsInv(st, b, i, key, roll);
  }

  /** The shift and the gold collected of each kind of step that moves the player. */
  lemma MoveKinds(st: State, b: Board, i: int, key: char, roll: nat)
    requires Inv(st, b) && !st.ended && 0 <= i < |st.roster|
    requires PlanMove(st, b, i, key).Advance? || PlanMove(st, b, i, key).Collect? || PlanMove(st, b, i, key).Swap?
    ensures PlanMove(st, b, i, key).Advance? ==>
      Collected(st, b, i, key, roll) == 0 && Shift(st, b, i, key, roll) == Relocated(st, b, i, PlanMove(st, b, i, key).dest)
    ensures PlanMove(st, b, i, key).Collect? ==>
      Collected(st, b, i, key, roll) == Award(st.nuggets, st.piles, roll)
      && Shift(st, b, i, key, roll) == Relocated(Awarded(st, i, Award(st.nuggets, st.piles, roll)), b, i, PlanMove(st, b, i, key).dest)
    ensures PlanMove(st, b, i, key).Swap? ==>
      Collected(st, b, i, key, roll) == 0 && IsAlpha(st.master[PlanMove(st, b, i, key).dest])
      && 0 <= PlanMove(st, b, i, key).other < |st.roster|
      && Shift(st, b, i, key, roll) == Swapped(st, i, PlanMove(st, b, i, key).other, PlanMove(st, b, i, key).dest)
  {
    assert SlotOk(st.roster[i], b.original);
  }

  lemma MoveKeepsInv(st: State, b: Board, i: int, key: char, roll: nat)
    requires Inv(st, b) && !st.ended && 0 <= i < |st.roster|
    requires PlanMove(st, b, i, key).Advance? || PlanMove(st, b, i, key).Collect? || PlanMove(st, b, i, key).Swap?
    ensures GridOk(Shift(st, b, i, key, roll).master, b) && ViewsFit(Shift(st, b, i, key, roll).roster, Shift(st, b, i, key, roll).master)
    ensures Stepped(st, Broadcast(Shift(st, b, i, key, roll), b, i, Collected(st, b, i, key, roll)), b, i, key)
  {
    PlanDest(st, b, i, key);
    ShiftKeepsInv(st, b, i, key, roll);
    assert StepResult(st, b, i, key) == 0;
    BroadcastStepped(st, Shift(st, b, i, key, roll), b, i, key, Collected(st, b, i, key, roll));
  }

  /** Every step keeps what Stepped states. */
  lemma StepKeepsInv(st: State, b: Board, i: int, key: char, roll: nat)
    requires Inv(st, b) && !st.ended && 0 <= i < |st.roster|
    ensures Stepped(st, StepState(st, b, i, key, roll), b, i, key)
  {
    NeverOrphan(st, b, i, key);
    var p := PlanMove(st, b, i, key);
    if p.LastPile? {
      LastPileKeepsInv(st, b, i, key);
    } else if p.Advance? || p.Collect? || p.Swap? {
      MoveKeepsInv(st, b, i, key, roll);
    }
  }

  /** Gold is neither made nor lost by a step that does not end the game. */
  lemma StepKeepsGold(st: State, b: Board, i: int, key: char, roll: nat)
    requires Inv(st, b) && !st.ended && 0 <= i < |st.roster|
    requires StepResult(st, b, i, key) != -1
    ensures var t := StepState(st, b, i, key, roll);
      t.nuggets + PurseTotal(t.roster) == GoldTotal && 1 <= t.piles <= t.nuggets
      && t.piles == st.piles - (if PlanMove(st, b, i, key).Collect? then 1 else 0)
  {
    StepKeepsInv(st, b, i, key, roll);
  }

  // --------------------------------------------------------- uppercase keys

  /**
   * A run of an uppercase key: the states before and after each lowercase
   * step, each step from a running game, and every step but the last one
   * with result 0.
   */
  predicate IsRun(trace: seq<State>, rolls: seq<nat>, b: Board, i: int, key: char)
  {
    |trace| == |rolls| + 1 && |rolls| >= 1
    && (forall k :: 0 <= k < |rolls| ==> Inv(trace[k], b) && !trace[k].ended && 0 <= i < |trace[k].roster|)
    && (forall k {:trigger rolls[k]} :: 0 <= k < |rolls| ==> trace[k + 1] == StepState(trace[k], b, i, key, rolls[k]))
    && (forall k :: 0 <= k < |rolls| - 1 ==> StepResult(trace[k], b, i, key) == 0)
  }

  /** The result of an uppercase key as game_playerMove computes it from the number of steps with result 0. */
  function UppercaseResultAsWritten(steps: nat): int
  {
    if steps == 0 then 1 else 0
  }

  /** The corrected result: -1 when the last step ended the game, as for a lowercase key. */
  function UppercaseResult(steps: nat, last: int): int
  {
    if last == -1 then -1 else if steps == 0 then 1 else 0
  }

  /**
   * A run whose last step collected the last pile has ended the game, yet
   * the result as written is 1 or 0, never -1; the corrected result is -1.
   */
  lemma UppercaseHidesGameEnd(trace: seq<State>, rolls: seq<nat>, b: Board, i: int, key: char)
    requires IsRun(trace, rolls, b, i, key)
    requires StepResult(trace[|rolls| - 1], b, i, key) == -1
    ensures trace[|rolls|].ended
    ensures UppercaseResultAsWritten(|rolls| - 1) in {0, 1}
    ensures UppercaseResult(|rolls| - 1, StepResult(trace[|rolls| - 1], b, i, key)) == -1
  {
    RunEnd(trace, rolls, b, i, key);
  }

  /** Where the last step does not end the game, the corrected result and the one as written agree. */
  lemma UppercaseResultAgrees(steps: nat, last: int)
    requires last != -1
    ensures UppercaseResult(steps, last) == UppercaseResultAsWritten(steps)
  {
  }

  /**
   * An uppercase key moves the player one key offset per step with result
   * 0, and no further: the step that stops the run leaves it in place.
   */
  lemma RunDistance(trace: seq<State>, rolls: seq<nat>, b: Board, i: int, key: char)
    requires IsRun(trace, rolls, b, i, key)
    requires StepResult(trace[|rolls| - 1], b, i, key) != 0
    ensures 0 <= i < |trace[|rolls|].roster|
    ensures KeyDelta(key, b.nc).Some? ==>
      trace[|rolls|].roster[i].location == trace[0].roster[i].location + (|rolls| - 1) * KeyDelta(key, b.nc).value
  {
    RunPrefix(trace, rolls, b, i, key, |rolls|);
    RunLastStays(trace, rolls, b, i, key);
  }

  /** The step that stops a run leaves the player where it was. */
  lemma RunLastStays(trace: seq<State>, rolls: seq<nat>, b: Board, i: int, key: char)
    requires IsRun(trace, rolls, b, i, key)
    requires StepResult(trace[|rolls| - 1], b, i, key) != 0
    ensures 0 <= i < |trace[|rolls| - 1].roster| && 0 <= i < |trace[|rolls|].roster|
    ensures trace[|rolls|].roster[i].location == trace[|rolls| - 1].roster[i].location
  {
    RunLast(trace, rolls, b, i, key);
  }

  /** A key that is not a movement key stops the run at once, with nothing changed. */
  lemma RunBadKey(trace: seq<State>, rolls: seq<nat>, b: Board, i: int, key: char)
    requires IsRun(trace, rolls, b, i, key) && b.nc >= 2 && KeyDelta(key, b.nc).None?
    ensures |rolls| == 1 && trace[1] == trace[0]
  {
    if |rolls| > 1 {
      RunAdvance(trace, rolls, b, i, key, 0);
    }
    RunLast(trace, rolls, b, i, key);
    BadKeyStops(trace[0], b, i, key);
  }

  /** The first state and the last step of a run. */
  lemma RunLast(trace: seq<State>, rolls: seq<nat>, b: Board, i: int, key: char)
    requires IsRun(trace, rolls, b, i, key)
    ensures Inv(trace[0], b) && 0 <= i < |trace[0].roster|
    ensures Inv(trace[|rolls| - 1], b) && 0 <= i < |trace[|rolls| - 1].roster|
    ensures Stepped(trace[|rolls| - 1], trace[|rolls|], b, i, key)
  {
    RunStep(trace, rolls, b, i, key, |rolls| - 1);
  }

  /** Each step of a run keeps what Stepped states. */
  lemma RunStep(trace: seq<State>, rolls: seq<nat>, b: Board, i: int, key: char, k: int)
    requires IsRun(trace, rolls, b, i, key) && 0 <= k < |rolls|
    ensures Inv(trace[k], b) && 0 <= i < |trace[k].roster|
    ensures Stepped(trace[k], trace[k + 1], b, i, key)
  {
    StepKeepsInv(trace[k], b, i, key, rolls[k]);
  }

  /** Every step of a run but the last moves the player by the key's offset. */
  lemma RunAdvance(trace: seq<State>, rolls: seq<nat>, b: Board, i: int, key: char, k: int)
    requires IsRun(trace, rolls, b, i, key) && 0 <= k < |rolls| - 1
    ensures 0 <= i < |trace[k].roster| && 0 <= i < |trace[k + 1].roster| && KeyDelta(key, b.nc).Some?
    ensures trace[k + 1].roster[i].location == trace[k].roster[i].location + KeyDelta(key, b.nc).value
  {
    RunStep(trace, rolls, b, i, key, k);
    assert StepResult(trace[k], b, i, key) == 0;
  }

  /** A key that is not a movement key is refused. */
  lemma BadKeyStops(st: State, b: Board, i: int, key: char)
    requires Inv(st, b) && 0 <= i < |st.roster| && KeyDelta(key, b.nc).None?
    ensures StepResult(st, b, i, key) == 1
  {
  }

  /** After n steps of a run, the player is n - 1 offsets further than at the start, plus the nth step. */
  lemma RunPrefix(trace: seq<State>, rolls: seq<nat>, b: Board, i: int, key: char, n: nat)
    requires IsRun(trace, rolls, b, i, key) && 1 <= n <= |rolls|
    ensures 0 <= i < |trace[n - 1].roster|
    ensures n > 1 ==> (KeyDelta(key, b.nc).Some?
      && trace[n - 1].roster[i].location == trace[0].roster[i].location + (n - 1) * KeyDelta(key, b.nc).value)
  {
    if n > 1 {
      RunAdvance(trace, rolls, b, i, key, 0);
      var d := KeyDelta(key, b.nc).value;
      forall k | 0 <= k < n - 1
        ensures Stride(trace[k], trace[k + 1], i, d)
      {
        RunAdvance(trace, rolls, b, i, key, k);
      }
      StrideChain(trace, i, d, n - 1);
    }
  }

  /** The player i is in both states and moved by d from the first to the second. */
  predicate Stride(s: State, t: State, i: int, d: int)
  {
    0 <= i < |s.roster| && 0 <= i < |t.roster| && t.roster[i].location == s.roster[i].location + d
  }

  /** Steps of d, one after another, add up. */
  lemma {:induction false} StrideChain(trace: seq<State>, i: int, d: int, m: nat)
    requires 0 < m < |trace| && forall k :: 0 <= k < m ==> Stride(trace[k], trace[k + 1], i, d)
    ensures 0 <= i < |trace[0].roster| && 0 <= i < |trace[m].roster|
    ensures trace[m].roster[i].location == trace[0].roster[i].location + m * d
  {
    assert Stride(trace[m - 1], trace[m], i, d);
    if m > 1 {
      StrideChain(trace, i, d, m - 1);
      StepsAdd(trace[0].roster[i].location, trace[m - 1].roster[i].location, trace[m].roster[i].location, d, m + 1);
    }
  }

  lemma StepsAdd(l0: int, lk: int, l1: int, d: int, n: int)
    requires n >= 2 && l1 == lk + d && lk == l0 + (n - 2) * d
    ensures l1 == l0 + (n - 1) * d
  {
  }

  /** A step that moves the player and one in range: what a run needs to go on. */
  lemma StrideBound(l0: int, ln: int, d: int, n: int, size: int)
    requires 0 <= l0 < size && 0 <= ln < size && d != 0 && n >= 1 && ln == l0 + n * d
    ensures n < size
  {
    if d > 0 {
      MulMono(n, 1, d);
    } else {
      MulMono(n, d, -1);
    }
  }

  /** The last step of a run that returned 0 moved the player by the key's offset to a cell of the map. */
  lemma LastStepAdvances(trace: seq<State>, rolls: seq<nat>, b: Board, i: int, key: char)
    requires IsRun(trace, rolls, b, i, key)
    requires StepResult(trace[|rolls| - 1], b, i, key) == 0
    ensures 0 <= i < |trace[|rolls| - 1].roster| && 0 <= i < |trace[|rolls|].roster| && KeyDelta(key, b.nc).Some?
    ensures trace[|rolls|].roster[i].location == trace[|rolls| - 1].roster[i].location + KeyDelta(key, b.nc).value
    ensures 0 <= trace[|rolls|].roster[i].location < |b.original|
  {
    var n := |rolls|;
    RunStep(trace, rolls, b, i, key, n - 1);
    assert SlotOk(trace[n].roster[i], b.original);
  }

  /** A run whose last step returned 0 has fewer steps than the map has cells, so the uppercase loop stops. */
  lemma RunBound(trace: seq<State>, rolls: seq<nat>, b: Board, i: int, key: char)
    requires IsRun(trace, rolls, b, i, key)
    requires StepResult(trace[|rolls| - 1], b, i, key) == 0
    ensures |rolls| < |b.original|
  {
    var n := |rolls|;
    RunPrefix(trace, rolls, b, i, key, n);
    LastStepAdvances(trace, rolls, b, i, key);
    var d := KeyDelta(key, b.nc).value;
    var l0 := trace[0].roster[i].location;
    var ln := trace[n].roster[i].location;
    assert Inv(trace[0], b) && 0 <= i < |trace[0].roster|;
    assert SlotOk(trace[0].roster[i], b.original);
    if n > 1 {
      StepsAdd(l0, trace[n - 1].roster[i].location, ln, d, n + 1);
    }
    StrideBound(l0, ln, d, n, |b.original|);
  }

  /** A run whose last step returned 0, followed by one more step, is a run. */
  lemma RunExtend(trace: seq<State>, rolls: seq<nat>, b: Board, i: int, key: char, t: State, roll: nat)
    requires IsRun(trace, rolls, b, i, key) && StepResult(trace[|rolls| - 1], b, i, key) == 0
    requires Inv(trace[|rolls|], b) && !trace[|rolls|].ended && 0 <= i < |trace[|rolls|].roster|
    requires t == StepState(trace[|rolls|], b, i, key, roll)
    ensures IsRun(trace + [t], rolls + [roll], b, i, key)
  {
    ExtendRunning(trace, rolls, b, i, key, t);
    ExtendSteps(trace, rolls, b, i, key, t, roll);
    ExtendResults(trace, rolls, b, i, key, t, roll);
  }

  /** The states of the extended run are in a running game. */
  lemma ExtendRunning(trace: seq<State>, rolls: seq<nat>, b: Board, i: int, key: char, t: State)
    requires IsRun(trace, rolls, b, i, key)
    requires Inv(trace[|rolls|], b) && !trace[|rolls|].ended && 0 <= i < |trace[|rolls|].roster|
    ensures forall k :: 0 <= k < |rolls| + 1 ==>
      Inv((trace + [t])[k], b) && !(trace + [t])[k].ended && 0 <= i < |(trace + [t])[k].roster|
  {
    forall k | 0 <= k < |rolls| + 1
      ensures Inv((trace + [t])[k], b) && !(trace + [t])[k].ended && 0 <= i < |(trace + [t])[k].roster|
    {
      assert (trace + [t])[k] == trace[k];
    }
  }

  /** Each step of the extended run is a step. */
  lemma ExtendSteps(trace: seq<State>, rolls: seq<nat>, b: Board, i: int, key: char, t: State, roll: nat)
    requires IsRun(trace, rolls, b, i, key)
    requires Inv(trace[|rolls|], b) && !trace[|rolls|].ended && 0 <= i < |trace[|rolls|].roster|
    requires t == StepState(trace[|rolls|], b, i, key, roll)
    ensures forall k {:trigger (rolls + [roll])[k]} :: 0 <= k < |rolls| + 1 ==>
      Inv((trace + [t])[k], b) && !(trace + [t])[k].ended && 0 <= i < |(trace + [t])[k].roster|
      && (trace + [t])[k + 1] == StepState((trace + [t])[k], b, i, key, (rolls + [roll])[k])
  {
    var t2 := trace + [t];
    var r2 := rolls + [roll];
    var n := |rolls|;
    forall k {:trigger r2[k]} | 0 <= k < n + 1
      ensures Inv(t2[k], b) && !t2[k].ended && 0 <= i < |t2[k].roster|
      ensures t2[k + 1] == StepState(t2[k], b, i, key, r2[k])
    {
      if k < n {
        assert t2[k] == trace[k] && t2[k + 1] == trace[k + 1] && r2[k] == rolls[k];
      } else {
        assert t2[k] == trace[n] && t2[k + 1] == t && r2[k] == roll;
      }
    }
  }

  /** Every step of the extended run but its last returned 0. */
  lemma ExtendResults(trace: seq<State>, rolls: seq<nat>, b: Board, i: int, key: char, t: State, roll: nat)
    requires IsRun(trace, rolls, b, i, key) && StepResult(trace[|rolls| - 1], b, i, key) == 0
    ensures forall k :: 0 <= k < |rolls| ==>
      Inv((trace + [t])[k], b) && 0 <= i < |(trace + [t])[k].roster| && StepResult((trace + [t])[k], b, i, key) == 0
  {
    forall k | 0 <= k < |rolls|
      ensures Inv((trace + [t])[k], b) && 0 <= i < |(trace + [t])[k].roster| && StepResult((trace + [t])[k], b, i, key) == 0
    {
      assert (trace + [t])[k] == trace[k];
    }
  }

  /** The one step of a run of length one. */
  lemma RunSingle(trace: seq<State>, rolls: seq<nat>, b: Board, i: int, key: char)
    requires IsRun(trace, rolls, b, i, key) && |rolls| == 1
    ensures Inv(trace[0], b) && !trace[0].ended && 0 <= i < |trace[0].roster|
    ensures trace[1] == StepState(trace[0], b, i, key, rolls[0])
  {
    assert rolls[0] == rolls[0];
  }

  /** A single step from a state that keeps the invariant is a run. */
  lemma RunOne(st: State, b: Board, i: int, key: char, roll: nat)
    requires Inv(st, b) && !st.ended && 0 <= i < |st.roster|
    ensures IsRun([st, StepState(st, b, i, key, roll)], [roll], b, i, key)
  {
  }

  /** From s to t, the number of players, the spectator and the addresses stay. */
  predicate Kept(s: State, t: State)
  {
    |t.roster| == |s.roster| && t.spectator == s.spectator
    && forall j :: 0 <= j < |t.roster| ==> t.roster[j].address == s.roster[j].address
  }

  /** What each step keeps, the whole sequence keeps. */
  lemma {:induction false} KeptChain(trace: seq<State>, n: nat)
    requires n < |trace| && forall k :: 0 <= k < n ==> Kept(trace[k], trace[k + 1])
    ensures Kept(trace[0], trace[n])
  {
    if n > 0 {
      KeptChain(trace, n - 1);
      assert Kept(trace[n - 1], trace[n]);
    }
  }

  /** Every state of a run keeps the number of players, the spectator and the addresses. */
  lemma RunKeeps(trace: seq<State>, rolls: seq<nat>, b: Board, i: int, key: char, n: nat)
    requires IsRun(trace, rolls, b, i, key) && n <= |rolls|
    ensures Kept(trace[0], trace[n])
  {
    forall k | 0 <= k < n
      ensures Kept(trace[k], trace[k + 1])
    {
      RunStepKeeps(trace, rolls, b, i, key, k);
    }
    KeptChain(trace, n);
  }

  /** One step of a run keeps the number of players, the spectator and the addresses. */
  lemma RunStepKeeps(trace: seq<State>, rolls: seq<nat>, b: Board, i: int, key: char, k: nat)
    requires IsRun(trace, rolls, b, i, key) && k < |rolls|
    ensures Kept(trace[k], trace[k + 1])
  {
    RunStep(trace, rolls, b, i, key, k);
  }

  /** A key from an address without a player: the spectator, if it is the sender, is told it cannot move. */
  function Misstep(st: State, a: Addr): State
  {
    if st.spectator == Some(a) then st.(outbox := st.outbox + [Mail(a, Error(SpectatorMoveText))]) else st
  }

  /**
   * game_playerMove from address a with the key, ending in state t with
   * result r: nothing for an invalid address; the spectator's error for an
   * address without a player; otherwise a run of lowercase steps of the
   * first player with the address, one step for a lowercase key, and for
   * an uppercase key steps for as long as they return 0, with the
   * corrected result.
   */
  predicate Moved(st: State, t: State, b: Board, a: Addr, key: char, r: int, trace: seq<State>, rolls: seq<nat>)
  {
    var i := FirstWith(st.roster, a);
    if !IsAddr(a) then r == 1 && t == st
    else if i == -1 then r == 1 && t == Misstep(st, a)
    else Ran(st, t, b, i, key, r, trace, rolls)
  }

  /**
   * The player at index i moved with the key from st to t with result r:
   * a run of lowercase steps, one step for a key that is not uppercase,
   * and for an uppercase key steps for as long as they return 0, with the
   * corrected result.
   */
  predicate Ran(st: State, t: State, b: Board, i: int, key: char, r: int, trace: seq<State>, rolls: seq<nat>)
  {
    IsRun(trace, rolls, b, i, ToLower(key)) && trace[0] == st && trace[|rolls|] == t
    && var last := StepResult(trace[|rolls| - 1], b, i, ToLower(key));
       if IsUpper(key) then last != 0 && r == UppercaseResult(|rolls| - 1, last)
       else |rolls| == 1 && r == last
  }

  /** A run of steps + 1 steps of the key, the last of which had the result last. */
  predicate Going(trace: seq<State>, rolls: seq<nat>, b: Board, i: int, key: char, steps: nat, last: int)
  {
    IsRun(trace, rolls, b, i, key) && |rolls| == steps + 1 && last == StepResult(trace[steps], b, i, key)
  }

  /** A run whose last step gave 0 extends by the step from its last state. */
  lemma GoingExtend(trace: seq<State>, rolls: seq<nat>, b: Board, i: int, key: char, n: nat, t: State, roll: nat)
    requires Going(trace, rolls, b, i, key, n, 0)
    requires Inv(trace[n + 1], b) && !trace[n + 1].ended && 0 <= i < |trace[n + 1].roster|
    requires t == StepState(trace[n + 1], b, i, key, roll)
    ensures Going(trace + [t], rolls + [roll], b, i, key, n + 1, StepResult(trace[n + 1], b, i, key))
    ensures (trace + [t])[0] == trace[0] && (trace + [t])[n + 2] == t
  {
    RunExtend(trace, rolls, b, i, key, t, roll);
    assert (trace + [t])[n + 1] == trace[n + 1];
  }

  /** A run that stopped: its last step had a result other than 0. */
  predicate Repeated(trace: seq<State>, rolls: seq<nat>, b: Board, i: int, key: char, steps: nat, last: int)
  {
    Going(trace, rolls, b, i, key, steps, last) && last != 0
  }

  /** A key that is not uppercase: one step, and its result. */
  lemma RanSingle(st: State, t: State, b: Board, i: int, key: char, r: int, trace: seq<State>, rolls: seq<nat>)
    requires !IsUpper(key) && Going(trace, rolls, b, i, key, 0, r) && trace[0] == st && trace[1] == t
    ensures Ran(st, t, b, i, key, r, trace, rolls)
  {
  }

  /** An uppercase key: steps while they give 0, the last one not, and the corrected result. */
  lemma RanRepeated(st: State, t: State, b: Board, i: int, key: char, r: int, trace: seq<State>, rolls: seq<nat>, last: int, steps: nat)
    requires IsUpper(key) && Repeated(trace, rolls, b, i, ToLower(key), steps, last) && trace[0] == st && trace[steps + 1] == t
    requires r == UppercaseResult(steps, last)
    ensures Ran(st, t, b, i, key, r, trace, rolls)
  {
  }

  /** A key from a valid address: the stranger's case and the player's case of Moved. */
  lemma MovedFrom(st: State, t: State, b: Board, a: Addr, key: char, r: int, trace: seq<State>, rolls: seq<nat>, i: int)
    requires IsAddr(a) && i == FirstWith(st.roster, a)
    requires i == -1 ==> r == 1 && t == Misstep(st, a)
    requires i != -1 ==> Ran(st, t, b, i, key, r, trace, rolls)
    ensures Moved(st, t, b, a, key, r, trace, rolls)
  {
  }

  /**
   * A move keeps the invariant, the players and the spectator; the game
   * ends exactly when the result is -1, and a result of 1 leaves the map,
   * the players and the gold as they were.
   */
  lemma MovedKeepsInv(st: State, t: State, b: Board, a: Addr, key: char, r: int, trace: seq<State>, rolls: seq<nat>)
    requires Inv(st, b) && !st.ended && Moved(st, t, b, a, key, r, trace, rolls)
    ensures Inv(t, b) && |t.roster| == |st.roster| && t.spectator == st.spectator
    ensures t.ended <==> r == -1
    ensures r == 1 ==> t.master == st.master && t.roster == st.roster && t.piles == st.piles && t.nuggets == st.nuggets
  {
    var i := FirstWith(st.roster, a);
    if IsAddr(a) && i != -1 {
      RunKeeps(trace, rolls, b, i, ToLower(key), |rolls|);
      RunEnd(trace, rolls, b, i, ToLower(key));
    }
  }

  /** The end of a run: the game is over exactly when the last step returned -1, and a last step that returned 1 changed nothing. */
  lemma RunEnd(trace: seq<State>, rolls: seq<nat>, b: Board, i: int, key: char)
    requires IsRun(trace, rolls, b, i, key)
    ensures var n := |rolls|;
      Inv(trace[n - 1], b) && 0 <= i < |trace[n - 1].roster| && Inv(trace[n], b)
      && (trace[n].ended <==> StepResult(trace[n - 1], b, i, key) == -1)
      && (StepResult(trace[n - 1], b, i, key) == 1 ==> trace[n] == trace[n - 1])
  {
    RunStep(trace, rolls, b, i, key, |rolls| - 1);
  }
}
