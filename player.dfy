/**
 * The player record: an address, a normalised name, the player's remembered
 * view of the map, a purse, a location (an index into the map buffer) and a
 * status that is true while the player is in the game. A spectator is a
 * record with an empty name; every guarded setter refuses it.
 */
module Player {
  import opened Wrappers
  import opened Chars
  import opened Message

  class Player {
    var address: Addr
    var name: string
    var grid: Option<string>
    var purse: int
    var location: int
    var status: bool

    /** The record as `player_new` initialises it. */
    constructor (address: Addr, name: string)
      ensures this.address == address && this.name == name
      ensures grid == None && purse == 0 && location == -1 && status
    {
      this.address := address;
      this.name := name;
      grid := None;
      purse := 0;
      location := -1;
      status := true;
    }
  }

  // ---------------------------------------------------------------- names

  /** The character `normalizeName` stores in place of `c`. */
  function NormalChar(c: char): char
  {
    if !IsGraph(c) && !IsBlank(c) then '_' else c
  }

  /**
   * `r` is `name` truncated to `maxNameLength` characters, with every
   * character that is neither graphic nor blank replaced by an underscore.
   */
  predicate IsNormalized(r: string, name: string, maxNameLength: int)
  {
    |r| == Min(|name|, maxNameLength)
    && forall i :: 0 <= i < |r| ==> r[i] == NormalChar(name[i])
  }

  /** normalizeName: fills a buffer of the truncated length one character at a time. */
  method NormalizeName(name: string, maxNameLength: int) returns (r: string)
    requires maxNameLength >= 0
    ensures IsNormalized(r, name, maxNameLength)
  {
    var newLength := if |name| > maxNameLength then maxNameLength else |name|;
    var newName := new char[newLength];
    var i := 0;
    while i < newLength
      invariant 0 <= i <= newLength
      invariant forall j :: 0 <= j < i ==> newName[j] == NormalChar(name[j])
    {
      if !IsGraph(name[i]) && !IsBlank(name[i]) {
        newName[i] := '_';
      } else {
        newName[i] := name[i];
      }
      i := i + 1;
    }
    r := newName[..];
  }

  /**
   * Normalising changes exactly the characters that are neither graphic nor
   * blank, so a name of graphic and blank characters within the bound is
   * kept as it is.
   */
  lemma NormalizedChanges(r: string, name: string, maxNameLength: int)
    requires IsNormalized(r, name, maxNameLength)
    ensures forall i :: 0 <= i < |r| ==> (r[i] != name[i] <==> !IsGraph(name[i]) && !IsBlank(name[i]))
    ensures |name| <= maxNameLength && (forall i :: 0 <= i < |name| ==> IsGraph(name[i]) || IsBlank(name[i])) ==> r == name
  {
    forall i | 0 <= i < |r|
      ensures r[i] != name[i] <==> !IsGraph(name[i]) && !IsBlank(name[i])
    {
      assert IsGraph('_');
    }
  }

  /** A normalised name normalises to itself: the operation is idempotent. */
  lemma NormalizedIdempotent(r: string, name: string, maxNameLength: int)
    requires maxNameLength >= 0 && IsNormalized(r, name, maxNameLength)
    ensures IsNormalized(r, r, maxNameLength)
    ensures forall i :: 0 <= i < |r| ==> IsGraph(r[i]) || IsBlank(r[i])
  {
  }

  // ------------------------------------------------------------ creation

  /**
   * player_new: NULL for an invalid address, a NULL name or a negative
   * length bound; otherwise a record with the normalised name, no grid,
   * location -1, an empty purse and status true.
   */
  method NewPlayer(add: Addr, name: Option<string>, maxNameLength: int) returns (p: Player?)
    ensures p == null <==> !IsAddr(add) || name.None? || maxNameLength < 0
    ensures p != null ==> (fresh(p) && p.address == add
      && IsNormalized(p.name, name.value, maxNameLength)
      && p.grid == None && p.purse == 0 && p.location == -1 && p.status)
  {
    if !IsAddr(add) || name.None? || maxNameLength < 0 {
      return null;
    }
    var newName := NormalizeName(name.value, maxNameLength);
    p := new Player(add, newName);
  }

  // ------------------------------------------------------------- getters

  function GetAddr(p: Player?): Addr
    reads p
  {
    if p != null then p.address else NoAddr
  }

  function GetName(p: Player?): Option<string>
    reads p
  {
    if p != null then Some(p.name) else None
  }

  function GetGrid(p: Player?): Option<string>
    reads p
  {
    if p != null then p.grid else None
  }

  function GetPurse(p: Player?): int
    reads p
  {
    if p != null && p.purse > -1 then p.purse else -1
  }

  function GetLoc(p: Player?): int
    reads p
  {
    if p != null && p.location > -1 then p.location else -1
  }

  function GetStatus(p: Player?): bool
    reads p
  {
    p != null && p.status
  }

  /**
   * The getters answer with their error sentinel for a missing record, and
   * the integer getters never report a negative value other than -1.
   */
  lemma GettersSentinels(p: Player?)
    ensures p == null ==> (GetAddr(p) == NoAddr && GetName(p) == None && GetGrid(p) == None
      && GetPurse(p) == -1 && GetLoc(p) == -1 && !GetStatus(p))
    ensures GetPurse(p) >= -1 && (GetPurse(p) >= 0 ==> p != null && GetPurse(p) == p.purse)
    ensures GetLoc(p) >= -1 && (GetLoc(p) >= 0 ==> p != null && GetLoc(p) == p.location)
  {
  }

  // ------------------------------------------------------------- setters

  /** player_setGrid: replaces the grid with a copy of a non-NULL grid. */
  method SetGrid(p: Player?, newGrid: Option<string>) returns (ok: bool)
    modifies if p == null then {} else {p}`grid
    ensures ok <==> p != null && newGrid.Some?
    ensures p != null ==> p.grid == (if ok then newGrid else old(p.grid))
  {
    if p != null && newGrid.Some? {
      p.grid := newGrid;
      return true;
    }
    return false;
  }

  /** player_addPurse: only a named player, and only a positive amount. */
  method AddPurse(p: Player?, newGold: int) returns (ok: bool)
    modifies p
    ensures ok <==> p != null && |p.name| > 0 && newGold > 0
    ensures p != null ==> (p.purse == old(p.purse) + (if ok then newGold else 0)
      && p.address == old(p.address) && p.name == old(p.name) && p.grid == old(p.grid)
      && p.location == old(p.location) && p.status == old(p.status))
    ensures p != null ==> p.purse >= old(p.purse)
  {
    if p != null && |p.name| > 0 && newGold > 0 {
      p.purse := p.purse + newGold;
      return true;
    }
    return false;
  }

  /**
   * player_setLoc: only a named player, and only an index inside the
   * player's grid. Measuring a missing grid is undefined in C, so a caller
   * whose request reaches that measurement must have given the player a grid.
   */
  method SetLoc(p: Player?, newLoc: int) returns (ok: bool)
    requires p != null && |p.name| > 0 && newLoc >= 0 ==> p.grid.Some?
    modifies p
    ensures p != null ==> (p.address == old(p.address) && p.name == old(p.name)
      && p.grid == old(p.grid) && p.purse == old(p.purse) && p.status == old(p.status))
    ensures ok <==> p != null && |p.name| > 0 && newLoc >= 0 && newLoc < |p.grid.value|
    ensures p != null ==> p.location == (if ok then newLoc else old(p.location))
  {
    if p != null && |p.name| > 0 && newLoc >= 0 && newLoc < |p.grid.value| {
      p.location := newLoc;
      return true;
    }
    return false;
  }

  /** player_quitGame: a named, active player becomes inactive, once. */
  method QuitGame(p: Player?) returns (ok: bool)
    modifies p
    ensures ok <==> p != null && |p.name| > 0 && old(p.status)
    ensures p != null ==> (p.status == (old(p.status) && !ok)
      && p.address == old(p.address) && p.name == old(p.name) && p.grid == old(p.grid)
      && p.purse == old(p.purse) && p.location == old(p.location))
  {
    if p != null && |p.name| > 0 && p.status {
      p.status := false;
      return true;
    }
    return false;
  }

  // ------------------------------------------------------------- summary

  function DigitChar(d: nat): (c: char)
    requires d < 10
    ensures IsDigit(c) && c as int - '0' as int == d
  {
    ('0' as int + d) as char
  }

  /** The digits `%d` prints for a non-negative int. */
  function Decimal(n: nat): (r: string)
    ensures |r| >= 1 && IsDigit(r[0])
    ensures forall i :: 0 <= i < |r| ==> IsDigit(r[i])
    decreases n
  {
    if n < 10 then [DigitChar(n)] else Decimal(n / 10) + [DigitChar(n % 10)]
  }

  /** The value of a run of decimal digits. */
  function ParseDecimal(s: string): nat
    decreases |s|
  {
    if s == [] then 0 else 10 * ParseDecimal(s[..|s| - 1]) + DigitValue(s[|s| - 1])
  }

  function DigitValue(c: char): nat
  {
    if IsDigit(c) then c as int - '0' as int else 0
  }

  /** Reading back the digits of a number gives the number. */
  lemma {:induction false} DecimalRoundTrip(n: nat)
    ensures ParseDecimal(Decimal(n)) == n
    decreases n
  {
    if n >= 10 {
      DecimalRoundTrip(n / 10);
      var s := Decimal(n);
      assert s[..|s| - 1] == Decimal(n / 10);
    }
  }

  function Spaces(n: nat): (r: string)
    ensures |r| == n && forall i :: 0 <= i < n ==> r[i] == ' '
  {
    seq(n, _ => ' ')
  }

  /** `%10d`: a number right-aligned in a field of ten characters. */
  function PadLeft(s: string, width: nat): string
  {
    if |s| >= width then s else Spaces(width - |s|) + s
  }

  /**
   * The corrected player_summary line: the player's letter, the purse in a
   * field of ten, the name and a newline; the empty string for a spectator,
   * a negative purse or an index with no letter.
   */
  function SummaryLine(name: string, purse: int, id: int): (r: string)
    ensures r == "" <==> !(0 <= id < 26) || purse < 0 || name == ""
  {
    if !(0 <= id < 26) || purse < 0 || name == "" then ""
    else [Letter(id), ' '] + PadLeft(Decimal(purse), 10) + " " + name + "\n"
  }

  /** player_summary on a record that may be missing. */
  function Summary(p: Player?, id: int): string
    reads p
  {
    if p == null || GetPurse(p) < 0 then "" else SummaryLine(p.name, p.purse, id)
  }

  /** C's conversion of an int to a signed 8-bit `char`. */
  function SignedChar(v: int): int
  {
    (v + 128) % 256 - 128
  }

  /** player_summary as written: the letter is `'A' + id` wrapped to a `char`. */
  function SummaryAsWritten(name: string, purse: int, id: int): string
  {
    var c := SignedChar('A' as int + id);
    if purse < 0 || name == "" || c < 'A' as int || c > 'Z' as int then ""
    else [c as char, ' '] + PadLeft(Decimal(purse), 10) + " " + name + "\n"
  }

  /** Where no wrap-around happens, the code as written and the corrected line agree. */
  lemma SummaryAsWrittenAgrees(name: string, purse: int, id: int)
    requires -193 <= id <= 62
    ensures SummaryAsWritten(name, purse, id) == SummaryLine(name, purse, id)
  {
  }

  /** Index 256 has no letter, yet the code as written prints the line of player A. */
  lemma SummaryLetterWraps()
    ensures SummaryLine("x", 0, 256) == ""
    ensures SummaryAsWritten("x", 0, 256) == SummaryLine("x", 0, 0) != ""
  {
  }

  // ------------------------------------------------- reading a summary back

  datatype SummaryFields = SummaryFields(id: int, purse: nat, name: string)

  function DropSpaces(s: string): string
  {
    if s != [] && s[0] == ' ' then DropSpaces(s[1..]) else s
  }

  function DigitRun(s: string): (k: nat)
    ensures k <= |s|
  {
    if s != [] && IsDigit(s[0]) then 1 + DigitRun(s[1..]) else 0
  }

  /** Splits a summary line into the letter's index, the purse and the name. */
  function ParseSummary(line: string): Option<SummaryFields>
  {
    if |line| < 2 || !IsUpper(line[0]) || line[1] != ' ' then None
    else ParseFields(line[0] as int - 'A' as int, DropSpaces(line[2..]))
  }

  /** The digits of the purse, one space, and the name up to the final newline. */
  function ParseFields(id: int, rest: string): Option<SummaryFields>
  {
    var k := DigitRun(rest);
    if k == 0 || k + 1 >= |rest| || rest[k] != ' ' || rest[|rest| - 1] != '\n' then None
    else Some(SummaryFields(id, ParseDecimal(rest[..k]), rest[k + 1..|rest| - 1]))
  }

  lemma {:induction false} DropSpacesPrefix(n: nat, s: string)
    requires s != [] && s[0] != ' '
    ensures DropSpaces(Spaces(n) + s) == s
    decreases n
  {
    if n > 0 {
      assert (Spaces(n) + s)[1..] == Spaces(n - 1) + s;
      DropSpacesPrefix(n - 1, s);
    }
  }

  lemma {:induction false} DigitRunPrefix(d: string, s: string)
    requires forall i :: 0 <= i < |d| ==> IsDigit(d[i])
    requires s != [] && !IsDigit(s[0])
    ensures DigitRun(d + s) == |d|
    decreases |d|
  {
    if d != [] {
      assert (d + s)[1..] == d[1..] + s;
      DigitRunPrefix(d[1..], s);
    }
  }

  lemma ParseHeader(c: char, gap: nat, rest: string)
    requires IsUpper(c) && rest != [] && rest[0] != ' '
    ensures ParseSummary([c, ' '] + (Spaces(gap) + rest)) == ParseFields(c as int - 'A' as int, rest)
  {
    var line := [c, ' '] + (Spaces(gap) + rest);
    assert line[2..] == Spaces(gap) + rest;
    DropSpacesPrefix(gap, rest);
  }

  lemma ParseFieldsAt(id: int, rest: string, k: nat)
    requires DigitRun(rest) == k && 0 < k && k + 1 < |rest| && rest[k] == ' ' && rest[|rest| - 1] == '\n'
    ensures ParseFields(id, rest) == Some(SummaryFields(id, ParseDecimal(rest[..k]), rest[k + 1..|rest| - 1]))
  {
  }

  lemma LaidOutSlices(d: string, name: string)
    requires d != [] && name != []
    ensures var rest := d + ([' '] + name + ['\n']);
      rest[..|d|] == d && rest[|d|] == ' ' && rest[|rest| - 1] == '\n' && rest[|d| + 1..|rest| - 1] == name
  {
    var tail := [' '] + name + ['\n'];
    var rest := d + tail;
    assert rest[|d|..] == tail;
    assert tail[1..|tail| - 1] == name;
  }

  lemma ParseFieldsLaidOut(id: int, d: string, name: string)
    requires d != [] && name != []
    requires forall i :: 0 <= i < |d| ==> IsDigit(d[i])
    ensures ParseFields(id, d + ([' '] + name + ['\n'])) == Some(SummaryFields(id, ParseDecimal(d), name))
  {
    var tail := [' '] + name + ['\n'];
    DigitRunPrefix(d, tail);
    LaidOutSlices(d, name);
    ParseFieldsAt(id, d + tail, |d|);
  }

  /** The spaces `%10d` puts before the digits. */
  function Gap(d: string): nat
  {
    if |d| >= 10 then 0 else 10 - |d|
  }

  lemma SummaryLayout(name: string, purse: nat, id: int)
    requires 0 <= id < 26 && name != ""
    ensures SummaryLine(name, purse, id)
      == [Letter(id), ' '] + (Spaces(Gap(Decimal(purse))) + (Decimal(purse) + ([' '] + name + ['\n'])))
  {
    var d := Decimal(purse);
    var pad := PadLeft(d, 10);
    assert pad == Spaces(Gap(d)) + d;
  }

  /** A summary line carries the letter, the purse and the name back out intact. */
  lemma SummaryRoundTrip(name: string, purse: int, id: int)
    requires 0 <= id < 26 && purse >= 0 && name != ""
    ensures ParseSummary(SummaryLine(name, purse, id)) == Some(SummaryFields(id, purse, name))
  {
    var d := Decimal(purse);
    var tail := [' '] + name + ['\n'];
    SummaryLayout(name, purse, id);
    ParseHeader(Letter(id), Gap(d), d + tail);
    ParseFieldsLaidOut(id, d, name);
    DecimalRoundTrip(purse);
  }
}
