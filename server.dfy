/**
 * The client message handler of server.c: handleClientMessage turns the
 * text of a message into a command by its prefix, hands the command to
 * the game, and tells the message loop to stop once the game is over.
 */
module Server {
  import opened Wrappers
  import opened Chars
  import opened Message
  import opened Player
  import opened GameState
  import Game

  /** What handleClientMessage makes of a message: a request for the game, or an error reply to the sender. */
  datatype Command =
    | Play(name: string)
    | Spectate
    | Move(key: char)
    | Leave
    | Reply(explanation: string)

  const PlayPrefix := "PLAY "
  const KeyPrefix := "KEY "
  const SpectateText := "SPECTATE"
  const FormatText := "message format, expected 'KEY k'"
  const KeystrokeText := "usage, unknown keystroke"
  const UnexpectedText := "unexpected message"

  predicate StartsWith(m: string, p: string)
  {
    |p| <= |m| && m[..|p|] == p
  }

  /** The sixteen keys the server hands to game_playerMove. */
  predicate IsMoveKey(k: char)
  {
    k in "hljkyubnHLJKYUBN"
  }

  /**
   * The prefix tests of handleClientMessage, in its order. The message is
   * the text up to its terminating NUL.
   */
  function Classify(m: string): (c: Command)
    ensures c.Reply? ==> c.explanation in {FormatText, KeystrokeText, UnexpectedText}
    ensures c == Reply(FormatText) <==> StartsWith(m, KeyPrefix) && |m| != |KeyPrefix| + 1
    ensures c == Reply(KeystrokeText) <==>
      StartsWith(m, KeyPrefix) && |m| == |KeyPrefix| + 1 && !IsMoveKey(m[|KeyPrefix|]) && m[|KeyPrefix|] != 'Q'
    ensures c == Reply(UnexpectedText) <==> !StartsWith(m, PlayPrefix) && m != SpectateText && !StartsWith(m, KeyPrefix)
  {
    PrefixesDiffer(m);
    if StartsWith(m, PlayPrefix) then Play(m[|PlayPrefix|..])
    else if m == SpectateText then Spectate
    else if StartsWith(m, KeyPrefix) then
      if |m| != |KeyPrefix| + 1 then Reply(FormatText)
      else
        var key := m[|KeyPrefix|];
        if IsMoveKey(key) then Move(key)
        else if key == 'Q' then Leave
        else Reply(KeystrokeText)
    else Reply(UnexpectedText)
  }

  /** No message starts with two of the prefixes. */
  lemma PrefixesDiffer(m: string)
    ensures !(StartsWith(m, PlayPrefix) && StartsWith(m, KeyPrefix))
    ensures StartsWith(m, PlayPrefix) || StartsWith(m, KeyPrefix) ==> m != SpectateText
  {
    if StartsWith(m, PlayPrefix) {
      assert m[0] == PlayPrefix[0];
    }
    if StartsWith(m, KeyPrefix) {
      assert m[0] == KeyPrefix[0];
    }
  }

  /** The commands a client can ask for. */
  predicate IsRequest(c: Command)
  {
    c.Play? || c.Spectate? || (c.Move? && IsMoveKey(c.key)) || c.Leave?
  }

  /** The message a client sends to ask for a command. */
  function Request(c: Command): string
    requires IsRequest(c)
  {
    match c
    case Play(name) => PlayPrefix + name
    case Spectate => SpectateText
    case Move(key) => KeyPrefix + [key]
    case Leave => KeyPrefix + ['Q']
  }

  /** Every request is read back as itself. */
  lemma ClassifyRequest(c: Command)
    requires IsRequest(c)
    ensures Classify(Request(c)) == c
  {
    var m := Request(c);
    match c
    case Play(name) =>
      assert m[..|PlayPrefix|] == PlayPrefix && m[|PlayPrefix|..] == name;
    case Spectate =>
      assert !StartsWith(m, PlayPrefix) by {
        assert m[0] != PlayPrefix[0];
      }
    case Move(key) =>
      assert !StartsWith(m, PlayPrefix) by {
        assert m[0] != PlayPrefix[0];
      }
      assert m[..|KeyPrefix|] == KeyPrefix;
    case Leave =>
      assert !StartsWith(m, PlayPrefix) by {
        assert m[0] != PlayPrefix[0];
      }
      assert m[..|KeyPrefix|] == KeyPrefix;
  }

  /** A message that is not answered with an error is exactly the request for its command. */
  lemma RequestClassify(m: string)
    requires !Classify(m).Reply?
    ensures IsRequest(Classify(m)) && Request(Classify(m)) == m
  {
    var c := Classify(m);
    if c.Play? {
      assert m == m[..|PlayPrefix|] + m[|PlayPrefix|..];
    } else if c.Move? || c.Leave? {
      assert m == m[..|KeyPrefix|] + [m[|KeyPrefix|]];
    }
  }

  /** A key handed to the game is one it moves by: its lowercase form is one of the eight in its switch. */
  lemma MoveKeysStep(k: char, nc: int)
    requires nc >= 2
    ensures IsMoveKey(k) <==> KeyDelta(ToLower(k), nc).Some?
  {
  }

  /**
   * The outcome of game_newPlayer, as its contract states it: nothing for
   * an invalid address, a QUIT notice for a refused name or a full game,
   * and otherwise the normalised name joining at some room spot.
   */
  ghost predicate Entered(st: State, t: State, b: GameState.Board, a: Addr, realName: Option<string>)
    requires Inv(st, b)
  {
    if !IsAddr(a) then t == st
    else if Refusal(st, realName).Some? then t == Refuse(st, a, Refusal(st, realName).value)
    else exists name, loc ::
      IsNormalized(name, realName.value, MaxNameLength) && 0 <= loc < |st.master| && st.master[loc] == '.'
      && t == Join(st, b, a, name, loc)
  }

  /**
   * handleClientMessage from address `from` with command c, taking the game
   * from st to t and answering stop: an invalid address is ignored; a
   * request goes to the game function for it; an error is sent back to the
   * sender; and the loop stops only when a move or a quit returned -1.
   */
  ghost predicate Handled(st: State, t: State, b: GameState.Board, from: Addr, c: Command, stop: bool)
    requires Inv(st, b) && !st.ended
  {
    if !IsAddr(from) then !stop && t == st
    else match c
      case Play(name) => !stop && Entered(st, t, b, from, Some(name))
      case Spectate => !stop && t == Watch(st, b, from)
      case Move(key) => exists r, trace, rolls :: Moved(st, t, b, from, key, r, trace, rolls) && (stop <==> r == -1)
      case Leave => (stop <==> DisconnectResult(st, from) == -1) && t == Disconnect(st, b, from)
      case Reply(text) => !stop && t == st.(outbox := st.outbox + [Mail(from, Error(text))])
  }

  /** Handling a message keeps the invariant, and the loop stops exactly when the game has ended. */
  lemma HandledStops(st: State, t: State, b: GameState.Board, from: Addr, c: Command, stop: bool)
    requires Inv(st, b) && !st.ended && Handled(st, t, b, from, c, stop)
    ensures Inv(t, b) && (stop <==> t.ended)
  {
    if IsAddr(from) {
      match c
      case Play(name) =>
        if Refusal(st, Some(name)).Some? {
          RefuseKeepsInv(st, b, from, Refusal(st, Some(name)).value);
        } else {
          var n, loc :| IsNormalized(n, name, MaxNameLength) && 0 <= loc < |st.master| && st.master[loc] == '.'
            && t == Join(st, b, from, n, loc);
          assert 0 < |n| <= MaxNameLength;
          JoinKeepsInv(st, b, from, n, loc);
        }
      case Spectate =>
        WatchKeepsInv(st, b, from);
      case Move(key) =>
        var r, trace, rolls :| Moved(st, t, b, from, key, r, trace, rolls) && (stop <==> r == -1);
        MovedKeepsInv(st, t, b, from, key, r, trace, rolls);
      case Leave =>
        DisconnectKeepsInv(st, b, from);
      case Reply(text) =>
        RefuseKeepsInv(st, b, from, text);
        assert Inv(st.(outbox := st.outbox + [Mail(from, Error(text))]), b);
    }
  }

  /**
   * handleClientMessage: the message is classified and handed to the
   * game; the result says whether the message loop stops. `random` gives
   * the draws of rand() during a move.
   */
  method HandleMessage(g: Game.Game, from: Addr, message: string, random: nat -> nat) returns (stop: bool)
    requires g.Valid() && !g.ended
    requires Classify(message).Play? && IsAddr(from) && Refusal(g.Abs(), Some(Classify(message).name)).None? ==>
      exists i :: 0 <= i < |g.Master()| && g.Master()[i] == '.'
    requires Classify(message).Move? && IsAddr(from) && FirstWith(g.Roster(), from) == -1 ==> g.spectator != null
    modifies g`outbox, g`nextPlayerNumber, g`spectator, g`ended, g`nuggetsRemaining, g`pilesRemaining, g`numPlayersQuit
    modifies g.playerArray, g.grid.masterGrid, g.Players()
    ensures g.Valid()
    ensures Handled(old(g.Abs()), g.Abs(), g.Board(), from, Classify(message), stop)
  {
    if !IsAddr(from) {
      return false;
    }
    var command := Classify(message);
    match command
    case Play(name) =>
      stop := HandlePlay(g, from, name);
    case Spectate =>
      stop := HandleSpectate(g, from);
    case Move(key) =>
      stop := HandleMove(g, from, key, random);
    case Leave =>
      var r := g.ClientQuit(from);
      stop := r == -1;
    case Reply(text) =>
      stop := HandleError(g, from, text);
  }

  /** A PLAY message: game_newPlayer with the rest of the message as the name. */
  method HandlePlay(g: Game.Game, from: Addr, name: string) returns (stop: bool)
    requires g.Valid() && !g.ended && IsAddr(from)
    requires Refusal(g.Abs(), Some(name)).None? ==> exists i :: 0 <= i < |g.Master()| && g.Master()[i] == '.'
    modifies g`outbox, g`nextPlayerNumber, g.playerArray, g.grid.masterGrid, g.Players()
    ensures g.Valid() && !stop && Entered(old(g.Abs()), g.Abs(), g.Board(), from, Some(name))
  {
    var ok;
    ghost var n, loc;
    ok, n, loc := g.NewPlayer(from, Some(name));
    stop := false;
  }

  /** A SPECTATE message: game_newSpectator. */
  method HandleSpectate(g: Game.Game, from: Addr) returns (stop: bool)
    requires g.Valid() && IsAddr(from)
    modifies g`outbox, g`spectator
    ensures g.Valid() && !stop && g.Abs() == Watch(old(g.Abs()), g.Board(), from)
  {
    ghost var st := g.Abs();
    var _ := g.NewSpectator(from);
    WatchKeepsInv(st, g.Board(), from);
    stop := false;
  }

  /** A KEY message with a movement key: game_playerMove, stopping when it returns -1. */
  method HandleMove(g: Game.Game, from: Addr, key: char, random: nat -> nat) returns (stop: bool)
    requires g.Valid() && !g.ended && IsAddr(from)
    requires FirstWith(g.Roster(), from) == -1 ==> g.spectator != null
    modifies g`outbox, g`ended, g`nuggetsRemaining, g`pilesRemaining, g.grid.masterGrid, g.Players()
    ensures g.Valid()
    ensures exists r, trace, rolls :: Moved(old(g.Abs()), g.Abs(), g.Board(), from, key, r, trace, rolls) && (stop <==> r == -1)
  {
    var r;
    ghost var trace, rolls;
    r, trace, rolls := g.PlayerMove(from, key, random);
    stop := r == -1;
  }

  /** A message the server does not accept: an error notice back to the sender. */
  method HandleError(g: Game.Game, from: Addr, text: string) returns (stop: bool)
    requires g.Valid()
    modifies g`outbox
    ensures g.Valid() && !stop && g.Abs() == old(g.Abs()).(outbox := old(g.Abs()).outbox + [Mail(from, Error(text))])
  {
    ghost var st := g.Abs();
    g.Send(from, Error(text));
    RefuseKeepsInv(st, g.Board(), from, text);
    assert g.Abs() == st.(outbox := st.outbox + [Mail(from, Error(text))]);
    stop := false;
  }
}
