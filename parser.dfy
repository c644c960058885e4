/**
 * The command loop of `Bot/BotParser.cs`: each engine line is split on spaces
 * and either updates the bot's state (settings, game data, player data), asks
 * the strategy for a move, or is reported as unknown. Standard output (the move
 * line) and standard error (diagnostics) are modelled as the reply to a line.
 */
module Parser {
  import opened Wrappers
  import opened Runtime
  import opened Text
  import opened Board
  import opened Moves
  import opened Starter

  /** A player as the parser keeps it: its name, living cell count and last move text. */
  datatype Player = Player(name: string, livingCells: int, previousMove: Option<string>)

  /** `new Player(name)`: no living cells recorded and no previous move. */
  function NewPlayer(name: string): Player {
    Player(name, 0, None)
  }

  /** The bot state the parser updates: the fields of `BotState` and its field. */
  datatype State = State(
    myName: Option<string>,
    roundNumber: int,
    maxRounds: int,
    timebank: int,
    maxTimebank: int,
    timePerMove: int,
    players: map<string, Player>,
    field: FieldView)

  /** The state before the first line: nothing set, no players, an empty field. */
  const Initial: State := State(None, 0, 0, 0, 0, 0, map[], FieldView(None, None, 0, 0, None))

  /** A line written to standard error, or written without a line break. */
  datatype Diagnostic = Diagnostic(text: string, newline: bool)

  /** The state after a handler and what it wrote to standard error. */
  datatype Handled = Handled(state: State, diagnostic: Option<Diagnostic>)

  /**
   * What one engine line produces: the line written to standard output and the
   * diagnostic, or an exception that escapes the loop and ends the bot.
   */
  datatype Reply = Reply(response: Option<string>, diagnostic: Option<Diagnostic>) | Crashed(fault: Fault)

  function Quoted(s: string): string {
    "'" + s + "'"
  }

  function SettingsKeyError(key: string): Diagnostic {
    Diagnostic("Cannot parse settings input with key " + Quoted(key), false)
  }

  function SettingsValueError(key: string, value: string): Diagnostic {
    Diagnostic("Cannot parse settings value " + Quoted(value) + " for key " + Quoted(key), true)
  }

  function GameKeyError(key: string): Diagnostic {
    Diagnostic("Cannot parse game data input with key " + Quoted(key), true)
  }

  function GameValueError(key: string, value: string): Diagnostic {
    Diagnostic("Cannot parse game data value " + Quoted(value) + " for key " + Quoted(key), true)
  }

  function UnknownPlayer(name: string): Diagnostic {
    Diagnostic("Could not find player with name " + Quoted(name), true)
  }

  function PlayerKeyError(name: string, key: string): Diagnostic {
    Diagnostic("Cannot parse " + name + " data input with key " + Quoted(key), true)
  }

  function PlayerValueError(name: string, key: string, value: string): Diagnostic {
    Diagnostic("Cannot parse " + name + " data value " + Quoted(value) + " for key " + Quoted(key), true)
  }

  const UnknownCommand: Diagnostic := Diagnostic("Unknown command", true)

  /** The opponent's id text for the bot's id v: `(2 - (v + 1)) + ""` in 32-bit arithmetic. */
  function OpponentOf(v: int): string {
    IntText(Wrap32(2 - Wrap32(v + 1)))
  }

  /**
   * `Players.Add` for each name in turn: the players with the names added up to
   * the first one already present, and whether every name was added.
   */
  function AddPlayers(players: map<string, Player>, names: seq<string>): (map<string, Player>, bool)
    decreases |names|
  {
    if names == [] then (players, true)
    else if names[0] in players then (players, false)
    else AddPlayers(players[names[0] := NewPlayer(names[0])], names[1..])
  }

  /** `ParseSettings(key, value)`. */
  function Settings(st: State, key: string, value: string): Handled {
    if key == "timebank" then
      match ParseInt32(value)
      case None => Handled(st, Some(SettingsValueError(key, value)))
      case Some(t) => Handled(st.(maxTimebank := t, timebank := t), None)
    else if key == "time_per_move" then
      match ParseInt32(value)
      case None => Handled(st, Some(SettingsValueError(key, value)))
      case Some(t) => Handled(st.(timePerMove := t), None)
    else if key == "player_names" then
      var (players, added) := AddPlayers(st.players, Split(value, ','));
      Handled(st.(players := players), if added then None else Some(SettingsValueError(key, value)))
    else if key == "your_bot" then
      Handled(st.(myName := Some(value)), None)
    else if key == "your_botid" then
      var named := st.(field := st.field.(myId := Some(value)));
      match ParseInt32(value)
      case None => Handled(named, Some(SettingsValueError(key, value)))
      case Some(v) => Handled(named.(field := named.field.(opponentId := Some(OpponentOf(v)))), None)
    else if key == "field_width" then
      match ParseInt32(value)
      case None => Handled(st, Some(SettingsValueError(key, value)))
      case Some(w) => Handled(st.(field := st.field.(width := w)), None)
    else if key == "field_height" then
      match ParseInt32(value)
      case None => Handled(st, Some(SettingsValueError(key, value)))
      case Some(h) => Handled(st.(field := st.field.(height := h)), None)
    else if key == "max_rounds" then
      match ParseInt32(value)
      case None => Handled(st, Some(SettingsValueError(key, value)))
      case Some(n) => Handled(st.(maxRounds := n), None)
    else
      Handled(st, Some(SettingsKeyError(key)))
  }

  /** `ParseGameData(key, value)`: a field that fails to parse keeps what the parse wrote. */
  function GameData(st: State, key: string, value: string): Handled {
    if key == "round" then
      match ParseInt32(value)
      case None => Handled(st, Some(GameValueError(key, value)))
      case Some(n) => Handled(st.(roundNumber := n), None)
    else if key == "field" then
      var (f, fault) := ParseField(st.field, value);
      Handled(st.(field := f), if fault.None? then None else Some(GameValueError(key, value)))
    else
      Handled(st, Some(GameKeyError(key)))
  }

  /** `ParsePlayerData(name, key, value)`. */
  function PlayerData(st: State, name: string, key: string, value: string): Handled {
    if name !in st.players then Handled(st, Some(UnknownPlayer(name)))
    else
      var p := st.players[name];
      if key == "living_cells" then
        match ParseInt32(value)
        case None => Handled(st, Some(PlayerValueError(name, key, value)))
        case Some(n) => Handled(st.(players := st.players[name := p.(livingCells := n)]), None)
      else if key == "move" then
        Handled(st.(players := st.players[name := p.(previousMove := Some(value))]), None)
      else
        Handled(st, Some(PlayerKeyError(name, key)))
  }

  function Respond(h: Handled): (State, Reply) {
    (h.state, Reply(None, h.diagnostic))
  }

  /**
   * One pass of the loop in `Run` on the line, with the samples the generator
   * would yield if the line asks for a move. A line with too few parts for its
   * command throws IndexOutOfRangeException, as does nothing else but the move.
   */
  function Step(st: State, line: string, s: Samples): (State, Reply)
    requires ValidSamples(s)
  {
    var parts := Split(line, ' ');
    if parts[0] == "settings" then
      if |parts| < 3 then (st, Crashed(IndexOutOfRange))
      else Respond(Settings(st, parts[1], parts[2]))
    else if parts[0] == "update" then
      if |parts| < 4 then (st, Crashed(IndexOutOfRange))
      else if parts[1] == "game" then Respond(GameData(st, parts[2], parts[3]))
      else Respond(PlayerData(st, parts[1], parts[2], parts[3]))
    else if parts[0] == "action" then
      if |parts| < 2 then (st, Crashed(IndexOutOfRange))
      else if parts[1] == "move" then
        match Decide(st.field, s)
        case Err(e) => (st, Crashed(e))
        case Ok(m) => (st, Reply(Some(MoveText(m)), None))
      else (st, Reply(None, None))
    else
      (st, Reply(None, Some(UnknownCommand)))
  }

  /** `Run` on the lines read: one reply per line, up to and including the first crash. */
  function Run(st: State, lines: seq<string>, samples: seq<Samples>): (State, seq<Reply>)
    requires |samples| == |lines|
    requires forall k :: 0 <= k < |samples| ==> ValidSamples(samples[k])
    decreases |lines|
  {
    if lines == [] then (st, [])
    else
      var step := Step(st, lines[0], samples[0]);
      if step.1.Crashed? then (step.0, [step.1])
      else
        var rest := Run(step.0, lines[1..], samples[1..]);
        (rest.0, [step.1] + rest.1)
  }

  /**
   * `BotParser` together with the `BotState` it owns: the scalar state as fields,
   * the players as a map of values, and the bot's `Field` object.
   */
  class BotParser {
    var myName: Option<string>
    var roundNumber: int
    var maxRounds: int
    var timebank: int
    var maxTimebank: int
    var timePerMove: int
    var players: map<string, Player>
    const field: Field

    constructor ()
      ensures View() == Initial
      ensures fresh(field)
    {
      myName := None;
      roundNumber, maxRounds, timebank, maxTimebank, timePerMove := 0, 0, 0, 0, 0;
      players := map[];
      field := new Field();
    }

    ghost function View(): State
      reads this, field, field.cells
    {
      State(myName, roundNumber, maxRounds, timebank, maxTimebank, timePerMove, players, field.View())
    }

    method ParseSettings(key: string, value: string) returns (diagnostic: Option<Diagnostic>)
      modifies this, field
      ensures Handled(View(), diagnostic) == Settings(old(View()), key, value)
      ensures field.cells == old(field.cells)
    {
      diagnostic := None;
      if key == "timebank" {
        var time := ParseInt32(value);
        if time.None? {
          return Some(SettingsValueError(key, value));
        }
        maxTimebank := time.value;
        timebank := time.value;
      } else if key == "time_per_move" {
        var time := ParseInt32(value);
        if time.None? {
          return Some(SettingsValueError(key, value));
        }
        timePerMove := time.value;
      } else if key == "player_names" {
        diagnostic := AddPlayerNames(key, value);
      } else if key == "your_bot" {
        myName := Some(value);
      } else if key == "your_botid" {
        field.myId := Some(value);
        var id := ParseInt32(value);
        if id.None? {
          return Some(SettingsValueError(key, value));
        }
        field.opponentId := Some(OpponentOf(id.value));
      } else if key == "field_width" {
        var w := ParseInt32(value);
        if w.None? {
          return Some(SettingsValueError(key, value));
        }
        field.width := w.value;
      } else if key == "field_height" {
        var h := ParseInt32(value);
        if h.None? {
          return Some(SettingsValueError(key, value));
        }
        field.height := h.value;
      } else if key == "max_rounds" {
        var n := ParseInt32(value);
        if n.None? {
          return Some(SettingsValueError(key, value));
        }
        maxRounds := n.value;
      } else {
        diagnostic := Some(SettingsKeyError(key));
      }
    }

    /** The `player_names` loop: each name is added until one is already present. */
    method AddPlayerNames(key: string, value: string) returns (diagnostic: Option<Diagnostic>)
      modifies this
      ensures var (added, ok) := AddPlayers(old(players), Split(value, ','));
        && players == added
        && diagnostic == (if ok then None else Some(SettingsValueError(key, value)))
      ensures unchanged(this`myName, this`roundNumber, this`maxRounds, this`timebank, this`maxTimebank, this`timePerMove)
    {
      var playerNames := Split(value, ',');
      diagnostic := None;
      for i := 0 to |playerNames|
        invariant AddPlayers(players, playerNames[i..]) == AddPlayers(old(players), playerNames)
        invariant unchanged(this`myName, this`roundNumber, this`maxRounds, this`timebank, this`maxTimebank, this`timePerMove)
      {
        assert playerNames[i..][1..] == playerNames[i + 1..];
        var playerName := playerNames[i];
        if playerName in players {
          return Some(SettingsValueError(key, value));
        }
        players := players[playerName := NewPlayer(playerName)];
      }
    }

    method ParseGameData(key: string, value: string) returns (diagnostic: Option<Diagnostic>)
      modifies this, field
      ensures Handled(View(), diagnostic) == GameData(old(View()), key, value)
    {
      diagnostic := None;
      if key == "round" {
        var n := ParseInt32(value);
        if n.None? {
          return Some(GameValueError(key, value));
        }
        roundNumber := n.value;
      } else if key == "field" {
        var fault := field.ParseFromString(value);
        if fault.Some? {
          diagnostic := Some(GameValueError(key, value));
        }
      } else {
        diagnostic := Some(GameKeyError(key));
      }
    }

    method ParsePlayerData(name: string, key: string, value: string) returns (diagnostic: Option<Diagnostic>)
      modifies this
      ensures Handled(View(), diagnostic) == PlayerData(old(View()), name, key, value)
    {
      if name !in players {
        return Some(UnknownPlayer(name));
      }
      var player := players[name];
      diagnostic := None;
      if key == "living_cells" {
        var n := ParseInt32(value);
        if n.None? {
          return Some(PlayerValueError(name, key, value));
        }
        players := players[name := player.(livingCells := n.value)];
      } else if key == "move" {
        players := players[name := player.(previousMove := Some(value))];
      } else {
        diagnostic := Some(PlayerKeyError(name, key));
      }
    }

    /** One pass of the loop in `Run`, with the strategy and its samples for a move request. */
    method HandleLine(line: string, s: Samples) returns (reply: Reply)
      requires ValidSamples(s)
      modifies this, field
      ensures (View(), reply) == Step(old(View()), line, s)
    {
      var parts := Split(line, ' ');
      if parts[0] == "settings" {
        if |parts| < 3 {
          return Crashed(IndexOutOfRange);
        }
        var diagnostic := ParseSettings(parts[1], parts[2]);
        reply := Reply(None, diagnostic);
      } else if parts[0] == "update" {
        if |parts| < 4 {
          return Crashed(IndexOutOfRange);
        }
        var diagnostic;
        if parts[1] == "game" {
          diagnostic := ParseGameData(parts[2], parts[3]);
        } else {
          diagnostic := ParsePlayerData(parts[1], parts[2], parts[3]);
        }
        reply := Reply(None, diagnostic);
      } else if parts[0] == "action" {
        if |parts| < 2 {
          return Crashed(IndexOutOfRange);
        }
        reply := Reply(None, None);
        if parts[1] == "move" {
          var move := DoMove(field, s);
          if move.Err? {
            return Crashed(move.error);
          }
          reply := Reply(Some(MoveText(move.value)), None);
        }
      } else {
        reply := Reply(None, Some(UnknownCommand));
      }
    }

    /** `Run`: the lines in order until the input ends or an exception escapes. */
    method RunLines(lines: seq<string>, samples: seq<Samples>) returns (replies: seq<Reply>)
      requires |samples| == |lines|
      requires forall k :: 0 <= k < |samples| ==> ValidSamples(samples[k])
      modifies this, field
      ensures (View(), replies) == Run(old(View()), lines, samples)
    {
      replies := [];
      var i := 0;
      assert lines[i..] == lines && samples[i..] == samples;
      while i < |lines|
        invariant 0 <= i <= |lines|
        invariant Run(old(View()), lines, samples).0 == Run(View(), lines[i..], samples[i..]).0
        invariant Run(old(View()), lines, samples).1 == replies + Run(View(), lines[i..], samples[i..]).1
        decreases |lines| - i
      {
        ghost var before := View();
        assert lines[i..][1..] == lines[i + 1..] && samples[i..][1..] == samples[i + 1..];
        var reply := HandleLine(lines[i], samples[i]);
        if reply.Crashed? {
          assert Run(before, lines[i..], samples[i..]) == (View(), [reply]);
          replies := replies + [reply];
          return;
        }
        ghost var rest := Run(View(), lines[i + 1..], samples[i + 1..]);
        assert Run(before, lines[i..], samples[i..]) == (rest.0, [reply] + rest.1);
        assert replies + ([reply] + rest.1) == (replies + [reply]) + rest.1;
        replies := replies + [reply];
        i := i + 1;
      }
      assert lines[i..] == [] && replies + [] == replies;
    }
  }

  // ---------------------------------------------------------------------------
  // Properties of the handlers

  /**
   * The players after adding the first k names to the given ones: the names
   * were absent and distinct, each new entry is a fresh player, and the players
   * already present are kept as they were.
   */
  ghost predicate AddedPrefix(players: map<string, Player>, names: seq<string>, k: int, result: map<string, Player>) {
    && 0 <= k <= |names|
    && (forall n :: n in result <==> n in players || n in names[..k])
    && (forall n :: n in players ==> result[n] == players[n])
    && (forall n :: n in result && n !in players ==> result[n] == NewPlayer(n))
    && (forall n :: n in names[..k] ==> n !in players)
    && (forall i, j :: 0 <= i < j < k ==> names[i] != names[j])
  }

  /** The name that `Players.Add` refuses, if any: one already present or already added. */
  ghost predicate Clashes(players: map<string, Player>, names: seq<string>, k: int)
    requires 0 <= k < |names|
  {
    names[k] in players || names[k] in names[..k]
  }

  lemma AddedPrefixStep(players: map<string, Player>, names: seq<string>, k: int, result: map<string, Player>)
    requires names != [] && names[0] !in players
    requires AddedPrefix(players[names[0] := NewPlayer(names[0])], names[1..], k, result)
    ensures AddedPrefix(players, names, k + 1, result)
  {
    var more := players[names[0] := NewPlayer(names[0])];
    assert names[..k + 1] == [names[0]] + names[1..][..k];
    forall i, j | 0 <= i < j < k + 1 ensures names[i] != names[j] {
      assert names[j] == names[1..][j - 1];
      if i > 0 {
        assert names[i] == names[1..][i - 1];
      } else {
        assert names[j] in names[1..][..k];
      }
    }
  }

  lemma ClashStep(players: map<string, Player>, names: seq<string>, k: int)
    requires names != [] && names[0] !in players && 0 <= k < |names| - 1
    requires Clashes(players[names[0] := NewPlayer(names[0])], names[1..], k)
    ensures Clashes(players, names, k + 1)
  {
    assert names[k + 1] == names[1..][k];
    assert names[..k + 1] == [names[0]] + names[1..][..k];
  }

  /**
   * `player_names` adds the names in order up to the first one already present:
   * the players before are kept as they were, a prefix of the names is added as
   * fresh players, and every name is added exactly when the whole list was
   * added; otherwise the name after the prefix clashes.
   */
  lemma {:induction false} AddPlayersPrefix(players: map<string, Player>, names: seq<string>)
    ensures exists k ::
      && AddedPrefix(players, names, k, AddPlayers(players, names).0)
      && (AddPlayers(players, names).1 <==> k == |names|)
      && (k < |names| ==> Clashes(players, names, k))
    decreases |names|
  {
    var result, added := AddPlayers(players, names).0, AddPlayers(players, names).1;
    if names == [] {
      assert AddedPrefix(players, names, 0, result);
    } else if names[0] in players {
      assert names[..0] == [];
      assert AddedPrefix(players, names, 0, result) && Clashes(players, names, 0);
    } else {
      var more := players[names[0] := NewPlayer(names[0])];
      assert AddPlayers(players, names) == AddPlayers(more, names[1..]);
      AddPlayersPrefix(more, names[1..]);
      var k :| && AddedPrefix(more, names[1..], k, AddPlayers(more, names[1..]).0)
               && (AddPlayers(more, names[1..]).1 <==> k == |names[1..]|)
               && (k < |names[1..]| ==> Clashes(more, names[1..], k));
      AddedPrefixStep(players, names, k, result);
      if k + 1 < |names| {
        ClashStep(players, names, k);
      }
      var count := k + 1;
      assert AddedPrefix(players, names, count, result)
        && (added <==> count == |names|)
        && (count < |names| ==> Clashes(players, names, count));
    }
  }

  /**
   * `your_botid` on the text of a 32-bit id: no diagnostic, the bot's id is
   * that text and the opponent's id is computed from it; nothing else changes.
   */
  lemma BotIdSetting(st: State, v: int)
    requires InInt32(v)
    ensures Settings(st, "your_botid", IntText(v))
         == Handled(st.(field := st.field.(myId := Some(IntText(v)), opponentId := Some(OpponentOf(v)))), None)
  {
    ParseIntText(v);
  }

  /**
   * When neither sum wraps around, the opponent of id v is 1 - v, its text
   * reads back as that number, and the opponent of the opponent is v again:
   * the ids 0 and 1 are swapped.
   */
  lemma OpponentSwaps(v: int)
    requires InInt32(v + 1) && InInt32(2 - v)
    ensures OpponentOf(v) == IntText(1 - v)
    ensures ParseInt32(OpponentOf(v)) == Some(1 - v)
    ensures OpponentOf(1 - v) == IntText(v)
  {
    assert Wrap32(v + 1) == v + 1;
    assert InInt32(1 - v) && Wrap32(1 - v) == 1 - v;
    assert Wrap32(2 - v) == 2 - v;
    assert InInt32(v) && Wrap32(2 - (2 - v)) == v;
    ParseIntText(1 - v);
  }

  lemma OpponentOfZeroAndOne()
    ensures OpponentOf(0) == "1" && OpponentOf(1) == "0"
  {
    OpponentSwaps(0);
    OpponentSwaps(1);
  }

  /** At the top of the range the sum wraps around: the opponent of the largest id is the smallest plus two. */
  lemma BotIdWraps()
    ensures OpponentOf(MaxInt32) == IntText(MinInt32 + 2)
  {
    assert Wrap32(MaxInt32 + 1) == MinInt32;
    assert Wrap32(2 - MinInt32) == MinInt32 + 2;
  }

  /**
   * The bot's id is assigned before its text is parsed: text that is not a
   * 32-bit integer sets the id, leaves the opponent's id as it was and is
   * reported.
   */
  lemma BotIdNotANumber(st: State, value: string)
    requires ParseInt32(value).None?
    ensures Settings(st, "your_botid", value)
         == Handled(st.(field := st.field.(myId := Some(value))), Some(SettingsValueError("your_botid", value)))
  {
  }

  /**
   * `timebank` sets the time bank and its maximum together, or neither: both
   * get the parsed value, and the value is reported exactly when it does not
   * parse.
   */
  lemma TimebankTogether(st: State, value: string)
    ensures var h := Settings(st, "timebank", value);
      || (h.diagnostic == None && h.state == st.(timebank := h.state.timebank, maxTimebank := h.state.timebank))
      || (h.state == st && h.diagnostic == Some(SettingsValueError("timebank", value)))
    ensures ParseInt32(value).Some?
            ==> Settings(st, "timebank", value)
                == Handled(st.(timebank := ParseInt32(value).value, maxTimebank := ParseInt32(value).value), None)
    ensures ParseInt32(value).None?
            ==> Settings(st, "timebank", value) == Handled(st, Some(SettingsValueError("timebank", value)))
  {
  }

  /**
   * A value that does not parse as a 32-bit integer, for every integer setting
   * but the bot's id, changes nothing and is reported.
   */
  lemma IntegerSettingRejected(st: State, key: string, value: string)
    requires key in {"timebank", "time_per_move", "field_width", "field_height", "max_rounds"}
    requires ParseInt32(value).None?
    ensures Settings(st, key, value) == Handled(st, Some(SettingsValueError(key, value)))
  {
  }

  /** An unrecognised key changes nothing in any handler and is reported. */
  lemma UnknownKeysIgnored(st: State, name: string, key: string, value: string)
    ensures key !in {"timebank", "time_per_move", "player_names", "your_bot", "your_botid",
                     "field_width", "field_height", "max_rounds"}
            ==> Settings(st, key, value) == Handled(st, Some(SettingsKeyError(key)))
    ensures key !in {"round", "field"} ==> GameData(st, key, value) == Handled(st, Some(GameKeyError(key)))
    ensures key !in {"living_cells", "move"}
            ==> (PlayerData(st, name, key, value).state == st
                 && PlayerData(st, name, key, value).diagnostic.Some?)
  {
  }

  /**
   * Player data touches only the named player: an unknown name changes
   * nothing, a cell count that does not parse changes nothing and is reported,
   * a cell count that parses is stored, and a move is stored exactly as given.
   */
  lemma PlayerDataEffects(st: State, name: string, key: string, value: string)
    ensures name !in st.players ==> PlayerData(st, name, key, value) == Handled(st, Some(UnknownPlayer(name)))
    ensures name in st.players && key == "living_cells" && ParseInt32(value).None?
            ==> PlayerData(st, name, key, value) == Handled(st, Some(PlayerValueError(name, key, value)))
    ensures key == "living_cells" && ParseInt32(value).None? ==> PlayerData(st, name, key, value).state == st
    ensures name in st.players && key == "living_cells" && ParseInt32(value).Some?
            ==> PlayerData(st, name, key, value)
                == Handled(st.(players := st.players[name := st.players[name].(livingCells := ParseInt32(value).value)]), None)
    ensures var h := PlayerData(st, name, key, value);
      && h.state.players.Keys == st.players.Keys
      && (forall n :: n in st.players && n != name ==> h.state.players[n] == st.players[n])
      && h.state == st.(players := h.state.players)
    ensures name in st.players && key == "move"
            ==> (PlayerData(st, name, key, value).state.players[name]
                 == st.players[name].(previousMove := Some(value)))
  {
  }

  /**
   * A new field replaces the grid and keeps the ids and dimensions; it is
   * reported exactly when the dimensions are negative or the text has more
   * cells than the grid.
   */
  lemma FieldUpdate(st: State, value: string)
    ensures var h := GameData(st, "field", value);
      && h.state == st.(field := h.state.field)
      && h.state.field.(grid := st.field.grid) == st.field
      && (h.diagnostic.None? <==>
            0 <= st.field.width && 0 <= st.field.height && |Split(value, ',')| <= st.field.width * st.field.height)
  {
  }

  // ---------------------------------------------------------------------------
  // Properties of a line

  lemma OnBoardInInt32(v: FieldView, p: Point)
    requires InInt32(v.width) && InInt32(v.height) && OnBoard(v, p)
    ensures PointInInt32(p)
  {
  }

  /** On a field whose dimensions fit in 32 bits, every coordinate of the chosen move does too. */
  lemma DecidedMoveInInt32(v: FieldView, s: Samples)
    requires ValidSamples(s) && Decide(v, s).Ok?
    requires InInt32(v.width) && InInt32(v.height)
    ensures MoveInInt32(Decide(v, s).value)
  {
    MoveRespectsBoard(v, s);
    match Decide(v, s).value
    case Pass =>
    case Kill(p) =>
      OnBoardInInt32(v, p);
    case Birth(b, sacrifices) =>
      OnBoardInInt32(v, b);
      OnBoardInInt32(v, sacrifices[0]);
      OnBoardInInt32(v, sacrifices[1]);
      assert forall i :: 0 <= i < |sacrifices| ==> sacrifices[i] == sacrifices[0] || sacrifices[i] == sacrifices[1];
  }

  /** Only `settings` and `update` lines change the state; only `action move` writes a line. */
  lemma StepEffects(st: State, line: string, s: Samples)
    requires ValidSamples(s)
    ensures var parts := Split(line, ' ');
      var (next, reply) := Step(st, line, s);
      && (parts[0] !in {"settings", "update"} ==> next == st)
      && (reply.Reply? && reply.response.Some? ==> |parts| >= 2 && parts[0] == "action" && parts[1] == "move")
      && (parts[0] !in {"settings", "update", "action"} ==> reply == Reply(None, Some(UnknownCommand)))
  {
  }

  /**
   * Any `action move` line, whatever follows its first two words, on a field
   * whose dimensions fit in 32 bits either ends the bot with the strategy's
   * exception or writes one line that reads back as a move respecting the
   * board: a birth on a dead cell sacrificing two different own cells, or a
   * kill of a living cell; never a pass.
   */
  lemma MoveReply(st: State, line: string, s: Samples)
    requires ValidSamples(s)
    requires InInt32(st.field.width) && InInt32(st.field.height)
    requires |Split(line, ' ')| >= 2 && Split(line, ' ')[0] == "action" && Split(line, ' ')[1] == "move"
    ensures var (next, reply) := Step(st, line, s);
      && next == st
      && (reply.Crashed? <==> Decide(st.field, s).Err?)
      && (reply.Reply? ==>
            && reply.diagnostic == None
            && reply.response.Some?
            && ParseMove(reply.response.value) == Some(Decide(st.field, s).value)
            && Decide(st.field, s).value != Pass)
  {
    var d := Decide(st.field, s);
    if d.Ok? {
      MoveRespectsBoard(st.field, s);
      DecidedMoveInInt32(st.field, s);
      MoveRoundTrip(d.value);
    }
  }

  /**
   * The dimensions are only ever set from a parsed 32-bit integer, so on every
   * state the bot reaches from the initial one they fit in 32 bits, which is
   * what `MoveReply` asks of the field.
   */
  lemma StepKeepsDimensions(st: State, line: string, s: Samples)
    requires ValidSamples(s)
    requires InInt32(st.field.width) && InInt32(st.field.height)
    ensures InInt32(Step(st, line, s).0.field.width) && InInt32(Step(st, line, s).0.field.height)
  {
  }
}
