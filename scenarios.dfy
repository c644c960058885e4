/**
 * Worked examples on a 2 x 2 board, from the engine's lines to the bot's reply.
 * Cells are given row by row, as the engine sends them; ids are "0" (the bot)
 * and "1" (the opponent).
 */
module Scenarios {
  import opened Wrappers
  import opened Runtime
  import opened Text
  import opened Board
  import opened Moves
  import opened Starter
  import opened Parser

  const P00 := Point(0, 0)
  const P01 := Point(0, 1)
  const P10 := Point(1, 0)
  const P11 := Point(1, 1)

  /** A 2 x 2 board with the bot as "0" and the opponent as "1". */
  function SmallBoard(cells: seq<string>): FieldView {
    FieldView(Some("0"), Some("1"), 2, 2, Some(Parsed(cells, 2, 2)))
  }

  lemma TokensDistinct()
    ensures "0" != "." && "1" != "." && "1" != "0"
  {
    assert "0"[0] != "."[0] && "1"[0] != "."[0] && "1"[0] != "0"[0];
  }

  lemma SmallScan()
    ensures Scan(2, 2) == [P00, P01, P10, P11]
  {
    assert Scan(1, 2) == [P00, P01] by {
      assert Scan(0, 2) == [];
      assert Column(0, 2) == [P00, P01];
    }
    assert Column(1, 2) == [P10, P11];
  }

  /** The cells of `SmallBoard([a, b, c, d])` by position: a and b in the first row, c and d in the second. */
  lemma SmallCells(a: string, b: string, c: string, d: string)
    ensures var g := SmallBoard([a, b, c, d]).grid;
      CellAt(g, P00) == Ok(a) && CellAt(g, P10) == Ok(b) && CellAt(g, P01) == Ok(c) && CellAt(g, P11) == Ok(d)
  {
  }

  lemma GroupOntoNext(g: Option<Grid>, acc: CellMap, ps: seq<Point>, t: string, acc': CellMap)
    requires ps != [] && CellAt(g, ps[0]) == Ok(t) && AddPoint(acc, t, ps[0]) == acc'
    ensures GroupOnto(g, acc, ps) == GroupOnto(g, acc', ps[1..])
  {
  }

  /** The mapping of a 2 x 2 board groups its four points in scan order. */
  lemma SmallMapping(cells: seq<string>)
    ensures CellMapping(SmallBoard(cells)) == GroupOnto(SmallBoard(cells).grid, map[], [P00, P01, P10, P11])
  {
    SmallScan();
    assert [] + Scan(2, 2) == Scan(2, 2);
    GroupOntoAppend(SmallBoard(cells).grid, [], map[], Scan(2, 2));
  }

  /** The mapping of `SmallBoard([a, b, c, d])`: the points added in scan order, (0,0), (0,1), (1,0), (1,1). */
  lemma MapOfSmallBoard(a: string, b: string, c: string, d: string)
    ensures CellMapping(SmallBoard([a, b, c, d]))
         == Ok(AddPoint(AddPoint(AddPoint(AddPoint(map[], a, P00), c, P01), b, P10), d, P11))
  {
    var g := SmallBoard([a, b, c, d]).grid;
    SmallMapping([a, b, c, d]);
    var ps := [P00, P01, P10, P11];
    assert ps[1..] == [P01, P10, P11] && ps[2..] == [P10, P11] && ps[3..] == [P11];
    assert ps[1..][1..] == ps[2..] && ps[2..][1..] == ps[3..] && ps[3..][1..] == [];
    SmallCells(a, b, c, d);
    var m1 := AddPoint(map[], a, P00);
    var m2 := AddPoint(m1, c, P01);
    var m3 := AddPoint(m2, b, P10);
    GroupOntoNext(g, map[], ps, a, m1);
    GroupOntoNext(g, m1, ps[1..], c, m2);
    GroupOntoNext(g, m2, ps[2..], b, m3);
    GroupOntoNext(g, m3, ps[3..], d, AddPoint(m3, d, P11));
  }

  /** A map with three keys is the display of its three entries. */
  lemma ThreeKeys(m: CellMap, a: string, b: string, c: string)
    requires m.Keys == {a, b, c}
    ensures m == map[a := m[a], b := m[b], c := m[c]]
  {
  }

  /** A map with two keys is the display of its two entries. */
  lemma TwoKeys(m: CellMap, a: string, b: string)
    requires m.Keys == {a, b}
    ensures m == map[a := m[a], b := m[b]]
  {
  }

  /** The mapping of the board with dead cells on top, the bot's cell bottom left and the opponent's bottom right. */
  lemma KillBoardMapping()
    ensures CellMapping(SmallBoard([".", ".", "0", "1"]))
         == Ok(map["." := [P00, P10], "0" := [P01], "1" := [P11]])
  {
    MapOfSmallBoard(".", ".", "0", "1");
    TokensDistinct();
    var m1 := AddPoint(map[], ".", P00);
    var m2 := AddPoint(m1, "0", P01);
    var m3 := AddPoint(m2, ".", P10);
    var m4 := AddPoint(m3, "1", P11);
    assert m1["."] == [P00] by { assert [] + [P00] == [P00]; }
    assert m2["0"] == [P01] by { assert [] + [P01] == [P01]; }
    assert m3["."] == [P00, P10];
    assert m4["1"] == [P11] by { assert [] + [P11] == [P11]; }
    assert m4.Keys == {".", "0", "1"};
    ThreeKeys(m4, ".", "0", "1");
  }

  /**
   * On that board the living cells are the bot's (0,1) then the opponent's
   * (1,1): a kill draw in the upper half kills (1,1), one in the lower half
   * kills (0,1); the birth branch, with a single own cell, makes the same kill.
   */
  lemma KillOnSmallBoard(coin: real, u: real)
    requires IsSample(coin) && IsSample(u)
    ensures Decide(SmallBoard([".", ".", "0", "1"]), Samples(coin, u, 0.0, 0.0))
         == Ok(Kill(if u < 0.5 then P01 else P11))
  {
    KillBoardMapping();
    assert RandomNext(u, 2) == if u < 0.5 then 0 else 1;
  }

  /** The mapping of the board where the bot owns (1,0) and (0,1) and the opponent (1,1). */
  lemma BirthBoardMapping()
    ensures CellMapping(SmallBoard([".", "0", "0", "1"]))
         == Ok(map["." := [P00], "0" := [P01, P10], "1" := [P11]])
  {
    MapOfSmallBoard(".", "0", "0", "1");
    TokensDistinct();
    var m1 := AddPoint(map[], ".", P00);
    var m2 := AddPoint(m1, "0", P01);
    var m3 := AddPoint(m2, "0", P10);
    var m4 := AddPoint(m3, "1", P11);
    assert m1["."] == [P00] by { assert [] + [P00] == [P00]; }
    assert m2["0"] == [P01] by { assert [] + [P01] == [P01]; }
    assert m3["0"] == [P01, P10];
    assert m4["1"] == [P11] by { assert [] + [P11] == [P11]; }
    assert m4.Keys == {".", "0", "1"};
    ThreeKeys(m4, ".", "0", "1");
  }

  /**
   * A birth move there: born on the only dead cell (0,0); the first sacrifice
   * drawn from the upper half of the own list is (1,0), and the second is the
   * one left, (0,1).
   */
  lemma BirthOnSmallBoard()
    ensures Decide(SmallBoard([".", "0", "0", "1"]), Samples(0.25, 0.0, 0.75, 0.0))
         == Ok(Birth(P00, [P10, P01]))
  {
    BirthBoardMapping();
    assert RandomNext(0.0, 1) == 0;
    SacrificeDraws();
  }

  /** The two draws of that birth move from the bot's list [(0,1), (1,0)]: first (1,0), then (0,1). */
  lemma SacrificeDraws()
    ensures Draw([P01, P10], [0.75, 0.0]) == ([P10, P01], [])
  {
    assert RandomNext(0.75, 2) == 1;
    assert Draw([P01, P10], [0.75]) == ([P10], [P01]) by {
      assert [0.75][..0] == [];
      assert Draw([P01, P10], []) == ([], [P01, P10]);
      assert [] + [P10] == [P10];
      assert RemoveAt([P01, P10], 1) == [P01];
    }
    assert Draw([P01, P10], [0.75, 0.0]) == ([P10, P01], []) by {
      assert [0.75, 0.0][..1] == [0.75];
      assert RemoveAt([P01], 0) == [];
      assert [P10] + [P01] == [P10, P01];
    }
  }

  /**
   * Without a cell of the opponent on the board, the kill branch ends the bot
   * with KeyNotFoundException instead of choosing a move.
   */
  lemma OpponentGoneCrashes()
    ensures Decide(SmallBoard([".", ".", "0", "."]), Samples(0.75, 0.0, 0.0, 0.0)) == Err(KeyNotFound)
  {
    var v := SmallBoard([".", ".", "0", "."]);
    OpponentGoneMapping();
    TokensDistinct();
    assert "1" !in CellMapping(v).value;
    KillFailsWithoutOpponentCells(v, Samples(0.75, 0.0, 0.0, 0.0));
  }

  /** The mapping of the board where the bot's cell (0,1) is the only living one. */
  lemma OpponentGoneMapping()
    ensures CellMapping(SmallBoard([".", ".", "0", "."])) == Ok(map["." := [P00, P10, P11], "0" := [P01]])
  {
    MapOfSmallBoard(".", ".", "0", ".");
    TokensDistinct();
    var m1 := AddPoint(map[], ".", P00);
    var m2 := AddPoint(m1, "0", P01);
    var m3 := AddPoint(m2, ".", P10);
    var m4 := AddPoint(m3, ".", P11);
    assert m1["."] == [P00] by { assert [] + [P00] == [P00]; }
    assert m2["0"] == [P01] by { assert [] + [P01] == [P01]; }
    assert m3["."] == [P00, P10];
    assert m4["."] == [P00, P10, P11];
    assert m4.Keys == {".", "0"};
    TwoKeys(m4, ".", "0");
  }

  // ---------------------------------------------------------------------------
  // A session with the engine

  /** The samples of every line of the session: a kill move, drawn from the upper half. */
  const Draws := Samples(0.75, 0.75, 0.0, 0.0)

  /** An engine line: its words separated by single spaces. */
  function Line(words: seq<string>): string {
    Join(words, ' ')
  }

  const SessionLines := [
    Line(["settings", "your_botid", "0"]),
    Line(["settings", "field_width", "2"]),
    Line(["settings", "field_height", "2"]),
    Line(["update", "game", "field", ".,.,0,1"]),
    Line(["action", "move"])]

  lemma Words(words: seq<string>)
    requires |words| >= 1 && forall i :: 0 <= i < |words| ==> ' ' !in words[i]
    ensures Split(Line(words), ' ') == words
  {
    SplitJoin(words, ' ');
  }

  lemma SmallNumbers()
    ensures IntText(0) == "0" && IntText(1) == "1" && IntText(2) == "2"
    ensures ParseInt32("0") == Some(0) && ParseInt32("2") == Some(2)
  {
    assert IntText(0) == "0" && IntText(2) == "2";
    ParseIntText(0);
    ParseIntText(2);
  }

  lemma SetIdLine(st: State)
    ensures Step(st, SessionLines[0], Draws)
         == (st.(field := st.field.(myId := Some("0"), opponentId := Some("1"))), Reply(None, None))
  {
    Words(["settings", "your_botid", "0"]);
    assert Step(st, SessionLines[0], Draws) == Respond(Settings(st, "your_botid", "0"));
    SmallNumbers();
    BotIdSetting(st, 0);
    OpponentOfZeroAndOne();
  }

  lemma SetWidthLine(st: State)
    ensures Step(st, SessionLines[1], Draws) == (st.(field := st.field.(width := 2)), Reply(None, None))
  {
    Words(["settings", "field_width", "2"]);
    assert Step(st, SessionLines[1], Draws) == Respond(Settings(st, "field_width", "2"));
    SmallNumbers();
    assert "field_width" != "timebank" && "field_width" != "time_per_move" && "field_width" != "player_names";
    assert "field_width" != "your_bot" && "field_width" != "your_botid";
  }

  lemma SetHeightLine(st: State)
    ensures Step(st, SessionLines[2], Draws) == (st.(field := st.field.(height := 2)), Reply(None, None))
  {
    Words(["settings", "field_height", "2"]);
    assert Step(st, SessionLines[2], Draws) == Respond(Settings(st, "field_height", "2"));
    SmallNumbers();
    assert "field_height" != "timebank" && "field_height" != "time_per_move" && "field_height" != "player_names";
    assert "field_height" != "your_bot" && "field_height" != "your_botid" && "field_height" != "field_width";
  }

  lemma CellTokens()
    ensures Split(".,.,0,1", ',') == [".", ".", "0", "1"]
  {
    assert Join([".", ".", "0", "1"], ',') == ".,.,0,1";
    SplitJoin([".", ".", "0", "1"], ',');
  }

  lemma FieldLine(st: State)
    requires st.field.width == 2 && st.field.height == 2
    ensures Step(st, SessionLines[3], Draws) == (st.(field := st.field.(grid := Some(Parsed([".", ".", "0", "1"], 2, 2)))), Reply(None, None))
  {
    Words(["update", "game", "field", ".,.,0,1"]);
    assert Step(st, SessionLines[3], Draws) == Respond(GameData(st, "field", ".,.,0,1"));
    CellTokens();
    assert "field" != "round";
  }

  lemma MoveText11()
    ensures MoveText(Kill(P11)) == "kill 1,1"
  {
    SmallNumbers();
    assert PointText(P11) == "1,1";
    assert Fields(Kill(P11)) == ["kill", "1,1"];
    assert ["kill", "1,1"][1..] == ["1,1"];
    assert Join(["1,1"], ' ') == "1,1";
  }

  lemma MoveLine(st: State)
    requires st.field == SmallBoard([".", ".", "0", "1"])
    ensures Step(st, SessionLines[4], Draws) == (st, Reply(Some("kill 1,1"), None))
  {
    Words(["action", "move"]);
    KillOnSmallBoard(0.75, 0.75);
    assert "action" != "settings" && "action" != "update";
    MoveText11();
  }

  lemma Replies(none: Reply, kill: Reply)
    ensures [none] + ([none] + ([none] + ([none] + ([kill] + [])))) == [none, none, none, none, kill]
  {
  }

  /** The last line of the session, on the field it has set up. */
  lemma SessionLast(s4: State, lines: seq<string>, ds: seq<Samples>)
    requires lines == SessionLines[4..] && ds == [Draws]
    requires s4.field == SmallBoard([".", ".", "0", "1"])
    ensures Run(s4, lines, ds) == (s4, [Reply(Some("kill 1,1"), None)] + [])
  {
    MoveLine(s4);
    assert lines[1..] == [] && ds[1..] == [];
    assert lines[0] == SessionLines[4];
  }

  /** The last two lines of the session, on a field of the right size and ids. */
  lemma SessionEnd(s3: State, lines: seq<string>, ds: seq<Samples>)
    requires lines == SessionLines[3..] && ds == [Draws, Draws]
    requires s3.field.myId == Some("0") && s3.field.opponentId == Some("1")
    requires s3.field.width == 2 && s3.field.height == 2
    ensures Run(s3, lines, ds)
         == (s3.(field := SmallBoard([".", ".", "0", "1"])), [Reply(None, None)] + ([Reply(Some("kill 1,1"), None)] + []))
  {
    var s4 := s3.(field := SmallBoard([".", ".", "0", "1"]));
    assert lines[1..] == SessionLines[4..] && ds[1..] == [Draws];
    SessionLast(s4, lines[1..], ds[1..]);
    assert Step(s3, lines[0], ds[0]) == (s4, Reply(None, None)) by {
      FieldLine(s3);
      assert lines[0] == SessionLines[3];
      assert s3.(field := s3.field.(grid := Some(Parsed([".", ".", "0", "1"], 2, 2)))) == s4;
    }
  }

  /** From the height line on. */
  lemma SessionFromHeight(s2: State, lines: seq<string>, ds: seq<Samples>)
    requires lines == SessionLines[2..] && ds == [Draws, Draws, Draws]
    requires s2.field.myId == Some("0") && s2.field.opponentId == Some("1") && s2.field.width == 2
    ensures Run(s2, lines, ds)
         == (s2.(field := SmallBoard([".", ".", "0", "1"])),
             [Reply(None, None)] + ([Reply(None, None)] + ([Reply(Some("kill 1,1"), None)] + [])))
  {
    var s3 := s2.(field := s2.field.(height := 2));
    assert lines[0] == SessionLines[2] && lines[1..] == SessionLines[3..] && ds[1..] == [Draws, Draws];
    SetHeightLine(s2);
    SessionEnd(s3, lines[1..], ds[1..]);
    assert s3.(field := SmallBoard([".", ".", "0", "1"])) == s2.(field := SmallBoard([".", ".", "0", "1"]));
  }

  /** From the width line on. */
  lemma SessionFromWidth(s1: State, lines: seq<string>, ds: seq<Samples>)
    requires lines == SessionLines[1..] && ds == [Draws, Draws, Draws, Draws]
    requires s1.field.myId == Some("0") && s1.field.opponentId == Some("1")
    ensures Run(s1, lines, ds)
         == (s1.(field := SmallBoard([".", ".", "0", "1"])),
             [Reply(None, None)] + ([Reply(None, None)] + ([Reply(None, None)] + ([Reply(Some("kill 1,1"), None)] + []))))
  {
    var s2 := s1.(field := s1.field.(width := 2));
    assert lines[0] == SessionLines[1] && lines[1..] == SessionLines[2..] && ds[1..] == [Draws, Draws, Draws];
    SetWidthLine(s1);
    SessionFromHeight(s2, lines[1..], ds[1..]);
    assert s2.(field := SmallBoard([".", ".", "0", "1"])) == s1.(field := SmallBoard([".", ".", "0", "1"]));
  }

  /** The whole session, line by line. */
  lemma SessionRun(st: State, lines: seq<string>, ds: seq<Samples>)
    requires lines == SessionLines && ds == [Draws, Draws, Draws, Draws, Draws]
    ensures Run(st, lines, ds)
         == (st.(field := SmallBoard([".", ".", "0", "1"])),
             [Reply(None, None)] + ([Reply(None, None)] + ([Reply(None, None)] + ([Reply(None, None)]
               + ([Reply(Some("kill 1,1"), None)] + [])))))
  {
    var s1 := st.(field := st.field.(myId := Some("0"), opponentId := Some("1")));
    assert lines[1..] == SessionLines[1..] && ds[1..] == [Draws, Draws, Draws, Draws];
    SetIdLine(st);
    SessionFromWidth(s1, lines[1..], ds[1..]);
    assert s1.(field := SmallBoard([".", ".", "0", "1"])) == st.(field := SmallBoard([".", ".", "0", "1"]));
  }

  /**
   * A whole session from any state: the bot learns its id, the field's size
   * and the field, answers each of those lines with nothing, and answers the
   * move request with a kill of the opponent's cell; the field it ends with is
   * the 2 x 2 board, whatever it held before.
   */
  lemma Session(st: State)
    ensures Run(st, SessionLines, [Draws, Draws, Draws, Draws, Draws])
         == (st.(field := SmallBoard([".", ".", "0", "1"])),
             [Reply(None, None), Reply(None, None), Reply(None, None), Reply(None, None), Reply(Some("kill 1,1"), None)])
  {
    SessionRun(st, SessionLines, [Draws, Draws, Draws, Draws, Draws]);
    Replies(Reply(None, None), Reply(Some("kill 1,1"), None));
  }
}
