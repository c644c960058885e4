/**
 * The move strategy of `Bot/BotStarter.cs`: a fair coin between a random birth
 * move and a random kill move, the birth move falling back to the kill move and
 * the kill move to passing. The random generator is replaced by the values
 * `Random.Sample()` would have produced.
 */
module Starter {
  import opened Wrappers
  import opened Runtime
  import opened Board
  import opened Moves

  /** The token of a dead cell. */
  const DeadToken: string := "."

  /**
   * The samples in [0, 1) the generator yields for one move, in draw order: the
   * coin, then the draws of the birth point (or of the kill point) and of the
   * two sacrifice points.
   */
  datatype Samples = Samples(coin: real, first: real, second: real, third: real)

  predicate IsSample(u: real) {
    0.0 <= u < 1.0
  }

  predicate ValidSamples(s: Samples) {
    IsSample(s.coin) && IsSample(s.first) && IsSample(s.second) && IsSample(s.third)
  }

  /** `Random.Next(n)` on the sample u: `(int)(u * n)`, an index below n. */
  function RandomNext(u: real, n: int): (i: int)
    requires IsSample(u) && n > 0
    ensures 0 <= i < n
  {
    assert u * n as real < n as real by {
      assert (1.0 - u) * n as real > 0.0;
    }
    (u * n as real).Floor
  }

  /** `cellMap[key]`: a null key or an absent key throws. */
  function Lookup(cellMap: CellMap, key: Option<string>): Result<seq<Point>, Fault>
  {
    match key
    case None => Err(ArgumentNull)
    case Some(k) => if k in cellMap then Ok(cellMap[k]) else Err(KeyNotFound)
  }

  /** `list.RemoveAt(i)`. */
  function RemoveAt(ps: seq<Point>, i: int): seq<Point>
    requires 0 <= i < |ps|
  {
    ps[..i] + ps[i + 1..]
  }

  /** `DoRandomKillMove`: one of the own cells followed by the opponent's cells, or pass. */
  function RandomKillMove(cellMap: CellMap, myId: Option<string>, opponentId: Option<string>, u: real)
    : Result<Move, Fault>
    requires IsSample(u)
  {
    var mine :- Lookup(cellMap, myId);
    var theirs :- Lookup(cellMap, opponentId);
    var living := mine + theirs;
    if |living| <= 0 then Ok(Pass)
    else Ok(Kill(living[RandomNext(u, |living|)]))
  }

  /**
   * Drawing without replacement: for each sample in turn, the point at the drawn
   * index of what is left is taken and removed. The result is the points taken
   * and the points left.
   */
  function Draw(ps: seq<Point>, draws: seq<real>): (r: (seq<Point>, seq<Point>))
    requires |draws| <= |ps|
    requires forall k :: 0 <= k < |draws| ==> IsSample(draws[k])
    ensures |r.0| == |draws| && |r.1| == |ps| - |draws|
    decreases |draws|
  {
    if draws == [] then ([], ps)
    else
      var (taken, left) := Draw(ps, draws[..|draws| - 1]);
      var i := RandomNext(draws[|draws| - 1], |left|);
      (taken + [left[i]], RemoveAt(left, i))
  }

  /**
   * `DoRandomBirthMove`: a dead cell and two own cells drawn without
   * replacement, or the kill move when there is no dead cell or fewer than two
   * own cells.
   */
  function RandomBirthMove(cellMap: CellMap, myId: Option<string>, opponentId: Option<string>, s: Samples)
    : Result<Move, Fault>
    requires ValidSamples(s)
  {
    var dead :- Lookup(cellMap, Some(DeadToken));
    var mine :- Lookup(cellMap, myId);
    if |dead| <= 0 || |mine| < 2 then RandomKillMove(cellMap, myId, opponentId, s.first)
    else Ok(Birth(dead[RandomNext(s.first, |dead|)], Draw(mine, [s.second, s.third]).0))
  }

  /** The coin of `DoMove`: below one half a birth move, otherwise a kill move. */
  function SelectMove(cellMap: CellMap, myId: Option<string>, opponentId: Option<string>, s: Samples)
    : Result<Move, Fault>
    requires ValidSamples(s)
  {
    if s.coin < 0.5 then RandomBirthMove(cellMap, myId, opponentId, s)
    else RandomKillMove(cellMap, myId, opponentId, s.first)
  }

  /** `DoMove` on a field: its cell mapping, then the coin. */
  function Decide(v: FieldView, s: Samples): Result<Move, Fault>
    requires ValidSamples(s)
  {
    var cellMap :- CellMapping(v);
    SelectMove(cellMap, v.myId, v.opponentId, s)
  }

  /** `DoRandomBirthMove`, drawing the two sacrifices from a copy of the own cells in a loop. */
  method DoRandomBirthMove(cellMap: CellMap, myId: Option<string>, opponentId: Option<string>, s: Samples)
    returns (r: Result<Move, Fault>)
    requires ValidSamples(s)
    ensures r == RandomBirthMove(cellMap, myId, opponentId, s)
  {
    var dead := Lookup(cellMap, Some(DeadToken));
    if dead.Err? {
      return Err(dead.error);
    }
    var mine := Lookup(cellMap, myId);
    if mine.Err? {
      return Err(mine.error);
    }
    var deadCells := dead.value;
    var myCells := mine.value;
    if |deadCells| <= 0 || |myCells| < 2 {
      return RandomKillMove(cellMap, myId, opponentId, s.first);
    }
    var randomBirth := deadCells[RandomNext(s.first, |deadCells|)];
    var draws := [s.second, s.third];
    var sacrificePoints: seq<Point> := [];
    for i := 0 to 2
      invariant (sacrificePoints, myCells) == Draw(mine.value, draws[..i])
    {
      assert draws[..i + 1][..i] == draws[..i];
      var randomIndex := RandomNext(draws[i], |myCells|);
      sacrificePoints := sacrificePoints + [myCells[randomIndex]];
      myCells := RemoveAt(myCells, randomIndex);
    }
    assert draws[..2] == draws;
    return Ok(Birth(randomBirth, sacrificePoints));
  }

  /** `DoMove`: the cell mapping of the field, then a birth move or a kill move by the coin. */
  method DoMove(field: Field, s: Samples) returns (r: Result<Move, Fault>)
    requires ValidSamples(s)
    ensures r == Decide(field.View(), s)
  {
    var cellMap := field.GetCellMapping();
    if cellMap.Err? {
      return Err(cellMap.error);
    }
    if s.coin < 0.5 {
      r := DoRandomBirthMove(cellMap.value, field.myId, field.opponentId, s);
    } else {
      r := RandomKillMove(cellMap.value, field.myId, field.opponentId, s.first);
    }
  }

  // ---------------------------------------------------------------------------
  // Properties of the choices on any mapping

  lemma RemoveAtIndex(ps: seq<Point>, i: int, j: int)
    requires 0 <= i < |ps| && 0 <= j < |ps| - 1
    ensures RemoveAt(ps, i)[j] == ps[if j < i then j else j + 1]
  {
  }

  /**
   * The kill move fails exactly when an id is null or has no list; otherwise it
   * passes exactly when both lists are empty, and kills a point of the own list
   * or of the opponent's list.
   */
  lemma KillMoveOutcomes(cellMap: CellMap, myId: Option<string>, opponentId: Option<string>, u: real)
    requires IsSample(u)
    ensures var r := RandomKillMove(cellMap, myId, opponentId, u);
      && (r.Err? <==> Lookup(cellMap, myId).Err? || Lookup(cellMap, opponentId).Err?)
      && (r == Ok(Pass) <==> Lookup(cellMap, myId) == Ok([]) && Lookup(cellMap, opponentId) == Ok([]))
      && (r.Ok? && r.value.Kill? ==> r.value.point in cellMap[myId.value] + cellMap[opponentId.value])
      && !(r.Ok? && r.value.Birth?)
  {
  }

  /**
   * The birth move fails on a missing "." or own id before looking at any count;
   * with both present it defers to the kill move exactly when there is no dead
   * cell or fewer than two own cells; otherwise the birth point is a dead cell and
   * the two sacrifices are own cells taken from two different positions of the
   * own list.
   */
  lemma BirthMoveOutcomes(cellMap: CellMap, myId: Option<string>, opponentId: Option<string>, s: Samples)
    requires ValidSamples(s)
    ensures var r := RandomBirthMove(cellMap, myId, opponentId, s);
      && (DeadToken !in cellMap ==> r == Err(KeyNotFound))
      && (DeadToken in cellMap && Lookup(cellMap, myId).Err? ==> r == Lookup(cellMap, myId).PropagateFailure())
      && (DeadToken in cellMap && Lookup(cellMap, myId).Ok? ==>
            (r.Ok? && r.value.Birth? <==> |cellMap[DeadToken]| > 0 && |cellMap[myId.value]| >= 2))
      && ((DeadToken in cellMap && Lookup(cellMap, myId).Ok?
           && (|cellMap[DeadToken]| == 0 || |cellMap[myId.value]| < 2))
          ==> r == RandomKillMove(cellMap, myId, opponentId, s.first))
      && (r.Ok? && r.value.Birth? ==>
            && r.value.birthPoint in cellMap[DeadToken]
            && |r.value.sacrificePoints| == 2
            && exists i, j :: 0 <= i < |cellMap[myId.value]| && 0 <= j < |cellMap[myId.value]| && i != j
                 && cellMap[myId.value][i] == r.value.sacrificePoints[0]
                 && cellMap[myId.value][j] == r.value.sacrificePoints[1])
  {
    var r := RandomBirthMove(cellMap, myId, opponentId, s);
    if DeadToken in cellMap && Lookup(cellMap, myId).Ok? {
      KillMoveOutcomes(cellMap, myId, opponentId, s.first);
      var dead, mine := cellMap[DeadToken], cellMap[myId.value];
      if |dead| > 0 && |mine| >= 2 {
        TwoDraws(mine, s.second, s.third);
      }
    }
  }

  /** Drawing without replacement loses and duplicates nothing: the points taken and the points left are the points drawn from. */
  lemma {:induction false} DrawPermutes(ps: seq<Point>, draws: seq<real>)
    requires |draws| <= |ps|
    requires forall k :: 0 <= k < |draws| ==> IsSample(draws[k])
    ensures multiset(Draw(ps, draws).0) + multiset(Draw(ps, draws).1) == multiset(ps)
    decreases |draws|
  {
    if draws != [] {
      DrawPermutes(ps, draws[..|draws| - 1]);
      var taken, left := Draw(ps, draws[..|draws| - 1]).0, Draw(ps, draws[..|draws| - 1]).1;
      var i := RandomNext(draws[|draws| - 1], |left|);
      assert Draw(ps, draws) == (taken + [left[i]], RemoveAt(left, i));
      assert left == left[..i] + [left[i]] + left[i + 1..];
    }
  }

  /** Two draws without replacement take the points at two different positions. */
  lemma {:induction false} TwoDraws(ps: seq<Point>, u: real, w: real)
    requires |ps| >= 2 && IsSample(u) && IsSample(w)
    ensures var taken := Draw(ps, [u, w]).0;
      exists i, j :: 0 <= i < |ps| && 0 <= j < |ps| && i != j && ps[i] == taken[0] && ps[j] == taken[1]
  {
    var i := RandomNext(u, |ps|);
    var left := RemoveAt(ps, i);
    var j := RandomNext(w, |left|);
    assert Draw(ps, [u]) == ([] + [ps[i]], left) by {
      assert [u][..0] == [];
      assert Draw(ps, []) == ([], ps);
    }
    assert Draw(ps, [u, w]) == ([] + [ps[i]] + [left[j]], RemoveAt(left, j)) by {
      assert [u, w][..1] == [u];
    }
    RemoveAtIndex(ps, i, j);
    var j' := if j < i then j else j + 1;
    assert ps[i] == Draw(ps, [u, w]).0[0] && ps[j'] == Draw(ps, [u, w]).0[1];
  }

  // ---------------------------------------------------------------------------
  // Properties of the choices on the mapping of a board

  /** The point lies within the field's width and height. */
  predicate OnBoard(v: FieldView, p: Point) {
    0 <= p.x < v.width && 0 <= p.y < v.height
  }

  /** On the mapping of a board, a kill move hits a cell of the bot or of its opponent, within the field. */
  lemma KillRespectsBoard(v: FieldView, u: real)
    requires IsSample(u) && CellMapping(v).Ok?
    requires RandomKillMove(CellMapping(v).value, v.myId, v.opponentId, u).Ok?
    ensures var m := RandomKillMove(CellMapping(v).value, v.myId, v.opponentId, u).value;
      && m.Kill?
      && OnBoard(v, m.point)
      && (CellAt(v.grid, m.point) == Ok(v.myId.value) || CellAt(v.grid, m.point) == Ok(v.opponentId.value))
  {
    var cellMap := CellMapping(v).value;
    MappingLists(v);
    KillMoveOutcomes(cellMap, v.myId, v.opponentId, u);
    var m := RandomKillMove(cellMap, v.myId, v.opponentId, u).value;
    assert m != Pass by {
      assert |cellMap[v.myId.value]| > 0;
    }
    var mine, theirs := cellMap[v.myId.value], cellMap[v.opponentId.value];
    assert m.point in mine || m.point in theirs;
  }

  /**
   * On the mapping of a board, a birth move is born on a dead cell and
   * sacrifices two different cells of the bot's own id, all within the field.
   */
  lemma BirthRespectsBoard(v: FieldView, s: Samples)
    requires ValidSamples(s) && CellMapping(v).Ok?
    requires RandomBirthMove(CellMapping(v).value, v.myId, v.opponentId, s).Ok?
    requires RandomBirthMove(CellMapping(v).value, v.myId, v.opponentId, s).value.Birth?
    ensures var m := RandomBirthMove(CellMapping(v).value, v.myId, v.opponentId, s).value;
      && |m.sacrificePoints| == 2
      && OnBoard(v, m.birthPoint) && OnBoard(v, m.sacrificePoints[0]) && OnBoard(v, m.sacrificePoints[1])
      && CellAt(v.grid, m.birthPoint) == Ok(DeadToken)
      && m.sacrificePoints[0] != m.sacrificePoints[1]
      && CellAt(v.grid, m.sacrificePoints[0]) == Ok(v.myId.value)
      && CellAt(v.grid, m.sacrificePoints[1]) == Ok(v.myId.value)
  {
    var cellMap := CellMapping(v).value;
    var m := RandomBirthMove(cellMap, v.myId, v.opponentId, s).value;
    BirthMoveOutcomes(cellMap, v.myId, v.opponentId, s);
    var mine := cellMap[v.myId.value];
    var i, j :| 0 <= i < |mine| && 0 <= j < |mine| && i != j
                && mine[i] == m.sacrificePoints[0] && mine[j] == m.sacrificePoints[1];
    MappedPoint(v, DeadToken, m.birthPoint);
    MappedPoint(v, v.myId.value, mine[i]);
    MappedPoint(v, v.myId.value, mine[j]);
    MappedDistinct(v, v.myId.value, i, j);
  }

  /** A point in a list of the mapping lies on the board and holds that list's token. */
  lemma MappedPoint(v: FieldView, t: string, p: Point)
    requires CellMapping(v).Ok? && t in CellMapping(v).value && p in CellMapping(v).value[t]
    ensures OnBoard(v, p) && CellAt(v.grid, p) == Ok(t)
  {
    MappingLists(v);
  }

  /** The lists of the mapping hold no point twice. */
  lemma MappedDistinct(v: FieldView, t: string, i: int, j: int)
    requires CellMapping(v).Ok? && t in CellMapping(v).value
    requires 0 <= i < |CellMapping(v).value[t]| && 0 <= j < |CellMapping(v).value[t]| && i != j
    ensures CellMapping(v).value[t][i] != CellMapping(v).value[t][j]
  {
    MappingLists(v);
    var l := CellMapping(v).value[t];
    assert InScanOrder(l);
    if i < j {
      assert ScansBefore(l[i], l[j]);
    } else {
      assert ScansBefore(l[j], l[i]);
    }
  }

  /**
   * On the mapping of a board, a birth move is born on a dead cell and
   * sacrifices two different cells of the bot's own id; a kill move hits a cell
   * of the bot or of its opponent; every point lies within the field; and the
   * strategy never passes, because a mapping has no empty list.
   */
  lemma MoveRespectsBoard(v: FieldView, s: Samples)
    requires ValidSamples(s)
    requires Decide(v, s).Ok?
    ensures var m := Decide(v, s).value;
      && m != Pass
      && (m.Kill? ==> OnBoard(v, m.point))
      && (m.Kill? ==> CellAt(v.grid, m.point) == Ok(v.myId.value) || CellAt(v.grid, m.point) == Ok(v.opponentId.value))
      && (m.Birth? ==>
            && OnBoard(v, m.birthPoint) && OnBoard(v, m.sacrificePoints[0]) && OnBoard(v, m.sacrificePoints[1])
            && CellAt(v.grid, m.birthPoint) == Ok(DeadToken)
            && |m.sacrificePoints| == 2
            && m.sacrificePoints[0] != m.sacrificePoints[1]
            && CellAt(v.grid, m.sacrificePoints[0]) == Ok(v.myId.value)
            && CellAt(v.grid, m.sacrificePoints[1]) == Ok(v.myId.value))
  {
    var cellMap := CellMapping(v).value;
    var r := SelectMove(cellMap, v.myId, v.opponentId, s);
    assert Decide(v, s) == r;
    if s.coin < 0.5 && r.value.Birth? {
      BirthRespectsBoard(v, s);
    } else {
      assert r == RandomKillMove(cellMap, v.myId, v.opponentId, s.first) by {
        if s.coin < 0.5 {
          BirthMoveOutcomes(cellMap, v.myId, v.opponentId, s);
          KillMoveOutcomes(cellMap, v.myId, v.opponentId, s.first);
        }
      }
      KillRespectsBoard(v, s.first);
    }
  }

  /**
   * On the mapping of a board where "." and the bot's id occur, the birth branch
   * falls back to the kill move exactly when the bot owns a single cell: the
   * no-dead-cell fallback cannot happen there.
   */
  lemma BirthFallbackOnBoard(v: FieldView, s: Samples)
    requires ValidSamples(s)
    requires CellMapping(v).Ok?
    requires DeadToken in CellMapping(v).value
    requires v.myId.Some? && v.myId.value in CellMapping(v).value
    ensures var cellMap := CellMapping(v).value;
      var r := RandomBirthMove(cellMap, v.myId, v.opponentId, s);
      && (r.Ok? && r.value.Birth? <==> |cellMap[v.myId.value]| >= 2)
      && (|cellMap[v.myId.value]| < 2 <==> |cellMap[v.myId.value]| == 1)
      && (|cellMap[v.myId.value]| == 1 ==> r == RandomKillMove(cellMap, v.myId, v.opponentId, s.first))
  {
    MappingLists(v);
    BirthMoveOutcomes(CellMapping(v).value, v.myId, v.opponentId, s);
  }

  /**
   * The strategy does fail: on a board without a cell of the opponent, the
   * kill branch throws KeyNotFoundException looking up the opponent's list.
   */
  lemma KillFailsWithoutOpponentCells(v: FieldView, s: Samples)
    requires ValidSamples(s)
    requires s.coin >= 0.5
    requires CellMapping(v).Ok?
    requires v.myId.Some? && v.myId.value in CellMapping(v).value
    requires v.opponentId.Some? && v.opponentId.value !in CellMapping(v).value
    ensures Decide(v, s) == Err(KeyNotFound)
  {
  }

  /**
   * The birth branch fails the same way: on a board without a dead cell, it
   * throws KeyNotFoundException looking up the list of ".".
   */
  lemma BirthFailsWithoutDeadCells(v: FieldView, s: Samples)
    requires ValidSamples(s)
    requires s.coin < 0.5
    requires CellMapping(v).Ok?
    requires DeadToken !in CellMapping(v).value
    ensures Decide(v, s) == Err(KeyNotFound)
  {
  }

  /** When ".", the bot's id and the opponent's id all occur on a readable board, a move is always chosen. */
  lemma DecideSucceeds(v: FieldView, s: Samples)
    requires ValidSamples(s)
    requires CellMapping(v).Ok?
    requires DeadToken in CellMapping(v).value
    requires v.myId.Some? && v.myId.value in CellMapping(v).value
    requires v.opponentId.Some? && v.opponentId.value in CellMapping(v).value
    ensures Decide(v, s).Ok?
  {
    KillMoveOutcomes(CellMapping(v).value, v.myId, v.opponentId, s.first);
    BirthMoveOutcomes(CellMapping(v).value, v.myId, v.opponentId, s);
  }
}
