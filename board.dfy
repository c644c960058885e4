/**
 * The game board of `Field/Field.cs`: the snapshot parser that fills a
 * Width x Height grid row by row, and the cell mapping that groups every
 * point by the token of its cell, scanning column by column.
 */
module Board {
  import opened Wrappers
  import opened Runtime
  import Text

  /** A board coordinate: `x` is the column, `y` the row. */
  datatype Point = Point(x: int, y: int)

  /** The grid as `Cells[x, y]` reads it: `g[x][y]`, with `None` for a null entry. */
  type Grid = seq<seq<Option<string>>>

  /** The mapping `GetCellMapping` returns: token to the points holding it. */
  type CellMap = map<string, seq<Point>>

  /** The fields of a `Field` object, as a value. `grid` is `None` while `Cells` is null. */
  datatype FieldView = FieldView(
    myId: Option<string>,
    opponentId: Option<string>,
    width: int,
    height: int,
    grid: Option<Grid>)

  // ---------------------------------------------------------------------------
  // Parsing a snapshot

  /** The grid that `ParseFromString` leaves: token `y * w + x` at (x, y), null past the last token. */
  function Parsed(tokens: seq<string>, w: nat, h: nat): Grid
  {
    seq(w, x => seq(h, y => if 0 <= y * w + x < |tokens| then Some(tokens[y * w + x]) else None))
  }

  /**
   * `ParseFromString(input)` on a field: a negative dimension makes the array
   * allocation throw before `Cells` is touched; otherwise `Cells` is replaced by a
   * fresh grid, and a token past the last cell makes the write throw
   * after every cell has been written.
   */
  function ParseField(v: FieldView, input: string): (FieldView, Option<Fault>)
  {
    if v.width < 0 || v.height < 0 then (v, Some(Overflow))
    else
      var tokens := Text.Split(input, ',');
      (v.(grid := Some(Parsed(tokens, v.width, v.height))),
       if |tokens| <= v.width * v.height then None else Some(IndexOutOfRange))
  }

  lemma RowMajorBound(w: int, h: int, x: int, y: int)
    requires 0 <= x < w && 0 <= y < h
    ensures 0 <= y * w + x < w * h
  {
    assert y * w <= (h - 1) * w;
  }

  /** The position of cell (x, y) in a row-by-row fill of a w x h grid. */
  function FillIndex(w: int, h: int, x: int, y: int): (k: nat)
    requires 0 <= x < w && 0 <= y < h
    ensures k < w * h
  {
    RowMajorBound(w, h, x, y);
    y * w + x
  }

  /** Distinct cells of a row-major fill receive distinct token indices. */
  lemma RowMajorInjective(w: int, i: int, j: int, x: int, y: int)
    requires 0 <= i < w && 0 <= x < w && 0 <= j && 0 <= y
    requires j * w + i == y * w + x
    ensures i == x && j == y
  {
    if j > y {
      MulMonotone(y + 1, j, w);
    } else if j < y {
      MulMonotone(j + 1, y, w);
    }
  }

  lemma MulMonotone(a: int, b: int, c: int)
    requires a <= b && 0 <= c
    ensures a * c <= b * c
  {
  }

  /** Cell number k of the fill, (k mod w, k div w), holds token k, or null when there are fewer tokens. */
  lemma ParsedAt(tokens: seq<string>, w: nat, h: nat, k: int)
    requires w > 0 && 0 <= k < w * h
    ensures 0 <= k / w < h
    ensures Parsed(tokens, w, h)[k % w][k / w] == if k < |tokens| then Some(tokens[k]) else None
  {
    var x, y := k % w, k / w;
    assert k == y * w + x;
    if y >= h {
      MulMonotone(h, y, w);
    }
  }

  // ---------------------------------------------------------------------------
  // The scan order of `GetCellMapping`: x outer, y inner

  function Column(x: int, h: int): seq<Point>
  {
    seq(if h < 0 then 0 else h, y => Point(x, y))
  }

  /** The points (x, y), 0 <= x < w, 0 <= y < h, column by column. */
  function Scan(w: int, h: int): seq<Point>
    decreases w
  {
    if w <= 0 then [] else Scan(w - 1, h) + Column(w - 1, h)
  }

  /** Point p comes before q in the scan: a smaller column, or the same column and a smaller row. */
  predicate ScansBefore(p: Point, q: Point) {
    p.x < q.x || (p.x == q.x && p.y < q.y)
  }

  predicate InScanOrder(ps: seq<Point>) {
    forall i, j :: 0 <= i < j < |ps| ==> ScansBefore(ps[i], ps[j])
  }

  lemma {:induction false} ScanMembership(w: int, h: int, p: Point)
    ensures p in Scan(w, h) <==> 0 <= p.x < w && 0 <= p.y < h
    decreases w
  {
    if w > 0 {
      ScanMembership(w - 1, h, p);
      if p.x == w - 1 && 0 <= p.y < h {
        assert Column(w - 1, h)[p.y] == p;
      }
    }
  }

  /** The scan lists every point of the board once, in increasing scan order. */
  lemma {:induction false} ScanOrdered(w: int, h: int)
    ensures InScanOrder(Scan(w, h))
    ensures |Scan(w, h)| == if w <= 0 || h <= 0 then 0 else w * h
    decreases w
  {
    if w > 0 {
      ScanOrdered(w - 1, h);
      var a, b := Scan(w - 1, h), Column(w - 1, h);
      forall i | 0 <= i < |a| ensures a[i].x < w - 1 {
        ScanMembership(w - 1, h, a[i]);
      }
      assert Scan(w, h) == a + b;
      if h > 0 {
        assert |Scan(w, h)| == (w - 1) * h + h;
      }
    }
  }

  /** One step of the outer loop of `GetCellMapping`: column x after the columns before it. */
  lemma ScanStep(g: Option<Grid>, x: int, w: int, h: int)
    requires 0 <= x < w
    ensures Scan(x, h) + Column(x, h) == Scan(x + 1, h)
    ensures Group(g, Scan(x + 1, h)).Err? ==> Group(g, Scan(w, h)) == Group(g, Scan(x + 1, h))
  {
    if Group(g, Scan(x + 1, h)).Err? {
      ScanPrefix(x + 1, w, h);
      GroupFaultPersists(g, Scan(x + 1, h), Scan(w, h));
    }
  }

  lemma {:induction false} ScanPrefix(a: int, b: int, h: int)
    requires a <= b
    ensures Scan(a, h) <= Scan(b, h)
    decreases b
  {
    if a < b && b > 0 {
      ScanPrefix(a, b - 1, h);
    }
  }

  // ---------------------------------------------------------------------------
  // Grouping points by token

  /** Reading `Cells[x, y]` and using it as a dictionary key. */
  function CellAt(g: Option<Grid>, p: Point): Result<string, Fault>
  {
    match g
    case None => Err(NullReference)
    case Some(cols) =>
      if 0 <= p.x < |cols| && 0 <= p.y < |cols[p.x]| then
        match cols[p.x][p.y]
        case None => Err(ArgumentNull)
        case Some(token) => Ok(token)
      else Err(IndexOutOfRange)
  }

  /** `cellMap[token].Add(p)`, adding the key with an empty list first. */
  function AddPoint(m: CellMap, token: string, p: Point): CellMap
  {
    m[token := (if token in m then m[token] else []) + [p]]
  }

  /** The loops of `GetCellMapping` over the points `ps`, in order, stopping at the first exception. */
  function Group(g: Option<Grid>, ps: seq<Point>): Result<CellMap, Fault>
  {
    if ps == [] then Ok(map[])
    else
      var before := Group(g, ps[..|ps| - 1]);
      var cell := CellAt(g, ps[|ps| - 1]);
      if before.Err? then before
      else if cell.Err? then Err(cell.error)
      else Ok(AddPoint(before.value, cell.value, ps[|ps| - 1]))
  }

  /** What `GetCellMapping` returns for a field. */
  function CellMapping(v: FieldView): Result<CellMap, Fault>
  {
    Group(v.grid, Scan(v.width, v.height))
  }

  /** Reference definition: the points of `ps` whose cell holds `token`, in the order of `ps`. */
  function PointsWith(g: Option<Grid>, ps: seq<Point>, token: string): seq<Point>
  {
    if ps == [] then []
    else PointsWith(g, ps[..|ps| - 1], token)
         + (if CellAt(g, ps[|ps| - 1]) == Ok(token) then [ps[|ps| - 1]] else [])
  }

  predicate AllSet(g: Option<Grid>, ps: seq<Point>) {
    forall i :: 0 <= i < |ps| ==> CellAt(g, ps[i]).Ok?
  }

  /** One step of the loops: a successful grouping of `ps` extends that of all but its last point. */
  lemma GroupStep(g: Option<Grid>, ps: seq<Point>)
    requires ps != [] && Group(g, ps).Ok?
    ensures Group(g, ps[..|ps| - 1]).Ok? && CellAt(g, ps[|ps| - 1]).Ok?
    ensures Group(g, ps).value
            == AddPoint(Group(g, ps[..|ps| - 1]).value, CellAt(g, ps[|ps| - 1]).value, ps[|ps| - 1])
  {
  }

  /** Visiting one more point: its cell is read and the point appended to that token's list. */
  lemma GroupSnoc(g: Option<Grid>, ps: seq<Point>, p: Point)
    requires Group(g, ps).Ok?
    ensures Group(g, ps + [p]) == match CellAt(g, p)
      case Err(e) => Err(e)
      case Ok(token) => Ok(AddPoint(Group(g, ps).value, token, p))
  {
    assert (ps + [p])[..|ps|] == ps;
  }

  /** Grouping succeeds exactly when every visited cell can be read and is set. */
  lemma {:induction false} GroupSucceeds(g: Option<Grid>, ps: seq<Point>)
    ensures Group(g, ps).Ok? <==> AllSet(g, ps)
  {
    if ps != [] {
      var n := |ps| - 1;
      GroupSucceeds(g, ps[..n]);
      assert AllSet(g, ps) <==> AllSet(g, ps[..n]) && CellAt(g, ps[n]).Ok?;
    }
  }

  /** A failure reports the exception of some visited cell. */
  lemma {:induction false} GroupFault(g: Option<Grid>, ps: seq<Point>)
    requires Group(g, ps).Err?
    ensures exists i :: 0 <= i < |ps| && CellAt(g, ps[i]) == Err(Group(g, ps).error)
  {
    var n := |ps| - 1;
    if Group(g, ps[..n]).Err? {
      GroupFault(g, ps[..n]);
      var i :| 0 <= i < n && CellAt(g, ps[..n][i]) == Err(Group(g, ps[..n]).error);
      assert ps[..n][i] == ps[i];
    } else {
      assert CellAt(g, ps[n]) == Err(Group(g, ps).error);
    }
  }

  /** The loops of `GetCellMapping` over the points `ps`, continuing from the mapping `acc`. */
  function GroupOnto(g: Option<Grid>, acc: CellMap, ps: seq<Point>): Result<CellMap, Fault>
    decreases |ps|
  {
    if ps == [] then Ok(acc)
    else
      match CellAt(g, ps[0])
      case Err(e) => Err(e)
      case Ok(token) => GroupOnto(g, AddPoint(acc, token, ps[0]), ps[1..])
  }

  /** Grouping `before + ps` is grouping `ps` onto the mapping of `before`. */
  lemma {:induction false} GroupOntoAppend(g: Option<Grid>, before: seq<Point>, acc: CellMap, ps: seq<Point>)
    requires Group(g, before) == Ok(acc)
    ensures Group(g, before + ps) == GroupOnto(g, acc, ps)
    decreases |ps|
  {
    if ps == [] {
      assert before + ps == before;
    } else {
      var p := ps[0];
      GroupSnoc(g, before, p);
      assert before + ps == (before + [p]) + ps[1..];
      match CellAt(g, p)
      case Err(e) =>
        assert before + [p] <= before + ps;
        GroupFaultPersists(g, before + [p], before + ps);
      case Ok(token) =>
        GroupOntoAppend(g, before + [p], AddPoint(acc, token, p), ps[1..]);
    }
  }

  /** Once an exception is thrown, visiting more points changes nothing. */
  lemma {:induction false} GroupFaultPersists(g: Option<Grid>, ps: seq<Point>, qs: seq<Point>)
    requires ps <= qs
    requires Group(g, ps).Err?
    ensures Group(g, qs) == Group(g, ps)
    decreases |qs|
  {
    if |qs| > |ps| {
      var n := |qs| - 1;
      assert ps <= qs[..n];
      GroupFaultPersists(g, ps, qs[..n]);
    } else {
      assert ps == qs;
    }
  }

  lemma {:induction false} PointsWithMembership(g: Option<Grid>, ps: seq<Point>, token: string, p: Point)
    ensures p in PointsWith(g, ps, token) <==> p in ps && CellAt(g, p) == Ok(token)
  {
    if ps != [] {
      var n := |ps| - 1;
      PointsWithMembership(g, ps[..n], token, p);
      assert ps == ps[..n] + [ps[n]];
    }
  }

  /** The list of `t` in `m`, empty when `t` is not a key. */
  function ListOf(m: CellMap, t: string): seq<Point>
  {
    if t in m then m[t] else []
  }

  /**
   * A successful grouping is the reference definition: the list of every token
   * is the visited points holding it, in visiting order, and no key has an
   * empty list.
   */
  lemma {:induction false} GroupIsPointsWith(g: Option<Grid>, ps: seq<Point>)
    requires Group(g, ps).Ok?
    ensures forall t :: ListOf(Group(g, ps).value, t) == PointsWith(g, ps, t)
    ensures forall t :: t in Group(g, ps).value ==> Group(g, ps).value[t] != []
  {
    if ps != [] {
      GroupStep(g, ps);
      GroupIsPointsWith(g, ps[..|ps| - 1]);
    }
  }

  /** The keys of a successful grouping are exactly the tokens of the visited cells. */
  lemma GroupKeys(g: Option<Grid>, ps: seq<Point>, t: string)
    requires Group(g, ps).Ok?
    ensures t in Group(g, ps).value <==> exists p :: p in ps && CellAt(g, p) == Ok(t)
  {
    GroupIsPointsWith(g, ps);
    var l := PointsWith(g, ps, t);
    if l != [] {
      PointsWithMembership(g, ps, t, l[0]);
    }
    if exists p :: p in ps && CellAt(g, p) == Ok(t) {
      var p :| p in ps && CellAt(g, p) == Ok(t);
      PointsWithMembership(g, ps, t, p);
    }
  }

  lemma {:induction false} PointsWithOrdered(g: Option<Grid>, ps: seq<Point>, token: string)
    requires InScanOrder(ps)
    ensures InScanOrder(PointsWith(g, ps, token))
  {
    if ps != [] {
      var n := |ps| - 1;
      var pre := ps[..n];
      PointsWithOrdered(g, pre, token);
      var a := PointsWith(g, pre, token);
      forall i | 0 <= i < |a| ensures ScansBefore(a[i], ps[n]) {
        PointsWithMembership(g, pre, token, a[i]);
        var j :| 0 <= j < n && pre[j] == a[i];
      }
    }
  }

  // ---------------------------------------------------------------------------
  // Counting the points of a mapping

  ghost function TotalPoints(m: CellMap): nat
    decreases |m|
  {
    if m == map[] then 0
    else
      var t :| t in m;
      assert |m - {t}| < |m| by { assert (m - {t}).Keys < m.Keys; }
      |m[t]| + TotalPoints(m - {t})
  }

  lemma {:induction false} TotalPointsRemove(m: CellMap, t: string)
    requires t in m
    ensures TotalPoints(m) == |m[t]| + TotalPoints(m - {t})
    decreases |m|
  {
    var u :| u in m && TotalPoints(m) == |m[u]| + TotalPoints(m - {u});
    if u != t {
      assert |m - {u}| < |m| by { assert (m - {u}).Keys < m.Keys; }
      TotalPointsRemove(m - {u}, t);
      TotalPointsRemove(m - {t}, u);
      assert m - {u} - {t} == m - {t} - {u};
    }
  }

  lemma AddPointTotal(m: CellMap, t: string, p: Point)
    ensures TotalPoints(AddPoint(m, t, p)) == TotalPoints(m) + 1
  {
    var m' := AddPoint(m, t, p);
    TotalPointsRemove(m', t);
    assert m' - {t} == m - {t};
    if t in m {
      TotalPointsRemove(m, t);
    } else {
      assert m - {t} == m;
    }
  }

  /** A successful grouping holds every visited point once: the list lengths add up to the number of points. */
  lemma {:induction false} GroupTotal(g: Option<Grid>, ps: seq<Point>)
    requires Group(g, ps).Ok?
    ensures TotalPoints(Group(g, ps).value) == |ps|
  {
    if ps != [] {
      var n := |ps| - 1;
      GroupStep(g, ps);
      GroupTotal(g, ps[..n]);
      AddPointTotal(Group(g, ps[..n]).value, CellAt(g, ps[n]).value, ps[n]);
    }
  }

  // ---------------------------------------------------------------------------
  // Properties of the mapping of a board

  /**
   * Every list of a mapping is non-empty, lists only points of the board whose
   * cell holds its key, and lists them in scan order (column by column), so
   * without repetition.
   */
  lemma MappingLists(v: FieldView)
    requires CellMapping(v).Ok?
    ensures forall t :: t in CellMapping(v).value ==> |CellMapping(v).value[t]| > 0
    ensures forall t, p: Point :: t in CellMapping(v).value ==>
              (p in CellMapping(v).value[t] <==> 0 <= p.x < v.width && 0 <= p.y < v.height && CellAt(v.grid, p) == Ok(t))
    ensures forall t :: t in CellMapping(v).value ==> InScanOrder(CellMapping(v).value[t])
  {
    var ps := Scan(v.width, v.height);
    var m := CellMapping(v).value;
    GroupIsPointsWith(v.grid, ps);
    ScanOrdered(v.width, v.height);
    forall t | t in m ensures InScanOrder(m[t]) {
      assert m[t] == ListOf(m, t);
      PointsWithOrdered(v.grid, ps, t);
    }
    forall t, p: Point | t in m
      ensures p in m[t] <==> 0 <= p.x < v.width && 0 <= p.y < v.height && CellAt(v.grid, p) == Ok(t)
    {
      assert m[t] == ListOf(m, t);
      PointsWithMembership(v.grid, ps, t, p);
      ScanMembership(v.width, v.height, p);
    }
  }

  /** Cell (x, y) of a parsed grid: token y * w + x, or an unset cell past the last token. */
  lemma ParsedCell(tokens: seq<string>, w: nat, h: nat, x: int, y: int)
    requires 0 <= x < w && 0 <= y < h
    ensures 0 <= y * w + x < w * h
    ensures CellAt(Some(Parsed(tokens, w, h)), Point(x, y))
            == if y * w + x < |tokens| then Ok(tokens[y * w + x]) else Err(ArgumentNull)
  {
    RowMajorBound(w, h, x, y);
    var g := Parsed(tokens, w, h);
    assert |g| == w && |g[x]| == h;
  }

  /** After a parse of exactly width * height tokens, cell (x, y) holds token y * width + x. */
  lemma FullParseCells(v: FieldView, input: string)
    requires v.width > 0 && v.height > 0
    requires |Text.Split(input, ',')| == v.width * v.height
    ensures ParseField(v, input).1 == None
    ensures forall p: Point :: 0 <= p.x < v.width && 0 <= p.y < v.height ==>
      CellAt(ParseField(v, input).0.grid, p) == Ok(Text.Split(input, ',')[FillIndex(v.width, v.height, p.x, p.y)])
  {
    var tokens := Text.Split(input, ',');
    var g := ParseField(v, input).0.grid;
    assert g == Some(Parsed(tokens, v.width, v.height));
    forall p: Point | 0 <= p.x < v.width && 0 <= p.y < v.height
      ensures CellAt(g, p) == Ok(tokens[FillIndex(v.width, v.height, p.x, p.y)])
    {
      ParsedCell(tokens, v.width, v.height, p.x, p.y);
    }
  }

  /**
   * After a parse of exactly width * height tokens the mapping exists, the point
   * (x, y) of the board is in the list of token y * width + x and in no other,
   * and the list lengths add up to width * height.
   */
  lemma ParseThenMap(v: FieldView, input: string)
    requires v.width > 0 && v.height > 0
    requires |Text.Split(input, ',')| == v.width * v.height
    ensures ParseField(v, input).1 == None
    ensures CellMapping(ParseField(v, input).0).Ok?
    ensures forall x, y, t :: 0 <= x < v.width && 0 <= y < v.height && t in CellMapping(ParseField(v, input).0).value ==>
              (Point(x, y) in CellMapping(ParseField(v, input).0).value[t] <==>
                 t == Text.Split(input, ',')[FillIndex(v.width, v.height, x, y)])
    ensures TotalPoints(CellMapping(ParseField(v, input).0).value) == v.width * v.height
  {
    var v' := ParseField(v, input).0;
    var ps := Scan(v.width, v.height);
    FullParseCells(v, input);
    assert CellMapping(v').Ok? by {
      forall i | 0 <= i < |ps| ensures CellAt(v'.grid, ps[i]).Ok? {
        ScanMembership(v.width, v.height, ps[i]);
      }
      GroupSucceeds(v'.grid, ps);
    }
    assert TotalPoints(CellMapping(v').value) == v.width * v.height by {
      GroupTotal(v'.grid, ps);
      ScanOrdered(v.width, v.height);
    }
    var m := CellMapping(v').value;
    var tokens := Text.Split(input, ',');
    MappingLists(v');
    forall x, y, t | 0 <= x < v.width && 0 <= y < v.height && t in m
      ensures Point(x, y) in m[t] <==> t == tokens[FillIndex(v.width, v.height, x, y)]
    {
      var p := Point(x, y);
      assert CellAt(v'.grid, p) == Ok(tokens[FillIndex(v.width, v.height, x, y)]);
      assert p in m[t] <==> CellAt(v'.grid, p) == Ok(t);
    }
  }

  /** After a parse of exactly width * height tokens the keys of the mapping are the tokens. */
  lemma ParseThenMapKeys(v: FieldView, input: string)
    requires v.width > 0 && v.height > 0
    requires |Text.Split(input, ',')| == v.width * v.height
    ensures CellMapping(ParseField(v, input).0).Ok?
    ensures CellMapping(ParseField(v, input).0).value.Keys
            == set k | 0 <= k < |Text.Split(input, ',')| :: Text.Split(input, ',')[k]
  {
    var tokens := Text.Split(input, ',');
    ParseThenMap(v, input);
    var m := CellMapping(ParseField(v, input).0).value;
    var ks := set k | 0 <= k < |tokens| :: tokens[k];
    forall t | t in m ensures t in ks {
      MappedTokenIsToken(v, input, t);
    }
    forall t | t in ks ensures t in m {
      var k :| 0 <= k < |tokens| && tokens[k] == t;
      TokenIsMapped(v, input, k);
    }
  }

  lemma MappedTokenIsToken(v: FieldView, input: string, t: string)
    requires v.width > 0 && v.height > 0
    requires |Text.Split(input, ',')| == v.width * v.height
    requires CellMapping(ParseField(v, input).0).Ok?
    requires t in CellMapping(ParseField(v, input).0).value
    ensures exists k :: 0 <= k < |Text.Split(input, ',')| && Text.Split(input, ',')[k] == t
  {
    var v' := ParseField(v, input).0;
    var m: CellMap := CellMapping(v').value;
    MappingLists(v');
    var p: Point := m[t][0];
    assert 0 <= p.x < v.width && 0 <= p.y < v.height && CellAt(v'.grid, p) == Ok(t);
    FullParseCells(v, input);
    var k := FillIndex(v.width, v.height, p.x, p.y);
    assert Text.Split(input, ',')[k] == t;
  }

  lemma TokenIsMapped(v: FieldView, input: string, k: int)
    requires v.width > 0 && v.height > 0
    requires |Text.Split(input, ',')| == v.width * v.height
    requires 0 <= k < |Text.Split(input, ',')|
    requires CellMapping(ParseField(v, input).0).Ok?
    ensures Text.Split(input, ',')[k] in CellMapping(ParseField(v, input).0).value
  {
    var tokens := Text.Split(input, ',');
    var w, h := v.width, v.height;
    var g := ParseField(v, input).0.grid;
    assert g == Some(Parsed(tokens, w, h));
    ParsedAt(tokens, w, h, k);
    var p := Point(k % w, k / w);
    assert CellAt(g, p) == Ok(tokens[k]);
    ScanMembership(w, h, p);
    GroupKeys(g, Scan(w, h), tokens[k]);
  }

  /** A parse of too few tokens leaves null cells, and the mapping then throws ArgumentNullException. */
  lemma ShortSnapshotBreaksMapping(v: FieldView, input: string)
    requires v.width > 0 && v.height > 0
    requires |Text.Split(input, ',')| < v.width * v.height
    ensures ParseField(v, input).1 == None
    ensures CellMapping(ParseField(v, input).0) == Err(ArgumentNull)
  {
    var tokens := Text.Split(input, ',');
    var w, h := v.width, v.height;
    var g := ParseField(v, input).0.grid;
    var ps := Scan(w, h);
    var k := |tokens|;
    ParsedAt(tokens, w, h, k);
    var p := Point(k % w, k / w);
    assert CellAt(g, p) == Err(ArgumentNull);
    ScanMembership(w, h, p);
    var j :| 0 <= j < |ps| && ps[j] == p;
    GroupSucceeds(g, ps);
    GroupFault(g, ps);
    var i :| 0 <= i < |ps| && CellAt(g, ps[i]) == Err(Group(g, ps).error);
    ScanMembership(w, h, ps[i]);
    assert g == Some(Parsed(tokens, w, h));
    ParsedCell(tokens, w, h, ps[i].x, ps[i].y);
  }

  // ---------------------------------------------------------------------------
  // The `Field` object

  class Field {
    var myId: Option<string>
    var opponentId: Option<string>
    var width: int
    var height: int
    var cells: array2?<Option<string>>

    constructor ()
      ensures View() == FieldView(None, None, 0, 0, None)
    {
      myId, opponentId := None, None;
      width, height := 0, 0;
      cells := null;
    }

    ghost function Grid(): Option<Grid>
      reads this`cells, cells
    {
      if cells == null then None
      else
        var a := cells;
        Some(seq(a.Length0, x requires 0 <= x < a.Length0 reads a =>
               seq(a.Length1, y requires 0 <= y < a.Length1 reads a => a[x, y])))
    }

    ghost function View(): FieldView
      reads this, cells
    {
      FieldView(myId, opponentId, width, height, Grid())
    }

    /** `ParseFromString`: replace the grid and fill it with the comma-separated tokens, row by row. */
    method ParseFromString(input: string) returns (fault: Option<Fault>)
      modifies this
      ensures (View(), fault) == ParseField(old(View()), input)
      ensures fault != Some(Overflow) ==> fresh(cells)
    {
      if width < 0 || height < 0 {
        return Some(Overflow);
      }
      var w, h := width, height;
      var tokens := Text.Split(input, ',');
      var a := new Option<string>[w, h]((_, _) => None);
      cells := a;
      fault := FillRows(a, tokens);
      assert Grid().value == Parsed(tokens, w, h) by {
        var g := Grid().value;
        forall i | 0 <= i < w ensures g[i] == Parsed(tokens, w, h)[i] {
        }
      }
    }

    /**
     * The loop of `ParseFromString`: the tokens in order, row by row, into a
     * grid that starts unset, stopping with IndexOutOfRangeException when the
     * tokens outnumber the cells.
     */
    static method FillRows(a: array2<Option<string>>, tokens: seq<string>) returns (fault: Option<Fault>)
      requires forall i, j :: 0 <= i < a.Length0 && 0 <= j < a.Length1 ==> a[i, j] == None
      modifies a
      ensures fault == if |tokens| <= a.Length0 * a.Length1 then None else Some(IndexOutOfRange)
      ensures forall i, j :: 0 <= i < a.Length0 && 0 <= j < a.Length1 ==>
                a[i, j] == Parsed(tokens, a.Length0, a.Length1)[i][j]
    {
      var w, h := a.Length0, a.Length1;
      fault := None;
      var x, y, k := 0, 0, 0;
      while k < |tokens|
        invariant 0 <= k <= |tokens|
        invariant 0 <= x && 0 <= y && k == y * w + x
        invariant w > 0 ==> x < w && (y < h || (y == h && x == 0))
        invariant w == 0 ==> k == 0
        invariant forall i, j :: 0 <= i < w && 0 <= j < h ==> a[i, j] == Filled(tokens, w, k, i, j)
      {
        if x >= w || y >= h {
          fault := Some(IndexOutOfRange);
          break;
        }
        a[x, y] := Some(tokens[k]);
        forall i, j | 0 <= i < w && 0 <= j < h
          ensures a[i, j] == Filled(tokens, w, k + 1, i, j)
        {
          FilledStep(tokens, w, x, y, k, i, j);
        }
        x := x + 1;
        if x == w {
          x := 0;
          y := y + 1;
        }
        k := k + 1;
      }
      assert k == if |tokens| <= w * h then |tokens| else w * h by {
        if fault == None && w > 0 && y < h {
          RowMajorBound(w, h, x, y);
        }
      }
      FilledIsParsed(a, tokens, k);
    }

    /** The cells the first k tokens fill: cell (i, j) holds token j * w + i once k has passed it. */
    static function Filled(tokens: seq<string>, w: int, k: int, i: int, j: int): Option<string>
      requires k <= |tokens|
    {
      if 0 <= j * w + i < k then Some(tokens[j * w + i]) else None
    }

    /** Writing token k, at (x, y), fills that cell and no other. */
    static lemma FilledStep(tokens: seq<string>, w: int, x: int, y: int, k: int, i: int, j: int)
      requires 0 <= x < w && 0 <= y && k == y * w + x && k < |tokens|
      requires 0 <= i < w && 0 <= j
      ensures Filled(tokens, w, k + 1, i, j)
              == if i == x && j == y then Some(tokens[k]) else Filled(tokens, w, k, i, j)
    {
      if j * w + i == k {
        RowMajorInjective(w, i, j, x, y);
      }
      assert 0 <= j * w + i by {
        MulMonotone(0, j, w);
      }
    }

    /** After the first min(|tokens|, w * h) cells are written, the grid is the parsed one. */
    static lemma FilledIsParsed(a: array2<Option<string>>, tokens: seq<string>, k: int)
      requires k == if |tokens| <= a.Length0 * a.Length1 then |tokens| else a.Length0 * a.Length1
      requires forall i, j :: 0 <= i < a.Length0 && 0 <= j < a.Length1 ==>
                 a[i, j] == Filled(tokens, a.Length0, k, i, j)
      ensures forall i, j :: 0 <= i < a.Length0 && 0 <= j < a.Length1 ==>
                a[i, j] == Parsed(tokens, a.Length0, a.Length1)[i][j]
    {
      forall i, j | 0 <= i < a.Length0 && 0 <= j < a.Length1
        ensures a[i, j] == Parsed(tokens, a.Length0, a.Length1)[i][j]
      {
        RowMajorBound(a.Length0, a.Length1, i, j);
      }
    }

    /** Reading one cell and using it as a key, as the loop body of `GetCellMapping` does. */
    function ReadCell(x: int, y: int): (r: Result<string, Fault>)
      requires 0 <= x && 0 <= y
      reads this`cells, cells
      ensures r == CellAt(Grid(), Point(x, y))
    {
      if cells == null then Err(NullReference)
      else if x >= cells.Length0 || y >= cells.Length1 then Err(IndexOutOfRange)
      else
        match cells[x, y]
        case None => Err(ArgumentNull)
        case Some(token) => Ok(token)
    }

    /** `GetCellMapping`: group every point by its token, x in the outer loop and y in the inner one. */
    method GetCellMapping() returns (r: Result<CellMap, Fault>)
      ensures r == CellMapping(View())
    {
      var m: CellMap := map[];
      ghost var g := Grid();
      var w, h := width, height;
      var x := 0;
      while x < w
        invariant 0 <= x && (x <= w || x == 0)
        invariant Group(g, Scan(x, h)) == Ok(m)
      {
        r := GroupColumn(x, m, Scan(x, h));
        ScanStep(g, x, w, h);
        if r.Err? {
          return;
        }
        m := r.value;
        x := x + 1;
      }
      r := Ok(m);
    }

    /** The inner loop of `GetCellMapping`: the points of column x, after the points `before`. */
    method GroupColumn(x: int, m: CellMap, ghost before: seq<Point>) returns (r: Result<CellMap, Fault>)
      requires 0 <= x
      requires Group(Grid(), before) == Ok(m)
      ensures r == Group(Grid(), before + Column(x, height))
    {
      ghost var g := Grid();
      var h := height;
      ghost var column := Column(x, h);
      GroupOntoAppend(g, before, m, column);
      var acc := m;
      var y := 0;
      while y < h
        invariant 0 <= y <= |column|
        invariant GroupOnto(g, acc, column[y..]) == GroupOnto(g, m, column)
      {
        var cell := ReadCell(x, y);
        assert column[y..][0] == Point(x, y) && column[y..][1..] == column[y + 1..];
        if cell.Err? {
          return Err(cell.error);
        }
        acc := AddPoint(acc, cell.value, Point(x, y));
        y := y + 1;
      }
      assert column[y..] == [];
      r := Ok(acc);
    }
  }
}
