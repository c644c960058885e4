/**
 * Moves and their wire text (`Move/BirthMove.cs`, with the Pass and Kill
 * variants it sits beside): a label, then the points, separated by single spaces.
 */
module Moves {
  import opened Wrappers
  import opened Board
  import Text

  /** A move. A birth move stores its birth point and sacrifice points as given, unchecked. */
  datatype Move =
    | Pass
    | Kill(point: Point)
    | Birth(birthPoint: Point, sacrificePoints: seq<Point>)

  /** The text of the move-type labels. */
  const PassLabel: string := "pass"
  const KillLabel: string := "kill"
  const BirthLabel: string := "birth"

  /** A point on the wire: "x,y". */
  function PointText(p: Point): string
  {
    Text.IntText(p.x) + "," + Text.IntText(p.y)
  }

  function PointTexts(ps: seq<Point>): seq<string>
  {
    seq(|ps|, i requires 0 <= i < |ps| => PointText(ps[i]))
  }

  /** The space-separated fields of a move's text. */
  function Fields(m: Move): seq<string>
  {
    match m
    case Pass => [PassLabel]
    case Kill(p) => [KillLabel, PointText(p)]
    case Birth(b, sacrifices) => [BirthLabel, PointText(b)] + PointTexts(sacrifices)
  }

  /** `ToString()` of a move. */
  function MoveText(m: Move): string
  {
    Text.Join(Fields(m), ' ')
  }

  /**
   * `BirthMove.ToString`: the label and the birth point, then a space and the
   * text of each sacrifice point, appended one at a time.
   */
  method BirthMoveToString(birthPoint: Point, sacrificePoints: seq<Point>) returns (s: string)
    ensures s == MoveText(Birth(birthPoint, sacrificePoints))
  {
    ghost var head := [BirthLabel, PointText(birthPoint)];
    s := BirthLabel + " " + PointText(birthPoint);
    assert s == Text.Join(head + PointTexts(sacrificePoints[..0]), ' ') by {
      assert head + PointTexts(sacrificePoints[..0]) == head;
      assert head[1..] == [PointText(birthPoint)];
    }
    for i := 0 to |sacrificePoints|
      invariant s == Text.Join(head + PointTexts(sacrificePoints[..i]), ' ')
    {
      AppendSacrifice(head, sacrificePoints, i);
      s := s + " " + PointText(sacrificePoints[i]);
    }
    assert sacrificePoints[..|sacrificePoints|] == sacrificePoints;
  }

  /** One more sacrifice point adds a space and its text to the joined fields. */
  lemma AppendSacrifice(head: seq<string>, ps: seq<Point>, i: nat)
    requires |head| >= 1 && i < |ps|
    ensures Text.Join(head + PointTexts(ps[..i + 1]), ' ')
            == Text.Join(head + PointTexts(ps[..i]), ' ') + " " + PointText(ps[i])
  {
    var before := head + PointTexts(ps[..i]);
    var t := PointText(ps[i]);
    PointTextsSnoc(ps, i);
    assert head + PointTexts(ps[..i + 1]) == before + [t];
    Text.JoinSnoc(before, t, ' ');
  }

  lemma PointTextsSnoc(ps: seq<Point>, i: nat)
    requires i < |ps|
    ensures PointTexts(ps[..i + 1]) == PointTexts(ps[..i]) + [PointText(ps[i])]
  {
    var l, r := PointTexts(ps[..i + 1]), PointTexts(ps[..i]) + [PointText(ps[i])];
    assert |l| == i + 1 == |r|;
    forall k | 0 <= k < i + 1 ensures l[k] == r[k] {
      assert l[k] == PointText(ps[k]);
      if k < i {
        assert r[k] == PointTexts(ps[..i])[k] == PointText(ps[k]);
      }
    }
  }

  // ---------------------------------------------------------------------------
  // Reading the text back

  function ParsePoint(t: string): Option<Point>
  {
    var parts := Text.Split(t, ',');
    if |parts| != 2 then None
    else
      match (Text.ParseInt32(parts[0]), Text.ParseInt32(parts[1]))
      case (Some(x), Some(y)) => Some(Point(x, y))
      case _ => None
  }

  function ParsePoints(ts: seq<string>): Option<seq<Point>>
  {
    if ts == [] then Some([])
    else
      match (ParsePoint(ts[0]), ParsePoints(ts[1..]))
      case (Some(p), Some(ps)) => Some([p] + ps)
      case _ => None
  }

  /** The inverse of `MoveText`: recognise the label and read the points. */
  function ParseMove(text: string): Option<Move>
  {
    var f := Text.Split(text, ' ');
    if f == [PassLabel] then Some(Pass)
    else if |f| == 2 && f[0] == KillLabel then
      match ParsePoint(f[1])
      case Some(p) => Some(Kill(p))
      case None => None
    else if |f| >= 2 && f[0] == BirthLabel then
      match (ParsePoint(f[1]), ParsePoints(f[2..]))
      case (Some(b), Some(sacrifices)) => Some(Birth(b, sacrifices))
      case _ => None
    else None
  }

  predicate PointInInt32(p: Point) {
    Text.InInt32(p.x) && Text.InInt32(p.y)
  }

  /** Every coordinate of the move fits in 32 bits, as the source's `Point` fields do. */
  predicate MoveInInt32(m: Move) {
    match m
    case Pass => true
    case Kill(p) => PointInInt32(p)
    case Birth(b, sacrifices) => PointInInt32(b) && forall i :: 0 <= i < |sacrifices| ==> PointInInt32(sacrifices[i])
  }

  lemma IntTextHasNo(n: int, c: char)
    requires c == ' ' || c == ','
    ensures c !in Text.IntText(n)
  {
  }

  lemma PointTextHasNoSpace(p: Point)
    ensures ' ' !in PointText(p)
  {
    IntTextHasNo(p.x, ' ');
    IntTextHasNo(p.y, ' ');
  }

  /**
   * The text of a move splits on spaces into exactly its fields: the label, then
   * the birth or kill point, then the sacrifice points in list order, so a birth
   * move has 2 + |sacrificePoints| fields.
   */
  lemma MoveTextFields(m: Move)
    ensures Text.Split(MoveText(m), ' ') == Fields(m)
    ensures m.Birth? ==> |Fields(m)| == 2 + |m.sacrificePoints|
  {
    var f := Fields(m);
    forall i | 0 <= i < |f| ensures ' ' !in f[i] {
      match m
      case Pass =>
      case Kill(p) => PointTextHasNoSpace(p);
      case Birth(b, sacrifices) =>
        if i == 1 {
          PointTextHasNoSpace(b);
        } else if i >= 2 {
          PointTextHasNoSpace(sacrifices[i - 2]);
        }
    }
    Text.SplitJoin(f, ' ');
  }

  /** Reading back the text of a point gives the point. */
  lemma PointRoundTrip(p: Point)
    requires PointInInt32(p)
    ensures ParsePoint(PointText(p)) == Some(p)
  {
    IntTextHasNo(p.x, ',');
    IntTextHasNo(p.y, ',');
    Text.SplitJoin([Text.IntText(p.x), Text.IntText(p.y)], ',');
    assert Text.Join([Text.IntText(p.x), Text.IntText(p.y)], ',') == PointText(p);
    Text.ParseIntText(p.x);
    Text.ParseIntText(p.y);
  }

  lemma {:induction false} PointsRoundTrip(ps: seq<Point>)
    requires forall i :: 0 <= i < |ps| ==> PointInInt32(ps[i])
    ensures ParsePoints(PointTexts(ps)) == Some(ps)
  {
    if ps != [] {
      var ts := PointTexts(ps);
      PointTextsTail(ps);
      PointRoundTrip(ps[0]);
      PointsRoundTrip(ps[1..]);
      ParsePointsCons(ts, ps[0], ps[1..]);
      assert [ps[0]] + ps[1..] == ps;
    }
  }

  lemma PointTextsTail(ps: seq<Point>)
    requires ps != []
    ensures PointTexts(ps)[0] == PointText(ps[0])
    ensures PointTexts(ps)[1..] == PointTexts(ps[1..])
  {
  }

  lemma ParsePointsCons(ts: seq<string>, p: Point, rest: seq<Point>)
    requires ts != [] && ParsePoint(ts[0]) == Some(p) && ParsePoints(ts[1..]) == Some(rest)
    ensures ParsePoints(ts) == Some([p] + rest)
  {
  }

  lemma LabelsDistinct()
    ensures PassLabel != KillLabel && PassLabel != BirthLabel && KillLabel != BirthLabel
  {
    assert PassLabel[0] != KillLabel[0] && |PassLabel| != |BirthLabel| && |KillLabel| != |BirthLabel|;
  }

  /** The text of a move loses nothing: reading it back gives the same move. */
  lemma MoveRoundTrip(m: Move)
    requires MoveInInt32(m)
    ensures ParseMove(MoveText(m)) == Some(m)
  {
    MoveTextFields(m);
    LabelsDistinct();
    var f := Fields(m);
    assert Text.Split(MoveText(m), ' ') == f;
    match m
    case Pass =>
    case Kill(p) =>
      PointRoundTrip(p);
    case Birth(b, sacrifices) =>
      assert f[0] == BirthLabel && f[1] == PointText(b) && f != [PassLabel];
      PointRoundTrip(b);
      assert f[2..] == PointTexts(sacrifices);
      PointsRoundTrip(sacrifices);
  }

  /** With no sacrifice points the text is the label and the birth point only. */
  lemma BirthWithoutSacrifices(b: Point)
    ensures MoveText(Birth(b, [])) == BirthLabel + " " + PointText(b)
  {
    assert PointTexts([]) == [];
    assert Fields(Birth(b, [])) == [BirthLabel, PointText(b)];
    Text.JoinPair(BirthLabel, PointText(b), ' ');
  }

  /** The wire texts of the protocol's examples. */
  lemma WireExamples()
    ensures MoveText(Pass) == "pass"
    ensures MoveText(Kill(Point(3, 4))) == "kill 3,4"
    ensures MoveText(Birth(Point(0, 0), [Point(1, 1), Point(2, 2)])) == "birth 0,0 1,1 2,2"
  {
    KillExample();
    BirthExample();
  }

  lemma KillExample()
    ensures MoveText(Kill(Point(3, 4))) == "kill 3,4"
  {
    assert Text.IntText(3) == "3" && Text.IntText(4) == "4";
    assert PointText(Point(3, 4)) == "3,4";
    assert Text.Join(["3,4"], ' ') == "3,4";
    assert Text.Join(["kill", "3,4"], ' ') == "kill" + " " + "3,4";
  }

  lemma SmallPointTexts()
    ensures PointText(Point(0, 0)) == "0,0" && PointText(Point(1, 1)) == "1,1" && PointText(Point(2, 2)) == "2,2"
  {
    assert Text.IntText(0) == "0" && Text.IntText(1) == "1" && Text.IntText(2) == "2";
  }

  lemma BirthExample()
    ensures MoveText(Birth(Point(0, 0), [Point(1, 1), Point(2, 2)])) == "birth 0,0 1,1 2,2"
  {
    assert Fields(Birth(Point(0, 0), [Point(1, 1), Point(2, 2)])) == ["birth", "0,0", "1,1", "2,2"] by {
      SmallPointTexts();
      assert PointTexts([Point(1, 1), Point(2, 2)]) == ["1,1", "2,2"];
    }
    BirthExampleJoin();
  }

  lemma BirthExampleJoin()
    ensures Text.Join(["birth", "0,0", "1,1", "2,2"], ' ') == "birth 0,0 1,1 2,2"
  {
    var last := Text.Join(["2,2"], ' ');
    assert last == "2,2";
    var two := Text.Join(["1,1", "2,2"], ' ');
    assert two == "1,1" + " " + last by {
      assert ["1,1", "2,2"][1..] == ["2,2"];
    }
    var three := Text.Join(["0,0", "1,1", "2,2"], ' ');
    assert three == "0,0" + " " + two by {
      assert ["0,0", "1,1", "2,2"][1..] == ["1,1", "2,2"];
    }
    assert Text.Join(["birth", "0,0", "1,1", "2,2"], ' ') == "birth" + " " + three by {
      assert ["birth", "0,0", "1,1", "2,2"][1..] == ["0,0", "1,1", "2,2"];
    }
    assert "birth" + " " + ("0,0" + " " + ("1,1" + " " + "2,2")) == "birth 0,0 1,1 2,2";
  }
}
