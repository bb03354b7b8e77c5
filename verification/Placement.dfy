/** Random draws. */
module Draws {
  /** The random source: any number in [0, 1). */
  method RandFloat64() returns (u: real)
    ensures 0.0 <= u < 1.0
  {
    u :| 0.0 <= u < 1.0;
  }

  /** A draw from [lo, lo + span). */
  method DrawIn(lo: real, span: real) returns (x: real)
    requires 0.0 < span
    ensures lo <= x < lo + span
  {
    var u := RandFloat64();
    ShareOfSpan(u, span);
    x := lo + u * span;
  }

  lemma ShareOfSpan(u: real, span: real)
    requires 0.0 <= u < 1.0 && 0.0 < span
    ensures 0.0 <= u * span < span
  {
    assert 0.0 < (1.0 - u) * span == span - u * span;
  }

  lemma ShareSigns(u: real, span: real)
    requires 0.0 < span
    ensures u < 0.0 ==> u * span < 0.0
    ensures 1.0 <= u ==> span <= u * span
  {
    if u < 0.0 {
      assert 0.0 < (-u) * span == -(u * span);
    }
    if 1.0 <= u {
      assert 0.0 <= (u - 1.0) * span == u * span - span;
    }
  }

  lemma Quotient(d: real, span: real) returns (u: real)
    requires 0.0 < span
    ensures u * span == d
  {
    u := d / span;
  }

  /** Every point of the span can come out of a draw. */
  lemma DrawReaches(lo: real, span: real, x: real) returns (u: real)
    requires 0.0 < span && lo <= x < lo + span
    ensures 0.0 <= u < 1.0 && lo + u * span == x
  {
    u := Quotient(x - lo, span);
    ShareSigns(u, span);
  }
}

/** Spawn positions: one zone for the police, one for everyone else, and spacing by rejection. */
module Spawning {
  import opened GameTypes
  import opened Geometry
  import opened Players
  import opened Draws
  import Movement

  const MIN_SPAWN_DISTANCE: real := 200.0
  const MAX_ATTEMPTS: nat := 100

  /** A half-open rectangle, as draws fill it. */
  datatype Box = Box(x: real, y: real, width: real, height: real)
  {
    predicate Holds(p: Position) {
      x <= p.x < x + width && y <= p.y < y + height
    }
  }

  /** draws is how a rejection loop of 100 attempts and a fallback can come to its last entry. */
  ghost predicate Rejection(draws: seq<Position>, legal: Position -> bool) {
    && 1 <= |draws| <= MAX_ATTEMPTS + 1
    && (forall i :: 0 <= i < |draws| - 1 ==> !legal(draws[i]))
    && (|draws| <= MAX_ATTEMPTS ==> legal(draws[|draws| - 1]))
  }

  method IsFarEnough(p: Position, existing: seq<Position>) returns (far: bool)
    ensures far <==> FarFrom(p, existing, MIN_SPAWN_DISTANCE)
  {
    for i := 0 to |existing|
      invariant FarFrom(p, existing[..i], MIN_SPAWN_DISTANCE)
    {
      if TooClose(p, existing[i], MIN_SPAWN_DISTANCE) {
        return false;
      }
    }
    assert existing[..|existing|] == existing;
    return true;
  }

  function Inner(minX: real, maxX: real, minY: real, maxY: real): Box {
    Box(minX + MIN_SPAWN_DISTANCE, minY + MIN_SPAWN_DISTANCE,
        maxX - minX - 2.0 * MIN_SPAWN_DISTANCE, maxY - minY - 2.0 * MIN_SPAWN_DISTANCE)
  }

  method GeneratePosition(minX: real, maxX: real, minY: real, maxY: real, existing: seq<Position>)
    returns (pos: Position, ghost draws: seq<Position>)
    requires minX + 2.0 * MIN_SPAWN_DISTANCE < maxX && minY + 2.0 * MIN_SPAWN_DISTANCE < maxY
    ensures Rejection(draws, p => FarFrom(p, existing, MIN_SPAWN_DISTANCE)) && pos == draws[|draws| - 1]
    ensures Inner(minX, maxX, minY, maxY).Holds(pos)
    ensures forall d :: d in draws ==> Inner(minX, maxX, minY, maxY).Holds(d)
  {
    var box := Inner(minX, maxX, minY, maxY);
    draws := [];
    for i := 0 to MAX_ATTEMPTS
      invariant |draws| == i
      invariant forall k :: 0 <= k < i ==> !FarFrom(draws[k], existing, MIN_SPAWN_DISTANCE)
      invariant forall d :: d in draws ==> box.Holds(d)
    {
      var x := DrawIn(box.x, box.width);
      var y := DrawIn(box.y, box.height);
      pos := Position(x, y);
      draws := draws + [pos];
      var far := IsFarEnough(pos, existing);
      if far {
        return;
      }
    }
    var x := DrawIn(box.x, box.width);
    var y := DrawIn(box.y, box.height);
    pos := Position(x, y);
    draws := draws + [pos];
  }

  /** Police spawn in the upper half of the map, everyone else in the lower half. */
  function Zone(role: Role): Box {
    if role == Police then Inner(0.0, MAP_WIDTH, 0.0, MAP_HEIGHT / 2.0)
    else Inner(0.0, MAP_WIDTH, MAP_HEIGHT / 2.0, MAP_HEIGHT)
  }

  /** How one spawn position came out of its draws, with those before it taken. */
  ghost predicate SpawnDraw(draws: seq<Position>, taken: seq<Position>, p: Position) {
    Rejection(draws, q => FarFrom(q, taken, MIN_SPAWN_DISTANCE)) && p == draws[|draws| - 1]
  }

  /** placed came out of these draws, one position after the other. */
  ghost predicate Drawn(placed: seq<Position>, draws: seq<seq<Position>>) {
    |draws| == |placed| && forall i :: 0 <= i < |placed| ==> SpawnDraw(draws[i], placed[..i], placed[i])
  }

  /** Every player gets a place in the zone of its role, drawn with the earlier ones taken. */
  method GenerateSpawnPositions(ps: seq<Player>)
    returns (positions: map<Id, Position>, ghost placed: seq<Position>, ghost draws: seq<seq<Position>>)
    requires forall i, j :: 0 <= i < j < |ps| ==> ps[i].id != ps[j].id
    ensures |placed| == |ps| && forall i :: 0 <= i < |ps| ==>
              ps[i].id in positions && positions[ps[i].id] == placed[i] && Zone(ps[i].core.role).Holds(placed[i])
    ensures forall id :: id in positions ==> exists p :: p in ps && p.id == id
    ensures Drawn(placed, draws)
  {
    positions, placed, draws := map[], [], [];
    var existing: seq<Position> := [];
    for i := 0 to |ps|
      invariant |placed| == i && existing == placed
      invariant forall k :: 0 <= k < i ==>
        ps[k].id in positions && positions[ps[k].id] == placed[k] && Zone(ps[k].core.role).Holds(placed[k])
      invariant forall id :: id in positions ==> exists p :: p in ps && p.id == id
      invariant Drawn(placed, draws)
    {
      var p := ps[i];
      var minY, maxY := MAP_HEIGHT / 2.0, MAP_HEIGHT;
      if p.core.role == Police {
        minY, maxY := 0.0, MAP_HEIGHT / 2.0;
      }
      var pos;
      ghost var drawn;
      pos, drawn := GeneratePosition(0.0, MAP_WIDTH, minY, maxY, existing);
      DrawnOn(placed, draws, pos, drawn);
      positions := positions[p.id := pos];
      existing := existing + [pos];
      placed := placed + [pos];
      draws := draws + [drawn];
    }
  }

  lemma DrawnOn(placed: seq<Position>, draws: seq<seq<Position>>, p: Position, drawn: seq<Position>)
    requires Drawn(placed, draws) && SpawnDraw(drawn, placed, p)
    ensures Drawn(placed + [p], draws + [drawn])
  {
    hide SpawnDraw;
    var all := placed + [p];
    forall i | 0 <= i < |all|
      ensures SpawnDraw((draws + [drawn])[i], all[..i], all[i])
    {
      assert all[..i] == placed[..i];
    }
  }

  /** Every position that did not need its fallback is 200 away from all before it; without a fallback all are. */
  lemma {:induction false} DrawnSpaced(placed: seq<Position>, draws: seq<seq<Position>>)
    requires Drawn(placed, draws)
    ensures forall i :: 0 <= i < |placed| && |draws[i]| <= MAX_ATTEMPTS ==>
              FarFrom(placed[i], placed[..i], MIN_SPAWN_DISTANCE)
    ensures (forall i :: 0 <= i < |draws| ==> |draws[i]| <= MAX_ATTEMPTS) ==> Spaced(placed, MIN_SPAWN_DISTANCE)
  {
    if placed != [] {
      var n := |placed| - 1;
      var front := placed[..n];
      forall i | 0 <= i < n
        ensures SpawnDraw(draws[i], front[..i], front[i])
      {
        assert front[..i] == placed[..i];
      }
      DrawnSpaced(front, draws[..n]);
      assert SpawnDraw(draws[n], placed[..n], placed[n]);
      if |draws[n]| <= MAX_ATTEMPTS {
        SpacedBy(front, placed[n], MIN_SPAWN_DISTANCE);
      }
      assert placed == front + [placed[n]];
      forall i | 0 <= i < |placed| && |draws[i]| <= MAX_ATTEMPTS
        ensures FarFrom(placed[i], placed[..i], MIN_SPAWN_DISTANCE)
      {
        assert SpawnDraw(draws[i], placed[..i], placed[i]);
      }
    }
  }

  /**
   The same in plain numbers: a position with at most 100 draws is 200 px or more from all before it, and every
   draw before its last was closer than that to one of them.
   */
  lemma DrawnRule(placed: seq<Position>, draws: seq<seq<Position>>, i: nat)
    requires Drawn(placed, draws) && i < |placed|
    ensures 1 <= |draws[i]| <= 101 && placed[i] == draws[i][|draws[i]| - 1]
    ensures |draws[i]| <= 100 ==> forall j :: 0 <= j < i ==> !TooClose(placed[i], placed[j], 200.0)
    ensures forall k :: 0 <= k < |draws[i]| - 1 ==> exists j :: 0 <= j < i && TooClose(draws[i][k], placed[j], 200.0)
  {
    var taken := placed[..i];
    assert SpawnDraw(draws[i], taken, placed[i]);
    hide TooClose;
    forall k | 0 <= k < |draws[i]| - 1
      ensures exists j :: 0 <= j < i && TooClose(draws[i][k], placed[j], 200.0)
    {
      assert !FarFrom(draws[i][k], taken, MIN_SPAWN_DISTANCE);
      var q :| q in taken && TooClose(draws[i][k], q, 200.0);
      var j :| 0 <= j < |taken| && taken[j] == q;
      assert placed[j] == q;
    }
    assert forall j :: 0 <= j < i ==> placed[j] in taken;
  }

  /** The police spawn in the upper half of the map and everyone else in the lower, 200 px clear of the edges. */
  lemma ZoneRule(role: Role, p: Position)
    ensures Zone(role).Holds(p) <==>
            200.0 <= p.x < 3040.0 && if role == Police then 200.0 <= p.y < 2680.0 else 3080.0 <= p.y < 5560.0
  {
  }

  lemma SpacedBy(placed: seq<Position>, p: Position, d: real)
    requires FarFrom(p, placed, d)
    ensures Spaced(placed, d) ==> Spaced(placed + [p], d)
  {
    forall i | 0 <= i < |placed|
      ensures !TooClose(placed[i], p, d)
    {
      assert !TooClose(p, placed[i], d);
      Flip(p, placed[i], d);
    }
  }

  lemma Flip(a: Position, b: Position, d: real)
    ensures TooClose(a, b, d) == TooClose(b, a, d)
  {
    assert (a.x - b.x) * (a.x - b.x) == (b.x - a.x) * (b.x - a.x);
    assert (a.y - b.y) * (a.y - b.y) == (b.y - a.y) * (b.y - a.y);
  }

  /** For any draws, fallbacks included, a police player and any other spawn 400 apart, out of arrest range. */
  lemma ZonesApart(role: Role, cop: Position, other: Position)
    requires role != Police && Zone(Police).Holds(cop) && Zone(role).Holds(other)
    ensures !TooClose(cop, other, 400.0)
    ensures !Near(cop, other, ARREST_RANGE)
  {
    ApartInY(cop, other, 400.0);
  }

  lemma ZonesOnField(role: Role, p: Position)
    requires Zone(role).Holds(p)
    ensures Movement.OnField(p)
  {
  }

  /**
   As long as fewer than 56 positions are taken, each zone has a place that the check accepts, and a
   draw can hit it: only bad luck leads to the fallback.
   */
  lemma SpawnSatisfiable(role: Role, existing: seq<Position>)
    requires |existing| < 56
    ensures exists p: Position :: Zone(role).Holds(p) && FarFrom(p, existing, MIN_SPAWN_DISTANCE)
  {
    var points := ZoneGrid(role);
    hide Zone, FarFrom, Spaced;
    OneIsFree(points, existing, MIN_SPAWN_DISTANCE);
    var i :| 0 <= i < |points| && FarFrom(points[i], existing, MIN_SPAWN_DISTANCE);
    assert Zone(role).Holds(points[i]);
  }

  /** 56 points of the zone, 400 apart. */
  lemma ZoneGrid(role: Role) returns (points: seq<Position>)
    ensures |points| == 56 && Spaced(points, 2.0 * MIN_SPAWN_DISTANCE)
    ensures forall i :: 0 <= i < |points| ==> Zone(role).Holds(points[i])
  {
    var y := Zone(role).y;
    var xs := [200.0, 600.0, 1000.0, 1400.0, 1800.0, 2200.0, 2600.0, 3000.0];
    var ys := [y, y + 400.0, y + 800.0, y + 1200.0, y + 1600.0, y + 2000.0, y + 2400.0];
    assert Steps(xs, 400.0) && Steps(ys, 400.0);
    GridSpaced(xs, ys, 400.0);
    points := GridIn(xs, ys, Zone(role));
  }

  /** All points of a grid lie in the box if their coordinates do. */
  lemma GridIn(xs: seq<real>, ys: seq<real>, box: Box) returns (points: seq<Position>)
    requires forall x :: x in xs ==> box.x <= x < box.x + box.width
    requires forall y :: y in ys ==> box.y <= y < box.y + box.height
    ensures points == Grid(xs, ys) && |points| == |xs| * |ys|
    ensures forall i :: 0 <= i < |points| ==> box.Holds(points[i])
  {
    points := Grid(xs, ys);
    GridMembers(xs, ys);
    forall i | 0 <= i < |points|
      ensures box.Holds(points[i])
    {
      assert points[i] in points;
    }
  }
}

/** Random map objects, kept clear of the middle of the map and of each other by rejection. */
module MapObjects {
  import opened GameTypes
  import opened Geometry
  import opened Draws
  import opened ItemSpec
  import opened Spawning

  datatype ObjectType = Jail | Lake | Tree

  datatype MapObject = MapObject(kind: ObjectType, at: Position)

  const OBJECT_MIN_DISTANCE: real := 300.0
  const OBJECT_SPAWN_RADIUS: real := 300.0
  const CENTER: Position := Position(MAP_WIDTH / 2.0, MAP_HEIGHT / 2.0)

  function Width(t: ObjectType): real {
    match t case Jail => 200.0 case Lake => 400.0 case Tree => 80.0
  }

  function Height(t: ObjectType): real {
    match t case Jail => 200.0 case Lake => 300.0 case Tree => 120.0
  }

  function Margins(t: ObjectType): Box {
    Box(Width(t) / 2.0, Height(t) / 2.0, MAP_WIDTH - Width(t), MAP_HEIGHT - Height(t))
  }

  predicate Legal(t: ObjectType, p: Position, placed: seq<Position>) {
    && !TooClose(p, CENTER, OBJECT_SPAWN_RADIUS + Width(t) / 2.0)
    && FarFrom(p, placed, OBJECT_MIN_DISTANCE)
  }

  method PlaceObject(t: ObjectType, placed: seq<Position>)
    returns (obj: MapObject, ok: bool, ghost draws: seq<Position>)
    ensures ok && obj.kind == t
    ensures Rejection(draws, p => Legal(t, p, placed)) && obj.at == draws[|draws| - 1]
    ensures |draws| <= 100 ==>
              && !TooClose(obj.at, Position(1620.0, 2880.0),
                           if t == Jail then 400.0 else if t == Lake then 500.0 else 340.0)
              && forall j :: 0 <= j < |placed| ==> !TooClose(obj.at, placed[j], 300.0)
    ensures Margins(t).Holds(obj.at) && forall d :: d in draws ==> Margins(t).Holds(d)
  {
    var box := Margins(t);
    draws := [];
    for i := 0 to MAX_ATTEMPTS
      invariant |draws| == i
      invariant forall k :: 0 <= k < i ==> !Legal(t, draws[k], placed)
      invariant forall d :: d in draws ==> box.Holds(d)
    {
      var x := DrawIn(box.x, box.width);
      var y := DrawIn(box.y, box.height);
      var p := Position(x, y);
      draws := draws + [p];
      if TooClose(p, CENTER, OBJECT_SPAWN_RADIUS + Width(t) / 2.0) {
        continue;
      }
      var tooClose := false;
      for k := 0 to |placed|
        invariant !tooClose && FarFrom(p, placed[..k], OBJECT_MIN_DISTANCE)
      {
        if TooClose(p, placed[k], OBJECT_MIN_DISTANCE) {
          tooClose := true;
          break;
        }
      }
      if tooClose {
        continue;
      }
      assert placed[..|placed|] == placed;
      return MapObject(t, p), true, draws;
    }
    var x := DrawIn(box.x, box.width);
    var y := DrawIn(box.y, box.height);
    draws := draws + [Position(x, y)];
    return MapObject(t, Position(x, y)), true, draws;
  }

  /** The object types in the order of placement: the jail, the lakes, the trees. */
  function Plan(i: nat): ObjectType {
    if i < 1 then Jail else if i < 3 then Lake else Tree
  }

  function Spots(objects: seq<MapObject>): (spots: seq<Position>)
    ensures |spots| == |objects| && forall i :: 0 <= i < |objects| ==> spots[i] == objects[i].at
  {
    seq(|objects|, i requires 0 <= i < |objects| => objects[i].at)
  }

  /** How one object's place came out of its draws, among those already placed. */
  ghost predicate ObjectDraw(draws: seq<Position>, t: ObjectType, placed: seq<Position>, at: Position) {
    && Rejection(draws, p => Legal(t, p, placed)) && at == draws[|draws| - 1]
    && Margins(t).Holds(at)
  }

  /** objects follows the plan, and each place came out of these draws, among the earlier ones. */
  ghost predicate Planned(objects: seq<MapObject>, draws: seq<seq<Position>>) {
    && |draws| == |objects|
    && forall i :: 0 <= i < |objects| ==>
         objects[i].kind == Plan(i) && ObjectDraw(draws[i], Plan(i), Spots(objects)[..i], objects[i].at)
  }

  /** So every object that did not need its fallback is legal among the earlier ones. */
  lemma PlannedLegal(objects: seq<MapObject>, draws: seq<seq<Position>>, i: nat)
    requires Planned(objects, draws) && i < |objects|
    ensures |draws[i]| <= MAX_ATTEMPTS ==> Legal(objects[i].kind, objects[i].at, Spots(objects)[..i])
    ensures |draws[i]| > MAX_ATTEMPTS ==>
              forall k :: 0 <= k < MAX_ATTEMPTS ==> !Legal(objects[i].kind, draws[i][k], Spots(objects)[..i])
  {
    assert ObjectDraw(draws[i], Plan(i), Spots(objects)[..i], objects[i].at);
  }

  /**
   The same in plain numbers: object i with at most 100 draws is 300 px or more from every earlier object and,
   from the middle of the map, 400 or more as a jail, 500 as a lake and 340 as a tree. Every draw before its last
   was closer than that to one of them.
   */
  lemma PlannedRule(objects: seq<MapObject>, draws: seq<seq<Position>>, i: nat)
    requires Planned(objects, draws) && i < |objects|
    ensures 1 <= |draws[i]| <= 101 && objects[i].at == draws[i][|draws[i]| - 1]
    ensures objects[i].kind == (if i == 0 then Jail else if i <= 2 then Lake else Tree)
    ensures |draws[i]| <= 100 ==>
              && !TooClose(objects[i].at, Position(1620.0, 2880.0),
                           if objects[i].kind == Jail then 400.0 else if objects[i].kind == Lake then 500.0 else 340.0)
              && forall j :: 0 <= j < i ==> !TooClose(objects[i].at, objects[j].at, 300.0)
    ensures forall k :: 0 <= k < |draws[i]| - 1 ==>
              || TooClose(draws[i][k], Position(1620.0, 2880.0),
                          if objects[i].kind == Jail then 400.0 else if objects[i].kind == Lake then 500.0 else 340.0)
              || exists j :: 0 <= j < i && TooClose(draws[i][k], objects[j].at, 300.0)
  {
    var t, placed := objects[i].kind, Spots(objects)[..i];
    assert ObjectDraw(draws[i], t, placed, objects[i].at);
    forall k | 0 <= k < |draws[i]|
      ensures Legal(t, draws[i][k], placed) <==>
              && !TooClose(draws[i][k], Position(1620.0, 2880.0),
                           if t == Jail then 400.0 else if t == Lake then 500.0 else 340.0)
              && forall j :: 0 <= j < i ==> !TooClose(draws[i][k], objects[j].at, 300.0)
    {
      LegalRule(t, draws[i][k], placed);
      hide Legal, TooClose;
      assert forall j :: 0 <= j < i ==> placed[j] == objects[j].at;
    }
  }

  /** A place is legal for an object by its distances from the middle of the map and from what is placed. */
  lemma LegalRule(t: ObjectType, p: Position, placed: seq<Position>)
    ensures Legal(t, p, placed) <==>
            && !TooClose(p, Position(1620.0, 2880.0), if t == Jail then 400.0 else if t == Lake then 500.0 else 340.0)
            && forall j :: 0 <= j < |placed| ==> !TooClose(p, placed[j], 300.0)
  {
    hide TooClose;
  }

  /** The whole of an object stays on the map. */
  lemma MarginsRule(t: ObjectType, p: Position)
    ensures Margins(t).Holds(p) <==>
            match t
            case Jail => 100.0 <= p.x < 3140.0 && 100.0 <= p.y < 5660.0
            case Lake => 200.0 <= p.x < 3040.0 && 150.0 <= p.y < 5610.0
            case Tree => 40.0 <= p.x < 3200.0 && 60.0 <= p.y < 5700.0
  {
  }

  lemma PlannedOn(objects: seq<MapObject>, draws: seq<seq<Position>>, obj: MapObject, drawn: seq<Position>)
    requires Planned(objects, draws) && obj.kind == Plan(|objects|)
    requires ObjectDraw(drawn, obj.kind, Spots(objects), obj.at)
    ensures Planned(objects + [obj], draws + [drawn])
  {
    hide ObjectDraw;
    var all := objects + [obj];
    forall i | 0 <= i < |all|
      ensures all[i].kind == Plan(i) && ObjectDraw((draws + [drawn])[i], Plan(i), Spots(all)[..i], all[i].at)
    {
      assert Spots(all)[..i] == Spots(objects)[..i];
      assert Spots(objects)[..|objects|] == Spots(objects);
    }
  }

  method PlaceMany(t: ObjectType, count: nat, before: seq<MapObject>, ghost drawn: seq<seq<Position>>)
    returns (objects: seq<MapObject>, ghost draws: seq<seq<Position>>)
    requires Planned(before, drawn) && forall i :: |before| <= i < |before| + count ==> Plan(i) == t
    ensures |objects| == |before| + count && Planned(objects, draws)
  {
    objects, draws := before, drawn;
    for n := 0 to count
      invariant |objects| == |before| + n && Planned(objects, draws)
    {
      var obj, ok;
      ghost var d;
      obj, ok, d := PlaceObject(t, Spots(objects));
      if ok {
        PlannedOn(objects, draws, obj, d);
        objects := objects + [obj];
        draws := draws + [d];
      }
    }
  }

  method GenerateMapObjects() returns (objects: seq<MapObject>, ghost draws: seq<seq<Position>>)
    ensures |objects| == 13 && Planned(objects, draws)
  {
    objects, draws := PlaceMany(Jail, 1, [], []);
    objects, draws := PlaceMany(Lake, 2, objects, draws);
    objects, draws := PlaceMany(Tree, 10, objects, draws);
  }

  /** Off the middle band of the map and away from its edges. */
  predicate InBands(p: Position) {
    200.0 <= p.x <= 2600.0 && (150.0 <= p.y <= 1950.0 || 3450.0 <= p.y <= 5250.0)
  }

  /** 40 points in the bands, 600 apart. */
  lemma BandGrid() returns (points: seq<Position>)
    ensures |points| == 40 && Spaced(points, 600.0)
    ensures forall i :: 0 <= i < |points| ==> InBands(points[i])
  {
    var xs := [200.0, 800.0, 1400.0, 2000.0, 2600.0];
    var ys := [150.0, 750.0, 1350.0, 1950.0, 3450.0, 4050.0, 4650.0, 5250.0];
    points := Grid(xs, ys);
    assert Steps(xs, 600.0) && Steps(ys, 600.0);
    GridSpaced(xs, ys, 600.0);
    GridMembers(xs, ys);
    forall i | 0 <= i < |points|
      ensures InBands(points[i])
    {
      assert points[i] in points;
    }
  }

  lemma BandsAreLegal(t: ObjectType, p: Position)
    requires InBands(p)
    ensures Margins(t).Holds(p) && !TooClose(p, CENTER, OBJECT_SPAWN_RADIUS + Width(t) / 2.0)
    ensures !TooClose(p, CENTER, OBJECT_SPAWN_RADIUS) && OnMap(Item(0, p.x, p.y))
  {
    ApartInY(p, CENTER, OBJECT_SPAWN_RADIUS + Width(t) / 2.0);
    ApartInY(p, CENTER, OBJECT_SPAWN_RADIUS);
  }

  /** With fewer than 40 places taken one point of the bands is 300 from all of them. */
  lemma BandPoint(placed: seq<Position>) returns (p: Position)
    requires |placed| < 40
    ensures InBands(p) && FarFrom(p, placed, OBJECT_MIN_DISTANCE)
  {
    var points := BandGrid();
    hide InBands, FarFrom, Spaced;
    OneIsFree(points, placed, OBJECT_MIN_DISTANCE);
    var i :| 0 <= i < |points| && FarFrom(points[i], placed, OBJECT_MIN_DISTANCE);
    p := points[i];
  }

  /** With fewer than 40 objects on the map there is a legal place for one more of any type. */
  lemma PlacementSatisfiable(t: ObjectType, placed: seq<Position>)
    requires |placed| < 40
    ensures exists p: Position :: Margins(t).Holds(p) && Legal(t, p, placed)
  {
    hide InBands, FarFrom;
    var p := BandPoint(placed);
    BandsAreLegal(t, p);
    assert Legal(t, p, placed);
  }

  /** With fewer than 40 places taken there is a clear spot for one more booster or stumble stone. */
  lemma ItemSatisfiable(occupied: seq<(real, real)>)
    requires |occupied| < 40
    ensures exists at: (real, real) {:trigger Clear(at, occupied)} ::
              Clear(at, occupied) && OnMap(Item(0, at.0, at.1))
  {
    hide InBands, FarFrom, Clear;
    var taken := seq(|occupied|, i requires 0 <= i < |occupied| => Position(occupied[i].0, occupied[i].1));
    var p := BandPoint(taken);
    BandsAreLegal(Jail, p);
    FarIsClear(p, taken, occupied);
    assert Clear((p.x, p.y), occupied);
  }

  lemma FarIsClear(p: Position, taken: seq<Position>, occupied: seq<(real, real)>)
    requires |taken| == |occupied| && FarFrom(p, taken, 300.0) && !TooClose(p, CENTER, 300.0)
    requires forall i :: 0 <= i < |taken| ==> taken[i] == Position(occupied[i].0, occupied[i].1)
    ensures Clear((p.x, p.y), occupied)
  {
    forall i | 0 <= i < |occupied|
      ensures !Closer(p.x, p.y, occupied[i].0, occupied[i].1, 150.0)
    {
      assert taken[i] in taken && !TooClose(p, taken[i], 300.0);
    }
  }
}
