/**
 * The game state of the tile game: a fixed-size world with a ground grid,
 * an ordered list of units, and an ordered list of observers that are told
 * when a unit is destroyed.  Positions are integer grid coordinates.
 */
module AlexGameState {
  import opened Wrappers

  /** A 2D integer vector: a grid cell, a sprite-sheet cell or a size. */
  datatype Vec = Vec(x: int, y: int)

  /** `GameItem`: where it is, which sprite-sheet tile draws it, whether it is
      "alive" or "dead", and its orientation in degrees. */
  datatype GameItem = GameItem(position: Vec, tile: Vec, status: string, orientation: int)

  /** `Unit` adds nothing to `GameItem`. */
  type Unit = GameItem

  /** A freshly constructed item: alive and not rotated. */
  function NewUnit(position: Vec, tile: Vec): Unit {
    GameItem(position, tile, "alive", 0)
  }

  /** `findUnit`'s test `int(u.x) == int(p.x) and int(u.y) == int(p.y)`; on
      integer coordinates `int` is the identity. */
  predicate SameCell(p: Vec, q: Vec) {
    p.x == q.x && p.y == q.y
  }

  /** The index of the first unit in `units` standing on `position`, or `|units|`. */
  function FirstUnitAt(units: seq<Unit>, position: Vec): (k: nat)
    ensures k <= |units|
    ensures k < |units| ==> SameCell(units[k].position, position)
    ensures forall j :: 0 <= j < k ==> !SameCell(units[j].position, position)
  {
    if |units| == 0 then 0
    else if SameCell(units[0].position, position) then 0
    else 1 + FirstUnitAt(units[1..], position)
  }

  /** The unit at index `k`, or `None` past the end. */
  function UnitAtIndex(units: seq<Unit>, k: nat): Option<Unit> {
    if k < |units| then Some(units[k]) else None
  }

  /** `findLiveUnit`'s filter on a `findUnit` result: it passes a live unit
      through unchanged and drops anything else. */
  function AliveOnly(found: Option<Unit>): (r: Option<Unit>)
    ensures r.Some? ==> r == found && r.value.status == "alive"
    ensures found.Some? && found.value.status == "alive" ==> r == found
    ensures r.None? ==> found.None? || found.value.status != "alive"
  {
    if found.None? || found.value.status != "alive" then None else found
  }

  /** The live-unit lookup answers only with a live unit at the position; a
      dead first match hides every later unit in the same cell. */
  lemma AliveOnlyFirstMatch(units: seq<Unit>, position: Vec, i: nat)
    requires i < |units| && SameCell(units[i].position, position)
    ensures var r := AliveOnly(UnitAtIndex(units, FirstUnitAt(units, position)));
      && (r.Some? ==> r.value.status == "alive" && SameCell(r.value.position, position))
      && (r.None? <==> units[FirstUnitAt(units, position)].status != "alive")
  {
  }

  /** Concretely: a dead unit listed before a live one in the same cell hides it. */
  lemma DeadUnitHidesLiveUnit(position: Vec, tile: Vec)
    ensures var units := [GameItem(position, tile, "dead", 0), NewUnit(position, tile)];
      && AliveOnly(UnitAtIndex(units, FirstUnitAt(units, position))) == None
      && units[1].status == "alive" && SameCell(units[1].position, position)
  {
  }

  /** The unit found on a cell is the same whether or not units are listed after
      the list. */
  lemma {:induction false} FirstUnitAtAppend(units: seq<Unit>, more: seq<Unit>, position: Vec)
    ensures FirstUnitAt(units, position) < |units| ==>
      FirstUnitAt(units + more, position) == FirstUnitAt(units, position)
    ensures FirstUnitAt(units, position) == |units| ==>
      FirstUnitAt(units + more, position) == |units| + FirstUnitAt(more, position)
  {
    if |units| > 0 {
      assert (units + more)[0] == units[0];
      assert (units + more)[1..] == units[1..] + more;
      FirstUnitAtAppend(units[1..], more, position);
    } else {
      assert units + more == more;
    }
  }

  /** A newly made unit is alive: added after units that leave its cell free, it
      is the answer of the live-unit lookup on its cell. */
  lemma NewUnitIsFoundAlive(units: seq<Unit>, position: Vec, tile: Vec)
    requires forall i :: 0 <= i < |units| ==> !SameCell(units[i].position, position)
    ensures var all := units + [NewUnit(position, tile)];
      AliveOnly(UnitAtIndex(all, FirstUnitAt(all, position))) == Some(NewUnit(position, tile))
  {
    FirstUnitAtAppend(units, [NewUnit(position, tile)], position);
  }

  /** An observer, identified by its registration handle. */
  type ObserverId = nat

  /** One call `observer.unitDestroyed(unit)`. */
  datatype Delivery = UnitDestroyed(observer: ObserverId, unit: Unit)

  class GameState {
    const worldSize: Vec
    const ground: seq<seq<Vec>>
    var units: seq<Unit>
    var observers: seq<ObserverId>

    /** The world is as large as the ground grid, and every unit stands in it. */
    ghost predicate Valid()
      reads this
    {
      && |ground| == WorldHeight()
      && (forall y :: 0 <= y < |ground| ==> |ground[y]| == WorldWidth())
      && (forall i :: 0 <= i < |units| ==> IsInside(units[i].position))
    }

    /** The initial world: 16 by 10 cells of ground tile (5, 1), one live unit
        at (8, 9) drawn with tile (1, 0), and no observers. */
    constructor ()
      ensures worldSize == Vec(16, 10) && WorldWidth() == 16 && WorldHeight() == 10
      ensures |ground| == 10
      ensures forall y :: 0 <= y < 10 ==> |ground[y]| == 16
      ensures forall y, x :: 0 <= y < 10 && 0 <= x < 16 ==> ground[y][x] == Vec(5, 1)
      ensures units == [GameItem(Vec(8, 9), Vec(1, 0), "alive", 0)]
      ensures observers == []
      ensures Valid()
    {
      worldSize := Vec(16, 10);
      ground := seq(10, _ => seq(16, _ => Vec(5, 1)));
      units := [NewUnit(Vec(8, 9), Vec(1, 0))];
      observers := [];
    }

    function WorldWidth(): int {
      worldSize.x
    }

    function WorldHeight(): int {
      worldSize.y
    }

    predicate IsInside(position: Vec) {
      0 <= position.x < WorldWidth() && 0 <= position.y < WorldHeight()
    }

    /** Inside the world means: there is a ground tile at that cell. */
    lemma InsideIffGroundCell(position: Vec)
      requires Valid()
      ensures IsInside(position) <==>
        0 <= position.y < |ground| && 0 <= position.x < |ground[position.y]|
    {
    }

    /** Lookup by a position outside the world finds nothing, because every unit
        is inside. */
    lemma OutsideFindsNoUnit(position: Vec)
      requires Valid() && !IsInside(position)
      ensures FirstUnitAt(units, position) == |units|
    {
    }

    /** `findUnit`: the first unit in list order standing on `position`. */
    method FindUnit(position: Vec) returns (r: Option<Unit>)
      ensures r == UnitAtIndex(units, FirstUnitAt(units, position))
      ensures r.None? <==> forall i :: 0 <= i < |units| ==> !SameCell(units[i].position, position)
      ensures r.Some? ==> exists i :: (
        && 0 <= i < |units| && units[i] == r.value
        && SameCell(r.value.position, position)
        && forall j :: 0 <= j < i ==> !SameCell(units[j].position, position))
    {
      for i := 0 to |units|
        invariant forall j :: 0 <= j < i ==> !SameCell(units[j].position, position)
      {
        var unit := units[i];
        if SameCell(unit.position, position) {
          return Some(unit);
        }
      }
      return None;
    }

    /** `findLiveUnit`: the `findUnit` answer when it is alive, otherwise `None`. */
    method FindLiveUnit(position: Vec) returns (r: Option<Unit>)
      ensures r == AliveOnly(UnitAtIndex(units, FirstUnitAt(units, position)))
      ensures r.Some? ==> r.value.status == "alive" && SameCell(r.value.position, position)
    {
      var unit := FindUnit(position);
      if unit.None? || unit.value.status != "alive" {
        return None;
      }
      return unit;
    }

    /** `addObserver`: registers `observer` after all earlier ones. */
    method AddObserver(observer: ObserverId)
      requires Valid()
      modifies this`observers
      ensures Valid()
      ensures observers == old(observers) + [observer]
      ensures units == old(units)
    {
      observers := observers + [observer];
    }

    /** `notifyUnitDestroyed`: one `unitDestroyed(unit)` call per registration,
        in registration order. */
    method NotifyUnitDestroyed(unit: Unit) returns (deliveries: seq<Delivery>)
      ensures |deliveries| == |observers|
      ensures forall i :: 0 <= i < |observers| ==> deliveries[i] == UnitDestroyed(observers[i], unit)
    {
      deliveries := [];
      for i := 0 to |observers|
        invariant |deliveries| == i
        invariant forall j :: 0 <= j < i ==> deliveries[j] == UnitDestroyed(observers[j], unit)
      {
        deliveries := deliveries + [UnitDestroyed(observers[i], unit)];
      }
    }
  }

  /** The initial unit satisfies `isInside` and is alive and unrotated. */
  lemma InitialUnitIsInside(state: GameState)
    requires state.worldSize == Vec(16, 10)
    requires state.units == [GameItem(Vec(8, 9), Vec(1, 0), "alive", 0)]
    ensures state.IsInside(state.units[0].position)
    ensures state.units[0].status == "alive" && state.units[0].orientation == 0
  {
  }

  /** Two observers registered on a fresh state are each told exactly once, in
      registration order, about a destroyed unit. */
  method TwoObserversAreNotifiedInOrder(first: ObserverId, second: ObserverId, unit: Unit)
    returns (deliveries: seq<Delivery>)
    ensures deliveries == [UnitDestroyed(first, unit), UnitDestroyed(second, unit)]
  {
    var state := new GameState();
    state.AddObserver(first);
    state.AddObserver(second);
    deliveries := state.NotifyUnitDestroyed(unit);
  }
}
