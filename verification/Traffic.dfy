/**
 * The intersection monitor of `traffic_synch.c` with the driver of `traffic.c`: the code of
 * the monitor, its rules, and every interleaving of vehicle threads.
 */
module Traffic {
  import opened Common
  import Seqs

  datatype Direction = North | East | South | West

  datatype Car = Car(origin: Direction, destination: Direction)

  // The monitor's right_turn.
  predicate RightTurn(car: Car) {
    || (car.origin == East && car.destination == North)
    || (car.origin == West && car.destination == South)
    || (car.origin == North && car.destination == West)
    || (car.origin == South && car.destination == East)
  }

  // traffic_rules: both cars may be in the intersection.
  predicate TrafficRules(a: Car, b: Car) {
    || a.origin == b.origin
    || (a.origin == b.destination && a.destination == b.origin)
    || (a.destination != b.destination && (RightTurn(a) || RightTurn(b)))
  }

  function Index(d: Direction): (i: nat)
    ensures i < 4
  {
    match d
    case North => 0
    case East => 1
    case South => 2
    case West => 3
  }

  // A quarter turn clockwise, of a direction and of a car's whole way.
  function Clockwise(d: Direction): (r: Direction)
    ensures Index(r) == (Index(d) + 1) % 4
  {
    match d
    case North => East
    case East => South
    case South => West
    case West => North
  }

  function Turned(car: Car): Car {
    Car(Clockwise(car.origin), Clockwise(car.destination))
  }

  /**
   * A right turn leaves by the exit a quarter turn counterclockwise of where the car came
   * in, which is on the driver's right; the rule does not depend on where north is.
   */
  lemma RightByCompass(a: Car, b: Car)
    ensures RightTurn(a) <==> Index(a.destination) == (Index(a.origin) + 3) % 4
    ensures RightTurn(a) <==> a.origin == Clockwise(a.destination)
    ensures TrafficRules(Turned(a), Turned(b)) <==> TrafficRules(a, b)
  {
    assert Index(a.origin) == Index(b.destination) <==> a.origin == b.destination;
  }

  // The shared state: in_intersection and the four wait counters.
  datatype Monitor = Monitor(cars: seq<Car>, waits: seq<int>)

  ghost predicate Fits(m: Monitor, car: Car) {
    forall i :: 0 <= i < |m.cars| ==> TrafficRules(car, m.cars[i])
  }

  // ---------------------------------------------------------------- what the sections do

  // cv_wait on the cv of the origin.
  function Waited(m: Monitor, car: Car): Monitor
    requires |m.waits| == 4
  {
    m.(waits := m.waits[Index(car.origin) := m.waits[Index(car.origin)] + 1])
  }

  function Entered(m: Monitor, car: Car): Monitor {
    m.(cars := m.cars + [car])
  }

  // The direction whose cv choose_cv picks: the longest queue, in the order N, S, E, W.
  function Chosen(waits: seq<int>): (d: Direction)
    requires |waits| == 4
    ensures forall b :: waits[Index(b)] <= waits[Index(d)]
  {
    if waits[1] <= waits[0] && waits[2] <= waits[0] && waits[3] <= waits[0] then North
    else if waits[1] <= waits[2] && waits[3] <= waits[2] then South
    else if waits[3] <= waits[1] then East
    else West
  }

  // Where the leaving car is: the first with the same origin and destination.
  function Position(cars: seq<Car>, car: Car): (i: nat)
    ensures i <= |cars| && (i < |cars| <==> car in cars) && (i < |cars| ==> cars[i] == car)
    ensures forall j :: 0 <= j < i ==> cars[j] != car
  {
    if cars == [] then 0 else if cars[0] == car then 0 else Position(cars[1..], car) + 1
  }

  function Exited(m: Monitor, car: Car): Monitor
    requires |m.waits| == 4
  {
    if car in m.cars then
      Monitor(Seqs.Remove(m.cars, Position(m.cars, car)), m.waits[Index(Chosen(m.waits)) := 0])
    else m
  }

  // ---------------------------------------------------------------- the code

  class Intersection {
    var cars: seq<Car>
    var northWait: int
    var southWait: int
    var eastWait: int
    var westWait: int

    ghost function Now(): Monitor
      reads this
    {
      Monitor(cars, [northWait, eastWait, southWait, westWait])
    }

    constructor ()
      ensures Now() == Monitor([], [0, 0, 0, 0])
    {
      cars, northWait, southWait, eastWait, westWait := [], 0, 0, 0, 0;
    }

    method Max4(a: int, b: int, c: int, d: int) returns (r: int)
      ensures r in {a, b, c, d} && a <= r && b <= r && c <= r && d <= r
    {
      var e := if a > b then a else b;
      var f := if c > d then c else d;
      r := if e > f then e else f;
    }

    method ChooseCv() returns (d: Direction)
      modifies this
      ensures d == old(Chosen(Now().waits)) && cars == old(cars)
      ensures Now().waits == old(Now().waits)[Index(d) := 0]
    {
      var max := Max4(northWait, southWait, eastWait, westWait);
      if max == northWait {
        northWait := 0;
        return North;
      } else if max == southWait {
        southWait := 0;
        return South;
      } else if max == eastWait {
        eastWait := 0;
        return East;
      } else {
        westWait := 0;
        return West;
      }
    }

    // The counter that goes up before cv_wait.
    method CountWait(car: Car)
      modifies this
      ensures Now() == old(Waited(Now(), car))
    {
      if car.origin == North {
        northWait := northWait + 1;
      } else if car.origin == South {
        southWait := southWait + 1;
      } else if car.origin == East {
        eastWait := eastWait + 1;
      } else {
        westWait := westWait + 1;
      }
    }

    /**
     * intersection_before_entry up to the first cv_wait or the end: the car enters if it
     * fits with every car inside, and waits otherwise.
     */
    method FirstTry(car: Car) returns (waits: bool)
      modifies this
      ensures waits <==> !old(Fits(Now(), car))
      ensures Now() == old(if Fits(Now(), car) then Entered(Now(), car) else Waited(Now(), car))
    {
      var i := 0;
      while i < |cars|
        invariant 0 <= i <= |cars| && forall j :: 0 <= j < i ==> TrafficRules(car, cars[j])
        invariant Now() == old(Now())
      {
        if !TrafficRules(car, cars[i]) {
          CountWait(car);
          return true;
        }
        i := i + 1;
      }
      cars := cars + [car];
      return false;
    }

    /**
     * intersection_before_entry from a return of cv_wait on: the car waits again unless the
     * intersection is empty.
     */
    method Retry(car: Car) returns (waits: bool)
      modifies this
      ensures waits <==> old(cars) != []
      ensures Now() == old(if cars == [] then Entered(Now(), car) else Waited(Now(), car))
    {
      if |cars| > 0 {
        CountWait(car);
        return true;
      }
      cars := cars + [car];
      return false;
    }

    /**
     * intersection_after_exit; the result is the cv that is broadcast.
     */
    method AfterExit(car: Car) returns (woken: Option<Direction>)
      modifies this
      ensures Now() == old(Exited(Now(), car))
      ensures woken == old(if car in cars then Some(Chosen(Now().waits)) else None)
    {
      woken := None;
      var i := 0;
      while i < |cars|
        invariant 0 <= i <= |cars| && car !in cars[..i]
        invariant Now() == old(Now()) && woken == None
      {
        if cars[i].origin == car.origin && cars[i].destination == car.destination {
          assert i == Position(cars, car);
          cars := Seqs.Remove(cars, i);
          var d := ChooseCv();
          return Some(d);
        }
        i := i + 1;
      }
    }
  }

  // ---------------------------------------------------------------- the checker

  // The driver's own right_turn.
  predicate DriverRightTurn(v: Car) {
    || (v.origin == West && v.destination == South)
    || (v.origin == South && v.destination == East)
    || (v.origin == East && v.destination == North)
    || (v.origin == North && v.destination == West)
  }

  // The test of check_constraints on two vehicles.
  predicate NoConflict(v: Car, w: Car) {
    || v.origin == w.origin
    || (v.origin == w.destination && v.destination == w.origin)
    || ((DriverRightTurn(v) || DriverRightTurn(w)) && w.destination != v.destination)
  }

  /**
   * The rule of the monitor and the test of the driver, written apart, agree on all pairs of
   * cars, and the rule is symmetric and reflexive.
   */
  lemma RulesAgree(v: Car, w: Car)
    ensures DriverRightTurn(v) <==> RightTurn(v)
    ensures NoConflict(v, w) <==> TrafficRules(v, w)
    ensures TrafficRules(v, w) <==> TrafficRules(w, v)
    ensures TrafficRules(v, v)
  {
  }

  // check_constraints panics exactly if the new vehicle conflicts with a recorded one.
  method CheckConstraints(vehicles: seq<Option<Car>>, t: nat) returns (panics: bool)
    requires t < |vehicles| && vehicles[t].Some?
    ensures panics <==> exists i ::
      && 0 <= i < |vehicles| && i != t && vehicles[i].Some?
      && !TrafficRules(vehicles[i].value, vehicles[t].value)
  {
    var i := 0;
    while i < |vehicles|
      invariant 0 <= i <= |vehicles|
      invariant forall j :: 0 <= j < i && j != t && vehicles[j].Some? ==>
        TrafficRules(vehicles[j].value, vehicles[t].value)
    {
      if i != t && vehicles[i].Some? {
        RulesAgree(vehicles[i].value, vehicles[t].value);
        if !NoConflict(vehicles[i].value, vehicles[t].value) {
          return true;
        }
      }
      i := i + 1;
    }
    return false;
  }
}
