/**
 * Every interleaving of the vehicle threads: the checker of the driver never panics and no
 * vehicle is stranded.
 */
module TrafficRuns {
  import opened Common
  import opened Seqs
  import opened Traffic

  /**
   * Where a vehicle thread is.  Arriving: about to take intersection_lock for the first
   * time.  Asleep: in cv_wait.  Woken: out of cv_wait's sleep, about to test again.
   * Inside: let in.  Recorded: in the driver's vehicles array.  Leaving: out of it, about
   * to call intersection_after_exit.
   */
  datatype Pc = Outside | Arriving | Asleep | Woken | Inside | Recorded | Leaving

  datatype Vehicle = Vehicle(pc: Pc, car: Car)

  datatype State = State(m: Monitor, vs: seq<Vehicle>, vehicles: seq<Option<Car>>)

  datatype Event = Arrive(t: nat, car: Car) | Try(t: nat) | Retest(t: nat) | Record(t: nat) | Unrecord(t: nat)
    | Exit(t: nat)

  predicate In(v: Vehicle) {
    v.pc.Inside? || v.pc.Recorded? || v.pc.Leaving?
  }

  // What vehicles are counted by: the cv they sleep on, or the car they brought in.
  datatype Kind = AsleepOn(d: Direction) | InWith(car: Car)

  predicate Is(v: Vehicle, k: Kind) {
    match k
    case AsleepOn(d) => v.pc.Asleep? && v.car.origin == d
    case InWith(car) => In(v) && v.car == car
  }

  function One(v: Vehicle, k: Kind): nat {
    if Is(v, k) then 1 else 0
  }

  function Number(vs: seq<Vehicle>, k: Kind): nat {
    if vs == [] then 0 else Number(vs[..|vs| - 1], k) + One(vs[|vs| - 1], k)
  }

  // cv_broadcast on the cv of a direction.
  function WakeAll(vs: seq<Vehicle>, d: Direction): (r: seq<Vehicle>)
    ensures |r| == |vs|
    ensures forall i :: 0 <= i < |vs| ==> r[i] == if Is(vs[i], AsleepOn(d)) then Vehicle(Woken, vs[i].car) else vs[i]
  {
    if vs == [] then []
    else
      var v := vs[|vs| - 1];
      WakeAll(vs[..|vs| - 1], d) + [if Is(v, AsleepOn(d)) then Vehicle(Woken, v.car) else v]
  }

  // ---------------------------------------------------------------- the steps

  predicate Enabled(s: State, e: Event) {
    && |s.m.waits| == 4 && |s.vehicles| == |s.vs| && e.t < |s.vs|
    && match e
       case Arrive(t, car) => s.vs[t].pc.Outside? && car.origin != car.destination
       case Try(t) => s.vs[t].pc.Arriving?
       case Retest(t) => s.vs[t].pc.Woken?
       case Record(t) => s.vs[t].pc.Inside?
       case Unrecord(t) => s.vs[t].pc.Recorded?
       case Exit(t) => s.vs[t].pc.Leaving?
  }

  ghost function Step(s: State, e: Event): State
    requires Enabled(s, e)
  {
    var t, car := e.t, s.vs[e.t].car;
    match e
    case Arrive(_, car') => s.(vs := s.vs[t := Vehicle(Arriving, car')])
    case Try(_) =>
      if Fits(s.m, car) then State(Entered(s.m, car), s.vs[t := Vehicle(Inside, car)], s.vehicles)
      else State(Waited(s.m, car), s.vs[t := Vehicle(Asleep, car)], s.vehicles)
    case Retest(_) =>
      if s.m.cars == [] then State(Entered(s.m, car), s.vs[t := Vehicle(Inside, car)], s.vehicles)
      else State(Waited(s.m, car), s.vs[t := Vehicle(Asleep, car)], s.vehicles)
    case Record(_) => State(s.m, s.vs[t := Vehicle(Recorded, car)], s.vehicles[t := Some(car)])
    case Unrecord(_) => State(s.m, s.vs[t := Vehicle(Leaving, car)], s.vehicles[t := None])
    case Exit(_) =>
      var vs := s.vs[t := Vehicle(Outside, car)];
      State(Exited(s.m, car), if car in s.m.cars then WakeAll(vs, Chosen(s.m.waits)) else vs, s.vehicles)
  }

  // ---------------------------------------------------------------- the invariant

  ghost predicate Compatible(cars: seq<Car>) {
    forall i, j :: 0 <= i < |cars| && 0 <= j < |cars| && i != j ==> TrafficRules(cars[i], cars[j])
  }

  ghost predicate Counted(waits: seq<int>, vs: seq<Vehicle>) {
    |waits| == 4 && forall d :: waits[Index(d)] == Number(vs, AsleepOn(d))
  }

  // in_intersection holds, as a multiset, the cars of the vehicles let in and not yet out.
  ghost predicate Holds(cars: seq<Car>, vs: seq<Vehicle>) {
    forall car :: multiset(cars)[car] == Number(vs, InWith(car))
  }

  // A sleeper at an empty intersection has a woken vehicle that has yet to test.
  ghost predicate NotStranded(cars: seq<Car>, vs: seq<Vehicle>) {
    cars == [] && (exists t :: 0 <= t < |vs| && vs[t].pc.Asleep?) ==> exists t :: 0 <= t < |vs| && vs[t].pc.Woken?
  }

  ghost predicate DriverOk(vs: seq<Vehicle>, vehicles: seq<Option<Car>>) {
    && |vehicles| == |vs|
    && forall t :: 0 <= t < |vs| ==> vehicles[t] == if vs[t].pc.Recorded? then Some(vs[t].car) else None
  }

  ghost predicate Inv(s: State) {
    && |s.m.waits| == 4 && Compatible(s.m.cars) && Holds(s.m.cars, s.vs)
    && Counted(s.m.waits, s.vs) && NotStranded(s.m.cars, s.vs) && DriverOk(s.vs, s.vehicles)
  }

  // ---------------------------------------------------------------- counting

  lemma {:induction false} NumberChange(vs: seq<Vehicle>, t: nat, v: Vehicle, k: Kind)
    requires t < |vs|
    ensures Number(vs[t := v], k) == Number(vs, k) - One(vs[t], k) + One(v, k)
  {
    var n := |vs| - 1;
    if t == n {
      assert vs[t := v][..n] == vs[..n];
    } else {
      assert vs[t := v][..n] == vs[..n][t := v];
      NumberChange(vs[..n], t, v, k);
    }
  }

  lemma {:induction false} WakeAllNumber(vs: seq<Vehicle>, d: Direction, k: Kind)
    ensures Number(WakeAll(vs, d), k) == if k == AsleepOn(d) then 0 else Number(vs, k)
  {
    if vs != [] {
      var n := |vs| - 1;
      WakeAllNumber(vs[..n], d, k);
      assert WakeAll(vs, d)[..n] == WakeAll(vs[..n], d);
    }
  }

  lemma {:induction false} OneNumbered(vs: seq<Vehicle>, t: nat, k: Kind)
    requires t < |vs| && Is(vs[t], k)
    ensures Number(vs, k) > 0
  {
    var n := |vs| - 1;
    if t < n {
      OneNumbered(vs[..n], t, k);
    }
  }

  lemma {:induction false} NumberedOne(vs: seq<Vehicle>, k: Kind) returns (t: nat)
    requires Number(vs, k) > 0
    ensures t < |vs| && Is(vs[t], k)
  {
    var n := |vs| - 1;
    if Is(vs[n], k) {
      t := n;
    } else {
      t := NumberedOne(vs[..n], k);
    }
  }

  // ---------------------------------------------------------------- every step keeps it

  lemma EnterKeeps(cars: seq<Car>, car: Car)
    requires Compatible(cars) && forall i :: 0 <= i < |cars| ==> TrafficRules(car, cars[i])
    ensures Compatible(cars + [car])
  {
    forall i, j | 0 <= i < |cars + [car]| && 0 <= j < |cars + [car]| && i != j
      ensures TrafficRules((cars + [car])[i], (cars + [car])[j]) {
      if j == |cars| {
        RulesAgree(car, cars[i]);
      }
    }
  }

  lemma RemoveKeeps(cars: seq<Car>, i: nat)
    requires Compatible(cars) && i < |cars|
    ensures Compatible(Remove(cars, i))
  {
    var r := Remove(cars, i);
    forall a, b | 0 <= a < |r| && 0 <= b < |r| && a != b ensures TrafficRules(r[a], r[b]) {
      assert r[a] == cars[if a < i then a else a + 1] && r[b] == cars[if b < i then b else b + 1];
    }
  }

  lemma RemoveCounts(cars: seq<Car>, i: nat, c: Car)
    requires i < |cars|
    ensures multiset(Remove(cars, i))[c] == multiset(cars)[c] - if c == cars[i] then 1 else 0
  {
    assert cars == cars[..i] + [cars[i]] + cars[i + 1..];
  }

  // One vehicle changes; the cars and the counters follow.
  lemma OneMoves(m: Monitor, vs: seq<Vehicle>, t: nat, v: Vehicle, m': Monitor)
    requires Counted(m.waits, vs) && Holds(m.cars, vs) && t < |vs| && |m'.waits| == 4
    requires forall d :: m'.waits[Index(d)] == m.waits[Index(d)] - One(vs[t], AsleepOn(d)) + One(v, AsleepOn(d))
    requires forall c :: multiset(m'.cars)[c] == multiset(m.cars)[c] - One(vs[t], InWith(c)) + One(v, InWith(c))
    ensures Counted(m'.waits, vs[t := v]) && Holds(m'.cars, vs[t := v])
  {
    forall d ensures m'.waits[Index(d)] == Number(vs[t := v], AsleepOn(d)) {
      NumberChange(vs, t, v, AsleepOn(d));
    }
    forall c ensures multiset(m'.cars)[c] == Number(vs[t := v], InWith(c)) {
      NumberChange(vs, t, v, InWith(c));
    }
  }

  lemma IndexInjective(a: Direction, b: Direction)
    ensures Index(a) == Index(b) <==> a == b
  {
  }

  lemma WaitInv(s: State, t: nat)
    requires Inv(s) && t < |s.vs| && (s.vs[t].pc.Arriving? || s.vs[t].pc.Woken?) && s.m.cars != []
    ensures Inv(State(Waited(s.m, s.vs[t].car), s.vs[t := Vehicle(Asleep, s.vs[t].car)], s.vehicles))
  {
    hide Counted, Holds;
    var car := s.vs[t].car;
    forall d ensures Waited(s.m, car).waits[Index(d)] == s.m.waits[Index(d)] + One(Vehicle(Asleep, car), AsleepOn(d)) {
      IndexInjective(d, car.origin);
    }
    OneMoves(s.m, s.vs, t, Vehicle(Asleep, car), Waited(s.m, car));
  }

  lemma EnterInv(s: State, t: nat)
    requires Inv(s) && t < |s.vs| && (s.vs[t].pc.Arriving? || s.vs[t].pc.Woken?) && Fits(s.m, s.vs[t].car)
    ensures Inv(State(Entered(s.m, s.vs[t].car), s.vs[t := Vehicle(Inside, s.vs[t].car)], s.vehicles))
  {
    hide Counted, Holds;
    var car := s.vs[t].car;
    OneMoves(s.m, s.vs, t, Vehicle(Inside, car), Entered(s.m, car));
    EnterKeeps(s.m.cars, car);
  }

  lemma DriverInv(s: State, e: Event)
    requires Inv(s) && Enabled(s, e) && (e.Arrive? || e.Record? || e.Unrecord?)
    ensures Inv(Step(s, e))
  {
    hide Counted, Holds;
    var s' := Step(s, e);
    OneMoves(s.m, s.vs, e.t, s'.vs[e.t], s.m);
    WokenStays(s, e.t, s'.vs[e.t]);
  }

  lemma WokenStays(s: State, t: nat, v: Vehicle)
    requires NotStranded(s.m.cars, s.vs) && t < |s.vs| && !s.vs[t].pc.Woken? && !v.pc.Asleep?
    ensures NotStranded(s.m.cars, s.vs[t := v])
  {
    var vs' := s.vs[t := v];
    if s.m.cars == [] && exists u :: 0 <= u < |vs'| && vs'[u].pc.Asleep? {
      var u :| 0 <= u < |vs'| && vs'[u].pc.Asleep?;
      assert s.vs[u].pc.Asleep?;
      var w :| 0 <= w < |s.vs| && s.vs[w].pc.Woken?;
      assert vs'[w].pc.Woken?;
    }
  }

  // The leaving car is found.
  lemma CarFound(s: State, t: nat)
    requires Inv(s) && t < |s.vs| && In(s.vs[t])
    ensures s.vs[t].car in s.m.cars
  {
    OneNumbered(s.vs, t, InWith(s.vs[t].car));
    assert multiset(s.m.cars)[s.vs[t].car] > 0;
  }

  lemma ExitCounts(m: Monitor, vs: seq<Vehicle>)
    requires Counted(m.waits, vs) && Holds(m.cars, vs)
    ensures var d := Chosen(m.waits); Counted(m.waits[Index(d) := 0], WakeAll(vs, d)) && Holds(m.cars, WakeAll(vs, d))
  {
    var d := Chosen(m.waits);
    forall b ensures m.waits[Index(d) := 0][Index(b)] == Number(WakeAll(vs, d), AsleepOn(b)) {
      WakeAllNumber(vs, d, AsleepOn(b));
      IndexInjective(b, d);
    }
    forall c ensures multiset(m.cars)[c] == Number(WakeAll(vs, d), InWith(c)) {
      WakeAllNumber(vs, d, InWith(c));
    }
  }

  // If anybody sleeps on after the broadcast, somebody was woken.
  lemma ExitWakes(cars: seq<Car>, waits: seq<int>, vs: seq<Vehicle>)
    requires Counted(waits, vs)
    ensures NotStranded(cars, WakeAll(vs, Chosen(waits)))
  {
    var d := Chosen(waits);
    var r := WakeAll(vs, d);
    if t :| 0 <= t < |r| && r[t].pc.Asleep? {
      OneNumbered(vs, t, AsleepOn(vs[t].car.origin));
      assert waits[Index(vs[t].car.origin)] <= waits[Index(d)];
      var u := NumberedOne(vs, AsleepOn(d));
      assert r[u].pc.Woken?;
    }
  }

  // The car goes, the vehicle is outside; nobody is woken yet.
  lemma ExitCars(s: State, t: nat)
    requires Inv(s) && t < |s.vs| && s.vs[t].pc.Leaving? && s.vs[t].car in s.m.cars
    ensures var vs := s.vs[t := Vehicle(Outside, s.vs[t].car)];
            Counted(s.m.waits, vs) && Holds(Remove(s.m.cars, Position(s.m.cars, s.vs[t].car)), vs)
  {
    hide Counted, Holds, Compatible, NotStranded, DriverOk;
    var car := s.vs[t].car;
    var i, v := Position(s.m.cars, car), Vehicle(Outside, car);
    var m := Monitor(Remove(s.m.cars, i), s.m.waits);
    forall c ensures multiset(m.cars)[c] == multiset(s.m.cars)[c] - One(s.vs[t], InWith(c)) + One(v, InWith(c)) {
      RemoveCounts(s.m.cars, i, c);
    }
    OneMoves(s.m, s.vs, t, v, m);
  }

  lemma ExitDriver(vs: seq<Vehicle>, vehicles: seq<Option<Car>>, t: nat, car: Car, d: Direction)
    requires DriverOk(vs, vehicles) && t < |vs| && vs[t].pc.Leaving?
    ensures DriverOk(WakeAll(vs[t := Vehicle(Outside, car)], d), vehicles)
  {
  }

  lemma ExitInv(s: State, t: nat)
    requires Inv(s) && Enabled(s, Exit(t))
    ensures s.vs[t].car in s.m.cars && Inv(Step(s, Exit(t)))
  {
    CarFound(s, t);
    ExitCars(s, t);
    hide Counted, Holds, Compatible, NotStranded, DriverOk, One, Number, Index;
    var car, d := s.vs[t].car, Chosen(s.m.waits);
    var i, vs := Position(s.m.cars, car), s.vs[t := Vehicle(Outside, car)];
    ExitCounts(Monitor(Remove(s.m.cars, i), s.m.waits), vs);
    ExitWakes(Remove(s.m.cars, i), s.m.waits, vs);
    ExitDriver(s.vs, s.vehicles, t, car, d);
    RemoveKeeps(s.m.cars, i);
  }

  lemma StepInv(s: State, e: Event)
    requires Inv(s) && Enabled(s, e)
    ensures Inv(Step(s, e))
  {
    match e
    case Try(t) => if Fits(s.m, s.vs[t].car) { EnterInv(s, t); } else { WaitInv(s, t); }
    case Retest(t) => if s.m.cars == [] { EnterInv(s, t); } else { WaitInv(s, t); }
    case Exit(t) => ExitInv(s, t);
    case _ => DriverInv(s, e);
  }

  // ---------------------------------------------------------------- every run

  ghost predicate Initial(s: State) {
    && s.m == Monitor([], [0, 0, 0, 0]) && |s.vehicles| == |s.vs|
    && forall t :: 0 <= t < |s.vs| ==> s.vs[t].pc.Outside? && s.vehicles[t].None?
  }

  ghost predicate IsRun(ss: seq<State>, es: seq<Event>) {
    && |ss| == |es| + 1 && Initial(ss[0])
    && forall i :: 0 <= i < |es| ==> Enabled(ss[i], es[i]) && ss[i + 1] == Step(ss[i], es[i])
  }

  lemma {:induction false} NobodyNumbered(vs: seq<Vehicle>, k: Kind)
    requires forall t :: 0 <= t < |vs| ==> vs[t].pc.Outside?
    ensures Number(vs, k) == 0
  {
    if vs != [] {
      NobodyNumbered(vs[..|vs| - 1], k);
    }
  }

  lemma InitialInv(s: State)
    requires Initial(s)
    ensures Inv(s)
  {
    forall d ensures s.m.waits[Index(d)] == Number(s.vs, AsleepOn(d)) {
      NobodyNumbered(s.vs, AsleepOn(d));
    }
    forall c ensures multiset(s.m.cars)[c] == Number(s.vs, InWith(c)) {
      NobodyNumbered(s.vs, InWith(c));
    }
  }

  lemma {:induction false} RunInv(ss: seq<State>, es: seq<Event>, i: nat)
    requires IsRun(ss, es) && i < |ss|
    ensures Inv(ss[i])
  {
    if i == 0 {
      InitialInv(ss[0]);
    } else {
      RunInv(ss, es, i - 1);
      assert Enabled(ss[i - 1], es[i - 1]) && ss[i] == Step(ss[i - 1], es[i - 1]);
      StepInv(ss[i - 1], es[i - 1]);
    }
  }

  /**
   * The checker never panics: whenever a vehicle has been recorded, it conflicts with no
   * other recorded vehicle.
   */
  lemma CheckerNeverPanics(s: State, t: nat, i: nat)
    requires Inv(s) && t < |s.vs| && i < |s.vs| && i != t && s.vehicles[t].Some? && s.vehicles[i].Some?
    ensures TrafficRules(s.vehicles[i].value, s.vehicles[t].value)
  {
    CarFound(s, t);
    CarFound(s, i);
    RulesAgree(s.vs[i].car, s.vs[i].car);
  }

  /**
   * No vehicle is stranded: if any vehicle has not left, some vehicle is not asleep.
   */
  lemma SomeVehicleMoves(s: State, t: nat) returns (u: nat)
    requires Inv(s) && t < |s.vs| && !s.vs[t].pc.Outside?
    ensures u < |s.vs| && !s.vs[u].pc.Outside? && !s.vs[u].pc.Asleep?
  {
    if !s.vs[t].pc.Asleep? {
      u := t;
    } else if s.m.cars == [] {
      u :| 0 <= u < |s.vs| && s.vs[u].pc.Woken?;
    } else {
      assert s.m.cars[0] in multiset(s.m.cars);
      u := NumberedOne(s.vs, InWith(s.m.cars[0]));
    }
  }

  /**
   * The same over runs: in every reachable state the checker of the driver would pass for
   * every recorded vehicle, each wait counter is the number of sleepers of its direction,
   * and an empty intersection with a sleeper has a woken vehicle on its way to test again.
   */
  lemma RunSafe(ss: seq<State>, es: seq<Event>, n: nat, t: nat, i: nat, d: Direction)
    requires IsRun(ss, es) && n < |ss| && t < |ss[n].vs| && i < |ss[n].vs|
    ensures var s := ss[n];
            && |s.vehicles| == |s.vs| && |s.m.waits| == 4
            && (i != t && s.vehicles[t].Some? && s.vehicles[i].Some? ==>
                  TrafficRules(s.vehicles[i].value, s.vehicles[t].value))
            && s.m.waits[Index(d)] == Number(s.vs, AsleepOn(d))
            && (s.m.cars == [] && s.vs[t].pc.Asleep? ==> exists u :: 0 <= u < |s.vs| && s.vs[u].pc.Woken?)
  {
    RunInv(ss, es, n);
    if i != t && ss[n].vehicles[t].Some? && ss[n].vehicles[i].Some? {
      CheckerNeverPanics(ss[n], t, i);
    }
  }

  // ---------------------------------------------------------------- who is let in, and when

  // The monitor's cars are those of the vehicles let in.
  lemma CarsAreVehicles(s: State, car: Car)
    requires Inv(s)
    ensures car in s.m.cars <==> exists u :: 0 <= u < |s.vs| && In(s.vs[u]) && s.vs[u].car == car
  {
    if car in s.m.cars {
      assert multiset(s.m.cars)[car] > 0;
      var u := NumberedOne(s.vs, InWith(car));
    }
    if u: int :| 0 <= u < |s.vs| && In(s.vs[u]) && s.vs[u].car == car {
      CarFound(s, u);
    }
  }

  /**
   * On arrival a vehicle is let in exactly if the rule allows it beside every vehicle that is
   * in; otherwise it sleeps on the cv of its origin.
   */
  lemma ArrivalRule(s: State, t: nat)
    requires Inv(s) && Enabled(s, Try(t))
    ensures var v := Step(s, Try(t)).vs[t];
            && (v.pc.Inside? <==>
                  forall u :: 0 <= u < |s.vs| && In(s.vs[u]) ==> TrafficRules(s.vs[t].car, s.vs[u].car))
            && (v.pc.Inside? || v.pc.Asleep?) && v.car == s.vs[t].car
  {
    forall u | 0 <= u < |s.vs| && In(s.vs[u]) ensures s.vs[u].car in s.m.cars {
      CarFound(s, u);
    }
    if !Fits(s.m, s.vs[t].car) {
      var i :| 0 <= i < |s.m.cars| && !TrafficRules(s.vs[t].car, s.m.cars[i]);
      CarsAreVehicles(s, s.m.cars[i]);
    }
  }

  /**
   * A vehicle that was woken is let in exactly if no vehicle is in.
   */
  lemma RetestRule(s: State, t: nat)
    requires Inv(s) && Enabled(s, Retest(t))
    ensures var v := Step(s, Retest(t)).vs[t];
            && (v.pc.Inside? <==> forall u :: 0 <= u < |s.vs| ==> !In(s.vs[u]))
            && (v.pc.Inside? || v.pc.Asleep?) && v.car == s.vs[t].car
  {
    if s.m.cars != [] {
      CarsAreVehicles(s, s.m.cars[0]);
    } else {
      forall u | 0 <= u < |s.vs| ensures !In(s.vs[u]) {
        if In(s.vs[u]) {
          CarFound(s, u);
        }
      }
    }
  }

  /**
   * A vehicle that leaves wakes all sleepers of one direction and nobody else, and no
   * direction has more sleepers.
   */
  lemma ExitRule(s: State, t: nat, d: Direction)
    requires Inv(s) && Enabled(s, Exit(t))
    ensures var v', w := Step(s, Exit(t)).vs, Chosen(s.m.waits);
            && Number(s.vs, AsleepOn(d)) <= Number(s.vs, AsleepOn(w))
            && v'[t] == Vehicle(Outside, s.vs[t].car)
            && forall u :: 0 <= u < |s.vs| && u != t ==>
                 v'[u] == if Is(s.vs[u], AsleepOn(w)) then Vehicle(Woken, s.vs[u].car) else s.vs[u]
  {
    CarFound(s, t);
    assert s.m.waits[Index(d)] == Number(s.vs, AsleepOn(d));
    assert s.m.waits[Index(Chosen(s.m.waits))] == Number(s.vs, AsleepOn(Chosen(s.m.waits)));
  }

  // What one step does to a vehicle's way.
  lemma WayStep(s: State, e: Event, t: nat)
    requires Enabled(s, e) && t < |s.vs|
    ensures var v, vs' := s.vs[t], Step(s, e).vs;
            && |vs'| == |s.vs|
            && (e.Arrive? && e.t == t ==> v.pc.Outside? && vs'[t] == Vehicle(Arriving, e.car))
            && (e == Exit(t) ==> !v.pc.Outside? && vs'[t] == Vehicle(Outside, v.car))
            && (e != Exit(t) && !(e.Arrive? && e.t == t) ==>
                  vs'[t].car == v.car && (vs'[t].pc.Outside? <==> v.pc.Outside?))
  {
  }

  /**
   * From its arrival until it leaves, in every run, a vehicle is on its way from the origin to
   * the destination it arrived with.
   */
  lemma {:induction false} Journey(ss: seq<State>, es: seq<Event>, i: nat, j: nat, t: nat, car: Car)
    requires IsRun(ss, es) && i < j < |ss| && es[i] == Arrive(t, car) && forall m :: i < m < j ==> es[m] != Exit(t)
    ensures t < |ss[j].vs| && ss[j].vs[t].car == car && !ss[j].vs[t].pc.Outside?
    ensures j < |es| && es[j] == Exit(t) ==> t < |ss[j + 1].vs| && ss[j + 1].vs[t] == Vehicle(Outside, car)
  {
    if i < j - 1 {
      Journey(ss, es, i, j - 1, t, car);
    }
    WayAt(ss, es, j - 1, t);
    if j < |es| && es[j] == Exit(t) {
      WayAt(ss, es, j, t);
    }
    hide Enabled, Step;
  }

  lemma WayAt(ss: seq<State>, es: seq<Event>, m: nat, t: nat)
    requires IsRun(ss, es) && m < |es| && (t < |ss[m].vs| || es[m].t == t)
    ensures t < |ss[m].vs| == |ss[m + 1].vs|
    ensures var v, v' := ss[m].vs[t], ss[m + 1].vs[t];
            && (es[m].Arrive? && es[m].t == t ==> v.pc.Outside? && v' == Vehicle(Arriving, es[m].car))
            && (es[m] == Exit(t) ==> v' == Vehicle(Outside, v.car))
            && (es[m] != Exit(t) && !(es[m].Arrive? && es[m].t == t) ==>
                  v'.car == v.car && (v'.pc.Outside? <==> v.pc.Outside?))
  {
    assert Enabled(ss[m], es[m]) && ss[m + 1] == Step(ss[m], es[m]);
    WayStep(ss[m], es[m], t);
    hide Step;
  }
}
