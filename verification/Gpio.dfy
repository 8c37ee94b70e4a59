/**
 The GPIO pin allocator: which pins exist, which are open, how many open pins each driver
 serves, and which input pins are watched for edges.
 */
module Gpio {
  import opened Sequences
  import opened Text

  const TYPE_IO := 1
  const TYPE_PWM := 2
  const TYPE_LOCK := 3

  /** The header pins that carry a GPIO. */
  const PINS: seq<int> := [3, 5, 7, 8, 10, 11, 12, 13, 15, 16, 18, 19, 21, 22, 23, 24, 26]

  /** GPIO number by pin, -1 where there is none. */
  const GPIO_FROM_PIN: seq<int> :=
    [-1, -1, -1, 2, -1, 3, -1, 4, 14, -1, 15, 17, 18, 27, -1, 22, 23, -1, 24, 10, -1, 9, 25, 11, 8, -1, 7]

  datatype Direction = In | Out

  class Driver {
    const typ: int
    var refcount: int

    constructor (typ: int)
      ensures this.typ == typ && refcount == 0
    {
      this.typ, refcount := typ, 0;
    }
  }

  /** An open pin. Direction, value and callback belong to pins of the IO driver. */
  class Pin {
    const pin: int
    const gpio: int
    const usage: string
    const driver: Driver
    var direction: Direction
    var value: int

    constructor (pin: int, gpio: int, usage: string, driver: Driver, direction: Direction, value: int)
      ensures this.pin == pin && this.gpio == gpio && this.usage == usage && this.driver == driver
      ensures this.direction == direction && this.value == value
    {
      this.pin, this.gpio, this.usage, this.driver, this.direction, this.value := pin, gpio, usage, driver,
        direction, value;
    }
  }

  /** Every listed pin has a GPIO, and no two share one. */
  ghost predicate TableFits(pins: seq<int>, table: seq<int>) {
    && (forall p :: p in pins ==> 0 <= p < |table| && table[p] >= 0)
    && (forall p, q :: p in pins && q in pins && p != q ==> table[p] != table[q])
  }

  /** Pin by GPIO number, -1 where there is none. */
  const PIN_FROM_GPIO: seq<int> :=
    [-1, -1, 3, 5, 7, -1, -1, 26, 24, 21, 19, 23, -1, -1, 8, 10, -1, 11, 12, -1, -1, -1, 15, 16, 18, 22, -1, 13]

  lemma PinTableInverts(p: int)
    requires p in PINS
    ensures 0 <= p < |GPIO_FROM_PIN|
    ensures 0 <= GPIO_FROM_PIN[p] < |PIN_FROM_GPIO| && PIN_FROM_GPIO[GPIO_FROM_PIN[p]] == p
  {
  }

  lemma PinTableFits()
    ensures TableFits(PINS, GPIO_FROM_PIN)
  {
    forall p, q | p in PINS && q in PINS
      ensures 0 <= p < |GPIO_FROM_PIN| && GPIO_FROM_PIN[p] >= 0
      ensures 0 <= q < |GPIO_FROM_PIN| && (p != q ==> GPIO_FROM_PIN[p] != GPIO_FROM_PIN[q])
    {
      PinTableInverts(p);
      PinTableInverts(q);
    }
  }

  /** Number of open pins of a driver. */
  function Served(gpios: seq<Pin>, d: Driver): nat {
    if gpios == [] then 0 else (if gpios[0].driver == d then 1 else 0) + Served(gpios[1..], d)
  }

  lemma {:induction false} ServedAppend(a: seq<Pin>, b: seq<Pin>, d: Driver)
    ensures Served(a + b, d) == Served(a, d) + Served(b, d)
  {
    if a == [] {
      assert a + b == b;
    } else {
      assert (a + b)[1..] == a[1..] + b;
      ServedAppend(a[1..], b, d);
    }
  }

  lemma ServedWithout(gpios: seq<Pin>, k: nat, d: Driver)
    requires k < |gpios|
    ensures Served(gpios, d) == Served(RemoveAt(gpios, k), d) + if gpios[k].driver == d then 1 else 0
  {
    assert gpios == gpios[..k] + ([gpios[k]] + gpios[k + 1..]);
    ServedAppend(gpios[..k], [gpios[k]] + gpios[k + 1..], d);
    ServedAppend([gpios[k]], gpios[k + 1..], d);
    ServedAppend(gpios[..k], gpios[k + 1..], d);
    assert Served([gpios[k]], d) == if gpios[k].driver == d then 1 else 0;
  }

  lemma ServedWithoutAll(gpios: seq<Pin>, k: nat)
    requires k < |gpios|
    ensures forall d :: Served(gpios, d) == Served(RemoveAt(gpios, k), d) + if gpios[k].driver == d then 1 else 0
  {
    forall d ensures Served(gpios, d) == Served(RemoveAt(gpios, k), d) + if gpios[k].driver == d then 1 else 0 {
      ServedWithout(gpios, k, d);
    }
  }

  lemma ServedSnoc(gpios: seq<Pin>, g: Pin)
    ensures forall d :: Served(gpios + [g], d) == Served(gpios, d) + if g.driver == d then 1 else 0
  {
    forall d ensures Served(gpios + [g], d) == Served(gpios, d) + if g.driver == d then 1 else 0 {
      ServedAppend(gpios, [g], d);
      assert Served([g], d) == if g.driver == d then 1 else 0;
    }
  }

  lemma {:induction false} ServedPositive(gpios: seq<Pin>, k: nat)
    requires k < |gpios|
    ensures Served(gpios, gpios[k].driver) > 0
  {
    ServedWithout(gpios, k, gpios[k].driver);
  }

  /** Open pins exist, are distinct objects on distinct pins, carry their pin's number and have a registered driver. */
  ghost predicate PinsValid(gpios: seq<Pin>, types: seq<Driver>, pins: seq<int>, table: seq<int>) {
    && TableFits(pins, table)
    && (forall i, j :: 0 <= i < j < |gpios| ==> gpios[i] != gpios[j] && gpios[i].pin != gpios[j].pin)
    && (forall g :: g in gpios ==> g.pin in pins && g.gpio == table[g.pin] && g.driver in types)
  }

  lemma PinOpened(gpios: seq<Pin>, types: seq<Driver>, pins: seq<int>, table: seq<int>, g: Pin)
    requires PinsValid(gpios, types, pins, table)
    requires g.pin in pins && g.gpio == table[g.pin] && g.driver in types && forall o :: o in gpios ==> o.pin != g.pin
    ensures PinsValid(gpios + [g], types, pins, table)
  {
  }

  lemma PinClosed(gpios: seq<Pin>, types: seq<Driver>, pins: seq<int>, table: seq<int>, k: nat)
    requires PinsValid(gpios, types, pins, table) && k < |gpios|
    ensures PinsValid(RemoveAt(gpios, k), types, pins, table)
  {
    var rest := RemoveAt(gpios, k);
    forall i, j | 0 <= i < j < |rest| ensures rest[i] != rest[j] && rest[i].pin != rest[j].pin {
      RemoveAtIndex(gpios, k, i);
      RemoveAtIndex(gpios, k, j);
    }
    forall g | g in rest ensures g in gpios {
      var i :| 0 <= i < |rest| && rest[i] == g;
      RemoveAtIndex(gpios, k, i);
    }
  }

  lemma PinDropped(gpios: seq<Pin>, k: nat)
    requires NoRepeat(gpios) && k < |gpios|
    ensures RemoveFirst(gpios, gpios[k]) == RemoveAt(gpios, k)
    ensures forall p :: p in RemoveAt(gpios, k) <==> p in gpios && p != gpios[k]
    ensures forall d :: Served(gpios, d) == Served(RemoveAt(gpios, k), d) + if gpios[k].driver == d then 1 else 0
  {
    ServedWithoutAll(gpios, k);
    RemoveFirstIsRemoveAt(gpios, k);
    RemoveAtMembers(gpios, k);
  }

  class Manager {
    const io: Driver
    const pwm: Driver
    const lock: Driver
    const pins: seq<int>
    const gpioFromPin: seq<int>
    var types: seq<Driver>
    var gpios: seq<Pin>
    var monitors: seq<Pin>

    ghost predicate DriversValid()
      reads this, io, pwm, lock
    {
      && types == [io, pwm, lock] && io != pwm && io != lock && pwm != lock
      && io.typ == TYPE_IO && pwm.typ == TYPE_PWM && lock.typ == TYPE_LOCK
      && (forall d :: d in types ==> d.refcount == Served(gpios, d))
    }

    /** The monitor list holds each open IO pin with direction `in` exactly once, and nothing else. */
    ghost predicate MonitorsValid()
      reads this, gpios
    {
      && NoRepeat(monitors)
      && (forall g :: g in monitors ==> g in gpios && g.driver == io && g.direction == In)
      && (forall g :: g in gpios && g.driver == io && g.direction == In ==> g in monitors)
    }

    ghost predicate Valid()
      reads this, io, pwm, lock, gpios
    {
      PinsValid(gpios, types, pins, gpioFromPin) && DriversValid() && MonitorsValid()
    }

    /** `gpio_init` with its three drivers. */
    constructor ()
      ensures Valid() && gpios == [] && fresh(io) && fresh(pwm) && fresh(lock)
      ensures pins == PINS && gpioFromPin == GPIO_FROM_PIN
    {
      pins, gpioFromPin := PINS, GPIO_FROM_PIN;
      io := new Driver(TYPE_IO);
      pwm := new Driver(TYPE_PWM);
      lock := new Driver(TYPE_LOCK);
      new;
      types, gpios, monitors := [io, pwm, lock], [], [];
      PinTableFits();
    }

    method PinLookup(pin: int) returns (found: bool)
      ensures found <==> exists g :: g in gpios && g.pin == pin
    {
      for i := 0 to |gpios|
        invariant forall k :: 0 <= k < i ==> gpios[k].pin != pin
      {
        if gpios[i].pin == pin { return true; }
      }
      return false;
    }

    method TypeLookup(typ: int) returns (driver: Driver?)
      requires DriversValid()
      ensures driver == if typ == TYPE_IO then io else if typ == TYPE_PWM then pwm
        else if typ == TYPE_LOCK then lock else null
    {
      for i := 0 to |types|
        invariant forall k :: 0 <= k < i ==> types[k].typ != typ
      {
        if types[i].typ == typ { return types[i]; }
      }
      assert types[0] == io && types[1] == pwm && types[2] == lock;
      return null;
    }

    method PinCheck(pin: int) returns (valid: bool)
      ensures valid <==> pin in pins
    {
      for i := 0 to |pins|
        invariant pin !in pins[..i]
      {
        if pins[i] == pin { return true; }
      }
      return false;
    }

    /**
     Opens a pin for a driver, or returns null. `direction` and `value` are what the kernel
     reports for the exported pin.
    */
    method Open(pin: int, usage: Option<string>, typ: int, direction: Direction, value: int) returns (g: Pin?)
      requires Valid()
      modifies this`gpios, this`monitors, io, pwm, lock
      ensures Valid() && types == old(types)
      ensures g != null <==>
        usage.Some? && pin in pins && typ in {TYPE_IO, TYPE_PWM, TYPE_LOCK} &&
          !exists o :: o in old(gpios) && o.pin == pin
      ensures g != null ==> fresh(g) && gpios == old(gpios) + [g] && g.pin == pin && g.driver.typ == typ
      ensures g != null && typ == TYPE_IO ==> g.direction == direction && g.value == value
      ensures g == null ==> gpios == old(gpios) && monitors == old(monitors)
    {
      if usage.None? { return null; }
      var valid := PinCheck(pin);
      if !valid { return null; }
      var used := PinLookup(pin);
      if used { return null; }
      var driver := TypeLookup(typ);
      if driver == null { return null; }
      g := new Pin(pin, gpioFromPin[pin], usage.value, driver, direction, value);
      Enlist(g);
    }

    /** The driver opens the pin, then the pin is listed and counted. */
    method Enlist(g: Pin)
      requires Valid() && g !in gpios && g.driver in types
      requires g.pin in pins && g.gpio == gpioFromPin[g.pin] && forall o :: o in gpios ==> o.pin != g.pin
      modifies this`gpios, this`monitors, g.driver
      ensures Valid() && gpios == old(gpios) + [g]
    {
      if g.driver == io && g.direction == In {
        monitors := monitors + [g];
      }
      ServedSnoc(gpios, g);
      PinOpened(gpios, types, pins, gpioFromPin, g);
      gpios := gpios + [g];
      g.driver.refcount := g.driver.refcount + 1;
    }

    /** Removes the pin from the monitor list. */
    method Unmonitor(g: Pin)
      requires NoRepeat(monitors) && g in monitors
      modifies this`monitors
      ensures NoRepeat(monitors) && forall p :: p in monitors <==> p in old(monitors) && p != g
    {
      RemoveFirstMembers(monitors, g);
      monitors := RemoveFirst(monitors, g);
    }

    method Close(g: Pin, ghost k: nat)
      requires Valid() && k < |gpios| && gpios[k] == g
      modifies this`gpios, this`monitors, io, pwm, lock
      ensures Valid() && types == old(types)
      ensures gpios == RemoveAt(old(gpios), k)
      ensures forall p :: p in gpios ==> p != g
    {
      PinClosed(gpios, types, pins, gpioFromPin, k);
      PinDropped(gpios, k);
      if g.driver == io && g.direction == In { Unmonitor(g); }
      Delist(g, k);
    }

    /** The pin leaves the list of open pins and its driver's count. */
    method Delist(g: Pin, ghost k: nat)
      requires DriversValid() && NoRepeat(gpios) && k < |gpios| && gpios[k] == g && g.driver in types
      modifies this`gpios, g.driver
      ensures DriversValid() && gpios == RemoveAt(old(gpios), k)
    {
      PinDropped(gpios, k);
      g.driver.refcount := g.driver.refcount - 1;
      gpios := RemoveFirst(gpios, g);
    }

    /** `GPIO_CTL_SET_DIRECTION` on an IO pin. */
    method SetDirection(g: Pin, direction: Direction)
      requires Valid() && g in gpios && g.driver == io
      modifies this`monitors, g`direction
      ensures Valid() && g.direction == direction
    {
      if g.direction != direction {
        if g.direction == In { Unmonitor(g); }
        g.direction := direction;
        if g.direction == In { monitors := monitors + [g]; }
      }
    }

    /** `GPIO_CTL_SET_VALUE`: refused while the pin is an input. */
    method SetValue(g: Pin, value: int) returns (ok: bool)
      requires Valid() && g in gpios && g.driver == io
      modifies g`value
      ensures Valid()
      ensures ok <==> g.direction == Out
      ensures g.value == if ok then value else old(g.value)
    {
      ok := g.direction == Out;
      if ok { g.value := value; }
    }

    /** `gpio_terminate`; false when one of its assertions fails. */
    method Terminate() returns (ok: bool)
      requires Valid()
      modifies this`types
      ensures ok <==> gpios == []
    {
      ServedByNone();
      if monitors != [] || io.refcount != 0 { return false; }
      types := [pwm, lock];
      if pwm.refcount != 0 { return false; }
      types := [lock];
      if lock.refcount != 0 { return false; }
      types := [];
      return gpios == [] && types == [];
    }

    /** With no pin open every count is zero and nothing is monitored; with one open, its driver's count is not. */
    lemma ServedByNone()
      requires Valid()
      ensures gpios == [] ==> monitors == [] && io.refcount == pwm.refcount == lock.refcount == 0
      ensures gpios != [] ==> io.refcount > 0 || pwm.refcount > 0 || lock.refcount > 0
    {
      assert types[0] == io && types[1] == pwm && types[2] == lock;
      if gpios != [] {
        assert gpios[0] in gpios;
        ServedPositive(gpios, 0);
      }
      if monitors != [] {
        assert monitors[0] in monitors;
        assert monitors[0] in gpios;
      }
    }

    /** Open pins use pairwise distinct GPIO numbers. */
    lemma GpiosDistinct(i: nat, j: nat)
      requires Valid() && i < j < |gpios|
      ensures gpios[i].gpio != gpios[j].gpio && gpios[i].gpio >= 0
    {
      assert gpios[i] in gpios && gpios[j] in gpios;
    }
  }
}
