/** robot_models/: the nodes that connect the simulation to a Container.
    Motor and Servo push values out at most once per sampling period;
    Sensor and ControlSignal register an initial value and read back
    whatever the container holds for them. */
module RobotModels {
  import opened Wrappers
  import opened RobotInterface

  /** What a node stores in the container: a float or a numpy vector. */
  datatype Value = Scalar(x: real) | Vector(v: seq<real>)

  function Abs(x: real): real { if x < 0.0 then -x else x }

  /** The throttle shared by motors and servos. */
  predicate Fires(time: real, previousTime: real, samplingPeriod: real)
  {
    time - previousTime >= samplingPeriod
  }

  /** Fire times kept apart by at least one period, the last of them being
      `previousTime` (which starts one period before zero). */
  ghost predicate Spaced(fires: seq<real>, previousTime: real, samplingPeriod: real)
  {
    && (fires == [] ==> previousTime == -samplingPeriod)
    && (fires != [] ==> previousTime == fires[|fires| - 1])
    && forall n | 0 < n < |fires| :: fires[n] - fires[n - 1] >= samplingPeriod
  }

  /** A fire at a time that passes the throttle keeps the fires spaced. */
  lemma FireKeepsSpacing(fires: seq<real>, previousTime: real, samplingPeriod: real, time: real)
    requires Spaced(fires, previousTime, samplingPeriod)
    requires Fires(time, previousTime, samplingPeriod)
    ensures Spaced(fires + [time], time, samplingPeriod)
  {
    var f := fires + [time];
    forall n | 0 < n < |f|
      ensures f[n] - f[n - 1] >= samplingPeriod
    {
      if n < |fires| {
        assert f[n] == fires[n] && f[n - 1] == fires[n - 1];
      }
    }
  }

  class Motor {
    const container: Container<object, Value>
    const samplingPeriod: real
    var previousTime: real
    /** Times at which the motor wrote to the container. */
    ghost var fires: seq<real>

    ghost predicate Valid()
      reads this
    {
      Spaced(fires, previousTime, samplingPeriod)
    }

    /** The period is sampling_period·dt seconds; the motor is not
        registered in the container until it first fires. */
    constructor(container: Container<object, Value>, samplingPeriod: real := 100.0, dt: real := 0.001)
      ensures this.container == container && this.samplingPeriod == samplingPeriod * dt
      ensures previousTime == -(samplingPeriod * dt) && fires == []
      ensures Valid()
    {
      this.container := container;
      this.samplingPeriod := samplingPeriod * dt;
      previousTime := -(samplingPeriod * dt);
      fires := [];
    }

    /** `motor_output`: once a period has passed since the last write,
        remember the time and update the container with the value. */
    method Output(time: real, value: Value) returns (err: Option<Error>)
      requires Valid()
      modifies this, container
      ensures Valid()
      ensures Fires(time, old(previousTime), samplingPeriod) ==>
        && previousTime == time && fires == old(fires) + [time]
        && container.dictionary == old(container.dictionary)[this := value]
        && container.defaultCallback == old(container.defaultCallback)
        && var c := old(container.defaultCallback);
           && (c.Func? ==> container.calls == old(container.calls) + [Call(c.id, this, value)] && err == None)
           && (c.NonCallable? ==> container.calls == old(container.calls) && err == Some(TypeError))
           && (c.Falsy? ==> container.calls == old(container.calls) && err == None)
      ensures !Fires(time, old(previousTime), samplingPeriod) ==>
        && previousTime == old(previousTime) && fires == old(fires) && err == None
        && unchanged(container)
    {
      err := None;
      if time - previousTime >= samplingPeriod {
        FireKeepsSpacing(fires, previousTime, samplingPeriod, time);
        previousTime := time;
        fires := fires + [time];
        err := container.Update(this, value);
      }
    }
  }

  /** `np.any`. */
  predicate Any(table: seq<bool>)
  {
    exists i | 0 <= i < |table| :: table[i]
  }

  /** `np.abs(value - stored) >= delta`, with numpy broadcasting: a scalar
      or a length-1 side is repeated, other length mismatches fail. */
  function UpdateTable(value: seq<real>, stored: Value, delta: real): (r: Result<seq<bool>>)
    ensures r.Err? ==> r.error == ValueError
  {
    match stored
    case Scalar(x) => Ok(seq(|value|, i requires 0 <= i < |value| => Abs(value[i] - x) >= delta))
    case Vector(v) =>
      if |v| == |value| then Ok(seq(|value|, i requires 0 <= i < |value| => Abs(value[i] - v[i]) >= delta))
      else if |v| == 1 then Ok(seq(|value|, i requires 0 <= i < |value| => Abs(value[i] - v[0]) >= delta))
      else if |value| == 1 then Ok(seq(|v|, i requires 0 <= i < |v| => Abs(value[0] - v[i]) >= delta))
      else Err(ValueError)
  }

  /** With delta = 0 every computed entry is true, so the container is
      updated exactly when the broadcast table is not empty. */
  lemma ZeroDeltaTable(value: seq<real>, stored: Value)
    requires UpdateTable(value, stored, 0.0).Ok?
    ensures var t := UpdateTable(value, stored, 0.0).value;
      (forall i | 0 <= i < |t| :: t[i]) && (Any(t) <==> |t| > 0)
  {
    var t := UpdateTable(value, stored, 0.0).value;
    if |t| > 0 {
      assert t[0];
    }
  }

  /** A servo built with size_in = 0 registers an empty vector; the node
      still passes one-component values, which broadcast against it to an
      empty table, so the servo never writes. */
  lemma EmptyServoNeverWrites(x: real)
    ensures UpdateTable([x], Vector([]), 0.0) == Ok([])
    ensures !Any([])
  {
    assert |UpdateTable([x], Vector([]), 0.0).value| == 0;
  }

  class Servo {
    const container: Container<object, Value>
    const dt: real
    const delta: real
    const samplingPeriod: real
    /** size_in of the node: the width of the values it is given. */
    const nodeSizeIn: nat
    var previousTime: real
    ghost var fires: seq<real>

    ghost predicate Valid()
      reads this
    {
      dt == 0.001 && delta == 0.0 && Spaced(fires, previousTime, samplingPeriod)
    }

    constructor Init(container: Container<object, Value>, sizeIn: nat, samplingPeriod: real)
      modifies container
      ensures this.container == container && dt == 0.001 && delta == 0.0
      ensures this.samplingPeriod == samplingPeriod * 0.001 && previousTime == -(samplingPeriod * 0.001)
      ensures nodeSizeIn == if sizeIn == 0 then 1 else sizeIn
      ensures fires == [] && Valid()
      ensures container.dictionary == old(container.dictionary)[this := Vector(seq(sizeIn, _ => 0.0))]
      ensures container.defaultCallback == old(container.defaultCallback) && container.calls == old(container.calls)
    {
      this.container := container;
      dt := 0.001;
      delta := 0.0;
      this.samplingPeriod := samplingPeriod * 0.001;
      previousTime := -(samplingPeriod * 0.001);
      nodeSizeIn := if sizeIn == 0 then 1 else sizeIn;
      fires := [];
      new;
      container.Add(this, Vector(seq(sizeIn, _ => 0.0)));
    }

    /** `Servo(container, size_in, sampling_period=15)`: dt and delta are
        fixed whatever is passed; `[0] * None` fails with TypeError before
        anything is registered. */
    static method New(container: Container<object, Value>, sizeIn: Option<nat> := None, samplingPeriod: real := 15.0)
      returns (r: Result<Servo>)
      modifies container
      ensures r.Err? <==> sizeIn.None?
      ensures r.Err? ==> r.error == TypeError && unchanged(container)
      ensures r.Ok? ==> fresh(r.value) && r.value.Valid() && r.value.container == container
      ensures r.Ok? ==> r.value.samplingPeriod == samplingPeriod * 0.001
      ensures r.Ok? ==> container.dictionary == old(container.dictionary)[r.value := Vector(seq(sizeIn.value, _ => 0.0))]
      ensures r.Ok? ==> container.calls == old(container.calls) && container.defaultCallback == old(container.defaultCallback)
    {
      if sizeIn.None? {
        return Err(TypeError);
      }
      var s := new Servo.Init(container, sizeIn.value, samplingPeriod);
      r := Ok(s);
    }

    /** `servo_output`: once a period has passed, compare the value with
        the stored one, remember the time, and update the container with
        the raw value when some component moved by at least delta. */
    method Output(time: real, value: seq<real>) returns (err: Option<Error>)
      requires Valid() && |value| == nodeSizeIn
      modifies this, container
      ensures Valid()
      ensures !Fires(time, old(previousTime), samplingPeriod) ==>
        previousTime == old(previousTime) && fires == old(fires) && err == None && unchanged(container)
      ensures Fires(time, old(previousTime), samplingPeriod) && !(this in old(container.dictionary)) ==>
        previousTime == old(previousTime) && err == Some(KeyError) && unchanged(container)
      ensures Fires(time, old(previousTime), samplingPeriod) && this in old(container.dictionary) ==>
        var t := UpdateTable(value, old(container.dictionary)[this], delta);
        && (t.Err? ==> previousTime == old(previousTime) && err == Some(ValueError) && unchanged(container))
        && (t.Ok? && !Any(t.value) ==> previousTime == time && err == None && unchanged(container))
        && (t.Ok? && Any(t.value) ==>
            && previousTime == time
            && container.dictionary == old(container.dictionary)[this := Vector(value)]
            && container.defaultCallback == old(container.defaultCallback)
            && var c := old(container.defaultCallback);
               && (c.Func? ==> container.calls == old(container.calls) + [Call(c.id, this, Vector(value))] && err == None)
               && (c.NonCallable? ==> container.calls == old(container.calls) && err == Some(TypeError))
               && (c.Falsy? ==> container.calls == old(container.calls) && err == None))
    {
      err := None;
      if time - previousTime >= samplingPeriod {
        var stored := container.Get(this);
        if stored.Err? {
          return Some(KeyError);
        }
        var table := UpdateTable(value, stored.value, delta);
        if table.Err? {
          return Some(ValueError);
        }
        FireKeepsSpacing(fires, previousTime, samplingPeriod, time);
        previousTime := time;
        fires := fires + [time];
        if Any(table.value) {
          err := container.Update(this, Vector(value));
        }
      }
    }
  }

  class Sensor {
    const container: Container<object, Value>
    /** size_out of the node. */
    const sizeOut: nat

    /** Registers 0.0 under the sensor. */
    constructor(container: Container<object, Value>)
      modifies container
      ensures this.container == container && sizeOut == 1
      ensures container.dictionary == old(container.dictionary)[this := Scalar(0.0)]
      ensures container.defaultCallback == old(container.defaultCallback) && container.calls == old(container.calls)
    {
      this.container := container;
      sizeOut := 1;
      new;
      container.Add(this, Scalar(0.0));
    }

    /** `sensor_output`: whatever the container holds for the sensor, at
        any time. */
    function Output(time: real): (r: Result<Value>)
      reads this, container
      ensures r.Ok? <==> this in container.dictionary
      ensures r.Ok? ==> r.value == container.dictionary[this]
    {
      container.Get(this)
    }
  }

  class ControlSignal {
    const container: Container<object, Value>
    const sizeOut: nat

    /** Registers a zero vector of length size_out. */
    constructor(container: Container<object, Value>, sizeOut: nat)
      modifies container
      ensures this.container == container && this.sizeOut == sizeOut
      ensures container.dictionary == old(container.dictionary)[this := Vector(seq(sizeOut, _ => 0.0))]
      ensures container.defaultCallback == old(container.defaultCallback) && container.calls == old(container.calls)
    {
      this.container := container;
      this.sizeOut := sizeOut;
      new;
      container.Add(this, Vector(seq(sizeOut, _ => 0.0)));
    }

    /** `control_signal_output`: the container's value for the signal, or
        KeyError when it has none. */
    function Output(time: real): (r: Result<Value>)
      reads this, container
      ensures r.Ok? <==> this in container.dictionary
      ensures r.Ok? ==> r.value == container.dictionary[this]
      ensures r.Err? ==> r.error == KeyError
    {
      container.Get(this)
    }
  }
}
