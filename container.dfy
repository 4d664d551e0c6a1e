/** robot_interface/container.py: a key → value store shared between the
    simulation's nodes and the robot.  Starting a callback thread is
    recorded as a call (callback, key, value) instead of being run. */
module RobotInterface {
  import opened Wrappers

  /** A callback argument, classified by what the code does with it:
      `Falsy` is None or any other value Python treats as false, `Func` a
      callable, `NonCallable` a true value that cannot be called. */
  datatype Callback = Falsy | Func(id: nat) | NonCallable(id: nat)

  predicate Truthy(c: Callback) { !c.Falsy? }

  /** A callback thread started with (key, value). */
  datatype Call<K, V> = Call(callback: nat, key: K, value: V)

  /** `callback if callback else self.default_callback`. */
  function Chosen(explicit: Callback, default: Callback): Callback
  {
    if Truthy(explicit) then explicit else default
  }

  /** The callback `update` starts: the explicit one when given, the
      default otherwise, and nothing when neither is given. */
  lemma ChosenCallback(explicit: Callback, default: Callback)
    ensures Truthy(explicit) ==> Chosen(explicit, default) == explicit
    ensures !Truthy(explicit) ==> Chosen(explicit, default) == default
    ensures Truthy(Chosen(explicit, default)) <==> Truthy(explicit) || Truthy(default)
  {
  }

  /** `dictionary[key]`. */
  function Lookup<K, V>(dictionary: map<K, V>, key: K): (r: Result<V>)
    ensures r.Ok? <==> key in dictionary
    ensures r.Ok? ==> r.value == dictionary[key]
    ensures r.Err? ==> r.error == KeyError
  {
    if key in dictionary then Ok(dictionary[key]) else Err(KeyError)
  }

  /** After storing v under k, reading k gives v and every other key reads
      as before. */
  lemma StoreThenLookup<K, V>(dictionary: map<K, V>, k: K, v: V, other: K)
    ensures Lookup(dictionary[k := v], k) == Ok(v)
    ensures other != k ==> Lookup(dictionary[k := v], other) == Lookup(dictionary, other)
  {
  }

  class Container<K(==), V> {
    var defaultCallback: Callback
    var dictionary: map<K, V>
    /** Callback threads started so far, oldest first. */
    var calls: seq<Call<K, V>>

    constructor Init(defaultCallback: Callback)
      ensures this.defaultCallback == defaultCallback && dictionary == map[] && calls == []
    {
      this.defaultCallback := defaultCallback;
      dictionary := map[];
      calls := [];
    }

    /** `Container(default_callback)`: a true default callback must be
        callable, otherwise construction fails with AssertionError. */
    static method New(defaultCallback: Callback := Falsy) returns (r: Result<Container<K, V>>)
      ensures r.Err? <==> defaultCallback.NonCallable?
      ensures r.Err? ==> r.error == AssertionError
      ensures r.Ok? ==> fresh(r.value)
      ensures r.Ok? ==> r.value.defaultCallback == defaultCallback && r.value.dictionary == map[] && r.value.calls == []
    {
      var c := new Container<K, V>.Init(defaultCallback);
      if Truthy(defaultCallback) && !defaultCallback.Func? {
        return Err(AssertionError);
      }
      r := Ok(c);
    }

    /** Stores or overwrites the value of key; no callback is started. */
    method Add(key: K, value: V)
      modifies this
      ensures dictionary == old(dictionary)[key := value]
      ensures defaultCallback == old(defaultCallback) && calls == old(calls)
    {
      dictionary := dictionary[key := value];
    }

    /** Stores the value, then starts the chosen callback on (key, value).
        A true but non-callable choice makes the thread start fail with
        TypeError after the value has been stored. */
    method Update(key: K, value: V, callback: Callback := Falsy) returns (err: Option<Error>)
      modifies this
      ensures dictionary == old(dictionary)[key := value]
      ensures defaultCallback == old(defaultCallback)
      ensures var c := Chosen(callback, old(defaultCallback));
        && (c.Func? ==> calls == old(calls) + [Call(c.id, key, value)] && err == None)
        && (c.NonCallable? ==> calls == old(calls) && err == Some(TypeError))
        && (c.Falsy? ==> calls == old(calls) && err == None)
    {
      var chosen := if Truthy(callback) then callback else defaultCallback;
      dictionary := dictionary[key := value];
      err := None;
      if Truthy(chosen) {
        match chosen
        case Func(id) => calls := calls + [Call(id, key, value)];
        case NonCallable(_) => err := Some(TypeError);
      }
    }

    /** Replaces the default callback; the new value is kept even when the
        callable check then fails. */
    method SetDefaultCallback(callback: Callback) returns (err: Option<Error>)
      modifies this
      ensures defaultCallback == callback
      ensures dictionary == old(dictionary) && calls == old(calls)
      ensures err == if callback.NonCallable? then Some(AssertionError) else None
    {
      defaultCallback := callback;
      err := None;
      if Truthy(callback) && !callback.Func? {
        err := Some(AssertionError);
      }
    }

    /** `container[key]`. */
    function Get(key: K): (r: Result<V>)
      reads this
      ensures r.Ok? <==> key in dictionary
      ensures r.Ok? ==> r.value == dictionary[key]
      ensures r.Err? ==> r.error == KeyError
    {
      Lookup(dictionary, key)
    }
  }
}
