/** simulations/action_selection_and_execution.py: ActionIterator, the
    input that makes one of three actions dominate in turn, chosen by the
    simulation time modulo 3. */
module ActionSelection {
  import opened Wrappers

  /** `int(t % 3)` with Python's floored modulo on exact reals. */
  function Dominant(t: real): (d: int)
    ensures 0 <= d < 3
  {
    var m := t - 3.0 * ((t / 3.0).Floor as real);
    m.Floor
  }

  /** What step(t) leaves in a buffer of n actions. */
  function Pattern(t: real, n: nat): (p: seq<real>)
    ensures |p| == n
  {
    seq(n, i requires 0 <= i < n => if i == Dominant(t) then 0.8 else 0.1)
  }

  class ActionIterator {
    const actions: array<real>

    /** `np.ones(dimensions) * 0.1`. */
    constructor(dimensions: nat)
      ensures fresh(actions) && actions.Length == dimensions
      ensures forall i | 0 <= i < dimensions :: actions[i] == 0.1
    {
      actions := new real[dimensions](_ => 0.1);
    }

    /** Resets every action to 0.1, then raises the dominant one to 0.8 and
        returns the buffer itself.  With fewer than three actions the
        second write can fall outside the buffer: IndexError, after the
        reset. */
    method Step(t: real) returns (r: Result<array<real>>)
      modifies actions
      ensures Dominant(t) < actions.Length ==> r == Ok(actions) && actions[..] == Pattern(t, actions.Length)
      ensures Dominant(t) >= actions.Length ==>
        r == Err(IndexError) && forall i | 0 <= i < actions.Length :: actions[i] == 0.1
    {
      var dominate := Dominant(t);
      forall i | 0 <= i < actions.Length {
        actions[i] := 0.1;
      }
      if dominate >= actions.Length {
        return Err(IndexError);
      }
      actions[dominate] := 0.8;
      r := Ok(actions);
    }
  }

  /** Floors move with whole shifts of their argument. */
  lemma FloorShift(x: real)
    ensures (x + 1.0).Floor == x.Floor + 1
  {
    var n := x.Floor;
    assert (n + 1) as real <= x + 1.0 < (n + 2) as real;
  }

  /** step(t) and step(t + 3) leave the same contents. */
  lemma PeriodThree(t: real, n: nat)
    ensures Pattern(t + 3.0, n) == Pattern(t, n)
  {
    assert (t + 3.0) / 3.0 == t / 3.0 + 1.0;
    FloorShift(t / 3.0);
    var q := (t / 3.0).Floor;
    assert ((t + 3.0) / 3.0).Floor == q + 1;
    assert (t + 3.0) - 3.0 * (((t + 3.0) / 3.0).Floor as real) == t - 3.0 * (q as real);
    assert Dominant(t + 3.0) == Dominant(t);
  }

  /** With at least three actions exactly one of them dominates. */
  lemma OneDominant(t: real, n: nat)
    requires n >= 3
    ensures 0 <= Dominant(t) < n && Pattern(t, n)[Dominant(t)] == 0.8
    ensures forall i | 0 <= i < n && i != Dominant(t) :: Pattern(t, n)[i] == 0.1
  {
  }

  /** Which actions can dominate: the first three, each at some time. */
  lemma EachActionDominates(k: nat)
    requires k < 3
    ensures Dominant(k as real) == k
  {
    assert (k as real / 3.0).Floor == 0;
  }
}
