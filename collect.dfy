/**
 * A filter-map over a list whose step may throw: the shape of a loop that
 * pushes what each element yields, skips some elements with `continue`, and
 * stops at the first exception.
 */
module Collect {
  import opened Wrappers

  /** What one step contributes to the result. */
  function Emitted<U>(o: Option<U>): seq<U>
  {
    if o.Some? then [o.value] else []
  }

  /** `acc` followed by the values of `r`, or `r`'s failure. */
  function Prepend<U, E>(acc: seq<U>, r: Result<seq<U>, E>): Result<seq<U>, E>
  {
    match r
    case Failure(e) => Failure(e)
    case Success(rest) => Success(acc + rest)
  }

  /** Runs `step` on the elements of `s` in order, keeping what it emits; the first failure ends the run. */
  function FilterMap<T, U, E>(step: T -> Result<Option<U>, E>, s: seq<T>): Result<seq<U>, E>
  {
    if s == [] then Success([])
    else
      match step(s[0])
      case Failure(e) => Failure(e)
      case Success(o) => Prepend(Emitted(o), FilterMap(step, s[1..]))
  }

  /** The element yields a value. */
  predicate Emits<T, U, E>(step: T -> Result<Option<U>, E>, x: T)
  {
    step(x).Success? && step(x).value.Some?
  }

  /** How two runs combine: the first failure wins, results concatenate. */
  function Chain<U, E>(a: Result<seq<U>, E>, b: Result<seq<U>, E>): Result<seq<U>, E>
  {
    if a.Failure? then a else Prepend(a.value, b)
  }

  lemma PrependNothing<U, E>(r: Result<seq<U>, E>)
    ensures Prepend([], r) == r
  {
    if r.Success? {
      assert [] + r.value == r.value;
    }
  }

  lemma PrependAssoc<U, E>(acc: seq<U>, x: seq<U>, r: Result<seq<U>, E>)
    ensures Prepend(acc, Prepend(x, r)) == Prepend(acc + x, r)
  {
    if r.Success? {
      assert acc + (x + r.value) == acc + x + r.value;
    }
  }

  /** Running over `a + b` is running over `a`, then over `b` unless `a` failed. */
  lemma {:induction false} FilterMapAppend<T, U, E>(step: T -> Result<Option<U>, E>, a: seq<T>, b: seq<T>)
    ensures FilterMap(step, a + b) == Chain(FilterMap(step, a), FilterMap(step, b))
  {
    if a == [] {
      assert a + b == b;
      PrependNothing(FilterMap(step, b));
    } else {
      assert (a + b)[0] == a[0] && (a + b)[1..] == a[1..] + b;
      FilterMapAppend(step, a[1..], b);
      match step(a[0])
      case Failure(e) =>
      case Success(o) =>
        var ra := FilterMap(step, a[1..]);
        if ra.Success? {
          PrependAssoc(Emitted(o), ra.value, FilterMap(step, b));
        }
    }
  }

  /** A run never yields more values than it has elements. */
  lemma {:induction false} FilterMapLength<T, U, E>(step: T -> Result<Option<U>, E>, s: seq<T>)
    requires FilterMap(step, s).Success?
    ensures |FilterMap(step, s).value| <= |s|
  {
    if s != [] {
      FilterMapLength(step, s[1..]);
    }
  }

  /** A run fails exactly when the step fails on some element. */
  lemma {:induction false} FilterMapFailsIff<T, U, E>(step: T -> Result<Option<U>, E>, s: seq<T>)
    ensures FilterMap(step, s).Failure? <==> exists i :: 0 <= i < |s| && step(s[i]).Failure?
  {
    if s != [] {
      FilterMapFailsIff(step, s[1..]);
      assert forall i :: 0 <= i < |s| - 1 ==> s[1..][i] == s[i + 1];
      if step(s[0]).Success? && exists i :: 0 <= i < |s| && step(s[i]).Failure? {
        var i :| 0 <= i < |s| && step(s[i]).Failure?;
        assert step(s[1..][i - 1]).Failure?;
      }
    }
  }

  /** The positions, counted from `base`, of the elements that yield a value. */
  function EmittersFrom<T, U, E>(step: T -> Result<Option<U>, E>, s: seq<T>, base: nat): (r: seq<nat>)
    ensures |r| <= |s|
    ensures forall k :: 0 <= k < |r| ==> base <= r[k] < base + |s|
  {
    if s == [] then []
    else (if Emits(step, s[0]) then [base] else []) + EmittersFrom(step, s[1..], base + 1)
  }

  /** The positions are strictly increasing. */
  lemma {:induction false} EmittersIncreasing<T, U, E>(step: T -> Result<Option<U>, E>, s: seq<T>, base: nat)
    ensures forall k, l :: 0 <= k < l < |EmittersFrom(step, s, base)| ==>
      EmittersFrom(step, s, base)[k] < EmittersFrom(step, s, base)[l]
  {
    if s != [] {
      EmittersIncreasing(step, s[1..], base + 1);
      var head: seq<nat> := if Emits(step, s[0]) then [base] else [];
      assert EmittersFrom(step, s, base) == head + EmittersFrom(step, s[1..], base + 1);
    }
  }

  /** No element that yields a value is missed. */
  lemma {:induction false} EmittersComplete<T, U, E>(step: T -> Result<Option<U>, E>, s: seq<T>, base: nat)
    ensures forall i :: 0 <= i < |s| && Emits(step, s[i]) ==> base + i in EmittersFrom(step, s, base)
  {
    if s != [] {
      EmittersComplete(step, s[1..], base + 1);
      var head: seq<nat> := if Emits(step, s[0]) then [base] else [];
      var tail := EmittersFrom(step, s[1..], base + 1);
      assert EmittersFrom(step, s, base) == head + tail;
      forall i | 1 <= i < |s| && Emits(step, s[i]) ensures base + i in head + tail {
        assert s[i] == s[1..][i - 1];
        assert base + 1 + (i - 1) in tail;
      }
    }
  }

  /** Order and provenance: the k-th value comes from the k-th element that yields one. */
  lemma {:induction false} FilterMapOrigins<T, U, E>(step: T -> Result<Option<U>, E>, s: seq<T>, base: nat)
    requires FilterMap(step, s).Success?
    ensures |FilterMap(step, s).value| == |EmittersFrom(step, s, base)|
    ensures forall k :: 0 <= k < |EmittersFrom(step, s, base)| ==>
      step(s[EmittersFrom(step, s, base)[k] - base]) == Success(Some(FilterMap(step, s).value[k]))
  {
    if s != [] {
      FilterMapOrigins(step, s[1..], base + 1);
      var out := FilterMap(step, s).value;
      var rest := FilterMap(step, s[1..]).value;
      var tail := EmittersFrom(step, s[1..], base + 1);
      var o := step(s[0]).value;
      var sv := EmittersFrom(step, s, base);
      var d := if o.Some? then 1 else 0;
      if o.Some? {
        assert sv == [base] + tail;
        assert out == [o.value] + rest;
      } else {
        assert sv == tail;
        assert out == rest;
      }
      forall k | d <= k < |sv|
        ensures step(s[sv[k] - base]) == Success(Some(out[k]))
      {
        var j := tail[k - d];
        assert sv[k] == j && out[k] == rest[k - d];
        assert s[j - base] == s[1..][j - (base + 1)];
      }
    }
  }
}
