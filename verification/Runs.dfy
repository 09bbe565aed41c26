/** Runs of a deterministic step over a list of inputs: invariants of them, and
    which input a value in the state comes from. */
module Runs {
  import opened Bytes

  /** The state before input `n`. */
  function At<S, T>(step: (S, T) -> S, s: S, inputs: seq<T>, n: nat): S
    requires n <= |inputs|
  {
    if n == 0 then s else step(At(step, s, inputs, n - 1), inputs[n - 1])
  }

  /** Inputs `0..n` are all allowed where they occur. */
  predicate Allowed<S, T>(step: (S, T) -> S, ok: (S, T) -> bool, s: S, inputs: seq<T>, n: nat)
    requires n <= |inputs|
  {
    forall i | 0 <= i < n :: ok(At(step, s, inputs, i), inputs[i])
  }

  lemma {:induction false} Invariant<S(!new), T(!new)>(step: (S, T) -> S, ok: (S, T) -> bool, inv: S -> bool,
                                                       s: S, inputs: seq<T>, n: nat)
    requires n <= |inputs| && inv(s) && Allowed(step, ok, s, inputs, n)
    requires forall x, t :: inv(x) && ok(x, t) ==> inv(step(x, t))
    ensures inv(At(step, s, inputs, n))
  {
    if n > 0 {
      Invariant(step, ok, inv, s, inputs, n - 1);
    }
  }

  /** `inv` holds of every state up to the one before input `n`. */
  predicate Throughout<S, T>(step: (S, T) -> S, inv: S -> bool, s: S, inputs: seq<T>, n: nat)
    requires n <= |inputs|
  {
    forall i | 0 <= i <= n :: inv(At(step, s, inputs, i))
  }

  lemma AllowedStep<S, T>(step: (S, T) -> S, ok: (S, T) -> bool, s: S, inputs: seq<T>, n: nat)
    requires 0 < n <= |inputs|
    ensures Allowed(step, ok, s, inputs, n)
            <==> Allowed(step, ok, s, inputs, n - 1) && ok(At(step, s, inputs, n - 1), inputs[n - 1])
  {
  }

  lemma ThroughoutStep<S, T>(step: (S, T) -> S, inv: S -> bool, s: S, inputs: seq<T>, n: nat)
    requires 0 < n <= |inputs|
    ensures Throughout(step, inv, s, inputs, n) <==> Throughout(step, inv, s, inputs, n - 1) && inv(At(step, s, inputs, n))
    ensures Throughout(step, inv, s, inputs, n - 1) ==> inv(At(step, s, inputs, n - 1))
  {
  }

  /** If from an `inv` state a step keeps `inv` exactly when it is `ok`, then the runs that
      keep `inv` throughout are exactly those whose inputs are all `ok`. */
  lemma {:induction false} InvariantIff<S(!new), T(!new)>(step: (S, T) -> S, ok: (S, T) -> bool, inv: S -> bool,
                                                         s: S, inputs: seq<T>, n: nat)
    requires n <= |inputs| && inv(s)
    requires forall x, t :: inv(x) ==> (inv(step(x, t)) <==> ok(x, t))
    ensures Allowed(step, ok, s, inputs, n) <==> Throughout(step, inv, s, inputs, n)
  {
    if n > 0 {
      InvariantIff(step, ok, inv, s, inputs, n - 1);
      AllowedStep(step, ok, s, inputs, n);
      ThroughoutStep(step, inv, s, inputs, n);
    }
  }

  lemma {:induction false} Always<S(!new), T(!new)>(step: (S, T) -> S, inv: S -> bool, s: S, inputs: seq<T>, n: nat)
    requires n <= |inputs| && inv(s)
    requires forall x, t :: inv(x) ==> inv(step(x, t))
    ensures inv(At(step, s, inputs, n))
  {
    if n > 0 {
      Always(step, inv, s, inputs, n - 1);
    }
  }

  /** What `emit` gives for each of the first `n` inputs where it occurs, in order. */
  function Emitted<S, T, E>(step: (S, T) -> S, emit: (S, T) -> seq<E>, s: S, inputs: seq<T>, n: nat): seq<E>
    requires n <= |inputs|
  {
    if n == 0 then [] else Emitted(step, emit, s, inputs, n - 1) + emit(At(step, s, inputs, n - 1), inputs[n - 1])
  }

  /** If every step adds to a log exactly what it emits, the log grows by what was emitted. */
  lemma {:induction false} LogIsEmitted<S(!new), T(!new), E>(step: (S, T) -> S, emit: (S, T) -> seq<E>, log: S -> seq<E>,
                                                            s: S, inputs: seq<T>, n: nat)
    requires n <= |inputs|
    requires forall x, t :: log(step(x, t)) == log(x) + emit(x, t)
    ensures log(At(step, s, inputs, n)) == log(s) + Emitted(step, emit, s, inputs, n)
  {
    if n > 0 {
      LogIsEmitted(step, emit, log, s, inputs, n - 1);
    }
  }

  /** If every step extends a log, so does every stretch of a run. */
  lemma {:induction false} LogGrows<S(!new), T(!new), E>(step: (S, T) -> S, log: S -> seq<E>, s: S, inputs: seq<T>, n: nat, m: nat)
    requires n <= m <= |inputs| && forall x, t :: log(x) <= log(step(x, t))
    ensures log(At(step, s, inputs, n)) <= log(At(step, s, inputs, m))
    decreases m - n
  {
    if n < m {
      LogGrows(step, log, s, inputs, n, m - 1);
      assert log(At(step, s, inputs, m - 1)) <= log(At(step, s, inputs, m));
    }
  }

  /** What input `n` adds to such a log stays there, where it was added. */
  lemma AddedStays<S(!new), T(!new), E>(step: (S, T) -> S, log: S -> seq<E>, s: S, inputs: seq<T>, n: nat, m: nat, i: nat)
    requires n < m <= |inputs| && forall x, t :: log(x) <= log(step(x, t))
    requires i < |log(step(At(step, s, inputs, n), inputs[n]))|
    ensures i < |log(At(step, s, inputs, m))| && log(At(step, s, inputs, m))[i] == log(step(At(step, s, inputs, n), inputs[n]))[i]
  {
    LogGrows(step, log, s, inputs, n + 1, m);
    assert At(step, s, inputs, n + 1) == step(At(step, s, inputs, n), inputs[n]);
  }

  /** The last index below `n` at which `p` holds. */
  function LastIndex(p: nat -> bool, n: nat): (r: Option<nat>)
    ensures r.Some? ==> r.value < n && p(r.value) && forall j | r.value < j < n :: !p(j)
    ensures r.None? ==> forall j | 0 <= j < n :: !p(j)
  {
    if n == 0 then None else if p(n - 1) then Some(n - 1) else LastIndex(p, n - 1)
  }

  /** `p` holds of input `i` where it occurs. */
  function HoldsAt<S, T>(step: (S, T) -> S, p: (S, T) -> bool, s: S, inputs: seq<T>): nat -> bool {
    (i: nat) => i < |inputs| && p(At(step, s, inputs, i), inputs[i])
  }

  /** The last input before `n` of which `p` holds where it occurs. */
  function LastWhere<S, T>(step: (S, T) -> S, p: (S, T) -> bool, s: S, inputs: seq<T>, n: nat): Option<nat> {
    LastIndex(HoldsAt(step, p, s, inputs), n)
  }

  lemma LastWhereStep<S, T>(step: (S, T) -> S, p: (S, T) -> bool, s: S, inputs: seq<T>, n: nat)
    requires 0 < n <= |inputs|
    ensures LastWhere(step, p, s, inputs, n)
            == if p(At(step, s, inputs, n - 1), inputs[n - 1]) then Some(n - 1) else LastWhere(step, p, s, inputs, n - 1)
  {
  }

  /** If a step that `changes` something leaves only values it `sets`, and any other
      step leaves what was there, then a value present before input `n` was set by the
      last change before `n`, or was there at the start and never changed. */
  lemma {:induction false} Provenance<S(!new), T(!new), F>(
      step: (S, T) -> S, inv: S -> bool, get: S -> Option<F>, changes: (S, T) -> bool, sets: (T, F) -> bool,
      s: S, inputs: seq<T>, n: nat)
    requires n <= |inputs| && inv(s) && (forall x, t :: inv(x) ==> inv(step(x, t)))
    requires forall x, t :: inv(x) && get(step(x, t)).Some? ==>
                              if changes(x, t) then sets(t, get(step(x, t)).value) else get(x) == get(step(x, t))
    requires get(At(step, s, inputs, n)).Some?
    ensures var v := get(At(step, s, inputs, n));
            match LastWhere(step, changes, s, inputs, n)
            case None => get(s) == v
            case Some(i) => i < |inputs| && sets(inputs[i], v.value)
  {
    if n > 0 {
      Always(step, inv, s, inputs, n - 1);
      LastWhereStep(step, changes, s, inputs, n);
      var before := At(step, s, inputs, n - 1);
      assert At(step, s, inputs, n) == step(before, inputs[n - 1]);
      if !changes(before, inputs[n - 1]) {
        Provenance(step, inv, get, changes, sets, s, inputs, n - 1);
      }
    }
  }
}
