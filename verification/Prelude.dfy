/** Shared vocabulary: optional values, runs of a step function, and counting in finite maps. */
module Prelude {

  datatype Option<+T> = None | Some(value: T)

  const LOWER := "abcdefghijklmnopqrstuvwxyz"
  const UPPER := "ABCDEFGHIJKLMNOPQRSTUVWXYZ"

  /** `order` lists every element of `keys` exactly once: one way a Go `range` may visit a map. */
  predicate IsOrder<T(==)>(order: seq<T>, keys: set<T>) {
    && (forall k :: k in order ==> k in keys)
    && (forall k :: k in keys ==> k in order)
    && (forall i, j :: 0 <= i < j < |order| ==> order[i] != order[j])
  }

  lemma Assoc<T>(a: seq<T>, b: seq<T>, c: seq<T>)
    ensures a + b + c == a + (b + c)
  {
  }
}

/**
  * Runs of a state machine. A machine is a partial step function: `step(s, a)` is `None` when the
  * action `a` is not enabled in `s`. A run is any finite sequence of actions.
  */
module Runs {
  import opened Prelude

  function Run<S, A>(step: (S, A) -> Option<S>, s: S, acts: seq<A>): Option<S> {
    if acts == [] then Some(s)
    else match step(s, acts[0])
      case None => None
      case Some(next) => Run(step, next, acts[1..])
  }

  ghost predicate Inductive<S(!new), A(!new)>(step: (S, A) -> Option<S>, inv: S -> bool) {
    forall s, a :: inv(s) && step(s, a).Some? ==> inv(step(s, a).value)
  }

  /** Every state of every run keeps an inductive invariant. */
  lemma {:induction false} Keeps<S(!new), A(!new)>(step: (S, A) -> Option<S>, inv: S -> bool, s: S, acts: seq<A>)
    requires Inductive(step, inv) && inv(s)
    ensures Run(step, s, acts).Some? ==> inv(Run(step, s, acts).value)
  {
    if acts == [] {
    } else if step(s, acts[0]).Some? {
      Keeps(step, inv, step(s, acts[0]).value, acts[1..]);
    }
  }

  /** Runs compose: the states of a run are the states reached by its prefixes. */
  lemma {:induction false} Compose<S, A>(step: (S, A) -> Option<S>, s: S, xs: seq<A>, ys: seq<A>)
    ensures Run(step, s, xs + ys) ==
            match Run(step, s, xs) { case None => None case Some(mid) => Run(step, mid, ys) }
  {
    if xs == [] {
      assert xs + ys == ys;
    } else {
      assert (xs + ys)[1..] == xs[1..] + ys;
      if step(s, xs[0]).Some? {
        Compose(step, step(s, xs[0]).value, xs[1..], ys);
      }
    }
  }

  /** A concrete run, given by the states it passes through. */
  lemma {:induction false} Path<S, A>(step: (S, A) -> Option<S>, states: seq<S>, acts: seq<A>)
    requires |states| == |acts| + 1
    requires forall i :: 0 <= i < |acts| ==> step(states[i], acts[i]) == Some(states[i + 1])
    ensures Run(step, states[0], acts) == Some(states[|acts|])
  {
    if acts == [] {
    } else {
      assert step(states[0], acts[0]) == Some(states[1]);
      Path(step, states[1..], acts[1..]);
    }
  }

  /** A restricted step function only has runs of the full one. */
  lemma {:induction false} Restrict<S(!new), A(!new)>(narrow: (S, A) -> Option<S>, wide: (S, A) -> Option<S>,
                                                      s: S, acts: seq<A>)
    requires forall s, a :: narrow(s, a).Some? ==> wide(s, a) == narrow(s, a)
    requires Run(narrow, s, acts).Some?
    ensures Run(wide, s, acts) == Run(narrow, s, acts)
  {
    if acts == [] {
    } else {
      Restrict(narrow, wide, narrow(s, acts[0]).value, acts[1..]);
    }
  }
}

/** Counting the entries of a finite map that satisfy a predicate. */
module Counting {

  function Where<K, V>(m: map<K, V>, p: V -> bool): set<K> {
    set k | k in m && p(m[k])
  }

  function Count<K, V>(m: map<K, V>, p: V -> bool): nat {
    |Where(m, p)|
  }

  function One(b: bool): nat { if b then 1 else 0 }

  /** Replacing or adding one entry changes a count by that entry alone. */
  lemma Update<K, V>(m: map<K, V>, k: K, v: V, p: V -> bool)
    ensures Count(m[k := v], p) == Count(m, p) - One(k in m && p(m[k])) + One(p(v))
  {
    var rest := set j | j in m && j != k && p(m[j]);
    WhereAt(m, k, p, rest);
    var after := m[k := v];
    assert rest == set j | j in after && j != k && p(after[j]);
    WhereAt(after, k, p, rest);
  }

  /** A count is the count away from one key plus that key's own contribution. */
  lemma WhereAt<K, V>(m: map<K, V>, k: K, p: V -> bool, rest: set<K>)
    requires rest == set j | j in m && j != k && p(m[j])
    ensures Count(m, p) == |rest| + One(k in m && p(m[k]))
  {
    if k in m && p(m[k]) {
      assert Where(m, p) == rest + {k};
    } else {
      assert Where(m, p) == rest;
    }
  }

  /** If `p` splits into the disjoint cases `q` and `r`, its count is the sum of theirs. */
  lemma Split<K(!new), V(!new)>(m: map<K, V>, p: V -> bool, q: V -> bool, r: V -> bool)
    requires forall k :: k in m ==> (p(m[k]) <==> q(m[k]) || r(m[k])) && !(q(m[k]) && r(m[k]))
    ensures Count(m, p) == Count(m, q) + Count(m, r)
  {
    assert Where(m, p) == Where(m, q) + Where(m, r);
    assert Where(m, q) !! Where(m, r);
  }
}
