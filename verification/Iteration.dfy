/** Iterating a function, and folding one over a message: what a shift register needs beyond its bits. */
module Iteration {

  function Iterate<T>(f: T -> T, x: T, n: nat): T
    decreases n
  {
    if n == 0 then x else Iterate(f, f(x), n - 1)
  }

  /** ok holds of x, g(x), ..., g^(n-1)(x). */
  ghost predicate AllAlong<T>(ok: T -> bool, g: T -> T, x: T, n: nat)
    decreases n
  {
    n == 0 || (ok(x) && AllAlong(ok, g, g(x), n - 1))
  }

  lemma {:induction false} IterateAdd<T>(f: T -> T, x: T, m: nat, n: nat)
    ensures Iterate(f, x, m + n) == Iterate(f, Iterate(f, x, m), n)
    decreases m
  {
    if m > 0 {
      IterateAdd(f, f(x), m - 1, n);
    }
  }

  lemma {:induction false} AllAlongAdd<T>(ok: T -> bool, g: T -> T, x: T, m: nat, n: nat)
    requires AllAlong(ok, g, x, m)
    requires AllAlong(ok, g, Iterate(g, x, m), n)
    ensures AllAlong(ok, g, x, m + n)
    decreases m
  {
    if m > 0 {
      AllAlongAdd(ok, g, g(x), m - 1, n);
    }
  }

  /** If one step of f carries op(a, b) to op(f(a), g(b)) whenever b is ok, then so do n steps. */
  lemma {:induction false} IterateSplits<T(!new)>(
      f: T -> T, g: T -> T, op: (T, T) -> T, ok: T -> bool, p: T, q: T, n: nat)
    requires forall a, b :: ok(b) ==> f(op(a, b)) == op(f(a), g(b))
    requires AllAlong(ok, g, q, n)
    ensures Iterate(f, op(p, q), n) == op(Iterate(f, p, n), Iterate(g, q, n))
    decreases n
  {
    if n > 0 {
      IterateSplits(f, g, op, ok, f(p), g(q), n - 1);
    }
  }

  /** Iterating a function that has a left inverse is injective. */
  lemma {:induction false} IterateInjective<T(!new)>(f: T -> T, inv: T -> T, x: T, y: T, n: nat)
    requires forall a :: inv(f(a)) == a
    requires Iterate(f, x, n) == Iterate(f, y, n)
    ensures x == y
    decreases n
  {
    if n > 0 {
      IterateInjective(f, inv, f(x), f(y), n - 1);
      assert inv(f(x)) == x;
    }
  }

  lemma Iterate8<T>(f: T -> T, x: T)
    ensures Iterate(f, x, 8) == f(f(f(f(f(f(f(f(x))))))))
  {
    assert Iterate(f, f(f(f(f(x)))), 4) == f(f(f(f(f(f(f(f(x))))))));
    IterateAdd(f, x, 4, 4);
  }

  lemma {:induction false} AllAlongAlways<T(!new)>(ok: T -> bool, g: T -> T, x: T, n: nat)
    requires forall a :: ok(a)
    ensures AllAlong(ok, g, x, n)
    decreases n
  {
    if n > 0 {
      AllAlongAlways(ok, g, g(x), n - 1);
    }
  }

  // ---------- Folding an update over a message ----------

  function Fold<S, B>(f: (S, B) -> S, s: S, message: seq<B>): S
    decreases |message|
  {
    if message == [] then s
    else f(Fold(f, s, message[..|message| - 1]), message[|message| - 1])
  }

  lemma FoldOne<S, B>(f: (S, B) -> S, s: S, front: seq<B>, b: B)
    ensures Fold(f, s, front + [b]) == f(Fold(f, s, front), b)
  {
    assert (front + [b])[..|front|] == front;
  }

  lemma {:induction false} FoldAppend<S, B>(f: (S, B) -> S, s: S, front: seq<B>, back: seq<B>)
    ensures Fold(f, s, front + back) == Fold(f, Fold(f, s, front), back)
    decreases |back|
  {
    if back == [] {
      assert front + back == front;
    } else {
      var last := |back| - 1;
      FoldAppend(f, s, front, back[..last]);
      assert (front + back)[..|front| + last] == front + back[..last];
    }
  }

  /** If no byte ever merges two states, no message does. */
  lemma {:induction false} FoldInjective<S(!new), B(!new)>(f: (S, B) -> S, s: S, t: S, message: seq<B>)
    requires forall a, b, x :: f(a, x) == f(b, x) ==> a == b
    requires Fold(f, s, message) == Fold(f, t, message)
    ensures s == t
    decreases |message|
  {
    if message != [] {
      FoldInjective(f, s, t, message[..|message| - 1]);
    }
  }

  // ---------- Tabulating a function ----------

  ghost predicate Tabulates<T>(f: nat -> T, table: seq<T>) {
    forall i :: 0 <= i < |table| ==> table[i] == f(i)
  }

  lemma TabulatesOneMore<T>(f: nat -> T, table: seq<T>, entry: T)
    requires Tabulates(f, table) && entry == f(|table|)
    ensures Tabulates(f, table + [entry])
  {
  }
}
