/** Half-open cyclic ranges over a table of `size` entries; iterators are indices. */
module Ring {

  /** The C++ remainder, which takes the sign of the dividend. */
  function Remainder(a: int, b: int): int
    requires 0 < b
  {
    if 0 <= a then a % b else -((-a) % b)
  }

  /** Entries from `first` round to `last`. */
  function Distance(first: nat, last: nat, size: nat): int {
    var d := last - first;
    if d < 0 then d + size else d
  }

  function Advance(current: nat, advance: int, size: nat): (r: int)
    requires current < size
  {
    var offset := Remainder(current + advance, size);
    offset + if offset < 0 then size else 0
  }

  /** Although the remainder truncates, advancing is modular addition, backwards too. */
  lemma AdvanceIsModular(current: nat, advance: int, size: nat)
    requires current < size
    ensures 0 <= Advance(current, advance, size) < size
    ensures Advance(current, advance, size) == (current + advance) % size
  {
    if current + advance < 0 {
      NegativeModulo(current + advance, size);
    }
  }

  lemma NegativeModulo(a: int, size: nat)
    requires a < 0 < size
    ensures a % size == if (-a) % size == 0 then 0 else size - (-a) % size
  {
    var q, m := (-a) / size, (-a) % size;
    assert -a == q * size + m;
    if m == 0 {
      assert a == (-q) * size + 0;
      ModShift(0, -q, size);
    } else {
      assert (-q - 1) * size == -(q * size) - size;
      assert a == (-q - 1) * size + (size - m);
      ModShift(size - m, -q - 1, size);
    }
  }

  lemma ModShift(x: nat, q: int, size: nat)
    requires x < size
    ensures (q * size + x) % size == x
  {
    var a := q * size + x;
    var q' := a / size;
    if q < q' {
      MulMono(q, q', size);
    } else if q' < q {
      MulMono(q', q, size);
    }
  }

  lemma MulMono(a: int, b: int, n: nat)
    requires a <= b
    ensures a * n <= b * n
    ensures a < b ==> a * n + n <= b * n
    ensures b == a + 1 ==> b * n == a * n + n
  {
    assert b * n == a * n + (b - a) * n;
    if a < b {
      assert (b - a) * n == n + (b - a - 1) * n;
    }
  }

  /** A range built by advancing has the length advanced by exactly if it is shorter than the
      table: a full turn reads as empty. */
  lemma RangesAreLossless(first: nat, n: int, size: nat)
    requires first < size
    ensures 0 <= Advance(first, n, size) < size
    ensures 0 <= Distance(first, Advance(first, n, size), size) < size
    ensures Distance(first, Advance(first, n, size), size) == n <==> 0 <= n < size
    ensures Distance(first, Advance(first, size, size), size) == 0
  {
    AdvanceIsModular(first, n, size);
    AdvanceIsModular(first, size, size);
    ModShift(first, 1, size);
    if 0 <= n < size {
      if first + n < size {
        ModShift(first + n, 0, size);
      } else {
        ModShift(first + n - size, 1, size);
      }
    }
  }

  /** Adding before or after reducing makes no difference. */
  lemma ModAdd(a: int, b: int, size: nat)
    requires 0 < size
    ensures (a % size + b) % size == (a + b) % size
  {
    var q, x := a / size, a % size;
    var p, y := (x + b) / size, (x + b) % size;
    assert a + b == (q + p) * size + y;
    ModShift(y, q + p, size);
  }

  /** Reduction modulo a multiple: bundles of `bulk` entries stay aligned. */
  lemma ModScale(t: nat, bulk: nat, slots: nat)
    requires 0 < bulk && 0 < slots
    ensures (bulk * t) % (bulk * slots) == bulk * (t % slots)
    ensures 0 < bulk * slots && bulk * (t % slots) + bulk <= bulk * slots
  {
    var q, x := t / slots, t % slots;
    MulMono(x, slots, bulk);
    assert bulk * x == x * bulk && bulk * slots == slots * bulk;
    assert bulk * t == q * (bulk * slots) + bulk * x by {
      assert t == q * slots + x;
      assert bulk * (q * slots) == q * (bulk * slots);
    }
    ModShift(bulk * x, q, bulk * slots);
  }

  // ---- searching and folding over a cyclic range

  /** Index of the first hit in [lo, hi), or `hi`. */
  function FindIf<T>(table: seq<T>, lo: nat, hi: nat, op: T -> bool): (r: nat)
    requires lo <= hi <= |table|
    ensures lo <= r <= hi
    ensures forall i :: lo <= i < r ==> !op(table[i])
    ensures r < hi ==> op(table[r])
    decreases hi - lo
  {
    if lo == hi then hi else if op(table[lo]) then lo else FindIf(table, lo + 1, hi, op)
  }

  lemma {:induction false} FindIfIs<T>(table: seq<T>, lo: nat, hi: nat, op: T -> bool, r: nat)
    requires lo <= r < hi <= |table| && op(table[r]) && forall i :: lo <= i < r ==> !op(table[i])
    ensures FindIf(table, lo, hi, op) == r
    decreases r - lo
  {
    if lo < r {
      FindIfIs(table, lo + 1, hi, op, r);
    }
  }

  function FindInRange<T>(table: seq<T>, first: nat, last: nat, op: T -> bool): (r: nat)
    requires first <= |table| && last <= |table|
    ensures r <= |table|
  {
    if first < last then
      FindIf(table, first, last, op)
    else
      var it := FindIf(table, first, |table|, op);
      if it == |table| then FindIf(table, 0, last, op) else it
  }

  /** The entries of a cyclic range in order. */
  function Unroll<T>(table: seq<T>, first: nat, last: nat): seq<T>
    requires first <= |table| && last <= |table|
  {
    if first < last then table[first..last] else table[first..] + table[..last]
  }

  /** In a range that is not empty, `last` is returned exactly when there is no hit; otherwise the
      result is the place of the first hit. */
  lemma FindAgreesWithUnroll<T>(table: seq<T>, first: nat, last: nat, op: T -> bool)
    requires first <= |table| && last <= |table| && first != last
    ensures var u, r := Unroll(table, first, last), FindInRange(table, first, last, op);
            && |u| == (if first < last then last - first else |table| - first + last)
            && (r == last <==> forall j :: 0 <= j < |u| ==> !op(u[j]))
            && (r != last ==>
                 r < |table| && op(table[r]) && var j := Distance(first, r, |table|);
                 0 <= j < |u| && u[j] == table[r] && forall l :: 0 <= l < j ==> !op(u[l]))
  {
    var u, r := Unroll(table, first, last), FindInRange(table, first, last, op);
    if last < first {
      assert forall i :: first <= i < |table| ==> u[i - first] == table[i];
      assert forall i :: 0 <= i < last ==> u[|table| - first + i] == table[i];
    } else {
      assert forall i :: first <= i < last ==> u[i - first] == table[i];
    }
  }

  /** The one range the search misreads: an empty range is taken for the whole table, and then a hit
      in its first entry looks like none at all. */
  lemma FindInEmptyRange<T>(table: seq<T>, first: nat, op: T -> bool)
    requires first <= |table|
    ensures FindInRange(table, first, first, op) == first
        <==> (first < |table| && op(table[first])) || forall i :: 0 <= i < |table| ==> !op(table[i])
  {
  }

  /** A hit in a range that is empty, and a hit that looks like none. */
  lemma EmptyRangeExample()
    ensures FindInRange([1, 2], 0, 0, x => x == 2) == 1
    ensures FindInRange([1, 2], 0, 0, x => x == 1) == 0
  {
  }

  function Fold<T, A>(xs: seq<T>, init: A, op: (A, T) -> A): A {
    if xs == [] then init else Fold(xs[1..], op(init, xs[0]), op)
  }

  /** The intermediate results of taking entries in one after the other, from `init` on. */
  ghost predicate Accumulates<T, A>(results: seq<A>, xs: seq<T>, init: A, op: (A, T) -> A) {
    |results| == |xs| + 1 && results[0] == init && forall j :: 0 <= j < |xs| ==> results[j + 1] == op(results[j], xs[j])
  }

  lemma {:induction false} FoldIsLast<T, A>(xs: seq<T>, init: A, op: (A, T) -> A) returns (results: seq<A>)
    ensures Accumulates(results, xs, init, op) && Fold(xs, init, op) == results[|xs|]
  {
    if xs == [] {
      results := [init];
    } else {
      var rest := FoldIsLast(xs[1..], op(init, xs[0]), op);
      results := [init] + rest;
    }
  }

  /** The fold over a wrapped range runs in two parts. */
  method AccumulateInRange<T, A>(table: seq<T>, first: nat, last: nat, start: A, op: (A, T) -> A) returns (r: A)
    requires first <= |table| && last <= |table|
    ensures r == Fold(Unroll(table, first, last), start, op)
    ensures exists results ::
              Accumulates(results, Unroll(table, first, last), start, op) && r == results[|results| - 1]
  {
    ghost var results := FoldIsLast(Unroll(table, first, last), start, op);
    var init := start;
    if first < last {
      return Fold(table[first..last], init, op);
    } else {
      init := Fold(table[first..], init, op);
      FoldConcat(table[first..], table[..last], start, op);
      return Fold(table[..last], init, op);
    }
  }

  lemma {:induction false} FoldConcat<T, A>(xs: seq<T>, ys: seq<T>, init: A, op: (A, T) -> A)
    ensures Fold(xs + ys, init, op) == Fold(ys, Fold(xs, init, op), op)
  {
    if xs == [] {
      assert xs + ys == ys;
    } else {
      assert (xs + ys)[1..] == xs[1..] + ys;
      FoldConcat(xs[1..], ys, op(init, xs[0]), op);
    }
  }
}
