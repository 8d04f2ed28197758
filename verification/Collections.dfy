/** Option and Result values, and the sequence operations shared by the model. */
module Collections {

  datatype Option<+T> = None | Some(value: T)

  datatype Result<+T, +E> = Ok(value: T) | Err(error: E)

  /** The number of true entries: a 0/1 mask summed along its row. */
  function Count(mask: seq<bool>): (n: nat)
    ensures n <= |mask|
  {
    if mask == [] then 0
    else Count(mask[..|mask| - 1]) + if mask[|mask| - 1] then 1 else 0
  }

  /** The entries of xs whose mask entry is true, in order. */
  function Select<T>(xs: seq<T>, mask: seq<bool>): (r: seq<T>)
    requires |xs| == |mask|
    ensures |r| == Count(mask)
  {
    if xs == [] then []
    else
      var n := |xs| - 1;
      Select(xs[..n], mask[..n]) + if mask[n] then [xs[n]] else []
  }

  function Max(a: int, b: int): int { if a < b then b else a }

  function Min(a: int, b: int): int { if a < b then a else b }

  function Repeat<T>(x: T, n: nat): (r: seq<T>)
    ensures |r| == n
    ensures forall i :: 0 <= i < n ==> r[i] == x
  {
    seq(n, _ => x)
  }

  /** The concatenation of a sequence of sequences. */
  function Flatten<T>(xss: seq<seq<T>>): seq<T> {
    if xss == [] then [] else xss[0] + Flatten(xss[1..])
  }

  function Sum(xs: seq<nat>): nat {
    if xs == [] then 0 else xs[0] + Sum(xs[1..])
  }

  lemma TakeOfAppend<T>(a: seq<T>, b: seq<T>, k: nat)
    requires k <= |b|
    ensures (a + b)[..|a| + k] == a + b[..k]
  {}

  lemma {:induction false} FlattenAppend<T>(a: seq<seq<T>>, b: seq<seq<T>>)
    ensures Flatten(a + b) == Flatten(a) + Flatten(b)
  {
    if a == [] {
      assert a + b == b;
    } else {
      assert (a + b)[1..] == a[1..] + b;
      FlattenAppend(a[1..], b);
    }
  }

  lemma FlattenSnoc<T>(a: seq<seq<T>>, x: seq<T>)
    ensures Flatten(a + [x]) == Flatten(a) + x
  {
    FlattenAppend(a, [x]);
    assert [x][1..] == [];
    assert Flatten([x]) == x + [];
  }

  lemma {:induction false} CountAppend(a: seq<bool>, b: seq<bool>)
    ensures Count(a + b) == Count(a) + Count(b)
  {
    if b == [] {
      assert a + b == a;
    } else {
      assert (a + b)[..|a + b| - 1] == a + b[..|b| - 1];
      CountAppend(a, b[..|b| - 1]);
    }
  }

  lemma CountSnoc(a: seq<bool>, x: bool)
    ensures Count(a + [x]) == Count(a) + if x then 1 else 0
  {
    assert (a + [x])[..|a|] == a;
  }

  lemma {:induction false} CountAllTrue(a: seq<bool>)
    requires forall i :: 0 <= i < |a| ==> a[i]
    ensures Count(a) == |a|
  {
    if a != [] { CountAllTrue(a[..|a| - 1]); }
  }

  lemma {:induction false} CountAllFalse(a: seq<bool>)
    requires forall i :: 0 <= i < |a| ==> !a[i]
    ensures Count(a) == 0
  {
    if a != [] { CountAllFalse(a[..|a| - 1]); }
  }

  lemma {:induction false} CountHasTrue(a: seq<bool>, i: nat)
    requires i < |a| && a[i]
    ensures Count(a) > 0
  {
    if i < |a| - 1 { CountHasTrue(a[..|a| - 1], i); }
  }

  lemma {:induction false} SelectAppend<T>(xs: seq<T>, ms: seq<bool>, ys: seq<T>, ns: seq<bool>)
    requires |xs| == |ms| && |ys| == |ns|
    ensures Select(xs + ys, ms + ns) == Select(xs, ms) + Select(ys, ns)
  {
    if ys == [] {
      assert xs + ys == xs && ms + ns == ms;
    } else {
      var n := |ys| - 1;
      assert (xs + ys)[..|xs + ys| - 1] == xs + ys[..n];
      assert (ms + ns)[..|xs + ys| - 1] == ms + ns[..n];
      SelectAppend(xs, ms, ys[..n], ns[..n]);
    }
  }

  lemma {:induction false} SelectAll<T>(xs: seq<T>, ms: seq<bool>)
    requires |xs| == |ms| && forall i :: 0 <= i < |ms| ==> ms[i]
    ensures Select(xs, ms) == xs
  {
    if xs != [] {
      SelectAll(xs[..|xs| - 1], ms[..|xs| - 1]);
    }
  }

  lemma SelectSnoc<T>(xs: seq<T>, ms: seq<bool>, x: T, b: bool)
    requires |xs| == |ms|
    ensures Select(xs + [x], ms + [b]) == Select(xs, ms) + if b then [x] else []
  {
    assert (xs + [x])[..|xs|] == xs && (ms + [b])[..|xs|] == ms;
  }

  lemma SelectUpTo<T>(xs: seq<T>, ms: seq<bool>, k: nat)
    requires |xs| == |ms| && k < |xs|
    ensures Select(xs[..k + 1], ms[..k + 1])
         == if ms[k] then Select(xs[..k], ms[..k]) + [xs[k]] else Select(xs[..k], ms[..k])
  {
    assert xs[..k + 1] == xs[..k] + [xs[k]] && ms[..k + 1] == ms[..k] + [ms[k]];
    SelectSnoc(xs[..k], ms[..k], xs[k], ms[k]);
  }

  /** Selecting with no entry set past k ignores everything past k. */
  lemma {:induction false} SelectPrefix<T>(xs: seq<T>, ms: seq<bool>, k: nat)
    requires |xs| == |ms| && k <= |xs|
    requires forall i :: k <= i < |ms| ==> !ms[i]
    ensures Select(xs, ms) == Select(xs[..k], ms[..k])
  {
    hide Count;
    if k == |xs| {
      assert xs[..k] == xs && ms[..k] == ms;
    } else {
      var n := |xs| - 1;
      SelectPrefix(xs[..n], ms[..n], k);
      assert xs[..n][..k] == xs[..k] && ms[..n][..k] == ms[..k];
    }
  }

  /** Selecting depends only on the entries that are kept. */
  lemma {:induction false} SelectCong<T>(xs: seq<T>, ys: seq<T>, ms: seq<bool>)
    requires |xs| == |ms| == |ys|
    requires forall i :: 0 <= i < |ms| && ms[i] ==> xs[i] == ys[i]
    ensures Select(xs, ms) == Select(ys, ms)
  {
    if xs != [] {
      var n := |xs| - 1;
      SelectCong(xs[..n], ys[..n], ms[..n]);
    }
  }

  /** The order lists each member once. */
  predicate Listing<T(==)>(order: seq<T>, members: set<T>) {
    && (forall m :: m in order ==> m in members) && (forall m :: m in members ==> m in order)
    && forall i, j :: 0 <= i < j < |order| ==> order[i] != order[j]
  }

  lemma ListingAt<T>(order: seq<T>, members: set<T>, i: nat)
    requires Listing(order, members) && i < |order|
    ensures order[i] in members && order[i] !in order[..i]
  {
    assert order[i] in order;
  }

  lemma ListingNext<T>(order: seq<T>, members: set<T>, x: T)
    requires Listing(order, members)
    ensures Listing(if x in members then order else order + [x], members + {x})
  {}
}
