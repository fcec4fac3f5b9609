/** Boolean masks over observation sequences, as numpy uses them:
    element-wise `&`, `|`, `~`, `numpy.sum` of a mask, boolean indexing
    `xs[mask]` (Select) and the in-place write `mask[mask] = vals` (AssignSelected).
 */
module BoolMasks {

  /** numpy.sum over a boolean array: the number of true entries. */
  function Count(m: seq<bool>): (c: nat)
    ensures c <= |m|
    ensures c == 0 <==> forall i :: 0 <= i < |m| ==> !m[i]
  {
    if |m| == 0 then 0
    else Count(m[..|m| - 1]) + (if m[|m| - 1] then 1 else 0)
  }

  /** Element-wise `a & b`. */
  function And(a: seq<bool>, b: seq<bool>): (r: seq<bool>)
    requires |a| == |b|
    ensures |r| == |a|
    ensures forall i :: 0 <= i < |r| ==> (r[i] <==> a[i] && b[i])
  {
    seq(|a|, i requires 0 <= i < |a| => a[i] && b[i])
  }

  /** Element-wise `a | b`. */
  function Or(a: seq<bool>, b: seq<bool>): (r: seq<bool>)
    requires |a| == |b|
    ensures |r| == |a|
    ensures forall i :: 0 <= i < |r| ==> (r[i] <==> a[i] || b[i])
  {
    seq(|a|, i requires 0 <= i < |a| => a[i] || b[i])
  }

  /** Element-wise `~m`. */
  function Not(m: seq<bool>): (r: seq<bool>)
    ensures |r| == |m|
    ensures forall i :: 0 <= i < |r| ==> (r[i] <==> !m[i])
  {
    seq(|m|, i requires 0 <= i < |m| => !m[i])
  }

  /** Boolean indexing `xs[m]`: the elements of `xs` at the true positions of `m`, in order. */
  function Select<T>(xs: seq<T>, m: seq<bool>): (r: seq<T>)
    requires |xs| == |m|
    ensures |r| == Count(m)
  {
    if |m| == 0 then []
    else Select(xs[..|m| - 1], m[..|m| - 1]) + (if m[|m| - 1] then [xs[|m| - 1]] else [])
  }

  /** The mask that `m[m] = vals` leaves behind: the k-th true position of `m`
      takes `vals[k]`, every false position stays false. */
  function Scatter(m: seq<bool>, vals: seq<bool>): (r: seq<bool>)
    requires |vals| == Count(m)
    ensures |r| == |m|
  {
    if |m| == 0 then []
    else if m[|m| - 1] then Scatter(m[..|m| - 1], vals[..|vals| - 1]) + [vals[|vals| - 1]]
    else Scatter(m[..|m| - 1], vals) + [false]
  }

  // ---------------------------------------------------------------------------
  // Counting

  /** Extending a prefix by one position adds that position to the count. */
  lemma CountStep(m: seq<bool>, i: nat)
    requires i < |m|
    ensures Count(m[..i + 1]) == Count(m[..i]) + (if m[i] then 1 else 0)
  {
    assert m[..i + 1][..i] == m[..i];
  }

  /** A prefix never holds more true entries than the whole mask. */
  lemma {:induction false} CountPrefix(m: seq<bool>, i: nat)
    requires i <= |m|
    ensures Count(m[..i]) <= Count(m)
    decreases |m| - i
  {
    if i < |m| {
      CountPrefix(m, i + 1);
      CountStep(m, i);
    } else {
      assert m[..i] == m;
    }
  }

  /** A mask that implies another one position by position has no more true entries. */
  lemma {:induction false} CountMonotone(a: seq<bool>, b: seq<bool>)
    requires |a| == |b|
    requires forall i :: 0 <= i < |a| && a[i] ==> b[i]
    ensures Count(a) <= Count(b)
  {
    if |a| > 0 {
      CountMonotone(a[..|a| - 1], b[..|b| - 1]);
    }
  }

  /** `numpy.sum(~m)` is the length minus `numpy.sum(m)`. */
  lemma {:induction false} CountNot(m: seq<bool>)
    ensures Count(Not(m)) == |m| - Count(m)
  {
    if |m| > 0 {
      var n := |m| - 1;
      assert Not(m)[..n] == Not(m[..n]);
      CountNot(m[..n]);
    }
  }

  /** The count of a union of two disjoint masks is the sum of their counts. */
  lemma {:induction false} CountOrDisjoint(a: seq<bool>, b: seq<bool>)
    requires |a| == |b|
    requires forall i :: 0 <= i < |a| ==> !(a[i] && b[i])
    ensures Count(Or(a, b)) == Count(a) + Count(b)
  {
    if |a| > 0 {
      var n := |a| - 1;
      assert Or(a, b)[..n] == Or(a[..n], b[..n]);
      CountOrDisjoint(a[..n], b[..n]);
    }
  }

  // ---------------------------------------------------------------------------
  // Boolean indexing

  /** Selecting over a prefix gives a prefix of the selection. */
  lemma {:induction false} SelectPrefix<T>(xs: seq<T>, m: seq<bool>, i: nat)
    requires |xs| == |m| && i <= |m|
    ensures Count(m[..i]) <= Count(m)
    ensures Select(xs[..i], m[..i]) == Select(xs, m)[..Count(m[..i])]
    decreases |m| - i
  {
    if i == |m| {
      assert xs[..i] == xs && m[..i] == m;
    } else {
      var n := |m| - 1;
      SelectPrefix(xs[..n], m[..n], i);
      assert xs[..n][..i] == xs[..i] && m[..n][..i] == m[..i];
    }
  }

  /** A value occurs in `xs[m]` exactly when it sits at some true position of `m`. */
  lemma {:induction false} SelectContains<T>(xs: seq<T>, m: seq<bool>, x: T)
    requires |xs| == |m|
    ensures x in Select(xs, m) <==> exists j :: 0 <= j < |m| && m[j] && xs[j] == x
  {
    if |m| > 0 {
      var n := |m| - 1;
      SelectContains(xs[..n], m[..n], x);
      if x in Select(xs, m) && x !in Select(xs[..n], m[..n]) {
        assert m[n] && xs[n] == x;
      }
    }
  }

  /** The element of `xs[m]` that comes from a true position `i` is found at
      rank `Count(m[..i])`, and everything selected before it comes from
      positions before `i`. */
  lemma SelectAt<T>(xs: seq<T>, m: seq<bool>, i: nat)
    requires |xs| == |m| && i < |m| && m[i]
    ensures Count(m[..i]) < Count(m)
    ensures Select(xs, m)[Count(m[..i])] == xs[i]
    ensures Select(xs, m)[..Count(m[..i])] == Select(xs[..i], m[..i])
  {
    var k := Count(m[..i]);
    SelectPrefix(xs, m, i + 1);
    SelectPrefix(xs, m, i);
    CountStep(m, i);
    assert xs[..i + 1][..i] == xs[..i] && m[..i + 1][..i] == m[..i];
    assert Select(xs[..i + 1], m[..i + 1]) == Select(xs[..i], m[..i]) + [xs[i]];
    assert Select(xs, m)[..k + 1][k] == xs[i];
  }

  /** Writing `vals` through `m`: a true position `i` receives the value at its
      rank `Count(m[..i])`, a false position stays false. */
  lemma {:induction false} ScatterAt(m: seq<bool>, vals: seq<bool>, i: nat)
    requires |vals| == Count(m) && i < |m|
    ensures m[i] ==> Count(m[..i]) < |vals| && Scatter(m, vals)[i] == vals[Count(m[..i])]
    ensures !m[i] ==> !Scatter(m, vals)[i]
  {
    var n := |m| - 1;
    if i == n {
      assert m[..n] == m[..i];
    } else {
      assert m[..n][..i] == m[..i];
      if m[n] {
        ScatterAt(m[..n], vals[..|vals| - 1], i);
      } else {
        ScatterAt(m[..n], vals, i);
      }
    }
  }

  /** `m[m] = vals`, in place. */
  method AssignSelected(mask: array<bool>, vals: seq<bool>)
    requires |vals| == Count(mask[..])
    modifies mask
    ensures mask[..] == Scatter(old(mask[..]), vals)
  {
    ghost var m := mask[..];
    var i, k := 0, 0;
    while i < mask.Length
      invariant 0 <= i <= mask.Length
      invariant k == Count(m[..i])
      invariant forall p :: 0 <= p < i ==> mask[p] == Scatter(m, vals)[p]
      invariant forall p :: i <= p < mask.Length ==> mask[p] == m[p]
    {
      ScatterAt(m, vals, i);
      CountStep(m, i);
      if mask[i] {
        mask[i] := vals[k];
        k := k + 1;
      }
      i := i + 1;
    }
  }
}
