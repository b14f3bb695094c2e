/** Small building blocks shared by the catalog and the renderer: an optional value (JavaScript's
    `null`/`undefined` versus a present value), JavaScript's `\s` character class, an
    order-preserving filter (JavaScript's `Array.prototype.filter`) and `String.prototype.includes`. */
module Common {

  datatype Option<+T> = None | Some(value: T)

  /** A character of JavaScript's `\s` class: the ECMAScript WhiteSpace and LineTerminator code points. */
  predicate IsJsWhitespace(c: char) {
    var n := c as int;
    n == 0x09 || n == 0x0A || n == 0x0B || n == 0x0C || n == 0x0D || n == 0x20 || n == 0xA0 ||
    n == 0x1680 || (0x2000 <= n <= 0x200A) || n == 0x2028 || n == 0x2029 || n == 0x202F ||
    n == 0x205F || n == 0x3000 || n == 0xFEFF
  }

  /** `xs.filter(f)`: the elements of `xs` that satisfy `f`, in their original order. */
  function Filter<T>(xs: seq<T>, f: T -> bool): (r: seq<T>)
    ensures |r| <= |xs|
    ensures forall k :: 0 <= k < |r| ==> f(r[k])
    decreases |xs|
  {
    if xs == [] then []
    else Filter(xs[..|xs| - 1], f) + (if f(xs[|xs| - 1]) then [xs[|xs| - 1]] else [])
  }

  /** The positions in `xs` of the elements that `Filter(xs, f)` keeps. */
  function FilterIndices<T>(xs: seq<T>, f: T -> bool): seq<nat>
    decreases |xs|
  {
    if xs == [] then []
    else FilterIndices(xs[..|xs| - 1], f) + (if f(xs[|xs| - 1]) then [|xs| - 1] else [])
  }

  /** The positions `FilterIndices` lists lie inside `xs`, in increasing order, one per kept element. */
  lemma {:induction false} FilterIndicesIncreasing<T>(xs: seq<T>, f: T -> bool)
    ensures var ix := FilterIndices(xs, f);
      && |ix| == |Filter(xs, f)|
      && (forall k :: 0 <= k < |ix| ==> ix[k] < |xs|)
      && (forall k, l :: 0 <= k < l < |ix| ==> ix[k] < ix[l])
    decreases |xs|
  {
    if xs != [] {
      FilterIndicesIncreasing(xs[..|xs| - 1], f);
    }
  }

  /** Position k of the filtered list holds the element at the k-th listed position. */
  lemma {:induction false} FilterAtIndices<T>(xs: seq<T>, f: T -> bool)
    ensures var r, ix := Filter(xs, f), FilterIndices(xs, f);
      |ix| == |r| && forall k :: 0 <= k < |ix| ==> ix[k] < |xs| && r[k] == xs[ix[k]]
    decreases |xs|
  {
    if xs != [] {
      var n := |xs| - 1;
      var init := xs[..n];
      FilterAtIndices(init, f);
      FilterIndicesIncreasing(init, f);
      var r0, ix0 := Filter(init, f), FilterIndices(init, f);
      forall k | 0 <= k < |ix0| ensures xs[ix0[k]] == init[ix0[k]] { }
    }
  }

  /** A position is listed iff its element satisfies `f`. */
  lemma {:induction false} FilterIndicesExactly<T>(xs: seq<T>, f: T -> bool)
    ensures forall i :: 0 <= i < |xs| ==> (f(xs[i]) <==> i in FilterIndices(xs, f))
    decreases |xs|
  {
    if xs != [] {
      var n := |xs| - 1;
      var init := xs[..n];
      FilterIndicesExactly(init, f);
      FilterIndicesIncreasing(init, f);
      var ix0 := FilterIndices(init, f);
      assert n !in ix0;
      forall i | 0 <= i < n ensures xs[i] == init[i] { }
    }
  }

  /** `Filter` keeps exactly the elements satisfying `f`, each at most once, in their original order:
      the result is the subsequence of `xs` at the increasing positions where `f` holds. */
  lemma FilterIsOrderedSelection<T>(xs: seq<T>, f: T -> bool)
    ensures var r, ix := Filter(xs, f), FilterIndices(xs, f);
      && |ix| == |r|
      && (forall k :: 0 <= k < |ix| ==> ix[k] < |xs| && r[k] == xs[ix[k]])
      && (forall k, l :: 0 <= k < l < |ix| ==> ix[k] < ix[l])
      && (forall i :: 0 <= i < |xs| ==> (f(xs[i]) <==> i in ix))
  {
    FilterIndicesIncreasing(xs, f);
    FilterAtIndices(xs, f);
    FilterIndicesExactly(xs, f);
  }

  /** A filter every element passes keeps the whole list. */
  lemma {:induction false} FilterKeepsAll<T>(xs: seq<T>, f: T -> bool)
    requires forall k :: 0 <= k < |xs| ==> f(xs[k])
    ensures Filter(xs, f) == xs
    decreases |xs|
  {
    if xs != [] {
      FilterKeepsAll(xs[..|xs| - 1], f);
      assert xs[..|xs| - 1] + [xs[|xs| - 1]] == xs;
    }
  }

  /** A filter no element passes keeps nothing. */
  lemma {:induction false} FilterDropsAll<T>(xs: seq<T>, f: T -> bool)
    requires forall k :: 0 <= k < |xs| ==> !f(xs[k])
    ensures Filter(xs, f) == []
    decreases |xs|
  {
    if xs != [] {
      FilterDropsAll(xs[..|xs| - 1], f);
    }
  }

  /** `s.includes(t)`, written recursively so that it can be evaluated on literals. */
  predicate Includes(s: string, t: string)
    decreases |s|
  {
    |t| <= |s| && (s[..|t|] == t || Includes(s[1..], t))
  }

  /** `t` occurs in `s` starting at offset `i`. */
  predicate OccursAt(s: string, t: string, i: nat) {
    i + |t| <= |s| && s[i..i + |t|] == t
  }

  /** A slice of `s` starting after its first element is the same slice of `s[1..]`, shifted. */
  lemma SliceAfterFirst<T>(s: seq<T>, i: nat, n: nat)
    requires 0 < i && i + n <= |s|
    ensures s[i..i + n] == s[1..][i - 1..i - 1 + n]
  {
    var a, b := s[i..i + n], s[1..][i - 1..i - 1 + n];
    assert |a| == |b|;
    assert forall k :: 0 <= k < |a| ==> a[k] == b[k];
  }

  /** `Includes` means that `t` occurs in `s` at some offset. */
  lemma {:induction false} IncludesAt(s: string, t: string)
    ensures Includes(s, t) <==> exists i: nat :: OccursAt(s, t, i)
    decreases |s|
  {
    if |t| <= |s| {
      if s[..|t|] == t {
        assert OccursAt(s, t, 0);
      } else {
        IncludesAt(s[1..], t);
        if Includes(s[1..], t) {
          var i: nat :| OccursAt(s[1..], t, i);
          SliceAfterFirst(s, i + 1, |t|);
          assert OccursAt(s, t, i + 1);
        } else {
          forall i: nat | i > 0 && i + |t| <= |s|
            ensures OccursAt(s, t, i) == OccursAt(s[1..], t, i - 1)
          {
            SliceAfterFirst(s, i, |t|);
          }
          assert !OccursAt(s, t, 0);
        }
      }
    } else {
      forall i: nat | OccursAt(s, t, i) ensures false { }
    }
  }
}
