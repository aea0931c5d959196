/**
 * Lists of DOM elements, abstracted as sequences in document order, and the
 * one boolean class mark (`active`, `is-active`, `aria-current`) that the page
 * toggles on each of them.
 */
module ClassFlags {

  /** No two elements of `s` are equal. */
  ghost predicate Distinct<T>(s: seq<T>) {
    forall i, j :: 0 <= i < j < |s| ==> s[i] != s[j]
  }

  /**
   * `Array.prototype.indexOf` / the first match of `querySelector`: the
   * position of the first element equal to `x`, or -1 when there is none.
   */
  function IndexOf<T(==)>(s: seq<T>, x: T): (r: int)
    ensures -1 <= r < |s|
    ensures r == -1 <==> x !in s
    ensures 0 <= r ==> s[r] == x && x !in s[..r]
  {
    if |s| == 0 then -1
    else if s[0] == x then 0
    else
      var r' := IndexOf(s[1..], x);
      if r' == -1 then -1
      else
        assert s[..r' + 1] == [s[0]] + s[1..][..r'];
        r' + 1
  }

  /**
   * `classList.toggle(c, e.key === x)` applied to every element of a list
   * whose keys are `keys`: the mark is set exactly on the elements whose key
   * equals `x`.
   */
  function Matches<T(==)>(keys: seq<T>, x: T): (r: seq<bool>)
    ensures |r| == |keys|
    ensures forall i :: 0 <= i < |keys| ==> (r[i] <==> keys[i] == x)
  {
    seq(|keys|, i requires 0 <= i < |keys| => keys[i] == x)
  }

  /** A list of `n` cleared marks (`classList.remove` on every element). */
  function AllFalse(n: nat): (r: seq<bool>)
    ensures |r| == n && forall k :: 0 <= k < n ==> !r[k]
  {
    seq(n, _ => false)
  }

  /** How many elements of the list carry the mark. */
  function CountTrue(s: seq<bool>): (r: nat)
    ensures r <= |s|
  {
    if |s| == 0 then 0 else (if s[0] then 1 else 0) + CountTrue(s[1..])
  }

  /** A list on which no element carries the mark counts zero. */
  lemma {:induction false} CountTrueNone(s: seq<bool>)
    requires forall k :: 0 <= k < |s| ==> !s[k]
    ensures CountTrue(s) == 0
  {
    if |s| > 0 {
      CountTrueNone(s[1..]);
    }
  }

  /** A list on which exactly the element at `i` carries the mark counts one. */
  lemma {:induction false} CountTrueOne(s: seq<bool>, i: nat)
    requires i < |s| && s[i]
    requires forall k :: 0 <= k < |s| && k != i ==> !s[k]
    ensures CountTrue(s) == 1
  {
    if i == 0 {
      CountTrueNone(s[1..]);
    } else {
      CountTrueOne(s[1..], i - 1);
    }
  }

  /** Two distinct marked elements make the count at least two. */
  lemma {:induction false} CountTrueTwo(s: seq<bool>, i: nat, j: nat)
    requires i < j < |s| && s[i] && s[j]
    ensures CountTrue(s) >= 2
  {
    if i == 0 {
      CountTrueAtLeastOne(s[1..], j - 1);
    } else {
      CountTrueTwo(s[1..], i - 1, j - 1);
    }
  }

  /** One marked element makes the count at least one. */
  lemma {:induction false} CountTrueAtLeastOne(s: seq<bool>, i: nat)
    requires i < |s| && s[i]
    ensures CountTrue(s) >= 1
  {
    if i > 0 {
      CountTrueAtLeastOne(s[1..], i - 1);
    }
  }

  /**
   * Toggling by key marks as many elements as the key occurs in the list.
   */
  lemma {:induction false} CountMatches<T>(keys: seq<T>, x: T)
    ensures CountTrue(Matches(keys, x)) == multiset(keys)[x]
  {
    if |keys| > 0 {
      assert Matches(keys, x)[1..] == Matches(keys[1..], x);
      assert keys == [keys[0]] + keys[1..];
      CountMatches(keys[1..], x);
    }
  }

  /**
   * Toggling by key over a list without repetitions marks exactly one
   * element, the one at `IndexOf(keys, x)`, when `x` occurs, and none
   * otherwise.
   */
  lemma MatchesDistinct<T>(keys: seq<T>, x: T)
    requires Distinct(keys)
    ensures x in keys ==> CountTrue(Matches(keys, x)) == 1 && Matches(keys, x)[IndexOf(keys, x)]
    ensures x !in keys ==> CountTrue(Matches(keys, x)) == 0
  {
    var m := Matches(keys, x);
    if x in keys {
      var i := IndexOf(keys, x);
      CountTrueOne(m, i);
    } else {
      CountTrueNone(m);
    }
  }
}
