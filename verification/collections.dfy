/** Sequence combinators shared by the modules that turn lists into lists. */
module Collections {
  import opened Wrappers

  /** `SelectMany`: the outputs of `f` on each element, concatenated in order. */
  function FlatMap<T, U>(xs: seq<T>, f: T -> seq<U>): seq<U> {
    if |xs| == 0 then [] else f(xs[0]) + FlatMap(xs[1..], f)
  }

  /** Splitting the input splits the output at the same place. */
  lemma {:induction false} FlatMapAppend<T, U>(a: seq<T>, b: seq<T>, f: T -> seq<U>)
    ensures FlatMap(a + b, f) == FlatMap(a, f) + FlatMap(b, f)
  {
    if |a| == 0 {
      assert a + b == b;
    } else {
      assert (a + b)[0] == a[0];
      assert (a + b)[1..] == a[1..] + b;
      FlatMapAppend(a[1..], b, f);
    }
  }

  /** Every output element comes from some input element. */
  lemma {:induction false} FlatMapMembers<T, U>(xs: seq<T>, f: T -> seq<U>, u: U)
    requires u in FlatMap(xs, f)
    ensures exists i :: 0 <= i < |xs| && u in f(xs[i])
  {
    if u !in f(xs[0]) {
      FlatMapMembers(xs[1..], f, u);
      var i :| 0 <= i < |xs[1..]| && u in f(xs[1..][i]);
      assert u in f(xs[i + 1]);
    }
  }

  /** Every output of `f` on an input element is in the output. */
  lemma {:induction false} FlatMapIncludes<T, U>(xs: seq<T>, f: T -> seq<U>, i: nat, u: U)
    requires i < |xs| && u in f(xs[i])
    ensures u in FlatMap(xs, f)
  {
    if i > 0 {
      assert xs[1..][i - 1] == xs[i];
      FlatMapIncludes(xs[1..], f, i - 1, u);
    }
  }

  /** The output is as long as the outputs of `f` together. */
  function SumLengths<T, U>(xs: seq<T>, f: T -> seq<U>): nat {
    if |xs| == 0 then 0 else |f(xs[0])| + SumLengths(xs[1..], f)
  }

  lemma {:induction false} FlatMapLength<T, U>(xs: seq<T>, f: T -> seq<U>)
    ensures |FlatMap(xs, f)| == SumLengths(xs, f)
  {
    if |xs| > 0 {
      FlatMapLength(xs[1..], f);
    }
  }

  /** `f` applied to every element, in order. */
  function Map<T, U>(xs: seq<T>, f: T -> U): (r: seq<U>)
    ensures |r| == |xs|
    ensures forall i :: 0 <= i < |xs| ==> r[i] == f(xs[i])
  {
    if |xs| == 0 then [] else [f(xs[0])] + Map(xs[1..], f)
  }

  /** Mapping a list with a new first element maps that element first. */
  lemma MapCons<T, U>(x: T, xs: seq<T>, f: T -> U)
    ensures Map([x] + xs, f) == [f(x)] + Map(xs, f)
  {
    assert ([x] + xs)[1..] == xs;
  }

  /** Concatenation is associative; stated as a lemma so that a proof can
      regroup a concatenation without the solver searching for it. */
  lemma AppendAssociative<T>(a: seq<T>, b: seq<T>, c: seq<T>)
    ensures (a + b) + c == a + (b + c)
  {
  }

  /** The first non-empty result of `f` along `xs`: the first failure of a
      loop that stops at the first element that throws. */
  function FirstSome<T, U(==)>(xs: seq<T>, f: T -> Option<U>): (r: Option<U>)
    ensures r.None? <==> forall i :: 0 <= i < |xs| ==> f(xs[i]).None?
    ensures r.Some? ==> exists i :: 0 <= i < |xs| && f(xs[i]) == r && forall j :: 0 <= j < i ==> f(xs[j]).None?
  {
    if |xs| == 0 then None
    else if f(xs[0]).Some? then f(xs[0])
    else
      var r := FirstSome(xs[1..], f);
      if r.Some? then
        var i :| 0 <= i < |xs[1..]| && f(xs[1..][i]) == r && forall j :: 0 <= j < i ==> f(xs[1..][j]).None?;
        assert f(xs[i + 1]) == r && forall j :: 0 <= j < i + 1 ==> f(xs[j]).None? by {
          forall j | 0 <= j < i + 1
            ensures f(xs[j]).None?
          {
            if j > 0 {
              assert xs[j] == xs[1..][j - 1];
            }
          }
        }
        r
      else
        assert forall i :: 0 <= i < |xs| ==> f(xs[i]).None? by {
          forall i | 0 <= i < |xs|
            ensures f(xs[i]).None?
          {
            if i > 0 {
              assert xs[i] == xs[1..][i - 1];
            }
          }
        }
        r
  }

  /** `Where(x => x is not null)`: the present values, in order. */
  function Somes<T>(xs: seq<Option<T>>): (r: seq<T>)
    ensures |r| <= |xs|
    ensures forall x <- r :: Some(x) in xs
    ensures forall i :: 0 <= i < |xs| && xs[i].Some? ==> xs[i].value in r
  {
    if |xs| == 0 then []
    else
      var rest := Somes(xs[1..]);
      assert forall i :: 0 < i < |xs| ==> xs[i] == xs[1..][i - 1];
      assert forall x <- rest :: Some(x) in xs by {
        forall x <- rest
          ensures Some(x) in xs
        {
          var k :| 0 <= k < |xs[1..]| && xs[1..][k] == Some(x);
          assert xs[k + 1] == Some(x);
        }
      }
      match xs[0]
      case None => rest
      case Some(x) => [x] + rest
  }

  /** Filtering distributes over concatenation. */
  lemma {:induction false} SomesAppend<T>(a: seq<Option<T>>, b: seq<Option<T>>)
    ensures Somes(a + b) == Somes(a) + Somes(b)
  {
    if |a| == 0 {
      assert a + b == b;
    } else {
      assert (a + b)[0] == a[0];
      assert (a + b)[1..] == a[1..] + b;
      SomesAppend(a[1..], b);
    }
  }

  /** The position of the first item whose update throws, or the number of
      items when none does. */
  function FirstFailure<T>(items: seq<T>, step: T -> Applied<T>): (i: nat)
    ensures i <= |items|
    ensures forall j :: 0 <= j < i ==> step(items[j]).failure.None?
    ensures i < |items| ==> step(items[i]).failure.Some?
  {
    if |items| == 0 then 0
    else if step(items[0]).failure.Some? then 0
    else
      var i := FirstFailure(items[1..], step);
      assert forall j :: 0 < j < |items| ==> items[j] == items[1..][j - 1];
      i + 1
  }

  /** A `foreach` loop that updates each item in place and stops at the
      first exception: the items before it are updated, the failing one is
      left as the update made it before throwing, and the rest are
      untouched. */
  function UpdateEach<T>(items: seq<T>, step: T -> Applied<T>): (r: Applied<seq<T>>)
    ensures |r.state| == |items|
    ensures var i := FirstFailure(items, step);
      && (r.failure.None? <==> i == |items|)
      && (forall j :: 0 <= j < i ==> r.state[j] == step(items[j]).state)
      && (i < |items| ==> r.state[i] == step(items[i]).state && r.failure == step(items[i]).failure)
      && (forall j :: i < j < |items| ==> r.state[j] == items[j])
  {
    if |items| == 0 then Applied([], None)
    else
      var first := step(items[0]);
      if first.failure.Some? then Applied([first.state] + items[1..], first.failure)
      else
        var rest := UpdateEach(items[1..], step);
        var r := Applied([first.state] + rest.state, rest.failure);
        assert forall k :: 0 < k < |items| ==> items[k] == items[1..][k - 1] && r.state[k] == rest.state[k - 1];
        r
  }

  /** Every item `UpdateEach` leaves is the item itself or its update; the
      loop completes exactly when no step throws, and then every item is
      updated. */
  lemma UpdateEachOutcome<T>(items: seq<T>, step: T -> Applied<T>)
    ensures forall k :: 0 <= k < |items| ==> UpdateEach(items, step).state[k] in {items[k], step(items[k]).state}
    ensures UpdateEach(items, step).failure.None? <==> forall k :: 0 <= k < |items| ==> step(items[k]).failure.None?
    ensures UpdateEach(items, step).failure.None? ==> forall k :: 0 <= k < |items| ==> UpdateEach(items, step).state[k] == step(items[k]).state
  {
    var r := UpdateEach(items, step);
    var i := FirstFailure(items, step);
    forall k | 0 <= k < |items|
      ensures r.state[k] in {items[k], step(items[k]).state}
    {
      if k < i {
        assert r.state[k] == step(items[k]).state;
      } else if k == i {
        assert r.state[k] == step(items[k]).state;
      } else {
        assert r.state[k] == items[k];
      }
    }
  }
}
