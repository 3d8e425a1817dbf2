/** Optional values and failing computations shared by every other module.

    The Kotlin code signals failures with exceptions (`require` throws
    IllegalArgumentException, an out-of-range list or array read throws
    IndexOutOfBoundsException, `!!` on null throws a NullPointerException,
    `cross` throws UnsupportedOperationException); the model returns a
    `Failure` carrying the exception's kind instead. Nullable values
    (`Vector?`, `Int?`) become `Option`. */
module Outcomes {

  datatype Option<+T> = None | Some(value: T) {
    /** Kotlin's elvis operator `?:` */
    function GetOr(default: T): T {
      match this
      case Some(v) => v
      case None => default
    }
  }

  /** The kinds of exception the modelled code can throw. */
  datatype Error =
    | IllegalArgument       // a failed `require`
    | IndexOutOfBounds      // a list or array read outside its range
    | UnsupportedOperation  // `cross` on a vector that is neither 3 nor 4 long
    | NullPointer           // `!!` applied to null

  datatype Result<+T> = Success(value: T) | Failure(error: Error)

  /** `require(condition)` in front of a value */
  function Require<T>(condition: bool, value: T): (r: Result<T>)
    ensures r.Success? <==> condition
    ensures r.Success? ==> r.value == value
    ensures r.Failure? ==> r.error == IllegalArgument
  {
    if condition then Success(value) else Failure(IllegalArgument)
  }

  /** `List.getOrNull(index)`: the element when `index in 0..size-1`, else null */
  function GetOrNull<T>(s: seq<T>, index: int): (r: Option<T>)
    ensures r.Some? <==> 0 <= index < |s|
    ensures r.Some? ==> r.value == s[index]
  {
    if 0 <= index < |s| then Some(s[index]) else None
  }

  /** `map` with a lambda that can throw: every element is mapped, in
      order, unless some element throws, and then the exception is the one
      of the first element that throws. */
  function MapResults<A, B>(xs: seq<A>, f: A -> Result<B>): (r: Result<seq<B>>)
    ensures r.Success? <==> forall k :: 0 <= k < |xs| ==> f(xs[k]).Success?
    ensures r.Success? ==> |r.value| == |xs| && forall k :: 0 <= k < |xs| ==> r.value[k] == f(xs[k]).value
    ensures r.Failure? ==>
              exists k :: 0 <= k < |xs| && f(xs[k]) == Failure(r.error) && forall j :: 0 <= j < k ==> f(xs[j]).Success?
  {
    if xs == [] then Success([])
    else
      match f(xs[0])
      case Failure(e) =>
        assert f(xs[0]) == Failure(e);
        Failure(e)
      case Success(y) =>
        match MapResults(xs[1..], f)
        case Failure(e) =>
          var k :| 0 <= k < |xs[1..]| && f(xs[1..][k]) == Failure(e) && forall j :: 0 <= j < k ==> f(xs[1..][j]).Success?;
          assert forall j :: 1 <= j < k + 1 ==> xs[j] == xs[1..][j - 1];
          assert f(xs[k + 1]) == Failure(e);
          Failure(e)
        case Success(ys) =>
          assert forall k :: 1 <= k < |xs| ==> xs[1..][k - 1] == xs[k];
          Success([y] + ys)
  }

  /** The values of the non-null entries, in order (Kotlin's `filterNotNull`,
      and what a loop of `addIfNotNull` builds). */
  function Somes<T(==)>(xs: seq<Option<T>>): (r: seq<T>)
    ensures |r| <= |xs|
  {
    if xs == [] then []
    else
      var init, last := xs[..|xs| - 1], xs[|xs| - 1];
      assert xs == init + [last];
      Somes(init) + (if last.Some? then [last.value] else [])
  }

  /** `at` lists, in strictly increasing order, the positions of `xs` the
      entries of `ys` come from, and it lists every non-null position. */
  predicate Enumerates<T(==)>(at: seq<int>, xs: seq<Option<T>>, ys: seq<T>) {
    && |at| == |ys|
    && (forall a :: 0 <= a < |at| ==> 0 <= at[a] < |xs| && xs[at[a]] == Some(ys[a]))
    && (forall a, b :: 0 <= a < b < |at| ==> at[a] < at[b])
    && (forall k :: 0 <= k < |xs| && xs[k].Some? ==> k in at)
  }

  lemma EnumeratesSnoc<T>(at: seq<int>, xs: seq<Option<T>>, ys: seq<T>, last: Option<T>)
    requires Enumerates(at, xs, ys)
    ensures last.Some? ==> Enumerates(at + [|xs|], xs + [last], ys + [last.value])
    ensures last.None? ==> Enumerates(at, xs + [last], ys)
  {
    var xs' := xs + [last];
    assert forall k :: 0 <= k < |xs| ==> xs'[k] == xs[k];
  }

  /** An enumeration never looks back: entry `a` comes from position `a`
      or a later one. */
  lemma {:induction false} EnumeratesForward<T>(at: seq<int>, xs: seq<Option<T>>, ys: seq<T>, a: int)
    requires Enumerates(at, xs, ys) && 0 <= a < |at|
    ensures a <= at[a]
  {
    if a > 0 {
      EnumeratesForward(at, xs, ys, a - 1);
    }
  }

  /** `Somes` keeps the order of the list: its entries come from strictly
      increasing positions of `xs`, and every non-null position is one of
      them, so nothing is dropped, added or reordered. */
  lemma {:induction false} SomesOrder<T>(xs: seq<Option<T>>)
    ensures exists at: seq<int> :: Enumerates(at, xs, Somes(xs))
  {
    if xs == [] {
      assert Enumerates([], xs, Somes(xs));
    } else {
      var n := |xs| - 1;
      var init := xs[..n];
      assert xs == init + [xs[n]];
      SomesOrder(init);
      var at :| Enumerates(at, init, Somes(init));
      EnumeratesSnoc(at, init, Somes(init), xs[n]);
      if xs[n].Some? {
        assert Enumerates(at + [n], xs, Somes(xs));
      } else {
        assert Enumerates(at, xs, Somes(xs));
      }
    }
  }

  /** One entry per non-null position. */
  lemma {:induction false} SomesCount<T>(xs: seq<Option<T>>)
    ensures |Somes(xs)| == |set i | 0 <= i < |xs| && xs[i].Some?|
  {
    if xs != [] {
      var n := |xs| - 1;
      SomesCount(xs[..n]);
      var before := set i | 0 <= i < n && xs[..n][i].Some?;
      var after := set i | 0 <= i < |xs| && xs[i].Some?;
      if xs[n].Some? {
        assert after == before + {n};
      } else {
        assert after == before;
      }
    }
  }

  /** Every non-null value is kept, and nothing else is added. */
  lemma SomesMembers<T>(xs: seq<Option<T>>)
    ensures forall k :: 0 <= k < |xs| && xs[k].Some? ==> xs[k].value in Somes(xs)
    ensures forall x :: x in Somes(xs) ==> Some(x) in xs
  {
    SomesOrder(xs);
    var at :| Enumerates(at, xs, Somes(xs));
    forall k | 0 <= k < |xs| && xs[k].Some? ensures xs[k].value in Somes(xs) {
      var a :| 0 <= a < |at| && at[a] == k;
      assert xs[k] == Some(Somes(xs)[a]);
    }
    forall x | x in Somes(xs) ensures Some(x) in xs {
      var a :| 0 <= a < |Somes(xs)| && Somes(xs)[a] == x;
      assert xs[at[a]] == Some(x);
    }
  }

  /** When no entry is null, `Somes` is the list of all the values. */
  lemma {:induction false} SomesAll<T>(xs: seq<Option<T>>)
    requires forall i :: 0 <= i < |xs| ==> xs[i].Some?
    ensures |Somes(xs)| == |xs|
    ensures forall i :: 0 <= i < |xs| ==> Somes(xs)[i] == xs[i].value
  {
    if xs != [] {
      SomesAll(xs[..|xs| - 1]);
    }
  }

  /** One null entry is enough to make `Somes` shorter than the list. */
  lemma {:induction false} SomesShorter<T>(xs: seq<Option<T>>, k: int)
    requires 0 <= k < |xs| && xs[k].None?
    ensures |Somes(xs)| < |xs|
  {
    if k < |xs| - 1 {
      SomesShorter(xs[..|xs| - 1], k);
    }
  }
}
