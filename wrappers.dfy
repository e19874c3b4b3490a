/** Optional values: JavaScript's `null`/`undefined` on the one hand, a present value on the other. */
module Wrappers {

  datatype Option<+T> = None | Some(value: T) {

    /** The value when present, `default` otherwise (JavaScript's `x ?? default`). */
    function GetOr(default: T): T {
      match this
      case Some(v) => v
      case None => default
    }
  }

  /** The present values, in order (`.filter(Boolean)` on a mapped array). */
  function Present<T>(xs: seq<Option<T>>): seq<T> {
    if xs == [] then []
    else Present(xs[..|xs| - 1]) + (if xs[|xs| - 1].Some? then [xs[|xs| - 1].value] else [])
  }

  lemma {:induction false} PresentAppend<T>(xs: seq<Option<T>>, ys: seq<Option<T>>)
    ensures Present(xs + ys) == Present(xs) + Present(ys)
  {
    if ys == [] {
      assert xs + ys == xs;
    } else {
      var init, last := ys[..|ys| - 1], ys[|ys| - 1];
      assert xs + ys == (xs + init) + [last];
      assert (xs + ys)[..|xs + ys| - 1] == xs + init;
      PresentAppend(xs, init);
    }
  }

  lemma {:induction false} PresentMembers<T>(xs: seq<Option<T>>, v: T)
    ensures |Present(xs)| <= |xs|
    ensures v in Present(xs) <==> Some(v) in xs
  {
    if xs != [] {
      var init := xs[..|xs| - 1];
      PresentMembers(init, v);
      assert xs == init + [xs[|xs| - 1]];
    }
  }

  /** `xs.find(p)`: the first element satisfying `p`, or nothing when none does. */
  function Find<T>(xs: seq<T>, p: T -> bool): (r: Option<T>)
    ensures r.Some? ==> r.value in xs && p(r.value)
    ensures r.None? <==> forall i :: 0 <= i < |xs| ==> !p(xs[i])
  {
    if xs == [] then None
    else if p(xs[0]) then Some(xs[0])
    else
      var r := Find(xs[1..], p);
      assert forall i :: 1 <= i < |xs| ==> xs[i] == xs[1..][i - 1];
      r
  }

  /** The element found is the first that satisfies `p`. */
  lemma {:induction false} FindFirst<T>(xs: seq<T>, p: T -> bool)
    requires Find(xs, p).Some?
    ensures exists i :: 0 <= i < |xs| && xs[i] == Find(xs, p).value && forall k :: 0 <= k < i ==> !p(xs[k])
  {
    if !p(xs[0]) {
      FindFirst(xs[1..], p);
      var i :| 0 <= i < |xs[1..]| && xs[1..][i] == Find(xs[1..], p).value && forall k :: 0 <= k < i ==> !p(xs[1..][k]);
      assert xs[i + 1] == Find(xs, p).value;
      forall k | 0 <= k < i + 1 ensures !p(xs[k]) {
        if k > 0 {
          assert xs[k] == xs[1..][k - 1];
        }
      }
    }
  }
}
