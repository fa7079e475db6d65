/** `map` followed by a `filter` that drops the nulls, the shape of every
    source-list pipeline of the site, and the laws it obeys whatever the
    mapping is. */
module Lists {
  import opened Wrappers

  /** `xs.map(f).filter(x => x !== null)`, with `None` for `null`. */
  function FilterMap<A, B>(f: A -> Option<B>, xs: seq<A>): (r: seq<B>)
    ensures |r| <= |xs|
  {
    if |xs| == 0 then []
    else
      match f(xs[0])
      case None => FilterMap(f, xs[1..])
      case Some(b) => [b] + FilterMap(f, xs[1..])
  }

  /** The filter keeps the input order: mapping two concatenated lists
      gives the concatenated results. */
  lemma {:induction false} FilterMapAppend<A, B>(f: A -> Option<B>, xs: seq<A>, ys: seq<A>)
    ensures FilterMap(f, xs + ys) == FilterMap(f, xs) + FilterMap(f, ys)
    decreases |xs|
  {
    if |xs| > 0 {
      assert (xs + ys)[0] == xs[0];
      assert (xs + ys)[1..] == xs[1..] + ys;
      FilterMapAppend(f, xs[1..], ys);
    } else {
      assert xs + ys == ys;
    }
  }

  /** Nothing survives exactly when every element maps to `None`. */
  lemma {:induction false} FilterMapEmpty<A, B>(f: A -> Option<B>, xs: seq<A>)
    ensures |FilterMap(f, xs)| == 0 <==> forall i :: 0 <= i < |xs| ==> f(xs[i]).None?
    decreases |xs|
  {
    if |xs| > 0 {
      FilterMapEmpty(f, xs[1..]);
      assert forall i :: 1 <= i < |xs| ==> xs[1..][i - 1] == xs[i];
    }
  }

  /** A property of every value `f` produces holds of every survivor. */
  lemma {:induction false} FilterMapAll<A, B>(f: A -> Option<B>, xs: seq<A>, P: B -> bool)
    requires forall i :: 0 <= i < |xs| && f(xs[i]).Some? ==> P(f(xs[i]).value)
    ensures forall k :: 0 <= k < |FilterMap(f, xs)| ==> P(FilterMap(f, xs)[k])
    decreases |xs|
  {
    if |xs| > 0 {
      assert forall i :: 0 <= i < |xs[1..]| ==> xs[1..][i] == xs[i + 1];
      FilterMapAll(f, xs[1..], P);
    }
  }

  /** When every element maps to a value, the result is those values. */
  lemma {:induction false} FilterMapTotal<A, B>(f: A -> Option<B>, xs: seq<A>, ys: seq<B>)
    requires |xs| == |ys| && forall i :: 0 <= i < |xs| ==> f(xs[i]) == Some(ys[i])
    ensures FilterMap(f, xs) == ys
    decreases |xs|
  {
    if |xs| > 0 {
      FilterMapTotal(f, xs[1..], ys[1..]);
      assert ys == [ys[0]] + ys[1..];
    }
  }
}
