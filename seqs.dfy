/** Element-wise maps and sums over sequences, used for the parallel column lists. */
module Seqs {
  import opened Wrappers

  /** The list comprehension [f(x) for x in s]. */
  function MapSeq<A, B>(s: seq<A>, f: A -> B): (r: seq<B>)
    ensures |r| == |s|
    ensures forall i :: 0 <= i < |s| ==> r[i] == f(s[i])
  {
    seq(|s|, i requires 0 <= i < |s| => f(s[i]))
  }

  lemma {:induction false} MapSeqAppend<A, B>(s: seq<A>, x: A, f: A -> B)
    ensures MapSeq(s + [x], f) == MapSeq(s, f) + [f(x)]
  {
  }

  function Sum(s: seq<nat>): nat
    decreases |s|
  {
    if s == [] then 0 else Sum(s[..|s| - 1]) + s[|s| - 1]
  }

  /** The sum of the products of two equally long columns. */
  function Dot(ms: seq<real>, cs: seq<nat>): real
    requires |ms| == |cs|
    decreases |ms|
  {
    if ms == [] then 0.0 else Dot(ms[..|ms| - 1], cs[..|cs| - 1]) + ms[|ms| - 1] * cs[|cs| - 1] as real
  }

  /** A loop that applies a fallible step to each element in turn and stops at the first
      failure: every result, or the error of the first element that fails. */
  function MapResult<A, B>(xs: seq<A>, f: A -> Result<B>): (r: Result<seq<B>>)
    ensures r.Ok? <==> forall j :: 0 <= j < |xs| ==> f(xs[j]).Ok?
    ensures r.Ok? ==> (|r.value| == |xs| && forall j :: 0 <= j < |xs| ==> f(xs[j]) == Ok(r.value[j]))
    ensures r.Err? ==> exists j :: 0 <= j < |xs| && f(xs[j]) == Err(r.error)
                          && forall k :: 0 <= k < j ==> f(xs[k]).Ok?
    decreases |xs|
  {
    if xs == [] then Ok([])
    else
      var init := xs[..|xs| - 1];
      assert forall j :: 0 <= j < |init| ==> init[j] == xs[j];
      match MapResult(init, f)
      case Err(e) => Err(e)
      case Ok(ys) =>
        match f(xs[|xs| - 1])
        case Err(e) => Err(e)
        case Ok(y) => Ok(ys + [y])
  }
  /** ys holds the results of f on the first |ys| elements of xs: the state of a loop that
      applies f to each element in turn. */
  ghost predicate MappedPrefix<A, B>(xs: seq<A>, f: A -> Result<B>, ys: seq<B>) {
    |ys| <= |xs| && forall k :: 0 <= k < |ys| ==> f(xs[k]) == Ok(ys[k])
  }

  lemma {:induction false} MappedStep<A, B>(xs: seq<A>, f: A -> Result<B>, ys: seq<B>, y: B)
    requires MappedPrefix(xs, f, ys) && |ys| < |xs| && f(xs[|ys|]) == Ok(y)
    ensures MappedPrefix(xs, f, ys + [y])
  {
    var next := ys + [y];
    forall k | 0 <= k < |next| ensures f(xs[k]) == Ok(next[k]) {
      if k < |ys| {
        assert next[k] == ys[k];
      }
    }
  }

  /** The loop stops at the first element that fails, with its error. */
  lemma {:induction false} MappedFailure<A, B>(xs: seq<A>, f: A -> Result<B>, ys: seq<B>)
    requires MappedPrefix(xs, f, ys) && |ys| < |xs| && f(xs[|ys|]).Err?
    ensures MapResult(xs, f) == Err(f(xs[|ys|]).error)
  {
    var i := |ys|;
    var r := MapResult(xs, f);
    var j :| 0 <= j < |xs| && f(xs[j]) == Err(r.error) && forall k :: 0 <= k < j ==> f(xs[k]).Ok?;
    assert f(xs[i]).Err? && f(xs[j]).Err?;
  }

  /** The first element that fails decides the error. */
  lemma {:induction false} FirstFailing<A, B>(xs: seq<A>, f: A -> Result<B>, i: nat)
    requires i < |xs| && f(xs[i]).Err? && forall k :: 0 <= k < i ==> f(xs[k]).Ok?
    ensures MapResult(xs, f) == Err(f(xs[i]).error)
  {
    var r := MapResult(xs, f);
    var j :| 0 <= j < |xs| && f(xs[j]) == Err(r.error) && forall k :: 0 <= k < j ==> f(xs[k]).Ok?;
    assert f(xs[i]).Err? && f(xs[j]).Err?;
  }

  /** The loop that passes every element has computed MapResult. */
  lemma {:induction false} MappedPass<A, B>(xs: seq<A>, f: A -> Result<B>, ys: seq<B>)
    requires MappedPrefix(xs, f, ys) && |ys| == |xs|
    ensures MapResult(xs, f) == Ok(ys)
  {
    var r := MapResult(xs, f);
    assert r.Ok? by {
      forall j | 0 <= j < |xs| ensures f(xs[j]).Ok? {
        assert f(xs[j]) == Ok(ys[j]);
      }
    }
    assert r.value == ys;
  }

  /** Two steps that agree on every element give the same loop result. */
  lemma {:induction false} MapResultAgree<A, B>(xs: seq<A>, f: A -> Result<B>, g: A -> Result<B>)
    requires forall j :: 0 <= j < |xs| ==> f(xs[j]) == g(xs[j])
    ensures MapResult(xs, f) == MapResult(xs, g)
    decreases |xs|
  {
    if xs != [] {
      var init := xs[..|xs| - 1];
      assert forall j :: 0 <= j < |init| ==> init[j] == xs[j];
      MapResultAgree(init, f, g);
    }
  }
}
