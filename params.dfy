/**
 * Request parameters as the HTTP clients handle them: an insertion-ordered
 * dictionary whose values may be `None`, and the filter that drops those
 * entries before a request is signed or sent.
 */
module Params {
  import opened Wrappers

  type RawParams = seq<(string, Option<string>)>
  type QueryParams = seq<(string, string)>

  /** `{k: v for k, v in params.items() if v is not None}`. */
  function DropNone(ps: RawParams): (r: QueryParams)
    ensures |r| <= |ps|
    ensures forall k, v :: (k, v) in r <==> (k, Some(v)) in ps
  {
    if ps == [] then []
    else
      var front := DropNone(ps[..|ps| - 1]);
      var (k, v) := ps[|ps| - 1];
      assert ps == ps[..|ps| - 1] + [(k, v)];
      if v.Some? then front + [(k, v.value)] else front
  }

  /** The filter keeps the order of the entries: it distributes over concatenation. */
  lemma {:induction false} DropNoneAppend(a: RawParams, b: RawParams)
    ensures DropNone(a + b) == DropNone(a) + DropNone(b)
    decreases |b|
  {
    if b != [] {
      assert (a + b)[..|a + b| - 1] == a + b[..|b| - 1];
      DropNoneAppend(a, b[..|b| - 1]);
    } else {
      assert a + b == a;
    }
  }

  /** `if params: params = {... if v is not None}`: absent or empty params pass through as they are. */
  function FilterParams(params: Option<RawParams>): (r: Option<QueryParams>)
    ensures r.None? <==> params.None?
    ensures r.Some? ==> forall k, v :: (k, v) in r.value <==> (k, Some(v)) in params.value
  {
    match params
    case None => None
    case Some(ps) => Some(DropNone(ps))
  }

  /** A dictionary with no `None` value passes through the filter unchanged, in order. */
  lemma {:induction false} DropNoneKeepsComplete(qs: QueryParams)
    ensures DropNone(Lift(qs)) == qs
  {
    if qs != [] {
      var front := qs[..|qs| - 1];
      DropNoneKeepsComplete(front);
      assert Lift(qs)[..|qs| - 1] == Lift(front);
    }
  }

  /** A filtered dictionary seen again as one whose values may be `None`. */
  function Lift(qs: QueryParams): (r: RawParams)
    ensures |r| == |qs| && forall i :: 0 <= i < |qs| ==> r[i] == (qs[i].0, Some(qs[i].1))
  {
    if qs == [] then [] else Lift(qs[..|qs| - 1]) + [(qs[|qs| - 1].0, Some(qs[|qs| - 1].1))]
  }
}
