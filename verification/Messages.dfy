/** What travels over one multiplexed RPC connection, at the granularity of whole frames. */
module Messages {
  import opened Wrappers

  /** One request. `caller` stands for its content: it is the index of the SendRequest call that owns it. */
  datatype Request = Request(id: nat, caller: nat)

  /** A request frame: the two header fields the server looks at, and the decoded body. */
  datatype RequestFrame = RequestFrame(headerId: nat, bodyLength: nat, body: Request)

  datatype Verdict = Handled | HandlerError | TooLarge

  /** A response. The frame header carries `id`; `about` is the request the response was computed from. */
  datatype Response = Response(id: nat, verdict: Verdict, about: Request)

  /** The first response carrying `id`, in stream order. */
  function First(rs: seq<Response>, id: nat): (r: Option<Response>)
  {
    if rs == [] then None
    else
      var earlier := First(rs[..|rs| - 1], id);
      if earlier.Some? then earlier
      else if rs[|rs| - 1].id == id then Some(rs[|rs| - 1])
      else None
  }

  lemma {:induction false} FirstFinds(rs: seq<Response>, id: nat)
    ensures First(rs, id).None? <==> forall x :: x in rs ==> x.id != id
    ensures First(rs, id).Some? ==> First(rs, id).value in rs && First(rs, id).value.id == id
  {
    if rs != [] {
      FirstFinds(rs[..|rs| - 1], id);
      assert rs == rs[..|rs| - 1] + [rs[|rs| - 1]];
    }
  }

  lemma FirstAfterAppend(rs: seq<Response>, r: Response, id: nat)
    ensures First(rs + [r], id) ==
      if First(rs, id).Some? then First(rs, id) else if r.id == id then Some(r) else None
  {
    assert (rs + [r])[..|rs + [r]| - 1] == rs;
  }

  /** More traffic never changes which response comes first. */
  lemma {:induction false} FirstIsStable(rs: seq<Response>, more: seq<Response>, id: nat)
    requires First(rs, id).Some?
    ensures First(rs + more, id) == First(rs, id)
  {
    if more == [] {
      assert rs + more == rs;
    } else {
      FirstIsStable(rs, more[..|more| - 1], id);
      assert (rs + more)[..|rs + more| - 1] == rs + more[..|more| - 1];
    }
  }
}
