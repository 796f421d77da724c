/** What a Go `http.ResponseWriter` makes of a handler's writes: the first
    write commits the status line. An explicit `WriteHeader(code)` commits
    `code`; a body write before any header commits 200; every later
    `WriteHeader` is superfluous and ignored; a handler that writes nothing
    answers 200. */
module Http {
  import opened Wrappers

  const StatusOK: int := 200
  const StatusCreated: int := 201
  const StatusNoContent: int := 204
  const StatusBadRequest: int := 400
  const StatusNotFound: int := 404
  const StatusInternalServerError: int := 500

  datatype Write = WriteHeader(code: int) | WriteBody

  /** The status the client receives for a handler's writes, in order. */
  function Status(writes: seq<Write>): (code: int)
    ensures code == StatusOK || (|writes| > 0 && writes[0] == WriteHeader(code))
    ensures |writes| > 0 && writes[0].WriteHeader? ==> code == writes[0].code
  {
    if |writes| > 0 && writes[0].WriteHeader? then writes[0].code else StatusOK
  }

  /** A handler's writes to the response, and the store call it issued, if
      any. */
  datatype Reply<Call> = Reply(writes: seq<Write>, call: Option<Call>) {
    function Code(): int {
      Status(writes)
    }
  }

  /** An early return after `w.WriteHeader(code)`, before any store call. */
  function Reject<Call>(code: int): (r: Reply<Call>)
    ensures r.call.None? && r.Code() == code
  {
    Reply([WriteHeader(code)], None)
  }

  /** What a request comes to: bad input from the client, a lookup with no hit, any other failure, or one
      of three successes: a result in the body, a new user, or a change
      with nothing to return. */
  datatype Outcome = Invalid | NotFound | Failed | Served | Created | Changed {
    predicate Success() {
      Served? || Created? || Changed?
    }
  }

  /** The status each outcome is meant to reach the client as: client
      errors 400, a missing user 404, any other failure 500, and the three
      successes 200, 201 and 204. Distinct outcomes get distinct statuses. */
  function Intended(o: Outcome): (code: int)
    ensures o.Invalid? <==> code == StatusBadRequest
    ensures o.NotFound? <==> code == StatusNotFound
    ensures o.Failed? <==> code == StatusInternalServerError
    ensures o.Success() <==> 200 <= code < 300
    ensures o.Served? <==> code == StatusOK
    ensures o.Created? <==> code == StatusCreated
    ensures o.Changed? <==> code == StatusNoContent
  {
    match o
    case Invalid => StatusBadRequest
    case NotFound => StatusNotFound
    case Failed => StatusInternalServerError
    case Served => StatusOK
    case Created => StatusCreated
    case Changed => StatusNoContent
  }

  /** One step of a handler: the outcome it ends the request with when it
      fails, or `None` when it passes. */
  function Check(fails: bool, o: Outcome): Option<Outcome> {
    if fails then Some(o) else None
  }

  /** A handler's steps run in order and the first failing one decides the
      outcome; when every step passes, the request succeeds. */
  function FirstFailure(steps: seq<Option<Outcome>>, success: Outcome): (o: Outcome)
    ensures (forall i :: 0 <= i < |steps| ==> steps[i].None?) ==> o == success
    ensures forall i :: 0 <= i < |steps| && steps[i].Some? && (forall j :: 0 <= j < i ==> steps[j].None?) ==> o == steps[i].value
  {
    if |steps| == 0 then success
    else if steps[0].Some? then steps[0].value
    else FirstFailure(steps[1..], success)
  }

  /** Handlers of two, three and four steps, spelled out. */
  lemma FirstFailure2(a: Option<Outcome>, b: Option<Outcome>, success: Outcome)
    ensures FirstFailure([a, b], success)
         == if a.Some? then a.value else if b.Some? then b.value else success
  {
    assert [a, b][1..] == [b];
    assert [b][1..] == [];
  }

  lemma FirstFailure3(a: Option<Outcome>, b: Option<Outcome>, c: Option<Outcome>, success: Outcome)
    ensures FirstFailure([a, b, c], success)
         == if a.Some? then a.value else if b.Some? then b.value else if c.Some? then c.value else success
  {
    assert [a, b, c][1..] == [b, c];
    FirstFailure2(b, c, success);
  }

  lemma FirstFailure4(a: Option<Outcome>, b: Option<Outcome>, c: Option<Outcome>, d: Option<Outcome>, success: Outcome)
    ensures FirstFailure([a, b, c, d], success)
         == if a.Some? then a.value else if b.Some? then b.value else if c.Some? then c.value else if d.Some? then d.value else success
  {
    assert [a, b, c, d][1..] == [b, c, d];
    FirstFailure3(b, c, d, success);
  }

  /** Once something is written, nothing written afterwards changes the
      status. */
  lemma StatusCommitted(writes: seq<Write>, later: seq<Write>)
    requires |writes| > 0
    ensures Status(writes + later) == Status(writes)
  {
    assert (writes + later)[0] == writes[0];
  }
}
