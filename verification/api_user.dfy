/** The request-decision logic of the HTTP handlers in api/user.go. Each
    handler is a function from what it reads (the route variables, the
    decoded body, whether the store client could be built) and what the
    store answers to the writes it makes and the store call it issues.
    Tracing, logging and JSON are left out; a store answer the handler never
    asks for is ignored. */
module ApiUser {
  import opened Wrappers
  import opened GoInt
  import opened Users
  import opened Counter
  import opened Http

  const DefaultLimit: Int64 := 10
  const DefaultOffset: Int64 := 0

  /** The error text the store returns for a by-id lookup with no hit. */
  const NilHit: string := "nil hit"

  /** The store call a handler issues, with the arguments it passes. */
  datatype StoreCall =
    | GetAllCall(limit: Int64, offset: Int64)
    | GetByIdCall(id: string)
    | CreateCall(user: User)
    | UpdateCall(user: User)
    | DeleteCall(id: string)

  type Reply = Http.Reply<StoreCall>

  /** The `limit` route variable of `GetAll` (`getParam` reads
      `mux.Vars`). The route in main.go always supplies it; it is absent
      only on a route without it, and then means 10. A
      non-integer is an error, and a value of 0 or less falls back to 10. */
  function ParseLimit(param: string): (r: Option<Int64>)
    ensures r.Some? ==> r.value >= 1
    ensures param == "" ==> r == Some(DefaultLimit)
    ensures param != "" ==> (r.None? <==> Atoi(param).None?)
    ensures param != "" && r.Some? ==> r.value == Atoi(param).value || (Atoi(param).value <= 0 && r.value == DefaultLimit)
    ensures param != "" && Atoi(param).Some? && Atoi(param).value > 0 ==> r == Atoi(param)
  {
    if param == "" then Some(DefaultLimit)
    else
      match Atoi(param)
      case None => None
      case Some(limit) => if limit <= 0 then Some(DefaultLimit) else Some(limit)
  }

  /** The `offset` route variable of `GetAll`: absent (on a route without
      it) means 0, a
      non-integer is an error, and a negative value is raised to 0. */
  function ParseOffset(param: string): (r: Option<Int64>)
    ensures r.Some? ==> r.value >= 0
    ensures param == "" ==> r == Some(DefaultOffset)
    ensures param != "" ==> (r.None? <==> Atoi(param).None?)
    ensures param != "" && r.Some? ==> r.value == Atoi(param).value || (Atoi(param).value < 0 && r.value == 0)
    ensures param != "" && Atoi(param).Some? && Atoi(param).value >= 0 ==> r == Atoi(param)
  {
    if param == "" then Some(DefaultOffset)
    else
      match Atoi(param)
      case None => None
      case Some(offset) => if offset < 0 then Some(0) else Some(offset)
  }

  /** `GetAll`: the store is asked for the normalised limit and offset. */
  function GetAll(clientOk: bool, limitParam: string, offsetParam: string, users: Result<seq<User>, string>): (r: Reply)
    ensures r.call.Some? ==> r.call.value.GetAllCall? && r.call.value.limit >= 1 && r.call.value.offset >= 0
    ensures r.call.Some? <==> clientOk && ParseLimit(limitParam).Some? && ParseOffset(offsetParam).Some?
    ensures r.call.Some? ==> r.call.value == GetAllCall(ParseLimit(limitParam).value, ParseOffset(offsetParam).value)
    ensures clientOk && limitParam == "" && offsetParam == "" ==> r.call == Some(GetAllCall(10, 0))
    ensures r.call.None? ==> r.Code() == StatusInternalServerError
    ensures r.Code() == StatusOK <==> r.call.Some? && users.Success?
    ensures r.Code() == StatusOK || r.Code() == StatusInternalServerError
  {
    if !clientOk then Reject<StoreCall>(StatusInternalServerError)
    else
      match (ParseLimit(limitParam), ParseOffset(offsetParam))
      case (None, _) => Reject<StoreCall>(StatusInternalServerError)
      case (_, None) => Reject<StoreCall>(StatusInternalServerError)
      case (Some(limit), Some(offset)) =>
        var call := Some(GetAllCall(limit, offset));
        if users.Failure? then Reply([WriteHeader(StatusInternalServerError)], call)
        else Reply([WriteBody, WriteHeader(StatusOK)], call)
  }

  /** The limit and offset reach the store as the client wrote them when
      in range, and normalised when not: "5" stays 5, "-3" and "0"
      become the default limit 10, "-1" becomes offset 0, and a
      non-integer such as "5x" is a 500 with no store call. */
  lemma GetAllNormalisesPaging(users: Result<seq<User>, string>)
    ensures GetAll(true, "5", "7", users).call == Some(GetAllCall(5, 7))
    ensures GetAll(true, "-3", "-1", users).call == Some(GetAllCall(DefaultLimit, 0))
    ensures GetAll(true, "0", "", users).call == Some(GetAllCall(DefaultLimit, DefaultOffset))
    ensures GetAll(true, "5x", "", users) == Reject(StatusInternalServerError)
    ensures GetAll(true, "", "+", users) == Reject(StatusInternalServerError)
  {
    assert Atoi("5") == Some(5) by { assert "5"[..0] == []; }
    assert Atoi("7") == Some(7) by { assert "7"[..0] == []; }
    assert Atoi("0") == Some(0) by { assert "0"[..0] == []; }
    assert Atoi("-3") == Some(-3) by { assert "-3"[1..] == "3"; assert "3"[..0] == []; }
    assert Atoi("-1") == Some(-1) by { assert "-1"[1..] == "1"; assert "1"[..0] == []; }
    assert !Numeral("5x") by { assert !IsDigit("5x"[1]); }
  }

  /** What the store's answer to a by-id lookup means for the request:
      no hit, another failure, or a user to return. */
  function Lookup(found: Result<User, string>): (step: Option<Outcome>)
    ensures step == Some(NotFound) <==> found == Failure(NilHit)
    ensures step.None? <==> found.Success?
    ensures found.Failure? && found.error != NilHit ==> step == Some(Failed)
  {
    match found
    case Failure(e) => if e == NilHit then Some(NotFound) else Some(Failed)
    case Success(_) => None
  }

  /** `GetUser`: any non-empty id, "0" included, goes to the store as it
      is. */
  function GetUser(clientOk: bool, idParam: string, found: Result<User, string>): (r: Reply)
    ensures r.call.Some? <==> clientOk && idParam != ""
    ensures r.call.Some? ==> r.call.value == GetByIdCall(idParam)
    ensures r.Code() == StatusBadRequest <==> clientOk && idParam == ""
    ensures r.Code() == StatusNotFound <==> r.call.Some? && found == Failure(NilHit)
    ensures r.Code() == StatusInternalServerError <==> !clientOk || (r.call.Some? && found.Failure? && found.error != NilHit)
    ensures r.Code() == StatusOK <==> r.call.Some? && found.Success?
  {
    if !clientOk then Reject<StoreCall>(StatusInternalServerError)
    else if idParam == "" then Reject<StoreCall>(StatusBadRequest)
    else
      var call := Some(GetByIdCall(idParam));
      match found
      case Failure(e) =>
        Reply([WriteHeader(if e == NilHit then StatusNotFound else StatusInternalServerError)], call)
      case Success(_) => Reply([WriteBody, WriteHeader(StatusOK)], call)
  }

  /** What the store's create does with a user it is handed, as far as the
      handler can tell: refuse when `CheckInit` reports false, which it
      does when the index-exists call fails (no id is minted), otherwise stamp the next counter id on the document, send it
      to the index, and report the id or the write error. */
  function StoreCreate(counter: SafeCounter, u: User, ready: bool, writeErr: Option<string>): (r: (SafeCounter, Option<User>, Result<string, string>))
    ensures !ready ==> r.0 == counter && r.1.None? && r.2.Failure?
    ensures ready ==> r.1.Some? && r.1.value == u.(id := r.1.value.id) && Atoi(r.1.value.id) == Some(r.0.count)
    ensures ready && counter.count < MaxInt64 ==> r.0.count == counter.count + 1
    ensures r.2.Success? <==> ready && writeErr.None?
    ensures r.2.Success? ==> r.2.value == r.1.value.id
    ensures ready ==> r.0 == GetCount(counter).0 && r.1.value.id == GetCount(counter).1
  {
    if !ready then (counter, None, Failure("es client not init"))
    else
      var (counter', doc) := StampId(counter, u);
      match writeErr
      case Some(e) => (counter', Some(doc), Failure(e))
      case None => (counter', Some(doc), Success(doc.id))
  }

  /** A create request's reply, the counter afterwards, and the document
      sent to the index, if any. */
  datatype CreateOutcome = CreateOutcome(reply: Reply, counter: SafeCounter, indexed: Option<User>)

  /** `CreateUser` with the store's id counter shared across requests. A
      user failing `Validate` is refused with 400 before the store is asked;
      a success writes the id as the body before `WriteHeader(201)`, so the
      client receives 200. */
  function CreateUser(clientOk: bool, body: Option<User>, nowUnix: Int64, counter: SafeCounter, ready: bool, writeErr: Option<string>): (r: CreateOutcome)
    ensures r.reply.call.Some? <==> clientOk && body.Some? && Validate(body, nowUnix).None?
    ensures r.reply.call.Some? ==> r.reply.call.value == CreateCall(body.value) && body.value.id == ""
    ensures r.reply.Code() == StatusBadRequest <==> clientOk && body.Some? && Validate(body, nowUnix).Some?
    ensures r.reply.Code() == StatusOK <==> r.reply.call.Some? && ready && writeErr.None?
    ensures r.reply.Code() == StatusOK || r.reply.Code() == StatusBadRequest || r.reply.Code() == StatusInternalServerError
    ensures r.indexed.Some? ==> r.reply.call.Some? && r.indexed.value == body.value.(id := r.indexed.value.id)
    ensures r.indexed.Some? ==> Atoi(r.indexed.value.id) == Some(r.counter.count)
    ensures r.indexed.None? ==> r.counter == counter
    ensures r.indexed.Some? <==> r.reply.call.Some? && ready
    ensures r.indexed.Some? ==> r.counter == GetCount(counter).0 && r.indexed.value.id == GetCount(counter).1
  {
    if !clientOk then CreateOutcome(Reject<StoreCall>(StatusInternalServerError), counter, None)
    else match body
      case None => CreateOutcome(Reject<StoreCall>(StatusInternalServerError), counter, None)
      case Some(u) =>
        if Validate(body, nowUnix).Some? then CreateOutcome(Reject<StoreCall>(StatusBadRequest), counter, None)
        else
          var call := Some(CreateCall(u));
          var (counter', indexed, result) := StoreCreate(counter, u, ready, writeErr);
          match result
          case Failure(_) => CreateOutcome(Reply([WriteHeader(StatusInternalServerError)], call), counter', indexed)
          case Success(_) => CreateOutcome(Reply([WriteBody, WriteHeader(StatusCreated)], call), counter', indexed)
  }

  /** `CreateUser` as written: `elasticsearch.NewDao` builds a new store
      object for every request, and with it a zero counter, so every
      document this handler sends to the index carries the id "1". */
  function CreateUserAsWritten(clientOk: bool, body: Option<User>, nowUnix: Int64, ready: bool, writeErr: Option<string>): (r: CreateOutcome)
    ensures r.indexed.Some? ==> r.indexed.value.id == "1"
  {
    CreateUser(clientOk, body, nowUnix, Zero, ready, writeErr)
  }

  /** Two valid users created one after the other through the handler as
      written are both indexed under the id "1": the second overwrites the
      first. */
  lemma AsWrittenCreatesCollide(u1: User, u2: User, nowUnix: Int64)
    requires Validate(Some(u1), nowUnix).None? && Validate(Some(u2), nowUnix).None?
    ensures CreateUserAsWritten(true, Some(u1), nowUnix, true, None).indexed.Some?
    ensures CreateUserAsWritten(true, Some(u2), nowUnix, true, None).indexed.Some?
    ensures CreateUserAsWritten(true, Some(u1), nowUnix, true, None).indexed.value.id
         == CreateUserAsWritten(true, Some(u2), nowUnix, true, None).indexed.value.id
  {
  }

  /** With the counter shared across requests, two successive valid creates
      index their users under the next two counter values, which differ. */
  lemma SharedCounterCreatesDistinctIds(c: SafeCounter, u1: User, u2: User, nowUnix: Int64)
    requires c.count + 2 <= MaxInt64
    requires Validate(Some(u1), nowUnix).None? && Validate(Some(u2), nowUnix).None?
    ensures var first := CreateUser(true, Some(u1), nowUnix, c, true, None);
            var second := CreateUser(true, Some(u2), nowUnix, first.counter, true, None);
            && first.indexed.Some? && second.indexed.Some?
            && Atoi(first.indexed.value.id) == Some(c.count + 1)
            && Atoi(second.indexed.value.id) == Some(c.count + 2)
            && first.indexed.value.id != second.indexed.value.id
  {
  }

  /** `UpdateUser`: `Validate` refuses any user that carries an id, so the
      store's update is only ever handed a user whose id is empty. */
  function UpdateUser(clientOk: bool, body: Option<User>, nowUnix: Int64, updateErr: Option<string>): (r: Reply)
    ensures r.call.Some? <==> clientOk && body.Some? && Validate(body, nowUnix).None?
    ensures r.call.Some? ==> r.call.value == UpdateCall(body.value) && body.value.id == ""
    ensures r.Code() == StatusBadRequest <==> clientOk && body.Some? && Validate(body, nowUnix).Some?
    ensures r.Code() == StatusNoContent <==> r.call.Some? && updateErr.None?
    ensures r.Code() == StatusInternalServerError <==> !clientOk || body.None? || (r.call.Some? && updateErr.Some?)
  {
    if !clientOk then Reject<StoreCall>(StatusInternalServerError)
    else match body
      case None => Reject<StoreCall>(StatusInternalServerError)
      case Some(u) =>
        if Validate(body, nowUnix).Some? then Reject<StoreCall>(StatusBadRequest)
        else
          var call := Some(UpdateCall(u));
          if updateErr.Some? then Reply([WriteHeader(StatusInternalServerError)], call)
          else Reply([WriteHeader(StatusNoContent)], call)
  }

  /** `DeleteUser`: the same id rule as `GetUser`. */
  function DeleteUser(clientOk: bool, idParam: string, deleteErr: Option<string>): (r: Reply)
    ensures r.call.Some? <==> clientOk && idParam != ""
    ensures r.call.Some? ==> r.call.value == DeleteCall(idParam)
    ensures r.Code() == StatusBadRequest <==> clientOk && idParam == ""
    ensures r.Code() == StatusNoContent <==> r.call.Some? && deleteErr.None?
    ensures r.Code() == StatusInternalServerError <==> !clientOk || (r.call.Some? && deleteErr.Some?)
  {
    if !clientOk then Reject<StoreCall>(StatusInternalServerError)
    else if idParam == "" then Reject<StoreCall>(StatusBadRequest)
    else
      var call := Some(DeleteCall(idParam));
      if deleteErr.Some? then Reply([WriteHeader(StatusInternalServerError)], call)
      else Reply([WriteHeader(StatusNoContent)], call)
  }

  /** Each handler answers with the status its outcome is meant to map to:
      its steps run in order and the first failing one decides. A limit or
      offset that does not parse counts as a failure of the service, as the
      source reports it with 500. */
  lemma GetAllAsIntended(clientOk: bool, limitParam: string, offsetParam: string, users: Result<seq<User>, string>)
    ensures GetAll(clientOk, limitParam, offsetParam, users).Code()
         == Intended(FirstFailure([Check(!clientOk, Failed), Check(ParseLimit(limitParam).None?, Failed),
                                   Check(ParseOffset(offsetParam).None?, Failed), Check(users.Failure?, Failed)], Served))
  {
    FirstFailure4(Check(!clientOk, Failed), Check(ParseLimit(limitParam).None?, Failed),
                  Check(ParseOffset(offsetParam).None?, Failed), Check(users.Failure?, Failed), Served);
  }

  lemma GetUserAsIntended(clientOk: bool, idParam: string, found: Result<User, string>)
    ensures GetUser(clientOk, idParam, found).Code()
         == Intended(FirstFailure([Check(!clientOk, Failed), Check(idParam == "", Invalid), Lookup(found)], Served))
  {
    FirstFailure3(Check(!clientOk, Failed), Check(idParam == "", Invalid), Lookup(found), Served);
  }

  /** A create that succeeds is meant to be 201, but the id is written as
      the body first, so the client gets 200; every other outcome maps as
      intended. */
  lemma CreateUserAsIntended(clientOk: bool, body: Option<User>, nowUnix: Int64, counter: SafeCounter, ready: bool, writeErr: Option<string>)
    ensures var o := FirstFailure([Check(!clientOk, Failed), Check(body.None?, Failed),
                                   Check(Validate(body, nowUnix).Some?, Invalid),
                                   Check(!ready || writeErr.Some?, Failed)], Created);
            && (o != Created ==> CreateUser(clientOk, body, nowUnix, counter, ready, writeErr).reply.Code() == Intended(o))
            && (o == Created ==> CreateUser(clientOk, body, nowUnix, counter, ready, writeErr).reply.Code() == StatusOK)
  {
    FirstFailure4(Check(!clientOk, Failed), Check(body.None?, Failed),
                  Check(Validate(body, nowUnix).Some?, Invalid), Check(!ready || writeErr.Some?, Failed), Created);
  }

  lemma UpdateUserAsIntended(clientOk: bool, body: Option<User>, nowUnix: Int64, updateErr: Option<string>)
    ensures UpdateUser(clientOk, body, nowUnix, updateErr).Code()
         == Intended(FirstFailure([Check(!clientOk, Failed), Check(body.None?, Failed),
                                   Check(Validate(body, nowUnix).Some?, Invalid), Check(updateErr.Some?, Failed)], Changed))
  {
    FirstFailure4(Check(!clientOk, Failed), Check(body.None?, Failed),
                  Check(Validate(body, nowUnix).Some?, Invalid), Check(updateErr.Some?, Failed), Changed);
  }

  lemma DeleteUserAsIntended(clientOk: bool, idParam: string, deleteErr: Option<string>)
    ensures DeleteUser(clientOk, idParam, deleteErr).Code()
         == Intended(FirstFailure([Check(!clientOk, Failed), Check(idParam == "", Invalid), Check(deleteErr.Some?, Failed)], Changed))
  {
    FirstFailure3(Check(!clientOk, Failed), Check(idParam == "", Invalid), Check(deleteErr.Some?, Failed), Changed);
  }
}
