/** The older handlers of handler/user.go, which take the user id from the
    path as a positive integer and hand it to the store as an `int32`. The
    request body's user type and its validation belong to a different
    package, so decoding and validation enter as outcomes. Several of these
    handlers keep going after writing an error status; the first write
    still decides what the client sees. */
module HandlerUser {
  import opened Wrappers
  import opened GoInt
  import opened Http

  /** The store call a handler issues, with the `int32` id it passes. */
  datatype StoreCall =
    | GetUserCall(id: Int32)
    | UpdateUserCall(id: Int32)
    | DeleteUserCall(id: Int32)

  type Reply = Http.Reply<StoreCall>

  /** The id check as written: non-empty, `strconv.Atoi` succeeds, the
      64-bit value is positive, then `int32(userId)` truncates it. */
  function PathIdAsWritten(param: string): (r: Option<Int32>)
    ensures r.Some? <==> param != "" && Atoi(param).Some? && Atoi(param).value > 0
    ensures r.Some? ==> r.value == WrapInt32(Atoi(param).value)
  {
    if param == "" then None
    else
      match Atoi(param)
      case None => None
      case Some(userId) => if userId <= 0 then None else Some(WrapInt32(userId))
  }

  /** The guard `userId <= 0` is checked before the truncation, so the
      path id "2147483648" passes it and reaches the store as the negative
      id -2147483648. */
  lemma PathIdAsWrittenWraps()
    ensures FormatInt(MaxInt32 + 1) == "2147483648"
    ensures PathIdAsWritten("2147483648") == Some(MinInt32)
  {
    // the rendering, one digit at a time
    assert NatDigits(2) == "2";
    assert NatDigits(21) == "21";
    assert NatDigits(214) == "214";
    assert NatDigits(2147) == "2147";
    assert NatDigits(21474) == "21474";
    assert NatDigits(214748) == "214748";
    assert NatDigits(2147483) == "2147483";
    assert NatDigits(21474836) == "21474836";
    assert NatDigits(214748364) == "214748364";
    AtoiFormatInt(MaxInt32 + 1);
  }

  /** "4294967296" is 2^32: it passes the guard too and reaches the store
      as the id 0, which the guard was there to refuse. */
  lemma PathIdAsWrittenWrapsToZero()
    ensures FormatInt(0x1_0000_0000) == "4294967296"
    ensures PathIdAsWritten("4294967296") == Some(0)
  {
    // the rendering, one digit at a time
    assert NatDigits(4) == "4";
    assert NatDigits(42) == "42";
    assert NatDigits(429) == "429";
    assert NatDigits(4294) == "4294";
    assert NatDigits(42949) == "42949";
    assert NatDigits(429496) == "429496";
    assert NatDigits(4294967) == "4294967";
    assert NatDigits(42949672) == "42949672";
    assert NatDigits(429496729) == "429496729";
    AtoiFormatInt(0x1_0000_0000);
  }

  /** The id check with the evident intent kept: only ids that are positive
      and fit an `int32` are accepted, and they are passed on unchanged. */
  function PathId(param: string): (r: Option<Int32>)
    ensures r.Some? <==> param != "" && Atoi(param).Some? && 0 < Atoi(param).value <= MaxInt32
    ensures r.Some? ==> r.value > 0 && Atoi(param) == Some(r.value as Int64)
  {
    if param == "" then None
    else
      match Atoi(param)
      case None => None
      case Some(userId) => if userId <= 0 || userId > MaxInt32 then None else Some(userId)
  }

  /** Both checks agree on every id that fits an `int32`; they differ only
      where the written one wraps. */
  lemma PathIdAgreesInRange(param: string)
    requires Atoi(param).Some? && Atoi(param).value <= MaxInt32
    ensures PathId(param) == PathIdAsWritten(param)
  {
  }

  /** Any positive `int32` rendered in decimal is accepted and comes back
      as itself; "0" and negative renderings are refused. */
  lemma PathIdOfRendering(id: Int32)
    ensures id > 0 ==> PathId(FormatInt(id)) == Some(id)
    ensures id <= 0 ==> PathId(FormatInt(id)).None?
  {
    AtoiFormatInt(id);
  }

  /** `GetUser` once the id check has run: a refused id is 400; a store
      error writes 500 and then falls through to encode the zero user and
      write 200, which changes nothing. */
  function GetUserFlow(id: Option<Int32>, storeErr: Option<string>): (r: Reply)
    ensures r.call.Some? <==> id.Some?
    ensures r.call.Some? ==> r.call.value == GetUserCall(id.value)
  {
    match id
    case None => Reject(StatusBadRequest)
    case Some(userId) =>
      var call := Some(GetUserCall(userId));
      if storeErr.Some? then Reply([WriteHeader(StatusInternalServerError), WriteBody, WriteHeader(StatusOK)], call)
      else Reply([WriteBody, WriteHeader(StatusOK)], call)
  }

  /** `UpdateUser` once the id check has run: refused id (400), undecodable
      body (500), invalid user (400), store error (500), in that order,
      else 204. */
  function UpdateUserFlow(id: Option<Int32>, decoded: bool, validationErr: Option<string>, storeErr: Option<string>): (r: Reply)
    ensures r.call.Some? <==> id.Some? && decoded && validationErr.None?
    ensures r.call.Some? ==> r.call.value == UpdateUserCall(id.value)
  {
    match id
    case None => Reject(StatusBadRequest)
    case Some(userId) =>
      if !decoded then Reject(StatusInternalServerError)
      else if validationErr.Some? then Reject(StatusBadRequest)
      else
        var call := Some(UpdateUserCall(userId));
        if storeErr.Some? then Reply([WriteHeader(StatusInternalServerError)], call)
        else Reply([WriteHeader(StatusNoContent)], call)
  }

  /** `DeleteUser` once the id check has run: a refused id is 400; a store
      error writes 500 and then falls through to write 204, which changes
      nothing. */
  function DeleteUserFlow(id: Option<Int32>, storeErr: Option<string>): (r: Reply)
    ensures r.call.Some? <==> id.Some?
    ensures r.call.Some? ==> r.call.value == DeleteUserCall(id.value)
  {
    match id
    case None => Reject(StatusBadRequest)
    case Some(userId) =>
      var call := Some(DeleteUserCall(userId));
      if storeErr.Some? then Reply([WriteHeader(StatusInternalServerError), WriteHeader(StatusNoContent)], call)
      else Reply([WriteHeader(StatusNoContent)], call)
  }

  /** `GetUser` as written: the store receives the parsed id truncated to
      `int32`. */
  function GetUser(idParam: string, storeErr: Option<string>): (r: Reply)
    ensures r.call.Some? <==> idParam != "" && Atoi(idParam).Some? && Atoi(idParam).value > 0
    ensures r.call.Some? ==> r.call.value == GetUserCall(WrapInt32(Atoi(idParam).value))
    ensures r.Code() == StatusBadRequest <==> r.call.None?
    ensures r.Code() == StatusInternalServerError <==> r.call.Some? && storeErr.Some?
    ensures r.Code() == StatusOK <==> r.call.Some? && storeErr.None?
  {
    GetUserFlow(PathIdAsWritten(idParam), storeErr)
  }

  /** `UpdateUser` as written. */
  function UpdateUser(idParam: string, decoded: bool, validationErr: Option<string>, storeErr: Option<string>): (r: Reply)
    ensures r.call.Some? <==> PathIdAsWritten(idParam).Some? && decoded && validationErr.None?
    ensures r.call.Some? ==> r.call.value == UpdateUserCall(WrapInt32(Atoi(idParam).value))
    ensures r.Code() == StatusBadRequest <==> PathIdAsWritten(idParam).None? || (decoded && validationErr.Some?)
    ensures r.Code() == StatusInternalServerError <==> PathIdAsWritten(idParam).Some? && (!decoded || (validationErr.None? && storeErr.Some?))
    ensures r.Code() == StatusNoContent <==> r.call.Some? && storeErr.None?
  {
    UpdateUserFlow(PathIdAsWritten(idParam), decoded, validationErr, storeErr)
  }

  /** `DeleteUser` as written. */
  function DeleteUser(idParam: string, storeErr: Option<string>): (r: Reply)
    ensures r.call.Some? <==> idParam != "" && Atoi(idParam).Some? && Atoi(idParam).value > 0
    ensures r.call.Some? ==> r.call.value == DeleteUserCall(WrapInt32(Atoi(idParam).value))
    ensures r.Code() == StatusBadRequest <==> r.call.None?
    ensures r.Code() == StatusInternalServerError <==> r.call.Some? && storeErr.Some?
    ensures r.Code() == StatusNoContent <==> r.call.Some? && storeErr.None?
  {
    DeleteUserFlow(PathIdAsWritten(idParam), storeErr)
  }

  /** Each handler answers with the status its outcome is meant to map to:
      its steps run in order, the first failing one decides, and the
      writes a handler makes after falling through do not change that. */
  lemma GetUserAsIntended(idParam: string, storeErr: Option<string>)
    ensures GetUser(idParam, storeErr).Code()
         == Intended(FirstFailure([Check(PathIdAsWritten(idParam).None?, Invalid), Check(storeErr.Some?, Failed)], Served))
  {
    FirstFailure2(Check(PathIdAsWritten(idParam).None?, Invalid), Check(storeErr.Some?, Failed), Served);
  }

  lemma UpdateUserAsIntended(idParam: string, decoded: bool, validationErr: Option<string>, storeErr: Option<string>)
    ensures UpdateUser(idParam, decoded, validationErr, storeErr).Code()
         == Intended(FirstFailure([Check(PathIdAsWritten(idParam).None?, Invalid), Check(!decoded, Failed),
                                   Check(validationErr.Some?, Invalid), Check(storeErr.Some?, Failed)], Changed))
  {
    FirstFailure4(Check(PathIdAsWritten(idParam).None?, Invalid), Check(!decoded, Failed),
                  Check(validationErr.Some?, Invalid), Check(storeErr.Some?, Failed), Changed);
  }

  lemma DeleteUserAsIntended(idParam: string, storeErr: Option<string>)
    ensures DeleteUser(idParam, storeErr).Code()
         == Intended(FirstFailure([Check(PathIdAsWritten(idParam).None?, Invalid), Check(storeErr.Some?, Failed)], Changed))
  {
    FirstFailure2(Check(PathIdAsWritten(idParam).None?, Invalid), Check(storeErr.Some?, Failed), Changed);
  }

  /** Ids past the `int32` range reach the store wrapped: 2^31 as the least
      `int32`, 2^32 as 0. */
  lemma HandlersPassWrappedIds(storeErr: Option<string>, decoded: bool)
    ensures GetUser("2147483648", storeErr).call == Some(GetUserCall(MinInt32))
    ensures GetUser("4294967296", storeErr).call == Some(GetUserCall(0))
    ensures DeleteUser("4294967296", storeErr).call == Some(DeleteUserCall(0))
    ensures decoded ==> UpdateUser("4294967296", decoded, None, storeErr).call == Some(UpdateUserCall(0))
  {
    PathIdAsWrittenWraps();
    PathIdAsWrittenWrapsToZero();
  }

  /** The three handlers with the corrected id check: the store only ever
      receives the positive `int32` the path spells. */
  function GetUserChecked(idParam: string, storeErr: Option<string>): (r: Reply)
    ensures r.call.Some? <==> PathId(idParam).Some?
    ensures r.call.Some? ==> r.call.value.id > 0 && Atoi(idParam) == Some(r.call.value.id as Int64)
    ensures r.Code() == StatusBadRequest <==> r.call.None?
  {
    GetUserFlow(PathId(idParam), storeErr)
  }

  function UpdateUserChecked(idParam: string, decoded: bool, validationErr: Option<string>, storeErr: Option<string>): (r: Reply)
    ensures r.call.Some? <==> PathId(idParam).Some? && decoded && validationErr.None?
    ensures r.call.Some? ==> r.call.value.id > 0 && Atoi(idParam) == Some(r.call.value.id as Int64)
    ensures PathId(idParam).None? ==> r.Code() == StatusBadRequest
  {
    UpdateUserFlow(PathId(idParam), decoded, validationErr, storeErr)
  }

  function DeleteUserChecked(idParam: string, storeErr: Option<string>): (r: Reply)
    ensures r.call.Some? <==> PathId(idParam).Some?
    ensures r.call.Some? ==> r.call.value.id > 0 && Atoi(idParam) == Some(r.call.value.id as Int64)
    ensures r.Code() == StatusBadRequest <==> r.call.None?
  {
    DeleteUserFlow(PathId(idParam), storeErr)
  }

  /** The written and the corrected handlers answer alike, and make the
      same store call, on every path id that parses within `int32` range. */
  lemma CheckedAgreesInRange(idParam: string, decoded: bool, validationErr: Option<string>, storeErr: Option<string>)
    requires Atoi(idParam).Some? && Atoi(idParam).value <= MaxInt32
    ensures GetUserChecked(idParam, storeErr) == GetUser(idParam, storeErr)
    ensures UpdateUserChecked(idParam, decoded, validationErr, storeErr) == UpdateUser(idParam, decoded, validationErr, storeErr)
    ensures DeleteUserChecked(idParam, storeErr) == DeleteUser(idParam, storeErr)
  {
    PathIdAgreesInRange(idParam);
  }

  /** The path id "0" is refused with 400 by every handler, and the store is
      not called. */
  lemma ZeroIdRefused(storeErr: Option<string>)
    ensures GetUser("0", storeErr) == Reject(StatusBadRequest)
    ensures DeleteUser("0", storeErr) == Reject(StatusBadRequest)
    ensures forall decoded: bool, v: Option<string> :: UpdateUser("0", decoded, v, storeErr) == Reject(StatusBadRequest)
  {
    assert Atoi("0") == Some(0) by {
      assert "0"[..0] == [];
    }
  }
}
