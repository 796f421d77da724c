/** The user record of the service and its field validation
    (models/user.go). The clock read `time.Now().Unix()` is a parameter. */
module Users {
  import opened Wrappers
  import opened GoInt

  /** A user document. `dob` and `ctime` are Unix seconds held in Go `int32`
      fields; `id` is empty until the store assigns one. */
  datatype User = User(
    id: string,
    name: string,
    dob: Int32,
    address: string,
    description: string,
    ctime: Int32
  )

  /** The errors `Validate` returns, one per check, in check order. */
  datatype ValidationError =
    | EmptyUser
    | InvalidId
    | InvalidName
    | InvalidDob
    | InvalidAddress
    | InvalidDescription
    | InvalidCtime
  {
    /** The text of the Go error value. */
    function Message(): string {
      match this
      case EmptyUser => "empty user"
      case InvalidId => "invalid user id"
      case InvalidName => "invalid username"
      case InvalidDob => "invalid dob, expecting greater than now"
      case InvalidAddress => "invalid address"
      case InvalidDescription => "invalid description"
      case InvalidCtime => "invalid ctime"
    }

    /** Position of the check that reports this error. */
    function Rank(): nat {
      match this
      case EmptyUser => 0
      case InvalidId => 1
      case InvalidName => 2
      case InvalidDob => 3
      case InvalidAddress => 4
      case InvalidDescription => 5
      case InvalidCtime => 6
    }
  }

  /** `int32(time.Now().Unix())`: the 64-bit clock reading truncated to 32
      bits, as both comparisons in `Validate` do. */
  function Now32(nowUnix: Int64): (now: Int32)
    ensures MinInt32 <= nowUnix <= MaxInt32 ==> now == nowUnix
    ensures nowUnix == MaxInt32 + 1 ==> now == MinInt32
    ensures (nowUnix - now) % 0x1_0000_0000 == 0
  {
    WrapInt32(nowUnix)
  }

  /** `(*User).Validate`: `None` is a nil error. The checks run in a fixed
      order and the first one that fails decides the error. */
  function Validate(u: Option<User>, nowUnix: Int64): (err: Option<ValidationError>)
    ensures err.None? ==> u.Some? && u.value.id == "" && u.value.name != ""
    ensures err.None? ==> u.value.dob < Now32(nowUnix) && u.value.ctime <= Now32(nowUnix)
    ensures err.None? ==> u.value.address != "" && u.value.description != ""
    ensures u.None? <==> err == Some(EmptyUser)
  {
    match u
    case None => Some(EmptyUser)
    case Some(user) =>
      var now := Now32(nowUnix);
      if user.id != "" then Some(InvalidId)
      else if user.name == "" then Some(InvalidName)
      else if user.dob >= now then Some(InvalidDob)
      else if user.address == "" then Some(InvalidAddress)
      else if user.description == "" then Some(InvalidDescription)
      else if user.ctime > now then Some(InvalidCtime)
      else None
  }

  /** Whether the single check that reports `e` accepts `u`, judged on its
      own; every field check accepts a nil user, which the nil check
      already rejects. */
  predicate Passes(u: Option<User>, nowUnix: Int64, e: ValidationError) {
    match e
    case EmptyUser => u.Some?
    case InvalidId => u.None? || u.value.id == ""
    case InvalidName => u.None? || u.value.name != ""
    case InvalidDob => u.None? || u.value.dob < Now32(nowUnix)
    case InvalidAddress => u.None? || u.value.address != ""
    case InvalidDescription => u.None? || u.value.description != ""
    case InvalidCtime => u.None? || u.value.ctime <= Now32(nowUnix)
  }

  /** A user every check accepts. */
  predicate Valid(u: User, nowUnix: Int64) {
    forall e: ValidationError :: Passes(Some(u), nowUnix, e)
  }

  /** `Validate` reports `e` exactly when the check for `e` fails and every
      earlier check passes: the short-circuit order of the source. */
  lemma ValidateIsFirstFailure(u: Option<User>, nowUnix: Int64, e: ValidationError)
    ensures Validate(u, nowUnix) == Some(e) <==>
      !Passes(u, nowUnix, e) &&
      forall e': ValidationError :: e'.Rank() < e.Rank() ==> Passes(u, nowUnix, e')
  {
    if Validate(u, nowUnix) != Some(e) && !Passes(u, nowUnix, e) {
      // some earlier check fails; name it
      var f := Validate(u, nowUnix).value;
      assert !Passes(u, nowUnix, f) && f.Rank() < e.Rank();
    }
  }

  /** A nil error exactly when all seven checks pass. */
  lemma ValidateNilIffValid(u: Option<User>, nowUnix: Int64)
    ensures Validate(u, nowUnix).None? <==> u.Some? && Valid(u.value, nowUnix)
  {
    if Validate(u, nowUnix).Some? {
      var f := Validate(u, nowUnix).value;
      assert !Passes(u, nowUnix, f);
    }
  }

  /** An assigned id is rejected whatever the other fields hold, so an
      empty name cannot mask it. */
  lemma IdCheckedBeforeFields(u: User, nowUnix: Int64)
    requires u.id != ""
    ensures Validate(Some(u), nowUnix) == Some(InvalidId)
    ensures Validate(Some(u), nowUnix).value.Message() == "invalid user id"
  {
  }

  /** The dob bound is strict and the ctime bound is not: a user created
      this very second passes, one born this very second does not. */
  lemma TimestampBoundaries(u: User, nowUnix: Int64)
    requires u.id == "" && u.name != "" && u.address != "" && u.description != ""
    requires u.dob == Now32(nowUnix) - 1 || u.dob == Now32(nowUnix)
    requires u.ctime == Now32(nowUnix)
    ensures Validate(Some(u), nowUnix).None? <==> u.dob < Now32(nowUnix)
    ensures u.dob == Now32(nowUnix) ==> Validate(Some(u), nowUnix) == Some(InvalidDob)
  {
  }

  /** The source truncates the clock to `int32`: at 2038-01-19T03:14:08Z
      (Unix second 2^31) the truncated "now" is the most negative `int32`,
      so no birth date passes. */
  lemma ClockWrapRejectsEveryDob(u: User)
    requires u.id == "" && u.name != ""
    ensures Validate(Some(u), MaxInt32 + 1) == Some(InvalidDob)
  {
  }
}
