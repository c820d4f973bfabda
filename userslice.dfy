/**
 * redux/Slices/UserSlice.ts: the signed-in user's record, its seven one-field
 * setters, the `REVERT_ALL` reset and the selectors.
 *
 * `Reduce` is the reducer as a function of state and action; `UserDraft` is
 * the state being updated in place, as the reducers do it, and each of its
 * methods is proved to follow `Reduce`.
 */
module UserSlice {
  import opened Js

  /** The slice state; `None` stands for null. `userDetails` is untyped. */
  datatype UserState = UserState(
    username: Option<string>,
    fullname: Option<string>,
    userDetails: Any,
    baseUrl: Option<string>,
    fileId: Option<string>,
    isWfh: bool,
    qrCodeData: Option<string>)

  const InitialState := UserState(None, None, Some(JNull), None, None, false, None)

  datatype Action =
    | SetUsername(username: Option<string>)
    | SetFullname(fullname: Option<string>)
    | SetUserDetails(details: Any)
    | SetBaseUrl(baseUrl: Option<string>)
    | SetFileid(fileId: Option<string>)
    | SetIsWfh(isWfh: bool)
    | SetQrCodeData(qrCodeData: Option<string>)
    /** The app-wide `REVERT_ALL` action. */
    | RevertAll
    /** Any action this slice does not handle. */
    | Other(kind: string)

  datatype FieldName = Username | Fullname | UserDetails | BaseUrl | FileId | IsWfh | QrCodeData

  /** The field a setter writes; `None` for the reset and for foreign actions. */
  function Target(a: Action): Option<FieldName>
  {
    match a
    case SetUsername(_) => Some(Username)
    case SetFullname(_) => Some(Fullname)
    case SetUserDetails(_) => Some(UserDetails)
    case SetBaseUrl(_) => Some(BaseUrl)
    case SetFileid(_) => Some(FileId)
    case SetIsWfh(_) => Some(IsWfh)
    case SetQrCodeData(_) => Some(QrCodeData)
    case _ => None
  }

  predicate SameField(s: UserState, t: UserState, f: FieldName)
  {
    match f
    case Username => s.username == t.username
    case Fullname => s.fullname == t.fullname
    case UserDetails => s.userDetails == t.userDetails
    case BaseUrl => s.baseUrl == t.baseUrl
    case FileId => s.fileId == t.fileId
    case IsWfh => s.isWfh == t.isWfh
    case QrCodeData => s.qrCodeData == t.qrCodeData
  }

  /** The slice reducer. */
  function Reduce(s: UserState, a: Action): (r: UserState)
    ensures a.RevertAll? ==> r == InitialState
    ensures a.Other? ==> r == s
    ensures Target(a).Some? ==> forall f :: f != Target(a).value ==> SameField(s, r, f)
  {
    match a
    case SetUsername(p) => s.(username := p)
    case SetFullname(p) => s.(fullname := p)
    case SetUserDetails(p) => s.(userDetails := p)
    case SetBaseUrl(p) => s.(baseUrl := p)
    case SetFileid(p) => s.(fileId := p)
    case SetIsWfh(p) => s.(isWfh := p)
    case SetQrCodeData(p) => s.(qrCodeData := p)
    case RevertAll => InitialState
    case Other(_) => s
  }

  /** The state after dispatching `actions` in order. */
  function ReduceAll(s: UserState, actions: seq<Action>): UserState
    decreases |actions|
  {
    if actions == [] then s else ReduceAll(Reduce(s, actions[0]), actions[1..])
  }

  function SelectBaseUrl(s: UserState): Option<string> { s.baseUrl }
  function SelectFileid(s: UserState): Option<string> { s.fileId }
  function SelectIsWfh(s: UserState): bool { s.isWfh }
  function SelectName(s: UserState): Option<string> { s.fullname }
  function SelectUserDetails(s: UserState): Any { s.userDetails }
  function SelectQrCodeData(s: UserState): Option<string> { s.qrCodeData }

  /** `state.user.userDetails?.employee_code` */
  function SelectEmployeeCode(s: UserState): Any
  {
    Get(s.userDetails, "employee_code")
  }

  /** The selector reading the key under which the login screen stores the code. */
  function SelectEmployeeCodeCorrected(s: UserState): Any
  {
    Get(s.userDetails, "employeeCode")
  }

  /**
   * Each selector observes one action only: it reads its setter's payload
   * after that setter, the initial value after `REVERT_ALL`, and what it read
   * before after any other action.
   */
  lemma SelectorsObserveOwnSetter(s: UserState, a: Action)
    ensures SelectBaseUrl(Reduce(s, a)) ==
      if a.SetBaseUrl? then a.baseUrl else if a.RevertAll? then None else SelectBaseUrl(s)
    ensures SelectFileid(Reduce(s, a)) ==
      if a.SetFileid? then a.fileId else if a.RevertAll? then None else SelectFileid(s)
    ensures SelectIsWfh(Reduce(s, a)) ==
      if a.SetIsWfh? then a.isWfh else if a.RevertAll? then false else SelectIsWfh(s)
    ensures SelectName(Reduce(s, a)) ==
      if a.SetFullname? then a.fullname else if a.RevertAll? then None else SelectName(s)
    ensures SelectUserDetails(Reduce(s, a)) ==
      if a.SetUserDetails? then a.details else if a.RevertAll? then Some(JNull) else SelectUserDetails(s)
    ensures SelectQrCodeData(Reduce(s, a)) ==
      if a.SetQrCodeData? then a.qrCodeData else if a.RevertAll? then None else SelectQrCodeData(s)
    ensures SelectEmployeeCode(Reduce(s, a)) ==
      if a.SetUserDetails? then Get(a.details, "employee_code")
      else if a.RevertAll? then None else SelectEmployeeCode(s)
  {
  }

  /** Every field starts null except `isWfh`, which starts false. */
  lemma InitialStateIsEmpty()
    ensures InitialState.username.None? && InitialState.fullname.None? && InitialState.baseUrl.None?
    ensures InitialState.fileId.None? && InitialState.qrCodeData.None? && !InitialState.isWfh
    ensures InitialState.userDetails == Some(JNull)
  {
  }

  /**
   * A setter writes its payload into its own field and leaves every other
   * field as it was.
   */
  lemma SetterFrame(s: UserState, a: Action)
    requires Target(a).Some?
    ensures forall f :: f != Target(a).value ==> SameField(s, Reduce(s, a), f)
    ensures a.SetUsername? ==> Reduce(s, a).username == a.username
    ensures a.SetFullname? ==> Reduce(s, a).fullname == a.fullname
    ensures a.SetUserDetails? ==> Reduce(s, a).userDetails == a.details
    ensures a.SetBaseUrl? ==> SelectBaseUrl(Reduce(s, a)) == a.baseUrl
    ensures a.SetFileid? ==> Reduce(s, a).fileId == a.fileId
    ensures a.SetIsWfh? ==> Reduce(s, a).isWfh == a.isWfh
    ensures a.SetQrCodeData? ==> Reduce(s, a).qrCodeData == a.qrCodeData
  {
  }

  /** A second write to the same field wins; writes to different fields commute. */
  lemma SettersCompose(s: UserState, a: Action, b: Action)
    requires Target(a).Some? && Target(b).Some?
    ensures Target(a) == Target(b) ==> Reduce(Reduce(s, a), b) == Reduce(s, b)
    ensures Target(a) != Target(b) ==> Reduce(Reduce(s, a), b) == Reduce(Reduce(s, b), a)
  {
  }

  /** The reset yields the initial state from any state; foreign actions change nothing. */
  lemma RevertAllResets(s: UserState, kind: string)
    ensures Reduce(s, RevertAll) == InitialState
    ensures Reduce(s, Other(kind)) == s
  {
  }

  lemma {:induction false} ReduceAllAppend(s: UserState, a: seq<Action>, b: seq<Action>)
    ensures ReduceAll(s, a + b) == ReduceAll(ReduceAll(s, a), b)
    decreases |a|
  {
    if a == [] {
      assert a + b == b;
    } else {
      assert (a + b)[1..] == a[1..] + b;
      ReduceAllAppend(Reduce(s, a[0]), a[1..], b);
    }
  }

  /** Whatever was dispatched before, a final `REVERT_ALL` leaves the initial state. */
  lemma RevertAllAfterAnything(s: UserState, actions: seq<Action>)
    ensures ReduceAll(s, actions + [RevertAll]) == InitialState
  {
    ReduceAllAppend(s, actions, [RevertAll]);
    assert [RevertAll][1..] == [];
  }

  /**
   * `selectBaseUrl` returns the last `setBaseUrl` payload for as long as no
   * later action writes the base URL or resets the slice.
   */
  lemma {:induction false} BaseUrlPersists(s: UserState, u: Option<string>, later: seq<Action>)
    requires forall k :: 0 <= k < |later| ==> Target(later[k]) != Some(BaseUrl) && !later[k].RevertAll?
    ensures SelectBaseUrl(ReduceAll(Reduce(s, SetBaseUrl(u)), later)) == u
    decreases |later|
  {
    if later != [] {
      var t := Reduce(Reduce(s, SetBaseUrl(u)), later[0]);
      assert t.baseUrl == u;
      assert t == Reduce(t.(baseUrl := t.baseUrl), SetBaseUrl(u));
      assert forall k :: 0 <= k < |later[1..]| ==> later[1..][k] == later[k + 1];
      BaseUrlPersists(t, u, later[1..]);
    }
  }

  /** With `userDetails` null or undefined (as initially), `selectEmployeeCode` yields undefined. */
  lemma EmployeeCodeAbsentWithoutDetails(s: UserState)
    requires Nullish(s.userDetails)
    ensures SelectEmployeeCode(s).None?
    ensures SelectEmployeeCode(InitialState).None?
  {
  }

  /** The slice state as the reducers see it: a draft whose fields are assigned in place. */
  class UserDraft {
    var username: Option<string>
    var fullname: Option<string>
    var userDetails: Any
    var baseUrl: Option<string>
    var fileId: Option<string>
    var isWfh: bool
    var qrCodeData: Option<string>

    function Snapshot(): UserState
      reads this
    {
      UserState(username, fullname, userDetails, baseUrl, fileId, isWfh, qrCodeData)
    }

    constructor ()
      ensures Snapshot() == InitialState
    {
      username, fullname, userDetails, baseUrl := None, None, Some(JNull), None;
      fileId, isWfh, qrCodeData := None, false, None;
    }

    method SetUsername(payload: Option<string>)
      modifies this
      ensures Snapshot() == Reduce(old(Snapshot()), Action.SetUsername(payload))
    {
      username := payload;
    }

    method SetFullname(payload: Option<string>)
      modifies this
      ensures Snapshot() == Reduce(old(Snapshot()), Action.SetFullname(payload))
    {
      fullname := payload;
    }

    method SetUserDetails(payload: Any)
      modifies this
      ensures Snapshot() == Reduce(old(Snapshot()), Action.SetUserDetails(payload))
    {
      userDetails := payload;
    }

    method SetBaseUrl(payload: Option<string>)
      modifies this
      ensures Snapshot() == Reduce(old(Snapshot()), Action.SetBaseUrl(payload))
    {
      baseUrl := payload;
    }

    method SetFileid(payload: Option<string>)
      modifies this
      ensures Snapshot() == Reduce(old(Snapshot()), Action.SetFileid(payload))
    {
      fileId := payload;
    }

    method SetIsWfh(payload: bool)
      modifies this
      ensures Snapshot() == Reduce(old(Snapshot()), Action.SetIsWfh(payload))
    {
      isWfh := payload;
    }

    method SetQrCodeData(payload: Option<string>)
      modifies this
      ensures Snapshot() == Reduce(old(Snapshot()), Action.SetQrCodeData(payload))
    {
      qrCodeData := payload;
    }

    /** `REVERT_ALL` replaces the whole state with the initial one. */
    method Revert()
      modifies this
      ensures Snapshot() == Reduce(old(Snapshot()), RevertAll)
    {
      username, fullname, userDetails, baseUrl := None, None, Some(JNull), None;
      fileId, isWfh, qrCodeData := None, false, None;
    }

    /** `dispatch(a)` as far as this slice is concerned. */
    method Dispatch(a: Action)
      modifies this
      ensures Snapshot() == Reduce(old(Snapshot()), a)
    {
      match a
      case SetUsername(p) => SetUsername(p);
      case SetFullname(p) => SetFullname(p);
      case SetUserDetails(p) => SetUserDetails(p);
      case SetBaseUrl(p) => SetBaseUrl(p);
      case SetFileid(p) => SetFileid(p);
      case SetIsWfh(p) => SetIsWfh(p);
      case SetQrCodeData(p) => SetQrCodeData(p);
      case RevertAll => Revert();
      case Other(_) =>
    }
  }
}
