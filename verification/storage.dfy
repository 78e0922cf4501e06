/** The key-value store of the app as an explicit value: at most one current
    user and the append-only list of logs. Reading a missing key yields no
    user or no logs, never an error. */
module Storage {
  import opened Wrappers
  import opened Records
  import Text

  datatype Store = Store(user: Option<User>, logs: seq<Log>)

  /** The error the source throws when an operation needs a user and there is none. */
  datatype Error = NoUserFound

  /** A store with neither key present. */
  const EmptyStore: Store := Store(None, [])

  function GetUser(s: Store): Option<User> {
    s.user
  }

  function GetLogs(s: Store): seq<Log> {
    s.logs
  }

  /** Reading an empty store gives no user and no logs. */
  lemma EmptyStoreReads()
    ensures GetUser(EmptyStore) == None
    ensures GetLogs(EmptyStore) == []
  {
  }

  /** `saveUser`: the saved record is what `getUser` reads back; the logs are untouched. */
  function SaveUser(s: Store, u: User): (r: Store)
    ensures GetUser(r) == Some(u)
    ensures GetLogs(r) == GetLogs(s)
  {
    s.(user := Some(u))
  }

  /** `createUser`: a fresh profile, made the current user. The id and the
      creation time come from the clock, so they are parameters. */
  function CreateUser(s: Store, answers: SurveyAnswers, avatar: Avatar, id: string, now: Millis): (r: (Store, User))
    ensures GetUser(r.0) == Some(r.1)
    ensures GetLogs(r.0) == GetLogs(s)
    ensures r.1.id == id && r.1.name == "You"
    ensures r.1.avatarType == avatar && r.1.surveyAnswers == answers
    ensures r.1.xp == 0 && r.1.streak == 0 && r.1.lastLogDate == None
    ensures r.1.createdAt == now
  {
    var u := User(id, "You", avatar, answers, 0, 0, None, now);
    (SaveUser(s, u), u)
  }

  /** `addLog`: appends one log owned by the current user, or throws when there is none. */
  function AddLog(s: Store, data: LogData, id: string, now: Millis): (r: Result<(Store, Log), Error>)
    ensures r.Failure? <==> GetUser(s).None?
    ensures r.Success? ==>
      && GetLogs(r.value.0) == GetLogs(s) + [r.value.1]
      && GetUser(r.value.0) == GetUser(s)
      && r.value.1.userId == GetUser(s).value.id
      && r.value.1.data == data
      && r.value.1.id == id
      && r.value.1.timestamp == now
  {
    match s.user
    case None => Failure(NoUserFound)
    case Some(u) =>
      var log := Log(id, u.id, now, data);
      Success((Store(s.user, s.logs + [log]), log))
  }

  /** The entry every demo log carries: all five categories at their best value. */
  const PerfectDay: LogData := LogData(Some(Clean), Some(Good), Some(Happy), Some(Stress.Low), Some(Taken))

  /** `seedDemoData`: a week of perfect logs, one per day ending now, and the
      matching demo user; whatever was stored before is replaced. */
  function SeedDemoData(now: Millis): (r: Store)
    ensures GetUser(r).Some?
    ensures GetUser(r).value.streak == 7 && GetUser(r).value.xp == 210
    ensures GetUser(r).value.lastLogDate == Some(now)
    ensures |GetLogs(r)| == 7
    ensures forall i :: 0 <= i < 7 ==>
      && IsComplete(GetLogs(r)[i].data)
      && GetLogs(r)[i].userId == GetUser(r).value.id
      && GetLogs(r)[i].timestamp == now - (6 - i) * DayMillis
  {
    var user := User(
      "demo_user", "You", Explorer,
      Declared("Good", "Sometimes", "Sometimes", "Energy"),
      210, 7, Some(now), now - 7 * DayMillis);
    var logs := seq(7, i requires 0 <= i < 7 =>
      Log("log_" + Text.NatToString(i), "demo_user", now - (6 - i) * DayMillis, PerfectDay));
    Store(Some(user), logs)
  }

  /** `resetDemo`: both keys removed. */
  function ResetDemo(s: Store): (r: Store)
    ensures GetUser(r) == None && GetLogs(r) == []
  {
    EmptyStore
  }

  /** The settings page's name edit: the trimmed name is saved when it is not
      empty; without a user the page shows nothing, so nothing can be saved. */
  function Rename(s: Store, name: string): (r: Result<Store, Error>)
    ensures r.Failure? <==> GetUser(s).None?
    ensures r.Success? ==> GetLogs(r.value) == GetLogs(s)
    ensures r.Success? && Text.Trim(name) == "" ==> r.value == s
    ensures r.Success? && Text.Trim(name) != "" ==>
      GetUser(r.value) == Some(GetUser(s).value.(name := Text.Trim(name)))
  {
    match s.user
    case None => Failure(NoUserFound)
    case Some(u) =>
      var trimmed := Text.Trim(name);
      if trimmed != "" then Success(SaveUser(s, u.(name := trimmed))) else Success(s)
  }

  /** A user record the app can produce: xp never negative, and a recorded
      last log always comes with a streak of at least one day. */
  predicate UserInv(u: User) {
    u.xp >= 0 && (u.lastLogDate.Some? ==> u.streak >= 1)
  }

  /** The store's consistency: no logs without a user, and every log owned by the current user. */
  predicate StoreInv(s: Store) {
    match s.user
    case None => s.logs == []
    case Some(u) => UserInv(u) && forall i :: 0 <= i < |s.logs| ==> s.logs[i].userId == u.id
  }

  /** Every store operation keeps the consistency (creating a user only happens on an empty store). */
  lemma StoreOperationsKeepInv(s: Store, answers: SurveyAnswers, avatar: Avatar, id: string, now: Millis, data: LogData, name: string)
    requires StoreInv(s)
    ensures s.user.None? ==> StoreInv(CreateUser(s, answers, avatar, id, now).0)
    ensures AddLog(s, data, id, now).Success? ==> StoreInv(AddLog(s, data, id, now).value.0)
    ensures Rename(s, name).Success? ==> StoreInv(Rename(s, name).value)
    ensures StoreInv(SeedDemoData(now))
    ensures StoreInv(ResetDemo(s))
  {
    if AddLog(s, data, id, now).Success? {
      var s' := AddLog(s, data, id, now).value.0;
      assert forall i :: 0 <= i < |s.logs| ==> s'.logs[i] == s.logs[i];
    }
  }
}
