/** The home page's handlers as transitions of the whole app state: the store
    plus whether the onboarding survey is on screen. */
module Session {
  import opened Wrappers
  import opened Records
  import opened Storage
  import opened Gamification
  import Text

  datatype App = App(store: Store, showSurvey: bool)

  /** Opening the page: the survey shows exactly when no user is stored. */
  function Open(s: Store): (a: App)
    ensures a.store == s
    ensures a.showSurvey <==> GetUser(s).None?
  {
    App(s, s.user.None?)
  }

  /** `handleSurveyComplete`: creates the user from the survey's own answers and leaves the survey. */
  function SurveyComplete(app: App, answers: OnboardingAnswers, avatar: Avatar, id: string, now: Millis): (r: App)
    ensures !r.showSurvey
    ensures GetLogs(r.store) == GetLogs(app.store)
    ensures GetUser(r.store).Some?
    ensures var u := GetUser(r.store).value;
      && u.xp == 0 && u.streak == 0 && u.lastLogDate == None
      && u.avatarType == avatar && u.surveyAnswers == Onboarding(answers) && u.name == "You"
  {
    App(CreateUser(app.store, Onboarding(answers), avatar, id, now).0, false)
  }

  /** A notification: a title and an optional description. */
  datatype Toast = Toast(title: string, description: Option<string>)

  /** The XP notification: the celebration form when the bonus was earned, with
      a word of encouragement whenever the entry admits a bad day. */
  function XPToast(gain: XPGain, negative: bool): (t: Toast)
    requires gain.total >= 0
    ensures |t.title| > 0 && (t.title[0] == '\U{1F389}' <==> gain.bonus > 0)
    ensures t.description.Some? <==> gain.bonus > 0 || negative
  {
    if gain.bonus > 0 then
      var title := "\U{1F389} " + gain.reason + " +" + Text.NatToString(gain.total) + " XP!";
      if negative then Toast(title, Some("Honest logging is the first step to improvement! \U{1F4AA}"))
      else Toast(title, Some("All categories logged! Bonus activated!"))
    else
      var title := "+" + Text.NatToString(gain.total) + " XP earned!";
      if negative then Toast(title, Some("Thanks for being honest - that takes courage! \U{1F31F}"))
      else Toast(title, None)
  }

  /** The streak notification, shown for a streak beyond one day that was not just broken. */
  function StreakToast(st: StreakStatus): (t: Option<Toast>)
    ensures t.Some? <==> st.current > 1 && !st.broken
  {
    if st.current > 1 && !st.broken then Some(Toast("\U{1F525} " + Text.IntToString(st.current) + " day streak!", None))
    else None
  }

  /** Everything one log submission produces. */
  datatype Submission = Submission(
    app: App,
    log: Log,
    gain: XPGain,
    streak: StreakStatus,
    avatar: AvatarView,
    insight: string,
    xpToast: Toast,
    streakToast: Option<Toast>)

  /** `handleLogSubmit`: XP is computed, then the log is added, the XP added and the
      streak updated, in that order; the first step throws when there is no user. */
  function LogSubmit(app: App, data: LogData, logId: string, now: Millis, cal: Calendar): (r: Result<Submission, Error>)
    ensures r.Failure? <==> GetUser(app.store).None?
    ensures r.Success? ==>
      && r.value.app.showSurvey == app.showSurvey
      // one log appended, owned by the user, carrying the entries
      && GetLogs(r.value.app.store) == GetLogs(app.store) + [r.value.log]
      && r.value.log.data == data && r.value.log.userId == GetUser(app.store).value.id
      && r.value.gain == CalculateXPGain(data)
  {
    var gain := CalculateXPGain(data);
    match AddLog(app.store, data, logId, now)
    case Failure(e) => Failure(e)
    case Success((logged, log)) =>
      // with a user present, the later steps cannot throw
      var credited := AddXP(logged, gain.total).value;
      var (updated, streak) := UpdateStreak(credited, now, cal).value;
      Success(Submission(
        app.(store := updated), log, gain, streak,
        AvatarState(updated), GenerateInsight(GetLogs(updated)),
        XPToast(gain, HasNegativeData(data)), StreakToast(streak)))
  }

  /** A submission adds exactly the computed gain to the user's xp and moves the streak as
      it would have moved on the store before the log was added; nothing else about the user changes. */
  lemma LogSubmitCredits(app: App, data: LogData, logId: string, now: Millis, cal: Calendar)
    requires GetUser(app.store).Some?
    ensures var sub := LogSubmit(app, data, logId, now, cal).value;
      var u := GetUser(app.store).value;
      && GetUser(sub.app.store).Some?
      && GetUser(sub.app.store).value.xp == u.xp + CalculateXPGain(data).total
      && sub.streak == UpdateStreak(app.store, now, cal).value.1
      && GetUser(sub.app.store).value == u.(xp := u.xp + CalculateXPGain(data).total,
                                           streak := sub.streak.current, lastLogDate := sub.streak.lastLogDate)
  {
    var u := GetUser(app.store).value;
    var gain := CalculateXPGain(data);
    var (logged, log) := AddLog(app.store, data, logId, now).value;
    assert GetUser(logged) == Some(u);
    var credited := AddXP(logged, gain.total).value;
    var c := GetUser(credited).value;
    assert c == u.(xp := u.xp + gain.total) by {
      assert c.(xp := 0) == u.(xp := 0);
    }
    var (updated, streak) := UpdateStreak(credited, now, cal).value;
    StreakIgnoresOtherFields(app.store, credited, now, cal);
  }

  /** The page then shows the new log's mood, the insight of the new history and the notifications of this gain and streak. */
  lemma LogSubmitShows(app: App, data: LogData, logId: string, now: Millis, cal: Calendar)
    requires GetUser(app.store).Some?
    ensures var sub := LogSubmit(app, data, logId, now, cal).value;
      && sub.avatar.state == MoodOf(data)
      && sub.insight == GenerateInsight(GetLogs(sub.app.store))
      && sub.xpToast == XPToast(sub.gain, HasNegativeData(data))
      && (sub.streakToast.Some? <==> sub.streak.current > 1 && !sub.streak.broken)
  {
    var sub := LogSubmit(app, data, logId, now, cal).value;
    var logs := GetLogs(sub.app.store);
    assert logs[|logs| - 1] == sub.log;
  }

  /** `handleSeedDemo`: the demo week replaces whatever was stored. */
  function SeedDemo(app: App, now: Millis): (r: App)
    ensures r.store == SeedDemoData(now)
    ensures GetUser(r.store) == GetUser(SeedDemoData(now)) && |GetLogs(r.store)| == 7
    ensures r.showSurvey == app.showSurvey
  {
    app.(store := SeedDemoData(now))
  }

  /** `handleResetDemo`: everything is cleared and the survey is shown again. */
  function Reset(app: App): (r: App)
    ensures GetUser(r.store).None? && GetLogs(r.store) == []
    ensures r.showSurvey
  {
    App(ResetDemo(app.store), true)
  }

  /** The app is consistent: the store is, and the survey is on screen exactly when there is no user. */
  predicate AppInv(app: App) {
    StoreInv(app.store) && (app.showSurvey <==> GetUser(app.store).None?)
  }

  /** Opening a consistent store, finishing the survey while it is shown, and resetting keep the app consistent. */
  lemma HandlersKeepAppInv(app: App, answers: OnboardingAnswers, avatar: Avatar, id: string, now: Millis)
    requires AppInv(app)
    ensures AppInv(Open(app.store))
    ensures app.showSurvey ==> AppInv(SurveyComplete(app, answers, avatar, id, now))
    ensures AppInv(Reset(app))
  {
    if app.showSurvey {
      var created := CreateUser(app.store, Onboarding(answers), avatar, id, now).0;
      StoreOperationsKeepInv(app.store, Onboarding(answers), avatar, id, now, PerfectDay, "");
      assert SurveyComplete(app, answers, avatar, id, now) == App(created, false);
    }
  }

  /** Seeding from the home screen keeps the app consistent. */
  lemma SeedKeepsAppInv(app: App, now: Millis)
    requires AppInv(app) && !app.showSurvey
    ensures AppInv(SeedDemo(app, now))
  {
    StoreOperationsKeepInv(app.store, Declared("", "", "", ""), Explorer, "", now, PerfectDay, "");
  }

  /** Submitting a log keeps the app consistent. */
  lemma SubmitKeepsAppInv(app: App, data: LogData, logId: string, now: Millis, cal: Calendar)
    requires AppInv(app)
    ensures LogSubmit(app, data, logId, now, cal).Success? ==> AppInv(LogSubmit(app, data, logId, now, cal).value.app)
  {
    if GetUser(app.store).Some? {
      var (logged, log) := AddLog(app.store, data, logId, now).value;
      assert StoreInv(logged) by {
        assert forall i :: 0 <= i < |logged.logs| ==> logged.logs[i] == (app.store.logs + [log])[i];
      }
      var credited := AddXP(logged, CalculateXPGain(data).total).value;
      assert StoreInv(credited);
      StreakKeepsUserInv(credited, now, cal);
      var updated := UpdateStreak(credited, now, cal).value.0;
      assert LogSubmit(app, data, logId, now, cal).value.app == app.(store := updated);
    }
  }

  /** The first-day walk-through: a new user who logs a perfect day has 30 XP,
      a one-day streak (no streak notification yet) and an energized avatar. */
  lemma FirstPerfectDay(answers: OnboardingAnswers, avatar: Avatar, id: string, logId: string,
                        joined: Millis, now: Millis, cal: Calendar)
    ensures var app := SurveyComplete(Open(EmptyStore), answers, avatar, id, joined);
      var r := LogSubmit(app, PerfectDay, logId, now, cal);
      && r.Success?
      && GetUser(r.value.app.store).value.xp == 30
      && GetUser(r.value.app.store).value.streak == 1
      && r.value.avatar.state == AvatarMood.Energized
      && r.value.streakToast.None?
  {
  }

  /** Submitting without a user throws at the first step: the caller's app is left as it was. */
  lemma SubmitWithoutUserFails(app: App, data: LogData, logId: string, now: Millis, cal: Calendar)
    requires GetUser(app.store).None?
    ensures LogSubmit(app, data, logId, now, cal) == Failure(NoUserFound)
  {
  }
}
