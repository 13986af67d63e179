/** Custom periods: how long a task of each type stays active, per user, in whole minutes. */
module PeriodSettings {
  import opened Wrappers
  import opened GoTime
  import opened TaskDomain
  import opened TaskRecords
  import TimeLists
  import Color
  import Reminders

  const MIN_PERIOD_MINUTES := 1
  const MAX_PERIOD_MINUTES := 10080

  type Periods = map<TaskType, int>

  datatype PeriodError = ScheduledTypeNotAllowed | UnknownTaskType | InvalidPeriodMinutes | NotAuthorized | Unavailable

  function EntryError(t: TaskType, minutes: int): Option<PeriodError> {
    if t == Scheduled then Some(ScheduledTypeNotAllowed)
    else if t.OtherType? then Some(UnknownTaskType)
    else if minutes < MIN_PERIOD_MINUTES || minutes > MAX_PERIOD_MINUTES then Some(InvalidPeriodMinutes)
    else None
  }

  /** What settings may hold: from one minute to seven days for the three types that have a period. */
  predicate ValidPeriods(p: Periods) {
    forall t | t in p :: t in {Short, Near, Relaxed} && 1 <= p[t] <= 7 * 24 * 60
  }

  /** The entry is bad, for this reason. */
  predicate BadEntry(t: TaskType, minutes: int, e: PeriodError) {
    match e
    case ScheduledTypeNotAllowed => t == Scheduled
    case UnknownTaskType => t.OtherType?
    case InvalidPeriodMinutes => t in {Short, Near, Relaxed} && !(1 <= minutes <= 7 * 24 * 60)
    case _ => false
  }

  lemma EntryErrorExactly(t: TaskType, minutes: int)
    ensures EntryError(t, minutes).None? <==> t in {Short, Near, Relaxed} && 1 <= minutes <= 7 * 24 * 60
    ensures EntryError(t, minutes).Some? ==> BadEntry(t, minutes, EntryError(t, minutes).value)
  {
  }

  datatype UserPeriodSettings = UserPeriodSettings(userId: UserId, periods: Periods)

  /** `NewUserPeriodSettings` visits the entries in no particular order: it fails exactly when
      some entry is bad, with the error of a bad entry. */
  method NewUserPeriodSettings(userId: UserId, periods: Periods) returns (r: Result<UserPeriodSettings, PeriodError>)
    ensures r.Ok? <==> ValidPeriods(periods)
    ensures r.Ok? ==> r.value == UserPeriodSettings(userId, periods)
    ensures r.Err? ==> exists t :: t in periods && BadEntry(t, periods[t], r.error)
  {
    var left := periods.Keys;
    while left != {}
      invariant left <= periods.Keys
      invariant forall t | t in periods.Keys - left :: EntryError(t, periods[t]).None?
      decreases left
    {
      var t :| t in left;
      var e := EntryError(t, periods[t]);
      if e.Some? {
        return Err(e.value);
      }
      left := left - {t};
    }
    return Ok(UserPeriodSettings(userId, periods));
  }

  function GetPeriod(p: Periods, t: TaskType): Option<Duration> {
    if t in p then Some(p[t] * MINUTE) else None
  }

  /** `GetPeriodOrDefault`. */
  function PeriodOrDefault(p: Periods, t: TaskType): Duration {
    Or(GetPeriod(p, t), ActivePeriodForType(t))
  }

  /** The stored form: the same entries under the types' texts. */
  function Encode(p: Periods): map<string, int> {
    map s | s in {"short", "near", "relaxed"} && NewType(s).value in p :: p[NewType(s).value]
  }

  /** Reading back: keys that are no type's text are skipped. */
  function Decode(row: map<string, int>): Periods {
    map t | t in {Short, Near, Relaxed, Scheduled} && TypeText(t) in row :: row[TypeText(t)]
  }

  lemma EncodeThenDecode(p: Periods)
    requires ValidPeriods(p)
    ensures Decode(Encode(p)) == p
  {
    forall t | t in {Short, Near, Relaxed, Scheduled}
      ensures TypeText(t) in Encode(p) <==> t in p
      ensures t in p ==> Encode(p)[TypeText(t)] == p[t]
    {
      TypeTextInverse(t);
    }
  }

  /** The entry list of a request as a map: a later entry for the same type wins. */
  function LastWins(items: seq<(TaskType, int)>): Periods {
    if items == [] then map[]
    else LastWins(items[..|items| - 1])[items[|items| - 1].0 := items[|items| - 1].1]
  }

  lemma {:induction false} LastWinsMeaning(items: seq<(TaskType, int)>, t: TaskType)
    ensures t in LastWins(items) <==> exists i :: 0 <= i < |items| && items[i].0 == t
    ensures t in LastWins(items) ==>
      exists i :: 0 <= i < |items| && items[i] == (t, LastWins(items)[t]) && forall j :: i < j < |items| ==>
          items[j].0 != t
  {
    if items != [] {
      var n := |items| - 1;
      var front := items[..n];
      LastWinsMeaning(front, t);
      assert LastWins(items) == LastWins(front)[items[n].0 := items[n].1];
      hide LastWins;
      assert items == front + [items[n]];
      if items[n].0 == t {
        assert items[n] == (t, LastWins(items)[t]);
      } else if t in LastWins(front) {
        var i :| 0 <= i < n && front[i] == (t, LastWins(front)[t]) && forall j :: i < j < n ==> front[j].0 != t;
        assert items[i] == (t, LastWins(items)[t]);
      }
    }
  }

  /** The `user_period_settings` table. */
  class PeriodStore {
    var rows: map<UserId, map<string, int>>

    constructor ()
      ensures rows == map[]
    {
      rows := map[];
    }

    /** Every row was written by `Save`. */
    ghost predicate Valid()
      reads this
    {
      forall u | u in rows :: ValidPeriods(Decode(rows[u])) && rows[u] == Encode(Decode(rows[u]))
    }

    /** The plain map the table stands for. */
    ghost function View(): map<UserId, Periods>
      reads this
    {
      map u | u in rows :: Decode(rows[u])
    }

    /** `Save`: an upsert that replaces the user's row. */
    method Save(settings: UserPeriodSettings, fails: bool) returns (saved: bool)
      requires Valid() && ValidPeriods(settings.periods)
      modifies this
      ensures Valid()
      ensures saved == !fails
      ensures rows == if saved then old(rows)[settings.userId := Encode(settings.periods)] else old(rows)
      ensures View() == if saved then old(View())[settings.userId := settings.periods] else old(View())
    {
      hide Encode, Decode, ValidPeriods;
      var row := SettingsToPeriodsMap(settings.periods);
      if fails {
        return false;
      }
      EncodeThenDecode(settings.periods);
      rows := rows[settings.userId := row];
      return true;
    }

    /** `GetByUserID`: a user without a row has no custom periods. */
    method GetByUserID(userId: UserId, fails: bool) returns (r: Result<UserPeriodSettings, PeriodError>)
      requires Valid()
      ensures r.Ok? <==> !fails
      ensures r.Err? ==> r.error == Unavailable
      ensures r.Ok? ==> r.value == UserPeriodSettings(userId, if userId in View() then View()[userId] else map[])
    {
      if fails {
        return Err(Unavailable);
      }
      if userId !in rows {
        r := NewUserPeriodSettings(userId, map[]);
      } else {
        var periods := RecordToPeriods(rows[userId]);
        r := NewUserPeriodSettings(userId, periods);
      }
    }
  }

  /** `settingsToPeriodsMap`: copies the entries in any order. */
  method SettingsToPeriodsMap(p: Periods) returns (row: map<string, int>)
    requires ValidPeriods(p)
    ensures row == Encode(p)
    ensures row.Keys <= {"short", "near", "relaxed"}
    ensures ("short" in row <==> Short in p) && ("near" in row <==> Near in p) && ("relaxed" in row <==> Relaxed in p)
    ensures (Short in p ==> row["short"] == p[Short]) && (Near in p ==> row["near"] == p[Near])
    ensures Relaxed in p ==> row["relaxed"] == p[Relaxed]
  {
    row := map[];
    var left := p.Keys;
    while left != {}
      invariant left <= p.Keys
      invariant EncodesAllBut(row, p, left)
      decreases left
    {
      var t :| t in left;
      TypeTextInverse(t);
      row := row[TypeText(t) := p[t]];
      left := left - {t};
    }
    EncodedWhole(row, p);
    EncodedTexts(p);
    hide Encode, EncodesAllBut, TypeText, NewType;
  }

  lemma EncodedTexts(p: Periods)
    ensures var row := Encode(p);
      && row.Keys <= {"short", "near", "relaxed"}
      && ("short" in row <==> Short in p) && ("near" in row <==> Near in p) && ("relaxed" in row <==> Relaxed in p)
      && (Short in p ==> row["short"] == p[Short]) && (Near in p ==> row["near"] == p[Near])
      && (Relaxed in p ==> row["relaxed"] == p[Relaxed])
  {
  }

  /** The row holds exactly the entries of `p` outside `left`. */
  ghost predicate EncodesAllBut(row: map<string, int>, p: Periods, left: set<TaskType>) {
    && (forall s | s in row ::
          NewType(s).Ok? && NewType(s).value in p && NewType(s).value !in left && row[s] == p[NewType(s).value])
    && (forall t | t in p && t !in left :: TypeText(t) in row)
  }

  lemma EncodedWhole(row: map<string, int>, p: Periods)
    requires ValidPeriods(p) && EncodesAllBut(row, p, {})
    ensures row == Encode(p)
  {
    forall s
      ensures s in row <==> s in {"short", "near", "relaxed"} && NewType(s).value in p
    {
      KnownTextOf(s);
      if s in row {
        assert NewType(s).value in p;
      }
    }
    hide NewType, TypeText, ValidPeriods;
  }

  lemma KnownTextOf(s: string)
    ensures s in {"short", "near", "relaxed"} <==> NewType(s).Ok? && NewType(s).value in {Short, Near, Relaxed}
    ensures NewType(s).Ok? ==> TypeText(NewType(s).value) == s
  {
  }

  /** The loop of `recordToSettings`. */
  method RecordToPeriods(row: map<string, int>) returns (p: Periods)
    ensures p == Decode(row)
  {
    p := map[];
    var left := row.Keys;
    while left != {}
      invariant left <= row.Keys
      invariant p == Decode(map s | s in row && s !in left :: row[s])
      decreases left
    {
      var s :| s in left;
      var before := map x | x in row && x !in left :: row[x];
      left := left - {s};
      var after := map x | x in row && x !in left :: row[x];
      assert after == before[s := row[s]];
      var t := NewType(s);
      if t.Ok? {
        p := p[t.value := row[s]];
      }
      DecodeAdds(before, s, row[s]);
    }
    assert (map s | s in row && s !in left :: row[s]) == row;
  }

  lemma DecodeAdds(row: map<string, int>, s: string, v: int)
    ensures Decode(row[s := v]) == if NewType(s).Ok? then Decode(row)[NewType(s).value := v] else Decode(row)
  {
    forall t | t in {Short, Near, Relaxed, Scheduled}
      ensures TypeText(t) == s <==> NewType(s) == Ok(t)
    {
      TypeTextInverse(t);
    }
  }

  /** One update call: the user, the entries, and whether the database call fails. */
  datatype UpdateCall = UpdateCall(user: UserId, items: seq<(TaskType, int)>, fails: bool)

  predicate Succeeds(c: UpdateCall, user: UserId) {
    c.user == user && ValidPeriods(LastWins(c.items)) && !c.fails
  }

  /** The table after an update call. */
  function Updated(rows: map<UserId, map<string, int>>, c: UpdateCall): map<UserId, map<string, int>> {
    if Succeeds(c, c.user) then rows[c.user := Encode(LastWins(c.items))] else rows
  }

  /** `UpdatePeriodSettings`: succeeds exactly when the last-entry-wins map of the request is valid
      (and nothing fails), and then that map replaces whatever the user had. */
  method UpdatePeriodSettings(store: PeriodStore, user: Option<UserId>, items: seq<(TaskType, int)>, fails: bool)
    returns (r: Result<seq<(TaskType, int)>, PeriodError>)
    requires store.Valid()
    modifies store
    ensures store.Valid()
    ensures r.Ok? <==> user.Some? && ValidPeriods(LastWins(items)) && !fails
    ensures user.Some? ==> store.rows == Updated(old(store.rows), UpdateCall(user.value, items, fails))
    ensures store.View() == if r.Ok? then old(store.View())[user.value := LastWins(items)] else old(store.View())
    ensures r.Ok? ==> Lists(r.value, LastWins(items))
    ensures r.Err? ==>
      if user.None? then r.error == NotAuthorized
      else if ValidPeriods(LastWins(items)) then r.error == Unavailable
      else exists t :: t in LastWins(items) && BadEntry(t, LastWins(items)[t], r.error)
  {
    if user.None? {
      return Err(NotAuthorized);
    }
    var periods: Periods := map[];
    for i := 0 to |items|
      invariant periods == LastWins(items[..i])
    {
      assert items[..i + 1][..i] == items[..i];
      periods := periods[items[i].0 := items[i].1];
    }
    assert items[..|items|] == items;
    var settings := NewUserPeriodSettings(user.value, periods);
    if settings.Err? {
      return Err(settings.error);
    }
    var saved := store.Save(settings.value, fails);
    if !saved {
      return Err(Unavailable);
    }
    var listed := ListPeriods(periods);
    return Ok(listed);
  }

  /** `GetPeriodSettings`: the user's entries and the defaults, each in any order. */
  method GetPeriodSettings(store: PeriodStore, user: Option<UserId>, fails: bool)
    returns (r: Result<(seq<(TaskType, int)>, seq<(TaskType, int)>), PeriodError>)
    requires store.Valid()
    ensures r.Ok? <==> user.Some? && !fails
    ensures r.Ok? ==> Lists(r.value.0, if user.value in store.View() then store.View()[user.value] else map[])
    ensures r.Ok? ==> Lists(r.value.1, map[Short := 30, Near := 180, Relaxed := 1440])
    ensures r.Err? ==> r.error == if user.None? then NotAuthorized else Unavailable
  {
    if user.None? {
      return Err(NotAuthorized);
    }
    var settings := store.GetByUserID(user.value, fails);
    if settings.Err? {
      return Err(settings.error);
    }
    var items := ListPeriods(settings.value.periods);
    var defaults := ListPeriods(DEFAULT_PERIODS);
    return Ok((items, defaults));
  }

  const DEFAULT_PERIODS: Periods :=
    map[Short := ACTIVE_PERIOD_SHORT / MINUTE, Near := ACTIVE_PERIOD_NEAR / MINUTE,
        Relaxed := ACTIVE_PERIOD_RELAXED / MINUTE]

  predicate Mentions(items: seq<(TaskType, int)>, t: TaskType) {
    exists i :: 0 <= i < |items| && items[i].0 == t
  }

  /** The list holds each entry of the map once and nothing else. */
  ghost predicate Lists(items: seq<(TaskType, int)>, p: Periods) {
    && (forall i :: 0 <= i < |items| ==> items[i].0 in p && p[items[i].0] == items[i].1)
    && (forall t | t in p :: Mentions(items, t))
    && (forall i, j :: 0 <= i < j < |items| ==> items[i].0 != items[j].0)
  }

  lemma MentionsAppended(items: seq<(TaskType, int)>, e: (TaskType, int), t: TaskType)
    ensures Mentions(items + [e], t) <==> Mentions(items, t) || e.0 == t
  {
    if Mentions(items, t) {
      var i :| 0 <= i < |items| && items[i].0 == t;
      assert (items + [e])[i].0 == t;
    }
    assert (items + [e])[|items|] == e;
  }

  method ListPeriods(p: Periods) returns (items: seq<(TaskType, int)>)
    ensures Lists(items, p)
  {
    items := [];
    var left := p.Keys;
    while left != {}
      invariant left <= p.Keys
      invariant forall i :: 0 <= i < |items| ==> items[i].0 in p && items[i].0 !in left && p[items[i].0] == items[i].1
      invariant forall t | t in p && t !in left :: Mentions(items, t)
      invariant forall i, j :: 0 <= i < j < |items| ==> items[i].0 != items[j].0
      decreases left
    {
      var t :| t in left;
      forall x | x in p {
        MentionsAppended(items, (t, p[t]), x);
      }
      items := items + [(t, p[t])];
      left := left - {t};
    }
  }

  /** The table after a sequence of update calls on an empty one. */
  function RowsAfter(calls: seq<UpdateCall>): map<UserId, map<string, int>> {
    if calls == [] then map[] else Updated(RowsAfter(calls[..|calls| - 1]), calls[|calls| - 1])
  }

  /** After any sequence of update calls by any users, reading a user's row gives exactly the map of
      that user's last successful call `last`; without such a call (`last < 0`) there is no row. */
  lemma {:induction false} ReadsLastUpdate(calls: seq<UpdateCall>, user: UserId) returns (last: int)
    ensures -1 <= last < |calls|
    ensures forall j :: last < j < |calls| ==> !Succeeds(calls[j], user)
    ensures last < 0 ==> user !in RowsAfter(calls)
    ensures last >= 0 ==>
      && Succeeds(calls[last], user)
      && user in RowsAfter(calls) && Decode(RowsAfter(calls)[user]) == LastWins(calls[last].items)
  {
    hide LastWins, Encode, Decode, ValidPeriods;
    last := -1;
    if calls != [] {
      var n := |calls| - 1;
      last := ReadsLastUpdate(calls[..n], user);
      if Succeeds(calls[n], user) {
        EncodeThenDecode(LastWins(calls[n].items));
        last := n;
      }
    }
  }

  /** The minutes a task of this type lasts: the custom ones, else the default. */
  function Minutes(p: Periods, t: TaskType): int {
    if t in p then p[t]
    else match t
      case Short => 30
      case Near => 3 * 60
      case Relaxed => 24 * 60
      case _ => 0
  }

  /** A short, near or relaxed task lasts exactly the chosen (or default) minutes, although both ends are truncated. */
  lemma PeriodIsExact(p: Periods, givenId: Option<TaskId>, newId: Option<TaskId>, now: Instant, userId: UserId,
                      title: string, taskType: TaskType, description: string, color: Color.Color)
    requires ValidPeriods(p) && Reminders.IsPeriodic(taskType) && Color.IsNormal(color)
    ensures var r := CreateTask(givenId, newId, now, userId, title, taskType, description, None, color,
        GetPeriod(p, taskType));
      r.Ok? ==>
        && r.value.taskType == taskType
        && r.value.targetAt == r.value.createdAt + PeriodOrDefault(p, taskType)
        && PeriodOrDefault(p, taskType) == Minutes(p, taskType) * MINUTE
        && 1 <= Minutes(p, taskType) <= MAX_PERIOD_MINUTES
  {
    var custom := GetPeriod(p, taskType);
    assert Minutes(p, taskType) * MINUTE == Or(custom, ActivePeriodForType(taskType));
    CreateTaskGood(givenId, newId, now, userId, title, taskType, description, None, color, custom);
    hide Good, TruncateMicro, Color.Validate, Color.IsNormal;
  }

  /** From validated settings to reminders: the task keeps every percentage reminder, at the rounded
      percentages of exactly its minutes, and its reminders all differ unless the period is too short
      for its table. */
  lemma CustomPeriodEndToEnd(p: Periods, givenId: Option<TaskId>, newId: Option<TaskId>, now: Instant, userId: UserId,
                             title: string, taskType: TaskType, description: string, color: Color.Color)
    requires ValidPeriods(p) && Reminders.IsPeriodic(taskType) && Color.IsNormal(color)
    ensures var r := CreateTask(givenId, newId, now, userId, title, taskType, description, None, color,
        GetPeriod(p, taskType));
      var minutes := Minutes(p, taskType);
      r.Ok? ==>
        var t := r.value;
        var rounded := Reminders.RoundedTimes(t.createdAt, minutes * MINUTE, Reminders.IntervalsForType(taskType));
        && t.targetAt - t.createdAt == minutes * MINUTE
        && (Reminders.ReminderTimes(t) == rounded || Reminders.ReminderTimes(t) == rounded + [t.targetAt])
        && (TimeLists.StrictlySorted(Reminders.ReminderTimes(t)) <==>
              if taskType == Relaxed then minutes == 3 || minutes >= 5 else minutes >= 2)
  {
    hide CreateTask, Minutes, ValidPeriods, GetPeriod, Color.IsNormal, Reminders.ReminderTimes, Reminders.Offset;
    PeriodIsExact(p, givenId, newId, now, userId, title, taskType, description, color);
    var r := CreateTask(givenId, newId, now, userId, title, taskType, description, None, color, GetPeriod(p, taskType));
    if r.Ok? {
      MinutesMod(Minutes(p, taskType));
      Reminders.WholeMinutesDropNothing(r.value);
      Reminders.StrictOnWholeMinutes(r.value, Minutes(p, taskType));
    }
  }

  lemma MinutesMod(m: int)
    requires 0 <= m <= MAX_PERIOD_MINUTES
    ensures m * MINUTE % MINUTE == 0 && m * MINUTE <= MAX_DURATION
  {
  }
}
