/** The user record store and the subscription rules engine of `bot.py`:
    `get_user_data`, `update_user_subscription` (paid renewal),
    `update_user_subscription_free` (trial grant) and the trial-eligibility
    test. The clock is a parameter; persistence is a no-op. */
module Subscription {
  import opened Optional
  import opened Calendar
  import DateText

  /** The chat user's identifier (the store keys records by its decimal
      string, which is injective, so the model keys them by the number). */
  type UserId = int

  /** The plan attached to a subscription; `NoTariff` is the empty string a
      fresh record carries. */
  datatype Tariff =
    | NoTariff
    | Paid(months: int, devices: int, price: int)
    | Trial(days: int, price: int)

  datatype UserRecord = UserRecord(
    subscriptionEnd: string,
    tariff: Tariff,
    key: string,
    address: string,
    expired: bool,
    freePeriodUsed: bool)

  type Users = map<UserId, UserRecord>

  /** The outcome of an engine entry point. `Raised` is an exception escaping
      the date arithmetic: the record refresh done before it stays. */
  datatype Effect = Completed(users: Users) | Raised(users: Users)

  const DummyKey := "DUMMY_KEY_123456"
  const DummyAddress := "vpn.example.com"

  /** The global switch of the free trial programme. */
  const FreePeriodEnabled := true

  /** The record created for a user seen for the first time. */
  const DefaultRecord := UserRecord("", NoTariff, "", "", true, false)

  /** The stored end date: `None` when the field is empty or does not parse. */
  function EndDate(end: string): (r: Option<Date>)
    ensures r.Some? ==> ValidDate(r.value)
  {
    if end == "" then None else DateText.Parse(end)
  }

  /** `expired` as `get_user_data` derives it: the midnight that starts the
      end date already lies in the past. */
  function ExpiredAt(end: string, now: DateTime): bool {
    match EndDate(end)
    case None => true
    case Some(d) => TimeBefore(Midnight(d), now)
  }

  /** In calendar terms: a subscription is current through the whole day
      before its end date and only through the first instant of the end
      date itself. */
  lemma ExpiredMeaning(end: string, now: DateTime)
    requires ValidDateTime(now)
    ensures EndDate(end).None? ==> ExpiredAt(end, now)
    ensures EndDate(end).Some? ==>
      var d := EndDate(end).value;
      && (Before(d, now.date) ==> ExpiredAt(end, now))
      && (Before(now.date, d) ==> !ExpiredAt(end, now))
      && (d == now.date ==> (ExpiredAt(end, now) <==> now.micros > 0))
  {
  }

  /** `get_user_data`: create the default record for an unknown user, then
      recompute `expired` of that user's record from the clock. */
  function GetUser(users: Users, uid: UserId, now: DateTime): (r: Users)
    ensures r.Keys == users.Keys + {uid}
    ensures forall v :: v in users && v != uid ==> r[v] == users[v]
    ensures uid !in users ==> r[uid] == DefaultRecord
    ensures uid in users ==>
      r[uid] == users[uid].(expired := ExpiredAt(users[uid].subscriptionEnd, now))
  {
    var stored := if uid in users then users[uid] else DefaultRecord;
    users[uid := stored.(expired := ExpiredAt(stored.subscriptionEnd, now))]
  }

  /** The stored `expired` flag is never trusted: two stores that differ only
      in that flag read the same. */
  lemma GetUserIgnoresStoredFlag(users: Users, uid: UserId, flag: bool, now: DateTime)
    requires uid in users
    ensures GetUser(users, uid, now) == GetUser(users[uid := users[uid].(expired := flag)], uid, now)
  {
  }

  /** Looking a user up a second time creates nothing and changes nothing. */
  lemma GetUserIdempotent(users: Users, uid: UserId, now: DateTime)
    ensures GetUser(GetUser(users, uid, now), uid, now) == GetUser(users, uid, now)
  {
  }

  /** The instant renewal counts from: the end date's midnight when that is
      still ahead, the present otherwise or when there is no readable end. */
  function BaseTime(end: string, now: DateTime): (t: DateTime)
    requires ValidDateTime(now)
    ensures ValidDate(t.date)
  {
    match EndDate(end)
    case None => now
    case Some(d) => if TimeBefore(now, Midnight(d)) then Midnight(d) else now
  }

  /** Only the date of the base instant survives into the stored end, and it
      is the later of the stored end date and today. */
  lemma BaseDateIsLater(end: string, now: DateTime)
    requires ValidDateTime(now)
    ensures EndDate(end).None? ==> BaseTime(end, now).date == now.date
    ensures EndDate(end).Some? ==> BaseTime(end, now).date == Later(EndDate(end).value, now.date)
  {
  }

  /** The date renewal counts from, as a plain calendar date. */
  function BaseDate(end: string, today: Date): (d: Date)
    requires ValidDate(today)
    ensures ValidDate(d) && AtMost(today, d)
  {
    match EndDate(end)
    case None => today
    case Some(e) => Later(e, today)
  }

  /** The record after a successful payment, or `None` when the new end
      would pass the year 9999. */
  function PaidRecord(r: UserRecord, months: nat, devices: int, price: int, now: DateTime): Option<UserRecord>
    requires ValidDateTime(now)
  {
    match AddMonths(BaseTime(r.subscriptionEnd, now).date, months)
    case None => None
    case Some(e) =>
      Some(r.(subscriptionEnd := DateText.Format(e),
              tariff := Paid(months, devices, price),
              key := DummyKey,
              address := DummyAddress,
              expired := false))
  }

  /** The record after a trial grant, or `None` on overflow. */
  function TrialRecord(r: UserRecord, days: nat, now: DateTime): Option<UserRecord>
    requires ValidDateTime(now)
  {
    match AddDays(BaseTime(r.subscriptionEnd, now).date, days)
    case None => None
    case Some(e) =>
      Some(r.(subscriptionEnd := DateText.Format(e),
              tariff := Trial(days, 0),
              key := DummyKey,
              address := DummyAddress,
              expired := false,
              freePeriodUsed := true))
  }

  /** `update_user_subscription`. */
  function UpdateSubscription(users: Users, uid: UserId, months: nat, devices: int, price: int, now: DateTime): Effect
    requires ValidDateTime(now)
  {
    var refreshed := GetUser(users, uid, now);
    match PaidRecord(refreshed[uid], months, devices, price, now)
    case None => Raised(refreshed)
    case Some(r) => Completed(refreshed[uid := r])
  }

  /** `update_user_subscription_free`. */
  function UpdateSubscriptionFree(users: Users, uid: UserId, days: nat, now: DateTime): Effect
    requires ValidDateTime(now)
  {
    var refreshed := GetUser(users, uid, now);
    match TrialRecord(refreshed[uid], days, now)
    case None => Raised(refreshed)
    case Some(r) => Completed(refreshed[uid := r])
  }

  /** Whether the trial button is shown. */
  predicate TrialOffered(flag: bool, r: UserRecord) {
    flag && !r.freePeriodUsed
  }

  // ---------------------------------------------------------------------------
  // Properties of the engine
  // ---------------------------------------------------------------------------

  /** Paid renewal: the stored end reads back as the base date plus `months`;
      it fails only when that passes 9999; the tariff, key and address are
      replaced, `expired` is cleared and the trial flag is untouched. */
  lemma PaidRenewal(r: UserRecord, months: nat, devices: int, price: int, now: DateTime)
    requires ValidDateTime(now)
    ensures PaidRecord(r, months, devices, price, now).None? <==>
      AddMonths(BaseDate(r.subscriptionEnd, now.date), months).None?
    ensures PaidRecord(r, months, devices, price, now).Some? ==>
      var r' := PaidRecord(r, months, devices, price, now).value;
      && EndDate(r'.subscriptionEnd) == AddMonths(BaseDate(r.subscriptionEnd, now.date), months)
      && r'.tariff == Paid(months, devices, price)
      && r'.key == DummyKey && r'.address == DummyAddress
      && !r'.expired
      && r'.freePeriodUsed == r.freePeriodUsed
  {
    BaseDateIsLater(r.subscriptionEnd, now);
    var p := PaidRecord(r, months, devices, price, now);
    if p.Some? {
      var e := AddMonths(BaseDate(r.subscriptionEnd, now.date), months).value;
      DateText.ParseFormat(e);
    }
  }

  /** Renewing never shortens a subscription: the new end is no earlier than
      the old end, and no earlier than what a lapsed user paying now gets. An
      early renewal keeps all remaining time; a lapsed one counts from today. */
  lemma RenewalKeepsRemainingTime(r: UserRecord, months: nat, devices: int, price: int, now: DateTime)
    requires ValidDateTime(now)
    requires PaidRecord(r, months, devices, price, now).Some?
    ensures EndDate(PaidRecord(r, months, devices, price, now).value.subscriptionEnd).Some?
    ensures
      var e := EndDate(PaidRecord(r, months, devices, price, now).value.subscriptionEnd).value;
      && AtMost(now.date, e)
      && (EndDate(r.subscriptionEnd).Some? ==> AtMost(EndDate(r.subscriptionEnd).value, e))
      && (months > 0 ==> Before(now.date, e))
      && AtMost(AddMonths(now.date, months).value, e)
      && (EndDate(r.subscriptionEnd).Some? && AtMost(now.date, EndDate(r.subscriptionEnd).value) ==>
            Some(e) == AddMonths(EndDate(r.subscriptionEnd).value, months))
      && (EndDate(r.subscriptionEnd).None? || Before(EndDate(r.subscriptionEnd).value, now.date) ==>
            Some(e) == AddMonths(now.date, months))
  {
    PaidRenewal(r, months, devices, price, now);
    var base := BaseDate(r.subscriptionEnd, now.date);
    AddMonthsAdvances(base, months);
    AddMonthsMonotone(now.date, base, months);
  }

  /** Right after a paid renewal of at least one month the stored `expired`
      flag agrees with the derivation `get_user_data` would make. */
  lemma PaidRecordNotExpired(r: UserRecord, months: nat, devices: int, price: int, now: DateTime)
    requires ValidDateTime(now) && months >= 1
    requires PaidRecord(r, months, devices, price, now).Some?
    ensures
      var r' := PaidRecord(r, months, devices, price, now).value;
      !r'.expired && !ExpiredAt(r'.subscriptionEnd, now)
  {
    RenewalKeepsRemainingTime(r, months, devices, price, now);
  }

  /** Trial grant: the same base rule plus `days`; the tariff becomes a free
      trial, `expired` is cleared and the trial flag is set. */
  lemma TrialGrant(r: UserRecord, days: nat, now: DateTime)
    requires ValidDateTime(now)
    ensures TrialRecord(r, days, now).None? <==>
      AddDays(BaseDate(r.subscriptionEnd, now.date), days).None?
    ensures TrialRecord(r, days, now).Some? ==>
      var r' := TrialRecord(r, days, now).value;
      && EndDate(r'.subscriptionEnd) == AddDays(BaseDate(r.subscriptionEnd, now.date), days)
      && r'.tariff == Trial(days, 0)
      && r'.key == DummyKey && r'.address == DummyAddress
      && !r'.expired
      && r'.freePeriodUsed
      && !TrialOffered(FreePeriodEnabled, r')
  {
    BaseDateIsLater(r.subscriptionEnd, now);
    var t := TrialRecord(r, days, now);
    if t.Some? {
      var e := AddDays(BaseDate(r.subscriptionEnd, now.date), days).value;
      DateText.ParseFormat(e);
    }
  }

  /** The engine does not check eligibility: granting the trial to a record
      that already used it still pushes the end date forward. */
  lemma RepeatedTrialExtends(r: UserRecord, days: nat, now: DateTime)
    requires ValidDateTime(now) && days >= 1
    requires r.freePeriodUsed
    requires TrialRecord(r, days, now).Some?
    ensures EndDate(TrialRecord(r, days, now).value.subscriptionEnd).Some?
    ensures
      var e := EndDate(TrialRecord(r, days, now).value.subscriptionEnd).value;
      && Before(now.date, e)
      && (EndDate(r.subscriptionEnd).Some? ==> Before(EndDate(r.subscriptionEnd).value, e))
  {
    TrialGrant(r, days, now);
    var base := BaseDate(r.subscriptionEnd, now.date);
    AddDaysAdvances(base, days);
  }

  /** Right after a trial grant of at least one day the stored `expired` flag
      agrees with the derivation. */
  lemma TrialRecordNotExpired(r: UserRecord, days: nat, now: DateTime)
    requires ValidDateTime(now) && days >= 1
    requires TrialRecord(r, days, now).Some?
    ensures !ExpiredAt(TrialRecord(r, days, now).value.subscriptionEnd, now)
  {
    TrialGrant(r, days, now);
    AddDaysAdvances(BaseDate(r.subscriptionEnd, now.date), days);
  }

  /** A completed trial grant read back at the same instant: the record
      stays as granted (it is not expired), and its end lies after today and
      after any earlier stored end. */
  lemma GrantThenRead(users: Users, uid: UserId, days: nat, now: DateTime)
    requires ValidDateTime(now) && days >= 1
    requires UpdateSubscriptionFree(users, uid, days, now).Completed?
    ensures
      var granted := UpdateSubscriptionFree(users, uid, days, now).users;
      && uid in granted
      && GetUser(granted, uid, now) == granted
      && !granted[uid].expired
      && granted[uid].freePeriodUsed
      && EndDate(granted[uid].subscriptionEnd).Some?
      && Before(now.date, EndDate(granted[uid].subscriptionEnd).value)
      && (uid in users && EndDate(users[uid].subscriptionEnd).Some? ==>
            Before(EndDate(users[uid].subscriptionEnd).value, EndDate(granted[uid].subscriptionEnd).value))
  {
    var r := GetUser(users, uid, now)[uid];
    var t := TrialRecord(r, days, now).value;
    assert UpdateSubscriptionFree(users, uid, days, now).users == GetUser(users, uid, now)[uid := t];
    TrialGrant(r, days, now);
    TrialRecordNotExpired(r, days, now);
    AddDaysAdvances(BaseDate(r.subscriptionEnd, now.date), days);
  }

  /** `update_user_subscription` as a whole: it completes exactly when the
      month arithmetic from the base date does; on overflow only the read
      made on entry remains; on completion the user's stored record has the
      new end, the paid tariff, the placeholders, `expired` cleared and the
      trial flag as it was. */
  lemma PaidEntry(users: Users, uid: UserId, months: nat, devices: int, price: int, now: DateTime)
    requires ValidDateTime(now)
    ensures
      var end := AddMonths(BaseDate(GetUser(users, uid, now)[uid].subscriptionEnd, now.date), months);
      var eff := UpdateSubscription(users, uid, months, devices, price, now);
      && (eff.Completed? <==> end.Some?)
      && (eff.Raised? ==> eff.users == GetUser(users, uid, now))
      && uid in eff.users
      && (eff.Completed? ==>
            && EndDate(eff.users[uid].subscriptionEnd) == end
            && eff.users[uid].tariff == Paid(months, devices, price)
            && eff.users[uid].key == DummyKey && eff.users[uid].address == DummyAddress
            && !eff.users[uid].expired
            && eff.users[uid].freePeriodUsed == (uid in users && users[uid].freePeriodUsed))
  {
    PaidRenewal(GetUser(users, uid, now)[uid], months, devices, price, now);
  }

  /** `update_user_subscription_free` as a whole: it completes exactly when
      the day arithmetic from the base date does; on overflow only the read
      made on entry remains; on completion the user's stored record has the
      new end, the free trial tariff, the placeholders, `expired` cleared and
      the trial flag set. */
  lemma TrialEntry(users: Users, uid: UserId, days: nat, now: DateTime)
    requires ValidDateTime(now)
    ensures
      var end := AddDays(BaseDate(GetUser(users, uid, now)[uid].subscriptionEnd, now.date), days);
      var eff := UpdateSubscriptionFree(users, uid, days, now);
      && (eff.Completed? <==> end.Some?)
      && (eff.Raised? ==> eff.users == GetUser(users, uid, now))
      && uid in eff.users
      && (eff.Completed? ==>
            && EndDate(eff.users[uid].subscriptionEnd) == end
            && eff.users[uid].tariff == Trial(days, 0)
            && eff.users[uid].key == DummyKey && eff.users[uid].address == DummyAddress
            && !eff.users[uid].expired
            && eff.users[uid].freePeriodUsed)
  {
    TrialGrant(GetUser(users, uid, now)[uid], days, now);
  }

  /** Neither today nor the stored end date falls in the year 9999. */
  predicate ClearOfLastYear(users: Users, uid: UserId, now: DateTime) {
    && now.date.year < MaxYear
    && (uid in users && EndDate(users[uid].subscriptionEnd).Some? ==>
          EndDate(users[uid].subscriptionEnd).value.year < MaxYear)
  }

  /** The date renewal counts from stays clear of the year 9999 when both
      today and the stored end do. */
  lemma BaseClearOfLastYear(users: Users, uid: UserId, now: DateTime)
    requires ValidDateTime(now) && ClearOfLastYear(users, uid, now)
    ensures BaseDate(GetUser(users, uid, now)[uid].subscriptionEnd, now.date).year < MaxYear
  {
  }

  /** The month arithmetic can only raise in the last year of the calendar:
      away from it, a renewal of up to a year always completes. */
  lemma PaidCompletes(users: Users, uid: UserId, months: nat, devices: int, price: int, now: DateTime)
    requires ValidDateTime(now) && ClearOfLastYear(users, uid, now) && months <= 12
    ensures UpdateSubscription(users, uid, months, devices, price, now).Completed?
  {
    var r := GetUser(users, uid, now)[uid];
    BaseClearOfLastYear(users, uid, now);
    AddMonthsShiftsMonth(BaseDate(r.subscriptionEnd, now.date), months);
    PaidRenewal(r, months, devices, price, now);
  }

  /** The day arithmetic can only raise in the last year of the calendar:
      away from it, a grant of up to 365 days always completes. */
  lemma TrialCompletes(users: Users, uid: UserId, days: nat, now: DateTime)
    requires ValidDateTime(now) && ClearOfLastYear(users, uid, now) && days <= 365
    ensures UpdateSubscriptionFree(users, uid, days, now).Completed?
  {
    var r := GetUser(users, uid, now)[uid];
    BaseClearOfLastYear(users, uid, now);
    var base := BaseDate(r.subscriptionEnd, now.date);
    AddDaysOrdinal(base, days);
    OrdinalWithinYear(base);
    DaysBeforeYearMonotone(base.year + 1, MaxYear);
    assert Ordinal(LastDate) == DaysBeforeYear(MaxYear) + 365;
    TrialGrant(r, days, now);
  }

  /** The engine entry points touch only their own user, never remove a
      record, and never clear the trial flag. */
  lemma EngineLocality(users: Users, uid: UserId, months: nat, devices: int, price: int, days: nat, now: DateTime)
    requires ValidDateTime(now)
    ensures
      var paid := UpdateSubscription(users, uid, months, devices, price, now).users;
      var free := UpdateSubscriptionFree(users, uid, days, now).users;
      && paid.Keys == users.Keys + {uid}
      && free.Keys == users.Keys + {uid}
      && (forall v :: v in users && v != uid ==> paid[v] == users[v] && free[v] == users[v])
      && (uid in users && users[uid].freePeriodUsed ==> paid[uid].freePeriodUsed)
      && free[uid].freePeriodUsed == (UpdateSubscriptionFree(users, uid, days, now).Completed?
                                      || (uid in users && users[uid].freePeriodUsed))
  {
    var refreshed := GetUser(users, uid, now);
    PaidRenewal(refreshed[uid], months, devices, price, now);
    TrialGrant(refreshed[uid], days, now);
  }
}
