/** The state effect of the `/start` command and of each button press in
    `bot.py`, as a step function over the user store and the order staging
    area. Rendering, acknowledgements and logging have no state effect and
    are not modelled. */
module Dispatcher {
  import opened Optional
  import opened Calendar
  import opened Subscription
  import opened Orders

  datatype State = State(users: Users, orders: map<UserId, Order>)

  /** What the messaging platform delivers: the `/start` command or a button
      press carrying its callback code. */
  datatype Event = Start | Press(code: string)

  /** The callback codes the handler accepts, in the order of the list. */
  datatype Callback =
    | Buy | Profile | Info | Install | BackMain
    | Period1 | Period3 | Period6 | PeriodFree
    | Devices1 | Devices3 | Devices5 | PayCode
    | BackBuy | BackDevices

  const ValidCallbacks: seq<string> := [
    "buy", "profile", "info", "install", "back_main",
    "period_1", "period_3", "period_6", "period_free",
    "devices_1", "devices_3", "devices_5", "pay",
    "back_buy", "back_devices"
  ]

  /** Length of the free trial granted by `period_free`, in days. */
  const TrialDays := 7

  /** The code a button carries. */
  function CodeOf(c: Callback): string {
    match c
    case Buy => "buy"
    case Profile => "profile"
    case Info => "info"
    case Install => "install"
    case BackMain => "back_main"
    case Period1 => "period_1"
    case Period3 => "period_3"
    case Period6 => "period_6"
    case PeriodFree => "period_free"
    case Devices1 => "devices_1"
    case Devices3 => "devices_3"
    case Devices5 => "devices_5"
    case PayCode => "pay"
    case BackBuy => "back_buy"
    case BackDevices => "back_devices"
  }

  /** The whitelist test: which button, if any, a code belongs to. */
  function Recognise(code: string): (r: Option<Callback>)
    ensures r.Some? ==> CodeOf(r.value) == code
  {
    if code == "buy" then Some(Buy)
    else if code == "profile" then Some(Profile)
    else if code == "info" then Some(Info)
    else if code == "install" then Some(Install)
    else if code == "back_main" then Some(BackMain)
    else if code == "period_1" then Some(Period1)
    else if code == "period_3" then Some(Period3)
    else if code == "period_6" then Some(Period6)
    else if code == "period_free" then Some(PeriodFree)
    else if code == "devices_1" then Some(Devices1)
    else if code == "devices_3" then Some(Devices3)
    else if code == "devices_5" then Some(Devices5)
    else if code == "pay" then Some(PayCode)
    else if code == "back_buy" then Some(BackBuy)
    else if code == "back_devices" then Some(BackDevices)
    else None
  }

  /** A code is recognised exactly when it is on the whitelist, and every
      button's own code is recognised as that button. */
  lemma RecogniseMatchesWhitelist(code: string, c: Callback)
    ensures Recognise(code).Some? <==> code in ValidCallbacks
    ensures Recognise(CodeOf(c)) == Some(c)
  {
  }

  /** The whitelist test as the handler performs it, a linear scan of the
      list; it agrees with `Recognise`, which the step function uses. */
  method IsValidCallback(code: string) returns (ok: bool)
    ensures ok <==> code in ValidCallbacks
    ensures ok <==> Recognise(code).Some?
  {
    ok := false;
    var i := 0;
    while i < |ValidCallbacks|
      invariant 0 <= i <= |ValidCallbacks|
      invariant ok <==> code in ValidCallbacks[..i]
    {
      if ValidCallbacks[i] == code {
        ok := true;
      }
      i := i + 1;
    }
    assert ValidCallbacks[..i] == ValidCallbacks;
    RecogniseMatchesWhitelist(code, Buy);
  }

  /** `pay`: with a pending order, renew on its terms and drop the order;
      without one, nothing happens. */
  function Pay(s: State, uid: UserId, now: DateTime): State
    requires ValidDateTime(now)
  {
    if uid !in s.orders then s
    else
      var t := PayTerms(s.orders[uid]);
      match UpdateSubscription(s.users, uid, t.months, t.devices, t.price, now)
      case Raised(u) => s.(users := u)
      case Completed(u) => State(u, s.orders - {uid})
  }

  /** `period_free`: grant the trial without checking eligibility, then read
      the record back. */
  function GrantTrial(s: State, uid: UserId, now: DateTime): State
    requires ValidDateTime(now)
  {
    match UpdateSubscriptionFree(s.users, uid, TrialDays, now)
    case Raised(u) => s.(users := u)
    case Completed(u) => s.(users := GetUser(u, uid, now))
  }

  /** `period_N`: stage a fresh order for N months. */
  function StagePeriod(s: State, uid: UserId, period: nat): State {
    s.(orders := s.orders[uid := ChoosePeriod(period)])
  }

  /** `devices_N`: complete the staged order with N devices. */
  function StageDevices(s: State, uid: UserId, devices: nat): State {
    var pending := if uid in s.orders then Some(s.orders[uid]) else None;
    s.(orders := s.orders[uid := ChooseDevices(pending, devices)])
  }

  /** The state effect of one recognised button of user `uid`. `back_main`
      is served by its own handler, which reads the user record like `buy`,
      `back_buy` and `profile` do; `info`, `install` and `back_devices` only
      render. */
  function Apply(s: State, uid: UserId, c: Callback, now: DateTime): State
    requires ValidDateTime(now)
  {
    match c
    case Buy | Profile | BackMain | BackBuy => s.(users := GetUser(s.users, uid, now))
    case Info | Install | BackDevices => s
    case PeriodFree => GrantTrial(s, uid, now)
    case Period1 => StagePeriod(s, uid, 1)
    case Period3 => StagePeriod(s, uid, 3)
    case Period6 => StagePeriod(s, uid, 6)
    case Devices1 => StageDevices(s, uid, 1)
    case Devices3 => StageDevices(s, uid, 3)
    case Devices5 => StageDevices(s, uid, 5)
    case PayCode => Pay(s, uid, now)
  }

  /** One event from user `uid` at time `now`. */
  function Step(s: State, uid: UserId, ev: Event, now: DateTime): State
    requires ValidDateTime(now)
  {
    match ev
    case Start => s.(users := GetUser(s.users, uid, now))
    case Press(code) =>
      match Recognise(code)
      case None => s
      case Some(c) => Apply(s, uid, c, now)
  }

  // ---------------------------------------------------------------------------
  // Properties of the step function
  // ---------------------------------------------------------------------------

  /** A code outside the whitelist changes nothing, and a button's own code
      has the effect of that button. */
  lemma PressDispatch(s: State, uid: UserId, code: string, c: Callback, now: DateTime)
    requires ValidDateTime(now)
    ensures code !in ValidCallbacks ==> Step(s, uid, Press(code), now) == s
    ensures Step(s, uid, Press(CodeOf(c)), now) == Apply(s, uid, c, now)
  {
    RecogniseMatchesWhitelist(code, c);
  }

  /** The menu buttons and `/start` only read the user record: they create
      it when missing and refresh `expired`, and leave the orders alone;
      `info`, `install` and `back_devices` change nothing at all. */
  lemma MenuCodesOnlyReadRecord(s: State, uid: UserId, c: Callback, now: DateTime)
    requires ValidDateTime(now)
    ensures c in {Buy, Profile, BackMain, BackBuy} ==>
      Apply(s, uid, c, now) == State(GetUser(s.users, uid, now), s.orders)
    ensures c in {Info, Install, BackDevices} ==> Apply(s, uid, c, now) == s
    ensures Step(s, uid, Start, now) == State(GetUser(s.users, uid, now), s.orders)
  {
  }

  /** The part of the state an event may touch: the acting user's record
      (which it may create but never removes) and pending order. */
  predicate OnlyTouches(s: State, s': State, uid: UserId) {
    && s.users.Keys <= s'.users.Keys <= s.users.Keys + {uid}
    && s'.orders.Keys - {uid} == s.orders.Keys - {uid}
    && (forall v :: v in s.users && v != uid ==> s'.users[v] == s.users[v])
    && (forall v :: v in s.orders && v != uid ==> v in s'.orders && s'.orders[v] == s.orders[v])
  }

  lemma PayIsLocal(s: State, uid: UserId, now: DateTime)
    requires ValidDateTime(now)
    ensures OnlyTouches(s, Pay(s, uid, now), uid)
    ensures uid in s.users && s.users[uid].freePeriodUsed ==> Pay(s, uid, now).users[uid].freePeriodUsed
  {
    if uid in s.orders {
      var t := PayTerms(s.orders[uid]);
      EngineLocality(s.users, uid, t.months, t.devices, t.price, TrialDays, now);
    }
  }

  lemma GrantTrialIsLocal(s: State, uid: UserId, now: DateTime)
    requires ValidDateTime(now)
    ensures OnlyTouches(s, GrantTrial(s, uid, now), uid)
    ensures GrantTrial(s, uid, now).users[uid].freePeriodUsed ==
      (UpdateSubscriptionFree(s.users, uid, TrialDays, now).Completed?
       || (uid in s.users && s.users[uid].freePeriodUsed))
  {
    EngineLocality(s.users, uid, 0, 0, 0, TrialDays, now);
  }

  /** Every event touches only its own user: other users' records and
      pending orders are unchanged, records are never removed, and at most
      the acting user's record is created. */
  lemma StepIsLocal(s: State, uid: UserId, ev: Event, now: DateTime)
    requires ValidDateTime(now)
    ensures OnlyTouches(s, Step(s, uid, ev, now), uid)
  {
    if ev.Press? && Recognise(ev.code).Some? {
      match Recognise(ev.code).value
      case PeriodFree => GrantTrialIsLocal(s, uid, now);
      case PayCode => PayIsLocal(s, uid, now);
      case _ =>
    }
  }

  /** Once a user has used the free trial, no event clears the flag, so the
      trial is never offered to that user again. */
  lemma FreePeriodUsedIsPermanent(s: State, uid: UserId, ev: Event, now: DateTime, v: UserId)
    requires ValidDateTime(now)
    requires v in s.users && s.users[v].freePeriodUsed
    ensures v in Step(s, uid, ev, now).users
    ensures Step(s, uid, ev, now).users[v].freePeriodUsed
    ensures !TrialOffered(FreePeriodEnabled, Step(s, uid, ev, now).users[v])
  {
    StepIsLocal(s, uid, ev, now);
    if v == uid && ev.Press? && Recognise(ev.code).Some? {
      match Recognise(ev.code).value
      case PeriodFree => GrantTrialIsLocal(s, uid, now);
      case PayCode => PayIsLocal(s, uid, now);
      case _ =>
    }
  }

  /** The only way to set the trial flag is `period_free`, and it always sets
      it when the grant goes through. */
  lemma OnlyTrialSetsFlag(s: State, uid: UserId, c: Callback, now: DateTime)
    requires ValidDateTime(now)
    requires uid !in s.users || !s.users[uid].freePeriodUsed
    ensures
      var s' := Apply(s, uid, c, now);
      uid in s'.users && s'.users[uid].freePeriodUsed ==> c == PeriodFree
    ensures c == PeriodFree && UpdateSubscriptionFree(s.users, uid, TrialDays, now).Completed? ==>
      Apply(s, uid, c, now).users[uid].freePeriodUsed
  {
    match c
    case PeriodFree => GrantTrialIsLocal(s, uid, now);
    case PayCode =>
      if uid in s.orders {
        var t := PayTerms(s.orders[uid]);
        var refreshed := GetUser(s.users, uid, now);
        PaidRenewal(refreshed[uid], t.months, t.devices, t.price, now);
      }
    case _ =>
  }

  /** The buttons keep every pending order well formed. */
  lemma StepKeepsOrdersWellFormed(s: State, uid: UserId, ev: Event, now: DateTime)
    requires ValidDateTime(now)
    requires forall v :: v in s.orders ==> WellFormed(s.orders[v])
    ensures
      var s' := Step(s, uid, ev, now);
      forall v :: v in s'.orders ==> WellFormed(s'.orders[v])
  {
    StepIsLocal(s, uid, ev, now);
    var pending := if uid in s.orders then Some(s.orders[uid]) else None;
    if ev.Press? && Recognise(ev.code).Some? {
      match Recognise(ev.code).value
      case Period1 => ButtonsKeepOrderWellFormed(pending, 1, 1);
      case Period3 => ButtonsKeepOrderWellFormed(pending, 3, 1);
      case Period6 => ButtonsKeepOrderWellFormed(pending, 6, 1);
      case Devices1 => ButtonsKeepOrderWellFormed(pending, 1, 1);
      case Devices3 => ButtonsKeepOrderWellFormed(pending, 1, 3);
      case Devices5 => ButtonsKeepOrderWellFormed(pending, 1, 5);
      case _ =>
    }
  }

  /** Choosing a period discards whatever was pending: devices and price are
      dropped and the discount follows the new period; the users are left
      alone. */
  lemma PeriodOverwritesOrder(s: State, uid: UserId, now: DateTime)
    requires ValidDateTime(now)
    ensures Apply(s, uid, Period1, now) == s.(orders := s.orders[uid := Order(Some(1), Some(0), None, None)])
    ensures Apply(s, uid, Period3, now) == s.(orders := s.orders[uid := Order(Some(3), Some(5), None, None)])
    ensures Apply(s, uid, Period6, now) == s.(orders := s.orders[uid := Order(Some(6), Some(10), None, None)])
  {
  }

  /** Each device button sets the device count its code names, keeps the
      staged period and discount (one month without discount when nothing
      is staged), prices the order from them, and touches nothing else. */
  lemma DevicesCompleteOrder(s: State, uid: UserId, c: Callback, n: nat, now: DateTime)
    requires ValidDateTime(now)
    requires (c == Devices1 && n == 1) || (c == Devices3 && n == 3) || (c == Devices5 && n == 5)
    ensures
      var s' := Apply(s, uid, c, now);
      var o := s'.orders[uid];
      && s'.users == s.users
      && s'.orders == s.orders[uid := o]
      && o.devices == Some(n)
      && (uid in s.orders && s.orders[uid].period.Some? ==> o.period == s.orders[uid].period)
      && (uid in s.orders && s.orders[uid].discountPct.Some? ==> o.discountPct == s.orders[uid].discountPct)
      && (uid !in s.orders ==> o.period == Some(1) && o.discountPct == Some(0) && o.price == Some(100 * n))
      && o.price == Some(n * o.period.value * (100 - o.discountPct.value))
      && (uid in s.orders && WellFormed(s.orders[uid]) ==>
            o.price == Some(n * o.period.value * (100 - DiscountPct(o.period.value))))
  {
    var pending := if uid in s.orders then Some(s.orders[uid]) else None;
    ChooseDevicesPrices(pending, n);
  }

  /** Paying with a pending order renews the subscription on the order's
      terms (defaults 1 month, 1 device, 100 for missing fields) and then
      removes the order, so a second press is a no-op. */
  lemma PayConsumesOrder(s: State, uid: UserId, now: DateTime)
    requires ValidDateTime(now) && uid in s.orders
    requires UpdateSubscription(s.users, uid, PayTerms(s.orders[uid]).months,
                                PayTerms(s.orders[uid]).devices, PayTerms(s.orders[uid]).price, now).Completed?
    ensures
      var s' := Apply(s, uid, PayCode, now);
      && s'.orders == s.orders - {uid}
      && uid in s'.users
      && s'.users[uid].tariff == Paid(PayTerms(s.orders[uid]).months,
                                      PayTerms(s.orders[uid]).devices, PayTerms(s.orders[uid]).price)
      && s'.users[uid].key == DummyKey && s'.users[uid].address == DummyAddress
      && !s'.users[uid].expired
      && s'.users[uid].freePeriodUsed == (uid in s.users && s.users[uid].freePeriodUsed)
      && Apply(s', uid, PayCode, now) == s'
  {
    var t := PayTerms(s.orders[uid]);
    var refreshed := GetUser(s.users, uid, now);
    PaidRenewal(refreshed[uid], t.months, t.devices, t.price, now);
  }

  /** When the renewal raises, the `del` is never reached: the order stays
      pending and only the record refresh made on entry remains. */
  lemma PayOverflowKeepsOrder(s: State, uid: UserId, now: DateTime)
    requires ValidDateTime(now) && uid in s.orders
    ensures
      UpdateSubscription(s.users, uid, PayTerms(s.orders[uid]).months,
                         PayTerms(s.orders[uid]).devices, PayTerms(s.orders[uid]).price, now).Raised? ==>
        Apply(s, uid, PayCode, now) == State(GetUser(s.users, uid, now), s.orders)
  {
    var t := PayTerms(s.orders[uid]);
    PaidEntry(s.users, uid, t.months, t.devices, t.price, now);
  }

  /** Paying with no pending order changes nothing. */
  lemma PayWithoutOrderIsNoOp(s: State, uid: UserId, now: DateTime)
    requires ValidDateTime(now) && uid !in s.orders
    ensures Apply(s, uid, PayCode, now) == s
  {
  }

  /** The payment button on an order whose devices were never chosen buys
      the chosen period for one device at the one-month base price: six
      months for 100 instead of the table's 540. */
  lemma PayWithoutDevicesUsesBasePrice(s: State, s1: State, s2: State, uid: UserId, now: DateTime)
    requires ValidDateTime(now)
    requires ClearOfLastYear(s.users, uid, now)
    requires s1 == Apply(s, uid, Period6, now)
    requires s2 == Apply(s1, uid, PayCode, now)
    ensures uid !in s2.orders && uid in s2.users
    ensures s2.users[uid].tariff == Paid(6, 1, 100)
  {
    PaidCompletes(s.users, uid, 6, 1, 100, now);
    PeriodOverwritesOrder(s, uid, now);
    PayConsumesOrder(s1, uid, now);
  }

  /** Six months then three devices stages the table price 1620. */
  lemma StageSixMonthsThreeDevices(s: State, s1: State, s2: State, uid: UserId, now: DateTime)
    requires ValidDateTime(now)
    requires s1 == Apply(s, uid, Period6, now)
    requires s2 == Apply(s1, uid, Devices3, now)
    ensures s2.users == s.users && uid in s2.orders
    ensures PayTerms(s2.orders[uid]) == Terms(6, 3, 1620)
  {
    PeriodOverwritesOrder(s, uid, now);
    DevicesCompleteOrder(s1, uid, Devices3, 3, now);
  }

  /** Paying renews from the later of the stored end date and today. */
  lemma PayRenewsFromBaseDate(s: State, uid: UserId, now: DateTime)
    requires ValidDateTime(now) && uid in s.orders
    requires WellFormed(s.orders[uid]) && ClearOfLastYear(s.users, uid, now)
    ensures uid in Apply(s, uid, PayCode, now).users
    ensures Subscription.EndDate(Apply(s, uid, PayCode, now).users[uid].subscriptionEnd)
            == AddMonths(BaseDate(GetUser(s.users, uid, now)[uid].subscriptionEnd, now.date),
                         PayTerms(s.orders[uid]).months)
  {
    var t := PayTerms(s.orders[uid]);
    PaidCompletes(s.users, uid, t.months, t.devices, t.price, now);
    PaidEndFromBaseDate(s, uid, now);
  }

  lemma PaidEndFromBaseDate(s: State, uid: UserId, now: DateTime)
    requires ValidDateTime(now) && uid in s.orders
    requires UpdateSubscription(s.users, uid, PayTerms(s.orders[uid]).months,
                                PayTerms(s.orders[uid]).devices, PayTerms(s.orders[uid]).price, now).Completed?
    ensures uid in Apply(s, uid, PayCode, now).users
    ensures Subscription.EndDate(Apply(s, uid, PayCode, now).users[uid].subscriptionEnd)
            == AddMonths(BaseDate(GetUser(s.users, uid, now)[uid].subscriptionEnd, now.date),
                         PayTerms(s.orders[uid]).months)
  {
    var t := PayTerms(s.orders[uid]);
    var refreshed := GetUser(s.users, uid, now);
    PaidRenewal(refreshed[uid], t.months, t.devices, t.price, now);
  }

  /** The full purchase path: six months for three devices at 1620, counted
      from the later of the stored end date and today, and the order is
      gone afterwards. */
  lemma PurchaseSixMonthsThreeDevices(s: State, s1: State, s2: State, s3: State, uid: UserId, now: DateTime)
    requires ValidDateTime(now)
    requires ClearOfLastYear(s.users, uid, now)
    requires s1 == Apply(s, uid, Period6, now)
    requires s2 == Apply(s1, uid, Devices3, now)
    requires s3 == Apply(s2, uid, PayCode, now)
    ensures uid !in s3.orders && uid in s3.users
    ensures s3.users[uid].tariff == Paid(6, 3, 1620)
    ensures Subscription.EndDate(s3.users[uid].subscriptionEnd)
            == AddMonths(BaseDate(GetUser(s.users, uid, now)[uid].subscriptionEnd, now.date), 6)
  {
    StageSixMonthsThreeDevices(s, s1, s2, uid, now);
    PaidCompletes(s.users, uid, 6, 3, 1620, now);
    PayConsumesOrder(s2, uid, now);
    PaidEndFromBaseDate(s2, uid, now);
  }

  /** `period_free` for any user: when the grant completes, the record read
      back holds the seven-day free trial from the base date, the
      placeholders, `expired` cleared and the trial flag set; when it raises,
      only the record refresh remains. Orders are never touched. */
  lemma TrialPressGrants(s: State, uid: UserId, now: DateTime)
    requires ValidDateTime(now)
    ensures
      var eff := UpdateSubscriptionFree(s.users, uid, TrialDays, now);
      var s' := Apply(s, uid, PeriodFree, now);
      && s'.orders == s.orders
      && uid in s'.users
      && (eff.Raised? ==> s'.users == GetUser(s.users, uid, now))
      && (eff.Completed? ==>
            && Subscription.EndDate(s'.users[uid].subscriptionEnd)
               == AddDays(BaseDate(GetUser(s.users, uid, now)[uid].subscriptionEnd, now.date), TrialDays)
            && s'.users[uid].tariff == Trial(TrialDays, 0)
            && s'.users[uid].key == DummyKey && s'.users[uid].address == DummyAddress
            && !s'.users[uid].expired
            && s'.users[uid].freePeriodUsed)
  {
    TrialEntry(s.users, uid, TrialDays, now);
    if UpdateSubscriptionFree(s.users, uid, TrialDays, now).Completed? {
      GrantThenRead(s.users, uid, TrialDays, now);
    }
  }

  /** `period_free` extends again even for a user whose trial is used up
      (the handler trusts the menu to hide the button). */
  lemma RepeatedTrialPressExtends(s: State, uid: UserId, now: DateTime)
    requires ValidDateTime(now)
    requires uid in s.users && s.users[uid].freePeriodUsed
    requires ClearOfLastYear(s.users, uid, now)
    ensures
      var s' := Apply(s, uid, PeriodFree, now);
      var e := Subscription.EndDate(s'.users[uid].subscriptionEnd);
      && e.Some?
      && Before(now.date, e.value)
      && (Subscription.EndDate(s.users[uid].subscriptionEnd).Some? ==>
            Before(Subscription.EndDate(s.users[uid].subscriptionEnd).value, e.value))
      && !s'.users[uid].expired
      && s'.orders == s.orders
  {
    TrialCompletes(s.users, uid, TrialDays, now);
    TrialPressExtends(s, uid, now);
  }

  /** Helper for `RepeatedTrialPressExtends`: the same conclusion once the grant is known to complete. */
  lemma TrialPressExtends(s: State, uid: UserId, now: DateTime)
    requires ValidDateTime(now)
    requires uid in s.users && s.users[uid].freePeriodUsed
    requires UpdateSubscriptionFree(s.users, uid, TrialDays, now).Completed?
    ensures
      var s' := Apply(s, uid, PeriodFree, now);
      var e := Subscription.EndDate(s'.users[uid].subscriptionEnd);
      && e.Some?
      && Before(now.date, e.value)
      && (Subscription.EndDate(s.users[uid].subscriptionEnd).Some? ==>
            Before(Subscription.EndDate(s.users[uid].subscriptionEnd).value, e.value))
      && !s'.users[uid].expired
      && s'.orders == s.orders
  {
    GrantThenRead(s.users, uid, TrialDays, now);
  }
}
