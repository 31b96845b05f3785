# BytePort VPN bot: subscription and order state machine

A Dafny model of the state the Telegram bot in `bot.py` keeps, and of how button presses change it:

- the **user record store** (`get_user_data`): default records for unknown users, and `expired` derived from the stored `YYYY-MM-DD` end date on every read;
- the **renewal engine**: `update_user_subscription` adds calendar months the way `dateutil.relativedelta` does, and `update_user_subscription_free` adds days the way `timedelta` does. Both count from the later of the stored end and now;
- the **order staging area**: the period, devices and pay buttons, the discount table (1 → 0%, 3 → 5%, 6 → 10%) and the price `100 · period · devices · (1 − discount)`;
- the **callback dispatcher**: a step function over the pair (users map, pending-orders map). It covers `/start` and the fifteen whitelisted callback codes. Any other code changes nothing.

The clock is a parameter (`DateTime`: a proleptic Gregorian date with year 1–9999, plus microseconds since midnight). Leap years follow the Gregorian rule of Appendix C of RFC 3339. The stored date has the `full-date` shape of section 5.6 of RFC 3339. Persistence (`save_users_data`) is a no-op: its failures are swallowed, so they never change state.

Files, one module each:

| file | module | models |
|---|---|---|
| `optional.dfy` | `Optional` | `Option` and `GetOr` (Python's `dict.get` with a default) |
| `calendar.dfy` | `Calendar` | dates, ordinals (`date.toordinal`), `+ timedelta(days=n)`, `+ relativedelta(months=n)` |
| `date_text.dfy` | `DateText` | `strftime("%Y-%m-%d")` and `strptime(…, "%Y-%m-%d")` on zero-padded text |
| `subscription.dfy` | `Subscription` | user records, `get_user_data`, paid renewal, trial grant, trial eligibility |
| `orders.dfy` | `Orders` | pending orders, discount table, pricing, pay defaults |
| `dispatcher.dfy` | `Dispatcher` | the callback whitelist and the state effect of each event |

Python's date arithmetic raises past 9999-12-31. The model returns `None` there, and the engine returns `Raised(users)`. When that happens, the record refresh that `get_user_data` already made stays in place. For `pay`, the pending order also stays, because the `del` is never reached.

The `back_main` code is handled by its own handler (`handle_back_main`), which is registered before the catch-all. That handler reads the record with `get_user_data` (via `get_main_menu`), as `/start` does too; `buy`, `back_buy` and `profile` call `get_user_data` directly. Reading a record creates it when it is missing and refreshes `expired`.

## Model

| member | source | states |
|---|---|---|
| `Calendar.NextDay` | bot.py:125 | the next day is a valid date strictly after the input; there is none exactly after 9999-12-31 |
| `Calendar.NextDayIsImmediate` | bot.py:125 | no valid date lies strictly between a date and its successor |
| `Calendar.AddDays` | bot.py:125 | `date + timedelta(days=n)`, one day at a time: a result is a valid date; characterised by `Calendar.AddDaysOrdinal` |
| `Calendar.OrdinalMonotone` | bot.py:125 | the day ordinal is an order embedding: earlier dates have smaller ordinals, and equal ordinals mean equal dates |
| `Calendar.AddDaysOrdinal` | bot.py:125 | adding n days adds n to the ordinal, and it fails exactly when the result would pass the ordinal of 9999-12-31 |
| `Calendar.AddDaysAdvances` | bot.py:125 | adding days never moves backward, and a positive count moves strictly forward |
| `Calendar.AddMonths` | bot.py:97 | `date + relativedelta(months=n)`: a result is a valid date; characterised by `Calendar.AddMonthsShiftsMonth` |
| `Calendar.AddMonthsShiftsMonth` | bot.py:97 | relativedelta month addition moves the month index by exactly n; the day is kept unless the target month is shorter, in which case it is clamped to that month's last day; it fails exactly when the target month is after December 9999 |
| `Calendar.AddMonthsAdvances` | bot.py:97 | adding months never moves backward, and a positive count moves strictly forward |
| `Calendar.AddMonthsMonotone` | bot.py:90-97 | month addition preserves chronological order, so a later base never gives an earlier end |
| `DateText.NumberOfPadded` | bot.py:99 | reading back a zero-padded number that fits its width gives the number |
| `DateText.PaddedOfNumber` | bot.py:89 | padding the value of a digit string to the string's length gives the string back |
| `DateText.Format` | bot.py:99 | `strftime("%Y-%m-%d")`: ten characters with dashes at positions 4 and 7; `DateText.FormatFields` shows the fields are year, month and day in that order, `DateText.ParseFormat` that it inverts `DateText.Parse`, and `DateText.FormatInjective` that it is injective |
| `DateText.FormatFields` | bot.py:99 | the three written fields are all digits and read back, in order, as the year, the month and the day of the date |
| `DateText.Parse` | bot.py:69 | `strptime(…, "%Y-%m-%d")`: anything it reads is a valid date; `DateText.FormatParse` shows it accepts only canonical spellings, so with `DateText.FormatFields` it reads the year, month and day from their own fields |
| `DateText.ParseFormat` | bot.py:99 | every date the bot writes parses back to the same date |
| `DateText.FormatParse` | bot.py:69 | every string that parses is the canonical spelling of its date |
| `DateText.FormatInjective` | bot.py:99 | distinct dates are stored as distinct strings |
| `Subscription.GetUser` | bot.py:50-77 | an unknown user gets exactly the default record (empty end, tariff, key and address; `expired` true; trial unused); a known user keeps every field except `expired`, which is recomputed; all other users are unchanged |
| `Subscription.GetUserIgnoresStoredFlag` | bot.py:66-76 | the stored `expired` value never affects what a read returns |
| `Subscription.GetUserIdempotent` | bot.py:55-66 | a second lookup at the same instant creates and changes nothing |
| `Subscription.ExpiredAt` | bot.py:66-75 | the derivation of `expired`; no contract of its own, characterised by `Subscription.ExpiredMeaning` |
| `Subscription.ExpiredMeaning` | bot.py:67-75 | an empty or unreadable end is expired; otherwise a subscription is current before its end date, expired after it, and on the end date itself current only at 00:00:00.000000 |
| `Subscription.BaseDateIsLater` | bot.py:86-95 | the date renewal counts from is the later of the stored end date and today, or today when there is no readable end |
| `Subscription.BaseTime` | bot.py:86-95 | the instant renewal counts from has a valid date; `Subscription.BaseDateIsLater` gives that date |
| `Subscription.PaidRecord` | bot.py:97-107 | the record a payment writes, or none on overflow; no contract of its own, characterised by `Subscription.PaidRenewal` |
| `Subscription.UpdateSubscription` | bot.py:79-108 | `update_user_subscription`; no contract of its own, characterised by `Subscription.PaidEntry` and `Subscription.EngineLocality` |
| `Subscription.PaidEntry` | bot.py:79-108 | the entry point completes exactly when month addition from `max(end, today)` does; on overflow only the entry read remains; on completion the stored record has that end, `Paid{months, devices, price}`, the placeholder key and address, `expired` false and the trial flag as before |
| `Subscription.PaidRenewal` | bot.py:79-108 | paid renewal stores an end that reads back as `addMonths(max(end, today), months)`, and it fails exactly when that overflows; the tariff becomes `Paid{months, devices, price}`, key and address become the placeholders, `expired` becomes false, and the trial flag is untouched |
| `Subscription.RenewalKeepsRemainingTime` | bot.py:86-99 | the new end is no earlier than the old end or than today; an early renewal adds the months to the old end, and a lapsed or missing one adds them to today |
| `Subscription.PaidRecordNotExpired` | bot.py:97-107 | after renewing by at least one month, the stored `expired = false` agrees with what the next read derives |
| `Subscription.TrialGrant` | bot.py:110-132 | a trial grant stores `addDays(max(end, today), days)`, and it fails exactly when that overflows; the tariff becomes `Trial{days, 0}`, `expired` becomes false, the trial flag becomes true, and the trial is no longer offered |
| `Subscription.RepeatedTrialExtends` | bot.py:114-131 | the engine does not check eligibility: a user whose trial is used up still gets an end strictly later than both today and the old end |
| `Subscription.TrialRecord` | bot.py:125-131 | the record a trial grant writes, or none on overflow; no contract of its own, characterised by `Subscription.TrialGrant` |
| `Subscription.UpdateSubscriptionFree` | bot.py:110-132 | `update_user_subscription_free`; no contract of its own, characterised by `Subscription.TrialEntry` and `Subscription.EngineLocality` |
| `Subscription.TrialEntry` | bot.py:110-132 | the entry point completes exactly when day addition from `max(end, today)` does; on overflow only the entry read remains; on completion the stored record has that end, `Trial{days, 0}`, the placeholder key and address, `expired` false and the trial flag set |
| `Subscription.TrialOffered` | bot.py:223-225 | whether `buy` and `back_buy` show the trial button; `Subscription.TrialGrant` and `Dispatcher.FreePeriodUsedIsPermanent` show it is withdrawn for good after a grant |
| `Subscription.TrialRecordNotExpired` | bot.py:125-130 | after a trial of at least one day, the stored `expired = false` agrees with the derivation |
| `Subscription.PaidCompletes` | bot.py:97 | when neither today nor the stored end falls in 9999, a renewal of up to twelve months never raises |
| `Subscription.TrialCompletes` | bot.py:125 | when neither today nor the stored end falls in 9999, a grant of up to 365 days never raises |
| `Subscription.GrantThenRead` | bot.py:233-234 | reading a record right after a completed grant leaves it as granted: not expired, trial used, and an end after today and after any earlier end |
| `Subscription.EngineLocality` | bot.py:79-132 | both engine entry points touch only their own user's record, never remove a record, never clear the trial flag, and the trial path sets the flag exactly when it completes |
| `Orders.ChoosePeriod` | bot.py:247-254 | an offered period gives a well-formed order; paying it at once charges one device at 100; the next device choice is priced from this period and its table discount alone, so nothing staged earlier survives |
| `Orders.PriceIsExact` | bot.py:275-277 | the price equals period × devices × (100 − discount percent), with no truncation by the division |
| `Orders.DiscountPct` | bot.py:248-252 | the discount is between 0 and 10 percent; `Orders.PriceTable` gives its effect on every menu price |
| `Orders.TotalPrice` | bot.py:275-277 | the price formula; no contract of its own, characterised by `Orders.PriceIsExact` |
| `Orders.PriceTable` | bot.py:247-277 | the nine menu prices, including 6 months × 3 devices = 1620 and 3 × 1 = 285 |
| `Orders.LongerPeriodCheaperPerMonth` | bot.py:247-277 | among offered periods, a longer period never costs more per month, and never costs less in total |
| `Orders.ChooseDevicesPrices` | bot.py:266-278 | choosing devices sets them, keeps the staged period and discount (falling back to one month and no discount for whichever is missing, or for a missing order), and prices the order from them |
| `Orders.ChooseDevices` | bot.py:266-278 | the devices button on the staged order; no contract of its own, characterised by `Orders.ChooseDevicesPrices` |
| `Orders.ButtonsKeepOrderWellFormed` | bot.py:247-278 | the period and devices buttons produce only well-formed orders: an offered period with its table discount, and either no devices or offered devices priced by the table |
| `Orders.PayTerms` | bot.py:298-300 | the terms `pay` reads from an order; no contract of its own, characterised by `Orders.PayTermsOfWellFormed` |
| `Orders.PayTermsOfWellFormed` | bot.py:296-300 | paying a priced order charges the table price; paying an order with no devices charges one device at 100, whatever the period |
| `Dispatcher.Recognise` | bot.py:177-182 | a recognised code is exactly its button's code |
| `Dispatcher.RecogniseMatchesWhitelist` | bot.py:177-193 | a code is recognised if and only if it is on the whitelist, and each button's code is recognised as that button |
| `Dispatcher.IsValidCallback` | bot.py:189-190 | the handler's literal scan of the list answers true exactly for whitelisted codes, and so agrees with `Recognise`, which the step function uses in its place |
| `Dispatcher.PressDispatch` | bot.py:189-193 | a code outside the whitelist changes nothing; a button's code has exactly that button's effect |
| `Dispatcher.Step` | bot.py:162-193 | one event; no contract of its own, characterised by `Dispatcher.PressDispatch`, `Dispatcher.StepIsLocal` and `Dispatcher.StepKeepsOrdersWellFormed` |
| `Dispatcher.Apply` | bot.py:195-377 | one recognised button; no contract of its own, characterised by `Dispatcher.MenuCodesOnlyReadRecord` and the per-button lemmas below |
| `Dispatcher.StagePeriod` | bot.py:247-254 | the period buttons; characterised by `Dispatcher.PeriodOverwritesOrder` |
| `Dispatcher.StageDevices` | bot.py:265-278 | the device buttons; characterised by `Dispatcher.DevicesCompleteOrder` |
| `Dispatcher.Pay` | bot.py:295-315 | the pay button; characterised by `Dispatcher.PayConsumesOrder`, `Dispatcher.PayOverflowKeepsOrder`, `Dispatcher.PayWithoutOrderIsNoOp` and `Dispatcher.PaidEndFromBaseDate` |
| `Dispatcher.GrantTrial` | bot.py:231-234 | the trial button; characterised by `Dispatcher.TrialPressGrants`, `Dispatcher.OnlyTrialSetsFlag` and `Dispatcher.RepeatedTrialPressExtends` |
| `Dispatcher.MenuCodesOnlyReadRecord` | bot.py:162-175 | `/start`, `buy`, `profile`, `back_main` and `back_buy` only create or refresh the user's record; `info`, `install` and `back_devices` change nothing |
| `Dispatcher.StepIsLocal` | bot.py:184-377 | every event touches only its sender's record and order, never removes a record, and creates at most the sender's record |
| `Dispatcher.FreePeriodUsedIsPermanent` | bot.py:221-225 | once `free_period_used` is true, no event sets it back, so the trial button is never offered to that user again |
| `Dispatcher.OnlyTrialSetsFlag` | bot.py:230-233 | only `period_free` sets the trial flag, and it always sets it when the grant completes |
| `Dispatcher.StepKeepsOrdersWellFormed` | bot.py:246-278 | every event keeps all pending orders well formed |
| `Dispatcher.PeriodOverwritesOrder` | bot.py:246-254 | `period_1`, `period_3` and `period_6` replace the whole pending order with `{period, discount}` and leave the users alone |
| `Dispatcher.DevicesCompleteOrder` | bot.py:265-278 | `devices_1`, `devices_3` and `devices_5` set 1, 3 and 5 devices, keep the staged period and discount (or use one month at no discount, priced 100 per device), price the order from them, at the table price for a well-formed order, and change nothing else |
| `Dispatcher.PayConsumesOrder` | bot.py:295-315 | `pay` with an order whose renewal completes stores the order's terms (defaults 1/1/100) as the tariff, the placeholder key and address, `expired` false and the trial flag as before, removes the order, and makes a second `pay` a no-op, provided the confirmation message is delivered (see `Dispatcher.Pay` under Left out) |
| `Dispatcher.PayOverflowKeepsOrder` | bot.py:296-315 | when the renewal raises, the order stays pending and only the record refresh made on entry remains |
| `Dispatcher.PayWithoutOrderIsNoOp` | bot.py:295-297 | `pay` with no pending order changes nothing |
| `Dispatcher.PayWithoutDevicesUsesBasePrice` | bot.py:296-301 | for a user clear of the year 9999, `period_6` followed directly by `pay` buys six months for one device at 100, not at the table's 540 |
| `Dispatcher.StageSixMonthsThreeDevices` | bot.py:247-278 | `period_6` then `devices_3` stages the terms 6 months, 3 devices, 1620 |
| `Dispatcher.PayRenewsFromBaseDate` | bot.py:296-301 | for a well-formed order, and a user clear of the year 9999, `pay` moves the end to the order's months after the later of the stored end date and today |
| `Dispatcher.PaidEndFromBaseDate` | bot.py:296-301 | the same, for any order whose renewal completes |
| `Dispatcher.PurchaseSixMonthsThreeDevices` | bot.py:246-315 | for a user clear of the year 9999, the full button path records `Paid{6, 3, 1620}`, counts from `max(end, today)`, and leaves no pending order |
| `Dispatcher.TrialPressGrants` | bot.py:230-234 | `period_free` for any user: a completed grant leaves a record that reads back with the seven-day trial end from `max(end, today)`, `Trial{7, 0}`, the placeholders, `expired` false and the flag set; a raised one leaves only the refresh; orders are never touched |
| `Dispatcher.RepeatedTrialPressExtends` | bot.py:230-234 | for a user clear of the year 9999, `period_free` still extends the end even when the user's trial is used up. The new end is after both today and the old end, it reads back as not expired, and orders are untouched |

## Left out

- Telegram transport and rendering: message texts, keyboards, `edit_message_text`, `answer_callback_query`, and the `info`, `install`, `profile` and `back_*` screens. They are UI over an external library. Only their state effects are modelled.
- Dispatcher.Pay: treats the confirmation message as infallible. In the source the renewal (bot.py:301) runs before `edit_message_text` (bot.py:313), and the order is deleted only after it (bot.py:315). If that platform call raises, the renewal stays but the order survives, so a further `pay` renews again. The model, and so `Dispatcher.PayConsumesOrder`, always removes the order after a completed renewal.
- `server.py` (the Flask liveness endpoint) and the daemon thread that starts it (bot.py:9-10). This is network I/O.
- Loading and saving `users.json`, and logging (bot.py:29-44). Save failures are swallowed and never change the in-memory state. The model does not represent records loaded from a file that lack fields or have other shapes.
- `threading.Lock` and the races it does not prevent. Events are processed one at a time.
- Dispatcher.Step: uses one instant for every clock reading within an event. The source calls `datetime.now()` separately: in the `get_user_data` that each renewal function starts with, in the renewal function itself, and, for `period_free`, once more in the `get_user_data` that follows the grant (bot.py:234). The readings differ by microseconds. When renewal completes, the `expired` value from the first reading is overwritten. When the date arithmetic raises (bot.py:97, bot.py:125), nothing overwrites it, so the stored `expired` comes from that first reading; the model derives it from the single instant.
- DateText.Parse: accepts only the zero-padded `YYYY-MM-DD` that the bot itself writes. Python's `strptime` also accepts unpadded month and day fields, a space before a one-digit day, and non-ASCII decimal digits. The model reads all of these as a parse failure.
- DateText.Format: always pads the year to four digits. On glibc, `strftime("%Y")` does not pad years below 1000. A clock reading before year 1000 is the only way to reach that case.
- Calendar.AddMonths: takes a non-negative month count. The buttons and the pay defaults only ever pass 1, 3 or 6, so negative `relativedelta` months are not modelled.
- Orders.TotalPrice: uses an integer discount percent in place of the float (0.05, 0.10). For the nine offered period and device pairs, the float result truncates to the same integer as the exact price.
- User identifiers: the store keys records by `str(user_id)` and orders by `user_id`. The model keys both by the integer identifier, because `str` is injective on integers.
