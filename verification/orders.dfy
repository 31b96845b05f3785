/** The order staging area of `bot.py`: the per-user pending order that the
    period and device buttons fill in and the payment button consumes, and
    the price it carries. The discount, a float (0.05, 0.10) in the program,
    is an integer percent here. */
module Orders {
  import opened Optional

  /** A pending order; a field the program has not written yet is `None`. */
  datatype Order = Order(
    period: Option<nat>,
    discountPct: Option<int>,
    devices: Option<nat>,
    price: Option<int>)

  /** The price of one device for one month. */
  const BasePrice := 100

  /** The terms a payment is made on. */
  datatype Terms = Terms(months: nat, devices: nat, price: int)

  /** The discount the period button attaches: 5% for three months, 10% for
      six, none otherwise. */
  function DiscountPct(period: int): (pct: int)
    ensures 0 <= pct <= 10
  {
    if period == 3 then 5 else if period == 6 then 10 else 0
  }

  /** `int(100 * period * devices * (1 - discount))` with the discount in
      percent: floor division, which truncates like `int()` on the
      non-negative amounts the buttons produce. */
  function TotalPrice(period: int, devices: int, pct: int): int {
    (BasePrice * period * devices * (100 - pct)) / 100
  }

  /** Choosing a period replaces the whole pending order: an offered period
      gives a well-formed order, paying it straight away charges one device
      at the base price, and whatever devices are chosen next are priced
      from this period and its table discount, nothing earlier surviving. */
  function ChoosePeriod(period: nat): (o: Order)
    ensures OfferedPeriod(period) ==> WellFormed(o)
    ensures PayTerms(o) == Terms(period, 1, BasePrice)
    ensures forall n: nat :: ChooseDevices(Some(o), n).price == Some(TotalPrice(period, n, DiscountPct(period)))
  {
    Order(Some(period), Some(DiscountPct(period)), None, None)
  }

  /** Choosing devices completes the pending order (or a fresh one), falling
      back to one month without discount, and prices it. */
  function ChooseDevices(pending: Option<Order>, devices: nat): (o: Order)
  {
    var existing := pending.GetOr(Order(None, None, None, None));
    var period := existing.period.GetOr(1);
    var pct := existing.discountPct.GetOr(0);
    Order(Some(period), Some(pct), Some(devices), Some(TotalPrice(period, devices, pct)))
  }

  /** What the payment button charges for a pending order: missing fields
      default to one month, one device and 100. */
  function PayTerms(o: Order): Terms {
    Terms(o.period.GetOr(1), o.devices.GetOr(1), o.price.GetOr(BasePrice))
  }

  /** The periods and device counts the buttons offer. */
  predicate OfferedPeriod(p: int) {
    p == 1 || p == 3 || p == 6
  }

  predicate OfferedDevices(n: int) {
    n == 1 || n == 3 || n == 5
  }

  /** The shapes a pending order takes when only the buttons write it: a
      period from the menu with its table discount, and either no devices
      yet or offered devices priced by the table. */
  predicate WellFormed(o: Order) {
    && o.period.Some? && OfferedPeriod(o.period.value)
    && o.discountPct == Some(DiscountPct(o.period.value))
    && (o.devices.None? <==> o.price.None?)
    && (o.devices.Some? ==>
          OfferedDevices(o.devices.value)
          && o.price.value == TotalPrice(o.period.value, o.devices.value, o.discountPct.value))
  }

  // ---------------------------------------------------------------------------
  // Properties
  // ---------------------------------------------------------------------------

  /** The price is exactly period × devices × (100 − discount): the division
      by 100 never truncates. */
  lemma PriceIsExact(period: int, devices: int, pct: int)
    ensures TotalPrice(period, devices, pct) == period * devices * (100 - pct)
    ensures period >= 0 && devices >= 0 && pct <= 100 ==> TotalPrice(period, devices, pct) >= 0
  {
    var k := period * devices * (100 - pct);
    assert BasePrice * period * devices * (100 - pct) == 100 * k;
  }

  /** The full price table the menu offers. */
  lemma PriceTable()
    ensures TotalPrice(1, 1, DiscountPct(1)) == 100
    ensures TotalPrice(1, 3, DiscountPct(1)) == 300
    ensures TotalPrice(1, 5, DiscountPct(1)) == 500
    ensures TotalPrice(3, 1, DiscountPct(3)) == 285
    ensures TotalPrice(3, 3, DiscountPct(3)) == 855
    ensures TotalPrice(3, 5, DiscountPct(3)) == 1425
    ensures TotalPrice(6, 1, DiscountPct(6)) == 540
    ensures TotalPrice(6, 3, DiscountPct(6)) == 1620
    ensures TotalPrice(6, 5, DiscountPct(6)) == 2700
  {
  }

  /** A longer period never costs more per month, and a longer period never
      costs less in total. */
  lemma LongerPeriodCheaperPerMonth(p: int, q: int, devices: int)
    requires OfferedPeriod(p) && OfferedPeriod(q) && p <= q && devices >= 1
    ensures TotalPrice(q, devices, DiscountPct(q)) * p <= TotalPrice(p, devices, DiscountPct(p)) * q
    ensures TotalPrice(p, devices, DiscountPct(p)) <= TotalPrice(q, devices, DiscountPct(q))
  {
    PriceIsExact(p, devices, DiscountPct(p));
    PriceIsExact(q, devices, DiscountPct(q));
    assert DiscountPct(p) <= DiscountPct(q);
    assert (100 - DiscountPct(q)) * q * p <= (100 - DiscountPct(p)) * p * q;
    assert devices * ((100 - DiscountPct(q)) * q * p) <= devices * ((100 - DiscountPct(p)) * p * q);
    assert devices * p * (100 - DiscountPct(p)) <= devices * q * (100 - DiscountPct(q));
  }

  /** Choosing devices keeps the staged period and discount and prices the
      order from them; a missing period falls back to one month and a
      missing discount to none, as does a missing order. */
  lemma ChooseDevicesPrices(pending: Option<Order>, devices: nat)
    ensures
      var o := ChooseDevices(pending, devices);
      && o.devices == Some(devices)
      && (pending.Some? && pending.value.period.Some? ==> o.period == pending.value.period)
      && (pending.Some? && pending.value.discountPct.Some? ==> o.discountPct == pending.value.discountPct)
      && (pending.Some? && pending.value.period.None? ==> o.period == Some(1))
      && (pending.Some? && pending.value.discountPct.None? ==> o.discountPct == Some(0))
      && (pending.None? ==> o.period == Some(1) && o.discountPct == Some(0))
      && o.price == Some(o.period.value * devices * (100 - o.discountPct.value))
  {
    var o := ChooseDevices(pending, devices);
    PriceIsExact(o.period.value, devices, o.discountPct.value);
  }

  /** The buttons keep a pending order well formed. */
  lemma ButtonsKeepOrderWellFormed(pending: Option<Order>, period: nat, devices: nat)
    requires pending.Some? ==> WellFormed(pending.value)
    requires OfferedPeriod(period) && OfferedDevices(devices)
    ensures WellFormed(ChoosePeriod(period))
    ensures WellFormed(ChooseDevices(pending, devices))
  {
  }

  /** Paying a well-formed order charges the table price when devices were
      chosen, and one device at the base price otherwise, whatever the
      period. */
  lemma PayTermsOfWellFormed(o: Order)
    requires WellFormed(o)
    ensures PayTerms(o).months == o.period.value
    ensures o.devices.Some? ==>
      PayTerms(o) == Terms(o.period.value, o.devices.value,
                           o.period.value * o.devices.value * (100 - DiscountPct(o.period.value)))
    ensures o.devices.None? ==> PayTerms(o) == Terms(o.period.value, 1, BasePrice)
  {
    if o.devices.Some? {
      PriceIsExact(o.period.value, o.devices.value, o.discountPct.value);
    }
  }
}
