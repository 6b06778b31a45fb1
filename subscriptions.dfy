/** The subscription tracker: one record per tenant, giving the window a
    monthly or yearly plan has paid for. Time is an integer count of
    seconds, and the current time is passed in. */
module Subscriptions {
  import opened Outcomes

  const SecondsPerDay: int := 86400
  const MonthlyDays: int := 30
  const YearlyDays: int := 365

  datatype SubscriptionStatus = Active | Expired

  /** What check_status reports: no record, or the recomputed status. */
  datatype StatusReport = NoSubscription | Reported(status: SubscriptionStatus)

  /** A paid-for period, from `start` to `end`. */
  datatype Window = Window(start: int, end: int)

  /** The length of a plan's period; only "monthly" and "yearly" exist. */
  function PlanDuration(plan: string): (r: Result<int>)
    ensures r.Ok? <==> plan == "monthly" || plan == "yearly"
    ensures plan == "monthly" ==> r == Ok(MonthlyDays * SecondsPerDay)
    ensures plan == "yearly" ==> r == Ok(YearlyDays * SecondsPerDay)
    ensures r.Ok? ==> r.value > 0
  {
    if plan == "monthly" then Ok(MonthlyDays * SecondsPerDay)
    else if plan == "yearly" then Ok(YearlyDays * SecondsPerDay)
    else Err
  }

  /** The window a renewal grants. Without a prior record it starts now;
      with one it starts at the later of the previous end and now, so
      renewing early loses no paid time and renewing late covers no gap. */
  function RenewedWindow(previousEnd: Option<int>, now: int, duration: int): (w: Window)
    requires duration > 0
    ensures w.end == w.start + duration
    ensures w.end >= now + duration
    ensures previousEnd.None? ==> w.start == now
    ensures previousEnd.Some? ==> w.start >= previousEnd.value && w.start >= now
    ensures previousEnd.Some? ==> w.start == previousEnd.value || w.start == now
    ensures previousEnd.Some? ==> w.end > previousEnd.value
  {
    match previousEnd
    case None => Window(now, now + duration)
    case Some(end) =>
      var start := if end > now then end else now;
      Window(start, start + duration)
  }

  /** check_status's comparison: expired only strictly after the end. */
  function StatusAt(end: int, now: int): (s: SubscriptionStatus)
    ensures s == Expired <==> now > end
  {
    if now > end then Expired else Active
  }

  /** Renewing at the very end of the window and renewing one second before
      it give the same window. */
  lemma RenewalHasNoGapAtExpiry(end: int, duration: int)
    requires duration > 0
    ensures RenewedWindow(Some(end), end, duration) == RenewedWindow(Some(end), end - 1, duration)
  {
  }

  /** A renewed subscription reads as active from the renewal until its new
      end, inclusive. */
  lemma RenewedActiveThroughEnd(previousEnd: Option<int>, now: int, duration: int, t: int)
    requires duration > 0
    requires now <= t <= RenewedWindow(previousEnd, now, duration).end
    ensures StatusAt(RenewedWindow(previousEnd, now, duration).end, t) == Active
  {
  }

  /** One tenant's record. Only the status is updated in place. */
  class Subscription {
    const tenantId: int
    const plan: string
    const startAt: int
    const endAt: int
    var status: SubscriptionStatus

    constructor (tenantId: int, plan: string, startAt: int, endAt: int)
      ensures this.tenantId == tenantId && this.plan == plan
      ensures this.startAt == startAt && this.endAt == endAt
      ensures status == Active
    {
      this.tenantId := tenantId;
      this.plan := plan;
      this.startAt := startAt;
      this.endAt := endAt;
      this.status := Active;
    }
  }

  class SubscriptionService {
    var subscriptions: map<int, Subscription>

    ghost predicate Valid()
      reads this
    {
      forall t :: t in subscriptions ==> subscriptions[t].tenantId == t
    }

    constructor ()
      ensures Valid() && subscriptions == map[]
    {
      subscriptions := map[];
    }

    /** The previous end of a tenant's record, if there is one. */
    ghost function PreviousEnd(tenantId: int): Option<int>
      reads this
    {
      if tenantId in subscriptions then Some(subscriptions[tenantId].endAt) else None
    }

    /** Creates or replaces the tenant's record; no history is kept. */
    method Renew(tenantId: int, plan: string, now: int) returns (r: Result<Subscription>)
      requires Valid()
      modifies this
      ensures Valid()
      ensures r.Err? <==> PlanDuration(plan).Err?
      ensures r.Err? ==> subscriptions == old(subscriptions)
      ensures r.Ok? ==> fresh(r.value) && subscriptions == old(subscriptions)[tenantId := r.value]
      ensures r.Ok? ==> && r.value.tenantId == tenantId && r.value.plan == plan && r.value.status == Active
                        && Window(r.value.startAt, r.value.endAt)
                           == RenewedWindow(old(PreviousEnd(tenantId)), now, PlanDuration(plan).value)
    {
      var duration := PlanDuration(plan);
      if duration.Err? {
        return Err;
      }
      var sub: Subscription;
      if tenantId in subscriptions {
        var previous := subscriptions[tenantId];
        var start := if previous.endAt > now then previous.endAt else now;
        sub := new Subscription(tenantId, plan, start, start + duration.value);
      } else {
        sub := new Subscription(tenantId, plan, now, now + duration.value);
      }
      subscriptions := subscriptions[tenantId := sub];
      r := Ok(sub);
    }

    /** Recomputes, stores and reports the tenant's status at time `now`. */
    method CheckStatus(tenantId: int, now: int) returns (report: StatusReport)
      modifies if tenantId in subscriptions then {subscriptions[tenantId]} else {}
      ensures tenantId !in subscriptions ==> report == NoSubscription
      ensures tenantId in subscriptions ==>
        && report == Reported(StatusAt(subscriptions[tenantId].endAt, now))
        && subscriptions[tenantId].status == report.status
    {
      if tenantId !in subscriptions {
        return NoSubscription;
      }
      var sub := subscriptions[tenantId];
      if now > sub.endAt {
        sub.status := Expired;
      } else {
        sub.status := Active;
      }
      report := Reported(sub.status);
    }

    method GetSubscription(tenantId: int) returns (r: Result<Subscription>)
      ensures r.Ok? <==> tenantId in subscriptions
      ensures r.Ok? ==> r.value == subscriptions[tenantId]
    {
      if tenantId !in subscriptions {
        return Err;
      }
      r := Ok(subscriptions[tenantId]);
    }
  }
}
