/**
 * The dashboard page's pure display rules (src/app/dashboard/page.tsx):
 * `formatTimeLeft`, the three summary counters over the listed orders, the
 * status badge and when the Extend action is offered.
 */
module DashboardPage {
  import opened Js
  import opened DashboardRoute

  // ---------------------------------------------------------------------
  // formatTimeLeft (lines 52-62)

  function Days(t: int): int { t / MsPerDay }
  function Hours(t: int): int { (t % MsPerDay) / MsPerHour }
  function Minutes(t: int): int { (t % MsPerHour) / MsPerMinute }

  function FormatTimeLeft(timeLeft: int): string
  {
    if timeLeft <= 0 then "Expired"
    else if Days(timeLeft) > 0 then DecimalOf(Days(timeLeft)) + "d " + DecimalOf(Hours(timeLeft)) + "h"
    else if Hours(timeLeft) > 0 then DecimalOf(Hours(timeLeft)) + "h " + DecimalOf(Minutes(timeLeft)) + "m"
    else DecimalOf(Minutes(timeLeft)) + "m"
  }

  /** "Expired" is shown exactly for no time left; any other text ends in an hour or minute unit. */
  lemma FormatExpiredIff(t: int)
    ensures FormatTimeLeft(t) == "Expired" <==> t <= 0
    ensures t > 0 ==> FormatTimeLeft(t)[|FormatTimeLeft(t)| - 1] in "hm"
  {
    if t > 0 {
      var s := FormatTimeLeft(t);
      var unit := if Days(t) > 0 then 'h' else if Hours(t) > 0 then 'm' else 'm';
      assert s[|s| - 1] == unit;
      assert "Expired"[6] == 'd';
    }
  }

  /** The remainder by an hour is the s of any t == k hours + s with s under an hour. */
  lemma HourRemainder(t: int, k: int, s: int)
    requires t == k * MsPerHour + s && 0 <= s < MsPerHour
    ensures t % MsPerHour == s
  {
  }

  /** For positive t the three fields are its whole days, the hours within the day and the minutes within the hour. */
  lemma TimeFields(t: int)
    requires t > 0
    ensures Days(t) >= 0 && 0 <= Hours(t) < 24 && 0 <= Minutes(t) < 60
    ensures 0 <= t - (Days(t) * MsPerDay + Hours(t) * MsPerHour + Minutes(t) * MsPerMinute) < MsPerMinute
  {
    var d, inDay := t / MsPerDay, t % MsPerDay;
    var h, inHourOfDay := inDay / MsPerHour, inDay % MsPerHour;
    assert t == d * MsPerDay + inDay;
    assert inDay == h * MsPerHour + inHourOfDay;
    assert 0 <= h < 24;
    assert t == (d * 24 + h) * MsPerHour + inHourOfDay;
    HourRemainder(t, d * 24 + h, inHourOfDay);
    var m, rest := inHourOfDay / MsPerMinute, inHourOfDay % MsPerMinute;
    assert inHourOfDay == m * MsPerMinute + rest;
  }

  /**
   * A day or more left shows the whole days and the remaining whole hours:
   * for any d and h < 24 with d days h hours <= t < d days h+1 hours, the text is "<d>d <h>h".
   */
  lemma FormatDaysHours(t: int, d: int, h: int)
    requires d >= 1 && 0 <= h < 24
    requires d * MsPerDay + h * MsPerHour <= t < d * MsPerDay + (h + 1) * MsPerHour
    ensures FormatTimeLeft(t) == DecimalOf(d) + "d " + DecimalOf(h) + "h"
  {
    TimeFields(t);
    assert Days(t) == d;
    assert Hours(t) == h;
  }

  /** Under a day but an hour or more left shows whole hours and minutes. */
  lemma FormatHoursMinutes(t: int, h: int, m: int)
    requires 1 <= h < 24 && 0 <= m < 60
    requires h * MsPerHour + m * MsPerMinute <= t < h * MsPerHour + (m + 1) * MsPerMinute
    ensures FormatTimeLeft(t) == DecimalOf(h) + "h " + DecimalOf(m) + "m"
  {
    TimeFields(t);
    assert Days(t) == 0;
    assert Hours(t) == h;
    assert Minutes(t) == m;
  }

  /** Under an hour left shows whole minutes only, so under a minute shows "0m". */
  lemma FormatMinutes(t: int, m: int)
    requires 0 <= m < 60
    requires 0 < t && m * MsPerMinute <= t < (m + 1) * MsPerMinute
    ensures FormatTimeLeft(t) == DecimalOf(m) + "m"
    ensures t < MsPerMinute ==> FormatTimeLeft(t) == "0m"
  {
    TimeFields(t);
    assert Days(t) == 0 && Hours(t) == 0;
    assert Minutes(t) == m;
  }

  // ---------------------------------------------------------------------
  // The summary counters (lines 144, 160, 176)

  function CountWhere(views: seq<OrderView>, p: OrderView -> bool): (n: nat)
    ensures n <= |views|
  {
    if views == [] then 0
    else CountWhere(views[..|views| - 1], p) + (if p(views[|views| - 1]) then 1 else 0)
  }

  predicate IsActive(v: OrderView) { !v.expired && v.order.status == Orders.Completed }
  predicate IsExpiringSoon(v: OrderView) { v.timeLeft > 0 && v.timeLeft < 24 * 60 * 60 * 1000 }
  predicate IsShownExpired(v: OrderView) { v.expired }

  function ActiveCount(views: seq<OrderView>): nat { CountWhere(views, IsActive) }
  function ExpiringSoonCount(views: seq<OrderView>): nat { CountWhere(views, IsExpiringSoon) }
  function ExpiredCount(views: seq<OrderView>): nat { CountWhere(views, IsShownExpired) }

  /** Two conditions that never hold together count at most the whole list between them. */
  lemma {:induction false} CountDisjoint(views: seq<OrderView>, p: OrderView -> bool, q: OrderView -> bool)
    requires forall i :: 0 <= i < |views| ==> !(p(views[i]) && q(views[i]))
    ensures CountWhere(views, p) + CountWhere(views, q) <= |views|
  {
    if views != [] {
      CountDisjoint(views[..|views| - 1], p, q);
    }
  }

  /** A count is the number of positions that satisfy the condition: it and its complement make up the list. */
  lemma {:induction false} CountComplement(views: seq<OrderView>, p: OrderView -> bool)
    ensures CountWhere(views, p) + CountWhere(views, v => !p(v)) == |views|
  {
    if views != [] {
      CountComplement(views[..|views| - 1], p);
    }
  }

  /** A condition that holds nowhere counts zero, and one that holds everywhere counts the whole list. */
  lemma {:induction false} CountExtremes(views: seq<OrderView>, p: OrderView -> bool)
    ensures (forall i :: 0 <= i < |views| ==> !p(views[i])) ==> CountWhere(views, p) == 0
    ensures (forall i :: 0 <= i < |views| ==> p(views[i])) ==> CountWhere(views, p) == |views|
  {
    if views != [] {
      CountExtremes(views[..|views| - 1], p);
    }
  }

  /**
   * Each counter is at most the number of orders; no order is both active
   * and expired, and in a listing from the API no order is both expiring
   * soon and expired.
   */
  lemma CountersBounded(orders: seq<Orders.OrderRow>, now: int)
    ensures var views := Views(orders, now);
      ActiveCount(views) <= |views| && ExpiringSoonCount(views) <= |views| && ExpiredCount(views) <= |views| &&
      ActiveCount(views) + ExpiredCount(views) <= |views| &&
      ExpiringSoonCount(views) + ExpiredCount(views) <= |views|
  {
    var views := Views(orders, now);
    CountDisjoint(views, IsActive, IsShownExpired);
    forall i | 0 <= i < |views|
      ensures !(IsExpiringSoon(views[i]) && IsShownExpired(views[i]))
    {
      TimeLeftAndExpired(orders[i].expiry, now);
    }
    CountDisjoint(views, IsExpiringSoon, IsShownExpired);
  }

  // ---------------------------------------------------------------------
  // Status badge (lines 267-275) and the Extend action (line 301)

  function StatusBadge(v: OrderView): string
  {
    if v.expired then "Expired" else v.order.status
  }

  predicate OffersExtend(v: OrderView)
  {
    !v.expired
  }

  /**
   * In a listing, the badge reads "Expired" for an order past its expiry and
   * otherwise the stored status; Extend is offered exactly for orders
   * without an expiry or not yet past it, whatever their status.
   */
  lemma BadgeAndExtend(r: Orders.OrderRow, now: int)
    ensures var v := View(r, now);
      (StatusBadge(v) == if r.expiry.Some? && r.expiry.value < now then "Expired" else r.status) &&
      (OffersExtend(v) <==> r.expiry.None? || r.expiry.value >= now)
  {
  }
}
