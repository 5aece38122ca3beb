/**
 * The client record shared by the server and the dashboard, and the status rule
 * that classifies a client at an instant.
 *
 * Every date field of a record is a "YYYY-MM-DD" string. The model keeps the
 * date it denotes, or None when the field is missing: `new Date(undefined)` is
 * an Invalid Date, and every `<` or `>=` comparison with it is false.
 */
module Membership {

  import opened Wrappers
  import opened Calendar

  const Paid: string := "Paid"
  const Unpaid: string := "Unpaid"

  datatype Client = Client(
    name: string,
    phone: string,
    photo: string,
    joinDate: Option<CivilDate>,
    expiryDate: Option<CivilDate>,
    lastVisit: Option<CivilDate>,
    feeStatus: string)

  /** `new Date(expiryDate) < today`. */
  predicate ExpiredAt(expiry: Option<CivilDate>, now: Instant) {
    expiry.Some? && InstantBefore(Midnight(expiry.value), now)
  }

  /** `new Date(expiryDate) >= today`; like `<`, it is false on an Invalid Date. */
  predicate NotExpiredAt(expiry: Option<CivilDate>, now: Instant) {
    expiry.Some? && !InstantBefore(Midnight(expiry.value), now)
  }

  /** The two comparisons are complementary on a date that exists, and both false on a missing one. */
  lemma {:induction false} ComparisonsOnMissingDate(expiry: Option<CivilDate>, now: Instant)
    ensures expiry.Some? ==> (NotExpiredAt(expiry, now) <==> !ExpiredAt(expiry, now))
    ensures expiry.None? ==> !NotExpiredAt(expiry, now) && !ExpiredAt(expiry, now)
  {
  }

  /** The derived status of a client: never stored, recomputed at every instant. */
  datatype Status = Expired | Active | Pending

  /**
   * The status rule, checked in order: expired when the expiry date is behind
   * the current instant, otherwise active when the fee is paid, otherwise pending.
   */
  function StatusOf(c: Client, now: Instant): (s: Status)
    ensures s == Expired <==> ExpiredAt(c.expiryDate, now)
    ensures s == Active <==> !ExpiredAt(c.expiryDate, now) && c.feeStatus == Paid
    ensures s == Pending <==> !ExpiredAt(c.expiryDate, now) && c.feeStatus != Paid
  {
    if ExpiredAt(c.expiryDate, now) then Expired
    else if c.feeStatus == Paid then Active
    else Pending
  }

  /** A client whose expiry date is the current day is already expired, except at midnight exactly. */
  lemma {:induction false} ExpiresOnItsDay(c: Client, now: Instant)
    requires ValidInstant(now) && c.expiryDate == Some(now.date)
    ensures StatusOf(c, now) == Expired <==> now.msOfDay > 0
  {
    SameDayMidnightIsBefore(now);
  }

  /** The status badge of a client card: its CSS class and its text. */
  datatype Badge = Badge(cssClass: string, text: string)

  /** The badge written out in the card template, with its own copy of the status rule. */
  function CardBadge(c: Client, now: Instant): (b: Badge)
    ensures b.text == "Expired" <==> StatusOf(c, now) == Expired
    ensures b.text == "Active" <==> StatusOf(c, now) == Active
    ensures b.text == "Pending" <==> StatusOf(c, now) == Pending
    ensures b.cssClass == "status-expired" <==> b.text == "Expired"
  {
    if ExpiredAt(c.expiryDate, now) then Badge("status-expired", "Expired")
    else if c.feeStatus == Paid then Badge("status-paid", "Active")
    else Badge("status-unpaid", "Pending")
  }

}
