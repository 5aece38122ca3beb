/**
 * The server's record handlers over an in-memory store of client records, the
 * owner credentials, and the session of the one caller.
 *
 * Each handler first passes the authentication gate (all but login and
 * add-client), then reads and writes the store. A handler whose body throws
 * answers 500 and leaves the store as it was; a lookup of a missing id yields
 * null, so an update or delete of a missing id changes nothing and still
 * answers 200. "today" is the parameter `now`.
 */
module Server {

  import opened Wrappers
  import opened Calendar
  import opened Membership
  import opened Listing

  /** A record's identifier, handed out by the store on creation. */
  type Id = nat

  /** The JSON answers the handlers send. */
  datatype Reply =
    | Message(text: string)         // 200 { message }
    | Outcome(success: bool)        // 200 { success }
    | Rejected(text: string)        // 200 { success: false, message }
    | Created                       // 201 { success: true }
    | Unauthorized                  // 401 { message: "Unauthorized" }
    | ServerError(text: string)     // 500 { message } or { error }

  function StatusCode(r: Reply): (code: nat)
    ensures code == 401 <==> r == Unauthorized
    ensures code == 500 <==> r.ServerError?
    ensures code == 201 <==> r == Created
    ensures code == 200 <==> r.Message? || r.Outcome? || r.Rejected?
  {
    match r
    case Created => 201
    case Unauthorized => 401
    case ServerError(_) => 500
    case _ => 200
  }

  /** The multipart body of add-client: its text fields and the path of the uploaded photo, if any. */
  datatype AddRequest = AddRequest(name: string, phone: string, joinDate: Option<CivilDate>, uploadedPath: Option<string>)

  /**
   * The record add-client saves: the body's name, phone and join date, the
   * uploaded file's path or an empty photo, the schema's default fee status
   * "Unpaid", and neither an expiry date nor a last visit.
   */
  function NewRecord(req: AddRequest): (c: Client)
    ensures c.name == req.name && c.phone == req.phone && c.joinDate == req.joinDate
    ensures req.uploadedPath.Some? ==> c.photo == req.uploadedPath.value
    ensures req.uploadedPath.None? ==> c.photo == ""
    ensures c.feeStatus == Unpaid && c.expiryDate.None? && c.lastVisit.None?
  {
    Client(req.name, req.phone, if req.uploadedPath.Some? then req.uploadedPath.value else "",
           req.joinDate, None, None, Unpaid)
  }

  /** Toggle-fee's new status: "Paid" becomes "Unpaid", and every other value becomes "Paid". */
  function ToggledFee(fee: string): (r: string)
    ensures r == Paid || r == Unpaid
    ensures r == Unpaid <==> fee == Paid
  {
    if fee == Paid then Unpaid else Paid
  }

  /** Toggling twice restores a "Paid" or "Unpaid" status. */
  lemma {:induction false} ToggleTwiceRestores(fee: string)
    requires fee == Paid || fee == Unpaid
    ensures ToggledFee(ToggledFee(fee)) == fee
  {
  }

  /** Any other stored status comes back from two toggles as "Unpaid". */
  lemma {:induction false} ToggleTwiceNormalises(fee: string)
    requires fee != Paid
    ensures ToggledFee(ToggledFee(fee)) == Unpaid
  {
  }

  /**
   * Renew's new expiry: the base is the stored expiry instant, or the current
   * instant when the expiry is behind it; one month is added to the base's date.
   * This is one month after the later of the expiry date and today's date, so
   * the expiry always moves forward and lands after today.
   */
  function RenewedExpiry(expiry: CivilDate, now: Instant): (r: CivilDate)
    ensures r == AddMonths(LaterDate(expiry, now.date), 1)
    ensures DateBefore(expiry, r) && DateBefore(now.date, r)
  {
    var base := if InstantBefore(Midnight(expiry), now) then now else Midnight(expiry);
    assert base.date == LaterDate(expiry, now.date);
    MonthAfterLaterDate(expiry, now.date);
    AddMonths(base.date, 1)
  }

  /** A month after the later of two dates is after both of them. */
  lemma {:induction false} MonthAfterLaterDate(a: CivilDate, b: CivilDate)
    ensures DateBefore(a, AddMonths(LaterDate(a, b), 1)) && DateBefore(b, AddMonths(LaterDate(a, b), 1))
  {
    var later := LaterDate(a, b);
    AddMonthsAdvances(later, 1);
    if DateBefore(a, later) {
      DateBeforeTransitive(a, later, AddMonths(later, 1));
    }
    if DateBefore(b, later) {
      DateBeforeTransitive(b, later, AddMonths(later, 1));
    }
  }

  /** A renewed record is active at the instant of its renewal. */
  lemma {:induction false} RenewedRecordIsActive(c: Client, now: Instant)
    requires c.expiryDate.Some?
    ensures var renewed := c.(expiryDate := Some(RenewedExpiry(c.expiryDate.value, now)), feeStatus := Paid);
            StatusOf(renewed, now) == Active
  {
    var r := RenewedExpiry(c.expiryDate.value, now);
    assert !InstantBefore(Midnight(r), now);
  }

  /** An unpaid record that expired on 15 February 2024, renewed on 1 March 2024, now expires on 1 April 2024. */
  lemma RenewalExample(now: Instant)
    requires now.date == Date(2024, 3, 1)
    ensures RenewedExpiry(Date(2024, 2, 15), now) == Date(2024, 4, 1)
  {
    var expiry: CivilDate := Date(2024, 2, 15);
    var today: CivilDate := Date(2024, 3, 1);
    assert LaterDate(expiry, today) == today;
    assert AddMonths(today, 1) == Date(2024, 4, 1) by {
      assert MonthOfIndex(MonthIndex(today) + 1) == Date(2024, 4, 1);
    }
  }

  /**
   * Every record add-client creates lacks an expiry date, so the written tab
   * filters list it under no status tab, while the stats count it as unpaid.
   */
  lemma {:induction false} NewRecordFallsBetweenTabs(req: AddRequest, now: Instant)
    ensures var c := NewRecord(req);
            FilteredAsWritten([c], "", "paid", now) == [] &&
            FilteredAsWritten([c], "", "unpaid", now) == [] &&
            FilteredAsWritten([c], "", "expired", now) == [] &&
            CountOf([c], now, Pending) == 1
  {
    var c := NewRecord(req);
    UndatedClientFallsBetweenTabs(c, now);
    assert [c][..0] == [];
  }

  class GymServer {
    var records: map<Id, Client>
    var nextId: Id
    const ownerUsername: string
    var ownerPassword: string
    var sessionUser: Option<string>

    /** Every stored id is below the next one the store hands out, and the owner has a user name. */
    ghost predicate Valid()
      reads this
    {
      (forall id :: id in records ==> id < nextId) && ownerUsername != ""
    }

    constructor ()
      ensures Valid()
      ensures records == map[] && ownerUsername == "admin" && ownerPassword == "1234" && sessionUser.None?
    {
      records := map[];
      nextId := 0;
      ownerUsername := "admin";
      ownerPassword := "1234";
      sessionUser := None;
    }

    /**
     * The authentication gate lets a request through only when its session
     * holds a user; an empty user name is falsy and does not pass.
     */
    predicate IsAuthenticated(): (b: bool)
      reads this
      ensures b ==> sessionUser.Some?
      ensures sessionUser == Some("") ==> !b
    {
      sessionUser.Some? && sessionUser.value != ""
    }

    /** Login opens the session exactly when both credentials equal the owner's. */
    method Login(username: string, password: string) returns (reply: Reply)
      requires Valid()
      modifies this`sessionUser
      ensures Valid()
      ensures reply == Outcome(true) ==> IsAuthenticated()
      ensures username == ownerUsername && password == ownerPassword ==>
                sessionUser == Some(username) && reply == Outcome(true)
      ensures !(username == ownerUsername && password == ownerPassword) ==>
                sessionUser == old(sessionUser) && reply == Outcome(false)
    {
      if username == ownerUsername && password == ownerPassword {
        sessionUser := Some(username);
        return Outcome(true);
      }
      reply := Outcome(false);
    }

    /** Add-client, which has no authentication gate: stores the new record under a fresh id. */
    method AddClient(req: AddRequest) returns (reply: Reply)
      requires Valid()
      modifies this`records, this`nextId
      ensures Valid()
      ensures old(nextId) !in old(records)
      ensures records == old(records)[old(nextId) := NewRecord(req)]
      ensures reply == Created
    {
      records := records[nextId := NewRecord(req)];
      nextId := nextId + 1;
      reply := Created;
    }

    /** Update-visit: sets the record's last visit to today's date and touches nothing else. */
    method UpdateVisit(id: Id, now: Instant) returns (reply: Reply)
      requires Valid()
      modifies this`records
      ensures Valid()
      ensures !IsAuthenticated() ==> reply == Unauthorized && records == old(records)
      ensures IsAuthenticated() ==>
                reply == Message("Visit Updated") &&
                records == if id in old(records)
                           then old(records)[id := old(records)[id].(lastVisit := Some(now.date))]
                           else old(records)
    {
      if !IsAuthenticated() {
        return Unauthorized;
      }
      if id in records {
        records := records[id := records[id].(lastVisit := Some(now.date))];
      }
      reply := Message("Visit Updated");
    }

    /** Toggle-fee: flips the fee status of an existing record; a missing one fails with 500. */
    method ToggleFee(id: Id) returns (reply: Reply)
      requires Valid()
      modifies this`records
      ensures Valid()
      ensures !IsAuthenticated() ==> reply == Unauthorized && records == old(records)
      ensures IsAuthenticated() && id !in old(records) ==>
                reply == ServerError("Error Updating Fee Status") && records == old(records)
      ensures IsAuthenticated() && id in old(records) ==>
                reply == Message("Fee Status Updated") &&
                records == old(records)[id := old(records)[id].(feeStatus := ToggledFee(old(records)[id].feeStatus))]
    {
      if !IsAuthenticated() {
        return Unauthorized;
      }
      if id !in records {
        // `client.feeStatus` on a null client throws
        return ServerError("Error Updating Fee Status");
      }
      var client := records[id];
      var newStatus := ToggledFee(client.feeStatus);
      records := records[id := client.(feeStatus := newStatus)];
      reply := Message("Fee Status Updated");
    }

    /**
     * Renew: extends an existing record by one month from the later of its expiry
     * and now, whatever the body asks for, and marks it paid. A missing record, or
     * one without an expiry date, fails with 500.
     */
    method Renew(id: Id, requestedMonths: Option<int>, now: Instant) returns (reply: Reply)
      requires Valid()
      modifies this`records
      ensures Valid()
      ensures !IsAuthenticated() ==> reply == Unauthorized && records == old(records)
      ensures IsAuthenticated() && (id !in old(records) || old(records)[id].expiryDate.None?) ==>
                reply == ServerError("Error Renewing Membership") && records == old(records)
      ensures IsAuthenticated() && id in old(records) && old(records)[id].expiryDate.Some? ==>
                var expiry := old(records)[id].expiryDate.value;
                reply == Message("Membership Renewed") &&
                records == old(records)[id := old(records)[id].(expiryDate := Some(RenewedExpiry(expiry, now)),
                                                                 feeStatus := Paid)]
    {
      if !IsAuthenticated() {
        return Unauthorized;
      }
      if id !in records {
        // `client.expiryDate` on a null client throws
        return ServerError("Error Renewing Membership");
      }
      var client := records[id];
      if client.expiryDate.None? {
        // the base date stays an Invalid Date, and `toISOString` throws on it
        return ServerError("Error Renewing Membership");
      }
      var newExpiry := RenewedExpiry(client.expiryDate.value, now);
      records := records[id := client.(expiryDate := Some(newExpiry), feeStatus := Paid)];
      reply := Message("Membership Renewed");
    }

    /** Change-password: replaces the owner's password only when the old one is given correctly. */
    method ChangePassword(oldPassword: string, newPassword: string) returns (reply: Reply)
      requires Valid()
      modifies this`ownerPassword
      ensures Valid()
      ensures !IsAuthenticated() ==> reply == Unauthorized && ownerPassword == old(ownerPassword)
      ensures IsAuthenticated() && oldPassword != old(ownerPassword) ==>
                reply == Rejected("Old password incorrect") && ownerPassword == old(ownerPassword)
      ensures IsAuthenticated() && oldPassword == old(ownerPassword) ==>
                reply == Outcome(true) && ownerPassword == newPassword
    {
      if !IsAuthenticated() {
        return Unauthorized;
      }
      if oldPassword != ownerPassword {
        return Rejected("Old password incorrect");
      }
      ownerPassword := newPassword;
      reply := Outcome(true);
    }

    /** Delete-client: removes the given id, if present, and no other record. */
    method DeleteClient(id: Id) returns (reply: Reply)
      requires Valid()
      modifies this`records
      ensures Valid()
      ensures !IsAuthenticated() ==> reply == Unauthorized && records == old(records)
      ensures IsAuthenticated() ==> reply == Message("Client Deleted") && records == old(records) - {id}
    {
      if !IsAuthenticated() {
        return Unauthorized;
      }
      records := records - {id};
      reply := Message("Client Deleted");
    }
  }

  /** Two toggles in a row give back the store as it was, for a record that is "Paid" or "Unpaid". */
  method ToggleTwiceKeepsStore(server: GymServer, id: Id)
    requires server.Valid() && server.IsAuthenticated()
    requires id in server.records && (server.records[id].feeStatus == Paid || server.records[id].feeStatus == Unpaid)
    modifies server
    ensures server.records == old(server.records)
  {
    var _ := server.ToggleFee(id);
    var _ := server.ToggleFee(id);
    ToggleTwiceRestores(old(server.records)[id].feeStatus);
    assert server.records[id] == old(server.records)[id];
  }

  /** Renewing never moves a stored expiry date backwards, and leaves the record active. */
  method RenewMovesForward(server: GymServer, id: Id, months: Option<int>, now: Instant)
    requires server.Valid() && server.IsAuthenticated()
    requires id in server.records && server.records[id].expiryDate.Some?
    modifies server
    ensures id in server.records && server.records[id].expiryDate.Some?
    ensures DateBefore(old(server.records)[id].expiryDate.value, server.records[id].expiryDate.value)
    ensures StatusOf(server.records[id], now) == Active
  {
    var _ := server.Renew(id, months, now);
    RenewedRecordIsActive(old(server.records)[id], now);
  }

}
