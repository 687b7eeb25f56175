/** The daily request limit of free accounts: a premium account always passes; a free
    account's `requestCount` restarts at 1 on a new day, and on the same day the
    request is refused exactly when the count is 3, and otherwise the count grows by
    the request's cost. The clock is a parameter (`today`, a day number), and the
    database is the user record itself. */
module RateLimit {
  import opened Json
  import opened Jobs
  import opened Response

  datatype AccountType = Free | Premium

  /** The count at which a free account is refused. */
  const DailyLimit: int := 3

  const InvalidUser: string := "invalid user Id"
  const LimiterFailed: string := "error in limimtChecker"

  /** What the limiter resolves to: `true`, `false`, or the 500 response it sent; or the
      call rejects, because a response was sent after one had already gone out, which
      throws `ERR_HTTP_HEADERS_SENT`. */
  datatype LimitOutcome = Allowed | Denied | ErrorSent | Rejected

  /** The stored fields the limiter reads and writes; `lastUsedDay` is the calendar day
      of `lastUsedDate`, the only thing `toDateString` keeps of it. */
  datatype UserState = UserState(accountType: AccountType, requestCount: int, lastUsedDay: int)

  datatype Step = Step(outcome: LimitOutcome, after: UserState)

  /** One call for an existing user. `cost` is `parseInt(reduceCount)`; `None` is `NaN`
      (no `reduceCount` given), which makes the saved count fail to cast, so the record
      stays as it was and the error path is taken. */
  function Limit(u: UserState, today: int, cost: Option<int>): (s: Step)
    ensures u.accountType.Premium? ==> s == Step(Allowed, u)
    ensures u.accountType.Free? && u.lastUsedDay != today ==>
      s == Step(Allowed, UserState(Free, 1, today))
    ensures s.outcome == Denied <==>
      u.accountType.Free? && u.lastUsedDay == today && u.requestCount == DailyLimit
    ensures s.outcome != Rejected
    ensures s.outcome != Allowed ==> s.after == u
    ensures s.after.accountType == u.accountType
    ensures s.outcome == Allowed && u.accountType.Free? && u.lastUsedDay == today ==>
      cost.Some? && s.after == u.(requestCount := u.requestCount + cost.value)
    ensures u.accountType.Free? && u.lastUsedDay == today && u.requestCount != DailyLimit && cost.Some? ==>
      s == Step(Allowed, u.(requestCount := u.requestCount + cost.value))
    ensures u.accountType.Free? && u.lastUsedDay == today && u.requestCount != DailyLimit && cost.None? ==>
      s == Step(ErrorSent, u)
  {
    if u.accountType.Premium? then Step(Allowed, u)
    else if today != u.lastUsedDay then Step(Allowed, UserState(Free, 1, today))
    else if u.requestCount == DailyLimit then Step(Denied, u)
    else if cost.None? then Step(ErrorSent, u)
    else Step(Allowed, u.(requestCount := u.requestCount + cost.value))
  }

  /** A day's calls, one cost each, all on `today`. */
  function Run(u: UserState, today: int, costs: seq<Option<int>>): (outs: seq<LimitOutcome>)
    ensures |outs| == |costs|
    decreases |costs|
  {
    if costs == [] then []
    else
      var s := Limit(u, today, costs[0]);
      [s.outcome] + Run(s.after, today, costs[1..])
  }

  /** The record after a day's calls. */
  function After(u: UserState, today: int, costs: seq<Option<int>>): UserState
    decreases |costs|
  {
    if costs == [] then u else After(Limit(u, today, costs[0]).after, today, costs[1..])
  }

  /** A premium account is never refused and its record never changes. */
  lemma {:induction false} PremiumNeverLimited(u: UserState, today: int, costs: seq<Option<int>>)
    requires u.accountType.Premium?
    ensures forall i :: 0 <= i < |costs| ==> Run(u, today, costs)[i] == Allowed
    ensures After(u, today, costs) == u
    decreases |costs|
  {
    if costs != [] {
      PremiumNeverLimited(u, today, costs[1..]);
      var outs := Run(u, today, costs);
      assert forall i :: 1 <= i < |costs| ==> outs[i] == Run(u, today, costs[1..])[i - 1];
    }
  }

  /** Because the test is for exactly 3, a count that has gone past 3 on the same day is
      never refused again: every further call with a cost is allowed and the count only grows. */
  lemma {:induction false} OvershootNeverDenied(u: UserState, today: int, costs: seq<Option<int>>)
    requires u.accountType.Free? && u.lastUsedDay == today && u.requestCount > DailyLimit
    requires forall i :: 0 <= i < |costs| ==> costs[i].Some? && costs[i].value >= 0
    ensures forall i :: 0 <= i < |costs| ==> Run(u, today, costs)[i] == Allowed
    ensures After(u, today, costs).requestCount >= u.requestCount
    decreases |costs|
  {
    if costs != [] {
      var next := Limit(u, today, costs[0]).after;
      assert forall i :: 0 <= i < |costs[1..]| ==> costs[1..][i] == costs[i + 1];
      OvershootNeverDenied(next, today, costs[1..]);
      var outs := Run(u, today, costs);
      assert forall i :: 1 <= i < |costs| ==> outs[i] == Run(next, today, costs[1..])[i - 1];
    }
  }

  /** With a cost of 1 per call, a free account that has used `c <= 3` calls today is
      allowed exactly `3 - c` more, and every call after those is refused. */
  lemma {:induction false} UnitCostsCapped(u: UserState, today: int, costs: seq<Option<int>>)
    requires u.accountType.Free? && u.lastUsedDay == today && 0 <= u.requestCount <= DailyLimit
    requires forall i :: 0 <= i < |costs| ==> costs[i] == Some(1)
    ensures forall i :: 0 <= i < |costs| ==>
      (Run(u, today, costs)[i] == Allowed <==> i < DailyLimit - u.requestCount)
    ensures forall i :: 0 <= i < |costs| ==>
      (Run(u, today, costs)[i] == Denied <==> i >= DailyLimit - u.requestCount)
    decreases |costs|
  {
    if costs != [] {
      var next := Limit(u, today, costs[0]).after;
      assert forall i :: 0 <= i < |costs[1..]| ==> costs[1..][i] == costs[i + 1];
      UnitCostsCapped(next, today, costs[1..]);
      var outs := Run(u, today, costs);
      assert forall i :: 1 <= i < |costs| ==> outs[i] == Run(next, today, costs[1..])[i - 1];
    }
  }

  /** One HTTP response the limiter sends: a status and an envelope. */
  datatype Sent = Sent(status: nat, body: Json)

  /** The responses sent on the request, in order. A response ends the request, so
      only the first send goes out. */
  class Responder {
    var sent: seq<Sent>

    constructor ()
      ensures sent == []
    {
      sent := [];
    }

    /** `res.status(code).send(body)` or `.json(body)`: delivered when nothing has been
        sent yet; otherwise it throws `ERR_HTTP_HEADERS_SENT` and nothing changes. */
    method Send(status: nat, body: Json) returns (delivered: bool)
      modifies this
      ensures delivered <==> old(sent) == []
      ensures sent == old(sent) + (if delivered then [Sent(status, body)] else [])
    {
      delivered := sent == [];
      if delivered {
        sent := sent + [Sent(status, body)];
      }
    }
  }

  /** The stored user document, which the limiter updates in place and saves. */
  class UserRecord {
    var accountType: AccountType
    var requestCount: int
    var lastUsedDay: int

    constructor (u: UserState)
      ensures State() == u
    {
      accountType, requestCount, lastUsedDay := u.accountType, u.requestCount, u.lastUsedDay;
    }

    function State(): UserState
      reads this
    {
      UserState(accountType, requestCount, lastUsedDay)
    }
  }

  /** The 500 envelope of the error path. */
  function Failure(): Json {
    ErrorResponse(LimiterFailed, Some(DefaultCode))
  }

  /** The limiter: the record found for the user id (or none), the day, and the cost.
      A missing user gets the 400 response; the code then reads the missing record, and
      the handler's 500 response comes after the 400 has gone out, so it throws and the
      call rejects. For an existing user the outcome and the saved record are those of
      `Limit`, and only the error path sends a response, which rejects in turn when a
      response had already been sent on the request. */
  method Check(user: UserRecord?, today: int, cost: Option<int>, res: Responder) returns (out: LimitOutcome)
    modifies user, res
    ensures user == null ==>
      && out == Rejected
      && res.sent == old(res.sent) + (if old(res.sent) == [] then [Sent(400, ErrorResponse(InvalidUser, Some(DefaultCode)))] else [])
    ensures user != null ==> var s := Limit(old(user.State()), today, cost);
      && user.State() == s.after
      && out == (if s.outcome == ErrorSent && old(res.sent) != [] then Rejected else s.outcome)
      && res.sent == old(res.sent) + (if s.outcome == ErrorSent && old(res.sent) == [] then [Sent(500, Failure())] else [])
  {
    if user == null {
      var _ := res.Send(400, ErrorResponse(InvalidUser, Some(DefaultCode)));
      var _ := res.Send(500, Failure());
      return Rejected;
    }
    if user.accountType.Premium? {
      return Allowed;
    }
    if today != user.lastUsedDay {
      user.requestCount := 1;
      user.lastUsedDay := today;
      return Allowed;
    }
    if user.requestCount == DailyLimit {
      return Denied;
    }
    if cost.None? {
      var delivered := res.Send(500, Failure());
      return if delivered then ErrorSent else Rejected;
    }
    user.requestCount := user.requestCount + cost.value;
    return Allowed;
  }
}
