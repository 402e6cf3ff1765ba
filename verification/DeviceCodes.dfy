/**
 Device codes of the OAuth 2.0 device authorization grant: the life of a code from
 PENDING to its final status, the table of codes, and the polling back-off of section
 3.5 of RFC 8628. Times are seconds, passed in by the caller.
 */
module DeviceCodes {

  import opened Prelude

  datatype Status = Pending | Authorized | Expired | Denied

  /** One row of the table, as a value. */
  datatype Row = Row(
    deviceCode: string,
    userCode: string,
    status: Status,
    userId: Option<string>,
    expiresAt: real,
    authorizedAt: Option<real>,
    limiter: Limiter)

  // ----- polling back-off -----

  const FIRST_INTERVAL: int := 5
  const MAX_INTERVAL: int := 60

  datatype Limiter = Limiter(lastPoll: Option<real>, interval: int)

  const FRESH := Limiter(None, FIRST_INTERVAL)

  /** A poll reads the clock twice: when the rate is checked, and when the poll is recorded. */
  datatype Poll = Poll(check: real, update: real)

  predicate TooFast(l: Limiter, now: real) {
    l.lastPoll.Some? && now - l.lastPoll.value < l.interval as real
  }

  function Raised(interval: int): int {
    if interval + 5 < MAX_INTERVAL then interval + 5 else MAX_INTERVAL
  }

  function Recorded(l: Limiter, now: real, increase: bool): Limiter {
    Limiter(Some(now), if increase then Raised(l.interval) else l.interval)
  }

  /** The limiter after a sequence of polls of a new code. */
  function After(polls: seq<Poll>): Limiter {
    if polls == [] then FRESH
    else
      var l, p := After(polls[..|polls| - 1]), polls[|polls| - 1];
      Recorded(l, p.update, TooFast(l, p.check))
  }

  predicate Accepted(polls: seq<Poll>, k: nat)
    requires k < |polls|
  {
    !TooFast(After(polls[..k]), polls[k].check)
  }

  function SlowDowns(polls: seq<Poll>): nat {
    if polls == [] then 0
    else
      var n := |polls| - 1;
      SlowDowns(polls[..n]) + if TooFast(After(polls[..n]), polls[n].check) then 1 else 0
  }

  predicate ClockRuns(polls: seq<Poll>) {
    && (forall k :: 0 <= k < |polls| ==> polls[k].check <= polls[k].update)
    && (forall j, k :: 0 <= j < k < |polls| ==> polls[j].update <= polls[k].check)
  }

  /** The interval depends on nothing but the number of slow-downs so far. */
  lemma {:induction false} IntervalAfterSlowDowns(polls: seq<Poll>)
    ensures After(polls).interval == if 5 + 5 * SlowDowns(polls) < 60 then 5 + 5 * SlowDowns(polls) else 60
  {
    if polls != [] {
      IntervalAfterSlowDowns(polls[..|polls| - 1]);
    }
  }

  lemma LastPollIsLast(polls: seq<Poll>)
    requires polls != []
    ensures After(polls).lastPoll == Some(polls[|polls| - 1].update)
  {
  }

  /** An accepted poll comes at least the interval in force after every earlier poll. */
  lemma AcceptedPollsAreSpaced(polls: seq<Poll>, j: nat, k: nat)
    requires ClockRuns(polls) && j < k < |polls| && Accepted(polls, k)
    ensures polls[k].check - polls[j].update >= After(polls[..k]).interval as real >= 5.0
  {
    var before := polls[..k];
    LastPollIsLast(before);
    IntervalAfterSlowDowns(before);
    assert before[k - 1] == polls[k - 1];
    assert j < k - 1 ==> polls[j].update <= polls[k - 1].check;
  }

  /** How many of the first `n` polls are accepted within a window of time. */
  function AcceptedWithin(polls: seq<Poll>, n: nat, from: real, to: real): nat
    requires n <= |polls|
  {
    if n == 0 then 0
    else
      AcceptedWithin(polls, n - 1, from, to) +
      if Accepted(polls, n - 1) && from <= polls[n - 1].check <= to then 1 else 0
  }

  lemma {:induction false} LastAcceptedWithin(polls: seq<Poll>, n: nat, from: real, to: real) returns (m: nat)
    requires ClockRuns(polls) && n <= |polls| && AcceptedWithin(polls, n, from, to) > 0
    ensures m < n && Accepted(polls, m) && from <= polls[m].check <= to
    ensures 5.0 * (AcceptedWithin(polls, n, from, to) - 1) as real <= polls[m].check - from
  {
    if Accepted(polls, n - 1) && from <= polls[n - 1].check <= to {
      m := n - 1;
      if AcceptedWithin(polls, n - 1, from, to) > 0 {
        var earlier := LastAcceptedWithin(polls, n - 1, from, to);
        AcceptedPollsAreSpaced(polls, earlier, m);
      }
    } else {
      m := LastAcceptedWithin(polls, n - 1, from, to);
    }
  }

  /** A window of `width` seconds holds at most `width / 5 + 1` accepted polls. */
  lemma WindowHoldsFew(polls: seq<Poll>, from: real, width: real)
    requires ClockRuns(polls) && width >= 0.0
    ensures 5.0 * AcceptedWithin(polls, |polls|, from, from + width) as real <= width + 5.0
  {
    if AcceptedWithin(polls, |polls|, from, from + width) > 0 {
      var m := LastAcceptedWithin(polls, |polls|, from, from + width);
    }
  }

  /** A client that always comes back within five seconds is accepted once. */
  lemma HastyClientIsAcceptedOnce(polls: seq<Poll>, k: nat)
    requires ClockRuns(polls) && k < |polls|
    requires forall i :: 0 < i < |polls| ==> polls[i].check - polls[i - 1].check < 5.0
    ensures Accepted(polls, k) <==> k == 0
  {
    if k == 0 {
      assert polls[..0] == [];
    } else if Accepted(polls, k) {
      AcceptedPollsAreSpaced(polls, k - 1, k);
    }
  }

  /** A client that waits a full minute is never slowed down. */
  lemma {:induction false} PatientClientIsNeverSlowed(polls: seq<Poll>)
    requires forall i :: 0 < i < |polls| ==> polls[i].check - polls[i - 1].update >= 60.0
    ensures SlowDowns(polls) == 0
  {
    if polls != [] {
      var before := polls[..|polls| - 1];
      PatientClientIsNeverSlowed(before);
      IntervalAfterSlowDowns(before);
      if before != [] {
        LastPollIsLast(before);
      }
    }
  }

  // ----- one code -----

  predicate IsExpired(r: Row, now: real) { now > r.expiresAt }

  predicate IsPending(r: Row, now: real) { r.status == Pending && !IsExpired(r, now) }

  class DeviceCode {
    const deviceCode: string
    const userCode: string
    const expiresAt: real
    var status: Status
    var userId: Option<string>
    var authorizedAt: Option<real>
    var lastPollTime: Option<real>
    var currentInterval: int

    function AsRow(): Row
      reads this
    {
      Row(deviceCode, userCode, status, userId, expiresAt, authorizedAt, Limiter(lastPollTime, currentInterval))
    }

    constructor (deviceCode: string, userCode: string, expiresAt: real)
      ensures AsRow() == NewRow(deviceCode, userCode, expiresAt)
    {
      this.deviceCode, this.userCode, this.expiresAt := deviceCode, userCode, expiresAt;
      this.status, this.userId, this.authorizedAt := Pending, None, None;
      this.lastPollTime, this.currentInterval := None, FIRST_INTERVAL;
    }

    method Authorize(user: string, now: real)
      modifies this
      ensures AsRow() == old(AsRow()).(status := Authorized, userId := Some(user), authorizedAt := Some(now))
    {
      status := Authorized;
      userId := Some(user);
      authorizedAt := Some(now);
    }

    method Deny()
      modifies this
      ensures AsRow() == old(AsRow()).(status := Denied)
    {
      status := Denied;
    }

    method Expire()
      modifies this
      ensures AsRow() == old(AsRow()).(status := Expired)
    {
      status := Expired;
    }

    /** The interval it announces is the one in force once the poll is recorded. */
    method CheckRateLimit(now: real) returns (tooFast: bool, interval: int)
      ensures tooFast == TooFast(AsRow().limiter, now)
      ensures forall later :: interval == Recorded(AsRow().limiter, later, tooFast).interval
    {
      if lastPollTime.None? {
        return false, currentInterval;
      }
      var elapsed := now - lastPollTime.value;
      if elapsed < currentInterval as real {
        var raised := if currentInterval + 5 < 60 then currentInterval + 5 else 60;
        return true, raised;
      }
      return false, currentInterval;
    }

    method UpdatePollTime(now: real, increaseInterval: bool)
      modifies this
      ensures AsRow() == old(AsRow()).(limiter := Recorded(old(AsRow()).limiter, now, increaseInterval))
    {
      lastPollTime := Some(now);
      if increaseInterval {
        currentInterval := if currentInterval + 5 < 60 then currentInterval + 5 else 60;
      }
    }
  }

  function NewRow(deviceCode: string, userCode: string, expiresAt: real): Row {
    Row(deviceCode, userCode, Pending, None, expiresAt, None, FRESH)
  }

  // ----- the table of codes -----

  /** Whichever of the two unique columns a lookup or an update goes by. */
  datatype Key = ByDevice(deviceCode: string) | ByUser(userCode: string) {
    predicate Matches(r: Row) {
      match this
      case ByDevice(code) => r.deviceCode == code
      case ByUser(code) => r.userCode == code
    }
  }

  function Find(rows: seq<Row>, key: Key): (at: Option<nat>)
    ensures at.Some? ==> at.value < |rows| && key.Matches(rows[at.value])
    ensures at.None? ==> forall i :: 0 <= i < |rows| ==> !key.Matches(rows[i])
    ensures at.Some? ==> forall i :: 0 <= i < at.value ==> !key.Matches(rows[i])
  {
    if rows == [] then None
    else
      var n := |rows| - 1;
      var earlier := Find(rows[..n], key);
      if earlier.Some? then earlier else if key.Matches(rows[n]) then Some(n) else None
  }

  datatype Codes = Codes(device: string, user: string)

  predicate Collides(rows: seq<Row>, c: Codes) {
    exists i :: 0 <= i < |rows| && (rows[i].deviceCode == c.device || rows[i].userCode == c.user)
  }

  datatype Operation =
    | Create(candidates: seq<Codes>, expiresAt: seq<real>)
    | Authorize(userCode: string, userId: string, now: real)
    | Deny(userCode: string, now: real)
    | UpdatePoll(deviceCode: string, now: real, increase: bool)

  /** The first generated pair that collides with no stored code, if any. */
  function FirstFree(rows: seq<Row>, candidates: seq<Codes>): (k: nat)
    ensures k <= |candidates|
    ensures k < |candidates| ==> !Collides(rows, candidates[k])
    ensures forall j :: 0 <= j < k ==> Collides(rows, candidates[j])
  {
    if candidates == [] then 0
    else if !Collides(rows, candidates[0]) then 0
    else 1 + FirstFree(rows, candidates[1..])
  }

  predicate WellFormed(op: Operation) {
    op.Create? ==> |op.candidates| == |op.expiresAt|
  }

  predicate CanDecide(rows: seq<Row>, userCode: string, now: real) {
    var at := Find(rows, ByUser(userCode));
    at.Some? && IsPending(rows[at.value], now)
  }

  predicate Succeeds(rows: seq<Row>, op: Operation) {
    match op
    case Create(candidates, _) => FirstFree(rows, candidates) < |candidates|
    case Authorize(code, _, now) => CanDecide(rows, code, now)
    case Deny(code, now) => CanDecide(rows, code, now)
    case UpdatePoll(code, _, _) => Find(rows, ByDevice(code)).Some?
  }

  function Apply(rows: seq<Row>, op: Operation): seq<Row>
    requires WellFormed(op)
  {
    if !Succeeds(rows, op) then rows else
    match op
    case Create(candidates, expiresAt) =>
      var k := FirstFree(rows, candidates);
      rows + [NewRow(candidates[k].device, candidates[k].user, expiresAt[k])]
    case Authorize(code, user, now) =>
      var i := Find(rows, ByUser(code)).value;
      rows[i := rows[i].(status := Authorized, userId := Some(user), authorizedAt := Some(now))]
    case Deny(code, _) =>
      var i := Find(rows, ByUser(code)).value;
      rows[i := rows[i].(status := Denied)]
    case UpdatePoll(code, now, increase) =>
      var i := Find(rows, ByDevice(code)).value;
      rows[i := rows[i].(limiter := Recorded(rows[i].limiter, now, increase))]
  }

  function ApplyAll(rows: seq<Row>, ops: seq<Operation>): seq<Row>
    requires forall op :: op in ops ==> WellFormed(op)
    decreases |ops|
  {
    if ops == [] then rows else ApplyAll(Apply(rows, ops[0]), ops[1..])
  }

  predicate UniqueCodes(rows: seq<Row>) {
    forall i, j :: 0 <= i < j < |rows| ==>
      rows[i].deviceCode != rows[j].deviceCode && rows[i].userCode != rows[j].userCode
  }

  predicate UserExactlyWhenAuthorized(rows: seq<Row>) {
    forall i :: 0 <= i < |rows| ==> (rows[i].userId.Some? <==> rows[i].status == Authorized)
  }

  predicate Sound(rows: seq<Row>) {
    UniqueCodes(rows) && UserExactlyWhenAuthorized(rows)
  }

  /** The same code later on: once it has left PENDING, status and user are final. */
  predicate Evolves(r: Row, r': Row) {
    && r'.deviceCode == r.deviceCode && r'.userCode == r.userCode && r'.expiresAt == r.expiresAt
    && (r.status != Pending ==> r'.status == r.status && r'.userId == r.userId && r'.authorizedAt == r.authorizedAt)
  }

  predicate AllEvolve(rows: seq<Row>, rows': seq<Row>) {
    |rows| <= |rows'| && forall i :: 0 <= i < |rows| ==> Evolves(rows[i], rows'[i])
  }

  lemma OperationKeepsSound(rows: seq<Row>, op: Operation)
    requires Sound(rows) && WellFormed(op)
    ensures Sound(Apply(rows, op)) && AllEvolve(rows, Apply(rows, op))
  {
  }

  /** Codes stay unique, each leaves PENDING at most once, and a user is set exactly while AUTHORIZED, for good. */
  lemma {:induction false} RunKeepsSound(rows: seq<Row>, ops: seq<Operation>)
    requires Sound(rows) && forall op :: op in ops ==> WellFormed(op)
    ensures Sound(ApplyAll(rows, ops)) && AllEvolve(rows, ApplyAll(rows, ops))
    decreases |ops|
  {
    if ops != [] {
      OperationKeepsSound(rows, ops[0]);
      RunKeepsSound(Apply(rows, ops[0]), ops[1..]);
    }
  }

  predicate Decides(op: Operation, userCode: string) {
    (op.Authorize? || op.Deny?) && op.userCode == userCode
  }

  /** How many authorize and deny operations on one user code succeed along a run. */
  function Decisions(rows: seq<Row>, ops: seq<Operation>, userCode: string): nat
    requires forall op :: op in ops ==> WellFormed(op)
    decreases |ops|
  {
    if ops == [] then 0
    else
      (if Decides(ops[0], userCode) && Succeeds(rows, ops[0]) then 1 else 0) +
      Decisions(Apply(rows, ops[0]), ops[1..], userCode)
  }

  lemma FoundByUser(rows: seq<Row>, i: nat)
    requires UniqueCodes(rows) && i < |rows|
    ensures Find(rows, ByUser(rows[i].userCode)) == Some(i)
  {
  }

  lemma {:induction false} DecidedStaysDecided(rows: seq<Row>, ops: seq<Operation>, i: nat)
    requires Sound(rows) && i < |rows| && rows[i].status != Pending
    requires forall op :: op in ops ==> WellFormed(op)
    ensures Decisions(rows, ops, rows[i].userCode) == 0
    decreases |ops|
  {
    if ops != [] {
      FoundByUser(rows, i);
      OperationKeepsSound(rows, ops[0]);
      DecidedStaysDecided(Apply(rows, ops[0]), ops[1..], i);
    }
  }

  /** At most one authorize or deny ever succeeds for a user code. */
  lemma {:induction false} DecidedAtMostOnce(rows: seq<Row>, ops: seq<Operation>, userCode: string)
    requires Sound(rows) && forall op :: op in ops ==> WellFormed(op)
    ensures Decisions(rows, ops, userCode) <= 1
    decreases |ops|
  {
    if ops != [] {
      var next := Apply(rows, ops[0]);
      OperationKeepsSound(rows, ops[0]);
      if Decides(ops[0], userCode) && Succeeds(rows, ops[0]) {
        var i := Find(rows, ByUser(userCode)).value;
        DecidedStaysDecided(next, ops[1..], i);
      } else {
        DecidedAtMostOnce(next, ops[1..], userCode);
      }
    }
  }

  /**
   Denying a code that was just authorized changes nothing and reports failure, so it
   cannot take an authorization back.
   */
  lemma DenyCannotRevert(rows: seq<Row>, userCode: string, userId: string, now: real, later: real)
    requires Sound(rows) && Succeeds(rows, Authorize(userCode, userId, now))
    ensures var rows' := Apply(rows, Authorize(userCode, userId, now));
            !Succeeds(rows', Deny(userCode, later)) && Apply(rows', Deny(userCode, later)) == rows'
  {
    var i := Find(rows, ByUser(userCode)).value;
    OperationKeepsSound(rows, Authorize(userCode, userId, now));
    FoundByUser(Apply(rows, Authorize(userCode, userId, now)), i);
  }

  function RowsOf(entries: seq<DeviceCode>): (rows: seq<Row>)
    reads entries
    ensures |rows| == |entries| && forall i :: 0 <= i < |rows| ==> rows[i] == entries[i].AsRow()
  {
    seq(|entries|, i requires 0 <= i < |entries| reads entries => entries[i].AsRow())
  }

  class DeviceCodeStore {
    var entries: seq<DeviceCode>

    ghost predicate Valid()
      reads this, entries
    {
      (forall i, j :: 0 <= i < j < |entries| ==> entries[i] != entries[j]) && Sound(Rows())
    }

    function Rows(): seq<Row>
      reads this, entries
    {
      RowsOf(entries)
    }

    constructor ()
      ensures Valid() && Rows() == []
    {
      entries := [];
    }

    /** Retries with the next generated pair while a unique column rejects the insert. */
    method CreateDeviceCode(candidates: seq<Codes>, expiresAt: seq<real>) returns (created: DeviceCode?)
      requires Valid() && |candidates| == |expiresAt|
      modifies this
      ensures Valid() && Rows() == Apply(old(Rows()), Create(candidates, expiresAt))
      ensures created != null <==> Succeeds(old(Rows()), Create(candidates, expiresAt))
      ensures created != null ==> fresh(created) && entries == old(entries) + [created]
      ensures created == null ==> entries == old(entries)
    {
      created := null;
      var attempt := 0;
      while attempt < |candidates|
        invariant 0 <= attempt <= |candidates| && entries == old(entries) && created == null
        invariant Valid() && Rows() == old(Rows())
        invariant forall j :: 0 <= j < attempt ==> Collides(Rows(), candidates[j])
      {
        var c := candidates[attempt];
        var taken := AnyMatch(c);
        if !taken {
          ghost var rows := Rows();
          OperationKeepsSound(rows, Create(candidates, expiresAt));
          assert FirstFree(rows, candidates) == attempt;
          created := new DeviceCode(c.device, c.user, expiresAt[attempt]);
          entries := entries + [created];
          assert Rows() == rows + [created.AsRow()];
          return;
        }
        attempt := attempt + 1;
      }
    }

    /** What the unique columns of the table check on insert. */
    method AnyMatch(c: Codes) returns (taken: bool)
      ensures taken == Collides(Rows(), c)
    {
      taken := false;
      for i := 0 to |entries|
        invariant taken <==>
                    exists j :: 0 <= j < i && (Rows()[j].deviceCode == c.device || Rows()[j].userCode == c.user)
      {
        assert Rows()[i] == entries[i].AsRow();
        taken := taken || entries[i].deviceCode == c.device || entries[i].userCode == c.user;
      }
    }

    /** Both lookups: the first entry with the code. */
    method Get(key: Key) returns (entry: DeviceCode?, ghost at: nat)
      ensures entry == null <==> Find(Rows(), key).None?
      ensures entry != null ==> Find(Rows(), key) == Some(at) && at < |entries| && entry == entries[at]
    {
      for i := 0 to |entries|
        invariant forall j :: 0 <= j < i ==> !key.Matches(Rows()[j])
      {
        if key.Matches(entries[i].AsRow()) {
          assert Rows()[i] == entries[i].AsRow();
          return entries[i], i;
        }
      }
      return null, 0;
    }

    method AuthorizeDeviceCode(userCode: string, userId: string, now: real) returns (ok: bool)
      requires Valid()
      modifies entries
      ensures Valid() && Rows() == Apply(old(Rows()), Authorize(userCode, userId, now))
      ensures ok == Succeeds(old(Rows()), Authorize(userCode, userId, now))
    {
      var entry;
      ghost var at;
      entry, at := Get(ByUser(userCode));
      if entry == null {
        return false;
      }
      if !IsPending(entry.AsRow(), now) {
        return false;
      }
      OperationKeepsSound(Rows(), Authorize(userCode, userId, now));
      entry.Authorize(userId, now);
      assert Rows() == Apply(old(Rows()), Authorize(userCode, userId, now));
      return true;
    }

    method DenyDeviceCode(userCode: string, now: real) returns (ok: bool)
      requires Valid()
      modifies entries
      ensures Valid() && Rows() == Apply(old(Rows()), Deny(userCode, now))
      ensures ok == Succeeds(old(Rows()), Deny(userCode, now))
    {
      var entry;
      ghost var at;
      entry, at := Get(ByUser(userCode));
      if entry == null {
        return false;
      }
      if !IsPending(entry.AsRow(), now) {
        return false;
      }
      OperationKeepsSound(Rows(), Deny(userCode, now));
      entry.Deny();
      assert Rows() == Apply(old(Rows()), Deny(userCode, now));
      return true;
    }

    method UpdatePollTime(deviceCode: string, now: real, increase: bool) returns (ok: bool)
      requires Valid()
      modifies entries
      ensures Valid() && Rows() == Apply(old(Rows()), UpdatePoll(deviceCode, now, increase))
      ensures ok == Succeeds(old(Rows()), UpdatePoll(deviceCode, now, increase))
    {
      var entry;
      ghost var at;
      entry, at := Get(ByDevice(deviceCode));
      if entry == null {
        return false;
      }
      OperationKeepsSound(Rows(), UpdatePoll(deviceCode, now, increase));
      entry.UpdatePollTime(now, increase);
      assert Rows() == Apply(old(Rows()), UpdatePoll(deviceCode, now, increase));
      return true;
    }

    /**
     The token endpoint's use of the limiter: check, then record. A code whose limiter has
     followed `polls` follows them with this poll added, and is told so.
     */
    method Poll(deviceCode: string, p: Poll, ghost polls: seq<Poll>)
      returns (found: bool, accepted: bool, interval: int)
      requires Valid()
      requires var at := Find(Rows(), ByDevice(deviceCode));
               at.Some? ==> Rows()[at.value].limiter == After(polls)
      modifies entries
      ensures Valid() && found == Find(old(Rows()), ByDevice(deviceCode)).Some?
      ensures !found ==> Rows() == old(Rows())
      ensures found ==>
                var i := Find(old(Rows()), ByDevice(deviceCode)).value;
                && Rows() == old(Rows())[i := old(Rows())[i].(limiter := After(polls + [p]))]
                && accepted == Accepted(polls + [p], |polls|) && interval == After(polls + [p]).interval
    {
      var entry;
      ghost var at;
      entry, at := Get(ByDevice(deviceCode));
      found, accepted, interval := entry != null, false, 0;
      if !found {
        return;
      }
      assert (polls + [p])[..|polls|] == polls;
      assert entry.AsRow() == Rows()[at];
      var tooFast;
      tooFast, interval := entry.CheckRateLimit(p.check);
      accepted := !tooFast;
      assert interval == Recorded(After(polls), p.update, tooFast).interval;
      var recorded := UpdatePollTime(deviceCode, p.update, tooFast);
    }
  }
}
