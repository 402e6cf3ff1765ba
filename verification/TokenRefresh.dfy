/**
 The identity-provider token row of one user, read and refreshed by any number of
 concurrent `load_tokens` calls with double-checked locking.

 A call is a program counter. Every await point of the source ends one atomic step,
 so a run is an arbitrary interleaving of the steps of arbitrarily many calls, of
 `store_tokens` writes and of clock ticks. The row lock is the database's: it is held
 from the locking read until the transaction ends, and it blocks other writers.

 Two things are assumed of the environment, and both are visible in `Enabled`: the
 provider never issues the same refresh token twice, and the clock does not go back.
 A refresh can be lost: the callback raises after the provider has exchanged the token,
 or the commit of the new row fails. `SpentOnceExactlyWhen` says which runs spend a
 token twice: those that refresh again after a lost refresh with no row written between.
 */
module TokenRefresh {

  import opened Prelude

  const ACCESS_TOKEN_EXPIRY_BUFFER: int := 900

  datatype Row = Row(
    accessToken: string,
    refreshToken: string,
    accessTokenExpiresAt: int,
    refreshTokenExpiresAt: int)

  /** An expiry of 0 means that the access token never expires. */
  predicate AccessExpired(row: Row, now: int) {
    row.accessTokenExpiresAt != 0 && row.accessTokenExpiresAt < now + ACCESS_TOKEN_EXPIRY_BUFFER
  }

  datatype Outcome = NoRecord | Tokens(row: Row) | LockTimeout | Raised

  datatype Pc =
    | Entered(hasCallback: bool)             // before the unlocked read
    | Queued                                 // waiting for the row lock
    | Holding(read: Row)                     // row read under the lock
    | Calling(read: Row)                     // the refresh callback is running
    | Committing(read: Row, renewed: Row)      // the provider answered, nothing committed yet
    | Returned(outcome: Outcome, end: nat)   // `end` versions existed on return
  {
    predicate Critical() { Holding? || Calling? || Committing? }
  }

  /** `start` is the number of row versions that existed when the call began. */
  datatype Call = Call(start: nat, pc: Pc)

  type CallId = int

  datatype State = State(
    now: int,
    versions: seq<Row>,          // every committed value of the row, the last one current
    holder: Option<CallId>,      // owner of the row lock
    calls: map<CallId, Call>,
    issued: set<string>,         // refresh tokens the provider has issued
    spent: seq<string>)          // refresh tokens the provider has exchanged, in order
  {
    function Current(): Option<Row> {
      if versions == [] then None else Some(versions[|versions| - 1])
    }

    predicate At(c: CallId) { c in calls }

    function Pc(c: CallId): Pc requires At(c) { calls[c].pc }

    function Move(c: CallId, pc: Pc): State
      requires At(c)
    {
      this.(calls := calls[c := calls[c].(pc := pc)])
    }

    function Return(c: CallId, outcome: Outcome): State
      requires At(c)
    {
      Move(c, Returned(outcome, |versions|))
    }
  }

  datatype Action =
    | Tick(seconds: nat)
    | Store(row: Row)
    | Begin(c: CallId, hasCallback: bool)
    | FastPath(c: CallId)
    | Acquire(c: CallId)
    | TimeOut(c: CallId)
    | Recheck(c: CallId)
    | CallbackDeclines(c: CallId)
    | CallbackRaises(c: CallId)                       // before the provider exchanged the token
    | CallbackRaisesLate(c: CallId)                   // after it did: the answer is lost
    | CallbackRefreshes(c: CallId, renewed: Row)
    | Commit(c: CallId)
    | CommitUnheard(c: CallId)                        // the row is written, but the call is told it failed
    | CommitFails(c: CallId)

  predicate Enabled(s: State, a: Action) {
    match a
    case Tick(_) => true
    case Store(row) => s.holder.None? && row.refreshToken !in s.issued
    case Begin(c, _) => !s.At(c)
    case FastPath(c) => s.At(c) && s.Pc(c).Entered?
    case Acquire(c) => s.At(c) && s.Pc(c).Queued? && s.holder.None?
    case TimeOut(c) => s.At(c) && s.Pc(c).Queued? && s.holder.Some?
    case Recheck(c) => s.At(c) && s.Pc(c).Holding?
    case CallbackDeclines(c) => s.At(c) && s.Pc(c).Calling?
    case CallbackRaises(c) => s.At(c) && s.Pc(c).Calling?
    case CallbackRaisesLate(c) => s.At(c) && s.Pc(c).Calling?
    case CallbackRefreshes(c, renewed) => s.At(c) && s.Pc(c).Calling? && renewed.refreshToken !in s.issued
    case Commit(c) => s.At(c) && s.Pc(c).Committing?
    case CommitUnheard(c) => s.At(c) && s.Pc(c).Committing?
    case CommitFails(c) => s.At(c) && s.Pc(c).Committing?
  }

  function Apply(s: State, a: Action): State
    requires Enabled(s, a)
  {
    match a
    case Tick(seconds) => s.(now := s.now + seconds)
    case Store(row) => s.(versions := s.versions + [row], issued := s.issued + {row.refreshToken})
    case Begin(c, hasCallback) => s.(calls := s.calls[c := Call(|s.versions|, Entered(hasCallback))])
    case FastPath(c) =>
      if s.Current().None? then s.Return(c, NoRecord)
      else if !AccessExpired(s.Current().value, s.now) || !s.Pc(c).hasCallback then
        s.Return(c, Tokens(s.Current().value))
      else s.Move(c, Queued)
    case Acquire(c) =>
      if s.Current().None? then s.Return(c, NoRecord)
      else s.Move(c, Holding(s.Current().value)).(holder := Some(c))
    case TimeOut(c) => s.Return(c, LockTimeout)
    case Recheck(c) =>
      var read := s.Pc(c).read;
      if !AccessExpired(read, s.now) then s.Return(c, Tokens(read)).(holder := None)
      else s.Move(c, Calling(read))
    case CallbackDeclines(c) => s.Return(c, Tokens(s.Pc(c).read)).(holder := None)
    case CallbackRaises(c) => s.Return(c, Raised).(holder := None)
    case CallbackRaisesLate(c) =>
      s.Return(c, Raised).(holder := None, spent := s.spent + [s.Pc(c).read.refreshToken])
    case CallbackRefreshes(c, renewed) =>
      s.Move(c, Committing(s.Pc(c).read, renewed)).(
        issued := s.issued + {renewed.refreshToken},
        spent := s.spent + [s.Pc(c).read.refreshToken])
    case Commit(c) =>
      var renewed := s.Pc(c).renewed;
      s.(versions := s.versions + [renewed]).Return(c, Tokens(renewed)).(holder := None)
    case CommitUnheard(c) =>
      s.(versions := s.versions + [s.Pc(c).renewed]).Return(c, Raised).(holder := None)
    case CommitFails(c) => s.Return(c, Raised).(holder := None)
  }

  ghost predicate Runs(s: State, actions: seq<Action>, t: State)
    decreases |actions|
  {
    if actions == [] then s == t
    else Enabled(s, actions[0]) && Runs(Apply(s, actions[0]), actions[1..], t)
  }

  ghost predicate Initial(s: State) {
    s.versions == [] && s.holder.None? && s.calls == map[] && s.issued == {} && s.spent == []
  }

  // ----- refreshes that are made, lost and written -----

  predicate Exchanges(a: Action) { a.CallbackRefreshes? || a.CallbackRaisesLate? }

  predicate Loses(a: Action) { a.CallbackRaisesLate? || a.CommitFails? }

  predicate WritesRow(a: Action) { a.Store? || a.Commit? || a.CommitUnheard? }

  predicate NothingLost(actions: seq<Action>) {
    forall a :: a in actions ==> !Loses(a)
  }

  /** A refresh was lost, and the row was not written since. */
  predicate LostSince(past: seq<Action>) {
    exists i :: 0 <= i < |past| && Loses(past[i]) && forall k :: i < k < |past| ==> !WritesRow(past[k])
  }

  /** Some refresh follows a lost one with no row write between them. */
  predicate RefreshesAfterLoss(past: seq<Action>) {
    exists j :: 0 <= j < |past| && Exchanges(past[j]) && LostSince(past[..j])
  }

  lemma LostSinceSnoc(past: seq<Action>, a: Action)
    ensures LostSince(past + [a]) <==> Loses(a) || (LostSince(past) && !WritesRow(a))
  {
    var n, longer := |past|, past + [a];
    if Loses(a) {
      assert longer[n] == a;
    } else if LostSince(past) && !WritesRow(a) {
      var i :| 0 <= i < n && Loses(past[i]) && forall k :: i < k < n ==> !WritesRow(past[k]);
      assert longer[i] == past[i];
    }
    if LostSince(longer) {
      var i :| 0 <= i <= n && Loses(longer[i]) && forall k :: i < k <= n ==> !WritesRow(longer[k]);
      assert i < n ==> Loses(past[i]) && forall k :: i < k < n ==> past[k] == longer[k];
      assert i < n ==> longer[n] == a;
    }
  }

  lemma RefreshesAfterLossSnoc(past: seq<Action>, a: Action)
    ensures RefreshesAfterLoss(past + [a]) <==> RefreshesAfterLoss(past) || (Exchanges(a) && LostSince(past))
  {
    var n, longer := |past|, past + [a];
    assert longer[..n] == past && longer[n] == a;
    forall j | 0 <= j < n ensures longer[..j] == past[..j] && longer[j] == past[j] {
    }
  }

  predicate NoDuplicates(xs: seq<string>) {
    forall i, j :: 0 <= i < j < |xs| ==> xs[i] != xs[j]
  }

  // ----- the invariant -----

  /** The lock owner is the one call in its critical section, and it has read the current row. */
  ghost predicate LockInv(s: State) {
    && (s.holder.Some? ==> s.At(s.holder.value))
    && (forall c :: s.At(c) ==> (s.Pc(c).Critical() <==> s.holder == Some(c)))
    && (forall c :: s.At(c) && s.Pc(c).Critical() ==> s.Current() == Some(s.Pc(c).read))
    && (forall c :: s.At(c) && (s.Pc(c).Calling? || s.Pc(c).Committing?) ==>
          AccessExpired(s.Pc(c).read, s.now))
  }

  /** Rows and spent tokens were issued; a call about to commit has spent the old token and not the new one. */
  ghost predicate TokenInv(s: State) {
    && (forall i :: 0 <= i < |s.versions| ==> s.versions[i].refreshToken in s.issued)
    && (forall i :: 0 <= i < |s.spent| ==> s.spent[i] in s.issued)
    && (forall c :: s.At(c) && s.Pc(c).Committing? ==>
          && s.Pc(c).read.refreshToken in s.spent
          && s.Pc(c).renewed.refreshToken in s.issued && s.Pc(c).renewed.refreshToken !in s.spent)
  }

  ghost predicate HolderCommitting(s: State) {
    s.holder.Some? && s.At(s.holder.value) && s.Pc(s.holder.value).Committing?
  }

  /** The row's token is spent exactly when its refresh was lost or is about to be written. */
  ghost predicate SpentInv(s: State, past: seq<Action>) {
    && (LostSince(past) ==> s.Current().Some? && AccessExpired(s.Current().value, s.now))
    && (s.Current().Some? ==>
          (s.Current().value.refreshToken in s.spent <==> LostSince(past) || HolderCommitting(s)))
    && (NoDuplicates(s.spent) <==> !RefreshesAfterLoss(past))
  }

  /** Tokens a call returned are one committed row version that was current during the call. */
  ghost predicate PresentDuring(s: State, call: Call) {
    call.start <= |s.versions| &&
    match call.pc
    case Returned(outcome, end) =>
      && call.start <= end <= |s.versions|
      && (outcome.Tokens? ==>
            exists k {:trigger s.versions[k]} :: 0 <= k < end && call.start - 1 <= k && s.versions[k] == outcome.row)
      && (outcome.NoRecord? ==> call.start == end == 0)
    case _ => true
  }

  ghost predicate ReturnInv(s: State) {
    forall c :: s.At(c) ==> PresentDuring(s, s.calls[c])
  }

  /** Everything but which tokens were spent. */
  ghost predicate Inv(s: State) {
    LockInv(s) && TokenInv(s) && ReturnInv(s)
  }

  lemma StepKeepsLockInv(s: State, a: Action)
    requires LockInv(s) && Enabled(s, a)
    ensures LockInv(Apply(s, a))
  {
  }

  lemma StepKeepsTokenInv(s: State, a: Action)
    requires LockInv(s) && TokenInv(s) && Enabled(s, a)
    ensures TokenInv(Apply(s, a))
  {
    var t := Apply(s, a);
    forall c | t.At(c) && t.Pc(c).Committing?
      ensures t.Pc(c).read.refreshToken in t.spent
      ensures t.Pc(c).renewed.refreshToken in t.issued && t.Pc(c).renewed.refreshToken !in t.spent
    {
      assert s.At(c);
      if Exchanges(a) {
        assert s.Pc(a.c).Critical() && s.Pc(a.c).read.refreshToken in s.issued;
        assert t.spent[|s.spent|] == s.Pc(a.c).read.refreshToken;
      }
    }
  }

  lemma OneMoreSpent(xs: seq<string>, x: string)
    ensures NoDuplicates(xs + [x]) <==> NoDuplicates(xs) && x !in xs
  {
    var longer := xs + [x];
    assert longer[|xs|] == x && forall i :: 0 <= i < |xs| ==> longer[i] == xs[i];
  }

  lemma StepKeepsSpentInv(s: State, past: seq<Action>, a: Action)
    requires LockInv(s) && TokenInv(s) && SpentInv(s, past) && Enabled(s, a)
    ensures SpentInv(Apply(s, a), past + [a])
  {
    LostSinceSnoc(past, a);
    RefreshesAfterLossSnoc(past, a);
    if Exchanges(a) {
      var token := s.Pc(a.c).read.refreshToken;
      assert s.Pc(a.c).Critical();
      OneMoreSpent(s.spent, token);
      assert token in s.spent + [token];
    }
  }

  lemma PresentStays(s: State, t: State, call: Call)
    requires PresentDuring(s, call) && s.versions <= t.versions
    ensures PresentDuring(t, call)
  {
    if call.pc.Returned? && call.pc.outcome.Tokens? {
      var k :| 0 <= k < call.pc.end && call.start - 1 <= k && s.versions[k] == call.pc.outcome.row;
      assert t.versions[k] == call.pc.outcome.row;
    }
  }

  lemma ActorIsPresent(s: State, a: Action, c: CallId)
    requires LockInv(s) && Enabled(s, a) && !a.Tick? && !a.Store? && a.c == c
    requires s.At(c) ==> PresentDuring(s, s.calls[c])
    ensures PresentDuring(Apply(s, a), Apply(s, a).calls[c])
  {
    var t := Apply(s, a);
    if t.Pc(c).Returned? && t.Pc(c).outcome.Tokens? {
      assert t.versions[|t.versions| - 1] == t.Pc(c).outcome.row;
    }
  }

  lemma StepKeepsReturnInv(s: State, a: Action)
    requires LockInv(s) && ReturnInv(s) && Enabled(s, a)
    ensures ReturnInv(Apply(s, a))
  {
    var t := Apply(s, a);
    forall c | t.At(c) ensures PresentDuring(t, t.calls[c]) {
      if s.At(c) && t.calls[c] == s.calls[c] {
        PresentStays(s, t, s.calls[c]);
      } else {
        ActorIsPresent(s, a, c);
      }
    }
  }

  lemma {:induction false} RunKeepsInv(s: State, actions: seq<Action>, t: State)
    requires Inv(s) && Runs(s, actions, t)
    ensures Inv(t)
    decreases |actions|
  {
    if actions != [] {
      StepKeepsLockInv(s, actions[0]);
      StepKeepsTokenInv(s, actions[0]);
      StepKeepsReturnInv(s, actions[0]);
      RunKeepsInv(Apply(s, actions[0]), actions[1..], t);
    }
  }

  lemma {:induction false} RunKeepsSpentInv(s: State, past: seq<Action>, actions: seq<Action>, t: State)
    requires Inv(s) && SpentInv(s, past) && Runs(s, actions, t)
    ensures Inv(t) && SpentInv(t, past + actions)
    decreases |actions|
  {
    if actions == [] {
      assert past + actions == past;
    } else {
      var a := actions[0];
      StepKeepsLockInv(s, a);
      StepKeepsTokenInv(s, a);
      StepKeepsReturnInv(s, a);
      StepKeepsSpentInv(s, past, a);
      RunKeepsSpentInv(Apply(s, a), past + [a], actions[1..], t);
      AppendIsAssociative(past, [a], actions[1..]);
      assert [a] + actions[1..] == actions;
    }
  }

  // ----- main results -----

  /**
   Whatever the interleaving, and wherever callbacks raise and commits fail: a refresh token
   is exchanged twice exactly when some refresh follows a lost one with no row written between.
   */
  lemma SpentOnceExactlyWhen(s: State, actions: seq<Action>, t: State)
    requires Initial(s) && Runs(s, actions, t)
    ensures NoDuplicates(t.spent) <==> !RefreshesAfterLoss(actions)
  {
    RunKeepsSpentInv(s, [], actions, t);
    assert [] + actions == actions;
  }

  /**
   In every reachable state, failed commits included, a call whose callback can run owns
   the row lock, no other call is in its critical section, and the refresh token and
   expiries it passes on are those of the row's current, expired version.
   */
  lemma CallbackRunsUnderTheLock(s: State, actions: seq<Action>, t: State, a: Action)
    requires Initial(s) && Runs(s, actions, t) && Enabled(t, a)
    requires a.CallbackDeclines? || a.CallbackRaises? || Exchanges(a)
    ensures t.holder == Some(a.c)
    ensures t.Current() == Some(t.Pc(a.c).read) && AccessExpired(t.Pc(a.c).read, t.now)
    ensures forall c :: t.At(c) && c != a.c ==> !t.Pc(c).Critical()
  {
    RunKeepsInv(s, actions, t);
  }

  /** Tokens a call returned are the four fields of one version that was current during the call. */
  lemma ReturnedTokensAreOneVersion(s: State, actions: seq<Action>, t: State, c: CallId)
    requires Initial(s) && Runs(s, actions, t)
    requires t.At(c) && t.Pc(c).Returned? && t.Pc(c).outcome.Tokens?
    ensures exists k {:trigger t.versions[k]} ::
              && 0 <= k < t.Pc(c).end <= |t.versions|
              && t.calls[c].start - 1 <= k
              && t.versions[k] == t.Pc(c).outcome.row
  {
    RunKeepsInv(s, actions, t);
    assert PresentDuring(t, t.calls[c]);
  }

  // ----- at most one refresh while the refreshed token outlasts the buffer -----

  predicate Outlasts(row: Row, until: int) { !AccessExpired(row, until) }

  /** Every row the actions write, by a login or by a refresh, is still good at `until`. */
  predicate WritesOutlast(actions: seq<Action>, until: int) {
    forall a :: a in actions ==>
      && (a.Store? ==> Outlasts(a.row, until))
      && (a.CallbackRefreshes? ==> Outlasts(a.renewed, until))
  }

  /** No call can get as far as its callback before `until`. */
  ghost predicate Settled(s: State, until: int) {
    && LockInv(s)
    && s.Current().Some?
    && if s.holder.Some? && s.Pc(s.holder.value).Committing?
       then Outlasts(s.Pc(s.holder.value).renewed, until)
       else Outlasts(s.Current().value, until) && (s.holder.Some? ==> !s.Pc(s.holder.value).Calling?)
  }

  lemma {:induction false} ClockIsMonotone(s: State, actions: seq<Action>, t: State)
    requires Runs(s, actions, t)
    ensures s.now <= t.now
    decreases |actions|
  {
    if actions != [] {
      ClockIsMonotone(Apply(s, actions[0]), actions[1..], t);
    }
  }

  lemma StepStaysSettled(s: State, a: Action, until: int)
    requires Settled(s, until) && Enabled(s, a) && !Loses(a)
    requires s.now <= until && WritesOutlast([a], until)
    ensures Settled(Apply(s, a), until) && Apply(s, a).spent == s.spent
  {
    StepKeepsLockInv(s, a);
    assert a in [a];
  }

  function Losses(actions: seq<Action>): nat {
    if actions == [] then 0 else (if Loses(actions[0]) then 1 else 0) + Losses(actions[1..])
  }

  /** A settled state spends nothing, any other at most one token, and each lost refresh one more. */
  lemma {:induction false} LossesBoundRefreshes(s: State, actions: seq<Action>, t: State)
    requires LockInv(s) && Runs(s, actions, t) && WritesOutlast(actions, t.now)
    ensures s.spent <= t.spent
    ensures |t.spent| <= |s.spent| + Losses(actions) + if Settled(s, t.now) then 0 else 1
    decreases |actions|
  {
    if actions != [] {
      var a, next := actions[0], Apply(s, actions[0]);
      ClockIsMonotone(s, actions, t);
      StepKeepsLockInv(s, a);
      assert a in actions && WritesOutlast([a], t.now);
      LossesBoundRefreshes(next, actions[1..], t);
      if Settled(s, t.now) && !Loses(a) {
        StepStaysSettled(s, a, t.now);
      }
    }
  }

  lemma {:induction false} NothingLostMeansNoLosses(actions: seq<Action>)
    requires NothingLost(actions)
    ensures Losses(actions) == 0
  {
    if actions != [] {
      NothingLostMeansNoLosses(actions[1..]);
    }
  }

  /** Once the row is good for the rest of a run that loses no refresh, nothing is spent. */
  lemma SettledNeverSpends(s: State, actions: seq<Action>, t: State)
    requires Settled(s, t.now) && Runs(s, actions, t)
    requires NothingLost(actions) && WritesOutlast(actions, t.now)
    ensures t.spent == s.spent
  {
    LossesBoundRefreshes(s, actions, t);
    NothingLostMeansNoLosses(actions);
  }

  /**
   However many calls race, from any point of any run, for as long as the rows written on
   the way outlast the buffer: the provider exchanges at most one token, and one more for
   each refresh that is lost.
   */
  lemma AtMostOneRefresh(s0: State, before: seq<Action>, s: State, actions: seq<Action>, t: State)
    requires Initial(s0) && Runs(s0, before, s)
    requires Runs(s, actions, t) && WritesOutlast(actions, t.now)
    ensures |t.spent| <= |s.spent| + 1 + Losses(actions)
    ensures NothingLost(actions) ==> |t.spent| <= |s.spent| + 1
  {
    RunKeepsInv(s0, before, s);
    LossesBoundRefreshes(s, actions, t);
    if NothingLost(actions) {
      NothingLostMeansNoLosses(actions);
    }
  }

  // ----- a lost refresh is spent again by the next call -----

  /** A new call goes straight through to the provider from any unlocked, expired state. */
  lemma NewCallSpends(s: State, d: CallId, renewed: Row) returns (actions: seq<Action>, t: State)
    requires !s.At(d) && renewed.refreshToken !in s.issued
    requires s.holder.None? && s.Current().Some? && AccessExpired(s.Current().value, s.now)
    ensures NothingLost(actions) && Runs(s, actions, t)
    ensures t.spent == s.spent + [s.Current().value.refreshToken]
  {
    var row := s.Current().value;
    actions := [Begin(d, true), FastPath(d), Acquire(d), Recheck(d), CallbackRefreshes(d, renewed)];
    var s1 := Apply(s, actions[0]);
    assert s1.At(d) && s1.Pc(d) == Entered(true) && s1.Current() == Some(row);
    var s2 := Apply(s1, actions[1]);
    assert s2.At(d) && s2.Pc(d) == Queued && s2.Current() == Some(row);
    var s3 := Apply(s2, actions[2]);
    assert s3.At(d) && s3.Pc(d) == Holding(row);
    var s4 := Apply(s3, actions[3]);
    assert s4.At(d) && s4.Pc(d) == Calling(row) && s4.issued == s.issued;
    t := Apply(s4, actions[4]);
    RunOne(s4, actions[4], [], t);
    RunOne(s3, actions[3], [actions[4]], t);
    RunOne(s2, actions[2], [actions[3], actions[4]], t);
    RunOne(s1, actions[1], [actions[2], actions[3], actions[4]], t);
    RunOne(s, actions[0], [actions[1], actions[2], actions[3], actions[4]], t);
  }

  /**
   Wherever a run has brought the system, if a refresh was lost since the last write and the
   row is not locked, the steps of any one new call, whatever the provider answers it, are
   enough to exchange the same refresh token again.
   */
  lemma LostRefreshIsSpentAgain(s: State, actions: seq<Action>, t: State, d: CallId, renewed: Row)
    returns (again: seq<Action>, u: State)
    requires Initial(s) && Runs(s, actions, t)
    requires LostSince(actions) && t.holder.None?
    requires !t.At(d) && renewed.refreshToken !in t.issued
    ensures NothingLost(again) && Runs(t, again, u)
    ensures !NoDuplicates(u.spent)
  {
    RunKeepsSpentInv(s, [], actions, t);
    assert [] + actions == actions;
    again, u := NewCallSpends(t, d, renewed);
    OneMoreSpent(t.spent, t.Current().value.refreshToken);
  }

  lemma RunOne(s: State, a: Action, rest: seq<Action>, t: State)
    requires Enabled(s, a) && Runs(Apply(s, a), rest, t)
    ensures Runs(s, [a] + rest, t)
  {
    assert ([a] + rest)[1..] == rest;
  }

  // ----- the store's own methods, run without interruption -----

  /** What the refresh callback does with the row's refresh token and expiries. */
  datatype Answer = Declines | Raises | RaisesLate | Refreshes(row: Row)

  type Callback = (string, int, int) -> Answer

  /** How writing the new row goes: it is rolled back, or written without the call being told. */
  datatype Committed = Commits | Unheard | RolledBack

  ghost predicate IssuesNewTokens(callback: Callback, s: State) {
    forall r, a, e :: callback(r, a, e).Refreshes? ==> callback(r, a, e).row.refreshToken !in s.issued
  }

  /** The callback's answer for the row `read` and the commit decide the outcome, the row and the tokens spent. */
  predicate AnsweredBy(callback: Callback, commit: Committed, read: Row, spent: seq<string>,
                       outcome: Outcome, row: Option<Row>, spent': seq<string>)
  {
    match callback(read.refreshToken, read.accessTokenExpiresAt, read.refreshTokenExpiresAt)
    case Declines => outcome == Tokens(read) && row == Some(read) && spent' == spent
    case Raises => outcome == Raised && row == Some(read) && spent' == spent
    case RaisesLate => outcome == Raised && row == Some(read) && spent' == spent + [read.refreshToken]
    case Refreshes(renewed) =>
      && spent' == spent + [read.refreshToken]
      && outcome == (if commit.Commits? then Tokens(renewed) else Raised)
      && row == Some(if commit.RolledBack? then read else renewed)
  }

  ghost predicate OneCall(s: State, actions: seq<Action>, t: State, c: CallId) {
    && Runs(s, actions, t)
    && forall a :: a in actions ==> !a.Store? && (a.Tick? || a.c == c)
  }

  lemma {:induction false} RunThen(s: State, actions: seq<Action>, t: State, a: Action)
    requires Runs(s, actions, t) && Enabled(t, a)
    ensures Runs(s, actions + [a], Apply(t, a))
    decreases |actions|
  {
    if actions == [] {
      RunOne(s, a, [], Apply(t, a));
    } else {
      RunThen(Apply(s, actions[0]), actions[1..], t, a);
      assert (actions + [a])[1..] == actions[1..] + [a];
    }
  }

  class AuthTokenStore {
    var row: Option<Row>
    ghost var st: State
    ghost var past: seq<Action>

    ghost predicate Valid()
      reads this
    {
      Inv(st) && SpentInv(st, past) && st.holder.None? && row == st.Current()
    }

    constructor (now: int)
      ensures Valid() && Initial(st) && st.now == now && row == None && past == []
    {
      row := None;
      st := State(now, [], None, map[], {}, []);
      past := [];
    }

    method StoreTokens(newRow: Row)
      requires Valid() && newRow.refreshToken !in st.issued
      modifies this
      ensures Valid() && row == Some(newRow) && st == Apply(old(st), Store(newRow))
      ensures past == old(past) + [Store(newRow)] && !LostSince(past)
    {
      StepKeepsLockInv(st, Store(newRow));
      StepKeepsTokenInv(st, Store(newRow));
      StepKeepsReturnInv(st, Store(newRow));
      StepKeepsSpentInv(st, past, Store(newRow));
      LostSinceSnoc(past, Store(newRow));
      st, past := Apply(st, Store(newRow)), past + [Store(newRow)];
      row := Some(newRow);
    }

    /**
     One whole call. Its effect on the row and its result are those of the source's
     straight-line code, and it is the run of one call's steps in the step system.
     */
    method LoadTokens(ghost c: CallId, now: int, callback: Option<Callback>, commit: Committed)
      returns (outcome: Outcome)
      requires Valid() && !st.At(c) && st.now <= now
      requires callback.Some? ==> IssuesNewTokens(callback.value, st)
      modifies this
      ensures Valid() && exists actions :: OneCall(old(st), actions, st, c) && past == old(past) + actions
      ensures st.At(c) && st.Pc(c) == Returned(outcome, |st.versions|)
      ensures old(row).None? ==> outcome == NoRecord && row == None
      ensures old(row).Some? && (callback.None? || !AccessExpired(old(row).value, now)) ==>
                outcome == Tokens(old(row).value) && row == old(row) && st.spent == old(st.spent)
      ensures old(row).Some? && callback.Some? && AccessExpired(old(row).value, now) ==>
                AnsweredBy(callback.value, commit, old(row).value, old(st.spent), outcome, row, st.spent)
    {
      ghost var actions := ReadUnlocked(c, now, callback.Some?);
      if row.None? {
        outcome := NoRecord;
      } else if callback.None? || !AccessExpired(row.value, now) {
        outcome := Tokens(row.value);
      } else {
        outcome, actions := RefreshUnderLock(c, callback.value, commit, old(st), actions);
      }
      RunKeepsSpentInv(old(st), old(past), actions, st);
      past := past + actions;
    }

    /** The steps up to and including the fast path's unlocked read. */
    ghost method ReadUnlocked(c: CallId, now: int, hasCallback: bool) returns (actions: seq<Action>)
      requires !st.At(c) && st.now <= now
      modifies this`st
      ensures OneCall(old(st), actions, st, c) && st.At(c)
      ensures st.now == now && st.versions == old(st).versions && st.holder == old(st).holder
      ensures st.issued == old(st).issued && st.spent == old(st).spent
      ensures st.Pc(c) ==
              if st.Current().None? then Returned(NoRecord, |st.versions|)
              else if hasCallback && AccessExpired(st.Current().value, now) then Queued
              else Returned(Tokens(st.Current().value), |st.versions|)
    {
      actions := Step(old(st), [], Tick(now - st.now), c);
      actions := Step(old(st), actions, Begin(c, hasCallback), c);
      actions := Step(old(st), actions, FastPath(c), c);
    }

    /** The slow path, from the locking read to the end of its transaction. */
    method RefreshUnderLock(ghost c: CallId, callback: Callback, commit: Committed,
                            ghost from: State, ghost before: seq<Action>)
      returns (outcome: Outcome, ghost actions: seq<Action>)
      requires row.Some? && row == st.Current() && st.holder.None? && AccessExpired(row.value, st.now)
      requires st.At(c) && st.Pc(c).Queued? && OneCall(from, before, st, c)
      requires IssuesNewTokens(callback, st)
      modifies `row, `st
      ensures OneCall(from, actions, st, c)
      ensures st.holder.None? && row == st.Current()
      ensures st.At(c) && st.Pc(c) == Returned(outcome, |st.versions|)
      ensures AnsweredBy(callback, commit, old(row).value, old(st.spent), outcome, row, st.spent)
    {
      actions := Step(from, before, Acquire(c), c);
      var locked := row.value;
      actions := Step(from, actions, Recheck(c), c);
      outcome, actions := RunCallback(c, callback, commit, locked, from, actions);
    }

    /** The callback's turn, with the row locked, and the commit after it. */
    method RunCallback(ghost c: CallId, callback: Callback, commit: Committed, locked: Row,
                       ghost from: State, ghost before: seq<Action>)
      returns (outcome: Outcome, ghost actions: seq<Action>)
      requires row == Some(locked) == st.Current()
      requires st.At(c) && st.Pc(c) == Calling(locked) && OneCall(from, before, st, c)
      requires IssuesNewTokens(callback, st)
      modifies `row, `st
      ensures OneCall(from, actions, st, c)
      ensures st.holder.None? && row == st.Current()
      ensures st.At(c) && st.Pc(c) == Returned(outcome, |st.versions|)
      ensures AnsweredBy(callback, commit, locked, old(st.spent), outcome, row, st.spent)
    {
      outcome := Raised;
      match callback(locked.refreshToken, locked.accessTokenExpiresAt, locked.refreshTokenExpiresAt) {
        case Declines =>
          actions := Step(from, before, CallbackDeclines(c), c);
          outcome := Tokens(locked);
        case Raises =>
          actions := Step(from, before, CallbackRaises(c), c);
        case RaisesLate =>
          actions := Step(from, before, CallbackRaisesLate(c), c);
        case Refreshes(renewed) =>
          actions := Step(from, before, CallbackRefreshes(c, renewed), c);
          outcome, actions := WriteRow(c, commit, locked, renewed, from, actions);
      }
    }

    /** The update of the row and its commit. */
    method WriteRow(ghost c: CallId, commit: Committed, locked: Row, renewed: Row,
                    ghost from: State, ghost before: seq<Action>)
      returns (outcome: Outcome, ghost actions: seq<Action>)
      requires row == Some(locked) == st.Current()
      requires st.At(c) && st.Pc(c) == Committing(locked, renewed) && OneCall(from, before, st, c)
      modifies `row, `st
      ensures OneCall(from, actions, st, c)
      ensures st.holder.None? && row == st.Current() && st.spent == old(st.spent)
      ensures st.At(c) && st.Pc(c) == Returned(outcome, |st.versions|)
      ensures row == Some(if commit.RolledBack? then locked else renewed)
      ensures outcome == if commit.Commits? then Tokens(renewed) else Raised
    {
      outcome := Raised;
      match commit {
        case Commits =>
          row := Some(renewed);
          actions := Step(from, before, Commit(c), c);
          outcome := Tokens(renewed);
        case Unheard =>
          row := Some(renewed);
          actions := Step(from, before, CommitUnheard(c), c);
        case RolledBack =>
          actions := Step(from, before, CommitFails(c), c);
      }
    }

    ghost method Step(from: State, actions: seq<Action>, a: Action, c: CallId) returns (more: seq<Action>)
      requires Enabled(st, a) && !a.Store? && (a.Tick? || a.c == c)
      requires OneCall(from, actions, st, c)
      modifies this`st
      ensures st == Apply(old(st), a) && OneCall(from, more, st, c)
    {
      RunThen(from, actions, st, a);
      st := Apply(st, a);
      more := actions + [a];
    }
  }
}
