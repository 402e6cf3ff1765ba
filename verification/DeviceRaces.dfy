/**
 Authorizing and denying one device code concurrently. The store checks that the code is
 pending and commits its decision later, without a lock on the row between the two, so an
 operation is two steps and other operations come between them.
 */
module DeviceRaces {

  import opened Prelude
  import opened DeviceCodes

  type OpId = string

  /** What an operation that passed the check will write. */
  datatype Want = Grant(user: string, at: real) | Refuse

  datatype State = State(
    row: Row,
    inFlight: map<OpId, Want>,     // operations between check and commit
    asked: set<OpId>,              // operations that have begun
    done: seq<Want>)               // what was committed, in order: these operations report success

  datatype Action =
    | Check(op: OpId, want: Want, now: real)
    | Commit(op: OpId)
    | CommitFails(op: OpId)

  function Written(row: Row, want: Want): Row {
    match want
    case Grant(user, at) => row.(status := Authorized, userId := Some(user), authorizedAt := Some(at))
    case Refuse => row.(status := Denied)
  }

  predicate Enabled(s: State, a: Action) {
    match a
    case Check(op, _, _) => op !in s.asked
    case Commit(op) => op in s.inFlight
    case CommitFails(op) => op in s.inFlight
  }

  function Step(s: State, a: Action): State
    requires Enabled(s, a)
  {
    match a
    case Check(op, want, now) =>
      s.(asked := s.asked + {op}, inFlight := if IsPending(s.row, now) then s.inFlight[op := want] else s.inFlight)
    case Commit(op) =>
      s.(row := Written(s.row, s.inFlight[op]), inFlight := s.inFlight - {op}, done := s.done + [s.inFlight[op]])
    case CommitFails(op) => s.(inFlight := s.inFlight - {op})
  }

  ghost predicate Runs(s: State, actions: seq<Action>, t: State)
    decreases |actions|
  {
    if actions == [] then s == t
    else Enabled(s, actions[0]) && Runs(Step(s, actions[0]), actions[1..], t)
  }

  ghost predicate Initial(s: State) {
    s.row.status == Pending && s.row.userId == None && s.inFlight == map[] && s.asked == {} && s.done == []
  }

  // ----- what every interleaving leaves -----

  predicate Granted(done: seq<Want>) { exists k :: 0 <= k < |done| && done[k].Grant? }

  /** The row carries the last decision, and the user of the last grant. */
  ghost predicate RowInv(s: State) {
    && s.inFlight.Keys <= s.asked
    && (s.row.status == Pending <==> s.done == [])
    && (s.row.status == Authorized <==> s.done != [] && s.done[|s.done| - 1].Grant?)
    && (s.row.userId.Some? <==> Granted(s.done))
    && (s.row.status == Authorized ==> s.row.userId == Some(s.done[|s.done| - 1].user))
  }

  lemma StepKeepsRowInv(s: State, a: Action)
    requires RowInv(s) && Enabled(s, a)
    ensures RowInv(Step(s, a))
  {
    if a.Commit? {
      var t := Step(s, a);
      assert t.done[|s.done|] == s.inFlight[a.op];
      assert forall k :: 0 <= k < |s.done| ==> t.done[k] == s.done[k];
    }
  }

  lemma {:induction false} RunKeepsRowInv(s: State, actions: seq<Action>, t: State)
    requires RowInv(s) && Runs(s, actions, t)
    ensures RowInv(t)
    decreases |actions|
  {
    if actions != [] {
      StepKeepsRowInv(s, actions[0]);
      RunKeepsRowInv(Step(s, actions[0]), actions[1..], t);
    }
  }

  // ----- when at most one decision succeeds -----

  /** No check passes while another operation is between its check and its commit. */
  ghost predicate NoOverlap(s: State, actions: seq<Action>)
    decreases |actions|
  {
    actions != [] ==>
      && Enabled(s, actions[0])
      && (actions[0].Check? && IsPending(s.row, actions[0].now) ==> s.inFlight == map[])
      && NoOverlap(Step(s, actions[0]), actions[1..])
  }

  /** Without further overlap, at most one decision will have succeeded. */
  ghost predicate DecidesOnce(s: State) {
    forall more, t :: Runs(s, more, t) && NoOverlap(s, more) ==> |t.done| <= 1
  }

  lemma {:induction false} NoOverlapDecidesOnce(s: State, actions: seq<Action>, t: State)
    requires RowInv(s) && |s.done| + |s.inFlight.Keys| <= 1
    requires Runs(s, actions, t) && NoOverlap(s, actions)
    ensures |t.done| <= 1
    decreases |actions|
  {
    if actions != [] {
      var a, next := actions[0], Step(s, actions[0]);
      StepKeepsRowInv(s, a);
      assert next.inFlight.Keys == if a.Check? then (if IsPending(s.row, a.now) then s.inFlight.Keys + {a.op}
                                                     else s.inFlight.Keys)
                                   else s.inFlight.Keys - {a.op};
      NoOverlapDecidesOnce(next, actions[1..], t);
    }
  }

  lemma {:induction false} CommitTwo(s: State, a: OpId) returns (more: seq<Action>, t: State)
    requires a in s.inFlight && |s.done| + |s.inFlight.Keys| >= 2
    ensures Runs(s, more, t) && NoOverlap(s, more) && |t.done| >= 2
  {
    var next := Step(s, Commit(a));
    assert next.inFlight.Keys == s.inFlight.Keys - {a};
    if |next.done| >= 2 {
      more, t := [Commit(a)], next;
      assert [Commit(a)][1..] == [];
    } else {
      assert |next.inFlight.Keys| == |s.inFlight.Keys| - 1;
      var b :| b in next.inFlight.Keys;
      more, t := [Commit(a), Commit(b)], Step(next, Commit(b));
      assert more[1..] == [Commit(b)] && [Commit(b)][1..] == [];
    }
  }

  /**
   From any state an arbitrary interleaving has reached: as long as no further checks overlap,
   at most one authorize or deny succeeds, exactly when at most one has succeeded or is
   between its check and its commit. Two overlapping checks are thus what it takes.
   */
  lemma DecidesOnceExactlyWhen(s: State, actions: seq<Action>, t: State)
    requires Initial(s) && Runs(s, actions, t)
    ensures DecidesOnce(t) <==> |t.done| + |t.inFlight.Keys| <= 1
  {
    RunKeepsRowInv(s, actions, t);
    if |t.done| + |t.inFlight.Keys| <= 1 {
      forall more, u | Runs(t, more, u) && NoOverlap(t, more) ensures |u.done| <= 1 {
        NoOverlapDecidesOnce(t, more, u);
      }
    } else if t.inFlight.Keys == {} {
      assert Runs(t, [], t) && NoOverlap(t, []);
    } else {
      var a :| a in t.inFlight.Keys;
      var more, u := CommitTwo(t, a);
      assert !DecidesOnce(t);
    }
  }

  // ----- when user and status stay in step -----

  predicate InStep(row: Row) { row.userId.Some? <==> row.status == Authorized }

  /** Without further overlap, the code will carry a user exactly while it is authorized. */
  ghost predicate StaysInStep(s: State) {
    forall more, t :: Runs(s, more, t) && NoOverlap(s, more) ==> InStep(t.row)
  }

  /** User and status are in step, and a refusal in flight meets neither a user nor a grant. */
  ghost predicate Harmless(s: State) {
    && InStep(s.row)
    && forall r :: r in s.inFlight && s.inFlight[r].Refuse? ==>
         s.row.userId.None? && forall g :: g in s.inFlight ==> s.inFlight[g].Refuse?
  }

  lemma StepKeepsHarmless(s: State, a: Action)
    requires Harmless(s) && Enabled(s, a)
    requires a.Check? && IsPending(s.row, a.now) ==> s.inFlight == map[]
    ensures Harmless(Step(s, a))
  {
  }

  lemma {:induction false} RunKeepsHarmless(s: State, actions: seq<Action>, t: State)
    requires Harmless(s) && Runs(s, actions, t) && NoOverlap(s, actions)
    ensures Harmless(t)
    decreases |actions|
  {
    if actions != [] {
      StepKeepsHarmless(s, actions[0]);
      RunKeepsHarmless(Step(s, actions[0]), actions[1..], t);
    }
  }

  lemma CommitRuns(s: State, op: OpId, rest: seq<Action>, t: State)
    requires op in s.inFlight && Runs(Step(s, Commit(op)), rest, t) && NoOverlap(Step(s, Commit(op)), rest)
    ensures Runs(s, [Commit(op)] + rest, t) && NoOverlap(s, [Commit(op)] + rest)
  {
    assert ([Commit(op)] + rest)[1..] == rest;
  }

  /** A refusal that meets a user, or a grant in flight, leaves a user on a denied code. */
  lemma RefusalGoesOutOfStep(s: State, r: OpId, g: OpId) returns (more: seq<Action>, t: State)
    requires r in s.inFlight && s.inFlight[r].Refuse?
    requires s.row.userId.Some? || (g in s.inFlight && s.inFlight[g].Grant?)
    ensures Runs(s, more, t) && NoOverlap(s, more) && !InStep(t.row)
  {
    var here := if s.row.userId.Some? then s else Step(s, Commit(g));
    t := Step(here, Commit(r));
    more := [Commit(r)];
    CommitRuns(here, r, [], t);
    if s.row.userId.None? {
      CommitRuns(s, g, [Commit(r)], t);
      more := [Commit(g)] + more;
    }
  }

  /**
   From any state at all: as long as no further checks overlap, the code carries a user exactly
   while it is authorized, if and only if that is so now and no refusal past its check meets a
   user, or a grant past its check.
   */
  lemma StaysInStepExactlyWhen(t: State)
    ensures StaysInStep(t) <==> Harmless(t)
  {
    if Harmless(t) {
      forall more, u | Runs(t, more, u) && NoOverlap(t, more) ensures InStep(u.row) {
        RunKeepsHarmless(t, more, u);
      }
    } else if InStep(t.row) {
      var r :| r in t.inFlight && t.inFlight[r].Refuse?
               && !(t.row.userId.None? && forall g :: g in t.inFlight ==> t.inFlight[g].Refuse?);
      var g := r;
      if t.row.userId.None? {
        g :| g in t.inFlight && !t.inFlight[g].Refuse?;
      }
      var more, u := RefusalGoesOutOfStep(t, r, g);
      assert !StaysInStep(t);
    } else {
      assert Runs(t, [], t) && NoOverlap(t, []);
    }
  }

  /** Any two operations that overlap on a pending code both succeed, and the later commit prevails. */
  lemma OverlapDecidesTwice(s: State, a: OpId, b: OpId, first: Want, second: Want, now: real) returns (t: State)
    requires RowInv(s) && IsPending(s.row, now) && s.inFlight == map[] && a != b && a !in s.asked && b !in s.asked
    ensures Runs(s, [Check(a, first, now), Check(b, second, now), Commit(a), Commit(b)], t)
    ensures t.done == [first, second] && t.row.status == if second.Grant? then Authorized else Denied
    ensures t.row.userId == if second.Grant? then Some(second.user)
                            else if first.Grant? then Some(first.user) else s.row.userId
  {
    var actions := [Check(a, first, now), Check(b, second, now), Commit(a), Commit(b)];
    var s1 := Step(s, actions[0]);
    var s2 := Step(s1, actions[1]);
    var s3 := Step(s2, actions[2]);
    t := Step(s3, actions[3]);
    assert actions[3..][1..] == [] && Runs(s3, actions[3..], t);
    assert actions[2..][1..] == actions[3..] && Runs(s2, actions[2..], t);
    assert actions[1..][1..] == actions[2..] && Runs(s1, actions[1..], t);
  }
}
