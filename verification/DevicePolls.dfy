/**
 Polling one device code concurrently. The token endpoint checks the rate and records the
 poll later, without a lock between the two, so a poll is two steps and other polls come
 between them. A poll that fails to record is answered with an error, not accepted.
 */
module DevicePolls {

  import opened Prelude
  import opened DeviceCodes

  type PollId = nat

  /** A poll that passed the rate check, with the polls recorded and in flight at that moment. */
  datatype Pass = Pass(id: PollId, check: real, recorded: set<PollId>, flying: set<PollId>)

  datatype State = State(
    limiter: Limiter,
    now: real,
    inFlight: map<PollId, bool>,   // polls between check and record: were they too fast?
    asked: set<PollId>,            // polls that have begun
    recorded: set<PollId>,
    passes: seq<Pass>)             // in the order of their checks

  datatype Action =
    | Check(id: PollId, now: real)
    | Record(id: PollId, now: real)
    | RecordFails(id: PollId)

  predicate Enabled(s: State, a: Action) {
    match a
    case Check(id, now) => id !in s.asked && s.now <= now
    case Record(id, now) => id in s.inFlight && s.now <= now
    case RecordFails(id) => id in s.inFlight
  }

  function Step(s: State, a: Action): State
    requires Enabled(s, a)
  {
    match a
    case Check(id, now) =>
      var tooFast := TooFast(s.limiter, now);
      s.(now := now, asked := s.asked + {id}, inFlight := s.inFlight[id := tooFast],
         passes := if tooFast then s.passes else s.passes + [Pass(id, now, s.recorded, s.inFlight.Keys)])
    case Record(id, now) =>
      s.(now := now, limiter := Recorded(s.limiter, now, s.inFlight[id]),
         inFlight := s.inFlight - {id}, recorded := s.recorded + {id})
    case RecordFails(id) => s.(inFlight := s.inFlight - {id})
  }

  ghost predicate Runs(s: State, actions: seq<Action>, t: State)
    decreases |actions|
  {
    if actions == [] then s == t
    else Enabled(s, actions[0]) && Runs(Step(s, actions[0]), actions[1..], t)
  }

  ghost predicate Initial(s: State) {
    s.limiter == FRESH && s.inFlight == map[] && s.asked == {} && s.recorded == {} && s.passes == []
  }

  // ----- what every interleaving keeps -----

  predicate Alive(s: State, id: PollId) { id in s.recorded || id in s.inFlight }

  /** An earlier pass `p` and a later one `q`, if `p` is still to be counted. */
  predicate Apart(p: Pass, q: Pass, alive: bool) {
    && p.check <= q.check && p.id != q.id
    && (p.id in q.recorded ==> q.check - p.check >= 5.0)
    && (alive ==> p.id in q.recorded || p.id in q.flying)
  }

  ghost predicate LimiterInv(s: State) {
    && s.limiter.interval >= FIRST_INTERVAL
    && (s.limiter.lastPoll.Some? ==> s.limiter.lastPoll.value <= s.now)
    && s.recorded <= s.asked && s.inFlight.Keys <= s.asked && s.recorded !! s.inFlight.Keys
  }

  ghost predicate PassInv(s: State, p: Pass) {
    && p.id in s.asked && p.check <= s.now
    && (p.id in s.recorded ==> s.limiter.lastPoll.Some? && p.check <= s.limiter.lastPoll.value)
  }

  ghost predicate PollInv(s: State) {
    && LimiterInv(s)
    && (forall i :: 0 <= i < |s.passes| ==> PassInv(s, s.passes[i]))
    && (forall i, j :: 0 <= i < j < |s.passes| ==> Apart(s.passes[i], s.passes[j], Alive(s, s.passes[i].id)))
  }

  lemma StepKeepsPassInv(s: State, a: Action, p: Pass)
    requires LimiterInv(s) && PassInv(s, p) && Enabled(s, a)
    ensures LimiterInv(Step(s, a)) && PassInv(Step(s, a), p)
    ensures Alive(Step(s, a), p.id) ==> Alive(s, p.id)
  {
  }

  lemma StepKeepsLimiterInv(s: State, a: Action)
    requires LimiterInv(s) && Enabled(s, a)
    ensures LimiterInv(Step(s, a))
  {
  }

  /** A check that passes comes at least the interval after every poll recorded before it. */
  lemma NewPassIsApart(s: State, p: Pass, id: PollId, now: real)
    requires LimiterInv(s) && PassInv(s, p) && Enabled(s, Check(id, now)) && !TooFast(s.limiter, now)
    ensures Apart(p, Pass(id, now, s.recorded, s.inFlight.Keys), Alive(Step(s, Check(id, now)), p.id))
  {
  }

  lemma StepKeepsPollInv(s: State, a: Action)
    requires PollInv(s) && Enabled(s, a)
    ensures PollInv(Step(s, a))
  {
    var t, n := Step(s, a), |s.passes|;
    StepKeepsLimiterInv(s, a);
    forall i | 0 <= i < |t.passes| ensures PassInv(t, t.passes[i]) {
      if i < n {
        StepKeepsPassInv(s, a, s.passes[i]);
      }
    }
    forall i, j | 0 <= i < j < |t.passes|
      ensures Apart(t.passes[i], t.passes[j], Alive(t, t.passes[i].id))
    {
      StepKeepsPassInv(s, a, s.passes[i]);
      if j == n {
        NewPassIsApart(s, s.passes[i], a.id, a.now);
      } else {
        assert Apart(s.passes[i], s.passes[j], Alive(s, s.passes[i].id));
      }
    }
  }

  lemma {:induction false} RunKeepsPollInv(s: State, actions: seq<Action>, t: State)
    requires PollInv(s) && Runs(s, actions, t)
    ensures PollInv(t)
    decreases |actions|
  {
    if actions != [] {
      StepKeepsPollInv(s, actions[0]);
      RunKeepsPollInv(Step(s, actions[0]), actions[1..], t);
    }
  }

  // ----- how many polls are accepted -----

  /** The accepted polls whose checks fall into a window. */
  function Accepted(passes: seq<Pass>, recorded: set<PollId>, from: real, to: real): seq<Pass> {
    if passes == [] then []
    else
      var earlier, last := Accepted(passes[..|passes| - 1], recorded, from, to), passes[|passes| - 1];
      if last.id in recorded && from <= last.check <= to then earlier + [last] else earlier
  }

  ghost predicate AllApart(passes: seq<Pass>) {
    forall i, j :: 0 <= i < j < |passes| ==> Apart(passes[i], passes[j], true)
  }

  lemma {:induction false} AcceptedAreApart(passes: seq<Pass>, recorded: set<PollId>, from: real, to: real)
    requires forall i, j :: 0 <= i < j < |passes| ==> Apart(passes[i], passes[j], passes[i].id in recorded)
    ensures var kept := Accepted(passes, recorded, from, to);
            && AllApart(kept)
            && forall x :: 0 <= x < |kept| ==>
                 kept[x] in passes && kept[x].id in recorded && from <= kept[x].check <= to
  {
    if passes != [] {
      var init := passes[..|passes| - 1];
      assert forall i :: 0 <= i < |init| ==> init[i] == passes[i];
      AcceptedAreApart(init, recorded, from, to);
      var kept, last := Accepted(init, recorded, from, to), passes[|passes| - 1];
      forall x | 0 <= x < |kept| ensures Apart(kept[x], last, true) {
        var i :| 0 <= i < |init| && init[i] == kept[x];
        assert Apart(passes[i], passes[|passes| - 1], passes[i].id in recorded);
      }
    }
  }

  function Ids(passes: seq<Pass>): set<PollId> { set p | p in passes :: p.id }

  lemma {:induction false} IdsAreMany(passes: seq<Pass>)
    requires AllApart(passes)
    ensures |Ids(passes)| == |passes|
  {
    if passes != [] {
      var init, last := passes[..|passes| - 1], passes[|passes| - 1];
      assert forall i :: 0 <= i < |init| ==> init[i] == passes[i];
      IdsAreMany(init);
      assert passes == init + [last];
      assert Ids(passes) == Ids(init) + {last.id};
      assert last.id !in Ids(init);
    }
  }

  lemma SubsetIsSmaller(a: set<PollId>, b: set<PollId>)
    requires a <= b
    ensures |a| <= |b|
  {
    assert b == a + (b - a);
  }

  /** Of `k` accepted polls one was recorded by the next one's check, if fewer than `k` were in flight then. */
  lemma OneWasRecorded(group: seq<Pass>, next: Pass, k: nat)
    requires AllApart(group + [next]) && |group| == k && |next.flying| < k
    ensures next.check - group[0].check >= 5.0
  {
    var all := group + [next];
    assert forall i :: 0 <= i < k ==> all[i] == group[i] && Apart(all[i], all[k], true);
    assert AllApart(group);
    IdsAreMany(group);
    if Ids(group) <= next.flying {
      SubsetIsSmaller(Ids(group), next.flying);
    }
    var id :| id in Ids(group) && id !in next.flying;
    var m :| 0 <= m < k && group[m].id == id;
    assert m > 0 ==> Apart(group[0], group[m], true);
  }

  predicate FewInFlight(passes: seq<Pass>, k: nat) {
    forall i :: 0 <= i < |passes| ==> |passes[i].flying| < k
  }

  lemma {:induction false} EveryGroupTakesFiveSeconds(kept: seq<Pass>, k: nat, m: nat)
    requires AllApart(kept) && FewInFlight(kept, k) && k * m < |kept|
    ensures kept[k * m].check - kept[0].check >= 5.0 * m as real
  {
    if m > 0 {
      var start, end := k * (m - 1), k * m;
      assert end == start + k && 0 <= start;
      EveryGroupTakesFiveSeconds(kept, k, m - 1);
      var group := kept[start..end];
      assert forall i :: 0 <= i < |group| ==> group[i] == kept[start + i];
      assert AllApart(group + [kept[end]]) by {
        forall i, j | 0 <= i < j <= k ensures Apart((group + [kept[end]])[i], (group + [kept[end]])[j], true) {
          assert Apart(kept[start + i], kept[start + j], true);
        }
      }
      if k > 0 {
        OneWasRecorded(group, kept[end], k);
      }
    }
  }

  lemma ManyTakeTime(kept: seq<Pass>, k: nat, m: nat, from: real, to: real)
    requires AllApart(kept) && FewInFlight(kept, k) && |kept| > k * m
    requires forall x :: 0 <= x < |kept| ==> from <= kept[x].check <= to
    ensures to - from >= 5.0 * m as real
  {
    EveryGroupTakesFiveSeconds(kept, k, m);
    assert 0 <= k * m;
  }

  lemma KeptAreFew(passes: seq<Pass>, kept: seq<Pass>, k: nat)
    requires FewInFlight(passes, k) && forall x :: 0 <= x < |kept| ==> kept[x] in passes
    ensures FewInFlight(kept, k)
  {
    forall x | 0 <= x < |kept| ensures |kept[x].flying| < k {
      var i :| 0 <= i < |passes| && passes[i] == kept[x];
    }
  }

  lemma WindowIsApart(t: State, from: real, to: real)
    requires PollInv(t)
    ensures var kept := Accepted(t.passes, t.recorded, from, to);
            && AllApart(kept)
            && forall x :: 0 <= x < |kept| ==> kept[x] in t.passes && from <= kept[x].check <= to
  {
    forall i, j | 0 <= i < j < |t.passes| ensures Apart(t.passes[i], t.passes[j], t.passes[i].id in t.recorded) {
      assert Apart(t.passes[i], t.passes[j], Alive(t, t.passes[i].id));
    }
    AcceptedAreApart(t.passes, t.recorded, from, to);
  }

  /**
   Over every interleaving of polls: if each poll that passes the check finds fewer than `k`
   others between check and record, any window of `width` seconds has at most
   `k * (width / 5 + 1)` accepted polls.
   */
  lemma WindowHoldsFewPerSlot(s: State, actions: seq<Action>, t: State, from: real, width: real, k: nat, m: nat)
    requires Initial(s) && Runs(s, actions, t) && FewInFlight(t.passes, k)
    requires |Accepted(t.passes, t.recorded, from, from + width)| > k * m
    ensures width >= 5.0 * m as real
  {
    var kept := Accepted(t.passes, t.recorded, from, from + width);
    RunKeepsPollInv(s, actions, t);
    WindowIsApart(t, from, from + width);
    KeptAreFew(t.passes, kept, k);
    ManyTakeTime(kept, k, m, from, from + width);
  }

  // ----- and that many can be -----

  /** `n` polls that all check before any of them is recorded. */
  function Checked(s: State, n: nat, now: real): State {
    if n == 0 then s
    else
      var before := Checked(s, n - 1, now);
      before.(now := now, asked := before.asked + {n}, inFlight := before.inFlight[n := false],
              passes := before.passes + [Pass(n, now, before.recorded, before.inFlight.Keys)])
  }

  lemma {:induction false} CheckedRuns(s: State, n: nat, now: real) returns (actions: seq<Action>)
    requires Initial(s) && s.now <= now
    ensures var t := Checked(s, n, now);
            && Runs(s, actions, t) && t.limiter == FRESH && t.recorded == {} && t.now <= now && |t.passes| == n
            && (forall id :: id in t.asked ==> 1 <= id <= n)
            && (forall id :: 1 <= id <= n ==> id in t.inFlight)
            && (forall i :: 0 <= i < n ==> t.passes[i].id == i + 1 && t.passes[i].check == now)
  {
    if n == 0 {
      actions := [];
    } else {
      var before := CheckedRuns(s, n - 1, now);
      actions := before + [Check(n, now)];
      RunThen(s, before, Checked(s, n - 1, now), Check(n, now));
    }
  }

  lemma {:induction false} RunThen(s: State, actions: seq<Action>, t: State, a: Action)
    requires Runs(s, actions, t) && Enabled(t, a)
    ensures Runs(s, actions + [a], Step(t, a))
    decreases |actions|
  {
    if actions == [] {
      assert ([a])[1..] == [];
    } else {
      RunThen(Step(s, actions[0]), actions[1..], t, a);
      assert (actions + [a])[1..] == actions[1..] + [a];
    }
  }

  lemma {:induction false} RecordAll(s: State, before: seq<Action>, t: State, n: nat, now: real)
    returns (actions: seq<Action>, u: State)
    requires Runs(s, before, t) && t.now <= now && forall id :: 1 <= id <= n ==> id in t.inFlight
    ensures Runs(s, actions, u) && u.passes == t.passes
    ensures forall id :: 1 <= id <= n ==> id in u.recorded
    ensures t.recorded <= u.recorded
    decreases n
  {
    if n == 0 {
      actions, u := before, t;
    } else {
      var next := Step(t, Record(n, now));
      RunThen(s, before, t, Record(n, now));
      actions, u := RecordAll(s, before + [Record(n, now)], next, n - 1, now);
    }
  }

  lemma {:induction false} AllAccepted(passes: seq<Pass>, recorded: set<PollId>, now: real)
    requires forall i :: 0 <= i < |passes| ==> passes[i].id in recorded && passes[i].check == now
    ensures Accepted(passes, recorded, now, now) == passes
  {
    if passes != [] {
      AllAccepted(passes[..|passes| - 1], recorded, now);
    }
  }

  /** Any number of polls at the same moment are all accepted, if they check before the first is recorded. */
  lemma SimultaneousPollsAreAccepted(s: State, n: nat, now: real) returns (actions: seq<Action>, t: State)
    requires Initial(s) && s.now <= now
    ensures Runs(s, actions, t) && |Accepted(t.passes, t.recorded, now, now)| == n
  {
    var checks := CheckedRuns(s, n, now);
    actions, t := RecordAll(s, checks, Checked(s, n, now), n, now);
    AllAccepted(t.passes, t.recorded, now);
  }
}
