/**
 The two scripts that close issues flagged as duplicates: which issues they close or
 keep, and what their remote writes leave behind when requests fail.

 The scripts differ in two places. The root script closes the issue before it posts the
 closing comment and lets any failure end the run; the agentcore script posts first,
 then closes, and records a failed issue and goes on, if the failure is one that its
 request helper reports as such. A timeout or a reset while the answer is awaited or
 read is not, and ends the run.

 Comment bodies and timestamps come parsed. Issues are numbered by their position in
 the repository. A request can fail with or without having taken effect.
 */
module AutoClose {

  import opened Prelude

  datatype Timestamp = Absent | Unparseable | At(time: int)

  /** The duplicate notice in a comment body. */
  datatype Marker = Marker(canonical: int, autoClose: bool)

  datatype User = User(id: Option<int>, login: Option<string>, isBot: bool)

  datatype Comment = Comment(
    id: Option<int>,
    createdAt: Timestamp,
    marker: Option<Marker>,
    isVetoNote: bool,
    user: Option<User>)

  datatype Reaction = Reaction(userId: Option<int>, content: string)

  datatype Issue = Issue(
    open: bool,
    isPullRequest: bool,
    hasCandidateLabel: bool,
    author: Option<int>,
    comments: seq<Comment>)

  datatype Repo = Repo(issues: seq<Issue>, reactions: map<int, seq<Reaction>>)

  datatype Variant = Root | AgentCore

  // ----- the latest auto-close notice -----

  predicate Qualifies(c: Comment) {
    c.marker.Some? && c.marker.value.autoClose
  }

  /** One turn of the loop: `k` is the next comment, `latest` the index kept so far. */
  function Later(comments: seq<Comment>, latest: Option<nat>, k: nat): Option<nat>
    requires k < |comments| && (latest.Some? ==> latest.value < |comments|)
  {
    if !Qualifies(comments[k]) then latest
    else if latest.None? then Some(k)
    else
      match (comments[latest.value].createdAt, comments[k].createdAt)
      case (_, Absent) => latest
      case (Absent, _) => Some(k)
      case (At(t), At(u)) => if u < t then latest else Some(k)
      case (_, _) => latest
  }

  function LatestNotice(comments: seq<Comment>, n: nat): (latest: Option<nat>)
    requires n <= |comments|
    ensures latest.Some? ==> latest.value < n && Qualifies(comments[latest.value])
  {
    if n == 0 then None else Later(comments, LatestNotice(comments, n - 1), n - 1)
  }

  method FindLatestAutoCloseComment(comments: seq<Comment>) returns (latest: Option<Comment>, canonical: Option<int>)
    ensures latest.None? <==> canonical.None?
    ensures latest.None? <==> forall c :: c in comments ==> !Qualifies(c)
    ensures latest.Some? ==> exists k ::
              && IsLatest(comments, k) && LatestNotice(comments, |comments|) == Some(k)
              && latest == Some(comments[k]) && canonical == Some(comments[k].marker.value.canonical)
  {
    latest, canonical := None, None;
    ghost var at: Option<nat> := None;
    for i := 0 to |comments|
      invariant at == LatestNotice(comments, i)
      invariant latest == (if at.Some? then Some(comments[at.value]) else None)
      invariant canonical == (if at.Some? then Some(comments[at.value].marker.value.canonical) else None)
    {
      var c := comments[i];
      if !Qualifies(c) {
        continue;
      }
      if latest.Some? {
        if c.createdAt.Absent? {
          continue;
        }
        var best := latest.value.createdAt;
        if !best.Absent? && (best.Unparseable? || c.createdAt.Unparseable? || c.createdAt.time < best.time) {
          continue;
        }
      }
      latest, canonical, at := Some(c), Some(c.marker.value.canonical), Some(i);
    }
    NoneQualifies(comments, |comments|);
    if latest.Some? {
      LatestIsLatest(comments, |comments|);
      assert comments[..|comments|] == comments;
    }
  }

  /** The first qualifying notice that has a timestamp at all. */
  ghost predicate FirstTimed(comments: seq<Comment>, f: int) {
    && 0 <= f < |comments| && Qualifies(comments[f]) && !comments[f].createdAt.Absent?
    && forall j :: 0 <= j < f && Qualifies(comments[j]) ==> comments[j].createdAt.Absent?
  }

  /**
   Which notice is reported, for every input. Notices without a timestamp are used only
   if none has one; an unparseable timestamp on the first timed notice freezes the
   choice there; otherwise the greatest parseable timestamp wins, the last one on ties.
   */
  ghost predicate IsLatest(comments: seq<Comment>, k: int) {
    && 0 <= k < |comments| && Qualifies(comments[k])
    && match comments[k].createdAt
       case Absent =>
         forall j :: 0 <= j < |comments| && Qualifies(comments[j]) ==> comments[j].createdAt.Absent? && k <= j
       case Unparseable => FirstTimed(comments, k)
       case At(t) =>
         && (exists f :: FirstTimed(comments, f) && comments[f].createdAt.At?)
         && forall j :: 0 <= j < |comments| && Qualifies(comments[j]) && comments[j].createdAt.At? ==>
              comments[j].createdAt.time < t || (comments[j].createdAt.time == t && j <= k)
  }

  lemma {:induction false} NoneQualifies(comments: seq<Comment>, n: nat)
    requires n <= |comments|
    ensures LatestNotice(comments, n).None? <==> forall j :: 0 <= j < n ==> !Qualifies(comments[j])
  {
    if n > 0 {
      NoneQualifies(comments, n - 1);
    }
  }

  lemma {:induction false} LatestIsLatest(comments: seq<Comment>, n: nat)
    requires n <= |comments| && LatestNotice(comments, n).Some?
    ensures IsLatest(comments[..n], LatestNotice(comments, n).value)
  {
    var now, before := comments[..n], comments[..n - 1];
    assert now == before + [comments[n - 1]];
    NoneQualifies(comments, n - 1);
    var k := LatestNotice(comments, n).value;
    if LatestNotice(comments, n - 1).Some? {
      LatestIsLatest(comments, n - 1);
      var b := LatestNotice(comments, n - 1).value;
      if !before[b].createdAt.Absent? {
        var f :| FirstTimed(before, f) && (before[b].createdAt.At? ==> before[f].createdAt.At?)
                                        && (before[b].createdAt.Unparseable? ==> f == b);
        assert FirstTimed(now, f);
      } else if !now[n - 1].createdAt.Absent? && Qualifies(now[n - 1]) {
        assert FirstTimed(now, n - 1);
      }
    } else if !now[n - 1].createdAt.Absent? {
      assert FirstTimed(now, n - 1);
    }
  }

  /** The specification names one notice only. */
  lemma LatestIsUnique(comments: seq<Comment>, j: int, k: int)
    requires IsLatest(comments, j) && IsLatest(comments, k)
    ensures j == k
  {
  }

  /** The newest notice: the greatest parseable timestamp, the last in list order on ties. */
  ghost predicate IsNewest(comments: seq<Comment>, k: int) {
    && 0 <= k < |comments| && Qualifies(comments[k]) && comments[k].createdAt.At?
    && forall j :: 0 <= j < |comments| && Qualifies(comments[j]) && comments[j].createdAt.At? ==>
         || comments[j].createdAt.time < comments[k].createdAt.time
         || (comments[j].createdAt.time == comments[k].createdAt.time && j <= k)
  }

  /** The reported notice is the newest one exactly when the first timed notice parses. */
  lemma ReportsTheNewestExactlyWhen(comments: seq<Comment>, k: int)
    requires IsLatest(comments, k)
    ensures IsNewest(comments, k) <==> exists f :: FirstTimed(comments, f) && comments[f].createdAt.At?
  {
    assert comments[k].createdAt.Unparseable? ==> forall f :: FirstTimed(comments, f) ==> f == k;
  }

  // ----- deciding one issue -----

  const AUTOMATION_BOT := "all-hands-bot"
  const BOT_SUFFIX := "[bot]"

  function Lower(c: char): char {
    if 'A' <= c <= 'Z' then c - 'A' + 'a' else c
  }

  predicate IsNonBotComment(c: Comment) {
    && c.user.Some? && c.user.value.id.Some? && c.user.value.login.Some? && !c.user.value.isBot
    && var name := c.user.value.login.value;
       var login := seq(|name|, i requires 0 <= i < |name| => Lower(name[i]));
       && !(|login| >= |BOT_SUFFIX| && login[|login| - |BOT_SUFFIX|..] == BOT_SUFFIX)
       && login != AUTOMATION_BOT
  }

  predicate HasReaction(reactions: seq<Reaction>, user: Option<int>, content: string) {
    user.Some? && exists r :: r in reactions && r.userId == user && r.content == content
  }

  predicate HasVetoNote(comments: seq<Comment>) {
    exists c :: c in comments && c.isVetoNote
  }

  predicate HasNewerComment(comments: seq<Comment>, time: int) {
    exists c :: c in comments && c.createdAt.At? && IsNonBotComment(c) && c.createdAt.time > time
  }

  datatype Decision =
    | Skip
    | KeepVetoed(thumbsUp: bool)
    | KeepNewer
    | Close(canonical: int, thumbsUp: bool)

  function ReactionsTo(reactions: map<int, seq<Reaction>>, comment: int): seq<Reaction> {
    if comment in reactions then reactions[comment] else []
  }

  function Decide(issue: Issue, reactions: map<int, seq<Reaction>>, cutoff: int): Decision {
    var latest := LatestNotice(issue.comments, |issue.comments|);
    if latest.None? then Skip else
    var notice := issue.comments[latest.value];
    if !notice.createdAt.At? || notice.id.None? || notice.createdAt.time > cutoff then Skip else
    var rs := ReactionsTo(reactions, notice.id.value);
    var thumbsUp := HasReaction(rs, issue.author, "+1");
    if HasReaction(rs, issue.author, "-1") then KeepVetoed(thumbsUp)
    else if HasNewerComment(issue.comments, notice.createdAt.time) then KeepNewer
    else Close(notice.marker.value.canonical, thumbsUp)
  }

  // ----- the writes a decision calls for -----

  datatype Write =
    | RemoveLabel(issue: nat)
    | PostVetoNote(issue: nat)
    | CloseIssue(issue: nat)
    | PostClosing(issue: nat, canonical: int)

  function Plan(variant: Variant, i: nat, issue: Issue, d: Decision): seq<Write> {
    match d
    case Skip => []
    case KeepVetoed(_) =>
      if HasVetoNote(issue.comments) then (if issue.hasCandidateLabel then [RemoveLabel(i)] else [])
      else if issue.hasCandidateLabel then [RemoveLabel(i), PostVetoNote(i)]
      else [PostVetoNote(i)]
    case KeepNewer => if issue.hasCandidateLabel then [RemoveLabel(i)] else []
    case Close(canonical, _) =>
      if variant.Root? then [CloseIssue(i), PostClosing(i, canonical), RemoveLabel(i)]
      else [PostClosing(i, canonical), CloseIssue(i), RemoveLabel(i)]
  }

  /** `script` is the account the script writes with, `now` the time of the run. */
  datatype Context = Context(variant: Variant, now: int, cutoff: int, script: Option<User>)

  function Effect(ctx: Context, issue: Issue, w: Write): Issue {
    match w
    case RemoveLabel(_) => issue.(hasCandidateLabel := false)
    case CloseIssue(_) => issue.(open := false)
    case PostVetoNote(_) => issue.(comments := issue.comments + [Comment(None, At(ctx.now), None, true, ctx.script)])
    case PostClosing(_, _) => issue.(comments := issue.comments + [Comment(None, At(ctx.now), None, false, ctx.script)])
  }

  function Effects(ctx: Context, issue: Issue, ws: seq<Write>): Issue {
    if ws == [] then issue else Effect(ctx, Effects(ctx, issue, ws[..|ws| - 1]), ws[|ws| - 1])
  }

  datatype Entry =
    | KeptVetoed(issue: nat, labelRemoved: bool, notePosted: bool, thumbsUp: bool)
    | KeptNewer(issue: nat, labelRemoved: bool)
    | ClosedDuplicate(issue: nat, canonical: int, thumbsUp: bool)
    | WouldClose(issue: nat, canonical: int, thumbsUp: bool)
    | Failed(issue: nat)

  /** The summary line of a decision carried out; `gone` tells that the label was no longer there to remove. */
  function EntryFor(i: nat, issue: Issue, d: Decision, dryRun: bool, gone: bool): seq<Entry> {
    match d
    case Skip => []
    case KeepVetoed(up) => [KeptVetoed(i, issue.hasCandidateLabel && !gone, !HasVetoNote(issue.comments), up)]
    case KeepNewer => [KeptNewer(i, issue.hasCandidateLabel && !gone)]
    case Close(canonical, up) =>
      if dryRun then [WouldClose(i, canonical, up)] else [ClosedDuplicate(i, canonical, up)]
  }

  // ----- a whole run, when nothing fails -----

  predicate Listed(issue: Issue) {
    issue.open && issue.hasCandidateLabel && !issue.isPullRequest
  }

  function Listing(issues: seq<Issue>, n: nat): (numbers: seq<nat>)
    requires n <= |issues|
    ensures forall k :: 0 <= k < |numbers| ==> numbers[k] < n && Listed(issues[numbers[k]])
    ensures forall j, k :: 0 <= j < k < |numbers| ==> numbers[j] < numbers[k]
    ensures forall i :: 0 <= i < n && Listed(issues[i]) ==> i in numbers
  {
    if n == 0 then []
    else Listing(issues, n - 1) + if Listed(issues[n - 1]) then [n - 1] else []
  }

  function DecisionFor(ctx: Context, repo: Repo, i: nat): Decision
    requires i < |repo.issues|
  {
    Decide(repo.issues[i], repo.reactions, ctx.cutoff)
  }

  function PlanFor(ctx: Context, repo: Repo, i: nat): seq<Write>
    requires i < |repo.issues|
  {
    Plan(ctx.variant, i, repo.issues[i], DecisionFor(ctx, repo, i))
  }

  predicate InRange(numbers: seq<nat>, repo: Repo) {
    forall k :: 0 <= k < |numbers| ==> numbers[k] < |repo.issues|
  }

  /** The newest notice has waited long enough, the author did not vote it down, and no person spoke after it. */
  ghost predicate Undisputed(ctx: Context, repo: Repo, issue: Issue, k: int) {
    && IsNewest(issue.comments, k) && IsLatest(issue.comments, k)
    && issue.comments[k].id.Some? && issue.comments[k].createdAt.time <= ctx.cutoff
    && !HasReaction(ReactionsTo(repo.reactions, issue.comments[k].id.value), issue.author, "-1")
    && !HasNewerComment(issue.comments, issue.comments[k].createdAt.time)
  }

  /** Closing is decided exactly when the notice stands undisputed, and names that notice's canonical issue. */
  lemma DecidesToCloseExactlyWhen(ctx: Context, repo: Repo, i: nat)
    requires i < |repo.issues|
    ensures DecisionFor(ctx, repo, i).Close? <==> exists k :: Undisputed(ctx, repo, repo.issues[i], k)
    ensures forall k :: Undisputed(ctx, repo, repo.issues[i], k) ==>
              && DecisionFor(ctx, repo, i).Close?
              && DecisionFor(ctx, repo, i).canonical == repo.issues[i].comments[k].marker.value.canonical
  {
    var comments := repo.issues[i].comments;
    NoneQualifies(comments, |comments|);
    var latest := LatestNotice(comments, |comments|);
    if latest.Some? {
      LatestIsLatest(comments, |comments|);
      assert comments[..|comments|] == comments;
      forall k | IsLatest(comments, k) ensures k == latest.value {
        LatestIsUnique(comments, k, latest.value);
      }
      if comments[latest.value].createdAt.At? {
        ReportsTheNewestExactlyWhen(comments, latest.value);
      }
      assert DecisionFor(ctx, repo, i).Close? ==> Undisputed(ctx, repo, repo.issues[i], latest.value);
    }
  }

  /** A run's writes to an issue close it, or comment on it as closed, exactly then. */
  lemma ClosesExactlyWhen(ctx: Context, repo: Repo, i: nat, canonical: int)
    requires i < |repo.issues|
    ensures CloseIssue(i) in PlanFor(ctx, repo, i) <==> exists k :: Undisputed(ctx, repo, repo.issues[i], k)
    ensures PostClosing(i, canonical) in PlanFor(ctx, repo, i) <==>
            exists k :: Undisputed(ctx, repo, repo.issues[i], k)
                        && repo.issues[i].comments[k].marker.value.canonical == canonical
  {
    DecidesToCloseExactlyWhen(ctx, repo, i);
  }

  /** The parts at the given positions, one after the other. */
  function Gather<T>(parts: seq<seq<T>>, numbers: seq<nat>): seq<T>
    requires forall k :: 0 <= k < |numbers| ==> numbers[k] < |parts|
  {
    if numbers == [] then []
    else Gather(parts, numbers[..|numbers| - 1]) + parts[numbers[|numbers| - 1]]
  }

  function Plans(ctx: Context, repo: Repo): seq<seq<Write>> {
    seq(|repo.issues|, i requires 0 <= i < |repo.issues| => PlanFor(ctx, repo, i))
  }

  function Entries(ctx: Context, repo: Repo, dryRun: bool): seq<seq<Entry>> {
    seq(|repo.issues|, i requires 0 <= i < |repo.issues| =>
      EntryFor(i, repo.issues[i], DecisionFor(ctx, repo, i), dryRun, false))
  }

  function AllPlans(ctx: Context, repo: Repo, numbers: seq<nat>): seq<Write>
    requires InRange(numbers, repo)
  {
    Gather(Plans(ctx, repo), numbers)
  }

  function Summary(ctx: Context, repo: Repo, numbers: seq<nat>, dryRun: bool): seq<Entry>
    requires InRange(numbers, repo)
  {
    Gather(Entries(ctx, repo, dryRun), numbers)
  }

  predicate Indexes<T>(numbers: seq<nat>, parts: seq<T>) {
    && (forall k :: 0 <= k < |numbers| ==> numbers[k] < |parts|)
    && (forall j, k :: 0 <= j < k < |numbers| ==> numbers[j] < numbers[k])
  }

  /** The first `k` issues were reported in order, and in a real run their plans written in full. */
  ghost predicate Complete(plans: seq<seq<Write>>, entries: seq<seq<Entry>>, numbers: seq<nat>, k: nat, dryRun: bool,
                           log0: seq<Write>, log: seq<Write>, done: seq<nat>, summary: seq<Entry>)
  {
    && |plans| == |entries| == |done| && Indexes(numbers, plans) && k <= |numbers|
    && summary == Gather(entries, numbers[..k])
    && (!dryRun ==> log == log0 + Gather(plans, numbers[..k])
                    && forall m :: 0 <= m < k ==> done[numbers[m]] == |plans[numbers[m]]|)
  }

  lemma OneMoreComplete(plans: seq<seq<Write>>, entries: seq<seq<Entry>>, numbers: seq<nat>, k: nat, dryRun: bool,
                        log0: seq<Write>, log: seq<Write>, done: seq<nat>, summary: seq<Entry>,
                        log': seq<Write>, done': seq<nat>)
    requires Complete(plans, entries, numbers, k, dryRun, log0, log, done, summary) && k < |numbers|
    requires |done'| == |done| && done' == done[numbers[k] := done'[numbers[k]]]
    requires !dryRun ==> log' == log + plans[numbers[k]] && done'[numbers[k]] == |plans[numbers[k]]|
    ensures Complete(plans, entries, numbers, k + 1, dryRun, log0, log', done', summary + entries[numbers[k]])
  {
    OneMoreNumber(plans, numbers, k);
    OneMoreNumber(entries, numbers, k);
    AppendIsAssociative(log0, Gather(plans, numbers[..k]), plans[numbers[k]]);
  }

  lemma OneMoreNumber<T>(parts: seq<seq<T>>, numbers: seq<nat>, k: nat)
    requires forall m :: 0 <= m < |numbers| ==> numbers[m] < |parts|
    requires k < |numbers|
    ensures Gather(parts, numbers[..k + 1]) == Gather(parts, numbers[..k]) + parts[numbers[k]]
  {
    assert numbers[..k + 1][..k] == numbers[..k];
  }

  /** What a real run leaves of an issue. */
  function After(ctx: Context, repo: Repo, i: nat): Issue
    requires i < |repo.issues|
  {
    if Listed(repo.issues[i]) then Effects(ctx, repo.issues[i], PlanFor(ctx, repo, i)) else repo.issues[i]
  }

  function AfterRun(ctx: Context, repo: Repo): Repo {
    repo.(issues := seq(|repo.issues|, i requires 0 <= i < |repo.issues| => After(ctx, repo, i)))
  }

  function AsDry(e: Entry): Entry {
    if e.ClosedDuplicate? then WouldClose(e.issue, e.canonical, e.thumbsUp) else e
  }

  /** A dry run reports the same issues, decided the same way, up to the naming of closures. */
  lemma {:induction false} DrySummaryMatches(ctx: Context, repo: Repo, numbers: seq<nat>)
    requires InRange(numbers, repo)
    ensures |Summary(ctx, repo, numbers, true)| == |Summary(ctx, repo, numbers, false)|
    ensures forall k :: 0 <= k < |Summary(ctx, repo, numbers, true)| ==>
              Summary(ctx, repo, numbers, true)[k] == AsDry(Summary(ctx, repo, numbers, false)[k])
  {
    if numbers != [] {
      DrySummaryMatches(ctx, repo, numbers[..|numbers| - 1]);
      var i := numbers[|numbers| - 1];
      DryEntryMatches(i, repo.issues[i], DecisionFor(ctx, repo, i));
    }
  }

  lemma DryEntryMatches(i: nat, issue: Issue, d: Decision)
    ensures |EntryFor(i, issue, d, true, false)| == |EntryFor(i, issue, d, false, false)| <= 1
    ensures EntryFor(i, issue, d, true, false) != [] ==>
              EntryFor(i, issue, d, true, false)[0] == AsDry(EntryFor(i, issue, d, false, false)[0])
  {
  }

  /** An issue still listed after a run is one the run skipped, unchanged. */
  lemma StillListedWasSkipped(ctx: Context, repo: Repo, i: nat)
    requires i < |repo.issues| && Listed(After(ctx, repo, i))
    ensures After(ctx, repo, i) == repo.issues[i] && DecisionFor(ctx, repo, i) == Skip
  {
    var issue, d := repo.issues[i], DecisionFor(ctx, repo, i);
    var plan := PlanFor(ctx, repo, i);
    if Listed(issue) && d != Skip {
      LabelIsGone(ctx, issue, plan, i);
    }
  }

  lemma {:induction false} LabelIsGone(ctx: Context, issue: Issue, ws: seq<Write>, i: nat)
    requires RemoveLabel(i) in ws
    ensures !Effects(ctx, issue, ws).hasCandidateLabel
  {
    if ws[|ws| - 1] != RemoveLabel(i) {
      LabelIsGone(ctx, issue, ws[..|ws| - 1], i);
    }
  }

  lemma {:induction false} SkippedPlansAreEmpty(ctx: Context, repo: Repo, numbers: seq<nat>)
    requires InRange(numbers, repo)
    requires forall k :: 0 <= k < |numbers| ==> DecisionFor(ctx, repo, numbers[k]) == Skip
    ensures AllPlans(ctx, repo, numbers) == []
  {
    if numbers != [] {
      SkippedPlansAreEmpty(ctx, repo, numbers[..|numbers| - 1]);
    }
  }

  /** A second run at the same time finds nothing left to write. */
  lemma SecondRunWritesNothing(ctx: Context, repo: Repo)
    ensures var again := AfterRun(ctx, repo);
            AllPlans(ctx, again, Listing(again.issues, |again.issues|)) == []
  {
    var again := AfterRun(ctx, repo);
    var numbers := Listing(again.issues, |again.issues|);
    forall k | 0 <= k < |numbers| ensures DecisionFor(ctx, again, numbers[k]) == Skip {
      StillListedWasSkipped(ctx, repo, numbers[k]);
    }
    SkippedPlansAreEmpty(ctx, again, numbers);
  }

  // ----- what failing requests can leave behind -----

  /**
   Root: a closing comment is always written right after the closure it announces.
   AgentCore: a closure is always written right after the comment that announces it.
   */
  predicate LogOk(variant: Variant, log: seq<Write>) {
    log == [] || (LogOk(variant, log[..|log| - 1]) && Follows(variant, log[..|log| - 1], log[|log| - 1]))
  }

  predicate Follows(variant: Variant, log: seq<Write>, w: Write) {
    if variant.Root? then
      w.PostClosing? ==> log != [] && log[|log| - 1] == CloseIssue(w.issue)
    else
      w.CloseIssue? ==> log != [] && log[|log| - 1].PostClosing? && log[|log| - 1].issue == w.issue
  }

  function Closures(log: seq<Write>, i: nat): nat {
    if log == [] then 0
    else Closures(log[..|log| - 1], i) + if log[|log| - 1] == CloseIssue(i) then 1 else 0
  }

  function ClosingComments(log: seq<Write>, i: nat): nat {
    if log == [] then 0
    else
      var w := log[|log| - 1];
      ClosingComments(log[..|log| - 1], i) + if w.PostClosing? && w.issue == i then 1 else 0
  }

  /** At every moment, the root script has posted at most one closing comment per closure, issue by issue. */
  lemma {:induction false} RootNeverCommentsUnclosed(log: seq<Write>, i: nat)
    requires LogOk(Root, log)
    ensures ClosingComments(log, i) <= Closures(log, i)
    ensures log != [] && log[|log| - 1] == CloseIssue(i) ==> ClosingComments(log, i) < Closures(log, i)
  {
    if log != [] {
      RootNeverCommentsUnclosed(log[..|log| - 1], i);
    }
  }

  /** At every moment, the agentcore script has posted a closing comment for each of its closures. */
  lemma {:induction false} AgentCoreNeverClosesSilently(log: seq<Write>, i: nat)
    requires LogOk(AgentCore, log)
    ensures Closures(log, i) <= ClosingComments(log, i)
    ensures log != [] && log[|log| - 1].PostClosing? && log[|log| - 1].issue == i ==>
              Closures(log, i) < ClosingComments(log, i)
  {
    if log != [] {
      AgentCoreNeverClosesSilently(log[..|log| - 1], i);
    }
  }

  lemma {:induction false} EarlierLogOk(variant: Variant, log: seq<Write>, n: nat)
    requires LogOk(variant, log) && n <= |log|
    ensures LogOk(variant, log[..n])
  {
    if n < |log| {
      EarlierLogOk(variant, log[..|log| - 1], n);
      assert log[..|log| - 1][..n] == log[..n];
    } else {
      assert log[..n] == log;
    }
  }

  /** A plan's closing comment comes with its closure, whatever was written before. */
  ghost predicate SelfContained(variant: Variant, plan: seq<Write>) {
    forall n :: 0 <= n < |plan| ==> Follows(variant, plan[..n], plan[n])
  }

  lemma PlansAreSelfContained(variant: Variant, i: nat, issue: Issue, d: Decision)
    ensures SelfContained(variant, Plan(variant, i, issue, d))
  {
  }

  lemma {:induction false} PrefixKeepsLogOk(variant: Variant, log: seq<Write>, plan: seq<Write>, n: nat)
    requires LogOk(variant, log) && SelfContained(variant, plan) && n <= |plan|
    ensures LogOk(variant, log + plan[..n])
  {
    if n == 0 {
      assert log + plan[..0] == log;
    } else {
      PrefixKeepsLogOk(variant, log, plan, n - 1);
      OneMoreWrite(variant, log, plan[..n - 1], plan[n - 1]);
      assert log + plan[..n] == log + plan[..n - 1] + [plan[n - 1]];
    }
  }

  lemma OneMoreWrite(variant: Variant, log: seq<Write>, done: seq<Write>, w: Write)
    requires LogOk(variant, log + done) && Follows(variant, done, w)
    ensures LogOk(variant, log + done + [w])
  {
    var longer := log + done + [w];
    assert longer[..|longer| - 1] == log + done;
  }

  // ----- the scripts -----

  /**
   How a request goes: it succeeds; GitHub answers HTTP 404; or it fails, with or without
   having taken effect, in a way that the request helper turns into the error the agentcore
   script handles, or in another way.
   */
  datatype Fault = Ok | NotFound | Fails(tookEffect: bool, handled: bool)

  /** What the caller of a request sees. */
  datatype Ending = Fine | Handled | Unhandled

  /** Removing a label that is not there is no failure. */
  function EndingOf(fault: Fault, removesLabel: bool): Ending {
    match fault
    case Ok => Fine
    case NotFound => if removesLabel then Fine else Handled
    case Fails(_, handled) => if handled then Handled else Unhandled
  }

  /** The new answers were fine up to the last one, which `ending` is; no new answer counts as fine. */
  predicate EndsWith(before: seq<Ending>, after: seq<Ending>, ending: Ending) {
    && before <= after
    && (forall n :: |before| <= n < |after| - 1 ==> after[n] == Fine)
    && ending == if |after| == |before| then Fine else after[|after| - 1]
  }

  lemma EndsWithTwice(a: seq<Ending>, b: seq<Ending>, c: seq<Ending>, ending: Ending)
    requires EndsWith(a, b, Fine) && EndsWith(b, c, ending)
    ensures EndsWith(a, c, ending)
  {
    forall n | |a| <= n < |c| - 1 ensures c[n] == Fine {
      assert n < |b| ==> c[n] == b[n];
    }
    assert |c| == |b| ==> c == b;
  }

  class Script {
    const ctx: Context
    const faults: nat -> Fault
    var answers: seq<Ending>  // one for each request so far
    var repo: Repo
    var log: seq<Write>       // the writes that took effect, and removals of labels found gone

    constructor (ctx: Context, faults: nat -> Fault, repo: Repo)
      ensures this.ctx == ctx && this.faults == faults && this.repo == repo && log == [] && answers == []
    {
      this.ctx, this.faults, this.repo := ctx, faults, repo;
      this.answers, this.log := [], [];
    }

    ghost predicate NothingFails() {
      forall n :: faults(n) == Ok
    }

    method Read() returns (ending: Ending)
      modifies `answers
      ensures ending == EndingOf(faults(|old(answers)|), false) && answers == old(answers) + [ending]
    {
      ending := EndingOf(faults(|answers|), false);
      answers := answers + [ending];
    }

    /** Since `repo0` and `log0`, the first `n` writes of `plan` took effect on issue `i`, and nothing else did. */
    ghost predicate Did(repo0: Repo, log0: seq<Write>, i: nat, plan: seq<Write>, n: nat)
      reads this
    {
      && i < |repo0.issues| && n <= |plan|
      && log == log0 + plan[..n]
      && repo == repo0.(issues := repo0.issues[i := Effects(ctx, repo0.issues[i], plan[..n])])
    }

    method Send(w: Write, ghost repo0: Repo, ghost log0: seq<Write>, ghost plan: seq<Write>, ghost n: nat)
      returns (ending: Ending, gone: bool, ghost n': nat)
      requires n < |plan| && plan[n] == w && Did(repo0, log0, w.issue, plan, n)
      modifies `answers, `repo, `log
      ensures Did(repo0, log0, w.issue, plan, n') && (ending == Fine ==> n' == n + 1)
      ensures answers == old(answers) + [ending]
      ensures ending == EndingOf(faults(|old(answers)|), w.RemoveLabel?)
      ensures gone == (w.RemoveLabel? && faults(|old(answers)|) == NotFound)
    {
      var fault := faults(|answers|);
      gone := w.RemoveLabel? && fault == NotFound;
      ending := EndingOf(fault, w.RemoveLabel?);
      answers := answers + [ending];
      n' := n;
      if fault == Ok || gone || (fault.Fails? && fault.tookEffect) {
        repo := repo.(issues := repo.issues[w.issue := Effect(ctx, repo.issues[w.issue], w)]);
        log := log + [w];
        n' := n + 1;
        assert plan[..n + 1][..n] == plan[..n];
        assert plan[..n + 1] == plan[..n] + [w];
      }
    }

    method CloseIssueAsDuplicate(i: nat, canonical: int, thumbsUp: bool, dryRun: bool)
      returns (ending: Ending, ghost done: nat)
      requires i < |repo.issues|
      modifies `answers, `repo, `log
      ensures Did(old(repo), old(log), i, Plan(ctx.variant, i, old(repo).issues[i], Close(canonical, thumbsUp)), done)
      ensures EndsWith(old(answers), answers, ending) && (dryRun ==> ending == Fine && done == 0)
      ensures !dryRun && ending == Fine ==> done == 3
      ensures NothingFails() ==> ending == Fine
    {
      ghost var plan := Plan(ctx.variant, i, repo.issues[i], Close(canonical, thumbsUp));
      var first, second := CloseIssue(i), PostClosing(i, canonical);
      if ctx.variant.AgentCore? {
        first, second := second, first;
      }
      ending, done := Fine, 0;
      if dryRun {
        return;
      }
      var gone;
      ending, gone, done := Send(first, old(repo), old(log), plan, 0);
      if ending != Fine {
        return;
      }
      ending, gone, done := Send(second, old(repo), old(log), plan, 1);
      if ending != Fine {
        return;
      }
      ending, gone, done := Send(RemoveLabel(i), old(repo), old(log), plan, 2);
    }

    /** Keeping an issue open: the label goes, and after a thumbs-down a veto note is left once. */
    method KeepOpen(i: nat, d: Decision, dryRun: bool)
      returns (ending: Ending, labelRemoved: bool, notePosted: bool, ghost done: nat)
      requires i < |repo.issues| && (d.KeepVetoed? || d.KeepNewer?)
      modifies `answers, `repo, `log
      ensures Did(old(repo), old(log), i, Plan(ctx.variant, i, old(repo).issues[i], d), done)
      ensures EndsWith(old(answers), answers, ending) && (dryRun ==> ending == Fine && done == 0)
      ensures !dryRun && ending == Fine ==> done == |Plan(ctx.variant, i, old(repo).issues[i], d)|
      ensures ending == Fine ==>
                var gone := !dryRun && faults(|old(answers)|) == NotFound;
                && labelRemoved == (old(repo).issues[i].hasCandidateLabel && !gone)
                && notePosted == (d.KeepVetoed? && !HasVetoNote(old(repo).issues[i].comments))
      ensures NothingFails() ==> ending == Fine
    {
      var issue := repo.issues[i];
      ghost var plan := Plan(ctx.variant, i, issue, d);
      ending, labelRemoved, notePosted, done := Fine, false, false, 0;
      assert Did(old(repo), old(log), i, plan, 0);
      if issue.hasCandidateLabel {
        var gone := false;
        if !dryRun {
          ending, gone, done := Send(RemoveLabel(i), old(repo), old(log), plan, 0);
        }
        labelRemoved := !gone;
      }
      if ending == Fine && d.KeepVetoed? && !HasVetoNote(issue.comments) {
        var gone;
        if !dryRun {
          ending, gone, done := Send(PostVetoNote(i), old(repo), old(log), plan, |plan| - 1);
        }
        notePosted := true;
      }
    }

    /** The loop over newer comments by people. */
    method FindNewerComments(comments: seq<Comment>, time: int) returns (newer: seq<Comment>)
      ensures newer != [] <==> HasNewerComment(comments, time)
    {
      newer := [];
      for k := 0 to |comments|
        invariant newer != [] <==>
                    exists j :: 0 <= j < k && comments[j].createdAt.At? && IsNonBotComment(comments[j])
                                && comments[j].createdAt.time > time
      {
        var c := comments[k];
        if c.createdAt.At? && IsNonBotComment(c) && c.createdAt.time > time {
          newer := newer + [c];
        }
      }
    }

    /**
     One turn of the main loop: some prefix of the issue's plan takes effect, all of it unless
     a request fails. The label, if any, is removed by the third request.
     */
    method ProcessIssue(i: nat, dryRun: bool) returns (entry: seq<Entry>, ending: Ending, ghost done: nat)
      requires i < |repo.issues|
      modifies `answers, `repo, `log
      ensures Did(old(repo), old(log), i, PlanFor(ctx, old(repo), i), done)
      ensures EndsWith(old(answers), answers, ending) && (dryRun ==> done == 0)
      ensures !dryRun && ending == Fine ==> done == |PlanFor(ctx, old(repo), i)|
      ensures ending == Fine ==>
                entry == EntryFor(i, old(repo).issues[i], DecisionFor(ctx, old(repo), i), dryRun,
                                  !dryRun && faults(|old(answers)| + 2) == NotFound)
      ensures NothingFails() ==> ending == Fine
    {
      var issue := repo.issues[i];
      assert issue == repo.issues[i];
      entry, done := [], 0;
      ending := Read();
      if ending != Fine {
        return;
      }
      var latest, canonical := FindLatestAutoCloseComment(issue.comments);
      if latest.None? {
        NoneQualifies(issue.comments, |issue.comments|);
        return;
      }
      var notice := latest.value;
      if !notice.createdAt.At? || notice.id.None? || notice.createdAt.time > ctx.cutoff {
        return;
      }
      ending := Read();
      if ending != Fine {
        return;
      }
      ghost var asked := answers;
      entry, ending, done := ActOnNotice(i, notice, dryRun);
      EndsWithTwice(old(answers), asked, answers, ending);
    }

    /** Keeps or closes an issue whose notice is old enough. */
    method ActOnNotice(i: nat, notice: Comment, dryRun: bool)
      returns (entry: seq<Entry>, ending: Ending, ghost done: nat)
      requires i < |repo.issues| && notice.id.Some? && notice.createdAt.At? && notice.marker.Some?
      requires notice.createdAt.time <= ctx.cutoff
      requires var latest := LatestNotice(repo.issues[i].comments, |repo.issues[i].comments|);
               latest.Some? && notice == repo.issues[i].comments[latest.value]
      modifies `answers, `repo, `log
      ensures Did(old(repo), old(log), i, PlanFor(ctx, old(repo), i), done)
      ensures EndsWith(old(answers), answers, ending) && (dryRun ==> done == 0)
      ensures !dryRun && ending == Fine ==> done == |PlanFor(ctx, old(repo), i)|
      ensures ending == Fine ==>
                entry == EntryFor(i, old(repo).issues[i], DecisionFor(ctx, old(repo), i), dryRun,
                                  !dryRun && faults(|old(answers)|) == NotFound)
      ensures NothingFails() ==> ending == Fine
    {
      var issue := repo.issues[i];
      var reactions := ReactionsTo(repo.reactions, notice.id.value);
      var down := HasReaction(reactions, issue.author, "-1");
      var up := HasReaction(reactions, issue.author, "+1");
      var newer := FindNewerComments(issue.comments, notice.createdAt.time);
      if down || newer != [] {
        var d := if down then KeepVetoed(up) else KeepNewer;
        assert d == DecisionFor(ctx, repo, i);
        var removed, posted;
        ending, removed, posted, done := KeepOpen(i, d, dryRun);
        entry := if down then [KeptVetoed(i, removed, posted, up)] else [KeptNewer(i, removed)];
      } else {
        var canonical := notice.marker.value.canonical;
        assert Close(canonical, up) == DecisionFor(ctx, repo, i);
        ending, done := CloseIssueAsDuplicate(i, canonical, up, dryRun);
        entry := if dryRun then [WouldClose(i, canonical, up)] else [ClosedDuplicate(i, canonical, up)];
      }
    }

    /** The answers from the `n`-th on let the loop go on to its end. */
    predicate GoesOn(answers: seq<Ending>, n: nat) {
      forall k :: n <= k < |answers| ==> answers[k] == Fine || (ctx.variant.AgentCore? && answers[k] == Handled)
    }

    /**
     A whole run. Whatever fails, every issue ends with a prefix of its plan carried out and
     the order of closing and commenting is kept. The run reaches its end exactly when the
     listing succeeds and no failure escapes. When nothing fails, the summary is that of the
     decisions on the repository as the run found it, and so are the writes. A dry run writes
     nothing.
     */
    method Run(dryRun: bool) returns (summary: seq<Entry>, ok: bool, ghost done: seq<nat>)
      modifies `answers, `repo, `log
      ensures dryRun ==> repo == old(repo) && log == old(log)
      ensures LogOk(ctx.variant, old(log)) ==> LogOk(ctx.variant, log)
      ensures PartDone(old(repo), Plans(ctx, old(repo)), done)
      ensures old(answers) < answers
      ensures ok <==> answers[|old(answers)|] == Fine && GoesOn(answers, |old(answers)| + 1)
      ensures NothingFails() ==>
                var numbers := Listing(old(repo).issues, |old(repo).issues|);
                && ok && summary == Summary(ctx, old(repo), numbers, dryRun)
                && (!dryRun ==> log == old(log) + AllPlans(ctx, old(repo), numbers) && repo == AfterRun(ctx, old(repo)))
    {
      summary := [];
      done := Untouched(Plans(ctx, repo));
      var listed := Read();
      if listed != Fine {
        ok := false;
        return;
      }
      var numbers := Listing(repo.issues, |repo.issues|);
      summary, ok, done := ProcessAll(numbers, dryRun, Plans(ctx, repo), Entries(ctx, repo, dryRun));
      assert numbers[..|numbers|] == numbers;
      if NothingFails() && !dryRun {
        AllDone(old(repo), numbers, done);
      }
    }

    method ProcessAll(numbers: seq<nat>, dryRun: bool, ghost plans: seq<seq<Write>>, ghost entries: seq<seq<Entry>>)
      returns (summary: seq<Entry>, ok: bool, ghost done: seq<nat>)
      requires numbers == Listing(repo.issues, |repo.issues|)
      requires |plans| == |entries| == |repo.issues|
      requires forall i: nat :: i < |plans| ==> Planned(repo, dryRun, plans, entries, i)
      modifies `answers, `repo, `log
      ensures dryRun ==> repo == old(repo) && log == old(log)
      ensures LogOk(ctx.variant, old(log)) ==> LogOk(ctx.variant, log)
      ensures PartDone(old(repo), plans, done)
      ensures old(answers) <= answers && (ok <==> GoesOn(answers, |old(answers)|))
      ensures NothingFails() ==>
                ok && Complete(plans, entries, numbers, |numbers|, dryRun, old(log), log, done, summary)
    {
      summary, ok := [], true;
      done := Untouched(plans);
      for k := 0 to |numbers|
        invariant ok && old(answers) <= answers && GoesOn(answers, |old(answers)|)
        invariant dryRun ==> repo == old(repo) && log == old(log)
        invariant LogOk(ctx.variant, old(log)) ==> LogOk(ctx.variant, log)
        invariant PartDone(old(repo), plans, done)
        invariant forall m :: k <= m < |numbers| ==> done[numbers[m]] == 0
        invariant NothingFails() ==> Complete(plans, entries, numbers, k, dryRun, old(log), log, done, summary)
      {
        var i := numbers[k];
        var entry, ending;
        ghost var log1, done1, answers1 := log, done, answers;
        entry, ending, done := Turn(i, dryRun, old(repo), plans, entries, done);
        AfterTurn(|old(answers)|, answers1, answers, ending);
        if NothingFails() {
          OneMoreComplete(plans, entries, numbers, k, dryRun, old(log), log1, done1, summary, log, done);
        }
        if ending == Fine {
          summary := summary + entry;
        } else if ctx.variant.AgentCore? && ending == Handled {
          summary := summary + [Failed(i)];
        } else {
          ok := false;
          return;
        }
      }
    }

    lemma AfterTurn(n: nat, before: seq<Ending>, after: seq<Ending>, ending: Ending)
      requires n <= |before| && GoesOn(before, n) && EndsWith(before, after, ending)
      ensures GoesOn(after, n) <==> ending == Fine || (ctx.variant.AgentCore? && ending == Handled)
    {
      assert forall k :: n <= k < |before| ==> after[k] == before[k];
    }

    /**
     Any number of runs, each on whatever it finds, with requests failing anywhere: after
     every write of all of them, no closure of the agentcore script lacks its comment, and
     no comment of the root script lacks its closure.
     */
    method RunRepeatedly(found: seq<Repo>, dryRun: bool)
      requires log == []
      modifies `answers, `repo, `log
      ensures forall n, i: nat :: 0 <= n <= |log| && ctx.variant.AgentCore? ==>
                Closures(log[..n], i) <= ClosingComments(log[..n], i)
      ensures forall n, i: nat :: 0 <= n <= |log| && ctx.variant.Root? ==>
                ClosingComments(log[..n], i) <= Closures(log[..n], i)
    {
      for k := 0 to |found|
        invariant LogOk(ctx.variant, log)
      {
        repo := found[k];
        var summary, ok;
        ghost var done;
        summary, ok, done := Run(dryRun);
      }
      forall n, i: nat | 0 <= n <= |log|
        ensures ctx.variant.AgentCore? ==> Closures(log[..n], i) <= ClosingComments(log[..n], i)
        ensures ctx.variant.Root? ==> ClosingComments(log[..n], i) <= Closures(log[..n], i)
      {
        EarlierLogOk(ctx.variant, log, n);
        if ctx.variant.AgentCore? {
          AgentCoreNeverClosesSilently(log[..n], i);
        } else {
          RootNeverCommentsUnclosed(log[..n], i);
        }
      }
    }

    ghost predicate Planned(repo0: Repo, dryRun: bool, plans: seq<seq<Write>>, entries: seq<seq<Entry>>, i: nat) {
      && i < |repo0.issues| == |plans| == |entries|
      && plans[i] == PlanFor(ctx, repo0, i)
      && entries[i] == EntryFor(i, repo0.issues[i], DecisionFor(ctx, repo0, i), dryRun, false)
    }

    /** Every issue carries a prefix of its plan; only listed issues carry any of it. */
    ghost predicate PartDone(repo0: Repo, plans: seq<seq<Write>>, done: seq<nat>)
      reads this
    {
      && |done| == |plans| == |repo0.issues| == |repo.issues| && repo.reactions == repo0.reactions
      && forall j :: 0 <= j < |done| ==>
           && done[j] <= |plans[j]|
           && (done[j] > 0 ==> Listed(repo0.issues[j]))
           && repo.issues[j] == Effects(ctx, repo0.issues[j], plans[j][..done[j]])
    }

    lemma Untouched(plans: seq<seq<Write>>) returns (done: seq<nat>)
      requires |plans| == |repo.issues|
      ensures PartDone(repo, plans, done) && forall j :: 0 <= j < |done| ==> done[j] == 0
    {
      done := seq(|repo.issues|, _ => 0);
      forall j | 0 <= j < |done| ensures Effects(ctx, repo.issues[j], plans[j][..0]) == repo.issues[j] {
      }
    }

    lemma AllDone(repo0: Repo, numbers: seq<nat>, done: seq<nat>)
      requires PartDone(repo0, Plans(ctx, repo0), done) && numbers == Listing(repo0.issues, |repo0.issues|)
      requires forall m :: 0 <= m < |numbers| ==> done[numbers[m]] == |Plans(ctx, repo0)[numbers[m]]|
      ensures repo == AfterRun(ctx, repo0)
    {
      forall j | 0 <= j < |done| ensures repo.issues[j] == After(ctx, repo0, j) {
        var plan := PlanFor(ctx, repo0, j);
        if Listed(repo0.issues[j]) {
          assert j in numbers;
          var m :| 0 <= m < |numbers| && numbers[m] == j;
          assert plan[..done[j]] == plan;
        }
      }
    }

    /** Processing an untouched issue decides it as the run found it. */
    method Turn(i: nat, dryRun: bool, ghost repo0: Repo, ghost plans: seq<seq<Write>>, ghost entries: seq<seq<Entry>>,
                ghost done: seq<nat>)
      returns (entry: seq<Entry>, ending: Ending, ghost done': seq<nat>)
      requires Planned(repo0, dryRun, plans, entries, i) && PartDone(repo0, plans, done)
      requires i < |done| && done[i] == 0 && Listed(repo0.issues[i])
      modifies `answers, `repo, `log
      ensures PartDone(repo0, plans, done') && done' == done[i := done'[i]]
      ensures LogOk(ctx.variant, old(log)) ==> LogOk(ctx.variant, log)
      ensures dryRun ==> repo == old(repo) && log == old(log)
      ensures EndsWith(old(answers), answers, ending)
      ensures !dryRun && ending == Fine ==> log == old(log) + plans[i] && done'[i] == |plans[i]|
      ensures ending == Fine && (dryRun || faults(|old(answers)| + 2) != NotFound) ==> entry == entries[i]
      ensures NothingFails() ==> ending == Fine
    {
      ghost var n;
      ghost var plan := plans[i];
      assert repo.issues[i] == repo0.issues[i] && plan == PlanFor(ctx, repo, i);
      entry, ending, n := ProcessIssue(i, dryRun);
      done' := done[i := n];
      assert n == |plan| ==> plan[..n] == plan;
      PlansAreSelfContained(ctx.variant, i, repo0.issues[i], DecisionFor(ctx, repo0, i));
      if LogOk(ctx.variant, old(log)) {
        PrefixKeepsLogOk(ctx.variant, old(log), plan, n);
      }
    }
  }
}
