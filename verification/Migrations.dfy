/**
 The static integrity check of the database migration files, and what a clean report
 says about the whole revision graph.

 A file comes parsed: its numeric filename prefix if it has one, and its `revision` and
 `down_revision` literals if its text parses.
 */
module Migrations {

  import opened Prelude

  datatype DownRevision =
    | Missing                        // no assignment in the file
    | NoneLiteral
    | Single(revision: string)
    | Several(revisions: seq<string>)
    | Malformed                      // any other literal

  /** `revision` is None when it is missing or not a string. */
  datatype Text = SyntaxError | Module(revision: Option<string>, down: DownRevision)

  datatype File = File(name: string, prefix: Option<string>, text: Text)

  datatype Migration = Migration(name: string, revision: string, downs: seq<string>)

  datatype Error =
    | NoDirectory
    | NoNumericPrefix(name: string)
    | CannotParse(name: string)
    | RevisionNotString(name: string)
    | PrefixMismatch(name: string, prefix: string, revision: string)
    | MissingDownRevision(name: string)
    | MalformedDownRevision(name: string)
    | DuplicatePrefix(prefix: string, names: seq<string>)
    | DuplicateRevision(revision: string, names: seq<string>)
    | UnknownDownRevision(name: string, down: string)
    | HeadCount(heads: set<string>)

  const INIT_FILE := "__init__.py"

  // ----- what the check reports, file by file and for the whole set -----

  function DownRevisions(down: DownRevision): seq<string> {
    match down
    case Single(r) => [r]
    case Several(rs) => rs
    case _ => []
  }

  function FileErrors(f: File): seq<Error> {
    if f.name == INIT_FILE then [] else
    (if f.prefix.None? then [NoNumericPrefix(f.name)] else []) +
    match f.text
    case SyntaxError => [CannotParse(f.name)]
    case Module(revision, down) =>
      if revision.None? then [RevisionNotString(f.name)]
      else
        (if f.prefix.Some? && f.prefix != revision
         then [PrefixMismatch(f.name, f.prefix.value, revision.value)] else []) +
        match down
        case Missing => [MissingDownRevision(f.name)]
        case Malformed => [MalformedDownRevision(f.name)]
        case _ => []
  }

  function AllFileErrors(files: seq<File>): seq<Error> {
    if files == [] then []
    else AllFileErrors(files[..|files| - 1]) + FileErrors(files[|files| - 1])
  }

  predicate IsMigration(f: File) {
    f.name != INIT_FILE && f.text.Module? && f.text.revision.Some?
  }

  function ToMigration(f: File): Migration
    requires IsMigration(f)
  {
    Migration(f.name, f.text.revision.value, DownRevisions(f.text.down))
  }

  function MigrationsOf(files: seq<File>): seq<Migration> {
    if files == [] then []
    else
      MigrationsOf(files[..|files| - 1]) +
      (if IsMigration(files[|files| - 1]) then [ToMigration(files[|files| - 1])] else [])
  }

  /** One row of a multimap from a prefix, or a revision, to file names. */
  datatype Entry = Entry(key: string, name: string)

  function PrefixEntries(files: seq<File>): seq<Entry> {
    if files == [] then []
    else
      var f := files[|files| - 1];
      PrefixEntries(files[..|files| - 1]) +
      (if f.name != INIT_FILE && f.prefix.Some? then [Entry(f.prefix.value, f.name)] else [])
  }

  function RevisionEntries(migrations: seq<Migration>): seq<Entry> {
    if migrations == [] then []
    else
      var m := migrations[|migrations| - 1];
      RevisionEntries(migrations[..|migrations| - 1]) + [Entry(m.revision, m.name)]
  }

  function NamesFor(entries: seq<Entry>, key: string): seq<string> {
    if entries == [] then []
    else
      var e := entries[|entries| - 1];
      NamesFor(entries[..|entries| - 1], key) + (if e.key == key then [e.name] else [])
  }

  function Known(migrations: seq<Migration>): set<string> {
    set m | m in migrations :: m.revision
  }

  function Referenced(migrations: seq<Migration>): set<string> {
    set m, d | m in migrations && d in m.downs :: d
  }

  function Heads(migrations: seq<Migration>): set<string> {
    Known(migrations) - Referenced(migrations)
  }

  type Report = (string, seq<string>) -> Error

  /** One error for each key that more than one file has. */
  function DuplicateErrors(entries: seq<Entry>, report: Report): set<Error> {
    set x | x in entries && |NamesFor(entries, x.key)| > 1 :: report(x.key, NamesFor(entries, x.key))
  }

  function UnknownDowns(ms: seq<Migration>): set<Error> {
    set m, d | m in ms && d in m.downs && d !in Known(ms) :: UnknownDownRevision(m.name, d)
  }

  function HeadErrors(ms: seq<Migration>): set<Error> {
    if ms != [] && |Heads(ms)| != 1 then {HeadCount(Heads(ms))} else {}
  }

  const SAME_PREFIX: Report := (p, names) => DuplicatePrefix(p, names)
  const SAME_REVISION: Report := (r, names) => DuplicateRevision(r, names)

  function Elements(errors: seq<Error>): set<Error> { set e | e in errors }

  function Reported(files: seq<File>): set<Error> {
    var ms := MigrationsOf(files);
    Elements(AllFileErrors(files))
    + DuplicateErrors(PrefixEntries(files), SAME_PREFIX)
    + DuplicateErrors(RevisionEntries(ms), SAME_REVISION)
    + UnknownDowns(ms)
    + HeadErrors(ms)
  }

  // ----- the check -----

  ghost predicate Groups(groups: map<string, seq<string>>, entries: seq<Entry>) {
    forall key ::
      && (key in groups <==> NamesFor(entries, key) != [])
      && (key in groups ==> groups[key] == NamesFor(entries, key))
  }

  function AddEntry(groups: map<string, seq<string>>, e: Entry): map<string, seq<string>> {
    groups[e.key := (if e.key in groups then groups[e.key] else []) + [e.name]]
  }

  lemma AddEntryGroups(groups: map<string, seq<string>>, entries: seq<Entry>, e: Entry)
    requires Groups(groups, entries)
    ensures Groups(AddEntry(groups, e), entries + [e])
  {
    assert (entries + [e])[..|entries|] == entries;
  }

  lemma AddMigration(ms: seq<Migration>, m: Migration)
    ensures RevisionEntries(ms + [m]) == RevisionEntries(ms) + [Entry(m.revision, m.name)]
    ensures Referenced(ms + [m]) == Referenced(ms) + (set d | d in m.downs)
  {
    assert (ms + [m])[..|ms|] == ms;
  }

  lemma OneMoreFile(files: seq<File>, i: nat)
    requires i < |files|
    ensures AllFileErrors(files[..i + 1]) == AllFileErrors(files[..i]) + FileErrors(files[i])
    ensures files[i].name == INIT_FILE ==> AllFileErrors(files[..i + 1]) == AllFileErrors(files[..i])
    ensures MigrationsOf(files[..i + 1]) ==
            if IsMigration(files[i]) then MigrationsOf(files[..i]) + [ToMigration(files[i])]
            else MigrationsOf(files[..i])
    ensures PrefixEntries(files[..i + 1]) ==
            if files[i].name != INIT_FILE && files[i].prefix.Some?
            then PrefixEntries(files[..i]) + [Entry(files[i].prefix.value, files[i].name)]
            else PrefixEntries(files[..i])
  {
    assert files[..i + 1][..i] == files[..i];
  }

  method ReadFile(f: File) returns (errors: seq<Error>)
    requires f.name != INIT_FILE
    ensures errors == FileErrors(f) && (errors == [] <==> CleanFile(f))
  {
    errors := [];
    if f.prefix.None? {
      errors := errors + [NoNumericPrefix(f.name)];
    }
    if f.text.SyntaxError? {
      errors := errors + [CannotParse(f.name)];
      return;
    }
    if f.text.revision.None? {
      errors := errors + [RevisionNotString(f.name)];
      return;
    }
    if f.prefix.Some? && f.prefix != f.text.revision {
      errors := errors + [PrefixMismatch(f.name, f.prefix.value, f.text.revision.value)];
    }
    if f.text.down.Missing? {
      errors := errors + [MissingDownRevision(f.name)];
    } else if f.text.down.Malformed? {
      errors := errors + [MalformedDownRevision(f.name)];
    }
  }

  /** The first loop: per-file errors, and the tables the later loops read. */
  method ReadFiles(files: seq<File>)
    returns (errors: seq<Error>, migrations: seq<Migration>, prefixes: map<string, seq<string>>,
             revisions: map<string, seq<string>>, referenced: set<string>)
    ensures errors == AllFileErrors(files) && migrations == MigrationsOf(files)
    ensures Groups(prefixes, PrefixEntries(files)) && Groups(revisions, RevisionEntries(migrations))
    ensures referenced == Referenced(migrations)
  {
    errors, migrations, prefixes, revisions, referenced := [], [], map[], map[], {};
    for i := 0 to |files|
      invariant errors == AllFileErrors(files[..i]) && migrations == MigrationsOf(files[..i])
      invariant Groups(prefixes, PrefixEntries(files[..i])) && Groups(revisions, RevisionEntries(migrations))
      invariant referenced == Referenced(migrations)
    {
      var f := files[i];
      OneMoreFile(files, i);
      if f.name == INIT_FILE {
        continue;
      }
      var found := ReadFile(f);
      errors := errors + found;
      if f.prefix.Some? {
        AddEntryGroups(prefixes, PrefixEntries(files[..i]), Entry(f.prefix.value, f.name));
        prefixes := AddEntry(prefixes, Entry(f.prefix.value, f.name));
      }
      if IsMigration(f) {
        var m := ToMigration(f);
        AddEntryGroups(revisions, RevisionEntries(migrations), Entry(m.revision, m.name));
        AddMigration(migrations, m);
        revisions := AddEntry(revisions, Entry(m.revision, m.name));
        referenced := referenced + (set d | d in m.downs);
        migrations := migrations + [m];
      }
    }
    assert files[..|files|] == files;
  }

  lemma {:induction false} KeysAreGrouped(entries: seq<Entry>, key: string)
    ensures NamesFor(entries, key) != [] <==> exists x :: x in entries && x.key == key
  {
    if entries != [] {
      var init := entries[..|entries| - 1];
      assert entries == init + [entries[|entries| - 1]];
      KeysAreGrouped(init, key);
    }
  }

  /** The loops over the two multimaps; their order is left open. */
  method FindDuplicates(groups: map<string, seq<string>>, ghost entries: seq<Entry>, report: Report)
    returns (errors: seq<Error>)
    requires Groups(groups, entries)
    ensures Elements(errors) == DuplicateErrors(entries, report)
  {
    errors := [];
    var rest := groups.Keys;
    while rest != {}
      invariant rest <= groups.Keys
      invariant forall e :: e in errors <==>
                  exists key :: key in groups && key !in rest && |groups[key]| > 1 && e == report(key, groups[key])
    {
      var key :| key in rest;
      if |groups[key]| > 1 {
        errors := errors + [report(key, groups[key])];
      }
      rest := rest - {key};
    }
    forall key ensures key in groups <==> exists x :: x in entries && x.key == key { KeysAreGrouped(entries, key); }
  }

  method FindUnknownDowns(migrations: seq<Migration>, known: set<string>) returns (errors: seq<Error>)
    requires known == Known(migrations)
    ensures Elements(errors) == UnknownDowns(migrations)
  {
    errors := [];
    for i := 0 to |migrations|
      invariant forall e :: e in errors <==>
                  e.UnknownDownRevision? && e.down !in known &&
                  exists k :: 0 <= k < i && migrations[k].name == e.name && e.down in migrations[k].downs
    {
      var m := migrations[i];
      ghost var before := errors;
      for j := 0 to |m.downs|
        invariant forall e :: e in errors <==>
                    || e in before
                    || (e.UnknownDownRevision? && e.down !in known && m.name == e.name && e.down in m.downs[..j])
      {
        assert m.downs[..j + 1] == m.downs[..j] + [m.downs[j]];
        if m.downs[j] !in known {
          errors := errors + [UnknownDownRevision(m.name, m.downs[j])];
        }
      }
      assert m.downs[..|m.downs|] == m.downs;
    }
  }

  lemma KnownIsGrouped(ms: seq<Migration>, r: string)
    ensures r in Known(ms) <==> NamesFor(RevisionEntries(ms), r) != []
  {
    var entries := RevisionEntries(ms);
    EntriesAt(ms);
    KeysAreGrouped(entries, r);
    if r in Known(ms) {
      var i :| 0 <= i < |ms| && ms[i].revision == r;
      assert entries[i] in entries && entries[i].key == r;
    }
    if NamesFor(entries, r) != [] {
      var i :| 0 <= i < |entries| && entries[i].key == r;
      assert ms[i] in ms;
    }
  }

  lemma {:induction false} EntriesAt(ms: seq<Migration>)
    ensures |RevisionEntries(ms)| == |ms|
    ensures forall i :: 0 <= i < |ms| ==> RevisionEntries(ms)[i] == Entry(ms[i].revision, ms[i].name)
  {
    if ms != [] {
      EntriesAt(ms[..|ms| - 1]);
    }
  }

  /** The report is exactly the specified set of errors, and empty exactly for a clean set of files. */
  method CheckMigrationIntegrity(directory: Option<seq<File>>) returns (errors: seq<Error>)
    ensures directory.None? ==> errors == [NoDirectory]
    ensures directory.Some? ==> Elements(errors) == Reported(directory.value)
    ensures directory.Some? ==> (errors == [] <==> Clean(directory.value))
  {
    if directory.None? {
      return [NoDirectory];
    }
    var files := directory.value;
    var fileErrors, migrations, prefixes, revisions, referenced := ReadFiles(files);
    var samePrefix := FindDuplicates(prefixes, PrefixEntries(files), SAME_PREFIX);
    var sameRevision := FindDuplicates(revisions, RevisionEntries(migrations), SAME_REVISION);
    GroupedAreKnown(revisions, migrations);
    var known := revisions.Keys;
    var unknown := FindUnknownDowns(migrations, known);
    var headErrors := CountHeads(migrations, known, referenced);
    errors := fileErrors + samePrefix + sameRevision + unknown + headErrors;
    ElementsOfFive(fileErrors, samePrefix, sameRevision, unknown, headErrors);
    NothingReported(files);
    NoneIn(errors);
  }

  method CountHeads(migrations: seq<Migration>, known: set<string>, referenced: set<string>)
    returns (errors: seq<Error>)
    requires known == Known(migrations) && referenced == Referenced(migrations)
    ensures Elements(errors) == HeadErrors(migrations)
    ensures errors == [] <==> (migrations != [] ==> exists h :: Heads(migrations) == {h})
  {
    NoHeadErrors(migrations);
    var heads := known - referenced;
    errors := if migrations != [] && |heads| != 1 then [HeadCount(heads)] else [];
  }

  lemma GroupedAreKnown(revisions: map<string, seq<string>>, ms: seq<Migration>)
    requires Groups(revisions, RevisionEntries(ms))
    ensures revisions.Keys == Known(ms)
  {
    forall r ensures r in revisions <==> r in Known(ms) { KnownIsGrouped(ms, r); }
  }

  lemma ElementsOfFive(a: seq<Error>, b: seq<Error>, c: seq<Error>, d: seq<Error>, e: seq<Error>)
    ensures Elements(a + b + c + d + e) == Elements(a) + Elements(b) + Elements(c) + Elements(d) + Elements(e)
  {
  }

  // ----- a clean report, said of the files themselves -----

  predicate CleanFile(f: File) {
    && f.text.Module? && f.prefix.Some? && f.text.revision == f.prefix
    && !f.text.down.Missing? && !f.text.down.Malformed?
  }

  ghost predicate CleanGraph(ms: seq<Migration>) {
    && UniqueRevisions(ms)
    && (forall m, d :: m in ms && d in m.downs ==> d in Known(ms))
    && (ms != [] ==> exists h :: Heads(ms) == {h})
  }

  ghost predicate Clean(files: seq<File>) {
    && (forall f :: f in files && f.name != INIT_FILE ==> CleanFile(f))
    && CleanGraph(MigrationsOf(files))
  }

  lemma {:induction false} NoFileErrors(files: seq<File>)
    ensures AllFileErrors(files) == [] <==> forall f :: f in files && f.name != INIT_FILE ==> CleanFile(f)
  {
    if files != [] {
      var init, f := files[..|files| - 1], files[|files| - 1];
      assert files == init + [f];
      NoFileErrors(init);
      assert FileErrors(f) == [] <==> f.name == INIT_FILE || CleanFile(f);
    }
  }

  lemma {:induction false} CleanPrefixesAreRevisions(files: seq<File>)
    requires forall f :: f in files && f.name != INIT_FILE ==> CleanFile(f)
    ensures PrefixEntries(files) == RevisionEntries(MigrationsOf(files))
  {
    if files != [] {
      var init, f := files[..|files| - 1], files[|files| - 1];
      assert f in files && forall g :: g in init ==> g in files;
      CleanPrefixesAreRevisions(init);
      OneMoreFile(files, |files| - 1);
      assert files[..|files| - 1 + 1] == files;
      if f.name != INIT_FILE {
        AddMigration(MigrationsOf(init), ToMigration(f));
      }
    }
  }

  predicate UniqueRevisions(ms: seq<Migration>) {
    forall i, j :: 0 <= i < j < |ms| ==> ms[i].revision != ms[j].revision
  }

  predicate UniqueKeys(entries: seq<Entry>) {
    forall i, j :: 0 <= i < j < |entries| ==> entries[i].key != entries[j].key
  }

  predicate OneNameEach(entries: seq<Entry>) {
    forall x :: x in entries ==> |NamesFor(entries, x.key)| <= 1
  }

  lemma UniqueKeysSnoc(init: seq<Entry>, last: Entry)
    ensures UniqueKeys(init + [last]) <==> UniqueKeys(init) && NamesFor(init, last.key) == []
  {
    var entries := init + [last];
    KeysAreGrouped(init, last.key);
    assert forall i :: 0 <= i < |init| ==> entries[i] == init[i];
    if NamesFor(init, last.key) != [] {
      var i :| 0 <= i < |init| && init[i].key == last.key;
      assert entries[i].key == entries[|init|].key;
    }
  }

  lemma OneNameSnoc(init: seq<Entry>, last: Entry)
    ensures OneNameEach(init + [last]) <==> OneNameEach(init) && NamesFor(init, last.key) == []
  {
    var entries := init + [last];
    assert entries[..|init|] == init && last in entries && forall x :: x in init ==> x in entries;
    forall key
      ensures NamesFor(entries, key) == NamesFor(init, key) + if last.key == key then [last.name] else []
    {
    }
  }

  lemma {:induction false} OneNameMeansUnique(entries: seq<Entry>)
    ensures OneNameEach(entries) <==> UniqueKeys(entries)
  {
    if entries != [] {
      var init, last := entries[..|entries| - 1], entries[|entries| - 1];
      assert entries == init + [last];
      OneNameMeansUnique(init);
      UniqueKeysSnoc(init, last);
      OneNameSnoc(init, last);
    }
  }

  lemma NoDuplicateRevisions(ms: seq<Migration>)
    ensures DuplicateErrors(RevisionEntries(ms), SAME_REVISION) == {} <==> UniqueRevisions(ms)
  {
    var es := RevisionEntries(ms);
    EntriesAt(ms);
    OneNameMeansUnique(es);
    forall x | x in es && |NamesFor(es, x.key)| > 1
      ensures SAME_REVISION(x.key, NamesFor(es, x.key)) in DuplicateErrors(es, SAME_REVISION)
    {
    }
  }

  lemma NoHeadErrors(ms: seq<Migration>)
    ensures HeadErrors(ms) == {} <==> (ms != [] ==> exists h :: Heads(ms) == {h})
  {
    if |Heads(ms)| == 1 {
      var h :| h in Heads(ms);
      assert |Heads(ms) - {h}| == 0;
      assert Heads(ms) == {h};
    }
  }

  lemma NoUnknownDowns(ms: seq<Migration>)
    ensures UnknownDowns(ms) == {} <==> (forall m, d :: m in ms && d in m.downs ==> d in Known(ms))
  {
    forall m, d | m in ms && d in m.downs && d !in Known(ms)
      ensures UnknownDownRevision(m.name, d) in UnknownDowns(ms)
    {
    }
  }

  lemma NoDuplicatePrefixes(files: seq<File>)
    requires forall f :: f in files && f.name != INIT_FILE ==> CleanFile(f)
    requires UniqueRevisions(MigrationsOf(files))
    ensures DuplicateErrors(PrefixEntries(files), SAME_PREFIX) == {}
  {
    CleanPrefixesAreRevisions(files);
    EntriesAt(MigrationsOf(files));
    OneNameMeansUnique(RevisionEntries(MigrationsOf(files)));
  }

  lemma UnionIsEmpty(a: set<Error>, b: set<Error>, c: set<Error>, d: set<Error>, e: set<Error>)
    ensures a + b + c + d + e == {} <==> a == {} && b == {} && c == {} && d == {} && e == {}
  {
    if a + b + c + d + e == {} {
      assert forall x :: x in a || x in b || x in c || x in d || x in e ==> x in a + b + c + d + e;
    }
  }

  lemma NoneIn(errors: seq<Error>)
    ensures Elements(errors) == {} <==> errors == []
  {
    assert errors != [] ==> errors[0] in Elements(errors);
  }

  lemma NothingReported(files: seq<File>)
    ensures Reported(files) == {} <==> Clean(files)
  {
    var ms := MigrationsOf(files);
    UnionIsEmpty(Elements(AllFileErrors(files)), DuplicateErrors(PrefixEntries(files), SAME_PREFIX),
                 DuplicateErrors(RevisionEntries(ms), SAME_REVISION), UnknownDowns(ms), HeadErrors(ms));
    NoneIn(AllFileErrors(files));
    NoFileErrors(files);
    NoDuplicateRevisions(ms);
    NoHeadErrors(ms);
    NoUnknownDowns(ms);
    if AllFileErrors(files) == [] && UniqueRevisions(ms) {
      NoDuplicatePrefixes(files);
    }
  }

  // ----- what a clean report says of the revision graph -----

  predicate Edge(ms: seq<Migration>, from: string, to: string) {
    exists m :: m in ms && m.revision == from && to in m.downs
  }

  ghost predicate IsPath(ms: seq<Migration>, path: seq<string>) {
    path != [] && forall i :: 0 <= i < |path| - 1 ==> Edge(ms, path[i], path[i + 1])
  }

  ghost predicate PathBetween(ms: seq<Migration>, path: seq<string>, from: string, to: string) {
    IsPath(ms, path) && path[0] == from && path[|path| - 1] == to
  }

  /** `to` is `from` or one of its ancestors, following `down_revision`. */
  ghost predicate Reaches(ms: seq<Migration>, from: string, to: string) {
    exists path :: PathBetween(ms, path, from, to)
  }

  ghost predicate OnCycle(ms: seq<Migration>, r: string) {
    exists path :: PathBetween(ms, path, r, r) && |path| >= 2
  }

  lemma JoinPaths(ms: seq<Migration>, p: seq<string>, q: seq<string>, a: string, b: string, c: string)
    requires PathBetween(ms, p, a, b) && PathBetween(ms, q, b, c)
    ensures PathBetween(ms, p + q[1..], a, c)
  {
    var pq := p + q[1..];
    forall i | 0 <= i < |pq| - 1 ensures Edge(ms, pq[i], pq[i + 1]) {
      if i >= |p| - 1 {
        assert pq[i] == q[i - |p| + 1] && pq[i + 1] == q[i - |p| + 2];
      }
    }
  }

  lemma ReachesTransitive(ms: seq<Migration>, a: string, b: string, c: string)
    requires Reaches(ms, a, b) && Reaches(ms, b, c)
    ensures Reaches(ms, a, c)
  {
    var p :| PathBetween(ms, p, a, b);
    var q :| PathBetween(ms, q, b, c);
    JoinPaths(ms, p, q, a, b, c);
  }

  lemma {:induction false} DistinctFits(path: seq<string>, all: set<string>)
    requires forall i :: 0 <= i < |path| ==> path[i] in all
    requires forall i, j :: 0 <= i < j < |path| ==> path[i] != path[j]
    ensures |path| <= |all|
  {
    if path != [] {
      DistinctFits(path[1..], all - {path[0]});
    }
  }

  /** From any revision, stepping from a revision to one that refers to it ends at the head or in a cycle. */
  lemma {:induction false} Climb(ms: seq<Migration>, head: string, path: seq<string>, r: string)
    requires Heads(ms) == {head}
    requires path != [] && PathBetween(ms, path, path[0], r)
    requires forall i :: 0 <= i < |path| ==> path[i] in Known(ms)
    requires forall i, j :: 0 <= i < j < |path| ==> path[i] != path[j]
    ensures Reaches(ms, head, r) || exists c :: OnCycle(ms, c) && Reaches(ms, c, r)
    decreases |Known(ms)| - |path|
  {
    DistinctFits(path, Known(ms));
    var x := path[0];
    if x == head {
      assert PathBetween(ms, path, head, r);
    } else {
      assert x !in Heads(ms);
      var m :| m in ms && x in m.downs;
      var y := m.revision;
      var longer := [y] + path;
      assert Edge(ms, y, x);
      assert forall i :: 0 < i < |longer| - 1 ==> longer[i] == path[i - 1] && longer[i + 1] == path[i];
      assert PathBetween(ms, longer, y, r);
      if k :| 0 <= k < |path| && path[k] == y {
        assert PathBetween(ms, longer[..k + 2], y, y);
        assert OnCycle(ms, y) && Reaches(ms, y, r);
      } else {
        DistinctFits(longer, Known(ms));
        Climb(ms, head, longer, r);
      }
    }
  }

  lemma HeadOrCycle(ms: seq<Migration>, head: string, r: string)
    requires Heads(ms) == {head} && r in Known(ms)
    ensures Reaches(ms, head, r) || exists c :: OnCycle(ms, c) && Reaches(ms, c, r)
  {
    assert PathBetween(ms, [r], r, r);
    Climb(ms, head, [r], r);
  }

  lemma BothWaysIsACycle(ms: seq<Migration>, a: string, b: string)
    requires Reaches(ms, a, b) && Reaches(ms, b, a) && a != b
    ensures OnCycle(ms, a)
  {
    var p :| PathBetween(ms, p, a, b);
    var q :| PathBetween(ms, q, b, a);
    JoinPaths(ms, p, q, a, b, a);
    assert |p + q[1..]| >= 2;
  }

  lemma CyclesAreKnown(ms: seq<Migration>, c: string)
    requires OnCycle(ms, c)
    ensures c in Known(ms) && c in Referenced(ms)
  {
    var path :| PathBetween(ms, path, c, c) && |path| >= 2;
    assert Edge(ms, path[0], path[1]) && Edge(ms, path[|path| - 2], path[|path| - 2 + 1]);
  }

  /** Every revision on a cycle is an ancestor of one that is on no cycle. */
  ghost predicate CyclesAreRooted(ms: seq<Migration>) {
    forall c :: OnCycle(ms, c) ==> exists r :: r in Known(ms) && !OnCycle(ms, r) && Reaches(ms, r, c)
  }

  /** Above a revision on no cycle, climbing from one such revision to the next ends at the head. */
  lemma {:induction false} ClimbRooted(ms: seq<Migration>, head: string, passed: set<string>, r: string)
    requires Heads(ms) == {head} && CyclesAreRooted(ms)
    requires r in Known(ms) && !OnCycle(ms, r) && r !in passed && passed <= Known(ms)
    requires forall p :: p in passed ==> Reaches(ms, r, p)
    ensures Reaches(ms, head, r)
    decreases |Known(ms) - passed|
  {
    HeadOrCycle(ms, head, r);
    if !Reaches(ms, head, r) {
      var c :| OnCycle(ms, c) && Reaches(ms, c, r);
      var above :| above in Known(ms) && !OnCycle(ms, above) && Reaches(ms, above, c);
      ReachesTransitive(ms, above, c, r);
      if above in passed || above == r {
        assert PathBetween(ms, [r], r, r);
        ReachesTransitive(ms, r, above, c);
        BothWaysIsACycle(ms, r, c);
      }
      forall p | p in passed + {r} ensures Reaches(ms, above, p) {
        if p in passed {
          ReachesTransitive(ms, above, r, p);
        }
      }
      assert Known(ms) - (passed + {r}) < Known(ms) - passed by { assert r in Known(ms) - passed; }
      ProperSubsetIsSmaller(Known(ms) - (passed + {r}), Known(ms) - passed);
      ClimbRooted(ms, head, passed + {r}, above);
      ReachesTransitive(ms, head, above, r);
    }
  }

  lemma ProperSubsetIsSmaller(a: set<string>, b: set<string>)
    requires a < b
    ensures |a| < |b|
  {
    assert |b| == |a| + |b - a| by { assert b == a + (b - a); }
  }

  /**
   For a clean, non-empty set of migrations: there is one head, and every revision is
   reachable from it exactly when every cycle hangs below a revision that is on none.
   */
  lemma CleanHistoryIsConnected(files: seq<File>) returns (head: string)
    requires Clean(files) && MigrationsOf(files) != []
    ensures Heads(MigrationsOf(files)) == {head}
    ensures (forall r :: r in Known(MigrationsOf(files)) ==> Reaches(MigrationsOf(files), head, r)) <==>
            CyclesAreRooted(MigrationsOf(files))
  {
    var ms := MigrationsOf(files);
    head :| Heads(ms) == {head};
    assert head in Heads(ms);
    if CyclesAreRooted(ms) {
      forall r | r in Known(ms) ensures Reaches(ms, head, r) {
        RootedIsReached(ms, head, r);
      }
    }
    if forall r :: r in Known(ms) ==> Reaches(ms, head, r) {
      forall c | OnCycle(ms, c) ensures exists r :: r in Known(ms) && !OnCycle(ms, r) && Reaches(ms, r, c) {
        CyclesAreKnown(ms, c);
        if OnCycle(ms, head) {
          CyclesAreKnown(ms, head);
        }
        assert head in Known(ms) && !OnCycle(ms, head) && Reaches(ms, head, c);
      }
    }
  }

  lemma RootedIsReached(ms: seq<Migration>, head: string, r: string)
    requires Heads(ms) == {head} && CyclesAreRooted(ms) && r in Known(ms)
    ensures Reaches(ms, head, r)
  {
    HeadOrCycle(ms, head, r);
    if !Reaches(ms, head, r) {
      var c :| OnCycle(ms, c) && Reaches(ms, c, r);
      var above :| above in Known(ms) && !OnCycle(ms, above) && Reaches(ms, above, c);
      ClimbRooted(ms, head, {}, above);
      ReachesTransitive(ms, head, above, c);
      ReachesTransitive(ms, head, c, r);
    }
  }

  lemma AcyclicHistoryIsConnected(files: seq<File>) returns (head: string)
    requires Clean(files) && MigrationsOf(files) != []
    requires forall c :: !OnCycle(MigrationsOf(files), c)
    ensures Heads(MigrationsOf(files)) == {head}
    ensures forall r :: r in Known(MigrationsOf(files)) ==> Reaches(MigrationsOf(files), head, r)
  {
    head := CleanHistoryIsConnected(files);
  }

  predicate IsNumeric(prefix: string) {
    prefix != "" && forall i :: 0 <= i < |prefix| ==> '0' <= prefix[i] <= '9'
  }

  /** A file named after its revision, which has to be a number for that. */
  function Named(revision: string, down: DownRevision): (f: File)
    requires IsNumeric(revision)
    ensures IsMigration(f) && f.text.revision == Some(revision)
  {
    var name := revision + "_m.py";
    assert |name| == |INIT_FILE| ==> name[7] == 'm';
    File(name, Some(revision), Module(Some(revision), down))
  }

  function DetachedCycle(a: string, b: string, c: string): seq<Migration>
    requires IsNumeric(a) && IsNumeric(b) && IsNumeric(c)
  {
    [ToMigration(Named(a, NoneLiteral)), ToMigration(Named(b, Single(c))), ToMigration(Named(c, Single(b)))]
  }

  lemma DetachedCycleGraph(a: string, b: string, c: string)
    requires IsNumeric(a) && IsNumeric(b) && IsNumeric(c) && a != b && b != c && c != a
    ensures CleanGraph(DetachedCycle(a, b, c)) && Heads(DetachedCycle(a, b, c)) == {a}
    ensures b in Known(DetachedCycle(a, b, c)) && !Reaches(DetachedCycle(a, b, c), a, b)
  {
    var ms := DetachedCycle(a, b, c);
    assert ms[0] in ms && ms[1] in ms && ms[2] in ms;
    assert ms[0].downs == [] && ms[1].downs == [c] && ms[2].downs == [b];
    assert Known(ms) == {a, b, c};
    assert b in ms[2].downs && c in ms[1].downs;
    assert Referenced(ms) == {b, c};
    forall path | IsPath(ms, path) && path[0] == a ensures path == [a] {
      assert |path| >= 2 ==> Edge(ms, path[0], path[1]);
    }
  }

  /**
   The check counts heads and nothing more: beside any head, a detached cycle of two
   further revisions passes it, and the head does not reach that cycle.
   */
  lemma DetachedCyclePasses(a: string, b: string, c: string) returns (files: seq<File>)
    requires IsNumeric(a) && IsNumeric(b) && IsNumeric(c) && a != b && b != c && c != a
    ensures Clean(files) && Heads(MigrationsOf(files)) == {a}
    ensures b in Known(MigrationsOf(files)) && !Reaches(MigrationsOf(files), a, b)
  {
    var f, g, h := Named(a, NoneLiteral), Named(b, Single(c)), Named(c, Single(b));
    files := [f, g, h];
    DetachedCycleGraph(a, b, c);
    MigrationsOfThree(f, g, h);
  }

  lemma MigrationsOfThree(f: File, g: File, h: File)
    requires IsMigration(f) && IsMigration(g) && IsMigration(h)
    ensures MigrationsOf([f, g, h]) == [ToMigration(f), ToMigration(g), ToMigration(h)]
  {
    assert [f, g, h][..2] == [f, g] && [f, g][..1] == [f] && [f][..0] == [];
    assert MigrationsOf([f]) == [ToMigration(f)];
    assert MigrationsOf([f, g]) == [ToMigration(f), ToMigration(g)];
  }
}
