/**
 The default-organisation bootstrap that runs on every login, as a step system.

 Each database call of `apply_for_user`, `_get_or_create_org` and `_ensure_membership`
 is one atomic step, so logins interleave at every await. Creating an organisation is
 two steps, as in `create_org_with_owner`: the name check, and later the insert, which
 the unique name can still reject. Organisation ids and user ids share one id space: a
 personal workspace has the id of its user, and every other organisation is a team one.
 The service itself tells a workspace by its name, and owners can rename any
 organisation.
 */
module DefaultOrg {

  import opened Prelude

  type Id = string
  type LoginId = string

  datatype Config = Config(enabled: bool, orgName: string, autoAddUsers: bool, hidePersonal: bool)

  datatype Db = Db(
    orgs: map<Id, string>,         // organisation names
    default: Option<Id>,           // the organisation carrying is_default
    members: set<(Id, Id)>,        // (organisation, user)
    current: map<Id, Id>)          // every user's current organisation
  {
    predicate IsTeam(o: Id) {
      o in orgs && o !in current
    }

    function TeamOrgs(): set<Id> {
      set o | o in orgs && IsTeam(o)
    }

    predicate NameTaken(name: string) {
      exists o :: o in orgs && orgs[o] == name
    }

    /** Flagging succeeds for an existing org unless another one already carries the flag. */
    predicate CanMark(o: Id) {
      o in orgs && (default.None? || default == Some(o))
    }

    function Mark(o: Id): Db
      requires CanMark(o)
    {
      this.(default := Some(o))
    }
  }

  function PersonalName(id: Id): string { "user_" + id + "_org" }

  predicate IsPersonalWorkspace(db: Db, o: Id)
    requires o in db.orgs
  {
    db.orgs[o] == PersonalName(o)
  }

  datatype Pc =
    | Looking                                             // get_default_org
    | Listing                                             // list_team_orgs
    | Adopting(org: Id)                                   // flag the sole team org
    | Naming                                              // validate_name_uniqueness
    | Persisting                                          // insert the org and its owner
    | Flagging(org: Id)                                   // flag the org just created
    | Clashed                                             // the name exists: get_default_org
    | ByName                                              // get_org_by_name
    | FlaggingNamed(org: Id)                              // flag the org found by name
    | Deferring                                           // another org was flagged: get_default_org
    | Got(org: Id, created: bool)                         // _ensure_membership: get_org_member
    | Joining(org: Id, created: bool)                     // _ensure_membership: add_user_to_org
    | Deciding(org: Id, created: bool, added: bool)       // a first join? get_org_member
    | Rechecking(org: Id, created: bool)                  // parked in a hidden workspace: get_org_member
    | Moving(org: Id, created: bool)                      // update_current_org
    | Finished(result: Option<Id>, created: bool)
    | Raised
  {
    predicate Creating() { Naming? || Persisting? }

    /** The organisation a login has settled on. */
    function Org(): Option<Id> {
      if Got? || Joining? || Deciding? || Rechecking? || Moving? then Some(org)
      else if Finished? then result
      else None
    }

    predicate SaysCreated() {
      (Got? || Joining? || Deciding? || Rechecking? || Moving? || Finished?) && created
    }
  }

  /** `snapshot` is the user's current org in the user object the login was handed. */
  datatype Login = Login(user: Id, isNewUser: bool, snapshot: Id, pc: Pc)

  datatype Creation = Creation(org: Id, login: LoginId)

  datatype State = State(
    db: Db,
    logins: map<LoginId, Login>,
    created: seq<Creation>)          // the organisations the service created, in order
  {
    predicate At(l: LoginId) { l in logins }

    function Pc(l: LoginId): Pc requires At(l) { logins[l].pc }

    function Move(l: LoginId, pc: Pc): State
      requires At(l)
    {
      this.(logins := logins[l := logins[l].(pc := pc)])
    }

    function Member(l: LoginId, o: Id): bool requires At(l) {
      (o, logins[l].user) in db.members
    }
  }

  datatype JoinResult = Added | RoleMissing | ProvisioningFails

  datatype Action =
    | SignUp(user: Id)
    | Switch(user: Id, org: Id)
    | Rename(org: Id, name: string)
    | Invite(org: Id, user: Id)                        // an invitation or provisioning adds a member
    | Remove(org: Id, user: Id)                        // an administrator removes a member
    | Begin(l: LoginId, user: Id, isNewUser: bool, hasEmail: bool)
    | Step(l: LoginId)
    | Persist(l: LoginId, org: Id)
    | Join(l: LoginId, how: JoinResult)
    | Fail(l: LoginId)                                 // a statement raises: the login ends there

  predicate Enabled(s: State, a: Action) {
    match a
    case SignUp(u) => u !in s.db.current && u !in s.db.orgs && !s.db.NameTaken(PersonalName(u))
    case Switch(u, o) => u in s.db.current && (o, u) in s.db.members
    case Rename(o, name) => o in s.db.orgs && !s.db.NameTaken(name)
    case Invite(o, u) => o in s.db.orgs && u in s.db.current && (o, u) !in s.db.members
    case Remove(o, u) => (o, u) in s.db.members
    case Begin(l, u, _, _) => !s.At(l) && u in s.db.current
    case Step(l) => s.At(l) && !s.Pc(l).Persisting? && !s.Pc(l).Joining? && !s.Pc(l).Finished? && !s.Pc(l).Raised?
    case Persist(l, _) => s.At(l) && s.Pc(l).Persisting?
    case Join(l, _) => s.At(l) && s.Pc(l).Joining?
    case Fail(l) => s.At(l) && !s.Pc(l).Finished? && !s.Pc(l).Raised?
  }

  /** The unique name and the primary key let the insert through. */
  predicate CanInsert(cfg: Config, db: Db, o: Id) {
    !db.NameTaken(cfg.orgName) && o !in db.orgs && o !in db.current
  }

  /** Where a login goes from `me.pc` on the database it finds there. */
  ghost function NextPc(cfg: Config, db: Db, me: Login): Pc {
    match me.pc
    case Looking => if db.default.Some? then Got(db.default.value, false) else Listing
    case Listing =>
      if db.TeamOrgs() == {} then Naming
      else if |db.TeamOrgs()| == 1 then var o :| o in db.TeamOrgs(); Adopting(o)
      else Finished(None, false)
    case Adopting(o) => if db.CanMark(o) then Got(o, false) else Deferring
    case Naming => if db.NameTaken(cfg.orgName) then Clashed else Persisting
    case Clashed => if db.default.Some? then Got(db.default.value, false) else ByName
    case ByName =>
      if !db.NameTaken(cfg.orgName) then Finished(None, false)
      else
        var o :| o in db.orgs && db.orgs[o] == cfg.orgName;
        if IsPersonalWorkspace(db, o) then Finished(None, false) else FlaggingNamed(o)
    case FlaggingNamed(o) => if db.CanMark(o) then Got(o, false) else Finished(None, false)
    case Flagging(o) => if db.CanMark(o) then Got(o, true) else Deferring
    case Deferring => if db.default.Some? then Got(db.default.value, false) else Finished(None, false)
    case Got(o, created) =>
      if (o, me.user) in db.members || !cfg.autoAddUsers then Deciding(o, created, false)
      else Joining(o, created)
    case Deciding(o, created, added) =>
      if added || ((me.isNewUser || created) && (o, me.user) in db.members) then Moving(o, created)
      else if cfg.hidePersonal && me.snapshot == me.user then Rechecking(o, created)
      else Finished(Some(o), created)
    case Rechecking(o, created) =>
      if (o, me.user) in db.members then Moving(o, created) else Finished(Some(o), created)
    case Moving(o, created) => Finished(Some(o), created)
    case _ => me.pc
  }

  /** The writes of those steps: setting the flag, and setting a user's current organisation. */
  function NextDb(db: Db, me: Login): Db {
    if (me.pc.Adopting? || me.pc.Flagging? || me.pc.FlaggingNamed?) && db.CanMark(me.pc.org) then
      db.Mark(me.pc.org)
    else if me.pc.Moving? then
      db.(current := db.current[me.user := me.pc.org])
    else db
  }

  ghost function Apply(cfg: Config, s: State, a: Action): State
    requires Enabled(s, a)
  {
    var db := s.db;
    match a
    case SignUp(u) =>
      s.(db := db.(orgs := db.orgs[u := PersonalName(u)], members := db.members + {(u, u)},
                   current := db.current[u := u]))
    case Switch(u, o) => s.(db := db.(current := db.current[u := o]))
    case Rename(o, name) => s.(db := db.(orgs := db.orgs[o := name]))
    case Invite(o, u) => s.(db := db.(members := db.members + {(o, u)}))
    case Remove(o, u) => s.(db := db.(members := db.members - {(o, u)}))
    case Begin(l, u, isNew, hasEmail) =>
      var pc := if cfg.enabled && hasEmail then Looking else Finished(None, false);
      s.(logins := s.logins[l := Login(u, isNew, db.current[u], pc)])
    case Step(l) => s.Move(l, NextPc(cfg, db, s.logins[l])).(db := NextDb(db, s.logins[l]))
    case Persist(l, o) =>
      if !CanInsert(cfg, db, o) then s.Move(l, Raised)
      else
        s.Move(l, Flagging(o)).(
          db := db.(orgs := db.orgs[o := cfg.orgName], members := db.members + {(o, s.logins[l].user)}),
          created := s.created + [Creation(o, l)])
    case Fail(l) => s.Move(l, Raised)
    case Join(l, how) =>
      var Joining(o, created) := s.Pc(l);
      match how
      case RoleMissing => s.Move(l, Deciding(o, created, false))
      case ProvisioningFails => s.Move(l, Raised)
      case Added =>
        if s.Member(l, o) then s.Move(l, Raised)     // the membership key is unique
        else s.Move(l, Deciding(o, created, true)).(db := db.(members := db.members + {(o, s.logins[l].user)}))
  }

  ghost predicate Runs(cfg: Config, s: State, actions: seq<Action>, t: State)
    decreases |actions|
  {
    if actions == [] then s == t
    else Enabled(s, actions[0]) && Runs(cfg, Apply(cfg, s, actions[0]), actions[1..], t)
  }

  ghost predicate UniqueNames(db: Db) {
    forall o, p :: o in db.orgs && p in db.orgs && db.orgs[o] == db.orgs[p] ==> o == p
  }

  /** An install before the first bootstrapped login. */
  ghost predicate Installed(s: State) {
    && s.logins == map[] && s.created == []
    && (s.db.default.Some? ==> s.db.default.value in s.db.orgs)
    && UniqueNames(s.db)
  }

  // ----- the invariant -----

  ghost predicate IsCreated(created: seq<Creation>, o: Id) {
    exists k :: 0 <= k < |created| && created[k].org == o
  }

  /** `base` holds the team organisations of the install. */
  ghost predicate OrgInv(base: set<Id>, db: Db, created: seq<Creation>) {
    && (forall o :: db.IsTeam(o) <==> o in base || IsCreated(created, o))
    && (forall j, k :: 0 <= j < k < |created| ==> created[j].org != created[k].org)
    && (db.default.Some? ==> db.default.value in db.orgs)
    && UniqueNames(db)
  }

  ghost predicate LoginInv(cfg: Config, db: Db, created: seq<Creation>, l: LoginId, me: Login) {
    var pc := me.pc;
    && me.user in db.current
    && (!pc.Finished? ==> cfg.enabled)
    && (pc.Flagging? ==> Creation(pc.org, l) in created)
    && (pc.Adopting? || pc.Flagging? ==> db.IsTeam(pc.org))
    && (pc.FlaggingNamed? ==> pc.org in db.orgs)
    && (pc.Deferring? ==> db.default.Some?)
    && (pc.Org().Some? ==> db.default == pc.Org())
    && (pc.SaysCreated() ==> pc.Org().Some? && Creation(pc.Org().value, l) in created)
  }

  ghost predicate Inv(cfg: Config, base: set<Id>, s: State) {
    && OrgInv(base, s.db, s.created)
    && forall l :: s.At(l) ==> LoginInv(cfg, s.db, s.created, l, s.logins[l])
  }

  /** What no action of anybody undoes. */
  ghost predicate DbGrows(db: Db, db': Db) {
    && (db.default.Some? ==> db'.default == db.default)
    && (forall u :: u in db.current ==> u in db'.current)
    && db.orgs.Keys <= db'.orgs.Keys
    && (forall o :: db.IsTeam(o) ==> db'.IsTeam(o))
  }

  lemma OtherLoginKeepsInv(cfg: Config, s: State, t: State, l: LoginId, me: Login)
    requires LoginInv(cfg, s.db, s.created, l, me) && DbGrows(s.db, t.db)
    requires s.created <= t.created
    ensures LoginInv(cfg, t.db, t.created, l, me)
  {
    assert forall c :: c in s.created ==> c in t.created;
  }

  lemma NextDbKeepsOrgs(cfg: Config, base: set<Id>, db: Db, created: seq<Creation>, l: LoginId, me: Login)
    requires OrgInv(base, db, created) && LoginInv(cfg, db, created, l, me)
    ensures OrgInv(base, NextDb(db, me), created) && DbGrows(db, NextDb(db, me))
    ensures NextDb(db, me).orgs == db.orgs
  {
    assert forall o :: NextDb(db, me).IsTeam(o) <==> db.IsTeam(o);
  }

  lemma LookupKeepsLoginInv(cfg: Config, db: Db, created: seq<Creation>, l: LoginId, me: Login)
    requires LoginInv(cfg, db, created, l, me)
    requires me.pc.Looking? || me.pc.Listing? || me.pc.Naming? || me.pc.Clashed? || me.pc.ByName? || me.pc.Deferring?
    ensures LoginInv(cfg, db, created, l, me.(pc := NextPc(cfg, db, me)))
  {
  }

  lemma FlaggingKeepsLoginInv(cfg: Config, db: Db, created: seq<Creation>, l: LoginId, me: Login)
    requires LoginInv(cfg, db, created, l, me)
    requires me.pc.Adopting? || me.pc.Flagging? || me.pc.FlaggingNamed?
    ensures LoginInv(cfg, NextDb(db, me), created, l, me.(pc := NextPc(cfg, db, me)))
  {
  }

  lemma MembershipKeepsLoginInv(cfg: Config, db: Db, created: seq<Creation>, l: LoginId, me: Login)
    requires LoginInv(cfg, db, created, l, me)
    requires me.pc.Got? || me.pc.Deciding? || me.pc.Rechecking? || me.pc.Moving?
    ensures LoginInv(cfg, NextDb(db, me), created, l, me.(pc := NextPc(cfg, db, me)))
  {
  }

  lemma InsertKeepsOrgs(base: set<Id>, db: Db, created: seq<Creation>, db': Db, c: Creation)
    requires OrgInv(base, db, created) && c.org !in db.orgs && c.org !in db.current
    requires db'.orgs.Keys == db.orgs.Keys + {c.org} && db'.current == db.current && db'.default == db.default
    requires UniqueNames(db')
    ensures OrgInv(base, db', created + [c])
  {
    var longer := created + [c];
    assert forall k :: 0 <= k < |created| ==> longer[k] == created[k] && db.IsTeam(created[k].org);
    assert longer[|created|] == c;
    forall o ensures db'.IsTeam(o) <==> o in base || IsCreated(longer, o) {
      assert db'.IsTeam(o) <==> db.IsTeam(o) || o == c.org;
      assert IsCreated(longer, o) <==> IsCreated(created, o) || o == c.org;
    }
  }

  lemma PersistKeepsInv(cfg: Config, base: set<Id>, s: State, l: LoginId, o: Id)
    requires Inv(cfg, base, s) && Enabled(s, Persist(l, o))
    ensures Inv(cfg, base, Apply(cfg, s, Persist(l, o)))
    ensures DbGrows(s.db, Apply(cfg, s, Persist(l, o)).db)
  {
    var t := Apply(cfg, s, Persist(l, o));
    assert LoginInv(cfg, s.db, s.created, l, s.logins[l]);
    if CanInsert(cfg, s.db, o) {
      InsertKeepsOrgs(base, s.db, s.created, t.db, Creation(o, l));
    }
    forall m | t.At(m) ensures LoginInv(cfg, t.db, t.created, m, t.logins[m]) {
      if m != l {
        assert s.At(m);
        OtherLoginKeepsInv(cfg, s, t, m, s.logins[m]);
      }
    }
  }

  lemma StepKeepsInv(cfg: Config, base: set<Id>, s: State, l: LoginId)
    requires Inv(cfg, base, s) && Enabled(s, Step(l))
    ensures Inv(cfg, base, Apply(cfg, s, Step(l)))
    ensures DbGrows(s.db, Apply(cfg, s, Step(l)).db)
  {
    var t := Apply(cfg, s, Step(l));
    var me := s.logins[l];
    assert LoginInv(cfg, s.db, s.created, l, me);
    NextDbKeepsOrgs(cfg, base, s.db, s.created, l, me);
    forall m | t.At(m) ensures LoginInv(cfg, t.db, t.created, m, t.logins[m]) {
      assert s.At(m);
      if m != l {
        OtherLoginKeepsInv(cfg, s, t, m, s.logins[m]);
      } else if me.pc.Got? || me.pc.Deciding? || me.pc.Rechecking? || me.pc.Moving? {
        MembershipKeepsLoginInv(cfg, s.db, s.created, l, me);
      } else if me.pc.Adopting? || me.pc.Flagging? || me.pc.FlaggingNamed? {
        FlaggingKeepsLoginInv(cfg, s.db, s.created, l, me);
      } else {
        LookupKeepsLoginInv(cfg, s.db, s.created, l, me);
      }
    }
  }

  /** Sign-ups, workspace switches, renames, invitations and removals touch no login. */
  lemma OutsideActionKeepsInv(cfg: Config, base: set<Id>, s: State, a: Action)
    requires Inv(cfg, base, s) && Enabled(s, a)
    requires a.SignUp? || a.Switch? || a.Rename? || a.Invite? || a.Remove?
    ensures Inv(cfg, base, Apply(cfg, s, a)) && DbGrows(s.db, Apply(cfg, s, a).db)
  {
    var t := Apply(cfg, s, a);
    assert forall o :: t.db.IsTeam(o) <==> s.db.IsTeam(o);
    assert OrgInv(base, t.db, t.created);
    forall m | t.At(m) ensures LoginInv(cfg, t.db, t.created, m, t.logins[m]) {
      assert s.At(m);
      OtherLoginKeepsInv(cfg, s, t, m, s.logins[m]);
    }
  }

  lemma BeginKeepsInv(cfg: Config, base: set<Id>, s: State, a: Action)
    requires Inv(cfg, base, s) && Enabled(s, a) && a.Begin?
    ensures Inv(cfg, base, Apply(cfg, s, a)) && Apply(cfg, s, a).db == s.db
  {
    var t := Apply(cfg, s, a);
    forall m | t.At(m) ensures LoginInv(cfg, t.db, t.created, m, t.logins[m]) {
      assert m != a.l ==> s.At(m);
    }
  }

  lemma JoinKeepsInv(cfg: Config, base: set<Id>, s: State, l: LoginId, how: JoinResult)
    requires Inv(cfg, base, s) && Enabled(s, Join(l, how))
    ensures Inv(cfg, base, Apply(cfg, s, Join(l, how)))
    ensures DbGrows(s.db, Apply(cfg, s, Join(l, how)).db)
  {
    var t := Apply(cfg, s, Join(l, how));
    assert t.db.orgs == s.db.orgs && t.db.current == s.db.current && t.db.default == s.db.default;
    assert forall o :: t.db.IsTeam(o) <==> s.db.IsTeam(o);
    assert OrgInv(base, t.db, t.created) && DbGrows(s.db, t.db);
    forall m | t.At(m) ensures LoginInv(cfg, t.db, t.created, m, t.logins[m]) {
      assert s.At(m);
      if m != l {
        OtherLoginKeepsInv(cfg, s, t, m, s.logins[m]);
      } else {
        JoinKeepsLoginInv(cfg, s.db, s.created, l, s.logins[l], t.db, t.logins[l]);
      }
    }
  }

  lemma JoinKeepsLoginInv(cfg: Config, db: Db, created: seq<Creation>,
                          l: LoginId, me: Login, db': Db, me': Login)
    requires LoginInv(cfg, db, created, l, me) && me.pc.Joining?
    requires DbGrows(db, db') && me' == me.(pc := me'.pc)
    requires me'.pc == Raised || (me'.pc.Deciding? && me'.pc.org == me.pc.org && me'.pc.created == me.pc.created)
    ensures LoginInv(cfg, db', created, l, me')
  {
  }

  lemma FailKeepsInv(cfg: Config, base: set<Id>, s: State, l: LoginId)
    requires Inv(cfg, base, s) && Enabled(s, Fail(l))
    ensures Inv(cfg, base, Apply(cfg, s, Fail(l))) && Apply(cfg, s, Fail(l)).db == s.db
  {
    var t := Apply(cfg, s, Fail(l));
    forall m | t.At(m) ensures LoginInv(cfg, t.db, t.created, m, t.logins[m]) {
      assert s.At(m) && LoginInv(cfg, s.db, s.created, m, s.logins[m]);
    }
  }

  lemma ActionKeepsInv(cfg: Config, base: set<Id>, s: State, a: Action)
    requires Inv(cfg, base, s) && Enabled(s, a)
    ensures Inv(cfg, base, Apply(cfg, s, a)) && DbGrows(s.db, Apply(cfg, s, a).db)
  {
    match a
    case Persist(l, o) => PersistKeepsInv(cfg, base, s, l, o);
    case Step(l) => StepKeepsInv(cfg, base, s, l);
    case Begin(_, _, _, _) => BeginKeepsInv(cfg, base, s, a);
    case Join(l, how) => JoinKeepsInv(cfg, base, s, l, how);
    case Fail(l) => FailKeepsInv(cfg, base, s, l);
    case _ => OutsideActionKeepsInv(cfg, base, s, a);
  }

  lemma {:induction false} RunKeepsInv(cfg: Config, base: set<Id>, s: State, actions: seq<Action>, t: State)
    requires Inv(cfg, base, s) && Runs(cfg, s, actions, t)
    ensures Inv(cfg, base, t) && DbGrows(s.db, t.db)
    decreases |actions|
  {
    if actions != [] {
      ActionKeepsInv(cfg, base, s, actions[0]);
      RunKeepsInv(cfg, base, Apply(cfg, s, actions[0]), actions[1..], t);
    }
  }

  lemma InstalledHasInv(cfg: Config, s: State)
    requires Installed(s)
    ensures Inv(cfg, s.db.TeamOrgs(), s)
  {
  }

  // ----- one organisation, one flag, one creator -----

  /** Team organisations come from the install or from the service, and none vanishes. */
  lemma TeamOrgsAreAccountedFor(cfg: Config, s: State, actions: seq<Action>, t: State)
    requires Installed(s) && Runs(cfg, s, actions, t)
    ensures forall o :: t.db.IsTeam(o) <==> s.db.IsTeam(o) || IsCreated(t.created, o)
    ensures forall j, k :: 0 <= j < k < |t.created| ==> t.created[j].org != t.created[k].org
  {
    InstalledHasInv(cfg, s);
    RunKeepsInv(cfg, s.db.TeamOrgs(), s, actions, t);
  }

  /** Every organisation a login ends up with is the flagged one, for good. */
  lemma ReturnedOrgIsTheDefault(cfg: Config, s: State, before: seq<Action>, t: State,
                                l: LoginId, o: Id, after: seq<Action>, u: State)
    requires Installed(s) && Runs(cfg, s, before, t) && Runs(cfg, t, after, u)
    requires t.At(l) && t.Pc(l).Finished? && t.Pc(l).result == Some(o)
    ensures t.db.default == Some(o) && u.db.default == Some(o)
  {
    InstalledHasInv(cfg, s);
    RunKeepsInv(cfg, s.db.TeamOrgs(), s, before, t);
    RunKeepsInv(cfg, s.db.TeamOrgs(), t, after, u);
  }

  /** The created-by-this-user answer is given to one login at most: the one that inserted the org. */
  lemma CreatedIsSaidOnce(cfg: Config, s: State, actions: seq<Action>, t: State, l: LoginId, m: LoginId)
    requires Installed(s) && Runs(cfg, s, actions, t)
    requires t.At(l) && t.At(m) && t.Pc(l).SaysCreated() && t.Pc(m).SaysCreated()
    ensures l == m && t.db.default.Some? && Creation(t.db.default.value, l) in t.created
  {
    InstalledHasInv(cfg, s);
    RunKeepsInv(cfg, s.db.TeamOrgs(), s, actions, t);
  }

  // ----- how many organisations are created -----

  /** No team organisation is renamed while a login is between its empty listing and its insert. */
  ghost predicate RenamesWait(s: State, a: Action) {
    a.Rename? && s.db.IsTeam(a.org) ==> forall l :: s.At(l) ==> !s.Pc(l).Creating()
  }

  ghost predicate Orderly(cfg: Config, s: State, actions: seq<Action>)
    decreases |actions|
  {
    actions != [] ==>
      && Enabled(s, actions[0]) && RenamesWait(s, actions[0])
      && Orderly(cfg, Apply(cfg, s, actions[0]), actions[1..])
  }

  /** One creation at most, which keeps its name while anybody could create another. */
  ghost predicate SingleInv(cfg: Config, base: set<Id>, s: State) {
    && |s.created| <= 1
    && (s.created != [] ==> base == {})
    && (forall l :: s.At(l) && s.Pc(l).Creating() ==>
          && base == {}
          && (s.created != [] ==>
                s.created[0].org in s.db.orgs && s.db.orgs[s.created[0].org] == cfg.orgName))
  }

  lemma NoTeamsNoCreations(base: set<Id>, db: Db, created: seq<Creation>)
    requires OrgInv(base, db, created) && db.TeamOrgs() == {}
    ensures base == {} && created == []
  {
    assert forall o :: db.IsTeam(o) ==> o in db.TeamOrgs();
    assert forall o :: o in base ==> db.IsTeam(o);
    assert created != [] ==> IsCreated(created, created[0].org);
  }

  /** Only an insert that goes through adds to the creations. */
  lemma OnlyInsertsCreate(cfg: Config, s: State, a: Action)
    requires Enabled(s, a)
    ensures var t := Apply(cfg, s, a);
            || t.created == s.created
            || (&& a.Persist? && CanInsert(cfg, s.db, a.org) && t.created == s.created + [Creation(a.org, a.l)]
                && t.db.orgs == s.db.orgs[a.org := cfg.orgName])
  {
  }

  /** And only a rename changes the name of an organisation. */
  lemma OnlyRenamesRename(cfg: Config, s: State, a: Action, o: Id)
    requires Enabled(s, a) && o in s.db.orgs && !(a.Rename? && a.org == o)
    ensures o in Apply(cfg, s, a).db.orgs && Apply(cfg, s, a).db.orgs[o] == s.db.orgs[o]
  {
  }

  lemma ActionKeepsSingle(cfg: Config, base: set<Id>, s: State, a: Action)
    requires Inv(cfg, base, s) && SingleInv(cfg, base, s) && Enabled(s, a) && RenamesWait(s, a)
    ensures SingleInv(cfg, base, Apply(cfg, s, a))
  {
    var t := Apply(cfg, s, a);
    OnlyInsertsCreate(cfg, s, a);
    if s.created != [] {
      assert IsCreated(s.created, s.created[0].org) && s.db.IsTeam(s.created[0].org);
    }
    forall l | t.At(l) && t.Pc(l).Creating()
      ensures base == {}
      ensures t.created != [] ==> t.created[0].org in t.db.orgs && t.db.orgs[t.created[0].org] == cfg.orgName
    {
      CreatingStaysSingle(cfg, base, s, a, l);
    }
  }

  lemma CreatingStaysSingle(cfg: Config, base: set<Id>, s: State, a: Action, l: LoginId)
    requires Inv(cfg, base, s) && SingleInv(cfg, base, s) && Enabled(s, a) && RenamesWait(s, a)
    requires Apply(cfg, s, a).At(l) && Apply(cfg, s, a).Pc(l).Creating()
    ensures var t := Apply(cfg, s, a);
            && base == {}
            && (t.created != [] ==> t.created[0].org in t.db.orgs && t.db.orgs[t.created[0].org] == cfg.orgName)
  {
    WhereAfter(cfg, s, a, l);
    OnlyInsertsCreate(cfg, s, a);
    if s.Pc(l).Listing? {
      NoTeamsNoCreations(base, s.db, s.created);
    } else if s.created != [] {
      assert IsCreated(s.created, s.created[0].org) && s.db.IsTeam(s.created[0].org);
      OnlyRenamesRename(cfg, s, a, s.created[0].org);
    }
  }

  lemma {:induction false} RunKeepsSingle(cfg: Config, base: set<Id>, s: State, actions: seq<Action>, t: State)
    requires Inv(cfg, base, s) && SingleInv(cfg, base, s) && Runs(cfg, s, actions, t) && Orderly(cfg, s, actions)
    ensures SingleInv(cfg, base, t)
    decreases |actions|
  {
    if actions != [] {
      ActionKeepsInv(cfg, base, s, actions[0]);
      ActionKeepsSingle(cfg, base, s, actions[0]);
      RunKeepsSingle(cfg, base, Apply(cfg, s, actions[0]), actions[1..], t);
    }
  }

  /**
   However logins interleave, as long as renames of team organisations wait for creating
   logins: the service creates at most one organisation, and none at all on an install that
   already has a team organisation.
   */
  lemma CreatesAtMostOneOrg(cfg: Config, s: State, actions: seq<Action>, t: State)
    requires Installed(s) && Runs(cfg, s, actions, t) && Orderly(cfg, s, actions)
    ensures |t.created| <= 1
    ensures s.db.TeamOrgs() != {} ==> t.created == []
  {
    InstalledHasInv(cfg, s);
    RunKeepsSingle(cfg, s.db.TeamOrgs(), s, actions, t);
  }

  lemma RunOne(cfg: Config, s: State, a: Action, rest: seq<Action>, t: State)
    requires Enabled(s, a) && Runs(cfg, Apply(cfg, s, a), rest, t)
    ensures Runs(cfg, s, [a] + rest, t)
  {
    assert ([a] + rest)[1..] == rest;
  }

  predicate NoRename(actions: seq<Action>) {
    forall a :: a in actions ==> !a.Rename?
  }

  /** A login about to insert does so wherever the name and the id are free. */
  lemma CreatingLoginInserts(cfg: Config, s: State, l: LoginId, p: Id) returns (more: seq<Action>, t: State)
    requires s.At(l) && s.Pc(l).Creating() && CanInsert(cfg, s.db, p)
    ensures Runs(cfg, s, more, t) && NoRename(more) && |t.created| == |s.created| + 1
    ensures t.db.IsTeam(p) && forall o :: s.db.IsTeam(o) ==> t.db.IsTeam(o)
  {
    var here := if s.Pc(l).Naming? then Apply(cfg, s, Step(l)) else s;
    assert here.At(l) && here.Pc(l).Persisting? && here.db == s.db && here.created == s.created;
    t := Apply(cfg, here, Persist(l, p));
    more := [Persist(l, p)];
    RunOne(cfg, here, Persist(l, p), [], t);
    if s.Pc(l).Naming? {
      more := [Step(l)] + more;
      RunOne(cfg, s, Step(l), [Persist(l, p)], t);
    }
  }

  ghost predicate SomeoneCreates(s: State) {
    exists l :: s.At(l) && s.Pc(l).Creating()
  }

  /** Without a rename, the service can still create an organisation. */
  ghost predicate CanCreate(cfg: Config, s: State) {
    exists more, u :: Runs(cfg, s, more, u) && NoRename(more) && |u.created| > |s.created|
  }

  ghost predicate ClosedForCreation(cfg: Config, s: State) {
    s.db.TeamOrgs() != {} && (s.db.NameTaken(cfg.orgName) || !SomeoneCreates(s))
  }

  lemma NameStaysTaken(cfg: Config, s: State, a: Action)
    requires Enabled(s, a) && !a.Rename? && s.db.NameTaken(cfg.orgName)
    ensures Apply(cfg, s, a).db.NameTaken(cfg.orgName)
  {
    var o :| o in s.db.orgs && s.db.orgs[o] == cfg.orgName;
    OnlyRenamesRename(cfg, s, a, o);
  }

  lemma NobodyStartsCreating(cfg: Config, s: State, a: Action)
    requires Enabled(s, a) && s.db.TeamOrgs() != {} && SomeoneCreates(Apply(cfg, s, a))
    ensures SomeoneCreates(s)
  {
    var l :| Apply(cfg, s, a).At(l) && Apply(cfg, s, a).Pc(l).Creating();
    WhereAfter(cfg, s, a, l);
  }

  lemma ActionKeepsClosed(cfg: Config, base: set<Id>, s: State, a: Action)
    requires Inv(cfg, base, s) && ClosedForCreation(cfg, s) && Enabled(s, a) && !a.Rename?
    ensures ClosedForCreation(cfg, Apply(cfg, s, a)) && Apply(cfg, s, a).created == s.created
  {
    var t := Apply(cfg, s, a);
    ActionKeepsInv(cfg, base, s, a);
    OnlyInsertsCreate(cfg, s, a);
    assert t.created != s.created ==> s.Pc(a.l).Creating();
    if t.db.TeamOrgs() == {} {
      NoTeamsIsOld(s.db, t.db);
    }
    if s.db.NameTaken(cfg.orgName) {
      NameStaysTaken(cfg, s, a);
    } else if SomeoneCreates(t) {
      NobodyStartsCreating(cfg, s, a);
    }
  }

  lemma {:induction false} RunKeepsClosed(cfg: Config, base: set<Id>, s: State, actions: seq<Action>, t: State)
    requires Inv(cfg, base, s) && ClosedForCreation(cfg, s) && Runs(cfg, s, actions, t) && NoRename(actions)
    ensures t.created == s.created
    decreases |actions|
  {
    if actions != [] {
      ActionKeepsInv(cfg, base, s, actions[0]);
      ActionKeepsClosed(cfg, base, s, actions[0]);
      RunKeepsClosed(cfg, base, Apply(cfg, s, actions[0]), actions[1..], t);
    }
  }

  /**
   Beside an existing team organisation the service can create another, without a rename,
   exactly when the configured name is free and some login is past its empty listing: in
   every state that any run, with any renames, has reached.
   */
  lemma AnotherOrgExactlyWhen(cfg: Config, s: State, actions: seq<Action>, t: State, p: Id)
    requires Installed(s) && Runs(cfg, s, actions, t) && t.db.TeamOrgs() != {}
    requires p !in t.db.orgs && p !in t.db.current
    ensures CanCreate(cfg, t) <==> !t.db.NameTaken(cfg.orgName) && SomeoneCreates(t)
  {
    InstalledHasInv(cfg, s);
    RunKeepsInv(cfg, s.db.TeamOrgs(), s, actions, t);
    if !t.db.NameTaken(cfg.orgName) && SomeoneCreates(t) {
      var l :| t.At(l) && t.Pc(l).Creating();
      var more, u := CreatingLoginInserts(cfg, t, l, p);
      assert CanCreate(cfg, t);
    } else {
      forall more, u | Runs(cfg, t, more, u) && NoRename(more) ensures u.created == t.created {
        RunKeepsClosed(cfg, s.db.TeamOrgs(), t, more, u);
      }
    }
  }

  /**
   Wherever any run has brought the system, renaming the team organisation that carries the
   configured name lets every login between its empty listing and its insert create another.
   */
  lemma RenameForks(cfg: Config, s: State, actions: seq<Action>, t: State, l: LoginId, o: Id, name: string, p: Id)
    returns (more: seq<Action>, u: State)
    requires Installed(s) && Runs(cfg, s, actions, t) && Enabled(t, Rename(o, name))
    requires t.db.IsTeam(o) && t.db.orgs[o] == cfg.orgName
    requires t.At(l) && t.Pc(l).Creating() && p !in t.db.orgs && p !in t.db.current
    ensures Runs(cfg, Apply(cfg, t, Rename(o, name)), more, u) && NoRename(more)
    ensures |u.created| == |t.created| + 1 && o != p && u.db.IsTeam(o) && u.db.IsTeam(p)
  {
    InstalledHasInv(cfg, s);
    RunKeepsInv(cfg, s.db.TeamOrgs(), s, actions, t);
    var renamed := Apply(cfg, t, Rename(o, name));
    assert renamed.db.orgs == t.db.orgs[o := name] && name != cfg.orgName;
    assert !renamed.db.NameTaken(cfg.orgName);
    more, u := CreatingLoginInserts(cfg, renamed, l, p);
    assert renamed.db.IsTeam(o);
  }

  ghost predicate StaysSingle(cfg: Config, s: State) {
    forall more, u :: Runs(cfg, s, more, u) && Orderly(cfg, s, more) ==> |u.created| <= 1
  }

  lemma {:induction false} NoRenameIsOrderly(cfg: Config, s: State, actions: seq<Action>, t: State)
    requires Runs(cfg, s, actions, t) && NoRename(actions)
    ensures Orderly(cfg, s, actions)
    decreases |actions|
  {
    if actions != [] {
      NoRenameIsOrderly(cfg, Apply(cfg, s, actions[0]), actions[1..], t);
    }
  }

  lemma WaitingRenameStaysSingle(cfg: Config, base: set<Id>, t: State, a: Action)
    requires Inv(cfg, base, t) && SingleInv(cfg, base, t) && Enabled(t, a) && RenamesWait(t, a)
    ensures StaysSingle(cfg, Apply(cfg, t, a))
  {
    var next := Apply(cfg, t, a);
    ActionKeepsInv(cfg, base, t, a);
    ActionKeepsSingle(cfg, base, t, a);
    forall more, u | Runs(cfg, next, more, u) && Orderly(cfg, next, more) ensures |u.created| <= 1 {
      RunKeepsSingle(cfg, base, next, more, u);
    }
  }

  /** While a login is creating, a team organisation of such a run has the configured name. */
  lemma TeamOrgIsNamed(cfg: Config, base: set<Id>, t: State, l: LoginId, o: Id)
    requires Inv(cfg, base, t) && SingleInv(cfg, base, t) && t.db.IsTeam(o) && t.At(l) && t.Pc(l).Creating()
    ensures |t.created| == 1 && t.db.orgs[o] == cfg.orgName
  {
    assert IsCreated(t.created, o);
  }

  /**
   In a run whose renames of team organisations have all waited for creating logins, the next
   rename leaves at most one creation, however the run goes on in the same way, exactly when
   it waits too.
   */
  lemma RenameIsSafeExactlyWhen(cfg: Config, s: State, actions: seq<Action>, t: State, o: Id, name: string, p: Id)
    requires Installed(s) && Runs(cfg, s, actions, t) && Orderly(cfg, s, actions) && Enabled(t, Rename(o, name))
    requires p !in t.db.orgs && p !in t.db.current
    ensures RenamesWait(t, Rename(o, name)) <==> StaysSingle(cfg, Apply(cfg, t, Rename(o, name)))
  {
    var base := s.db.TeamOrgs();
    InstalledHasInv(cfg, s);
    RunKeepsInv(cfg, base, s, actions, t);
    RunKeepsSingle(cfg, base, s, actions, t);
    if RenamesWait(t, Rename(o, name)) {
      WaitingRenameStaysSingle(cfg, base, t, Rename(o, name));
    } else {
      var l :| t.At(l) && t.Pc(l).Creating();
      TeamOrgIsNamed(cfg, base, t, l, o);
      var more, u := RenameForks(cfg, s, actions, t, l, o, name, p);
      NoRenameIsOrderly(cfg, Apply(cfg, t, Rename(o, name)), more, u);
      assert !StaysSingle(cfg, Apply(cfg, t, Rename(o, name)));
    }
  }

  // ----- when the flagged organisation is a team one -----

  /** A personal workspace that carries the configured name, and so does not look like one. */
  predicate Impostor(cfg: Config, db: Db, w: Id) {
    w in db.orgs && w in db.current && db.orgs[w] == cfg.orgName && !IsPersonalWorkspace(db, w)
  }

  /** The action gives a personal workspace the configured name. */
  predicate TakesName(cfg: Config, s: State, a: Action) {
    a.Rename? && a.org in s.db.current && a.name == cfg.orgName && a.name != PersonalName(a.org)
  }

  /** No action of the run does. */
  ghost predicate KeepsName(cfg: Config, s: State, actions: seq<Action>)
    decreases |actions|
  {
    actions == [] ||
    (&& Enabled(s, actions[0]) && !TakesName(cfg, s, actions[0])
     && KeepsName(cfg, Apply(cfg, s, actions[0]), actions[1..]))
  }

  ghost predicate Guarded(cfg: Config, s: State) {
    && (forall w :: !Impostor(cfg, s.db, w))
    && (s.db.default.Some? ==> s.db.IsTeam(s.db.default.value))
    && (forall l :: s.At(l) && s.Pc(l).FlaggingNamed? ==> s.db.IsTeam(s.Pc(l).org))
  }

  /** Nobody but a rename makes an impostor. */
  lemma ImpostorsAreOld(cfg: Config, base: set<Id>, s: State, a: Action, w: Id)
    requires Inv(cfg, base, s) && Enabled(s, a) && !TakesName(cfg, s, a) && Impostor(cfg, Apply(cfg, s, a).db, w)
    ensures Impostor(cfg, s.db, w)
  {
    if a.Step? {
      assert LoginInv(cfg, s.db, s.created, a.l, s.logins[a.l]);
    }
  }

  /** Where a login can be after an action: where it was, one step on, or at one of these points. */
  lemma WhereAfter(cfg: Config, s: State, a: Action, l: LoginId)
    requires Enabled(s, a) && Apply(cfg, s, a).At(l)
    ensures var pc := Apply(cfg, s, a).Pc(l);
            || (s.At(l) && pc == s.Pc(l))
            || (s.At(l) && a == Step(l) && pc == NextPc(cfg, s.db, s.logins[l]))
            || pc.Looking? || pc.Flagging? || pc.Deciding? || pc.Finished? || pc.Raised?
  {
  }

  lemma OneStepToNamed(cfg: Config, db: Db, created: seq<Creation>, l: LoginId, me: Login)
    requires LoginInv(cfg, db, created, l, me) && NextPc(cfg, db, me).FlaggingNamed? && !me.pc.FlaggingNamed?
    ensures me.pc == ByName && (db.IsTeam(NextPc(cfg, db, me).org) || Impostor(cfg, db, NextPc(cfg, db, me).org))
  {
  }

  /** A login that goes on to flag an organisation by name found a team organisation or an impostor. */
  lemma NamedIsTeamOrImpostor(cfg: Config, base: set<Id>, s: State, a: Action, l: LoginId)
    requires Inv(cfg, base, s) && Enabled(s, a)
    requires Apply(cfg, s, a).At(l) && Apply(cfg, s, a).Pc(l).FlaggingNamed?
    ensures var o := Apply(cfg, s, a).Pc(l).org;
            || Apply(cfg, s, a).db.IsTeam(o)
            || (s.At(l) && s.Pc(l) == FlaggingNamed(o) && !s.db.IsTeam(o))
            || (s.At(l) && s.Pc(l) == ByName && Impostor(cfg, s.db, o))
  {
    ActionKeepsInv(cfg, base, s, a);
    WhereAfter(cfg, s, a, l);
    if s.Pc(l) != Apply(cfg, s, a).Pc(l) {
      assert LoginInv(cfg, s.db, s.created, l, s.logins[l]);
      OneStepToNamed(cfg, s.db, s.created, l, s.logins[l]);
    }
  }

  lemma ActionKeepsGuarded(cfg: Config, base: set<Id>, s: State, a: Action)
    requires Inv(cfg, base, s) && Guarded(cfg, s) && Enabled(s, a) && !TakesName(cfg, s, a)
    ensures Guarded(cfg, Apply(cfg, s, a))
  {
    var t := Apply(cfg, s, a);
    ActionKeepsInv(cfg, base, s, a);
    forall w ensures !Impostor(cfg, t.db, w) {
      if Impostor(cfg, t.db, w) {
        ImpostorsAreOld(cfg, base, s, a, w);
      }
    }
    forall l | t.At(l) && t.Pc(l).FlaggingNamed? ensures t.db.IsTeam(t.Pc(l).org) {
      NamedIsTeamOrImpostor(cfg, base, s, a, l);
    }
    if t.db.default != s.db.default {
      assert a.Step? && LoginInv(cfg, s.db, s.created, a.l, s.logins[a.l]);
      assert s.db.IsTeam(t.db.default.value);
    }
  }

  lemma {:induction false} RunKeepsGuarded(cfg: Config, base: set<Id>, s: State, actions: seq<Action>, t: State)
    requires Inv(cfg, base, s) && Guarded(cfg, s) && Runs(cfg, s, actions, t) && KeepsName(cfg, s, actions)
    ensures Guarded(cfg, t)
    decreases |actions|
  {
    if actions != [] {
      ActionKeepsInv(cfg, base, s, actions[0]);
      ActionKeepsGuarded(cfg, base, s, actions[0]);
      RunKeepsGuarded(cfg, base, Apply(cfg, s, actions[0]), actions[1..], t);
    }
  }

  /** Unless a personal workspace takes the configured name, the flagged organisation is a team one. */
  lemma DefaultIsATeamOrg(cfg: Config, s: State, actions: seq<Action>, t: State)
    requires Installed(s) && Guarded(cfg, s) && Runs(cfg, s, actions, t) && KeepsName(cfg, s, actions)
    ensures t.db.default.Some? ==> t.db.IsTeam(t.db.default.value)
  {
    InstalledHasInv(cfg, s);
    RunKeepsGuarded(cfg, s.db.TeamOrgs(), s, actions, t);
  }

  /** Some login is on its way to the lookup by name, or a new one would get there. */
  ghost predicate LooksByName(cfg: Config, s: State) {
    || (cfg.enabled && s.db.TeamOrgs() == {})
    || exists l :: s.At(l) && (s.Pc(l).Naming? || s.Pc(l).Clashed? || s.Pc(l).ByName?)
  }

  /** A personal workspace can still be flagged as the default. */
  ghost predicate Exposed(cfg: Config, s: State) {
    && s.db.default.None?
    && (|| (exists l :: s.At(l) && s.Pc(l).FlaggingNamed? && !s.db.IsTeam(s.Pc(l).org))
        || ((exists w :: Impostor(cfg, s.db, w)) && LooksByName(cfg, s)))
  }

  ghost predicate FlagsAWorkspace(s: State) {
    s.db.default.Some? && !s.db.IsTeam(s.db.default.value)
  }

  lemma LooksByNameIsOld(cfg: Config, base: set<Id>, s: State, a: Action)
    requires Inv(cfg, base, s) && Enabled(s, a) && LooksByName(cfg, Apply(cfg, s, a))
    ensures LooksByName(cfg, s)
  {
    var t := Apply(cfg, s, a);
    ActionKeepsInv(cfg, base, s, a);
    if t.db.TeamOrgs() == {} {
      NoTeamsIsOld(s.db, t.db);
    }
    if l :| t.At(l) && (t.Pc(l).Naming? || t.Pc(l).Clashed? || t.Pc(l).ByName?) {
      LoginNearsNameLookup(cfg, base, s, a, l);
    }
  }

  lemma NoTeamsIsOld(db: Db, db': Db)
    requires DbGrows(db, db') && db'.TeamOrgs() == {}
    ensures db.TeamOrgs() == {}
  {
    forall o ensures o !in db.TeamOrgs() {
      assert db.IsTeam(o) ==> o in db'.TeamOrgs();
    }
  }

  lemma LoginNearsNameLookup(cfg: Config, base: set<Id>, s: State, a: Action, l: LoginId)
    requires Inv(cfg, base, s) && Enabled(s, a) && Apply(cfg, s, a).At(l)
    requires var pc := Apply(cfg, s, a).Pc(l); pc.Naming? || pc.Clashed? || pc.ByName?
    ensures LooksByName(cfg, s)
  {
    WhereAfter(cfg, s, a, l);
    assert LoginInv(cfg, s.db, s.created, l, s.logins[l]);
  }

  lemma ActionKeepsUnexposed(cfg: Config, base: set<Id>, s: State, a: Action)
    requires Inv(cfg, base, s) && !Exposed(cfg, s) && !FlagsAWorkspace(s)
    requires Enabled(s, a) && !TakesName(cfg, s, a)
    ensures !Exposed(cfg, Apply(cfg, s, a)) && !FlagsAWorkspace(Apply(cfg, s, a))
  {
    var t := Apply(cfg, s, a);
    ActionKeepsInv(cfg, base, s, a);
    if t.db.default != s.db.default {
      assert a.Step? && LoginInv(cfg, s.db, s.created, a.l, s.logins[a.l]);
    }
    if Exposed(cfg, t) {
      if w :| Impostor(cfg, t.db, w) && LooksByName(cfg, t) {
        ImpostorsAreOld(cfg, base, s, a, w);
        LooksByNameIsOld(cfg, base, s, a);
      }
      forall l | t.At(l) && t.Pc(l).FlaggingNamed? ensures t.db.IsTeam(t.Pc(l).org) {
        NamedIsTeamOrImpostor(cfg, base, s, a, l);
      }
    }
  }

  lemma {:induction false} RunKeepsUnexposed(cfg: Config, base: set<Id>, s: State, actions: seq<Action>, t: State)
    requires Inv(cfg, base, s) && !Exposed(cfg, s) && !FlagsAWorkspace(s)
    requires Runs(cfg, s, actions, t) && KeepsName(cfg, s, actions)
    ensures !FlagsAWorkspace(t)
    decreases |actions|
  {
    if actions != [] {
      ActionKeepsInv(cfg, base, s, actions[0]);
      ActionKeepsUnexposed(cfg, base, s, actions[0]);
      RunKeepsUnexposed(cfg, base, Apply(cfg, s, actions[0]), actions[1..], t);
    }
  }

  lemma StepOne(cfg: Config, s: State, l: LoginId, rest: seq<Action>, t: State)
    requires Enabled(s, Step(l))
    requires Runs(cfg, Apply(cfg, s, Step(l)), rest, t) && KeepsName(cfg, Apply(cfg, s, Step(l)), rest)
    ensures Runs(cfg, s, [Step(l)] + rest, t) && KeepsName(cfg, s, [Step(l)] + rest)
  {
    RunOne(cfg, s, Step(l), rest, t);
    assert ([Step(l)] + rest)[1..] == rest;
  }

  /** From any of these points a login flags the impostor by its own steps alone. */
  lemma DeceivedLoginFlags(cfg: Config, s: State, l: LoginId, w: Id) returns (more: seq<Action>, t: State)
    requires UniqueNames(s.db) && s.At(l) && s.db.default.None? && Impostor(cfg, s.db, w)
    requires || s.Pc(l).Naming? || s.Pc(l).Clashed? || s.Pc(l).ByName? || s.Pc(l) == FlaggingNamed(w)
             || (s.db.TeamOrgs() == {} && (s.Pc(l).Looking? || s.Pc(l).Listing?))
    ensures Runs(cfg, s, more, t) && KeepsName(cfg, s, more) && t.db.default == Some(w) && !t.db.IsTeam(w)
    decreases if s.Pc(l).Looking? then 5 else if s.Pc(l).Listing? then 4 else if s.Pc(l).Naming? then 3
              else if s.Pc(l).Clashed? then 2 else if s.Pc(l).ByName? then 1 else 0
  {
    var next := Apply(cfg, s, Step(l));
    if s.Pc(l).FlaggingNamed? {
      more, t := [], next;
    } else {
      assert next.db == s.db;
      more, t := DeceivedLoginFlags(cfg, next, l, w);
    }
    StepOne(cfg, s, l, more, t);
    more := [Step(l)] + more;
  }

  ghost predicate CanFlagAWorkspace(cfg: Config, s: State) {
    exists more, u :: Runs(cfg, s, more, u) && KeepsName(cfg, s, more) && FlagsAWorkspace(u)
  }

  /**
   From any reachable state without a default, a personal workspace can come to be flagged,
   without any further workspace taking the configured name, exactly when the state is exposed.
   */
  lemma WorkspaceIsFlaggedExactlyWhen(cfg: Config, s: State, actions: seq<Action>, t: State, l: LoginId)
    requires Installed(s) && Runs(cfg, s, actions, t) && t.db.default.None? && !t.At(l)
    ensures Exposed(cfg, t) <==> CanFlagAWorkspace(cfg, t)
  {
    var base := s.db.TeamOrgs();
    InstalledHasInv(cfg, s);
    RunKeepsInv(cfg, base, s, actions, t);
    if Exposed(cfg, t) {
      var more, u := ExposedStateFlags(cfg, base, t, l);
      assert CanFlagAWorkspace(cfg, t);
    } else {
      forall more, u | Runs(cfg, t, more, u) && KeepsName(cfg, t, more) ensures !FlagsAWorkspace(u) {
        RunKeepsUnexposed(cfg, base, t, more, u);
      }
    }
  }

  /** On an install without a team organisation, renaming a workspace and one login suffice. */
  lemma RenamedWorkspaceIsFlagged(cfg: Config, s: State, w: Id, l: LoginId) returns (actions: seq<Action>, t: State)
    requires Installed(s) && cfg.enabled && s.db.default.None? && s.db.TeamOrgs() == {}
    requires w in s.db.orgs && w in s.db.current && !s.db.NameTaken(cfg.orgName) && cfg.orgName != PersonalName(w)
    ensures Runs(cfg, s, actions, t) && t.db.default == Some(w) && !t.db.IsTeam(w)
  {
    var rename, begin := Rename(w, cfg.orgName), Begin(l, w, false, true);
    var renamed := Apply(cfg, s, rename);
    assert forall o :: renamed.db.IsTeam(o) ==> o in s.db.TeamOrgs();
    var begun := Apply(cfg, renamed, begin);
    actions, t := DeceivedLoginFlags(cfg, begun, l, w);
    RunOne(cfg, renamed, begin, actions, t);
    RunOne(cfg, s, rename, [begin] + actions, t);
    actions := [rename] + ([begin] + actions);
  }

  lemma ExposedStateFlags(cfg: Config, base: set<Id>, t: State, l: LoginId) returns (more: seq<Action>, u: State)
    requires Inv(cfg, base, t) && Exposed(cfg, t) && !t.At(l)
    ensures Runs(cfg, t, more, u) && KeepsName(cfg, t, more) && FlagsAWorkspace(u)
  {
    if m :| t.At(m) && t.Pc(m).FlaggingNamed? && !t.db.IsTeam(t.Pc(m).org) {
      assert LoginInv(cfg, t.db, t.created, m, t.logins[m]);
      more, u := [Step(m)], Apply(cfg, t, Step(m));
      StepOne(cfg, t, m, [], u);
    } else {
      var w :| Impostor(cfg, t.db, w) && LooksByName(cfg, t);
      if m :| t.At(m) && (t.Pc(m).Naming? || t.Pc(m).Clashed? || t.Pc(m).ByName?) {
        more, u := DeceivedLoginFlags(cfg, t, m, w);
      } else {
        var begin := Begin(l, w, false, true);
        var begun := Apply(cfg, t, begin);
        more, u := DeceivedLoginFlags(cfg, begun, l, w);
        RunOne(cfg, t, begin, more, u);
        assert ([begin] + more)[1..] == more;
        more := [begin] + more;
      }
    }
  }

  // ----- membership and the current organisation -----

  lemma MemberStays(cfg: Config, s: State, a: Action, o: Id, u: Id)
    requires Enabled(s, a) && (o, u) in s.db.members && a != Remove(o, u)
    ensures (o, u) in Apply(cfg, s, a).db.members
  {
  }

  lemma {:induction false} MemberStaysAlong(cfg: Config, s: State, actions: seq<Action>, t: State, o: Id, u: Id)
    requires Runs(cfg, s, actions, t) && (o, u) in s.db.members && Remove(o, u) !in actions
    ensures (o, u) in t.db.members
    decreases |actions|
  {
    if actions != [] {
      MemberStays(cfg, s, actions[0], o, u);
      MemberStaysAlong(cfg, Apply(cfg, s, actions[0]), actions[1..], t, o, u);
    }
  }

  /** Logins remove nobody: a membership goes only by a removal. And the flag never moves. */
  lemma MembershipOnlyGrows(cfg: Config, s: State, before: seq<Action>, t: State, after: seq<Action>, u: State)
    requires Installed(s) && Runs(cfg, s, before, t) && Runs(cfg, t, after, u)
    ensures forall o, x :: (o, x) in t.db.members && Remove(o, x) !in after ==> (o, x) in u.db.members
    ensures t.db.default.Some? ==> u.db.default == t.db.default
  {
    InstalledHasInv(cfg, s);
    RunKeepsInv(cfg, s.db.TeamOrgs(), s, before, t);
    RunKeepsInv(cfg, s.db.TeamOrgs(), t, after, u);
    forall o, x | (o, x) in t.db.members && Remove(o, x) !in after ensures (o, x) in u.db.members {
      MemberStaysAlong(cfg, t, after, u, o, x);
    }
  }

  // ----- whom the service moves -----

  /** The login was told, or has seen, that its user is a member, and nothing has changed that. */
  predicate SeenMember(db: Db, me: Login) {
    me.pc.Moving? || (me.pc.Deciding? && me.pc.added) ==> (me.pc.org, me.user) in db.members
  }

  predicate NotRemoved(actions: seq<Action>, d: Option<Id>, user: Id) {
    forall a :: a in actions && a.Remove? && a.user == user ==> Some(a.org) != d
  }

  lemma OwnStepSeesMember(cfg: Config, db: Db, me: Login)
    requires SeenMember(db, me)
    ensures SeenMember(NextDb(db, me), me.(pc := NextPc(cfg, db, me)))
  {
  }

  lemma ActionKeepsSeenMember(cfg: Config, base: set<Id>, s: State, a: Action, l: LoginId)
    requires Inv(cfg, base, s) && s.At(l) && SeenMember(s.db, s.logins[l]) && Enabled(s, a)
    requires a.Remove? && a.user == s.logins[l].user ==> s.db.default != Some(a.org)
    ensures Apply(cfg, s, a).At(l) && SeenMember(Apply(cfg, s, a).db, Apply(cfg, s, a).logins[l])
    ensures Apply(cfg, s, a).logins[l].user == s.logins[l].user
  {
    LoginActsAlone(cfg, s, a, l);
    assert LoginInv(cfg, s.db, s.created, l, s.logins[l]);
    if a == Step(l) {
      OwnStepSeesMember(cfg, s.db, s.logins[l]);
    }
  }

  lemma {:induction false} RunKeepsSeenMember(cfg: Config, base: set<Id>, s: State, actions: seq<Action>, t: State,
                                              l: LoginId)
    requires Inv(cfg, base, s) && s.At(l) && SeenMember(s.db, s.logins[l])
    requires Runs(cfg, s, actions, t) && NotRemoved(actions, t.db.default, s.logins[l].user)
    ensures t.At(l) && t.logins[l].user == s.logins[l].user && SeenMember(t.db, t.logins[l])
    decreases |actions|
  {
    if actions != [] {
      var next := Apply(cfg, s, actions[0]);
      RunKeepsInv(cfg, base, s, actions, t);
      ActionKeepsInv(cfg, base, s, actions[0]);
      ActionKeepsSeenMember(cfg, base, s, actions[0], l);
      RunKeepsSeenMember(cfg, base, next, actions[1..], t, l);
    }
  }

  /**
   A login's step changes a current organisation only to the default, for its own user, and
   only for a member, unless they were removed from it since the login began.
   */
  lemma MovesOnlyMembers(cfg: Config, s: State, before: seq<Action>, t: State,
                         l: LoginId, user: Id, isNewUser: bool, hasEmail: bool,
                         during: seq<Action>, u: State, x: Id)
    requires Installed(s) && Runs(cfg, s, before, t) && Enabled(t, Begin(l, user, isNewUser, hasEmail))
    requires Runs(cfg, Apply(cfg, t, Begin(l, user, isNewUser, hasEmail)), during, u) && Enabled(u, Step(l))
    requires x in u.db.current && Apply(cfg, u, Step(l)).db.current[x] != u.db.current[x]
    ensures x == user && u.db.default.Some? && Apply(cfg, u, Step(l)).db.current[x] == u.db.default.value
    ensures NotRemoved(during, u.db.default, user) ==> (u.db.default.value, user) in u.db.members
  {
    var base, begin := s.db.TeamOrgs(), Begin(l, user, isNewUser, hasEmail);
    var begun := Apply(cfg, t, begin);
    InstalledHasInv(cfg, s);
    RunKeepsInv(cfg, base, s, before, t);
    ActionKeepsInv(cfg, base, t, begin);
    RunKeepsInv(cfg, base, begun, during, u);
    LoginKeepsUser(cfg, begun, during, u, l);
    assert u.Pc(l).Moving? && LoginInv(cfg, u.db, u.created, l, u.logins[l]);
    if NotRemoved(during, u.db.default, user) {
      RunKeepsSeenMember(cfg, base, begun, during, u, l);
    }
  }

  lemma {:induction false} LoginKeepsUser(cfg: Config, s: State, actions: seq<Action>, t: State, l: LoginId)
    requires s.At(l) && Runs(cfg, s, actions, t)
    ensures t.At(l) && t.logins[l] == s.logins[l].(pc := t.Pc(l))
    decreases |actions|
  {
    if actions != [] {
      LoginActsAlone(cfg, s, actions[0], l);
      LoginKeepsUser(cfg, Apply(cfg, s, actions[0]), actions[1..], t, l);
    }
  }

  /** Somebody removed between the look and the move is moved all the same. */
  lemma RemovedIsMovedAnyway(cfg: Config, s: State, actions: seq<Action>, t: State, l: LoginId, d: Id)
    returns (u: State)
    requires Installed(s) && Runs(cfg, s, actions, t) && t.At(l) && t.Pc(l).Moving? && t.db.default == Some(d)
    requires (d, t.logins[l].user) in t.db.members
    ensures Runs(cfg, t, [Remove(d, t.logins[l].user), Step(l)], u)
    ensures var user := t.logins[l].user;
            user in u.db.current && u.db.current[user] == d && (d, user) !in u.db.members
  {
    InstalledHasInv(cfg, s);
    RunKeepsInv(cfg, s.db.TeamOrgs(), s, actions, t);
    assert LoginInv(cfg, t.db, t.created, l, t.logins[l]);
    var removed := Apply(cfg, t, Remove(d, t.logins[l].user));
    u := Apply(cfg, removed, Step(l));
    RunOne(cfg, removed, Step(l), [], u);
    RunOne(cfg, t, Remove(d, t.logins[l].user), [Step(l)], u);
    assert [Remove(d, t.logins[l].user)] + [Step(l)] == [Remove(d, t.logins[l].user), Step(l)];
  }

  // ----- logins of members -----

  /** A login whose user is a member of the default `d` since before it began. */
  ghost predicate MemberInv(cfg: Config, db: Db, me: Login, d: Id) {
    && db.default == Some(d) && (d, me.user) in db.members
    && (|| me.pc.Looking? || me.pc.Got? || me.pc.Deciding? || me.pc.Rechecking? || me.pc.Moving?
        || me.pc.Finished? || me.pc.Raised?)
    && (me.pc.Org().Some? ==> me.pc.Org() == Some(d))
    && !me.pc.SaysCreated()
    && (me.pc.Deciding? ==> !me.pc.added)
    && (me.pc.Rechecking? ==> !me.isNewUser && cfg.hidePersonal && me.snapshot == me.user)
    && (me.pc.Moving? ==> me.isNewUser || (cfg.hidePersonal && me.snapshot == me.user))
  }

  lemma OwnStepKeepsMemberInv(cfg: Config, db: Db, me: Login, d: Id)
    requires MemberInv(cfg, db, me, d) && !me.pc.Finished? && !me.pc.Raised?
    ensures MemberInv(cfg, NextDb(db, me), me.(pc := NextPc(cfg, db, me)), d)
  {
  }

  lemma ActionKeepsMemberInv(cfg: Config, base: set<Id>, s: State, a: Action, l: LoginId, d: Id)
    requires Inv(cfg, base, s) && s.At(l) && MemberInv(cfg, s.db, s.logins[l], d)
    requires Enabled(s, a) && a != Remove(d, s.logins[l].user)
    ensures Apply(cfg, s, a).At(l) && MemberInv(cfg, Apply(cfg, s, a).db, Apply(cfg, s, a).logins[l], d)
  {
    ActionKeepsInv(cfg, base, s, a);
    LoginActsAlone(cfg, s, a, l);
    MemberStays(cfg, s, a, d, s.logins[l].user);
    if a == Step(l) {
      OwnStepKeepsMemberInv(cfg, s.db, s.logins[l], d);
    }
  }

  lemma {:induction false} RunKeepsMemberInv(cfg: Config, base: set<Id>, s: State, actions: seq<Action>, t: State,
                                             l: LoginId, d: Id)
    requires Inv(cfg, base, s) && s.At(l) && MemberInv(cfg, s.db, s.logins[l], d)
    requires Runs(cfg, s, actions, t) && Remove(d, s.logins[l].user) !in actions
    ensures t.At(l) && MemberInv(cfg, t.db, t.logins[l], d) && t.logins[l] == s.logins[l].(pc := t.Pc(l))
    decreases |actions|
  {
    if actions != [] {
      ActionKeepsInv(cfg, base, s, actions[0]);
      ActionKeepsMemberInv(cfg, base, s, actions[0], l, d);
      LoginActsAlone(cfg, s, actions[0], l);
      RunKeepsMemberInv(cfg, base, Apply(cfg, s, actions[0]), actions[1..], t, l, d);
    }
  }

  /**
   With personal workspaces visible, a later login of somebody who was already a member, and
   is not removed meanwhile, writes nothing at any of its steps, so their choice of workspace
   sticks.
   */
  lemma LaterLoginWritesNothing(cfg: Config, s: State, before: seq<Action>, t: State,
                                l: LoginId, user: Id, hasEmail: bool, d: Id, during: seq<Action>, u: State)
    requires Installed(s) && Runs(cfg, s, before, t) && !cfg.hidePersonal
    requires t.db.default == Some(d) && (d, user) in t.db.members && Enabled(t, Begin(l, user, false, hasEmail))
    requires Runs(cfg, Apply(cfg, t, Begin(l, user, false, hasEmail)), during, u) && Remove(d, user) !in during
    ensures forall a :: Enabled(u, a) && !NotBy(l, a) ==> Apply(cfg, u, a).db == u.db
  {
    var base, begin := s.db.TeamOrgs(), Begin(l, user, false, hasEmail);
    InstalledHasInv(cfg, s);
    RunKeepsInv(cfg, base, s, before, t);
    ActionKeepsInv(cfg, base, t, begin);
    RunKeepsMemberInv(cfg, base, Apply(cfg, t, begin), during, u, l, d);
    forall a | Enabled(u, a) && !NotBy(l, a) ensures Apply(cfg, u, a).db == u.db {
      MemberWritesNothing(cfg, u, a, l, d);
    }
  }

  lemma MemberWritesNothing(cfg: Config, s: State, a: Action, l: LoginId, d: Id)
    requires s.At(l) && MemberInv(cfg, s.db, s.logins[l], d) && !cfg.hidePersonal && !s.logins[l].isNewUser
    requires Enabled(s, a) && !NotBy(l, a)
    ensures Apply(cfg, s, a).db == s.db
  {
  }

  /** A user's current organisation stays, goes to the default, or goes where the user switches. */
  lemma CurrentGoesToDefault(cfg: Config, base: set<Id>, s: State, a: Action, user: Id)
    requires Inv(cfg, base, s) && Enabled(s, a) && user in s.db.current
    ensures var t := Apply(cfg, s, a);
            && user in t.db.current
            && (|| t.db.current[user] == s.db.current[user]
                || (s.db.default.Some? && t.db.current[user] == s.db.default.value)
                || a == Switch(user, t.db.current[user]))
  {
    if a.Step? {
      assert LoginInv(cfg, s.db, s.created, a.l, s.logins[a.l]);
    }
  }

  /** Nobody acts for login `l` but itself. */
  lemma LoginActsAlone(cfg: Config, s: State, a: Action, l: LoginId)
    requires s.At(l) && Enabled(s, a)
    ensures var t := Apply(cfg, s, a);
            && t.At(l) && t.logins[l] == s.logins[l].(pc := t.Pc(l))
            && (NotBy(l, a) ==> t.logins[l] == s.logins[l])
  {
  }

  /** An existing member's workspace while login `l` runs with personal workspaces hidden. */
  ghost predicate LeavingInv(db: Db, me: Login) {
    && me.user in db.current && db.default != Some(me.user)
    && (me.pc.Finished? || me.snapshot != me.user ==> db.current[me.user] != me.user)
  }

  lemma ActionKeepsLeavingInv(cfg: Config, base: set<Id>, s: State, a: Action, l: LoginId, d: Id)
    requires Inv(cfg, base, s) && s.At(l) && MemberInv(cfg, s.db, s.logins[l], d) && cfg.hidePersonal
    requires LeavingInv(s.db, s.logins[l])
    requires Enabled(s, a) && a != Switch(s.logins[l].user, s.logins[l].user)
    ensures Apply(cfg, s, a).At(l) && LeavingInv(Apply(cfg, s, a).db, Apply(cfg, s, a).logins[l])
  {
    ActionKeepsInv(cfg, base, s, a);
    CurrentGoesToDefault(cfg, base, s, a, s.logins[l].user);
    LoginActsAlone(cfg, s, a, l);
  }

  lemma {:induction false} RunKeepsLeavingInv(cfg: Config, base: set<Id>, s: State, actions: seq<Action>, t: State,
                                              l: LoginId, user: Id, d: Id)
    requires Inv(cfg, base, s) && s.At(l) && MemberInv(cfg, s.db, s.logins[l], d) && cfg.hidePersonal
    requires s.logins[l].user == user && LeavingInv(s.db, s.logins[l])
    requires Runs(cfg, s, actions, t) && Switch(user, user) !in actions && Remove(d, user) !in actions
    ensures t.At(l) && t.logins[l].user == user && LeavingInv(t.db, t.logins[l])
    decreases |actions|
  {
    if actions != [] {
      ActionKeepsInv(cfg, base, s, actions[0]);
      ActionKeepsMemberInv(cfg, base, s, actions[0], l, d);
      ActionKeepsLeavingInv(cfg, base, s, actions[0], l, d);
      LoginActsAlone(cfg, s, actions[0], l);
      RunKeepsLeavingInv(cfg, base, Apply(cfg, s, actions[0]), actions[1..], t, l, user, d);
    }
  }

  /**
   With personal workspaces hidden, a login of somebody who was already a member never leaves
   them in their personal workspace, unless that is itself the default, whatever everybody,
   they included, does meanwhile short of removing them or switching back.
   */
  lemma HiddenWorkspaceIsLeft(cfg: Config, s: State, before: seq<Action>, t: State,
                              l: LoginId, user: Id, isNewUser: bool, d: Id, during: seq<Action>, u: State)
    requires Installed(s) && Runs(cfg, s, before, t) && cfg.hidePersonal && cfg.enabled
    requires t.db.default == Some(d) && (d, user) in t.db.members
    requires Enabled(t, Begin(l, user, isNewUser, true))
    requires Runs(cfg, Apply(cfg, t, Begin(l, user, isNewUser, true)), during, u)
    requires Switch(user, user) !in during && Remove(d, user) !in during
    requires u.At(l) && u.Pc(l).Finished?
    ensures user in u.db.current && (u.db.current[user] != user || d == user)
  {
    var base, begin := s.db.TeamOrgs(), Begin(l, user, isNewUser, true);
    InstalledHasInv(cfg, s);
    RunKeepsInv(cfg, base, s, before, t);
    ActionKeepsInv(cfg, base, t, begin);
    RunKeepsInv(cfg, base, Apply(cfg, t, begin), during, u);
    if d != user {
      RunKeepsLeavingInv(cfg, base, Apply(cfg, t, begin), during, u, l, user, d);
    }
  }

  // ----- new members and new users land in the default organisation -----

  /** The user of this login has just become a member of `d`, and the login will move them there. */
  predicate OnTheWay(me: Login, d: Id) {
    match me.pc
    case Flagging(o) => o == d
    case Got(o, created) => o == d && created
    case Deciding(o, created, added) => o == d && (created || added)
    case Moving(o, _) => o == d
    case _ => false
  }

  ghost predicate Escorted(s: State, user: Id, d: Id) {
    exists l :: s.At(l) && s.logins[l].user == user && OnTheWay(s.logins[l], d)
  }

  /** The user is in `d` if a member of it, or a login is about to move them there. */
  ghost predicate JoinInv(s: State, user: Id, d: Id) {
    && user in s.db.current
    && ((d, user) in s.db.members ==> s.db.current[user] == d || Escorted(s, user, d))
  }

  /**
   The action does not make the user a member of `d` from outside, does not stop a login that
   was about to move them there, and is not the user switching elsewhere.
   */
  predicate Undropped(s: State, a: Action, user: Id, d: Id) {
    && a != Invite(d, user)
    && (a.Fail? && s.At(a.l) && s.logins[a.l].user == user ==> !OnTheWay(s.logins[a.l], d))
    && (a.Switch? && a.user == user ==> a.org == d)
  }

  ghost predicate AllUndropped(cfg: Config, s: State, actions: seq<Action>, user: Id, d: Id)
    decreases |actions|
  {
    actions != [] ==>
      && Enabled(s, actions[0]) && Undropped(s, actions[0], user, d)
      && AllUndropped(cfg, Apply(cfg, s, actions[0]), actions[1..], user, d)
  }

  predicate DefaultFits(db: Db, d: Id) { db.default.Some? ==> db.default == Some(d) }

  /** The login that makes a member of `d` is on its way there. */
  lemma NewMemberIsEscorted(cfg: Config, s: State, a: Action, user: Id, d: Id)
    requires Enabled(s, a) && user in s.db.current && a != Invite(d, user)
    requires (d, user) !in s.db.members && (d, user) in Apply(cfg, s, a).db.members
    ensures Escorted(Apply(cfg, s, a), user, d)
  {
    var t := Apply(cfg, s, a);
    assert a.Persist? || a.Join?;
    assert t.At(a.l) && t.logins[a.l].user == user && OnTheWay(t.logins[a.l], d);
  }

  /** Once on its way, a login that does not fail goes on until it has moved its user. */
  lemma EscortGoesOn(cfg: Config, base: set<Id>, s: State, a: Action, l: LoginId, d: Id)
    requires Inv(cfg, base, s) && Enabled(s, a) && a != Fail(l) && DefaultFits(s.db, d)
    requires s.At(l) && OnTheWay(s.logins[l], d) && (d, s.logins[l].user) in s.db.members
    ensures var t := Apply(cfg, s, a);
            && t.At(l) && t.logins[l].user == s.logins[l].user
            && (OnTheWay(t.logins[l], d) || (s.logins[l].user in t.db.current && t.db.current[s.logins[l].user] == d))
  {
    assert LoginInv(cfg, s.db, s.created, l, s.logins[l]);
    LoginActsAlone(cfg, s, a, l);
  }

  lemma ActionKeepsJoinInv(cfg: Config, base: set<Id>, s: State, a: Action, user: Id, d: Id)
    requires Inv(cfg, base, s) && JoinInv(s, user, d) && DefaultFits(s.db, d)
    requires Enabled(s, a) && Undropped(s, a, user, d)
    ensures JoinInv(Apply(cfg, s, a), user, d)
  {
    var t := Apply(cfg, s, a);
    CurrentGoesToDefault(cfg, base, s, a, user);
    if (d, user) in t.db.members && t.db.current[user] != d {
      if (d, user) !in s.db.members {
        NewMemberIsEscorted(cfg, s, a, user, d);
      } else {
        var l :| s.At(l) && s.logins[l].user == user && OnTheWay(s.logins[l], d);
        EscortGoesOn(cfg, base, s, a, l, d);
      }
    }
  }

  lemma {:induction false} RunKeepsJoinInv(cfg: Config, base: set<Id>, s: State, actions: seq<Action>, t: State,
                                           user: Id, d: Id)
    requires Inv(cfg, base, s) && JoinInv(s, user, d) && t.db.default == Some(d)
    requires Runs(cfg, s, actions, t) && AllUndropped(cfg, s, actions, user, d)
    ensures JoinInv(t, user, d)
    decreases |actions|
  {
    if actions != [] {
      RunKeepsInv(cfg, base, s, actions, t);
      ActionKeepsInv(cfg, base, s, actions[0]);
      ActionKeepsJoinInv(cfg, base, s, actions[0], user, d);
      RunKeepsJoinInv(cfg, base, Apply(cfg, s, actions[0]), actions[1..], t, user, d);
    }
  }

  /** None of the user's logins is running. */
  ghost predicate Quiet(s: State, user: Id) {
    forall l :: s.At(l) && s.logins[l].user == user ==> s.Pc(l).Finished? || s.Pc(l).Raised?
  }

  /**
   Whoever becomes a member of the organisation that is the default in the end, by creating it
   or by being added at login, is in it once none of their logins is running, whatever
   everybody does meanwhile, unless they become a member from outside, a login fails between
   making them a member and moving them, or they switch elsewhere.
   */
  lemma FirstJoinLandsInDefault(cfg: Config, s: State, before: seq<Action>, t: State,
                                user: Id, d: Id, during: seq<Action>, u: State)
    requires Installed(s) && Runs(cfg, s, before, t) && Runs(cfg, t, during, u)
    requires user in t.db.current && (d, user) !in t.db.members
    requires u.db.default == Some(d) && (d, user) in u.db.members
    requires AllUndropped(cfg, t, during, user, d) && Quiet(u, user)
    ensures user in u.db.current && u.db.current[user] == d
  {
    var base := s.db.TeamOrgs();
    InstalledHasInv(cfg, s);
    RunKeepsInv(cfg, base, s, before, t);
    RunKeepsJoinInv(cfg, base, t, during, u, user, d);
  }

  /** However an undropped run goes on, the user is in `d`, if a member, whenever none of their logins runs. */
  ghost predicate LandsInDefault(cfg: Config, s: State, user: Id, d: Id) {
    forall more, u :: Runs(cfg, s, more, u) && AllUndropped(cfg, s, more, user, d)
                      && Quiet(u, user) && (d, user) in u.db.members ==>
      user in u.db.current && u.db.current[user] == d
  }

  /** Logins that are not about to move their user can all fail. */
  lemma {:induction false} FailAll(cfg: Config, s: State, user: Id, d: Id, running: set<LoginId>)
    returns (more: seq<Action>, u: State)
    requires !Escorted(s, user, d)
    requires forall l :: l in running <==>
               s.At(l) && s.logins[l].user == user && !s.Pc(l).Finished? && !s.Pc(l).Raised?
    ensures Runs(cfg, s, more, u) && AllUndropped(cfg, s, more, user, d) && Quiet(u, user) && u.db == s.db
    decreases |running|
  {
    if running == {} {
      more, u := [], s;
    } else {
      var l :| l in running;
      var next := Apply(cfg, s, Fail(l));
      more, u := FailAll(cfg, next, user, d, running - {l});
      RunOne(cfg, s, Fail(l), more, u);
      assert ([Fail(l)] + more)[1..] == more;
      more := [Fail(l)] + more;
    }
  }

  /**
   From any reachable state with a default: the user lands in it, however an undropped run goes
   on, exactly when they are not a member, are in it, or some login is about to move them.
   */
  lemma LandsInDefaultExactlyWhen(cfg: Config, s: State, actions: seq<Action>, t: State, user: Id, d: Id)
    requires Installed(s) && Runs(cfg, s, actions, t) && t.db.default == Some(d) && user in t.db.current
    ensures LandsInDefault(cfg, t, user, d) <==> JoinInv(t, user, d)
  {
    var base := s.db.TeamOrgs();
    InstalledHasInv(cfg, s);
    RunKeepsInv(cfg, base, s, actions, t);
    if JoinInv(t, user, d) {
      forall more, u | Runs(cfg, t, more, u) && AllUndropped(cfg, t, more, user, d)
                       && Quiet(u, user) && (d, user) in u.db.members
        ensures user in u.db.current && u.db.current[user] == d
      {
        RunKeepsInv(cfg, base, t, more, u);
        RunKeepsJoinInv(cfg, base, t, more, u, user, d);
      }
    } else {
      var running := set l | l in t.logins && t.logins[l].user == user && !t.Pc(l).Finished? && !t.Pc(l).Raised?;
      var more, u := FailAll(cfg, t, user, d, running);
      assert !LandsInDefault(cfg, t, user, d);
    }
  }

  /** With workspaces visible, a later login of a member changes nothing. */
  lemma LaterLogin(cfg: Config, s: State, l: LoginId, user: Id, d: Id) returns (more: seq<Action>, u: State)
    requires cfg.enabled && !cfg.hidePersonal && !s.At(l) && user in s.db.current
    requires s.db.default == Some(d) && (d, user) in s.db.members
    ensures Runs(cfg, s, more, u)
    ensures u == s.(logins := s.logins[l := Login(user, false, s.db.current[user], Finished(Some(d), false))])
  {
    var begin, me := Begin(l, user, false, true), Login(user, false, s.db.current[user], Looking);
    var s1 := Apply(cfg, s, begin);
    assert s1 == s.(logins := s.logins[l := me]);
    var s2 := Apply(cfg, s1, Step(l));
    assert s2 == s.(logins := s.logins[l := me.(pc := Got(d, false))]);
    var s3 := Apply(cfg, s2, Step(l));
    assert s3 == s.(logins := s.logins[l := me.(pc := Deciding(d, false, false))]);
    u := Apply(cfg, s3, Step(l));
    assert u == s.(logins := s.logins[l := me.(pc := Finished(Some(d), false))]);
    more := RunFour(cfg, s, begin, Step(l), Step(l), Step(l), s1, s2, s3, u);
  }

  lemma RunFour(cfg: Config, s: State, a: Action, b: Action, c: Action, e: Action,
                s1: State, s2: State, s3: State, t: State)
    returns (actions: seq<Action>)
    requires Enabled(s, a) && s1 == Apply(cfg, s, a) && Enabled(s1, b) && s2 == Apply(cfg, s1, b)
    requires Enabled(s2, c) && s3 == Apply(cfg, s2, c) && Enabled(s3, e) && t == Apply(cfg, s3, e)
    ensures Runs(cfg, s, actions, t)
  {
    RunOne(cfg, s3, e, [], t);
    RunOne(cfg, s2, c, [e], t);
    RunOne(cfg, s1, b, [c] + [e], t);
    actions := [a] + ([b] + ([c] + [e]));
    RunOne(cfg, s, a, [b] + ([c] + [e]), t);
  }

  /** Somebody added to the default from outside stays where they are, later logins included. */
  lemma InvitedStaysPut(cfg: Config, s: State, actions: seq<Action>, t: State, l: LoginId, user: Id, d: Id)
    returns (more: seq<Action>, u: State)
    requires Installed(s) && Runs(cfg, s, actions, t) && cfg.enabled && !cfg.hidePersonal && !t.At(l)
    requires t.db.default == Some(d) && user in t.db.current && t.db.current[user] != d
    requires (d, user) !in t.db.members && Quiet(t, user)
    ensures Runs(cfg, t, [Invite(d, user)] + more, u) && Quiet(u, user)
    ensures u.At(l) && u.Pc(l) == Finished(Some(d), false)
    ensures (d, user) in u.db.members && user in u.db.current && u.db.current[user] != d
  {
    InstalledHasInv(cfg, s);
    RunKeepsInv(cfg, s.db.TeamOrgs(), s, actions, t);
    var invited := Apply(cfg, t, Invite(d, user));
    more, u := LaterLogin(cfg, invited, l, user, d);
    RunOne(cfg, t, Invite(d, user), more, u);
  }

  /** So does somebody whose login fails between making them a member and moving them. */
  lemma FailedMoveStaysPut(cfg: Config, s: State, actions: seq<Action>, t: State, m: LoginId, l: LoginId, d: Id)
    returns (more: seq<Action>, u: State)
    requires Installed(s) && Runs(cfg, s, actions, t) && cfg.enabled && !cfg.hidePersonal && !t.At(l)
    requires t.At(m) && OnTheWay(t.logins[m], d) && t.db.default == Some(d)
    requires var user := t.logins[m].user;
             && (d, user) in t.db.members && user in t.db.current && t.db.current[user] != d
             && forall k :: t.At(k) && k != m && t.logins[k].user == user ==> t.Pc(k).Finished? || t.Pc(k).Raised?
    ensures Runs(cfg, t, [Fail(m)] + more, u) && Quiet(u, t.logins[m].user)
    ensures u.At(l) && u.Pc(l) == Finished(Some(d), false)
    ensures var user := t.logins[m].user;
            (d, user) in u.db.members && user in u.db.current && u.db.current[user] != d
  {
    var failed := Apply(cfg, t, Fail(m));
    more, u := LaterLogin(cfg, failed, l, t.logins[m].user, d);
    RunOne(cfg, t, Fail(m), more, u);
  }

  /** A new user who is a member already, while their login runs. */
  ghost predicate LandingInv(db: Db, me: Login, d: Id) {
    && me.isNewUser && me.user in db.current
    && (me.pc.Finished? ==> db.current[me.user] == d)
  }

  lemma {:induction false} RunKeepsLandingInv(cfg: Config, base: set<Id>, s: State, actions: seq<Action>, t: State,
                                              l: LoginId, user: Id, d: Id)
    requires Inv(cfg, base, s) && s.At(l) && MemberInv(cfg, s.db, s.logins[l], d)
    requires s.logins[l].user == user && LandingInv(s.db, s.logins[l], d)
    requires Runs(cfg, s, actions, t) && Remove(d, user) !in actions
    requires forall a :: a in actions && a.Switch? && a.user == user ==> a.org == d
    ensures t.At(l) && t.logins[l].user == user && LandingInv(t.db, t.logins[l], d)
    decreases |actions|
  {
    if actions != [] {
      ActionKeepsInv(cfg, base, s, actions[0]);
      ActionKeepsMemberInv(cfg, base, s, actions[0], l, d);
      CurrentGoesToDefault(cfg, base, s, actions[0], user);
      LoginActsAlone(cfg, s, actions[0], l);
      RunKeepsLandingInv(cfg, base, Apply(cfg, s, actions[0]), actions[1..], t, l, user, d);
    }
  }

  /** A new user's login leaves them in the default organisation if they were a member before it. */
  lemma NewUserLandsInDefault(cfg: Config, s: State, before: seq<Action>, t: State,
                              l: LoginId, user: Id, d: Id, during: seq<Action>, u: State)
    requires Installed(s) && Runs(cfg, s, before, t) && cfg.enabled
    requires t.db.default == Some(d) && (d, user) in t.db.members
    requires Enabled(t, Begin(l, user, true, true))
    requires Runs(cfg, Apply(cfg, t, Begin(l, user, true, true)), during, u) && Remove(d, user) !in during
    requires forall a :: a in during && a.Switch? && a.user == user ==> a.org == d
    requires u.At(l) && u.Pc(l).Finished?
    ensures user in u.db.current && u.db.current[user] == d
  {
    var base, begin := s.db.TeamOrgs(), Begin(l, user, true, true);
    InstalledHasInv(cfg, s);
    RunKeepsInv(cfg, base, s, before, t);
    ActionKeepsInv(cfg, base, t, begin);
    RunKeepsLandingInv(cfg, base, Apply(cfg, t, begin), during, u, l, user, d);
  }

  // ----- the service's own methods, interrupted at every await -----

  predicate Keeps(db: Db, db': Db) {
    && (db.default.Some? ==> db'.default == db.default)
    && (forall u :: u in db.current ==> u in db'.current)
  }

  /** The action is not a step of login `l`. */
  predicate NotBy(l: LoginId, a: Action) {
    (a.Begin? || a.Step? || a.Persist? || a.Join? || a.Fail?) ==> a.l != l
  }

  /** Whatever everybody else does between two steps of a login meets the contract of `Await`. */
  lemma {:induction false} OthersMeetAwait(cfg: Config, base: set<Id>, s: State, actions: seq<Action>, t: State,
                                           l: LoginId)
    requires Inv(cfg, base, s) && s.At(l)
    requires Runs(cfg, s, actions, t) && forall a :: a in actions ==> NotBy(l, a)
    ensures Inv(cfg, base, t) && Keeps(s.db, t.db) && t.At(l) && t.logins[l] == s.logins[l]
    ensures Guarded(cfg, s) && KeepsName(cfg, s, actions) ==> Guarded(cfg, t)
    decreases |actions|
  {
    if actions != [] {
      var next := Apply(cfg, s, actions[0]);
      assert NotBy(l, actions[0]);
      ActionKeepsInv(cfg, base, s, actions[0]);
      LoginActsAlone(cfg, s, actions[0], l);
      if Guarded(cfg, s) && KeepsName(cfg, s, actions) {
        ActionKeepsGuarded(cfg, base, s, actions[0]);
      }
      OthersMeetAwait(cfg, base, next, actions[1..], t, l);
    }
  }

  class DefaultOrgBootstrap {
    const cfg: Config
    const faults: nat -> bool          // whether the n-th database operation raises
    ghost const base: set<Id>
    /** Whether personal workspaces are kept from taking the configured name. */
    ghost const guarded: bool
    var operations: nat
    var db: Db
    ghost var st: State

    ghost predicate Sound(s: State) {
      Inv(cfg, base, s) && (guarded ==> Guarded(cfg, s))
    }

    ghost predicate Valid()
      reads this
    {
      db == st.db && Sound(st)
    }

    constructor (cfg: Config, faults: nat -> bool, db: Db, ghost guarded: bool)
      requires Installed(State(db, map[], []))
      requires guarded ==> Guarded(cfg, State(db, map[], []))
      ensures Valid() && this.cfg == cfg && this.faults == faults && this.guarded == guarded
      ensures this.db == db && st.logins == map[]
    {
      this.cfg, this.faults := cfg, faults;
      this.base := db.TeamOrgs();
      this.guarded := guarded;
      this.operations := 0;
      this.db := db;
      this.st := State(db, map[], []);
    }

    /** Everybody else's actions: any that keep the invariant and leave this login alone. */
    method Await(ghost l: LoginId)
      requires Valid() && st.At(l)
      modifies `db, `st
      ensures Valid() && Keeps(old(db), db) && st.At(l) && st.logins[l] == old(st).logins[l]
    {
    }

    ghost method DoStep(l: LoginId)
      requires Sound(st) && Enabled(st, Step(l))
      modifies `st
      ensures Sound(st) && Keeps(old(st).db, st.db)
      ensures st.db == NextDb(old(st).db, old(st).logins[l]) && st.created == old(st).created && st.At(l)
      ensures st.logins[l] == old(st).logins[l].(pc := NextPc(cfg, old(st).db, old(st).logins[l]))
    {
      Do(Step(l));
    }

    ghost method Do(a: Action)
      requires Sound(st) && Enabled(st, a) && !a.Rename?
      modifies `st
      ensures st == Apply(cfg, old(st), a) && Sound(st) && Keeps(old(st).db, st.db)
    {
      ActionKeepsInv(cfg, base, st, a);
      if guarded {
        ActionKeepsGuarded(cfg, base, st, a);
      }
      st := Apply(cfg, st, a);
    }

    /** Begins a database operation: others act first, and the operation may raise. */
    method Try(ghost l: LoginId) returns (failed: bool)
      requires Valid() && Enabled(st, Fail(l))
      modifies `db, `st, `operations
      ensures Valid() && Keeps(old(db), db) && st.At(l)
      ensures st.logins[l] == if failed then old(st).logins[l].(pc := Raised) else old(st).logins[l]
    {
      Await(l);
      failed := faults(operations);
      operations := operations + 1;
      if failed {
        Do(Fail(l));
      }
    }

    /** Only the login's program counter changed, and the database only grew. */
    twostate predicate Advanced(l: LoginId)
      reads this
    {
      && Valid() && Keeps(old(db), db)
      && old(st).At(l) && st.At(l) && st.logins[l] == old(st).logins[l].(pc := st.Pc(l))
    }

    method GetDefaultOrg(ghost l: LoginId) returns (org: Option<Id>, failed: bool)
      requires Valid() && st.At(l) && (st.Pc(l).Looking? || st.Pc(l).Clashed? || st.Pc(l).Deferring?)
      modifies `db, `st, `operations
      ensures Advanced(l) && (failed ==> org == None && st.Pc(l) == Raised)
      ensures !failed ==> org == db.default && (old(db.default).Some? ==> org == old(db.default))
      ensures org.Some? ==> st.Pc(l) == Got(org.value, false) && (guarded ==> db.IsTeam(org.value))
      ensures !failed && org.None? ==>
                && !old(st).Pc(l).Deferring?
                && st.Pc(l) == if old(st).Pc(l).Looking? then Listing else ByName
    {
      org := None;
      failed := Try(l);
      if failed {
        return;
      }
      assert LoginInv(cfg, st.db, st.created, l, st.logins[l]);
      org := db.default;
      DoStep(l);
    }

    method ListTeamOrgs(ghost l: LoginId) returns (teams: set<Id>, failed: bool)
      requires Valid() && st.At(l) && st.Pc(l).Listing?
      modifies `db, `st, `operations
      ensures Advanced(l)
      ensures if failed then st.Pc(l) == Raised
              else if teams == {} then st.Pc(l) == Naming
              else if |teams| == 1 then st.Pc(l).Adopting? && teams == {st.Pc(l).org}
              else st.Pc(l) == Finished(None, false)
    {
      teams := {};
      failed := Try(l);
      if failed {
        return;
      }
      teams := db.TeamOrgs();
      DoStep(l);
      if |teams| == 1 {
        assert |teams - {st.Pc(l).org}| == 0;
        assert teams == {st.Pc(l).org};
      }
    }

    method MarkOrgAsDefault(ghost l: LoginId, o: Id) returns (marked: bool, failed: bool)
      requires Valid() && st.At(l) && (st.Pc(l).Adopting? || st.Pc(l).Flagging? || st.Pc(l).FlaggingNamed?)
      requires st.Pc(l).org == o
      modifies `db, `st, `operations
      ensures Advanced(l) && (failed ==> !marked && st.Pc(l) == Raised)
      ensures marked ==> st.Pc(l) == Got(o, old(st).Pc(l).Flagging?) && db.default == Some(o)
      ensures marked && guarded ==> db.IsTeam(o)
      ensures marked && old(st).Pc(l).Flagging? ==> Creation(o, l) in st.created
      ensures !failed && !marked ==>
                st.Pc(l) == if old(st).Pc(l).FlaggingNamed? then Finished(None, false) else Deferring
    {
      marked := false;
      failed := Try(l);
      if !failed {
        marked := SetFlag(l, o);
      }
    }

    method SetFlag(ghost l: LoginId, o: Id) returns (marked: bool)
      requires Valid() && st.At(l) && (st.Pc(l).Adopting? || st.Pc(l).Flagging? || st.Pc(l).FlaggingNamed?)
      requires st.Pc(l).org == o
      modifies `db, `st
      ensures Advanced(l)
      ensures marked ==> st.Pc(l) == Got(o, old(st).Pc(l).Flagging?) && db.default == Some(o)
      ensures marked && guarded ==> db.IsTeam(o)
      ensures marked && old(st).Pc(l).Flagging? ==> Creation(o, l) in st.created
      ensures !marked ==> st.Pc(l) == if old(st).Pc(l).FlaggingNamed? then Finished(None, false) else Deferring
    {
      assert LoginInv(cfg, st.db, st.created, l, st.logins[l]);
      marked := db.CanMark(o);
      if marked {
        db := db.Mark(o);
      }
      DoStep(l);
    }

    method NameExists(ghost l: LoginId) returns (taken: bool, failed: bool)
      requires Valid() && st.At(l) && st.Pc(l).Naming?
      modifies `db, `st, `operations
      ensures Advanced(l) && st.Pc(l) == if failed then Raised else if taken then Clashed else Persisting
    {
      taken := false;
      failed := Try(l);
      if failed {
        return;
      }
      taken := db.NameTaken(cfg.orgName);
      DoStep(l);
    }

    method PersistOrgWithOwner(ghost l: LoginId, user: Id, newId: Id) returns (failed: bool)
      requires Valid() && st.At(l) && st.Pc(l).Persisting? && st.logins[l].user == user
      modifies `db, `st, `operations
      ensures Advanced(l) && st.Pc(l) == if failed then Raised else Flagging(newId)
      ensures !failed ==> (newId, user) in db.members
    {
      failed := Try(l);
      if failed {
        return;
      }
      failed := !CanInsert(cfg, db, newId);
      if !failed {
        db := db.(orgs := db.orgs[newId := cfg.orgName], members := db.members + {(newId, user)});
      }
      Do(Persist(l, newId));
    }

    /** The org with the configured name, unless it is missing or named like a personal workspace. */
    method GetNamedOrg(ghost l: LoginId) returns (org: Option<Id>, failed: bool)
      requires Valid() && st.At(l) && st.Pc(l).ByName?
      modifies `db, `st, `operations
      ensures Advanced(l) && (failed ==> org == None)
      ensures st.Pc(l) == if failed then Raised else if org.Some? then FlaggingNamed(org.value)
                          else Finished(None, false)
    {
      org := None;
      failed := Try(l);
      if failed {
        return;
      }
      if db.NameTaken(cfg.orgName) {
        var o :| o in db.orgs && db.orgs[o] == cfg.orgName;
        if !IsPersonalWorkspace(db, o) {
          org := Some(o);
        }
      }
      DoStep(l);
    }

    /** What looking for, adopting or creating the organisation comes to. */
    twostate predicate Settled(l: LoginId, new org: Option<Id>, created: bool, failed: bool)
      reads this
    {
      && Advanced(l)
      && (failed ==> org == None && !created)
      && st.Pc(l) == (if failed then Raised else if org.Some? then Got(org.value, created) else Finished(None, false))
      && (org.Some? ==> db.default == org && (guarded ==> db.IsTeam(org.value)))
      && (created ==> org.Some? && Creation(org.value, l) in st.created)
    }

    /** The organisation, when there is one, carries the flag on return; `created` names its one creator. */
    method GetOrCreateOrg(ghost l: LoginId, user: Id, newId: Id) returns (org: Option<Id>, created: bool, failed: bool)
      requires Valid() && st.At(l) && st.Pc(l) == Looking && st.logins[l].user == user
      modifies `db, `st, `operations
      ensures Settled(l, org, created, failed)
      ensures old(db.default).Some? && !failed ==> org == old(db.default) && !created
    {
      created := false;
      org, failed := GetDefaultOrg(l);
      if failed || org.Some? {
        return;
      }
      var teams;
      teams, failed := ListTeamOrgs(l);
      if failed {
        return;
      }
      if |teams| == 1 {
        var o :| o in teams;
        org, failed := AdoptOrg(l, o);
      } else if |teams| == 0 {
        org, created, failed := CreateOrg(l, user, newId);
      }
    }

    /** Flags the sole team org, or defers to the one a concurrent login flagged first. */
    method AdoptOrg(ghost l: LoginId, o: Id) returns (org: Option<Id>, failed: bool)
      requires Valid() && st.At(l) && st.Pc(l) == Adopting(o)
      modifies `db, `st, `operations
      ensures Settled(l, org, false, failed) && (!failed ==> org.Some?)
    {
      var adopted;
      adopted, failed := MarkOrgAsDefault(l, o);
      if failed {
        org := None;
      } else if adopted {
        org := Some(o);
      } else {
        org, failed := GetDefaultOrg(l);
      }
    }

    method CreateOrg(ghost l: LoginId, user: Id, newId: Id) returns (org: Option<Id>, created: bool, failed: bool)
      requires Valid() && st.At(l) && st.Pc(l) == Naming && st.logins[l].user == user
      modifies `db, `st, `operations
      ensures Settled(l, org, created, failed)
    {
      org, created := None, false;
      var taken;
      taken, failed := NameExists(l);
      if failed {
        return;
      }
      if taken {
        org, failed := RecoverFromClash(l);
        return;
      }
      failed := PersistOrgWithOwner(l, user, newId);
      if failed {
        return;
      }
      created, failed := MarkOrgAsDefault(l, newId);
      if created {
        org := Some(newId);
      } else if !failed {
        org, failed := GetDefaultOrg(l);
      }
    }

    /** The name exists: take the flagged org, or flag the one that has the name. */
    method RecoverFromClash(ghost l: LoginId) returns (org: Option<Id>, failed: bool)
      requires Valid() && st.At(l) && st.Pc(l) == Clashed
      modifies `db, `st, `operations
      ensures Settled(l, org, false, failed)
    {
      org, failed := GetDefaultOrg(l);
      if failed || org.Some? {
        return;
      }
      var named;
      named, failed := GetNamedOrg(l);
      if !failed && named.Some? {
        var marked;
        marked, failed := MarkOrgAsDefault(l, named.value);
        if marked {
          org := named;
        }
      }
    }

    method GetOrgMember(ghost l: LoginId, user: Id, org: Id) returns (member: bool, failed: bool)
      requires Valid() && st.At(l) && st.Pc(l).Got? && st.Pc(l).org == org && st.logins[l].user == user
      modifies `db, `st, `operations
      ensures Advanced(l) && (!failed ==> (member <==> (org, user) in db.members))
      ensures st.Pc(l) == if failed then Raised
                          else if member || !cfg.autoAddUsers then Deciding(org, old(st).Pc(l).created, false)
                          else Joining(org, old(st).Pc(l).created)
    {
      member := false;
      failed := Try(l);
      if failed {
        return;
      }
      member := (org, user) in db.members;
      DoStep(l);
    }

    method AddUserToOrg(ghost l: LoginId, user: Id, org: Id, how: JoinResult) returns (added: bool, failed: bool)
      requires Valid() && st.At(l) && st.Pc(l).Joining? && st.Pc(l).org == org && st.logins[l].user == user
      modifies `db, `st, `operations
      ensures Advanced(l)
      ensures st.Pc(l) == if failed then Raised else Deciding(org, old(st).Pc(l).created, added)
      ensures added ==> how == Added && !failed && (org, user) in db.members
      ensures !failed && how == Added ==> added
    {
      added := false;
      failed := Try(l);
      if failed {
        return;
      }
      added := how == Added && (org, user) !in db.members;
      failed := !added && how != RoleMissing;
      if added {
        db := db.(members := db.members + {(org, user)});
      }
      Do(Join(l, how));
    }

    /** Existing members are left alone; others join when users are added automatically. */
    method EnsureMembership(ghost l: LoginId, user: Id, org: Id, how: JoinResult) returns (added: bool, failed: bool)
      requires Valid() && st.At(l) && st.Pc(l).Got? && st.Pc(l).org == org && st.logins[l].user == user
      modifies `db, `st, `operations
      ensures Advanced(l)
      ensures st.Pc(l) == if failed then Raised else Deciding(org, old(st).Pc(l).created, added)
      ensures !cfg.autoAddUsers ==> !added
      ensures added || (!failed && cfg.autoAddUsers && how == Added) ==> (org, user) in db.members
    {
      added := false;
      var member;
      member, failed := GetOrgMember(l, user, org);
      if !failed && !member && cfg.autoAddUsers {
        added, failed := AddUserToOrg(l, user, org, how);
      }
    }

    /** One whole login: it ends with the flagged organisation, with none, or with an exception, wherever it raises. */
    method ApplyForUser(ghost l: LoginId, user: Id, isNewUser: bool, hasEmail: bool, newId: Id, how: JoinResult)
      returns (org: Option<Id>, failed: bool)
      requires Valid() && !st.At(l) && user in db.current
      modifies `db, `st, `operations
      ensures Valid() && Keeps(old(db), db) && st.At(l) && st.logins[l].user == user
      ensures if failed then st.Pc(l) == Raised else st.Pc(l).Finished? && st.Pc(l).result == org
      ensures !cfg.enabled || !hasEmail ==> org.None? && !failed && db == old(db)
      ensures !failed && org.Some? ==> db.default == org && (guarded ==> db.IsTeam(org.value))
      ensures !failed && cfg.enabled && hasEmail && old(db.default).Some? ==> org == old(db.default)
    {
      var snapshot := db.current[user];
      Do(Begin(l, user, isNewUser, hasEmail));
      org, failed := None, false;
      if !cfg.enabled || !hasEmail {
        return;
      }
      var created;
      org, created, failed := GetOrCreateOrg(l, user, newId);
      if org.None? {
        return;
      }
      var added;
      added, failed := EnsureMembership(l, user, org.value, how);
      if failed {
        return;
      }
      failed := SetCurrentOrg(l, user, isNewUser, snapshot, org.value, created, added);
    }

    /** Moves the user on their first join, and out of a hidden personal workspace. */
    method SetCurrentOrg(ghost l: LoginId, user: Id, isNewUser: bool, snapshot: Id, org: Id, created: bool, added: bool)
      returns (failed: bool)
      requires Valid() && st.At(l)
      requires st.logins[l] == Login(user, isNewUser, snapshot, Deciding(org, created, added))
      modifies `db, `st, `operations
      ensures Advanced(l) && st.Pc(l) == if failed then Raised else Finished(Some(org), created)
    {
      var move;
      move, failed := ShouldSetCurrentOrg(l, user, isNewUser, snapshot, org, created, added);
      if !failed && move {
        failed := UpdateCurrentOrg(l, user, org);
      }
    }

    method ShouldSetCurrentOrg(ghost l: LoginId, user: Id, isNewUser: bool, snapshot: Id,
                               org: Id, created: bool, added: bool)
      returns (move: bool, failed: bool)
      requires Valid() && st.At(l)
      requires st.logins[l] == Login(user, isNewUser, snapshot, Deciding(org, created, added))
      modifies `db, `st, `operations
      ensures Advanced(l)
      ensures st.Pc(l) == if failed then Raised else if move then Moving(org, created) else Finished(Some(org), created)
    {
      move, failed := added, false;
      if !added && (isNewUser || created) {
        failed := Try(l);
        if failed {
          return;
        }
        move := (org, user) in db.members;
      }
      DoStep(l);
      if !move && cfg.hidePersonal && snapshot == user {
        move, failed := IsParkedMember(l, user, org);
      }
    }

    /** The second look at the membership, for somebody parked in a hidden workspace. */
    method IsParkedMember(ghost l: LoginId, user: Id, org: Id) returns (move: bool, failed: bool)
      requires Valid() && st.At(l) && st.Pc(l).Rechecking? && st.Pc(l).org == org && st.logins[l].user == user
      modifies `db, `st, `operations
      ensures Advanced(l)
      ensures st.Pc(l) == if failed then Raised else if move then Moving(org, old(st).Pc(l).created)
                          else Finished(Some(org), old(st).Pc(l).created)
    {
      move := false;
      failed := Try(l);
      if failed {
        return;
      }
      move := (org, user) in db.members;
      DoStep(l);
    }

    method UpdateCurrentOrg(ghost l: LoginId, user: Id, org: Id) returns (failed: bool)
      requires Valid() && st.At(l) && st.Pc(l).Moving? && st.Pc(l).org == org && st.logins[l].user == user
      modifies `db, `st, `operations
      ensures Advanced(l) && st.Pc(l) == if failed then Raised else Finished(Some(org), old(st).Pc(l).created)
      ensures !failed ==> user in db.current && db.current[user] == org && db.default == Some(org)
    {
      failed := Try(l);
      if failed {
        return;
      }
      assert LoginInv(cfg, st.db, st.created, l, st.logins[l]);
      db := db.(current := db.current[user := org]);
      DoStep(l);
    }
  }
}
