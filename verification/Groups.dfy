/** Groups: the tables AllGroup and GroupUser, and the in-memory roster that group
    chat is delivered by.  Handlers run one at a time, each for a logged-in user;
    every user id in the tables belongs to an existing user. */
module Groups {
  import opened Options

  type UserId = int
  type GroupId = int

  datatype Role = Master | Manager | Normal | Request

  datatype State = State(
    groups: set<GroupId>,                     // AllGroup
    rows: map<(GroupId, UserId), Role>,       // GroupUser, by its primary key
    roster: map<GroupId, seq<UserId>>,        // m_groupUserListMap
    nextId: GroupId                           // ids from here on were never used
  )

  const EMPTY := State({}, map[], map[], 0)

  datatype Command =
    | Create(user: UserId, group: GroupId)    // the insert into AllGroup succeeded with this id
    | Join(user: UserId, group: GroupId)
    | Approve(actor: UserId, group: GroupId, user: UserId)
    | SetManager(actor: UserId, group: GroupId, user: UserId)
    | CancelManager(actor: UserId, group: GroupId, user: UserId)
    | Kick(actor: UserId, group: GroupId, user: UserId)
    | Quit(user: UserId, group: GroupId)
    | Dissolve(user: UserId, group: GroupId)
    | Chat(user: UserId, group: GroupId)
    | Restart(lists: map<GroupId, seq<UserId>>)  // groupUserListMapInit in a new process

  function RoleOf(s: State, g: GroupId, u: UserId): Option<Role> {
    if (g, u) in s.rows then Some(s.rows[(g, u)]) else None
  }

  /** Master, manager or normal. */
  predicate Member(s: State, g: GroupId, u: UserId) {
    (g, u) in s.rows && !s.rows[(g, u)].Request?
  }

  predicate Officer(s: State, g: GroupId, u: UserId) {
    (g, u) in s.rows && (s.rows[(g, u)].Master? || s.rows[(g, u)].Manager?)
  }

  function List(roster: map<GroupId, seq<UserId>>, g: GroupId): seq<UserId> {
    if g in roster then roster[g] else []
  }

  /** erase(remove(...)): every occurrence goes. */
  function Without(list: seq<UserId>, u: UserId): (r: seq<UserId>)
    ensures forall x :: x in r <==> x in list && x != u
    ensures NoDuplicates(list) ==> NoDuplicates(r)
  {
    if list == [] then []
    else
      assert list == [list[0]] + list[1..];
      var rest := Without(list[1..], u);
      assert NoDuplicates(list) ==> NoDuplicates(list[1..]) && list[0] !in list[1..] by {
        assert forall k :: 0 <= k < |list| - 1 ==> list[1..][k] == list[k + 1];
      }
      if list[0] == u then rest else [list[0]] + rest
  }

  /** The others stay as often as they were there. */
  lemma {:induction false} WithoutKeepsOthers(list: seq<UserId>, u: UserId)
    ensures multiset(Without(list, u)) == multiset(list)[u := 0]
  {
    if list == [] {
    } else {
      WithoutKeepsOthers(list[1..], u);
      assert list == [list[0]] + list[1..];
    }
  }

  predicate NoDuplicates(list: seq<UserId>) {
    forall i, j :: 0 <= i < j < |list| ==> list[i] != list[j]
  }

  /** What the init query returns for each group: its members once, in some order. */
  ghost predicate Lists(s: State, lists: map<GroupId, seq<UserId>>) {
    lists.Keys == s.groups &&
    forall g :: g in lists ==> NoDuplicates(lists[g]) && forall u :: u in lists[g] <==> Member(s, g, u)
  }

  ghost predicate Enabled(s: State, c: Command) {
    match c
    case Create(_, g) => g >= s.nextId
    case Restart(lists) => Lists(s, lists)
    case _ => true
  }

  function RemoveMember(s: State, g: GroupId, u: UserId): State {
    s.(rows := s.rows - {(g, u)}, roster := s.roster[g := Without(List(s.roster, g), u)])
  }

  predicate MayKick(s: State, actor: UserId, g: GroupId, u: UserId) {
    Member(s, g, u) &&
    (RoleOf(s, g, actor) == Some(Master) || (RoleOf(s, g, actor) == Some(Manager) && RoleOf(s, g, u) == Some(Normal)))
  }

  function Next(s: State, c: Command): State {
    match c
    case Create(u, g) =>
      s.(groups := s.groups + {g}, nextId := g + 1,
         rows := if (g, u) in s.rows then s.rows else s.rows[(g, u) := Master],
         roster := s.roster[g := List(s.roster, g) + [u]])
    case Join(u, g) => if (g, u) in s.rows then s else s.(rows := s.rows[(g, u) := Request])
    case Approve(actor, g, u) =>
      if !Officer(s, g, actor) then s
      else s.(rows := if (g, u) in s.rows then s.rows[(g, u) := Normal] else s.rows,
              roster := s.roster[g := List(s.roster, g) + [u]])
    case SetManager(_, g, u) =>
      if RoleOf(s, g, u) == Some(Normal) then s.(rows := s.rows[(g, u) := Manager]) else s
    case CancelManager(_, g, u) =>
      if RoleOf(s, g, u) == Some(Manager) then s.(rows := s.rows[(g, u) := Normal]) else s
    case Kick(actor, g, u) => if MayKick(s, actor, g, u) then RemoveMember(s, g, u) else s
    case Quit(u, g) => if Member(s, g, u) && s.rows[(g, u)] != Master then RemoveMember(s, g, u) else s
    case Dissolve(u, g) =>
      if RoleOf(s, g, u) != Some(Master) then s
      else s.(groups := s.groups - {g}, rows := map k | k in s.rows && k.0 != g :: s.rows[k], roster := s.roster - {g})
    case Chat(_, g) => s.(roster := s.roster[g := List(s.roster, g)])
    case Restart(lists) => s.(roster := lists)
  }

  ghost predicate Legal(s: State, cs: seq<Command>)
    decreases |cs|
  {
    cs == [] || (Enabled(s, cs[0]) && Legal(Next(s, cs[0]), cs[1..]))
  }

  function Exec(s: State, cs: seq<Command>): State
    decreases |cs|
  {
    if cs == [] then s else Exec(Next(s, cs[0]), cs[1..])
  }

  // ----- Roles -----

  /** The tables alone, as a process that starts finds them. */
  ghost predicate TablesOk(s: State) {
    && (forall g, u, v :: RoleOf(s, g, u) == Some(Master) && RoleOf(s, g, v) == Some(Master) ==> u == v)
    && (forall g, u :: Member(s, g, u) ==> g in s.groups)
    && (forall g :: g in s.groups ==> g < s.nextId)
  }

  ghost predicate Inv(s: State) {
    TablesOk(s) && forall g, u :: Member(s, g, u) ==> u in List(s.roster, g)
  }

  lemma NextKeepsInv(s: State, c: Command)
    requires Inv(s) && Enabled(s, c)
    ensures Inv(Next(s, c))
  {
    var t := Next(s, c);
    forall g, u | Member(t, g, u) ensures g in t.groups && u in List(t.roster, g) {
      assert Member(s, g, u) ==> u in List(s.roster, g);
      if (c.Create? || c.Approve?) && c.group == g && c.user == u && t != s {
        assert c.Approve? ==> Member(s, g, c.actor);
        assert List(t.roster, g)[|List(s.roster, g)|] == u;
      }
    }
    forall g, u, v | RoleOf(t, g, u) == Some(Master) && RoleOf(t, g, v) == Some(Master) ensures u == v {
      if !(c.Create? && g == c.group) {
        assert RoleOf(s, g, u) == Some(Master) && RoleOf(s, g, v) == Some(Master);
      } else {
        assert !Member(s, g, u) && !Member(s, g, v);
      }
    }
  }

  lemma {:induction false} ExecKeepsInv(s: State, cs: seq<Command>)
    requires Inv(s) && Legal(s, cs)
    ensures Inv(Exec(s, cs))
    decreases |cs|
  {
    if cs == [] {
    } else {
      NextKeepsInv(s, cs[0]);
      ExecKeepsInv(Next(s, cs[0]), cs[1..]);
    }
  }

  /** Over every run, restarts included, a group id has at most one master, and ids that
      are no group's hold nothing but requests. */
  lemma SingleMaster(cs: seq<Command>)
    requires Legal(EMPTY, cs)
    ensures var s := Exec(EMPTY, cs);
      && (forall g, u, v :: RoleOf(s, g, u) == Some(Master) && RoleOf(s, g, v) == Some(Master) ==> u == v)
      && (forall g, u :: (g, u) in s.rows && g !in s.groups ==> s.rows[(g, u)] == Request)
  {
    ExecKeepsInv(EMPTY, cs);
    var s := Exec(EMPTY, cs);
    forall g, u | (g, u) in s.rows && g !in s.groups ensures s.rows[(g, u)] == Request {
      assert !Member(s, g, u);
    }
  }

  /** Every member of the table is in the roster, so the unguarded lookup on quit finds
      a list, and group chat reaches everybody it should. */
  lemma RosterCoversMembers(cs: seq<Command>, g: GroupId, u: UserId)
    requires Legal(EMPTY, cs) && Member(Exec(EMPTY, cs), g, u)
    ensures var s := Exec(EMPTY, cs); g in s.roster && u in s.roster[g]
  {
    ExecKeepsInv(EMPTY, cs);
  }

  predicate HasMaster(s: State, g: GroupId, u: UserId) {
    RoleOf(s, g, u) == Some(Master)
  }

  /** A master loses the role exactly when the group is dissolved, the master kicks
      himself, or an officer "approves" the master, who becomes a normal member. */
  lemma MasterLostExactlyWhen(s: State, c: Command, g: GroupId, u: UserId)
    requires Inv(s) && Enabled(s, c) && HasMaster(s, g, u)
    ensures !HasMaster(Next(s, c), g, u) <==>
      || c == Dissolve(u, g)
      || c == Kick(u, g, u)
      || (c.Approve? && c.group == g && c.user == u && Officer(s, g, c.actor))
  {
  }

  // ----- Every step, row by row -----

  /** The roles in one group that decide a step: of the user, and of who acts. */
  predicate Kicks(actor: Option<Role>, user: Option<Role>) {
    match actor
    case Some(Master) => user.Some? && user != Some(Request)
    case Some(Manager) => user == Some(Normal)
    case _ => false
  }

  /** What becomes of one user's row in one group. */
  function RoleAfter(c: Command, g: GroupId, u: UserId, mine: Option<Role>, actors: UserId -> Option<Role>): Option<Role> {
    match c
    case Create(user, group) => if user == u && group == g && mine == None then Some(Master) else mine
    case Join(user, group) => if user == u && group == g && mine == None then Some(Request) else mine
    case Approve(actor, group, user) =>
      if user == u && group == g && mine.Some? && (actors(actor) == Some(Master) || actors(actor) == Some(Manager))
      then Some(Normal) else mine
    case SetManager(_, group, user) => if user == u && group == g && mine == Some(Normal) then Some(Manager) else mine
    case CancelManager(_, group, user) => if user == u && group == g && mine == Some(Manager) then Some(Normal) else mine
    case Kick(actor, group, user) => if user == u && group == g && Kicks(actors(actor), mine) then None else mine
    case Quit(user, group) =>
      if user == u && group == g && (mine == Some(Manager) || mine == Some(Normal)) then None else mine
    case Dissolve(user, group) => if group == g && actors(user) == Some(Master) then None else mine
    case Chat(_, _) => mine
    case Restart(_) => mine
  }

  /** The tables change by the rules for one row, and no other row changes. */
  lemma RolesFollowTheRules(s: State, c: Command, g: GroupId, u: UserId)
    ensures RoleOf(Next(s, c), g, u) == RoleAfter(c, g, u, RoleOf(s, g, u), x => RoleOf(s, g, x))
  {
  }

  /** The creator of a group becomes its master, unless an old row of theirs is in the way. */
  lemma CreatorIsMaster(s: State, u: UserId, g: GroupId)
    ensures var t := Next(s, Create(u, g)); g in t.groups && (HasMaster(t, g, u) <==> RoleOf(s, g, u) == None || HasMaster(s, g, u))
  {
  }

  /** Nobody is a master who did not create the group. */
  lemma {:induction false} MastersAreCreators(s: State, cs: seq<Command>, g: GroupId, u: UserId)
    requires HasMaster(Exec(s, cs), g, u)
    ensures HasMaster(s, g, u) || Create(u, g) in cs
    decreases |cs|
  {
    if cs == [] {
    } else {
      MastersAreCreators(Next(s, cs[0]), cs[1..], g, u);
      RolesFollowTheRules(s, cs[0], g, u);
    }
  }

  predicate Dissolves(s: State, c: Command, g: GroupId) {
    c.Dissolve? && c.group == g && RoleOf(s, g, c.user) == Some(Master)
  }

  lemma GroupsFollowTheRules(s: State, c: Command, g: GroupId)
    ensures g in Next(s, c).groups <==> (g in s.groups && !Dissolves(s, c, g)) || (c.Create? && c.group == g)
  {
  }

  predicate Joins(s: State, c: Command, g: GroupId) {
    (c.Create? && c.group == g) ||
    (c.Approve? && c.group == g && (RoleOf(s, g, c.actor) == Some(Master) || RoleOf(s, g, c.actor) == Some(Manager)))
  }

  predicate Leaves(s: State, c: Command, g: GroupId) {
    (c.Kick? && c.group == g && Kicks(RoleOf(s, g, c.actor), RoleOf(s, g, c.user))) ||
    (c.Quit? && c.group == g && (RoleOf(s, g, c.user) == Some(Manager) || RoleOf(s, g, c.user) == Some(Normal)))
  }

  /** What becomes of each list of the roster: somebody joins at the end, somebody leaves
      wherever they are, the list goes with its group, or nothing happens to it. */
  lemma ListsFollowTheRules(s: State, c: Command, g: GroupId)
    requires !c.Restart?
    ensures List(Next(s, c).roster, g) ==
      if Dissolves(s, c, g) then []
      else if Joins(s, c, g) then List(s.roster, g) + [c.user]
      else if Leaves(s, c, g) then Without(List(s.roster, g), c.user)
      else List(s.roster, g)
  {
    if c.group != g {
      assert List(Next(s, c).roster, g) == List(s.roster, g);
    } else if c.Create? || c.Approve? {
      JoinedList(s, c);
    } else if c.Kick? || c.Quit? {
      LeftList(s, c);
    }
  }

  lemma JoinedList(s: State, c: Command)
    requires c.Create? || c.Approve?
    ensures List(Next(s, c).roster, c.group) == List(s.roster, c.group) + if Joins(s, c, c.group) then [c.user] else []
  {
  }

  lemma LeftList(s: State, c: Command)
    requires c.Kick? || c.Quit?
    ensures List(Next(s, c).roster, c.group) ==
      if Leaves(s, c, c.group) then Without(List(s.roster, c.group), c.user) else List(s.roster, c.group)
  {
  }

  // ----- The roster as an exact copy -----

  ghost predicate ExactFor(s: State, g: GroupId) {
    NoDuplicates(List(s.roster, g)) && forall u :: u in List(s.roster, g) <==> Member(s, g, u)
  }

  ghost predicate Exact(s: State) {
    forall g :: ExactFor(s, g)
  }

  /** What the caller of a handler could check: an officer approves a requester, and a
      creator has not requested an id that did not exist yet. */
  predicate Disciplined(s: State, c: Command) {
    match c
    case Approve(actor, g, u) => Officer(s, g, actor) ==> RoleOf(s, g, u) == Some(Request)
    case Create(u, g) => (g, u) !in s.rows
    case _ => true
  }

  /** Lists as the queries return them make a good state of any tables. */
  lemma ListsAreExact(s: State, lists: map<GroupId, seq<UserId>>)
    requires TablesOk(s) && Lists(s, lists)
    ensures Inv(s.(roster := lists)) && Exact(s.(roster := lists))
  {
    var t := s.(roster := lists);
    assert forall g, u :: RoleOf(t, g, u) == RoleOf(s, g, u) && (Member(t, g, u) <==> Member(s, g, u));
    forall g ensures ExactFor(t, g) {
      if g !in lists {
        assert forall u :: !Member(s, g, u);
      }
    }
  }

  lemma EmptyList(list: seq<UserId>)
    ensures list == [] || exists u :: u in list
  {
    if list != [] {
      var u := list[0];
      assert u in list;
    }
  }

  lemma DisciplineKeepsExact(s: State, c: Command, g: GroupId)
    requires Inv(s) && Enabled(s, c) && Exact(s) && Disciplined(s, c) && !c.Restart?
    ensures ExactFor(Next(s, c), g)
  {
    var t := Next(s, c);
    assert ExactFor(s, g);
    if c.group == g {
      match c {
        case Create(u, _) =>
          assert forall x :: !Member(s, g, x);
          EmptyList(List(s.roster, g));
        case Approve(actor, _, u) => assert Officer(s, g, actor) ==> !Member(s, g, u);
        case _ =>
      }
    } else {
      assert List(t.roster, g) == List(s.roster, g);
      assert forall u :: Member(t, g, u) <==> Member(s, g, u);
    }
  }

  lemma IndisciplineBreaksExact(s: State, c: Command)
    requires Inv(s) && Enabled(s, c) && Exact(s) && !Disciplined(s, c)
    ensures !ExactFor(Next(s, c), c.group)
  {
    var g, u := c.group, c.user;
    var t := Next(s, c);
    assert ExactFor(s, g);
    var list, longer := List(s.roster, g), List(t.roster, g);
    assert longer == list + [u] && longer[|list|] == u && u in longer;
    if c.Create? {
      assert !Member(s, g, u);
      assert !Member(t, g, u);
    } else if Member(s, g, u) {
      var i :| 0 <= i < |list| && list[i] == u;
      assert longer[i] == u;
    } else {
      assert !Member(t, g, u);
    }
  }

  /** From an exact roster, a step leaves the roster exact if and only if it is disciplined. */
  lemma ExactKeptExactlyWhen(s: State, c: Command)
    requires Inv(s) && Enabled(s, c) && Exact(s)
    ensures Exact(Next(s, c)) <==> Disciplined(s, c)
  {
    if c.Restart? {
      ListsAreExact(s, c.lists);
    } else if Disciplined(s, c) {
      forall g ensures ExactFor(Next(s, c), g) {
        DisciplineKeepsExact(s, c, g);
      }
    } else {
      IndisciplineBreaksExact(s, c);
    }
  }

  /** A run in which only requesters are approved and only existing groups requested. */
  predicate WellBehaved(s: State, cs: seq<Command>)
    decreases |cs|
  {
    cs == [] ||
    (&& (cs[0].Approve? && Officer(s, cs[0].group, cs[0].actor) ==> RoleOf(s, cs[0].group, cs[0].user) == Some(Request))
     && (cs[0].Join? ==> cs[0].group in s.groups)
     && WellBehaved(Next(s, cs[0]), cs[1..]))
  }

  predicate NoOrphanRows(s: State) {
    forall k :: k in s.rows ==> k.0 in s.groups
  }

  /** Then every list holds each member of its group once, and nobody else. */
  lemma RosterIsExact(cs: seq<Command>)
    requires Legal(EMPTY, cs) && WellBehaved(EMPTY, cs)
    ensures Exact(Exec(EMPTY, cs))
  {
    WellBehavedIsExact(EMPTY, cs);
  }

  lemma {:induction false} WellBehavedIsExact(s: State, cs: seq<Command>)
    requires Inv(s) && Exact(s) && NoOrphanRows(s) && Legal(s, cs) && WellBehaved(s, cs)
    ensures Exact(Exec(s, cs))
    decreases |cs|
  {
    if cs == [] {
    } else {
      NextKeepsInv(s, cs[0]);
      ExactKeptExactlyWhen(s, cs[0]);
      assert NoOrphanRows(Next(s, cs[0]));
      WellBehavedIsExact(Next(s, cs[0]), cs[1..]);
    }
  }

  /** Whatever happened before, a restart makes the roster exact again. */
  lemma RestartRepairs(cs: seq<Command>, lists: map<GroupId, seq<UserId>>)
    requires Legal(EMPTY, cs) && Lists(Exec(EMPTY, cs), lists)
    ensures Exact(Next(Exec(EMPTY, cs), Restart(lists)))
  {
    ExecKeepsInv(EMPTY, cs);
    ListsAreExact(Exec(EMPTY, cs), lists);
  }

  // ----- The service object -----

  class GroupService {
    var groups: set<GroupId>
    var rows: map<(GroupId, UserId), Role>
    var roster: map<GroupId, seq<UserId>>
    ghost var nextId: GroupId

    ghost function Abs(): State
      reads this
    {
      State(groups, rows, roster, nextId)
    }

    ghost predicate Valid()
      reads this
    {
      Inv(Abs())
    }

    constructor ()
      ensures Valid() && Abs() == EMPTY
    {
      groups, rows, roster, nextId := {}, map[], map[], 0;
    }

    function QueryGroupRole(userid: UserId, groupid: GroupId): Option<Role>
      reads this
    {
      if (groupid, userid) in rows then Some(rows[(groupid, userid)]) else None
    }

    /** insert into GroupUser; fails on a duplicate key. */
    method AddGroup(userid: UserId, groupid: GroupId, role: Role) returns (success: bool)
      modifies `rows
      ensures success <==> (groupid, userid) !in old(rows)
      ensures rows == if success then old(rows)[(groupid, userid) := role] else old(rows)
    {
      success := (groupid, userid) !in rows;
      if success {
        rows := rows[(groupid, userid) := role];
      }
    }

    method ModifyGroupRole(userid: UserId, groupid: GroupId, role: Role)
      modifies `rows
      ensures rows == if (groupid, userid) in old(rows) then old(rows)[(groupid, userid) := role] else old(rows)
    {
      if (groupid, userid) in rows {
        rows := rows[(groupid, userid) := role];
      }
    }

    method PushBack(groupid: GroupId, userid: UserId)
      modifies `roster
      ensures roster == old(roster)[groupid := List(old(roster), groupid) + [userid]]
    {
      roster := roster[groupid := List(roster, groupid) + [userid]];
    }

    /** A new process over the tables as they are: the queries answer with the groups of
        AllGroup and, for each, its members. */
    method GroupUserListMapInit(all: seq<GroupId>, members: map<GroupId, seq<UserId>>)
      requires TablesOk(Abs()) && roster == map[] && Lists(Abs(), members)
      requires (set g | g in all) == groups
      modifies `roster
      ensures Valid() && Abs() == Next(old(Abs()), Restart(members)) && Exact(Abs())
    {
      ListsAreExact(Abs(), members);
      assert members.Keys == groups;
      var i := 0;
      while i < |all|
        invariant i <= |all| && groups == old(groups)
        invariant forall g :: g in roster <==> g in all[..i]
        invariant forall g :: g in roster ==> g in members && roster[g] == members[g]
      {
        assert all[i] in (set g | g in all);
        assert all[..i + 1] == all[..i] + [all[i]];
        roster := roster[all[i] := members[all[i]]];
        i := i + 1;
      }
      assert all[..i] == all && members.Keys == groups == (set g | g in all);
      assert roster.Keys == members.Keys by {
        forall g ensures g in roster <==> g in members {
          assert g in all <==> g in (set x | x in all);
          assert g in members <==> g in members.Keys;
        }
      }
      assert forall g :: g in members ==> roster[g] == members[g];
      assert roster == members;
    }

    method HandleCreateGroup(userid: UserId, created: Option<GroupId>)
      requires Valid() && (created.Some? ==> created.value >= nextId)
      modifies this
      ensures Valid()
      ensures Abs() == if created.Some? then Next(old(Abs()), Create(userid, created.value)) else old(Abs())
    {
      if created.Some? {
        var id := created.value;
        NextKeepsInv(Abs(), Create(userid, id));
        groups := groups + {id};
        nextId := id + 1;
        var _ := AddGroup(userid, id, Master);
        PushBack(id, userid);
      }
    }

    method RequestAddGroup(userid: UserId, groupid: GroupId) returns (inserted: bool)
      requires Valid()
      modifies this
      ensures Valid() && Abs() == Next(old(Abs()), Join(userid, groupid))
    {
      NextKeepsInv(Abs(), Join(userid, groupid));
      inserted := AddGroup(userid, groupid, Request);
    }

    method HandleAddSomeoneToGroup(actor: UserId, groupid: GroupId, userid: UserId)
      requires Valid()
      modifies this
      ensures Valid() && Abs() == Next(old(Abs()), Approve(actor, groupid, userid))
    {
      NextKeepsInv(Abs(), Approve(actor, groupid, userid));
      var role := QueryGroupRole(actor, groupid);
      if role == Some(Master) || role == Some(Manager) {
        ModifyGroupRole(userid, groupid, Normal);
        PushBack(groupid, userid);
      }
    }

    method HandleQuitGroup(userid: UserId, groupid: GroupId)
      requires Valid()
      modifies this
      ensures Valid() && Abs() == Next(old(Abs()), Quit(userid, groupid))
    {
      NextKeepsInv(Abs(), Quit(userid, groupid));
      var role := QueryGroupRole(userid, groupid);
      if role == Some(Manager) || role == Some(Normal) {
        assert Member(Abs(), groupid, userid);
        rows := rows - {(groupid, userid)};
        // the iterator is dereferenced without a check
        roster := roster[groupid := Without(roster[groupid], userid)];
      }
    }

    method HandleSetManager(actor: UserId, groupid: GroupId, userid: UserId)
      requires Valid()
      modifies this
      ensures Valid() && Abs() == Next(old(Abs()), SetManager(actor, groupid, userid))
    {
      NextKeepsInv(Abs(), SetManager(actor, groupid, userid));
      if QueryGroupRole(userid, groupid) == Some(Normal) {
        ModifyGroupRole(userid, groupid, Manager);
      }
    }

    method HandleCancelManager(actor: UserId, groupid: GroupId, userid: UserId)
      requires Valid()
      modifies this
      ensures Valid() && Abs() == Next(old(Abs()), CancelManager(actor, groupid, userid))
    {
      NextKeepsInv(Abs(), CancelManager(actor, groupid, userid));
      if QueryGroupRole(userid, groupid) == Some(Manager) {
        ModifyGroupRole(userid, groupid, Normal);
      }
    }

    method HandleKickSomeoneInGroup(actor: UserId, groupid: GroupId, userid: UserId)
      requires Valid()
      modifies this
      ensures Valid() && Abs() == Next(old(Abs()), Kick(actor, groupid, userid))
    {
      NextKeepsInv(Abs(), Kick(actor, groupid, userid));
      var kicker, kicked := QueryGroupRole(actor, groupid), QueryGroupRole(userid, groupid);
      if kicked == None || kicked == Some(Request) {
        return;
      }
      if kicker == Some(Master) {
        rows := rows - {(groupid, userid)};
        roster := roster[groupid := Without(List(roster, groupid), userid)];
      } else if kicker == Some(Manager) {
        if kicked == Some(Manager) || kicked == Some(Master) {
          return;
        }
        assert kicked.value.Normal?;
        rows := rows - {(groupid, userid)};
        roster := roster[groupid := Without(List(roster, groupid), userid)];
      }
    }

    /** Who gets the message: the roster without the sender. */
    method HandleGroupChat(userid: UserId, groupid: GroupId) returns (receivers: seq<UserId>)
      requires Valid()
      modifies this
      ensures Valid() && Abs() == Next(old(Abs()), Chat(userid, groupid))
      ensures forall u :: Member(Abs(), groupid, u) && u != userid ==> u in receivers
      ensures ExactFor(old(Abs()), groupid) ==>
        NoDuplicates(receivers) && forall u :: u in receivers <==> Member(Abs(), groupid, u) && u != userid
    {
      NextKeepsInv(Abs(), Chat(userid, groupid));
      roster := roster[groupid := List(roster, groupid)];
      receivers := Without(roster[groupid], userid);
      assert forall u :: Member(Abs(), groupid, u) <==> Member(old(Abs()), groupid, u);
    }

    method HandleMasterDeleteGroup(userid: UserId, groupid: GroupId)
      requires Valid()
      modifies this
      ensures Valid() && Abs() == Next(old(Abs()), Dissolve(userid, groupid))
    {
      NextKeepsInv(Abs(), Dissolve(userid, groupid));
      if QueryGroupRole(userid, groupid) == Some(Master) {
        groups := groups - {groupid};
        rows := map k | k in rows && k.0 != groupid :: rows[k];
        roster := roster - {groupid};
      }
    }
  }

  /** The rows of a query, in some order. */
  method InSomeOrder<T(==)>(rows: set<T>) returns (all: seq<T>)
    ensures forall x :: x in all <==> x in rows
  {
    all := [];
    var rest := rows;
    while rest != {}
      invariant forall x :: x in rows <==> x in all || x in rest
    {
      var x :| x in rest;
      all := all + [x];
      rest := rest - {x};
    }
  }

  /** A new process: the tables stay, the roster is empty until the init loop has run.
      From any state that runs reach, it ends where the restart step ends. */
  method StartAgain(service: GroupService, ghost s: State, members: map<GroupId, seq<UserId>>)
    requires Inv(s) && Lists(s, members) && service.Abs() == s.(roster := map[])
    modifies service
    ensures service.Valid() && service.Abs() == Next(s, Restart(members)) && Exact(service.Abs())
  {
    assert forall g, u :: RoleOf(service.Abs(), g, u) == RoleOf(s, g, u);
    assert forall g, u :: Member(service.Abs(), g, u) <==> Member(s, g, u);
    var all := InSomeOrder(service.groups);
    service.GroupUserListMapInit(all, members);
  }

  method Handle(service: GroupService, c: Command)
    requires service.Valid() && Enabled(service.Abs(), c)
    modifies service
    ensures service.Valid() && service.Abs() == Next(old(service.Abs()), c)
  {
    match c {
      case Create(user, group) => service.HandleCreateGroup(user, Some(group));
      case Join(user, group) => var _ := service.RequestAddGroup(user, group);
      case Approve(actor, group, user) => service.HandleAddSomeoneToGroup(actor, group, user);
      case SetManager(actor, group, user) => service.HandleSetManager(actor, group, user);
      case CancelManager(actor, group, user) => service.HandleCancelManager(actor, group, user);
      case Kick(actor, group, user) => service.HandleKickSomeoneInGroup(actor, group, user);
      case Quit(user, group) => service.HandleQuitGroup(user, group);
      case Dissolve(user, group) => service.HandleMasterDeleteGroup(user, group);
      case Chat(user, group) => var _ := service.HandleGroupChat(user, group);
      case Restart(lists) =>
        ghost var s := service.Abs();
        service.roster := map[];
        StartAgain(service, s, lists);
    }
  }

  /** The handlers go through every run as the steps do, restarts included, so what is
      proved of runs holds of them. */
  method HandleAll(service: GroupService, cs: seq<Command>)
    requires service.Valid() && Legal(service.Abs(), cs)
    modifies service
    ensures service.Valid() && service.Abs() == Exec(old(service.Abs()), cs)
  {
    ghost var last := Exec(service.Abs(), cs);
    var rest := cs;
    while rest != []
      invariant service.Valid() && Legal(service.Abs(), rest) && Exec(service.Abs(), rest) == last
      decreases |rest|
    {
      Handle(service, rest[0]);
      rest := rest[1..];
    }
  }
}
