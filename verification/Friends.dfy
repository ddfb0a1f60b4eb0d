/** The friend table and the four handlers that change it.  Handlers run one at a
    time, each for a logged-in user. */
module Friends {
  import opened Options

  type UserId = int

  datatype State = Requested | Friend | Blocked

  /** Table `friend`: its primary key is the pair of user ids. */
  type Table = map<(UserId, UserId), State>

  datatype Command =
    | AddFriend(from: UserId, to: UserId)     // `to` is -1 for an unknown name
    | DeleteFriend(from: UserId, to: UserId)
    | Block(from: UserId, to: UserId)
    | Unblock(from: UserId, to: UserId)

  function GetState(t: Table, a: UserId, b: UserId): Option<State> {
    if (a, b) in t then Some(t[(a, b)]) else None
  }

  /** An insert fails on a duplicate key; an update changes nothing without a row. */
  function InsertRow(t: Table, a: UserId, b: UserId, s: State): Table {
    if (a, b) in t then t else t[(a, b) := s]
  }

  function Modify(t: Table, a: UserId, b: UserId, s: State): Table {
    if (a, b) in t then t[(a, b) := s] else t
  }

  function Next(t: Table, c: Command): Table {
    match c
    case AddFriend(a, b) =>
      var s1, s2 := GetState(t, a, b), GetState(t, b, a);
      if (s1 == None && s2 == None) || (s1 == Some(Requested) && s2 == None) then InsertRow(t, a, b, Requested)
      else if s1 == None && s2 == Some(Requested) then Modify(InsertRow(t, a, b, Friend), b, a, Friend)
      else t
    case DeleteFriend(a, b) => if Mutual(t, a, b) && Mutual(t, b, a) then t - {(a, b), (b, a)} else t
    case Block(a, b) => if GetState(t, a, b) == Some(Friend) then Modify(t, a, b, Blocked) else t
    case Unblock(a, b) => if GetState(t, a, b) == Some(Blocked) then Modify(t, a, b, Friend) else t
  }

  function Exec(t: Table, cs: seq<Command>): Table
  {
    if cs == [] then t else Next(Exec(t, cs[..|cs| - 1]), cs[|cs| - 1])
  }

  /** `a` has `b` as a friend, blocked or not. */
  predicate Mutual(t: Table, a: UserId, b: UserId) {
    (a, b) in t && !t[(a, b)].Requested?
  }

  predicate PairOk(t: Table, a: UserId, b: UserId) {
    && (Mutual(t, a, b) ==> a != b && Mutual(t, b, a))
    && (GetState(t, a, b) == Some(Requested) && a != b ==> (b, a) !in t)
  }

  ghost predicate Inv(t: Table) {
    forall a, b :: PairOk(t, a, b)
  }

  lemma NextKeepsInv(t: Table, c: Command)
    requires Inv(t)
    ensures Inv(Next(t, c))
  {
    forall x, y ensures PairOk(Next(t, c), x, y) {
      assert PairOk(t, x, y) && PairOk(t, y, x);
      assert PairOk(t, c.from, c.to) && PairOk(t, c.to, c.from);
    }
  }

  lemma {:induction false} ExecKeepsInv(cs: seq<Command>)
    ensures Inv(Exec(map[], cs))
  {
    if cs == [] {
    } else {
      ExecKeepsInv(cs[..|cs| - 1]);
      NextKeepsInv(Exec(map[], cs[..|cs| - 1]), cs[|cs| - 1]);
    }
  }

  /** Over every run: friendship is symmetric, a request one way excludes any row the
      other way, and nobody is their own friend or blocked by themselves. */
  lemma {:induction false} FriendshipIsMutual(cs: seq<Command>, a: UserId, b: UserId)
    ensures var t := Exec(map[], cs);
      && (Mutual(t, a, b) <==> Mutual(t, b, a))
      && (a != b && GetState(t, a, b) == Some(Requested) ==> GetState(t, b, a) == None)
      && !Mutual(t, a, a)
  {
    ExecKeepsInv(cs);
    var t := Exec(map[], cs);
    assert PairOk(t, a, b) && PairOk(t, b, a) && PairOk(t, a, a);
  }

  /** Every row goes back to a request by its owner that no deletion came after. */
  lemma {:induction false} RowsWereAskedFor(cs: seq<Command>, a: UserId, b: UserId)
    requires (a, b) in Exec(map[], cs)
    ensures exists i :: AskedAndKept(cs, i, a, b)
  {
    var n := |cs| - 1;
    var t := Exec(map[], cs[..n]);
    if (a, b) in t {
      RowsWereAskedFor(cs[..n], a, b);
      var i :| AskedAndKept(cs[..n], i, a, b);
      assert cs[..n][i] == cs[i];
      forall j | i < j < |cs| ensures !Deletes(Exec(map[], cs[..j]), cs[j], a, b) {
        if j < n {
          assert cs[..n][..j] == cs[..j] && cs[..n][j] == cs[j];
          assert !Deletes(Exec(map[], cs[..n][..j]), cs[..n][j], a, b);
        }
      }
      assert AskedAndKept(cs, i, a, b);
    } else {
      assert AskedAndKept(cs, n, a, b);
    }
  }

  /** The deletion goes through and takes the row of `a` for `b` out. */
  predicate Deletes(t: Table, c: Command, a: UserId, b: UserId) {
    (c == DeleteFriend(a, b) || c == DeleteFriend(b, a)) && Mutual(t, a, b) && Mutual(t, b, a)
  }

  predicate AskedAndKept(cs: seq<Command>, i: int, a: UserId, b: UserId) {
    && 0 <= i < |cs| && cs[i] == AddFriend(a, b)
    && forall j :: i < j < |cs| ==> !Deletes(Exec(map[], cs[..j]), cs[j], a, b)
  }

  /** Consent: two users are friends only if each asked for the other, and neither
      request was followed by a deletion that went through. */
  lemma FriendsBothAsked(cs: seq<Command>, a: UserId, b: UserId)
    requires Mutual(Exec(map[], cs), a, b)
    ensures exists i, j :: AskedAndKept(cs, i, a, b) && AskedAndKept(cs, j, b, a)
  {
    FriendshipIsMutual(cs, a, b);
    RowsWereAskedFor(cs, a, b);
    RowsWereAskedFor(cs, b, a);
  }

  /** What becomes of the row of `a` for `b`, from the two rows between them. */
  function RowAfter(c: Command, a: UserId, b: UserId, mine: Option<State>, other: Option<State>): Option<State> {
    match mine
    case None =>
      if c != AddFriend(a, b) then None
      else if other == None then Some(Requested)
      else if other == Some(Requested) then Some(Friend)
      else None
    case Some(Requested) => if c == AddFriend(b, a) && other == None then Some(Friend) else mine
    case Some(Friend) => if Unfriends(c, a, b, other) then None else if c == Block(a, b) then Some(Blocked) else mine
    case Some(Blocked) => if Unfriends(c, a, b, other) then None else if c == Unblock(a, b) then Some(Friend) else mine
  }

  predicate Unfriends(c: Command, a: UserId, b: UserId, other: Option<State>) {
    (c == DeleteFriend(a, b) || c == DeleteFriend(b, a)) && (other == Some(Friend) || other == Some(Blocked))
  }

  /** The table changes by the rules for one row; so blocking and unblocking change the
      caller's own row, and no other. */
  lemma RowsFollowTheRules(t: Table, c: Command, a: UserId, b: UserId)
    ensures GetState(Next(t, c), a, b) == RowAfter(c, a, b, GetState(t, a, b), GetState(t, b, a))
  {
  }

  /** The block went through and nothing has ended it. */
  predicate BlockStands(cs: seq<Command>, i: int, a: UserId, b: UserId) {
    && 0 <= i < |cs| && cs[i] == Block(a, b) && GetState(Exec(map[], cs[..i]), a, b) == Some(Friend)
    && forall j :: i < j < |cs| ==> cs[j] != Unblock(a, b) && !Deletes(Exec(map[], cs[..j]), cs[j], a, b)
  }

  /** Over every run: `a` has `b` blocked exactly when `a` blocked a friend, and neither
      unblocked `b` nor lost the friendship since. */
  lemma {:induction false} BlockedExactlyWhen(cs: seq<Command>, a: UserId, b: UserId)
    ensures GetState(Exec(map[], cs), a, b) == Some(Blocked) <==> exists i :: BlockStands(cs, i, a, b)
  {
    if cs == [] {
    } else {
      var n := |cs| - 1;
      var front, t := cs[..n], Exec(map[], cs[..n]);
      BlockedExactlyWhen(front, a, b);
      ExecKeepsInv(front);
      BlockedStep(t, cs[n], a, b);
      if i :| BlockStands(cs, i, a, b) { EarlierBlock(cs, i, a, b); }
      if i :| BlockStands(front, i, a, b) { EarlierBlock(cs, i, a, b); }
      EarlierBlock(cs, n, a, b);
    }
  }

  lemma BlockedStep(t: Table, c: Command, a: UserId, b: UserId)
    requires Inv(t)
    ensures GetState(Next(t, c), a, b) == Some(Blocked) <==>
      (GetState(t, a, b) == Some(Blocked) && c != Unblock(a, b) && !Deletes(t, c, a, b))
      || (c == Block(a, b) && GetState(t, a, b) == Some(Friend))
  {
    assert PairOk(t, a, b) && PairOk(t, b, a);
    RowsFollowTheRules(t, c, a, b);
  }

  lemma EarlierBlock(cs: seq<Command>, i: int, a: UserId, b: UserId)
    requires cs != []
    ensures var n := |cs| - 1; var t := Exec(map[], cs[..n]);
      BlockStands(cs, i, a, b) <==>
        (BlockStands(cs[..n], i, a, b) && cs[n] != Unblock(a, b) && !Deletes(t, cs[n], a, b))
        || (i == n && cs[n] == Block(a, b) && GetState(t, a, b) == Some(Friend))
  {
    var n := |cs| - 1;
    var front := cs[..n];
    forall j | 0 <= j < n ensures front[..j] == cs[..j] && front[j] == cs[j] {}
    if BlockStands(cs, i, a, b) && i < n {
      forall j | i < j < n ensures front[j] != Unblock(a, b) && !Deletes(Exec(map[], front[..j]), front[j], a, b) {
        assert cs[j] != Unblock(a, b) && !Deletes(Exec(map[], cs[..j]), cs[j], a, b);
      }
    }
    if BlockStands(front, i, a, b) && cs[n] != Unblock(a, b) && !Deletes(Exec(map[], front), cs[n], a, b) {
      forall j | i < j < |cs| ensures cs[j] != Unblock(a, b) && !Deletes(Exec(map[], cs[..j]), cs[j], a, b) {
        if j < n { assert front[j] != Unblock(a, b) && !Deletes(Exec(map[], front[..j]), front[j], a, b); }
      }
    }
  }

  /** When both sides have asked, the second request makes them friends at once. */
  lemma SecondRequestBefriends(t: Table, a: UserId, b: UserId)
    requires Inv(t) && a != b && GetState(t, b, a) == Some(Requested)
    ensures var t' := Next(t, AddFriend(a, b)); t' == t[(a, b) := Friend][(b, a) := Friend]
  {
    assert PairOk(t, b, a);
  }

  class FriendService {
    var table: Table

    constructor ()
      ensures table == map[]
    {
      table := map[];
    }

    method HandleAddFriend(from: UserId, to: UserId)
      modifies this
      ensures table == Next(old(table), AddFriend(from, to))
    {
      var s1, s2 := GetState(table, from, to), GetState(table, to, from);
      if (s1 == None && s2 == None) || (s1 == Some(Requested) && s2 == None) {
        table := InsertRow(table, from, to, Requested);
      }
      if s1 == None && s2 == Some(Requested) {
        table := InsertRow(table, from, to, Friend);
        table := Modify(table, to, from, Friend);
      }
    }

    method HandleDeleteFriend(from: UserId, to: UserId)
      modifies this
      ensures table == Next(old(table), DeleteFriend(from, to))
    {
      var s1, s2 := GetState(table, from, to), GetState(table, to, from);
      if (s1 == Some(Friend) || s1 == Some(Blocked)) && (s2 == Some(Friend) || s2 == Some(Blocked)) {
        table := table - {(from, to), (to, from)};
      }
    }

    method HandleBlockFriend(from: UserId, to: UserId)
      modifies this
      ensures table == Next(old(table), Block(from, to))
    {
      if GetState(table, from, to) == Some(Friend) {
        table := Modify(table, from, to, Blocked);
      }
    }

    method HandleUnBlockFriend(from: UserId, to: UserId)
      modifies this
      ensures table == Next(old(table), Unblock(from, to))
    {
      if GetState(table, from, to) == Some(Blocked) {
        table := Modify(table, from, to, Friend);
      }
    }
  }
}
