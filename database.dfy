/**
 * The users table and the message log, as in-memory tables. Each write takes a
 * `fault` flag standing for a database error: the source then logs, rolls back
 * and returns False, so a faulty write changes nothing. `now` stands for the
 * time stamp the source takes from the clock; it is only ever compared for order.
 */
module Database {
  import opened Wrappers
  import Sets

  datatype UserRow = UserRow(
    username: Option<string>,
    firstName: Option<string>,
    lastName: Option<string>,
    joinDate: int,
    isBlocked: int)

  datatype MessageRow = MessageRow(userId: int, text: string, timestamp: int)

  /** One row of the user listing: (user_id, username, first_name, last_name, join_date, is_blocked). */
  datatype UserListing = UserListing(
    userId: int,
    username: Option<string>,
    firstName: Option<string>,
    lastName: Option<string>,
    joinDate: int,
    isBlocked: int)

  /** One row of the blocked listing: (user_id, username, first_name, last_name). */
  datatype BlockedListing = BlockedListing(
    userId: int,
    username: Option<string>,
    firstName: Option<string>,
    lastName: Option<string>)

  datatype UserInfo = UserInfo(username: Option<string>, firstName: Option<string>, lastName: Option<string>)

  datatype Stats = Stats(totalUsers: nat, activeUsers: nat, blockedUsers: nat, totalMessages: nat)

  type Users = map<int, UserRow>

  /** Every `is_blocked` column holds 0 or 1; all writes keep it so. */
  ghost predicate FlagsAreBinary(users: Users) {
    forall id :: id in users ==> users[id].isBlocked == 0 || users[id].isBlocked == 1
  }

  // ---------------------------------------------------------------- writes

  /**
   * `INSERT OR REPLACE` with `is_blocked` carried over from the old row
   * (`COALESCE(..., 0)`): a returning user keeps their blocked flag and gets
   * fresh names and join date; a new user starts unblocked.
   */
  function Upsert(users: Users, id: int, username: Option<string>, firstName: Option<string>,
                  lastName: Option<string>, now: int): (r: Users)
    ensures r.Keys == users.Keys + {id}
    ensures r[id].username == username && r[id].firstName == firstName && r[id].lastName == lastName
    ensures r[id].joinDate == now
    ensures id in users ==> r[id].isBlocked == users[id].isBlocked
    ensures id !in users ==> r[id].isBlocked == 0
    ensures forall k :: k in users && k != id ==> r[k] == users[k]
  {
    users[id := UserRow(username, firstName, lastName, now, if id in users then users[id].isBlocked else 0)]
  }

  /** `UPDATE users SET is_blocked = flag WHERE user_id = id`: touches one column of at most one row. */
  function SetBlockFlag(users: Users, id: int, flag: int): (r: Users)
    ensures r.Keys == users.Keys
    ensures id in users ==> r[id] == users[id].(isBlocked := flag)
    ensures forall k :: k in users && k != id ==> r[k] == users[k]
  {
    if id in users then users[id := users[id].(isBlocked := flag)] else users
  }

  /** Blocking (or unblocking) twice is the same as doing it once. */
  lemma SetBlockFlagIdempotent(users: Users, id: int, flag: int)
    ensures SetBlockFlag(SetBlockFlag(users, id, flag), id, flag) == SetBlockFlag(users, id, flag)
  {
  }

  lemma WritesKeepFlagsBinary(users: Users, id: int, username: Option<string>, firstName: Option<string>,
                              lastName: Option<string>, now: int)
    requires FlagsAreBinary(users)
    ensures FlagsAreBinary(Upsert(users, id, username, firstName, lastName, now))
    ensures FlagsAreBinary(SetBlockFlag(users, id, 0)) && FlagsAreBinary(SetBlockFlag(users, id, 1))
  {
  }

  // ---------------------------------------------------------------- lookups

  /** `is_user_blocked`: False for an unknown user and on a database error. */
  function IsUserBlocked(users: Users, id: int, fault: bool): (blocked: bool)
    ensures blocked <==> !fault && id in users && users[id].isBlocked != 0
  {
    if fault || id !in users then false else users[id].isBlocked != 0
  }

  /** `get_user_info`: the three name columns, or three `None`s for an unknown user or an error. */
  function GetUserInfo(users: Users, id: int, fault: bool): (info: UserInfo)
    ensures !fault && id in users ==> info == UserInfo(users[id].username, users[id].firstName, users[id].lastName)
    ensures fault || id !in users ==> info == UserInfo(None, None, None)
  {
    if !fault && id in users then UserInfo(users[id].username, users[id].firstName, users[id].lastName)
    else UserInfo(None, None, None)
  }

  /** The least member of a non-empty set of ids. */
  function MinId(ids: set<int>): (m: int)
    requires ids != {}
    ensures m in ids && forall k :: k in ids ==> m <= k
  {
    MinIdExists(ids);
    var m :| m in ids && forall k :: k in ids ==> m <= k; m
  }

  lemma {:induction false} MinIdExists(ids: set<int>)
    requires ids != {}
    ensures exists m :: m in ids && forall k :: k in ids ==> m <= k
    decreases |ids|
  {
    Sets.NonEmptyHasMember(ids);
    var x :| x in ids;
    var rest := ids - {x};
    assert ids == rest + {x};
    if |rest| == 0 {
      assert rest == {};
      assert ids == {x};
    } else {
      MinIdExists(rest);
      var y :| y in rest && forall k :: k in rest ==> y <= k;
      var m := if x <= y then x else y;
      assert m in ids;
      forall k | k in ids
        ensures m <= k
      {
        assert k == x || k in rest;
      }
    }
  }

  /**
   * `get_user_by_username` / `find_user_by_username`: the id of a row whose
   * username equals `name` exactly. When several rows match, the table scan
   * meets the smallest id (the rowid) first.
   */
  function GetUserByUsername(users: Users, name: string): (r: Option<int>)
    ensures r.None? <==> forall k :: k in users ==> users[k].username != Some(name)
    ensures r.Some? ==> r.value in users && users[r.value].username == Some(name)
    ensures r.Some? ==> forall k :: k in users && users[k].username == Some(name) ==> r.value <= k
  {
    var matches := set k | k in users && users[k].username == Some(name);
    assert forall k :: k in users && users[k].username == Some(name) ==> k in matches;
    if matches == {} then None else Some(MinId(matches))
  }

  // ---------------------------------------------------------------- listings

  /** `ORDER BY join_date DESC`, ties broken by ascending id: `a` is listed no later than `b`. */
  predicate ListedBefore(users: Users, a: int, b: int)
    requires a in users && b in users
  {
    users[a].joinDate > users[b].joinDate || (users[a].joinDate == users[b].joinDate && a <= b)
  }

  predicate IsFirstListed(users: Users, k: int) {
    k in users && forall j :: j in users ==> ListedBefore(users, k, j)
  }

  lemma {:induction false} FirstListedExists(users: Users)
    requires users != map[]
    ensures exists k :: IsFirstListed(users, k)
    decreases |users|
  {
    assert |users.Keys| == |users| != 0;
    Sets.NonEmptyHasMember(users.Keys);
    var x :| x in users.Keys;
    var rest := users - {x};
    assert users.Keys == rest.Keys + {x};
    if |rest| == 0 {
      assert rest.Keys == {};
      assert users.Keys == {x};
      assert IsFirstListed(users, x);
    } else {
      assert rest != map[];
      FirstListedExists(rest);
      var y :| IsFirstListed(rest, y);
      var m := if ListedBefore(users, x, y) then x else y;
      forall j | j in users
        ensures ListedBefore(users, m, j)
      {
        assert j == x || j in rest;
      }
      assert IsFirstListed(users, m);
    }
  }

  /** The id the listing starts with. */
  function FirstListed(users: Users): (k: int)
    requires users != map[]
    ensures IsFirstListed(users, k)
  {
    FirstListedExists(users);
    var k :| IsFirstListed(users, k); k
  }

  function ListingOf(id: int, row: UserRow): UserListing {
    UserListing(id, row.username, row.firstName, row.lastName, row.joinDate, row.isBlocked)
  }

  /** Row `i` of `rows` is the stored row of its id. */
  predicate StoredAt(users: Users, rows: seq<UserListing>, i: int)
    requires 0 <= i < |rows|
  {
    rows[i].userId in users && rows[i] == ListingOf(rows[i].userId, users[rows[i].userId])
  }

  /** Strictly earlier in the listing order. */
  predicate Precedes(a: UserListing, b: UserListing) {
    a.joinDate > b.joinDate || (a.joinDate == b.joinDate && a.userId < b.userId)
  }

  /** Every row of `users`, newest join date first. */
  function Listing(users: Users): (rows: seq<UserListing>)
    decreases |users|
  {
    if users == map[] then []
    else
      var k := FirstListed(users);
      assert |users - {k}| < |users| by {
        assert (users - {k}).Keys == users.Keys - {k};
      }
      [ListingOf(k, users[k])] + Listing(users - {k})
  }

  lemma ListingStep(users: Users)
    requires users != map[]
    ensures var k := FirstListed(users);
            Listing(users) == [ListingOf(k, users[k])] + Listing(users - {k})
            && (users - {k}).Keys == users.Keys - {k}
  {
  }

  /** The listing has one row per table row, and each listed row is the stored row. */
  lemma {:induction false} ListingRowsAreStored(users: Users)
    ensures |Listing(users)| == |users|
    ensures forall i :: 0 <= i < |Listing(users)| ==> StoredAt(users, Listing(users), i)
    decreases |users|
  {
    if users != map[] {
      var k := FirstListed(users);
      var rest := users - {k};
      ListingStep(users);
      ListingRowsAreStored(rest);
      var tail := Listing(rest);
      var rows := Listing(users);
      forall i | 0 <= i < |rows|
        ensures StoredAt(users, rows, i)
      {
        if i > 0 {
          assert rows[i] == tail[i - 1];
          assert StoredAt(rest, tail, i - 1);
        }
      }
    }
  }

  /** Every row of the table appears in the listing. */
  lemma {:induction false} ListingCoversTable(users: Users)
    ensures forall k :: k in users ==> exists i :: 0 <= i < |Listing(users)| && Listing(users)[i].userId == k
    decreases |users|
  {
    if users != map[] {
      var k := FirstListed(users);
      var rest := users - {k};
      ListingStep(users);
      ListingCoversTable(rest);
      var tail := Listing(rest);
      var rows := Listing(users);
      forall j | j in users
        ensures exists i :: 0 <= i < |rows| && rows[i].userId == j
      {
        if j == k {
          assert rows[0].userId == j;
        } else {
          assert j in rest;
          var i :| 0 <= i < |tail| && tail[i].userId == j;
          assert rows[i + 1].userId == j;
        }
      }
    }
  }

  /** The listing is strictly ordered: newer join date first, then smaller id. */
  lemma {:induction false} ListingIsSorted(users: Users)
    ensures forall i, j :: 0 <= i < j < |Listing(users)| ==> Precedes(Listing(users)[i], Listing(users)[j])
    decreases |users|
  {
    if users != map[] {
      var k := FirstListed(users);
      var rest := users - {k};
      ListingStep(users);
      ListingIsSorted(rest);
      ListingRowsAreStored(rest);
      var tail := Listing(rest);
      var rows := Listing(users);
      forall i, j | 0 <= i < j < |rows|
        ensures Precedes(rows[i], rows[j])
      {
        assert rows[j] == tail[j - 1];
        assert StoredAt(rest, tail, j - 1);
        if i == 0 {
          var t := tail[j - 1].userId;
          assert t in users && t != k;
          assert ListedBefore(users, k, t);
        } else {
          assert rows[i] == tail[i - 1];
        }
      }
    }
  }

  /** `get_all_users`: every user except the owner, newest join date first. */
  function GetAllUsers(users: Users, ownerId: int): (rows: seq<UserListing>)
    ensures forall i :: 0 <= i < |rows| ==> rows[i].userId != ownerId && rows[i].userId in users
    ensures forall i :: 0 <= i < |rows| ==> rows[i] == ListingOf(rows[i].userId, users[rows[i].userId])
    ensures forall k :: k in users && k != ownerId ==> exists i :: 0 <= i < |rows| && rows[i].userId == k
    ensures forall i, j :: 0 <= i < j < |rows| ==> Precedes(rows[i], rows[j])
  {
    var rest := users - {ownerId};
    ListingRowsAreStored(rest);
    ListingCoversTable(rest);
    ListingIsSorted(rest);
    assert forall k :: k in users && k != ownerId ==> k in rest;
    var rows := Listing(rest);
    forall i | 0 <= i < |rows|
      ensures rows[i].userId != ownerId && rows[i].userId in users
      ensures rows[i] == ListingOf(rows[i].userId, users[rows[i].userId])
    {
      assert StoredAt(rest, rows, i);
    }
    rows
  }

  function BlockedOf(row: UserListing): BlockedListing {
    BlockedListing(row.userId, row.username, row.firstName, row.lastName)
  }

  /** `get_blocked_users`: the non-owner users with `is_blocked = 1`, newest join date first. */
  function GetBlockedUsers(users: Users, ownerId: int): (rows: seq<BlockedListing>)
    ensures forall i :: 0 <= i < |rows| ==>
              rows[i].userId != ownerId && rows[i].userId in users && users[rows[i].userId].isBlocked == 1
    ensures forall i :: 0 <= i < |rows| ==> rows[i] == BlockedOf(ListingOf(rows[i].userId, users[rows[i].userId]))
    ensures forall k :: k in users && k != ownerId && users[k].isBlocked == 1 ==>
              exists i :: 0 <= i < |rows| && rows[i].userId == k
    ensures forall i, j :: 0 <= i < j < |rows| ==>
              rows[i].userId != rows[j].userId && users[rows[i].userId].joinDate >= users[rows[j].userId].joinDate
  {
    var blocked := BlockedTable(users, ownerId);
    BlockedListingFacts(users, ownerId);
    BlockedRows(Listing(blocked))
  }

  function BlockedTable(users: Users, ownerId: int): Users {
    map k | k in users && k != ownerId && users[k].isBlocked == 1 :: users[k]
  }

  function BlockedRows(all: seq<UserListing>): (rows: seq<BlockedListing>)
    ensures |rows| == |all| && forall i :: 0 <= i < |all| ==> rows[i] == BlockedOf(all[i])
  {
    seq(|all|, i requires 0 <= i < |all| => BlockedOf(all[i]))
  }

  lemma BlockedListingFacts(users: Users, ownerId: int)
    ensures var rows := BlockedRows(Listing(BlockedTable(users, ownerId)));
      && (forall i :: 0 <= i < |rows| ==>
            rows[i].userId != ownerId && rows[i].userId in users && users[rows[i].userId].isBlocked == 1)
      && (forall i :: 0 <= i < |rows| ==> rows[i] == BlockedOf(ListingOf(rows[i].userId, users[rows[i].userId])))
      && (forall k :: k in users && k != ownerId && users[k].isBlocked == 1 ==>
            exists i :: 0 <= i < |rows| && rows[i].userId == k)
      && (forall i, j :: 0 <= i < j < |rows| ==>
            rows[i].userId != rows[j].userId && users[rows[i].userId].joinDate >= users[rows[j].userId].joinDate)
  {
    var blocked := BlockedTable(users, ownerId);
    var all := Listing(blocked);
    var rows := BlockedRows(all);
    ListingRowsAreStored(blocked);
    ListingCoversTable(blocked);
    ListingIsSorted(blocked);
    forall i | 0 <= i < |rows|
      ensures rows[i].userId != ownerId && rows[i].userId in users && users[rows[i].userId].isBlocked == 1
      ensures rows[i] == BlockedOf(ListingOf(rows[i].userId, users[rows[i].userId]))
    {
      assert StoredAt(blocked, all, i);
    }
    forall k | k in users && k != ownerId && users[k].isBlocked == 1
      ensures exists i :: 0 <= i < |rows| && rows[i].userId == k
    {
      assert k in blocked;
      var i :| 0 <= i < |all| && all[i].userId == k;
      assert rows[i].userId == k;
    }
    forall i, j | 0 <= i < j < |rows|
      ensures rows[i].userId != rows[j].userId && users[rows[i].userId].joinDate >= users[rows[j].userId].joinDate
    {
      assert StoredAt(blocked, all, i) && StoredAt(blocked, all, j);
      assert Precedes(all[i], all[j]);
    }
  }

  // ---------------------------------------------------------------- counts

  function NonOwnerIds(users: Users, ownerId: int): set<int> {
    set k | k in users && k != ownerId
  }

  function IdsWithFlag(users: Users, ownerId: int, flag: int): set<int> {
    set k | k in users && k != ownerId && users[k].isBlocked == flag
  }

  /** `get_stats`: user counts exclude the owner; the message count does not. */
  function GetStats(users: Users, messages: seq<MessageRow>, ownerId: int): (s: Stats)
    ensures s.totalMessages == |messages|
    ensures s.totalUsers == |users| - (if ownerId in users then 1 else 0)
    ensures s.activeUsers <= s.totalUsers && s.blockedUsers <= s.totalUsers
  {
    assert NonOwnerIds(users, ownerId) == users.Keys - {ownerId};
    Sets.SubsetNoLarger(IdsWithFlag(users, ownerId, 0), NonOwnerIds(users, ownerId));
    Sets.SubsetNoLarger(IdsWithFlag(users, ownerId, 1), NonOwnerIds(users, ownerId));
    Stats(|NonOwnerIds(users, ownerId)|, |IdsWithFlag(users, ownerId, 0)|,
          |IdsWithFlag(users, ownerId, 1)|, |messages|)
  }

  /** While every flag is 0 or 1, active and blocked users add up to all non-owner users. */
  lemma StatsAddUp(users: Users, messages: seq<MessageRow>, ownerId: int)
    requires FlagsAreBinary(users)
    ensures GetStats(users, messages, ownerId).activeUsers + GetStats(users, messages, ownerId).blockedUsers
            == GetStats(users, messages, ownerId).totalUsers
  {
    var active, blocked := IdsWithFlag(users, ownerId, 0), IdsWithFlag(users, ownerId, 1);
    assert active * blocked == {};
    assert active + blocked == NonOwnerIds(users, ownerId);
  }

  /** The blocked count is the length of the block list. */
  lemma BlockedCountIsListed(users: Users, messages: seq<MessageRow>, ownerId: int)
    ensures GetStats(users, messages, ownerId).blockedUsers == |GetBlockedUsers(users, ownerId)|
  {
    var blocked := GetBlockedUsers(users, ownerId);
    var ids := seq(|blocked|, i requires 0 <= i < |blocked| => blocked[i].userId);
    Sets.DistinctCount(ids);
    assert (set k | k in ids) == IdsWithFlag(users, ownerId, 1) by {
      forall k | k in IdsWithFlag(users, ownerId, 1) ensures k in ids {
        var i :| 0 <= i < |blocked| && blocked[i].userId == k;
        assert ids[i] == k;
      }
    }
  }

  /** The user count is the length of the user list. */
  lemma UserCountIsListed(users: Users, messages: seq<MessageRow>, ownerId: int)
    ensures GetStats(users, messages, ownerId).totalUsers == |GetAllUsers(users, ownerId)|
  {
    var all := GetAllUsers(users, ownerId);
    var ids := seq(|all|, i requires 0 <= i < |all| => all[i].userId);
    forall i, j | 0 <= i < j < |ids| ensures ids[i] != ids[j] {
      assert Precedes(all[i], all[j]);
    }
    Sets.DistinctCount(ids);
    assert (set k | k in ids) == NonOwnerIds(users, ownerId) by {
      forall k | k in NonOwnerIds(users, ownerId) ensures k in ids {
        var i :| 0 <= i < |all| && all[i].userId == k;
        assert ids[i] == k;
      }
    }
  }

  /** The owner's own row is in no listing and no user count. */
  lemma OwnerNeverListed(users: Users, messages: seq<MessageRow>, ownerId: int)
    requires ownerId in users
    ensures forall i :: 0 <= i < |GetAllUsers(users, ownerId)| ==> GetAllUsers(users, ownerId)[i].userId != ownerId
    ensures GetStats(users, messages, ownerId).totalUsers == |users| - 1
  {
    assert NonOwnerIds(users, ownerId) == users.Keys - {ownerId};
  }

  // ---------------------------------------------------------------- the store

  class DatabaseManager {
    var users: Users
    var messages: seq<MessageRow>

    ghost predicate Valid()
      reads this
    {
      FlagsAreBinary(users)
    }

    constructor ()
      ensures Valid() && users == map[] && messages == []
    {
      users := map[];
      messages := [];
    }

    method AddUser(id: int, username: Option<string>, firstName: Option<string>, lastName: Option<string>,
                   now: int, fault: bool) returns (ok: bool)
      requires Valid()
      modifies this
      ensures Valid() && ok == !fault && messages == old(messages)
      ensures users == if fault then old(users) else Upsert(old(users), id, username, firstName, lastName, now)
    {
      if fault {
        return false;
      }
      WritesKeepFlagsBinary(users, id, username, firstName, lastName, now);
      users := Upsert(users, id, username, firstName, lastName, now);
      ok := true;
    }

    /** Succeeds (returns true) even when no row has this id. */
    method BlockUser(id: int, fault: bool) returns (ok: bool)
      requires Valid()
      modifies this
      ensures Valid() && ok == !fault && messages == old(messages)
      ensures users == if fault then old(users) else SetBlockFlag(old(users), id, 1)
    {
      if fault {
        return false;
      }
      users := SetBlockFlag(users, id, 1);
      ok := true;
    }

    method UnblockUser(id: int, fault: bool) returns (ok: bool)
      requires Valid()
      modifies this
      ensures Valid() && ok == !fault && messages == old(messages)
      ensures users == if fault then old(users) else SetBlockFlag(old(users), id, 0)
    {
      if fault {
        return false;
      }
      users := SetBlockFlag(users, id, 0);
      ok := true;
    }

    /** Appends one row to the message log; the users table is untouched. */
    method SaveMessage(userId: int, text: string, now: int, fault: bool) returns (ok: bool)
      requires Valid()
      modifies this
      ensures Valid() && ok == !fault && users == old(users)
      ensures messages == if fault then old(messages) else old(messages) + [MessageRow(userId, text, now)]
    {
      if fault {
        return false;
      }
      messages := messages + [MessageRow(userId, text, now)];
      ok := true;
    }
  }
}
