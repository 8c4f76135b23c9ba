// The bot's two tables, `groups` and `verified_users`, as maps keyed by their
// unique columns (`chat_id` and `user_id`), with the operations the bot runs
// on them. A database error is an input: where the source catches it the
// operation reports failure and the tables are as before.
module GroupStore {
  import opened Text
  import opened Values

  /** The descriptive columns of a group, as the caller gives them. */
  datatype GroupInfo = GroupInfo(title: Option<string>, kind: string, username: Option<string>,
                                 description: Option<string>, memberCount: Option<int>)

  /** A `groups` row (its surrogate `id` aside). Times are instants on one
      clock. */
  datatype Group = Group(info: GroupInfo, active: bool, joinDate: int, leaveDate: Option<int>)

  /** A `verified_users` row (its surrogate `id` aside). */
  datatype VerifiedUser = VerifiedUser(groupId: string, code: string, verifiedAt: int, active: bool)

  // ---------------------------------------------------------------------
  // The groups table

  /** `insert_or_update_group`: an existing row is overwritten, reactivated,
      given the current time as join date and cleared of its leave date; a
      new row is active with no leave date, and its join date is the column
      default, which is evaluated once, when the module is loaded. */
  function Upserted(groups: map<string, Group>, key: string, info: GroupInfo, now: int, loadTime: int): map<string, Group> {
    if key in groups then groups[key := Group(info, true, now, None)]
    else groups[key := Group(info, true, loadTime, None)]
  }

  /** `deactivate_group`: the matching row, if any, becomes inactive with
      the current time as leave date. */
  function Deactivated(groups: map<string, Group>, key: string, now: int): map<string, Group> {
    if key in groups then groups[key := groups[key].(active := false, leaveDate := Some(now))]
    else groups
  }

  /** `get_active_groups`: the chat ids of the active rows. */
  function ActiveIds(groups: map<string, Group>): set<string> {
    set k | k in groups && groups[k].active
  }

  /** Every row written by these operations is active exactly when it has
      no leave date. */
  predicate GroupsValid(groups: map<string, Group>) {
    forall k :: k in groups ==> (groups[k].active <==> groups[k].leaveDate.None?)
  }

  /** After an upsert the group is active and described by the new
      columns; no other row changes, and the table keeps one row per chat
      id. */
  lemma {:induction false} UpsertActivates(groups: map<string, Group>, key: string, info: GroupInfo, now: int, loadTime: int)
    ensures var g := Upserted(groups, key, info, now, loadTime);
      && g.Keys == groups.Keys + {key}
      && g[key].info == info && g[key].active && g[key].leaveDate.None?
      && (key in groups ==> g[key].joinDate == now)
      && (key !in groups ==> g[key].joinDate == loadTime)
      && ActiveIds(g) == ActiveIds(groups) + {key}
      && forall k :: k in groups && k != key ==> g[k] == groups[k]
  {
    var g := Upserted(groups, key, info, now, loadTime);
    assert forall k :: k in ActiveIds(g) <==> k in ActiveIds(groups) + {key};
  }

  /** After a deactivation the group, if present, is inactive and has a
      leave date; nothing else changes, and an unknown chat id changes
      nothing at all. */
  lemma {:induction false} DeactivateRemoves(groups: map<string, Group>, key: string, now: int)
    ensures var g := Deactivated(groups, key, now);
      && g.Keys == groups.Keys
      && ActiveIds(g) == ActiveIds(groups) - {key}
      && (key in groups ==> g[key] == groups[key].(active := false, leaveDate := Some(now)))
      && (forall k :: k in groups && k != key ==> g[k] == groups[k])
      && (key !in groups ==> g == groups)
  {
    var g := Deactivated(groups, key, now);
    assert forall k :: k in ActiveIds(g) <==> k in ActiveIds(groups) - {key};
  }

  /** Both writes keep every row's activity and leave date in step. */
  lemma {:induction false} WritesKeepValid(groups: map<string, Group>, key: string, info: GroupInfo, now: int, loadTime: int)
    requires GroupsValid(groups)
    ensures GroupsValid(Upserted(groups, key, info, now, loadTime))
    ensures GroupsValid(Deactivated(groups, key, now))
  {
  }

  /** Deactivating and then re-adding a group makes it active again with
      the new description and the re-add time as join date. */
  lemma {:induction false} RejoinReactivates(groups: map<string, Group>, key: string, info: GroupInfo, left: int, now: int, loadTime: int)
    requires key in groups
    ensures Upserted(Deactivated(groups, key, left), key, info, now, loadTime)[key] == Group(info, true, now, None)
    ensures key in ActiveIds(Upserted(Deactivated(groups, key, left), key, info, now, loadTime))
  {
  }

  // ---------------------------------------------------------------------
  // The verified-users table

  /** `add_verified_user`: an existing row takes the new group, code and
      time and is reactivated; otherwise an active row is inserted. */
  function AddedUser(users: map<string, VerifiedUser>, userId: string, groupId: string, code: string, now: int): map<string, VerifiedUser> {
    users[userId := VerifiedUser(groupId, code, now, true)]
  }

  /** The users whose active row has this group and code. */
  function Holders(users: map<string, VerifiedUser>, groupId: string, code: string): set<string> {
    set u | u in users && users[u].active && users[u].groupId == groupId && users[u].code == code
  }

  /** The two answers of `is_user_verified`. */
  datatype Verdict = Warning | NotVerified

  /** The string the source returns for each answer. */
  function VerdictText(v: Verdict): string {
    if v.Warning? then "warning" else "not_verified"
  }

  /** `is_user_verified`: "warning" when exactly one active row has the
      group and code and its `user_id` differs from the caller's, compared
      as Python values (the column holds text, so a caller given as a
      number never equals it); "not_verified" otherwise, including when
      several rows match, which makes `scalar_one_or_none` raise. */
  function Status(users: map<string, VerifiedUser>, caller: Value, groupId: string, code: string): Verdict {
    var holders := Holders(users, groupId, code);
    if |holders| == 1 && !(caller.VStr? && caller.s in holders) then Warning else NotVerified
  }

  /** Only two answers exist: neither "verified" nor "reverified" is ever
      produced. */
  lemma {:induction false} StatusTwoOutcomes(users: map<string, VerifiedUser>, caller: Value, groupId: string, code: string)
    ensures VerdictText(Status(users, caller, groupId, code)) in {"warning", "not_verified"}
    ensures VerdictText(Status(users, caller, groupId, code)) != "verified"
    ensures VerdictText(Status(users, caller, groupId, code)) != "reverified"
  {
  }

  /** The user who holds the code is not warned, and nobody is warned when
      nobody holds it. */
  lemma {:induction false} HolderNotWarned(users: map<string, VerifiedUser>, userId: string, groupId: string, code: string)
    requires (userId in users && users[userId].active && users[userId].groupId == groupId && users[userId].code == code)
      || Holders(users, groupId, code) == {}
    ensures Status(users, VStr(userId), groupId, code) == NotVerified
  {
    if userId in users && users[userId].active && users[userId].groupId == groupId && users[userId].code == code {
      assert userId in Holders(users, groupId, code);
    }
  }

  /** Once a user has verified with a code that nobody else holds, anyone
      else presenting the same code in the same group is warned. */
  lemma {:induction false} OthersWarnedAfterAdd(users: map<string, VerifiedUser>, userId: string, other: string, groupId: string, code: string, now: int)
    requires other != userId
    requires forall u :: u in users && u != userId ==> !(users[u].active && users[u].groupId == groupId && users[u].code == code)
    ensures Holders(AddedUser(users, userId, groupId, code, now), groupId, code) == {userId}
    ensures Status(AddedUser(users, userId, groupId, code, now), VStr(other), groupId, code) == Warning
    ensures Status(AddedUser(users, userId, groupId, code, now), VStr(userId), groupId, code) == NotVerified
  {
    var added := AddedUser(users, userId, groupId, code, now);
    assert forall u :: u in Holders(added, groupId, code) <==> u == userId;
  }

  /** A caller id given as a number is never the holder: the sole holder
      of a code is warned about its own code. */
  lemma {:induction false} NumericCallerWarned(users: map<string, VerifiedUser>, caller: int, groupId: string, code: string)
    requires Holders(users, groupId, code) == {IntToString(caller)}
    ensures Status(users, VInt(caller), groupId, code) == Warning
    ensures Status(users, VStr(IntToString(caller)), groupId, code) == NotVerified
  {
  }

  /** Two active holders of one code make the lookup raise, so even a third
      user is not warned. */
  lemma {:induction false} DuplicateHoldersNotWarned(users: map<string, VerifiedUser>, a: string, b: string, caller: Value, groupId: string, code: string)
    requires a != b && a in Holders(users, groupId, code) && b in Holders(users, groupId, code)
    ensures Status(users, caller, groupId, code) == NotVerified
  {
    var holders := Holders(users, groupId, code);
    var rest := holders - {a};
    assert b in rest;
    assert |rest| == |holders| - 1;
  }

  /** What `get_verified_user` was written to answer: the user has an
      active row for that group. */
  function VerifiedIn(users: map<string, VerifiedUser>, userId: string, groupId: string): bool {
    userId in users && users[userId].active && users[userId].groupId == groupId
  }

  /** A user just added is verified in its group, and in no other. */
  lemma {:induction false} AddedUserVerified(users: map<string, VerifiedUser>, userId: string, groupId: string, code: string, now: int, elsewhere: string)
    requires elsewhere != groupId
    ensures VerifiedIn(AddedUser(users, userId, groupId, code, now), userId, groupId)
    ensures !VerifiedIn(AddedUser(users, userId, groupId, code, now), userId, elsewhere)
  {
  }

  // ---------------------------------------------------------------------
  // The store

  class Store {
    var groups: map<string, Group>
    var users: map<string, VerifiedUser>
    /** When the module was loaded: the join date of every new group. */
    const loadTime: int

    predicate Valid()
      reads this
    {
      GroupsValid(groups)
    }

    constructor(loadTime: int)
      ensures Valid()
      ensures groups == map[] && users == map[] && this.loadTime == loadTime
    {
      groups := map[];
      users := map[];
      this.loadTime := loadTime;
    }

    /** `insert_or_update_group(chat_id, ...)`, keyed by `str(chat_id)`;
        True on success, False after a database error, which rolls back. */
    method InsertOrUpdateGroup(chatId: Value, info: GroupInfo, now: int, dbError: bool) returns (ok: bool)
      requires Valid()
      modifies this
      ensures Valid()
      ensures ok == !dbError
      ensures groups == if dbError then old(groups) else Upserted(old(groups), Str(chatId), info, now, loadTime)
      ensures users == old(users)
    {
      if dbError {
        return false;
      }
      var key := Str(chatId);
      WritesKeepValid(groups, key, info, now, loadTime);
      if key in groups {
        groups := groups[key := Group(info, true, now, None)];
      } else {
        groups := groups[key := Group(info, true, loadTime, None)];
      }
      return true;
    }

    /** `deactivate_group(chat_id)`: True whether or not a row matched,
        False after a database error. */
    method DeactivateGroup(chatId: Value, now: int, dbError: bool) returns (ok: bool)
      requires Valid()
      modifies this
      ensures Valid()
      ensures ok == !dbError
      ensures groups == if dbError then old(groups) else Deactivated(old(groups), Str(chatId), now)
      ensures users == old(users)
    {
      if dbError {
        return false;
      }
      var key := Str(chatId);
      WritesKeepValid(groups, key, GroupInfo(None, "", None, None, None), now, loadTime);
      if key in groups {
        groups := groups[key := groups[key].(active := false, leaveDate := Some(now))];
      }
      return true;
    }

    /** `get_active_groups()`: the active chat ids (in no particular order),
        none after a database error. The table invariant means no group
        returned has been left. */
    method GetActiveGroups(dbError: bool) returns (ids: set<string>)
      requires Valid()
      ensures ids == if dbError then {} else ActiveIds(groups)
      ensures forall k :: k in ids ==> k in groups && groups[k].leaveDate.None?
    {
      if dbError {
        return {};
      }
      ids := set k | k in groups && groups[k].active;
    }

    /** `add_verified_user`: True for a new user, False for an existing
        one; None where the database raised, which propagates after the
        rollback. */
    method AddVerifiedUser(userId: string, groupId: string, code: string, now: int, dbError: bool)
      returns (inserted: Option<bool>)
      modifies this
      ensures inserted == if dbError then None else Some(userId !in old(users))
      ensures users == if dbError then old(users) else AddedUser(old(users), userId, groupId, code, now)
      ensures groups == old(groups)
    {
      if dbError {
        return None;
      }
      if userId in users {
        users := users[userId := VerifiedUser(groupId, code, now, true)];
        return Some(false);
      }
      users := users[userId := VerifiedUser(groupId, code, now, true)];
      return Some(true);
    }

    /** `is_user_verified`: "not_verified" after a database error too. */
    method IsUserVerified(caller: Value, groupId: string, code: string, dbError: bool) returns (status: Verdict)
      ensures status == if dbError then NotVerified else Status(users, caller, groupId, code)
      ensures status == Warning <==>
        !dbError && |Holders(users, groupId, code)| == 1 && !(caller.VStr? && caller.s in Holders(users, groupId, code))
    {
      if dbError {
        return NotVerified;
      }
      var holders := set u | u in users && users[u].active && users[u].groupId == groupId && users[u].code == code;
      if |holders| == 1 && !(caller.VStr? && caller.s in holders) {
        return Warning;
      }
      return NotVerified;
    }

    /** `get_verified_user` as written: the query names a column the
        model class does not have, the AttributeError is caught, and the
        answer is always False. */
    method GetVerifiedUser(userId: string, infoGroupId: string) returns (found: bool)
      ensures !found
    {
      found := false;
    }

    /** `get_verified_user` as its docstring describes it, reading the
        group column the table has. */
    method GetVerifiedUserIntended(userId: string, groupId: string, dbError: bool) returns (found: bool)
      ensures found == (!dbError && VerifiedIn(users, userId, groupId))
    {
      if dbError {
        return false;
      }
      found := userId in users && users[userId].active && users[userId].groupId == groupId;
    }
  }
}
