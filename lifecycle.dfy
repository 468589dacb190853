/**
 * How the user table and the gates work together over an account's life:
 * a new account passes the access gate for its 30-day window, blocking it
 * takes effect on the next request, and no sequence of storage operations
 * can extend an expired subscription.
 */
module Lifecycle {
  import opened Wrappers
  import opened Schema
  import opened Storage
  import opened Gates

  /** A new account passes at +29 days and at the end instant, is expired one millisecond later, and is never an administrator. */
  lemma NewAccountWindow(db: Db, input: InsertUser, startClock: int, insertClock: int)
    requires Wf(db) && !UsernameTaken(db.users, input.username)
    ensures var u := CreateStep(db, input, startClock, insertClock).0;
      && u.Some?
      && CheckAccess(u, startClock + 29 * MillisPerDay) == Next
      && CheckAccess(u, startClock + SubscriptionPeriod) == Next
      && CheckAccess(u, startClock + SubscriptionPeriod + 1) == Expired
      && RequireAdmin(u) == Forbidden
  {
  }

  /**
   * With the stored row as the request's user (the session's user is
   * re-read from storage on each request), blocking an account refuses its
   * next request even within its subscription, and unblocking restores
   * access.
   */
  lemma BlockTakesEffect(db: Db, input: InsertUser, startClock: int, insertClock: int, now: int)
    requires Wf(db) && !UsernameTaken(db.users, input.username)
    requires now <= startClock + SubscriptionPeriod
    ensures var (u, db1) := CreateStep(db, input, startClock, insertClock);
      && u.Some?
      && CheckAccess(Lookup(db1, u.value.id), now) == Next
      && var db2 := SetBlockedStep(db1, u.value.id, true).1;
      && CheckAccess(Lookup(db2, u.value.id), now) == Blocked
      && CheckAccess(Lookup(SetBlockedStep(db2, u.value.id, false).1, u.value.id), now) == Next
  {
  }

  /** The server does not stop an administrator from being blocked, and a blocked administrator still passes both gates. */
  lemma BlockedAdminStillPasses(db: Db, id: nat, now: int)
    requires id in db.users && IsAdmin(db.users[id])
    ensures var (u, db1) := SetBlockedStep(db, id, true);
      && u.Some? && u.value.isBlocked
      && CheckAccess(Lookup(db1, id), now) == Next
      && RequireAdmin(Lookup(db1, id)) == Next
  {
  }

  /**
   * Once a non-administrator's subscription has ended, no history of storage
   * operations brings the account back: role and end date never change.
   */
  lemma ExpiryIsPermanent(db: Db, ops: seq<Op>, id: nat, now: int)
    requires Wf(db) && id in db.users
    requires !IsAdmin(db.users[id]) && now > db.users[id].subscriptionEndDate
    ensures CheckAccess(Lookup(Run(db, ops), id), now) != Next
  {
    RunChangesOnlyBlockFlag(db, ops);
  }

  /**
   * The same story told with the storage object over an existing table:
   * a new account under a free username has access, the administrator
   * blocks it, and the same request is refused.
   */
  method BlockScenario(db0: Db, input: InsertUser, startClock: int, insertClock: int) returns (before: Decision, after: Decision)
    requires Wf(db0) && !UsernameTaken(db0.users, input.username)
    ensures before == Next && after == Blocked
  {
    var store := new DatabaseStorage(db0);
    var created := store.CreateUser(input, startClock, insertClock);
    assert created.Some?;
    var id := created.value.id;
    var u := store.GetUser(id);
    before := CheckAccess(u, startClock + 29 * MillisPerDay);
    var updated := store.UpdateUserBlockStatus(id, true);
    u := store.GetUser(id);
    after := CheckAccess(u, startClock + 29 * MillisPerDay);
  }
}
