/**
 * The user table of server/storage.ts. The database is an in-memory table:
 * a map from the serial `id` to the row, and the next value of the `id`
 * sequence. The pure step functions say what each operation does to a table
 * value; `DatabaseStorage` is the object whose methods perform the steps in
 * place and are proved against them.
 */
module Storage {
  import opened Wrappers
  import opened Schema

  const MillisPerDay := 86_400_000
  /** Length of the subscription a new account receives. */
  const SubscriptionDays := 30
  const SubscriptionPeriod := SubscriptionDays * MillisPerDay

  /** The contents of the `users` table and of its `id` sequence. */
  datatype Db = Db(users: map<nat, User>, nextId: nat)

  /** Each row sits under its own id, ids come from the sequence, and `username` is unique. */
  ghost predicate Wf(db: Db) {
    && 0 < db.nextId
    && (forall id :: id in db.users ==> db.users[id].id == id && 0 < id < db.nextId)
    && (forall a, b :: a in db.users && b in db.users && db.users[a].username == db.users[b].username ==> a == b)
  }

  predicate UsernameTaken(users: map<nat, User>, name: string) {
    exists id :: id in users && users[id].username == name
  }

  /**
   * The row `createUser` inserts: the payload's fields, role `'user'`, not
   * blocked, a subscription ending 30 days after `startClock` (the clock read
   * before the insert) and `createdAt` at `insertClock` (the clock read in the insert).
   */
  function NewUser(id: nat, input: InsertUser, startClock: int, insertClock: int): (u: User)
    ensures u.id == id && u.role == UserRole && u.role != AdminRole && !u.isBlocked
    ensures u.subscriptionEndDate - startClock == SubscriptionDays * MillisPerDay && u.createdAt == insertClock
    ensures u.username == input.username && u.password == input.password && u.fullName == input.fullName
  {
    User(id, input.username, input.password, input.fullName, UserRole, false,
         startClock + SubscriptionPeriod, insertClock)
  }

  /**
   * `createUser`: insert a new row. The unique constraint on `username` rejects
   * a taken name (no row is returned); the `id` sequence advances either way,
   * since a sequence value once drawn is not given back.
   */
  function CreateStep(db: Db, input: InsertUser, startClock: int, insertClock: int): (r: (Option<User>, Db))
    ensures r.1.nextId == db.nextId + 1
    ensures r.0.None? <==> UsernameTaken(db.users, input.username)
    ensures r.0.None? ==> r.1.users == db.users
    ensures r.0.Some? ==> r.1.users == db.users[db.nextId := r.0.value]
    ensures r.0.Some? ==> r.0.value.id == db.nextId && r.0.value.role == UserRole && !r.0.value.isBlocked
    ensures r.0.Some? ==> r.0.value.subscriptionEndDate == startClock + SubscriptionPeriod
    ensures r.0.Some? ==> r.0.value.createdAt == insertClock
    ensures r.0.Some? ==> r.0.value.username == input.username && r.0.value.password == input.password
    ensures r.0.Some? ==> r.0.value.fullName == input.fullName
  {
    if UsernameTaken(db.users, input.username) then (None, Db(db.users, db.nextId + 1))
    else
      var u := NewUser(db.nextId, input, startClock, insertClock);
      (Some(u), Db(db.users[db.nextId := u], db.nextId + 1))
  }

  /**
   * `updateUserBlockStatus`: set `isBlocked` on the row with that id and
   * return it; with no such row nothing changes and nothing is returned.
   */
  function SetBlockedStep(db: Db, id: nat, isBlocked: bool): (r: (Option<User>, Db))
    ensures r.1.nextId == db.nextId && r.1.users.Keys == db.users.Keys
    ensures r.0.Some? <==> id in db.users
    ensures r.0.Some? ==> r.0.value == db.users[id].(isBlocked := isBlocked) && r.1.users[id] == r.0.value
    ensures forall k :: k in db.users && k != id ==> r.1.users[k] == db.users[k]
  {
    if id in db.users then
      var u := db.users[id].(isBlocked := isBlocked);
      (Some(u), Db(db.users[id := u], db.nextId))
    else (None, db)
  }

  /** `getUser`: the row with that id, if any; in a well-formed table it carries that id. */
  function Lookup(db: Db, id: nat): (r: Option<User>)
    ensures r.Some? <==> id in db.users
    ensures r.Some? ==> r.value == db.users[id]
    ensures Wf(db) && r.Some? ==> r.value.id == id
  {
    if id in db.users then Some(db.users[id]) else None
  }

  lemma CreatePreservesWf(db: Db, input: InsertUser, startClock: int, insertClock: int)
    requires Wf(db)
    ensures Wf(CreateStep(db, input, startClock, insertClock).1)
  {
  }

  lemma SetBlockedPreservesWf(db: Db, id: nat, isBlocked: bool)
    requires Wf(db)
    ensures Wf(SetBlockedStep(db, id, isBlocked).1)
  {
  }

  // ---------------------------------------------------------------------
  // Histories: the storage interface offers no other user mutation

  datatype Op = Create(input: InsertUser, startClock: int, insertClock: int) | SetBlocked(id: nat, isBlocked: bool)

  function Apply(db: Db, op: Op): Db {
    match op
    case Create(input, s, t) => CreateStep(db, input, s, t).1
    case SetBlocked(id, b) => SetBlockedStep(db, id, b).1
  }

  /** The table after a history of operations, applied in order. */
  function Run(db: Db, ops: seq<Op>): Db
    decreases |ops|
  {
    if ops == [] then db else Run(Apply(db, ops[0]), ops[1..])
  }

  /**
   * `after` keeps every row of `before` under the same id, with the same
   * username, password, full name, role, subscription end and creation time:
   * only `isBlocked` can differ.
   */
  ghost predicate OnlyBlockFlagChanged(before: Db, after: Db) {
    forall id :: id in before.users ==>
      id in after.users && after.users[id] == before.users[id].(isBlocked := after.users[id].isBlocked)
  }

  /** Every history keeps the table well formed (in particular usernames unique). */
  lemma {:induction false} RunPreservesWf(db: Db, ops: seq<Op>)
    requires Wf(db)
    ensures Wf(Run(db, ops))
    decreases |ops|
  {
    if ops != [] {
      match ops[0] {
        case Create(input, s, t) => CreatePreservesWf(db, input, s, t);
        case SetBlocked(id, b) => SetBlockedPreservesWf(db, id, b);
      }
      RunPreservesWf(Apply(db, ops[0]), ops[1..]);
    }
  }

  /** No history changes a stored user's role or subscription end: only the block flag ever moves. */
  lemma {:induction false} RunChangesOnlyBlockFlag(db: Db, ops: seq<Op>)
    requires Wf(db)
    ensures OnlyBlockFlagChanged(db, Run(db, ops))
    decreases |ops|
  {
    if ops != [] {
      var next := Apply(db, ops[0]);
      assert OnlyBlockFlagChanged(db, next) by {
        match ops[0]
        case Create(input, s, t) => {}
        case SetBlocked(id, b) => {}
      }
      RunPreservesWf(db, [ops[0]]);
      assert Run(db, [ops[0]]) == next;
      RunChangesOnlyBlockFlag(next, ops[1..]);
    }
  }

  // ---------------------------------------------------------------------
  // The storage object

  class DatabaseStorage {
    var users: map<nat, User>
    var nextId: nat

    function State(): Db
      reads this
    {
      Db(users, nextId)
    }

    ghost predicate Valid()
      reads this
    {
      Wf(State())
    }

    /**
     * A storage attached to the database as it stands: `db0` is the table's
     * rows and the next value of its id sequence, whatever they already are.
     */
    constructor (db0: Db)
      requires Wf(db0)
      ensures Valid() && State() == db0
    {
      users := db0.users;
      nextId := db0.nextId;
    }

    method GetUser(id: nat) returns (u: Option<User>)
      requires Valid()
      ensures u == Lookup(State(), id)
      ensures u.Some? <==> id in users
      ensures u.Some? ==> u.value.id == id && u.value == users[id]
    {
      if id in users {
        u := Some(users[id]);
      } else {
        u := None;
      }
    }

    /** `getUserByUsername`: a search of the table for the one row with that name. */
    method GetUserByUsername(name: string) returns (u: Option<User>)
      requires Valid()
      ensures u.Some? <==> UsernameTaken(users, name)
      ensures u.Some? ==> u.value.username == name && u.value.id in users && users[u.value.id] == u.value
    {
      u := None;
      var todo := users.Keys;
      while todo != {}
        invariant todo <= users.Keys
        invariant u.None? ==> forall id :: id in users && id !in todo ==> users[id].username != name
        invariant u.Some? ==> u.value.username == name && u.value.id in users && users[u.value.id] == u.value
        decreases |todo|
      {
        var id :| id in todo;
        if users[id].username == name {
          u := Some(users[id]);
        }
        todo := todo - {id};
      }
    }

    method CreateUser(input: InsertUser, startClock: int, insertClock: int) returns (u: Option<User>)
      requires Valid()
      modifies this
      ensures Valid()
      ensures (u, State()) == CreateStep(old(State()), input, startClock, insertClock)
    {
      var id := nextId;
      nextId := nextId + 1;
      if exists k :: k in users && users[k].username == input.username {
        u := None;
      } else {
        var row := NewUser(id, input, startClock, insertClock);
        users := users[id := row];
        u := Some(row);
      }
      CreatePreservesWf(old(State()), input, startClock, insertClock);
    }

    method UpdateUserBlockStatus(id: nat, isBlocked: bool) returns (u: Option<User>)
      requires Valid()
      modifies this
      ensures Valid()
      ensures (u, State()) == SetBlockedStep(old(State()), id, isBlocked)
    {
      if id in users {
        var row := users[id].(isBlocked := isBlocked);
        users := users[id := row];
        u := Some(row);
      } else {
        u := None;
      }
      SetBlockedPreservesWf(old(State()), id, isBlocked);
    }

    /** `getAllUsers`: every row exactly once, in no particular order. */
    method GetAllUsers() returns (all: seq<User>)
      requires Valid()
      ensures |all| == |users|
      ensures forall u :: u in all <==> u in users.Values
      ensures forall i, j :: 0 <= i < j < |all| ==> all[i].id != all[j].id
    {
      all := [];
      var todo := users.Keys;
      while todo != {}
        invariant todo <= users.Keys
        invariant |all| + |todo| == |users|
        invariant forall i :: 0 <= i < |all| ==> all[i].id in users && users[all[i].id] == all[i] && all[i].id !in todo
        invariant forall i, j :: 0 <= i < j < |all| ==> all[i].id != all[j].id
        invariant forall id :: id in users && id !in todo ==> users[id] in all
        decreases |todo|
      {
        var id :| id in todo;
        all := all + [users[id]];
        todo := todo - {id};
      }
    }
  }
}
