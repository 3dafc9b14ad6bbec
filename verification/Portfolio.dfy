/**
 Uploading and deleting portfolio items, as a protocol of concurrent calls over four shared things: the
 committed rows, the lock on a profile row, the locks on deleted item rows, and the upload directory.

 A call is a small program; between any two of its steps other calls may take theirs. The database runs
 at READ COMMITTED: a statement sees the rows committed so far. Any statement may fail, the server may
 abort a transaction at any time, and a process may die at any time. A commit that reports an error has
 not committed. A storage key is a fresh UUID and never comes twice.
 */
module Portfolio {
  const MAX_ITEMS := 12
  const MAX_BYTES := 5_242_880

  datatype Row = Row(owner: int, key: nat, size: nat)

  /** Where a call stands, with its local variables. */
  datatype Call =
    | AddStarted(user: int, size: nat)
    | AddLocked(user: int, size: nat)
    | AddCounted(user: int, size: nat)
    | AddOpened(user: int, size: nat, key: nat)
    | AddWritten(user: int, size: nat, key: nat)
    | AddInserted(user: int, size: nat, key: nat, item: nat)
    | AddAudited(user: int, size: nat, key: nat, item: nat)
    | AddFailing(user: int, key: nat) // the file is still to be removed
    | AddEnding(user: int) // only the deferred rollback is left
    | DelStarted(user: int, item: nat)
    | DelDeleted(user: int, item: nat, key: nat)
    | DelAudited(user: int, item: nat, key: nat)
    | DelCommitted(key: nat) // the stored file is still to be removed

  datatype World = World(
    rows: map<nat, Row>,
    files: map<nat, nat>, // storage key to length
    profileLocks: map<int, nat>, // user to the call that holds FOR UPDATE
    itemLocks: map<nat, nat>, // item to the call that deleted it and has not ended
    calls: map<nat, Call>,
    aborted: set<nat>, // calls whose transaction the server has aborted
    usedKeys: set<nat>,
    usedItems: set<nat>)

  const EMPTY := World(map[], map[], map[], map[], map[], {}, {}, {})

  datatype Action =
    | BeginAdd(call: nat, user: int, size: nat)
    | LockProfile(call: nat)
    | CountItems(call: nat)
    | OpenFile(call: nat, key: nat)
    | OpenFails(call: nat)
    | WriteAll(call: nat)
    | WriteFails(call: nat, written: nat)
    | InsertRow(call: nat, item: nat)
    | AuditAdd(call: nat)
    | CommitAdd(call: nat)
    | RemoveFile(call: nat, removed: bool)
    | EndAdd(call: nat)
    | BeginDelete(call: nat, user: int, item: nat)
    | DeleteRow(call: nat)
    | DeleteFindsNothing(call: nat)
    | AuditDelete(call: nat)
    | CommitDelete(call: nat)
    | RemoveStored(call: nat, removed: bool)
    | StatementFails(call: nat)
    | ServerAborts(call: nat)
    | Crash(call: nat)

  function ItemsIn(rows: map<nat, Row>, user: int): set<nat> {
    set i | i in rows && rows[i].owner == user
  }

  function ItemsOf(w: World, user: int): set<nat> {
    ItemsIn(w.rows, user)
  }

  function Without<K(==)>(locks: map<K, nat>, call: nat): map<K, nat> {
    map x | x in locks && locks[x] != call :: locks[x]
  }

  /** The call is over: its locks are gone, whatever it left on disk stays. */
  function Ended(w: World, call: nat): World {
    w.(profileLocks := Without(w.profileLocks, call), itemLocks := Without(w.itemLocks, call),
       calls := w.calls - {call}, aborted := w.aborted - {call})
  }

  function At(w: World, call: nat, next: Call): World {
    w.(calls := w.calls[call := next])
  }

  /** The transaction of the call can still run statements. */
  predicate Alive(w: World, call: nat) {
    call in w.calls && call !in w.aborted
  }

  predicate Enabled(w: World, a: Action) {
    match a
    case BeginAdd(c, user, size) => c !in w.calls && 1 <= size <= MAX_BYTES
    case LockProfile(c) => Alive(w, c) && w.calls[c].AddStarted? && w.calls[c].user !in w.profileLocks
    case CountItems(c) => Alive(w, c) && w.calls[c].AddLocked?
    case OpenFile(c, key) => c in w.calls && w.calls[c].AddCounted? && key !in w.usedKeys
    case OpenFails(c) => c in w.calls && w.calls[c].AddCounted?
    case WriteAll(c) => c in w.calls && w.calls[c].AddOpened?
    case WriteFails(c, written) => c in w.calls && w.calls[c].AddOpened? && written <= MAX_BYTES + 1
    case InsertRow(c, item) => Alive(w, c) && w.calls[c].AddWritten? && item !in w.usedItems
    case AuditAdd(c) => Alive(w, c) && w.calls[c].AddInserted?
    case CommitAdd(c) => Alive(w, c) && w.calls[c].AddAudited?
    case RemoveFile(c, removed) => c in w.calls && w.calls[c].AddFailing?
    case EndAdd(c) => c in w.calls && w.calls[c].AddEnding?
    case BeginDelete(c, user, item) => c !in w.calls
    case DeleteRow(c) =>
      && Alive(w, c) && w.calls[c].DelStarted?
      && w.calls[c].item in ItemsOf(w, w.calls[c].user) && w.calls[c].item !in w.itemLocks
    case DeleteFindsNothing(c) =>
      Alive(w, c) && w.calls[c].DelStarted? && w.calls[c].item !in ItemsOf(w, w.calls[c].user)
    case AuditDelete(c) => Alive(w, c) && w.calls[c].DelDeleted?
    case CommitDelete(c) => Alive(w, c) && w.calls[c].DelAudited?
    case RemoveStored(c, removed) => c in w.calls && w.calls[c].DelCommitted?
    case StatementFails(c) => c in w.calls && RunsStatements(w.calls[c])
    case ServerAborts(c) => c in w.calls && !w.calls[c].DelCommitted?
    case Crash(c) => c in w.calls
  }

  /** The next thing this call does is a statement, or the commit. */
  predicate RunsStatements(call: Call) {
    match call
    case AddStarted(_, _) => true
    case AddLocked(_, _) => true
    case AddWritten(_, _, _) => true
    case AddInserted(_, _, _, _) => true
    case AddAudited(_, _, _, _) => true
    case DelStarted(_, _) => true
    case DelDeleted(_, _, _) => true
    case DelAudited(_, _, _) => true
    case _ => false
  }

  function Do(w: World, a: Action): World
    requires Enabled(w, a)
  {
    match a
    case BeginAdd(c, user, size) =>
      At(w, c, AddStarted(user, size)).(aborted := w.aborted - {c})
    case LockProfile(c) =>
      var p := w.calls[c];
      At(w, c, AddLocked(p.user, p.size)).(profileLocks := w.profileLocks[p.user := c])
    case CountItems(c) =>
      var p := w.calls[c];
      if |ItemsOf(w, p.user)| >= MAX_ITEMS then At(w, c, AddEnding(p.user)) else At(w, c, AddCounted(p.user, p.size))
    case OpenFile(c, key) =>
      var p := w.calls[c];
      At(w, c, AddOpened(p.user, p.size, key)).(files := w.files[key := 0], usedKeys := w.usedKeys + {key})
    case OpenFails(c) => At(w, c, AddEnding(w.calls[c].user))
    case WriteAll(c) =>
      var p := w.calls[c];
      At(w, c, AddWritten(p.user, p.size, p.key)).(files := w.files[p.key := p.size])
    case WriteFails(c, written) =>
      var p := w.calls[c];
      At(w, c, AddFailing(p.user, p.key)).(files := w.files[p.key := written])
    case InsertRow(c, item) =>
      var p := w.calls[c];
      At(w, c, AddInserted(p.user, p.size, p.key, item)).(usedItems := w.usedItems + {item})
    case AuditAdd(c) =>
      var p := w.calls[c];
      At(w, c, AddAudited(p.user, p.size, p.key, p.item))
    case CommitAdd(c) =>
      var p := w.calls[c];
      Ended(w, c).(rows := w.rows[p.item := Row(p.user, p.key, p.size)])
    case RemoveFile(c, removed) =>
      var p := w.calls[c];
      At(w, c, AddEnding(p.user)).(files := if removed then w.files - {p.key} else w.files)
    case EndAdd(c) => Ended(w, c)
    case BeginDelete(c, user, item) =>
      At(w, c, DelStarted(user, item)).(aborted := w.aborted - {c})
    case DeleteRow(c) =>
      var p := w.calls[c];
      At(w, c, DelDeleted(p.user, p.item, w.rows[p.item].key)).(itemLocks := w.itemLocks[p.item := c])
    case DeleteFindsNothing(c) => Ended(w, c)
    case AuditDelete(c) =>
      var p := w.calls[c];
      At(w, c, DelAudited(p.user, p.item, p.key))
    case CommitDelete(c) =>
      var p := w.calls[c];
      At(w, c, DelCommitted(p.key)).(rows := w.rows - {p.item}, itemLocks := Without(w.itemLocks, c))
    case RemoveStored(c, removed) =>
      Ended(w, c).(files := if removed then w.files - {w.calls[c].key} else w.files)
    case StatementFails(c) =>
      var p := w.calls[c];
      if p.AddStarted? || p.AddLocked? then At(w, c, AddEnding(p.user))
      else if p.AddWritten? || p.AddInserted? || p.AddAudited? then At(w, c, AddFailing(p.user, p.key))
      else Ended(w, c)
    case ServerAborts(c) =>
      w.(profileLocks := Without(w.profileLocks, c), itemLocks := Without(w.itemLocks, c), aborted := w.aborted + {c})
    case Crash(c) => Ended(w, c)
  }

  /** A run: the worlds it goes through and the actions between them. */
  datatype History = History(worlds: seq<World>, actions: seq<Action>) {
    ghost predicate IsRun() {
      && |worlds| == |actions| + 1
      && worlds[0] == EMPTY
      && forall k :: 0 <= k < |actions| ==> Follows(k)
    }

    ghost predicate Follows(k: nat)
      requires |worlds| == |actions| + 1
      requires k < |actions|
    {
      Enabled(worlds[k], actions[k]) && worlds[k + 1] == Do(worlds[k], actions[k])
    }
  }
}
