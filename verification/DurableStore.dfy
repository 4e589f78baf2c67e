/** The durable file system as the transaction manager uses it: one method for
    each primitive, every one of them a place where the process may die. */
module DurableStore {
  import opened Options
  import opened Plans
  import opened Recovery
  import opened Layouts
  import opened Traces

  datatype Status = Done | Dead | Threw

  /** What one process is left with after a driver has run. */
  datatype Reason = StateCorrupt | RevisionConflict | LeaseConflict | RecoveryRequired | InternalFailure

  datatype Outcome =
    | Receipt(phase: Phase, directorySync: Sync)
    | Died
    | Refused(reason: Reason)

  /** A progress document in memory may know of a later directory sync than the
      one on disk. */
  predicate SameButSync(p: Progress, q: Progress) {
    p == q.(directorySync := p.directorySync)
  }

  /** The document in memory knows of every failed sync that the one on disk tells of. */
  predicate Remembers(onDisk: Progress, p: Progress) {
    !p.directorySync.NotAttempted? && (onDisk.directorySync.Unsupported? ==> p.directorySync.Unsupported?)
  }

  /** What replacing the progress document means: a record, or only a later
      directory sync in the same record. */
  predicate Marks(before: Option<Progress>, p: Progress, m: Moment) {
    m == Recorded(p.phase) || (m == Resynced && before.Some? && SameButSync(before.value, p))
  }

  /** A step of `cost` durable changes: with that many lives a process survives it
      and has that many fewer afterwards, and with fewer it dies. */
  predicate Spent(before: nat, after: nat, cost: nat, alive: bool) {
    if alive then before == after + cost else before < cost && after == 0
  }

  /** A step of at most `cost` durable changes. */
  predicate Paid(before: nat, after: nat, cost: nat, alive: bool) {
    before <= after + cost && (!alive ==> after == 0 && before < cost)
  }

  /** What is carried on about directory syncs: "unsupported" if it was so before, or if
      one was answered so since, of which there were `was` and are `now`. */
  predicate Synced(before: Sync, after: Sync, was: nat, now: nat) {
    was <= now && after == if before.Unsupported? || was < now then Unsupported else Supported
  }

  /** `budget` is how many durable changes the current process lives to make, so
      an arbitrary budget is a crash at an arbitrary point. Unless `quiet`, other
      writers may change every destination between any two calls. `unsupported` counts
      the directory syncs that were answered so. */
  class Store {
    var disk: Disk
    var budget: nat
    const quiet: bool
    ghost var trace: seq<Moment>
    ghost var base: Tree
    ghost var landed: nat
    ghost var unsupported: nat

    constructor (disk: Disk, quiet: bool)
      ensures this.disk == disk && this.quiet == quiet && trace == [] && base == disk.tree && landed == 0 && unsupported == 0
    {
      this.disk := disk;
      this.quiet := quiet;
      budget := 0;
      trace := [];
      base := disk.tree;
      landed := 0;
      unsupported := 0;
    }

    /** Other writers act. */
    method Interfere()
      modifies this`disk
      ensures disk.transactions == old(disk.transactions)
      ensures quiet ==> disk == old(disk)
    {
      if !quiet {
        var tree: Tree := *;
        disk := disk.(tree := tree);
      }
    }

    method Look(path: Path) returns (found: Fingerprint)
      modifies this`disk, this`trace
      ensures disk.transactions == old(disk.transactions)
      ensures quiet ==> disk == old(disk)
      ensures found == At(disk.tree, path)
      ensures trace == old(trace) + [Looked(path, found)]
    {
      Interfere();
      found := At(disk.tree, path);
      trace := trace + [Looked(path, found)];
    }

    /** `syncDirectory`, which some hosts answer with "unsupported". */
    method SyncDirectory() returns (observed: Sync)
      modifies this`unsupported
      ensures observed.Supported? || observed.Unsupported?
      ensures unsupported == old(unsupported) + if observed.Unsupported? then 1 else 0
    {
      var supported: bool := *;
      if supported {
        return Supported;
      }
      unsupported := unsupported + 1;
      observed := Unsupported;
    }

    /** One durable change inside `.brain/transactions`, which only the
        transaction manager writes. */
    method Change(transactions: map<TxId, TxDir>) returns (alive: bool)
      modifies this`disk, this`budget
      ensures disk == if alive then old(disk).(transactions := transactions) else old(disk)
      ensures Spent(old(budget), budget, 1, alive)
    {
      if budget == 0 {
        return false;
      }
      budget := budget - 1;
      disk := disk.(transactions := transactions);
      alive := true;
    }

    method CreateRoot(id: TxId) returns (alive: bool)
      requires id !in disk.transactions
      modifies this`disk, this`budget
      ensures alive ==> OnlyTouches(old(disk), disk, id) && disk.transactions[id] == TxDir(None, None, None, None)
      ensures !alive ==> disk == old(disk)
      ensures Spent(old(budget), budget, 1, alive)
    {
      alive := Change(disk.transactions[id := TxDir(None, None, None, None)]);
    }

    method RemoveRoot(id: TxId) returns (alive: bool)
      requires id in disk.transactions && disk.transactions[id] == TxDir(None, None, None, None)
      modifies this`disk, this`budget
      ensures disk == if alive then old(disk).(transactions := old(disk).transactions - {id}) else old(disk)
      ensures Spent(old(budget), budget, 1, alive)
    {
      alive := Change(disk.transactions - {id});
    }

    /** `removeFile` of `progress.next`. */
    method RemoveNext(id: TxId) returns (alive: bool)
      requires id in disk.transactions && disk.transactions[id].next.Some?
      modifies this`disk, this`budget
      ensures OnlyTouches(old(disk), disk, id)
      ensures disk.transactions[id] == if alive then old(disk).transactions[id].(next := None) else old(disk).transactions[id]
      ensures Spent(old(budget), budget, 1, alive)
    {
      alive := Change(disk.transactions[id := disk.transactions[id].(next := None)]);
    }

    /** `writeSynced` of `progress.next`: torn first, whole afterwards. */
    method WriteNext(id: TxId, p: Progress) returns (alive: bool)
      requires id in disk.transactions && disk.transactions[id].next.None?
      modifies this`disk, this`budget
      ensures OnlyTouches(old(disk), disk, id)
      ensures alive ==> disk.transactions[id] == old(disk).transactions[id].(next := Some(Whole(p)))
      ensures !alive ==> disk.transactions[id] == old(disk).transactions[id].(next := disk.transactions[id].next)
      ensures Spent(old(budget), budget, 2, alive)
    {
      var d := disk.transactions[id];
      alive := Change(disk.transactions[id := d.(next := Some(Torn))]);
      if !alive {
        return;
      }
      alive := Change(disk.transactions[id := d.(next := Some(Whole(p)))]);
    }

    /** `replaceFile(progress.next, progress.json)`. */
    method ReplaceProgress(id: TxId, p: Progress, ghost m: Moment) returns (alive: bool)
      requires id in disk.transactions && disk.transactions[id].next == Some(Whole(p))
      requires Marks(disk.transactions[id].progress, p, m)
      modifies this`disk, this`budget, this`trace
      ensures OnlyTouches(old(disk), disk, id)
      ensures disk.transactions[id] == if alive then old(disk).transactions[id].(progress := Some(p), next := None) else old(disk).transactions[id]
      ensures trace == if alive then old(trace) + [m] else old(trace)
      ensures Spent(old(budget), budget, 1, alive)
    {
      alive := Change(disk.transactions[id := disk.transactions[id].(progress := Some(p), next := None)]);
      if alive {
        trace := trace + [m];
      }
    }

    method CreateStaging(id: TxId) returns (alive: bool)
      requires id in disk.transactions && disk.transactions[id].staging.None?
      modifies this`disk, this`budget
      ensures OnlyTouches(old(disk), disk, id)
      ensures disk.transactions[id] == if alive then old(disk).transactions[id].(staging := Some(map[])) else old(disk).transactions[id]
      ensures Spent(old(budget), budget, 1, alive)
    {
      alive := Change(disk.transactions[id := disk.transactions[id].(staging := Some(map[]))]);
    }

    /** `writeSynced` of one payload. */
    method WritePayload(id: TxId, number: nat, content: Fingerprint) returns (alive: bool)
      requires id in disk.transactions && disk.transactions[id].staging.Some?
      requires number !in disk.transactions[id].staging.value
      modifies this`disk, this`budget
      ensures OnlyTouches(old(disk), disk, id)
      ensures alive ==>
        var d := old(disk).transactions[id];
        disk.transactions[id] == d.(staging := Some(d.staging.value[number := content]))
      ensures !alive ==> disk.transactions[id].staging.Some?
      ensures !alive ==> disk.transactions[id] == old(disk).transactions[id].(staging := disk.transactions[id].staging)
      ensures Spent(old(budget), budget, 2, alive)
    {
      var d := disk.transactions[id];
      var junk: string := *;
      alive := Change(disk.transactions[id := d.(staging := Some(d.staging.value[number := File(junk)]))]);
      if !alive {
        return;
      }
      alive := Change(disk.transactions[id := d.(staging := Some(d.staging.value[number := content]))]);
    }

    method RemovePayload(id: TxId, number: nat) returns (alive: bool)
      requires id in disk.transactions && disk.transactions[id].staging.Some?
      requires number in disk.transactions[id].staging.value
      modifies this`disk, this`budget
      ensures OnlyTouches(old(disk), disk, id)
      ensures
        var d := old(disk).transactions[id];
        disk.transactions[id] == if alive then d.(staging := Some(d.staging.value - {number})) else d
      ensures Spent(old(budget), budget, 1, alive)
    {
      var d := disk.transactions[id];
      alive := Change(disk.transactions[id := d.(staging := Some(d.staging.value - {number}))]);
    }

    /** `removeEmptyDirectory(staging)`. */
    method RemoveStaging(id: TxId) returns (alive: bool)
      requires id in disk.transactions && disk.transactions[id].staging == Some(map[])
      modifies this`disk, this`budget
      ensures OnlyTouches(old(disk), disk, id)
      ensures disk.transactions[id] == if alive then old(disk).transactions[id].(staging := None) else old(disk).transactions[id]
      ensures Spent(old(budget), budget, 1, alive)
    {
      alive := Change(disk.transactions[id := disk.transactions[id].(staging := None)]);
    }

    /** `writeSynced` of `manifest.json`. */
    method WriteManifest(id: TxId, m: Manifest) returns (alive: bool)
      requires id in disk.transactions && disk.transactions[id].manifest.None?
      modifies this`disk, this`budget
      ensures OnlyTouches(old(disk), disk, id)
      ensures alive ==> disk.transactions[id] == old(disk).transactions[id].(manifest := Some(Whole(m)))
      ensures !alive ==> disk.transactions[id] == old(disk).transactions[id].(manifest := disk.transactions[id].manifest)
      ensures Spent(old(budget), budget, 2, alive)
    {
      var d := disk.transactions[id];
      alive := Change(disk.transactions[id := d.(manifest := Some(Torn))]);
      if !alive {
        return;
      }
      alive := Change(disk.transactions[id := d.(manifest := Some(Whole(m)))]);
    }

    method RemoveManifest(id: TxId) returns (alive: bool)
      requires id in disk.transactions && disk.transactions[id].manifest.Some?
      modifies this`disk, this`budget
      ensures OnlyTouches(old(disk), disk, id)
      ensures disk.transactions[id] == if alive then old(disk).transactions[id].(manifest := None) else old(disk).transactions[id]
      ensures Spent(old(budget), budget, 1, alive)
    {
      alive := Change(disk.transactions[id := disk.transactions[id].(manifest := None)]);
    }

    /** `publishOperation`: the one primitive that changes a destination. */
    method Publish(id: TxId, op: Operation) returns (s: Status)
      requires id in disk.transactions
      modifies this`disk, this`budget, this`trace, this`landed
      ensures !s.Done? ==> disk.transactions == old(disk.transactions) && trace == old(trace) && landed == old(landed)
      ensures !s.Done? && quiet ==> disk == old(disk)
      ensures s.Done? ==> Publishable(old(disk), id, op) || !quiet
      ensures s.Done? ==> trace == old(trace) + [Landed(op.operationId)] && landed == old(landed) + 1
      ensures id in disk.transactions
      ensures s.Done? && op.kind.WriteFile? ==>
        var d := old(disk).transactions[id];
        && d.staging.Some? && op.operationId in d.staging.value
        && disk.transactions[id] == d.(staging := Some(d.staging.value - {op.operationId}))
      ensures s.Done? && !op.kind.WriteFile? ==> disk.transactions == old(disk.transactions)
      ensures Others(disk, id) == Others(old(disk), id)
      ensures s.Done? && quiet ==> disk.tree == old(disk.tree)[op.path := PublishedAs(old(disk), id, op)]
      ensures s.Threw? ==> !quiet || !Publishable(old(disk), id, op)
      ensures s.Threw? || Spent(old(budget), budget, 1, s.Done?)
      ensures s.Threw? ==> budget == old(budget)
    {
      Interfere();
      if budget == 0 {
        return Dead;
      }
      if !Publishable(disk, id, op) {
        return Threw;
      }
      var d := disk.transactions[id];
      var tree := disk.tree[op.path := PublishedAs(disk, id, op)];
      if op.kind.WriteFile? {
        disk := Disk(tree, disk.transactions[id := d.(staging := Some(d.staging.value - {op.operationId}))]);
      } else {
        disk := disk.(tree := tree);
      }
      budget := budget - 1;
      trace := trace + [Landed(op.operationId)];
      landed := landed + 1;
      s := Done;
    }
  }

  function Others(disk: Disk, id: TxId): map<TxId, TxDir> {
    disk.transactions - {id}
  }

  lemma OthersSame(before: Disk, after: Disk, id: TxId)
    requires Others(before, id) == Others(after, id)
    ensures forall k | k != id :: k in before.transactions <==> k in after.transactions
    ensures forall k | k != id && k in before.transactions :: before.transactions[k] == after.transactions[k]
  {
    forall k | k != id
      ensures k in before.transactions <==> k in after.transactions
      ensures k in before.transactions ==> before.transactions[k] == after.transactions[k]
    {
      assert k in before.transactions <==> k in Others(before, id);
      assert k in after.transactions <==> k in Others(after, id);
      if k in Others(before, id) {
        assert Others(before, id)[k] == Others(after, id)[k];
      }
    }
  }

  /** Only the directory of `id` differs, and it exists. */
  predicate OnlyTouches(before: Disk, after: Disk, id: TxId) {
    id in after.transactions && after.tree == before.tree && Others(after, id) == Others(before, id)
  }

  /** When `createDirectory`, `replaceFile` and `removeFile` go through. */
  predicate Publishable(disk: Disk, id: TxId, op: Operation)
    requires id in disk.transactions
  {
    var d := disk.transactions[id];
    match op.kind
    case CreateDirectory => At(disk.tree, Parent(op.path)).Directory? && (At(disk.tree, op.path).Missing? || At(disk.tree, op.path).Directory?)
    case WriteFile =>
      && d.staging.Some? && op.operationId in d.staging.value
      && At(disk.tree, Parent(op.path)).Directory?
      && (At(disk.tree, op.path).Missing? || At(disk.tree, op.path).File?)
    case DeleteFile => At(disk.tree, op.path).File?
  }

  function PublishedAs(disk: Disk, id: TxId, op: Operation): Fingerprint
    requires id in disk.transactions && Publishable(disk, id, op)
  {
    match op.kind
    case CreateDirectory => Directory
    case WriteFile => disk.transactions[id].staging.value[op.operationId]
    case DeleteFile => Missing
  }
}
