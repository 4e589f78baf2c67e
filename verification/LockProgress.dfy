/** Whatever helpers have left behind, one more helper clears the admission alone. */
module LockProgress {
  import opened Options
  import opened LockNamespace
  import opened LockWorkers
  import opened LockSafety

  function See(ns: Namespace, n: Name): Option<Name> {
    if At(ns, n).Some? then Some(n) else None
  }

  /** A number of steps of one worker, while the others do nothing. */
  function Alone(kind: Kind, ns: Namespace, now: int, n: Name, worker: Worker, steps: nat): Effect
    decreases steps
  {
    if steps == 0 then Effect(ns, worker)
    else
      var effect := Act(kind, ns, now, worker, See(ns, n));
      Alone(kind, effect.ns, now, n, effect.worker, steps - 1)
  }

  ghost predicate Ends(kind: Kind, ns: Namespace, now: int, n: Name, worker: Worker, last: Effect) {
    exists steps: nat :: Alone(kind, ns, now, n, worker, steps) == last
  }

  ghost predicate Clears(kind: Kind, ns: Namespace, now: int, n: Name, worker: Worker) {
    Ends(kind, ns, now, n, worker, Effect(ns.(claim := None), Idle))
  }

  predicate Holds(ns: Namespace, n: Name, g: Generation) {
    ns.claim == Some(map[n := g]) && GenerationOk(g, n)
  }

  lemma EndsNow(kind: Kind, ns: Namespace, now: int, n: Name, worker: Worker)
    ensures Ends(kind, ns, now, n, worker, Effect(ns, worker))
  {
    assert Alone(kind, ns, now, n, worker, 0) == Effect(ns, worker);
  }

  lemma Onward(kind: Kind, ns: Namespace, now: int, n: Name, worker: Worker, next: Effect, last: Effect)
    requires next == Act(kind, ns, now, worker, See(ns, n)) && Ends(kind, next.ns, now, n, next.worker, last)
    ensures Ends(kind, ns, now, n, worker, last)
  {
    var steps: nat :| Alone(kind, next.ns, now, n, next.worker, steps) == last;
    assert Alone(kind, ns, now, n, worker, steps + 1) == last;
  }

  lemma ClearsEmpty(ns: Namespace, now: int, n: Name, worker: Worker)
    requires ns.claim == Some(map[]) && (worker == Cleaning(n.record, UnlinkClaim) || worker == Resolving(Elect(None, None)))
    ensures Clears(Admission, ns, now, n, worker)
  {
    var next := ns.(claim := None);
    EndsNow(Admission, next, now, n, Idle);
    Onward(Admission, ns, now, n, worker, Effect(next, Idle), Effect(next, Idle));
  }

  lemma ClearsBare(ns: Namespace, now: int, n: Name)
    requires Holds(ns, n, BARE)
    ensures Clears(Admission, ns, now, n, Cleaning(n.record, UnlinkGeneration))
  {
    var next := ns.(claim := Some(map[]));
    assert map[n := BARE] - {n} == map[];
    ClearsEmpty(next, now, n, Cleaning(n.record, UnlinkClaim));
    Onward(Admission, ns, now, n, Cleaning(n.record, UnlinkGeneration), Effect(next, Cleaning(n.record, UnlinkClaim)), Effect(ns.(claim := None), Idle));
  }

  lemma PutAt(ns: Namespace, n: Name, g: Generation, h: Generation)
    requires ns.claim == Some(map[n := g])
    ensures Put(ns, n, h) == ns.(claim := Some(map[n := h])) && At(ns, n) == Some(g)
  {
    assert map[n := g][n := h] == map[n := h];
  }

  lemma ClearsUnmarked(ns: Namespace, now: int, n: Name, g: Generation)
    requires Holds(ns, n, g) && g.record.None? && g.tombstone.None?
    ensures Clears(Admission, ns, now, n, Cleaning(n.record, UnlinkMarker))
  {
    var next := Put(ns, n, BARE);
    PutAt(ns, n, g, BARE);
    assert !g.marker ==> next == ns;
    ClearsBare(next, now, n);
    Onward(Admission, ns, now, n, Cleaning(n.record, UnlinkMarker), Effect(next, Cleaning(n.record, UnlinkGeneration)), Effect(ns.(claim := None), Idle));
  }

  lemma ClearsTombstone(ns: Namespace, now: int, n: Name, g: Generation)
    requires Holds(ns, n, g) && g.record.None?
    ensures Clears(Admission, ns, now, n, Cleaning(n.record, LookAtTombstone))
  {
    var last := Effect(ns.(claim := None), Idle);
    if g.tombstone.Some? {
      var next := Put(ns, n, g.(tombstone := None));
      PutAt(ns, n, g, g.(tombstone := None));
      ClearsUnmarked(next, now, n, g.(tombstone := None));
      Onward(Admission, ns, now, n, Cleaning(n.record, UnlinkTombstone), Effect(next, Cleaning(n.record, UnlinkMarker)), last);
      Onward(Admission, ns, now, n, Cleaning(n.record, LookAtTombstone), Effect(ns, Cleaning(n.record, UnlinkTombstone)), last);
    } else {
      ClearsUnmarked(ns, now, n, g);
      Onward(Admission, ns, now, n, Cleaning(n.record, LookAtTombstone), Effect(ns, Cleaning(n.record, UnlinkMarker)), last);
    }
  }

  lemma ClearsRecord(ns: Namespace, now: int, n: Name, g: Generation)
    requires Holds(ns, n, g) && g.record.Some? && g.tombstone.Some?
    ensures Clears(Admission, ns, now, n, Cleaning(n.record, UnlinkRecord))
  {
    var next := Put(ns, n, g.(record := None));
    PutAt(ns, n, g, g.(record := None));
    ClearsTombstone(next, now, n, g.(record := None));
    Onward(Admission, ns, now, n, Cleaning(n.record, UnlinkRecord), Effect(next, Cleaning(n.record, LookAtTombstone)), Effect(ns.(claim := None), Idle));
  }

  lemma ClearsLink(ns: Namespace, now: int, n: Name, g: Generation)
    requires Holds(ns, n, g) && g.record.Some? && g.tombstone.None?
    ensures Clears(Admission, ns, now, n, Cleaning(n.record, LinkRecord))
  {
    var linked := g.(tombstone := g.record);
    var next := Put(ns, n, linked);
    PutAt(ns, n, g, linked);
    ClearsRecord(next, now, n, linked);
    Onward(Admission, ns, now, n, Cleaning(n.record, LinkRecord), Effect(next, Cleaning(n.record, UnlinkRecord)), Effect(ns.(claim := None), Idle));
  }

  lemma ClearsReread(ns: Namespace, now: int, n: Name, g: Generation)
    requires Holds(ns, n, g)
    ensures Clears(Admission, ns, now, n, Cleaning(n.record, RereadRetired(g.record.Some?)))
  {
    var held := g.record.Some?;
    var next := Cleaning(n.record, if !held then LookAtTombstone else if g.tombstone.Some? then UnlinkRecord else LinkRecord);
    if !held {
      ClearsTombstone(ns, now, n, g);
    } else if g.tombstone.Some? {
      ClearsRecord(ns, now, n, g);
    } else {
      ClearsLink(ns, now, n, g);
    }
    PutAt(ns, n, g, g);
    Onward(Admission, ns, now, n, Cleaning(n.record, RereadRetired(held)), Effect(ns, next), Effect(ns.(claim := None), Idle));
  }

  lemma ClearsMarked(ns: Namespace, now: int, n: Name, g: Generation)
    requires Holds(ns, n, g) && g.marker
    ensures Clears(Admission, ns, now, n, Cleaning(n.record, ConfirmMarker))
  {
    var last := Effect(ns.(claim := None), Idle);
    PutAt(ns, n, g, g);
    ClearsReread(ns, now, n, g);
    Onward(Admission, ns, now, n, Cleaning(n.record, RereadHolder), Effect(ns, Cleaning(n.record, RereadRetired(g.record.Some?))), last);
    Onward(Admission, ns, now, n, Cleaning(n.record, ConfirmMarker), Effect(ns, Cleaning(n.record, RereadHolder)), last);
  }

  function Readable(file: Option<File>, n: Name): Option<Record> {
    if file.Some? then Some(n.record) else None
  }

  lemma ClearsElected(ns: Namespace, now: int, n: Name, g: Generation)
    requires Holds(ns, n, g) && !g.marker && (g.record.Some? || g.tombstone.Some?)
    requires g.tombstone.Some? || Expired(n, now)
    ensures Clears(Admission, ns, now, n, Resolving(Elect(Readable(g.record, n), Readable(g.tombstone, n))))
  {
    var marked := g.(marker := true);
    PutAt(ns, n, g, marked);
    ClearsMarked(Put(ns, n, marked), now, n, marked);
    Onward(Admission, ns, now, n, Resolving(Elect(Readable(g.record, n), Readable(g.tombstone, n))),
           Effect(Put(ns, n, marked), Cleaning(n.record, ConfirmMarker)), Effect(ns.(claim := None), Idle));
  }

  lemma ClearsSought(ns: Namespace, now: int, n: Name, g: Generation)
    requires Holds(ns, n, g) && (g.record.Some? || g.tombstone.Some?)
    requires g.tombstone.Some? || g.marker || Expired(n, now)
    ensures Clears(Admission, ns, now, n, Resolving(SeekMarker(Readable(g.record, n), Readable(g.tombstone, n))))
  {
    var last := Effect(ns.(claim := None), Idle);
    var here := Resolving(SeekMarker(Readable(g.record, n), Readable(g.tombstone, n)));
    PutAt(ns, n, g, g);
    if g.marker {
      ClearsMarked(ns, now, n, g);
      Onward(Admission, ns, now, n, here, Effect(ns, Cleaning(n.record, ConfirmMarker)), last);
    } else {
      ClearsElected(ns, now, n, g);
      Onward(Admission, ns, now, n, here, Effect(ns, Resolving(Elect(Readable(g.record, n), Readable(g.tombstone, n)))), last);
    }
  }

  lemma ClearsSeekEmpty(ns: Namespace, now: int, n: Name, g: Generation)
    requires Holds(ns, n, g) && g.record.None? && g.tombstone.None?
    ensures Clears(Admission, ns, now, n, Resolving(SeekEmpty))
  {
    var last := Effect(ns.(claim := None), Idle);
    PutAt(ns, n, g, g);
    if g.marker {
      ClearsUnmarked(ns, now, n, g);
      Onward(Admission, ns, now, n, Resolving(SeekEmpty), Effect(ns, Cleaning(n.record, UnlinkMarker)), last);
    } else {
      ClearsBare(ns, now, n);
      Onward(Admission, ns, now, n, Resolving(SeekEmpty), Effect(ns, Cleaning(n.record, UnlinkGeneration)), last);
    }
  }

  lemma ResolverReads(ns: Namespace, now: int, n: Name, g: Generation, last: Effect)
    requires Holds(ns, n, g)
    requires
      var holder, retired := Readable(g.record, n), Readable(g.tombstone, n);
      Ends(Admission, ns, now, n, Resolving(if holder.None? && retired.None? then SeekEmpty else SeekMarker(holder, retired)), last)
    ensures Ends(Admission, ns, now, n, Resolving(ReadHolder), last)
  {
    var holder, retired := Readable(g.record, n), Readable(g.tombstone, n);
    PutAt(ns, n, g, g);
    Onward(Admission, ns, now, n, Resolving(ReadRetired(holder)),
           Effect(ns, Resolving(if holder.None? && retired.None? then SeekEmpty else SeekMarker(holder, retired))), last);
    Onward(Admission, ns, now, n, Resolving(ReadHolder), Effect(ns, Resolving(ReadRetired(holder))), last);
  }

  /** Alone, a resolver removes a claim whose retirement has begun or that expired five
      seconds ago, from every state that helpers can have left it in. */
  lemma ResolverClears(ns: Namespace, now: int, n: Name, g: Generation)
    requires Holds(ns, n, g) && (Ending(ns, n) || now >= n.record.expiresAt + 5_000)
    ensures Clears(Admission, ns, now, n, Resolving(ReadHolder))
  {
    PutAt(ns, n, g, g);
    if g.record.None? && g.tombstone.None? {
      ClearsSeekEmpty(ns, now, n, g);
    } else {
      ClearsSought(ns, now, n, g);
    }
    ResolverReads(ns, now, n, g, Effect(ns.(claim := None), Idle));
  }

  /** And it leaves any other claim as it found it. */
  lemma ResolverIsBlocked(ns: Namespace, now: int, n: Name, g: Generation)
    requires Holds(ns, n, g) && !Ending(ns, n) && now < n.record.expiresAt + 5_000
    ensures Ends(Admission, ns, now, n, Resolving(ReadHolder), Effect(ns, Idle))
  {
    var last := Effect(ns, Idle);
    var holder := Some(n.record);
    PutAt(ns, n, g, g);
    EndsNow(Admission, ns, now, n, Idle);
    Onward(Admission, ns, now, n, Resolving(Elect(holder, None)), last, last);
    Onward(Admission, ns, now, n, Resolving(SeekMarker(holder, None)), Effect(ns, Resolving(Elect(holder, None))), last);
    ResolverReads(ns, now, n, g, last);
  }

  /** In every reachable state of an admission lock, a lone resolver clears what is
      published exactly when that may be cleared; an emptied claim directory too. */
  lemma NoStuckAdmission(w: World, n: Name)
    requires Safe(w) && w.kind.Admission? && At(w.ns, n).Some?
    ensures Ending(w.ns, n) || w.now >= n.record.expiresAt + 5_000 ==> Clears(Admission, w.ns, w.now, n, Resolving(ReadHolder))
    ensures !Ending(w.ns, n) && w.now < n.record.expiresAt + 5_000 ==> Ends(Admission, w.ns, w.now, n, Resolving(ReadHolder), Effect(w.ns, Idle))
  {
    var g := At(w.ns, n).value;
    assert w.ns.claim.value.Keys == {n};
    assert w.ns.claim.value == map[n := g];
    if Ending(w.ns, n) || w.now >= n.record.expiresAt + 5_000 {
      ResolverClears(w.ns, w.now, n, g);
    } else {
      ResolverIsBlocked(w.ns, w.now, n, g);
    }
  }

  lemma EmptyClaimClears(ns: Namespace, now: int, n: Name)
    requires ns.claim == Some(map[])
    ensures Clears(Admission, ns, now, n, Resolving(ReadHolder))
  {
    var last := Effect(ns.(claim := None), Idle);
    ClearsEmpty(ns, now, n, Resolving(Elect(None, None)));
    Onward(Admission, ns, now, n, Resolving(SeekEmpty), Effect(ns, Resolving(Elect(None, None))), last);
    Onward(Admission, ns, now, n, Resolving(ReadRetired(None)), Effect(ns, Resolving(SeekEmpty)), last);
    Onward(Admission, ns, now, n, Resolving(ReadHolder), Effect(ns, Resolving(ReadRetired(None))), last);
  }
}
