/** What every interleaving of the workers keeps. */
module LockSafety {
  import opened Options
  import opened LockNamespace
  import opened LockWorkers

  predicate Consumed(ns: Namespace, n: Name) {
    Publication(n) in ns.renames || Quarantine(n) in ns.renames
  }

  /** What has to stand while the record is being removed. */
  predicate Guarded(kind: Kind, ns: Namespace, n: Name) {
    if kind.Admission? then HasTombstone(ns, n) else HasMarker(ns, n)
  }

  /** The retirement of this published claim has begun. */
  predicate Ending(ns: Namespace, n: Name) {
    !HasRecord(ns, n) || HasTombstone(ns, n) || HasMarker(ns, n)
  }

  /** A claim may end when its owner asks for it, and after its expiry. */
  predicate MayEnd(w: World, n: Name) {
    n in w.released || Expired(n, w.now)
  }

  predicate FileOk(file: Option<File>, n: Name) {
    file.Some? ==> file.value == Whole(n.record)
  }

  predicate GenerationOk(g: Generation, n: Name) {
    FileOk(g.record, n) && FileOk(g.tombstone, n)
  }

  /** At most one generation is published, and it says what its name digests. */
  predicate ClaimOk(ns: Namespace) {
    ns.claim.Some? ==>
      && (forall a, b | a in ns.claim.value && b in ns.claim.value :: a == b)
      && (forall n | n in ns.claim.value :: Published(ns, n) && GenerationOk(ns.claim.value[n], n))
  }

  predicate DistinctNames(renames: seq<Rename>) {
    forall i, j | 0 <= i < j < |renames| :: renames[i].name != renames[j].name
  }

  /** A candidate is moved by one rename only: to the claim or to its quarantine. */
  predicate RenamesOk(ns: Namespace) {
    && (forall n | n in ns.candidates :: n in ns.made && !Consumed(ns, n))
    && (forall r | r in ns.renames :: r.name in ns.made)
    && DistinctNames(ns.renames)
  }

  predicate EndingsOk(w: World) {
    forall r | r in w.ns.renames && r.Publication? && Ending(w.ns, r.name) :: MayEnd(w, r.name)
  }

  /** How far a candidate has come when its publisher is at this point. */
  predicate CandidateAt(content: Directory, n: Name, at: PublishPoint) {
    match at
    case MakeCandidate => false
    case MakeGeneration => content == map[]
    case OpenRecordFile => content == map[n := BARE]
    case WriteRecordFile => content == map[n := BARE.(record := Some(Torn))]
    case _ => content == map[n := BARE.(record := Some(Whole(n.record)))]
  }

  predicate KnowsPublishing(ns: Namespace, n: Name, at: PublishPoint) {
    && !Published(ns, n)
    && (if at.MakeCandidate? then n !in ns.made else n in ns.made)
    && (n in ns.candidates ==> CandidateAt(ns.candidates[n], n, at))
  }

  predicate KnowsCleaning(ns: Namespace, n: Name, at: CleanPoint) {
    && (at == RereadRetired(false) || at.LookAtTombstone? || at.UnlinkTombstone? ==> !HasRecord(ns, n))
    && (at.UnlinkRecord? && HasRecord(ns, n) ==> HasTombstone(ns, n))
  }

  predicate KnowsHelping(ns: Namespace, n: Name, at: ScopePoint) {
    if at.ConfirmScopeMarker? then true
    else if at.InspectRecord? || at.RemoveRecordFile? then HasRecord(ns, n) ==> HasMarker(ns, n)
    else !HasRecord(ns, n)
  }

  predicate KnowsReadings(w: World, holder: Option<Record>, retired: Option<Record>) {
    && (holder.Some? ==> Published(w.ns, NameOf(holder.value)))
    && (retired.Some? ==> Published(w.ns, NameOf(retired.value)) && MayEnd(w, NameOf(retired.value)))
    && (holder.Some? && retired.Some? ==> holder == retired)
  }

  predicate KnowsResolving(w: World, at: ResolvePoint) {
    match at
    case ReadRetired(holder) => KnowsReadings(w, holder, None)
    case SeekMarker(holder, retired) => KnowsReadings(w, holder, retired)
    case Elect(holder, retired) => KnowsReadings(w, holder, retired)
    case SeekElected(expected) => KnowsReadings(w, None, Some(expected))
    case _ => true
  }

  predicate MayEndPublished(w: World, n: Name) {
    Published(w.ns, n) && MayEnd(w, n)
  }

  /** What a worker can rely on at each point, whatever the others do. */
  predicate Knows(w: World, worker: Worker) {
    match worker
    case Publishing(r, at) => NameOf(r) in w.used && KnowsPublishing(w.ns, NameOf(r), at)
    case Held(r) => Published(w.ns, NameOf(r))
    case Resolving(at) => w.kind.Admission? && KnowsResolving(w, at)
    case Retiring(r, _) => w.kind.Admission? && Published(w.ns, NameOf(r)) && NameOf(r) in w.released
    case Cleaning(r, at) => w.kind.Admission? && MayEndPublished(w, NameOf(r)) && KnowsCleaning(w.ns, NameOf(r), at)
    case Releasing(r, at, recovering) =>
      && w.kind.Scope?
      && (!recovering ==> NameOf(r) in w.released)
      && (at.VerifyRecord? || at.MarkRecord? ==> MayEndPublished(w, NameOf(r)))
    case Helping(n, at) => w.kind.Scope? && MayEndPublished(w, n) && KnowsHelping(w.ns, n, at)
    case Pending => w.kind.Scope?
    case _ => true
  }

  /** The candidate that a worker prepares, or the claim that it holds. */
  function OwnName(worker: Worker): Option<Name> {
    if worker.Publishing? || worker.Held? then Some(NameOf(worker.record)) else None
  }

  /** No two workers ever prepare or hold the same claim. */
  predicate OwnersDiffer(workers: seq<Worker>) {
    forall i, j | 0 <= i < j < |workers| && OwnName(workers[i]).Some? :: OwnName(workers[i]) != OwnName(workers[j])
  }

  predicate NamespaceOk(w: World) {
    && RenamesOk(w.ns)
    && ClaimOk(w.ns)
    && w.ns.made <= w.used
    && EndingsOk(w)
  }

  predicate Safe(w: World) {
    && NamespaceOk(w)
    && OwnersDiffer(w.workers)
    && forall i | 0 <= i < |w.workers| :: Knows(w, w.workers[i])
  }

  /** A record that has gone stays away, goes only behind its guard, and the guard
      stays while the record does. */
  predicate RecordEvolves(kind: Kind, a: Namespace, b: Namespace, n: Name) {
    && (HasRecord(b, n) ==> HasRecord(a, n))
    && (HasRecord(b, n) && Guarded(kind, a, n) ==> Guarded(kind, b, n))
    && (HasRecord(a, n) && !HasRecord(b, n) ==> Guarded(kind, a, n) && Guarded(kind, b, n))
    && (HasTombstone(b, n) ==> HasTombstone(a, n) || HasRecord(b, n))
  }

  predicate CandidateEvolves(a: Namespace, b: Namespace, n: Name) {
    && (n in b.candidates ==> n in a.candidates && b.candidates[n] == a.candidates[n])
    && (n in b.made ==> n in a.made)
    && (Published(b, n) ==> Published(a, n))
  }

  /** What one step does to the names it is not preparing, and to published claims. */
  ghost predicate Evolves(w: World, b: Namespace, own: Option<Name>) {
    var a := w.ns;
    && a.made <= b.made
    && a.renames <= b.renames
    && (forall n | Published(a, n) :: RecordEvolves(w.kind, a, b, n))
    && (forall n | Published(a, n) && Ending(b, n) :: Ending(a, n) || MayEnd(w, n))
    && (forall n | own != Some(n) :: CandidateEvolves(a, b, n))
  }

  /** One step keeps the namespace in order and teaches the worker what it relies on next. */
  ghost predicate StepOk(w: World, worker: Worker, effect: Effect) {
    var next := w.(ns := effect.ns);
    && Evolves(w, effect.ns, OwnName(worker))
    && NamespaceOk(next)
    && Knows(next, effect.worker)
    && (OwnName(effect.worker).Some? ==> OwnName(effect.worker) == OwnName(worker))
  }

  lemma NothingEvolves(w: World, own: Option<Name>)
    ensures Evolves(w, w.ns, own)
  {
  }

  /** Replacing one published generation. */
  lemma PutKeeps(w: World, n: Name, g: Generation)
    requires NamespaceOk(w) && At(w.ns, n).Some? && MayEnd(w, n) && GenerationOk(g, n)
    requires g.record.Some? ==> At(w.ns, n).value.record.Some?
    requires w.kind.Admission? && g.record.Some? && At(w.ns, n).value.tombstone.Some? ==> g.tombstone.Some?
    requires w.kind.Scope? && g.record.Some? && At(w.ns, n).value.marker ==> g.marker
    requires At(w.ns, n).value.record.Some? && g.record.None? ==>
      if w.kind.Admission? then At(w.ns, n).value.tombstone.Some? && g.tombstone.Some? else At(w.ns, n).value.marker && g.marker
    requires g.tombstone.Some? ==> At(w.ns, n).value.tombstone.Some? || g.record.Some?
    ensures Evolves(w, Put(w.ns, n, g), None) && NamespaceOk(w.(ns := Put(w.ns, n, g)))
  {
  }

  lemma RemoveGenerationKeeps(w: World, n: Name)
    requires NamespaceOk(w) && RemoveGeneration(w.ns, n).Some?
    ensures Evolves(w, RemoveGeneration(w.ns, n).value, None) && NamespaceOk(w.(ns := RemoveGeneration(w.ns, n).value))
  {
  }

  lemma RemoveClaimKeeps(w: World)
    requires NamespaceOk(w) && RemoveClaim(w.ns).Some?
    ensures Evolves(w, RemoveClaim(w.ns).value, None) && NamespaceOk(w.(ns := RemoveClaim(w.ns).value))
  {
  }

  /** What was read is published, and a record that could not be read is gone. */
  lemma ReadingsTrue(w: World, located: Option<Name>, n: Name)
    requires NamespaceOk(w) && Lists(w.ns, located)
    ensures ReadRecord(w.ns, located).Nothing? && Published(w.ns, n) ==> !HasRecord(w.ns, n)
    ensures ReadRecord(w.ns, located).Found? ==> Published(w.ns, NameOf(ReadRecord(w.ns, located).record))
    ensures ReadTombstone(w.ns, located).Found? ==>
      var m := NameOf(ReadTombstone(w.ns, located).record);
      MayEndPublished(w, m) && HasTombstone(w.ns, m)
    ensures located.Some? && Ending(w.ns, located.value) ==> MayEndPublished(w, located.value)
  {
  }

  lemma EndingMayEnd(w: World, n: Name)
    requires NamespaceOk(w) && At(w.ns, n).Some? && Ending(w.ns, n)
    ensures MayEndPublished(w, n)
  {
    assert Publication(n) in w.ns.renames;
  }

  lemma CleaningReads(w: World, r: Record, at: CleanPoint, located: Option<Name>)
    requires NamespaceOk(w) && Lists(w.ns, located) && Knows(w, Cleaning(r, at))
    requires at.RereadHolder? || at.RereadRetired? || at.LinkFailed?
    ensures StepOk(w, Cleaning(r, at), ActCleaning(w.ns, r, at, located))
  {
    NothingEvolves(w, None);
    ReadingsTrue(w, located, NameOf(r));
  }

  lemma CleaningWrites(w: World, r: Record, at: CleanPoint, located: Option<Name>)
    requires NamespaceOk(w) && Knows(w, Cleaning(r, at))
    requires at.LinkRecord? || at.UnlinkRecord? || at.UnlinkTombstone? || at.UnlinkMarker?
    ensures StepOk(w, Cleaning(r, at), ActCleaning(w.ns, r, at, located))
  {
    NothingEvolves(w, None);
    if At(w.ns, NameOf(r)).Some? {
      CleaningPuts(w, r, at);
    }
  }

  lemma CleaningKeeps(w: World, r: Record, at: CleanPoint, located: Option<Name>)
    requires NamespaceOk(w) && Lists(w.ns, located) && Knows(w, Cleaning(r, at))
    ensures StepOk(w, Cleaning(r, at), ActCleaning(w.ns, r, at, located))
  {
    if at.RereadHolder? || at.RereadRetired? || at.LinkFailed? {
      CleaningReads(w, r, at, located);
    } else if at.LinkRecord? || at.UnlinkRecord? || at.UnlinkTombstone? || at.UnlinkMarker? {
      CleaningWrites(w, r, at, located);
    } else {
      NothingEvolves(w, None);
      if RemoveGeneration(w.ns, NameOf(r)).Some? {
        RemoveGenerationKeeps(w, NameOf(r));
      }
      if RemoveClaim(w.ns).Some? {
        RemoveClaimKeeps(w);
      }
    }
  }

  lemma CleaningPuts(w: World, r: Record, at: CleanPoint)
    requires NamespaceOk(w) && Knows(w, Cleaning(r, at)) && At(w.ns, NameOf(r)).Some?
    ensures at.LinkRecord? && LinkTombstone(w.ns, NameOf(r)).Some? ==> StepOk(w, Cleaning(r, at), Effect(LinkTombstone(w.ns, NameOf(r)).value, Cleaning(r, UnlinkRecord)))
    ensures at.UnlinkRecord? && RemoveRecord(w.ns, NameOf(r)).Some? ==> StepOk(w, Cleaning(r, at), Effect(RemoveRecord(w.ns, NameOf(r)).value, Cleaning(r, LookAtTombstone)))
    ensures at.UnlinkTombstone? && RemoveTombstone(w.ns, NameOf(r)).Some? ==> StepOk(w, Cleaning(r, at), Effect(RemoveTombstone(w.ns, NameOf(r)).value, Cleaning(r, UnlinkMarker)))
    ensures at.UnlinkMarker? && RemoveMarker(w.ns, NameOf(r)).Some? ==> StepOk(w, Cleaning(r, at), Effect(RemoveMarker(w.ns, NameOf(r)).value, Cleaning(r, UnlinkGeneration)))
  {
    var n := NameOf(r);
    var g := At(w.ns, n).value;
    match at {
      case LinkRecord => if LinkTombstone(w.ns, n).Some? { PutKeeps(w, n, g.(tombstone := g.record)); }
      case UnlinkRecord => if RemoveRecord(w.ns, n).Some? { PutKeeps(w, n, g.(record := None)); }
      case UnlinkTombstone => if RemoveTombstone(w.ns, n).Some? { PutKeeps(w, n, g.(tombstone := None)); }
      case UnlinkMarker => if RemoveMarker(w.ns, n).Some? { PutKeeps(w, n, g.(marker := false)); }
      case _ =>
    }
  }

  lemma MarkingKeeps(w: World, n: Name)
    requires NamespaceOk(w) && CreateMarker(w.ns, n).Some? && MayEnd(w, n)
    ensures Evolves(w, CreateMarker(w.ns, n).value, None) && NamespaceOk(w.(ns := CreateMarker(w.ns, n).value))
    ensures MayEndPublished(w.(ns := CreateMarker(w.ns, n).value), n)
  {
    PutKeeps(w, n, At(w.ns, n).value.(marker := true));
    assert Published(w.ns, n);
  }

  lemma ElectingKeeps(w: World, holder: Option<Record>, retired: Option<Record>, located: Option<Name>)
    requires NamespaceOk(w) && Knows(w, Resolving(Elect(holder, retired)))
    ensures StepOk(w, Resolving(Elect(holder, retired)), ActResolving(w.ns, w.now, Elect(holder, retired), located))
  {
    NothingEvolves(w, None);
    var target := if holder.Some? then holder else retired;
    if target.None? {
      if RemoveClaim(w.ns).Some? {
        RemoveClaimKeeps(w);
      }
    } else if CreateMarker(w.ns, NameOf(target.value)).Some? && (retired.Some? || Expired(NameOf(target.value), w.now)) {
      MarkingKeeps(w, NameOf(target.value));
    }
  }

  lemma ResolvingKeeps(w: World, at: ResolvePoint, located: Option<Name>)
    requires NamespaceOk(w) && Lists(w.ns, located) && Knows(w, Resolving(at))
    ensures StepOk(w, Resolving(at), ActResolving(w.ns, w.now, at, located))
  {
    NothingEvolves(w, None);
    match at {
      case Elect(holder, retired) => ElectingKeeps(w, holder, retired, located);
      case SeekEmpty =>
        if located.Some? {
          ReadingsTrue(w, located, located.value);
        }
      case SeekMarker(holder, retired) =>
        var target := if holder.Some? then holder else retired;
        if target.Some? && HasMarker(w.ns, NameOf(target.value)) {
          EndingMayEnd(w, NameOf(target.value));
        }
      case SeekElected(expected) =>
      case _ =>
        if located.Some? {
          ReadingsTrue(w, located, located.value);
        }
    }
  }

  lemma RetiringKeeps(w: World, r: Record, marking: Option<bool>, located: Option<Name>)
    requires NamespaceOk(w) && Lists(w.ns, located) && Knows(w, Retiring(r, marking))
    ensures StepOk(w, Retiring(r, marking), ActRetiring(w.ns, r, marking, located))
  {
    NothingEvolves(w, None);
    if marking == Some(true) && CreateMarker(w.ns, NameOf(r)).Some? {
      MarkingKeeps(w, NameOf(r));
    }
  }

  lemma ReleasingKeeps(w: World, r: Record, at: ReleasePoint, recovering: bool, located: Option<Name>)
    requires NamespaceOk(w) && Lists(w.ns, located) && Knows(w, Releasing(r, at, recovering))
    ensures StepOk(w, Releasing(r, at, recovering), ActReleasing(w.ns, w.now, r, at, recovering, located))
  {
    var n := NameOf(r);
    NothingEvolves(w, None);
    match at {
      case SeekPending =>
        if located.Some? {
          ReadingsTrue(w, located, located.value);
        }
      case LookForEmpty =>
        if At(w.ns, n) == Some(BARE) {
          EndingMayEnd(w, n);
        }
      case ReadCurrent => ReadingsTrue(w, located, n);
      case MarkRecord =>
        if CreateMarker(w.ns, n).Some? {
          MarkingKeeps(w, n);
        }
      case VerifyRecord =>
    }
  }

  lemma HelpingKeeps(w: World, n: Name, at: ScopePoint, located: Option<Name>)
    requires NamespaceOk(w) && Lists(w.ns, located) && Knows(w, Helping(n, at))
    ensures StepOk(w, Helping(n, at), ActHelping(w.ns, n, at, located))
  {
    NothingEvolves(w, None);
    match at {
      case RemoveRecordFile =>
        if HasRecord(w.ns, n) {
          PutKeeps(w, n, At(w.ns, n).value.(record := None));
        }
      case RemoveMarkerDirectory =>
        if HasMarker(w.ns, n) {
          PutKeeps(w, n, At(w.ns, n).value.(marker := false));
        }
      case RemoveGenerationDirectory =>
        if RemoveGeneration(w.ns, n).Some? {
          RemoveGenerationKeeps(w, n);
        }
      case RemoveClaimDirectory =>
        if RemoveClaim(w.ns).Some? {
          RemoveClaimKeeps(w);
        }
      case _ =>
    }
  }

  /** Quarantines hold nothing that anyone relies on. */
  lemma QuarantineKeeps(w: World, quarantines: map<Name, Directory>, own: Option<Name>)
    requires NamespaceOk(w)
    ensures Evolves(w, w.ns.(quarantines := quarantines), own) && NamespaceOk(w.(ns := w.ns.(quarantines := quarantines)))
  {
  }

  lemma MoveAwayKeeps(w: World, n: Name)
    requires NamespaceOk(w) && MoveToQuarantine(w.ns, n).Some?
    ensures Evolves(w, MoveToQuarantine(w.ns, n).value, None) && NamespaceOk(w.(ns := MoveToQuarantine(w.ns, n).value))
  {
    MoveAwayOk(w, n);
  }

  lemma MoveAwayOk(w: World, n: Name)
    requires NamespaceOk(w) && MoveToQuarantine(w.ns, n).Some?
    ensures NamespaceOk(w.(ns := MoveToQuarantine(w.ns, n).value))
  {
  }

  lemma ReclaimingKeeps(w: World, n: Name, at: ReclaimPoint)
    requires NamespaceOk(w)
    ensures StepOk(w, Reclaiming(n, at), ActReclaiming(w.ns, n, at))
  {
    NothingEvolves(w, None);
    if at.MoveAway? {
      if MoveToQuarantine(w.ns, n).Some? {
        MoveAwayKeeps(w, n);
      }
    } else {
      QuarantineKeeps(w, ActReclaiming(w.ns, n, at).ns.quarantines, None);
    }
  }

  /** A publisher's change to its own candidate. */
  lemma CandidateKeeps(w: World, n: Name, content: Directory)
    requires NamespaceOk(w) && n in w.used && !Consumed(w.ns, n)
    ensures
      var b := w.ns.(candidates := w.ns.candidates[n := content], made := w.ns.made + {n});
      Evolves(w, b, Some(n)) && NamespaceOk(w.(ns := b))
  {
  }

  lemma PublishKeeps(w: World, n: Name)
    requires NamespaceOk(w) && n in w.used && KnowsPublishing(w.ns, n, RenameCandidate) && Publish(w.ns, n).Some?
    ensures Evolves(w, Publish(w.ns, n).value, Some(n)) && NamespaceOk(w.(ns := Publish(w.ns, n).value))
    ensures Published(Publish(w.ns, n).value, n)
  {
    PublishOk(w, n);
  }

  lemma PublishOk(w: World, n: Name)
    requires NamespaceOk(w) && n in w.used && KnowsPublishing(w.ns, n, RenameCandidate) && Publish(w.ns, n).Some?
    ensures NamespaceOk(w.(ns := Publish(w.ns, n).value)) && Published(Publish(w.ns, n).value, n)
  {
  }

  lemma PublishingKeeps(w: World, r: Record, at: PublishPoint)
    requires NamespaceOk(w) && Knows(w, Publishing(r, at))
    ensures StepOk(w, Publishing(r, at), ActPublishing(w.kind, w.ns, r, at))
  {
    var n := NameOf(r);
    var next := ActPublishing(w.kind, w.ns, r, at).ns;
    NothingEvolves(w, Some(n));
    if at.RenameCandidate? {
      if Publish(w.ns, n).Some? {
        PublishKeeps(w, n);
      }
    } else if n in next.candidates {
      if at.MakeCandidate? {
        assert !Consumed(w.ns, n);
      }
      if next != w.ns {
        CandidateKeeps(w, n, next.candidates[n]);
        assert next == w.ns.(candidates := w.ns.candidates[n := next.candidates[n]], made := w.ns.made + {n});
      }
    } else {
      QuarantineKeeps(w, next.quarantines, Some(n));
    }
  }

  /** What one worker relies on survives the steps of the others. */
  lemma KnowsStable(w: World, b: Namespace, own: Option<Name>, worker: Worker)
    requires Evolves(w, b, own) && Knows(w, worker)
    requires worker.Publishing? ==> OwnName(worker) != own
    ensures Knows(w.(ns := b), worker)
  {
    var next := w.(ns := b);
    match worker {
      case Publishing(r, at) => assert CandidateEvolves(w.ns, b, NameOf(r));
      case Cleaning(r, at) => assert RecordEvolves(w.kind, w.ns, b, NameOf(r));
      case Helping(n, at) => assert RecordEvolves(w.kind, w.ns, b, n);
      case _ =>
    }
  }

  lemma ActKeeps(w: World, worker: Worker, located: Option<Name>)
    requires NamespaceOk(w) && Lists(w.ns, located) && Knows(w, worker)
    ensures StepOk(w, worker, Act(w.kind, w.ns, w.now, worker, located))
  {
    NothingEvolves(w, OwnName(worker));
    match worker {
      case Publishing(r, at) => PublishingKeeps(w, r, at);
      case Reclaiming(n, at) => ReclaimingKeeps(w, n, at);
      case Resolving(at) => ResolvingKeeps(w, at, located);
      case Retiring(r, marking) => RetiringKeeps(w, r, marking, located);
      case Cleaning(r, at) => CleaningKeeps(w, r, at, located);
      case Releasing(r, at, recovering) => ReleasingKeeps(w, r, at, recovering, located);
      case Helping(n, at) => HelpingKeeps(w, n, at, located);
      case Pending =>
        if located.Some? {
          ReadingsTrue(w, located, located.value);
        }
      case _ =>
    }
  }

  lemma GoKeeps(w: World, i: nat, located: Option<Name>)
    requires Safe(w) && Possible(w, Go(i, located))
    ensures Safe(After(w, Go(i, located)))
  {
    var effect := Act(w.kind, w.ns, w.now, w.workers[i], located);
    var moved := w.(ns := effect.ns);
    var next := After(w, Go(i, located));
    ActKeeps(w, w.workers[i], located);
    forall j | 0 <= j < |next.workers| ensures Knows(next, next.workers[j]) {
      if j != i {
        KnowsStable(w, effect.ns, OwnName(w.workers[i]), w.workers[j]);
        SameKnowledge(moved, next, w.workers[j]);
      } else {
        SameKnowledge(moved, next, effect.worker);
      }
    }
  }

  /** Knowledge is about the namespace and the clock; more time and more releases only help. */
  lemma SameKnowledge(a: World, b: World, worker: Worker)
    requires Knows(a, worker) && a.kind == b.kind && a.ns == b.ns
    requires a.now <= b.now && a.used <= b.used && a.released <= b.released
    ensures Knows(b, worker)
  {
  }

  lemma OrderKeeps(a: World, b: World)
    requires NamespaceOk(a) && a.ns == b.ns && a.now <= b.now && a.used <= b.used && a.released <= b.released
    ensures NamespaceOk(b)
  {
  }

  lemma OwnIsUsed(w: World, worker: Worker)
    requires NamespaceOk(w) && Knows(w, worker) && OwnName(worker).Some?
    ensures OwnName(worker).value in w.used
  {
    assert forall r | r in w.ns.renames :: r.name in w.used;
  }

  /** A worker that is replaced by one that knows its own part. */
  lemma ReplaceKeeps(a: World, b: World, i: nat, worker: Worker)
    requires Safe(a) && i < |a.workers| && b.workers == a.workers[i := worker] && Knows(b, worker)
    requires a.kind == b.kind && a.ns == b.ns && a.now <= b.now && a.used <= b.used && a.released <= b.released
    requires OwnName(worker).Some? ==> OwnName(worker).value !in a.used
    ensures Safe(b)
  {
    OrderKeeps(a, b);
    forall j | 0 <= j < |b.workers| ensures Knows(b, b.workers[j]) {
      if j != i {
        SameKnowledge(a, b, a.workers[j]);
      }
    }
    forall j | 0 <= j < |a.workers| && OwnName(a.workers[j]).Some? ensures OwnName(a.workers[j]).value in a.used {
      assert Knows(a, a.workers[j]);
      OwnIsUsed(a, a.workers[j]);
    }
  }

  /** No step of any worker, no crash and no passage of time breaks the order. */
  lemma StepKeeps(w: World, choice: Choice)
    requires Safe(w) && Possible(w, choice)
    ensures Safe(After(w, choice))
  {
    var next := After(w, choice);
    match choice {
      case Tick(now) =>
        OrderKeeps(w, next);
        forall j | 0 <= j < |next.workers| ensures Knows(next, next.workers[j]) {
          SameKnowledge(w, next, w.workers[j]);
        }
      case Begin(i, job) => BeginKeeps(w, i, job);
      case Halt(i) => ReplaceKeeps(w, next, i, Idle);
      case Fail(i) => ReplaceKeeps(w, next, i, GiveUp(w.kind, NameOf(w.workers[i].record)));
      case Go(i, located) => GoKeeps(w, i, located);
    }
  }

  lemma BeginKeeps(w: World, i: nat, job: Worker)
    requires Safe(w) && Possible(w, Begin(i, job))
    ensures Safe(After(w, Begin(i, job)))
  {
    var next := After(w, Begin(i, job));
    assert Knows(w, w.workers[i]);
    if job.Publishing? {
      NeverMade(w, NameOf(job.record));
    }
    ReplaceKeeps(w, next, i, job);
  }

  lemma NeverMade(w: World, n: Name)
    requires NamespaceOk(w) && n !in w.used
    ensures n !in w.ns.made && n !in w.ns.candidates && !Published(w.ns, n)
  {
    assert forall r | r in w.ns.renames :: r.name in w.used;
  }

  lemma {:induction false} RunIsSafe(run: seq<World>, i: nat)
    requires IsRun(run) && i < |run|
    ensures Safe(run[i])
  {
    if i > 0 {
      RunIsSafe(run, i - 1);
      assert StepAt(run, i - 1);
      var choice :| Possible(run[i - 1], choice) && run[i - 1 + 1] == After(run[i - 1], choice);
      StepKeeps(run[i - 1], choice);
    }
  }
}
