/**
 What the two-resource update and the teardown achieve, compared with a store
 that could update the pair in one step.
 */
module SeedUpdates {
  import opened Wrappers
  import opened WorkloadRequests
  import opened SeedStore

  ghost predicate QuietWrite(n: WriteNet) { Quiet(n.fates) }

  ghost predicate QuietNet(n: UpdateNet) {
    QuietWrite(n.encrypted) && QuietWrite(n.sealed) && QuietWrite(n.rollback)
  }

  /** A write that the store gets to answer at once. */
  predicate Working(n: WriteNet) { n.prepared && n.fates != [] && n.fates[0].Served? }

  // ---------------------------------------------------------------- one resource

  lemma WrittenContent<V>(s: Store<V>, p: Path, content: Option<V>)
    ensures Content(Written(s, p, content), p) == content
    ensures forall q :: q != p ==> Content(Written(s, p, content), q) == Content(s, q)
    ensures Written(s, p, Content(s, p)) == s
  {
    if p !in s.upstream { assert s.upstream - {p} == s.upstream; }
    else { assert s.upstream[p := s.upstream[p]] == s.upstream; }
  }

  lemma OtherEntriesCurrent<V>(s: Store<V>, p: Path, content: Option<V>)
    requires Coherent(s)
    ensures Coherent(Evicted(Written(s, p, content), p))
  {
    WrittenContent(s, p, content);
  }

  /** A write that reports success did what it was asked and left nothing stale. */
  lemma WroteTrue<V>(s: Store<V>, p: Path, r: Request<V>, n: WriteNet)
    requires Wrote(s, p, r, n).1
    ensures Wrote(s, p, r, n).0 == Evicted(Written(s, p, r.Wanted()), p)
    ensures Coherent(s) ==> Coherent(Wrote(s, p, r, n).0)
  {
    OutcomeIsTrue(Content(s, p), r, n.fates, []);
    if Coherent(s) { OtherEntriesCurrent(s, p, r.Wanted()); }
  }

  /** A write that reports failure changed nothing, if failed requests change nothing. */
  lemma WroteFalse<V>(s: Store<V>, p: Path, r: Request<V>, n: WriteNet)
    requires !Wrote(s, p, r, n).1
    ensures Wrote(s, p, r, n).0 == s || Wrote(s, p, r, n).0 == Written(s, p, r.Wanted())
    ensures QuietWrite(n) ==> Wrote(s, p, r, n).0 == s
  {
    OutcomeIsTrue(Content(s, p), r, n.fates, []);
    WrittenContent(s, p, Content(s, p));
  }

  lemma WorkingWrite<V>(s: Store<V>, p: Path, r: Request<V>, n: WriteNet)
    requires Working(n)
    ensures Wrote(s, p, r, n).1 <==> r.Delete? || Allowed(Content(s, p), r)
  {
    assert FateAt(n.fates, 0) == n.fates[0];
  }

  lemma ReadTrue<V>(s: Store<V>, p: Path, n: ReadNet)
    requires Coherent(s)
    ensures Read(s, p, n).0.upstream == s.upstream
    ensures Coherent(Read(s, p, n).0)
    ensures Read(s, p, n).1.Some? ==> Read(s, p, n).1.value == Content(s, p)
  {
  }

  lemma LoadTrue<V>(s: Store<V>, n: PairNet)
    requires Coherent(s)
    ensures Loaded(s, n).0.upstream == s.upstream
    ensures Coherent(Loaded(s, n).0)
    ensures Loaded(s, n).1.Some? ==> Loaded(s, n).1.value == Held(s)
  {
    ReadTrue(s, Encrypted, n.encrypted);
    ReadTrue(Read(s, Encrypted, n.encrypted).0, Sealed, n.sealed);
  }

  /** Nothing in the cache, every read answered: what a load needs to succeed. */
  lemma PlainLoad<V>(s: Store<V>, n: PairNet)
    requires n == PairNet(ReadNet(true, None, true, true), ReadNet(true, None, true, true))
    ensures Loaded(s, n).1 == Some(Held(s))
    ensures Loaded(s, n).0.upstream == s.upstream
  {
  }

  lemma ChangedTrue<V>(s: Store<V>, p: Path, u: Update<V>, n: WriteNet)
    requires Coherent(s) && Changed(s, p, u, Content(s, p), n).1
    ensures var t := Changed(s, p, u, Content(s, p), n).0;
            && Coherent(t) && Content(t, p) == After(u, Content(s, p))
            && forall q :: q != p ==> Content(t, q) == Content(s, q)
  {
    var request := RequestFor(u, Content(s, p));
    if request.Some? {
      WroteTrue(s, p, request.value, n);
      WrittenContent(s, p, request.value.Wanted());
    }
  }

  lemma ChangedFalse<V>(s: Store<V>, p: Path, u: Update<V>, previous: Option<V>, n: WriteNet)
    requires !Changed(s, p, u, previous, n).1
    ensures RequestFor(u, previous).Some?
    ensures QuietWrite(n) ==> Changed(s, p, u, previous, n).0 == s
  {
    WroteFalse(s, p, RequestFor(u, previous).value, n);
  }

  // ---------------------------------------------------------------- the pair

  lemma PathsAreTwo(p: Path)
    ensures p == Encrypted || p == Sealed
  {
  }

  /** Ok means the one-step pair update, whatever became of failed attempts along the way. */
  lemma UpdateIsPairUpdate<V>(s: Store<V>, encrypted: Update<V>, sealed: Update<V>, n: UpdateNet)
    requires Coherent(s) && Updated(s, encrypted, sealed, n).1 == Stored
    ensures Held(Updated(s, encrypted, sealed, n).0) == PairUpdate(Held(s), encrypted, sealed)
    ensures Coherent(Updated(s, encrypted, sealed, n).0)
  {
    LoadTrue(s, n.load);
    var t := Loaded(s, n.load).0;
    ChangedTrue(t, Encrypted, encrypted, n.encrypted);
    ChangedTrue(Changed(t, Encrypted, encrypted, Content(s, Encrypted), n.encrypted).0, Sealed, sealed, n.sealed);
  }

  /** The rollback of a changed encrypted resource. */
  lemma RollbackRestores<V>(s: Store<V>, u: Update<V>, changed: Store<V>, n: WriteNet)
    requires Coherent(s) && RequestFor(u, Content(s, Encrypted)).Some?
    requires changed == Evicted(Written(s, Encrypted, After(u, Content(s, Encrypted))), Encrypted)
    ensures var (t, ok) := Wrote(changed, Encrypted, RestoreRequest(Content(s, Encrypted)), n);
            && (ok ==> Held(t) == Held(s) && Coherent(t))
            && (Working(n) ==> (ok <==> !(u.Remove? && Content(s, Encrypted).Some?)))
            && (QuietWrite(n) && !ok ==> t == changed)
  {
    var before := Content(s, Encrypted);
    var r := RestoreRequest(before);
    OtherEntriesCurrent(s, Encrypted, After(u, before));
    WrittenContent(s, Encrypted, After(u, before));
    WrittenContent(changed, Encrypted, r.Wanted());
    if Wrote(changed, Encrypted, r, n).1 { WroteTrue(changed, Encrypted, r, n); }
    else { WroteFalse(changed, Encrypted, r, n); }
    if Working(n) { WorkingWrite(changed, Encrypted, r, n); }
  }

  /** The store between the two halves: untouched by `Keep`, changed and evicted otherwise. */
  lemma FirstHalf<V>(t: Store<V>, u: Update<V>, n: WriteNet)
    requires Coherent(t) && Changed(t, Encrypted, u, Content(t, Encrypted), n).1
    ensures var a := Changed(t, Encrypted, u, Content(t, Encrypted), n).0;
            if RequestFor(u, Content(t, Encrypted)).Some?
            then a == Evicted(Written(t, Encrypted, After(u, Content(t, Encrypted))), Encrypted)
            else a == t
  {
    var request := RequestFor(u, Content(t, Encrypted));
    if request.Some? { WroteTrue(t, Encrypted, request.value, n); }
  }

  /** The second half after a first half that succeeded. */
  lemma SecondHalf<V>(t: Store<V>, u: Update<V>, sealed: Update<V>, a: Store<V>, n: UpdateNet)
    requires Coherent(t) && QuietWrite(n.sealed) && QuietWrite(n.rollback)
    requires var changed := RequestFor(u, Content(t, Encrypted)).Some?;
             a == if changed then Evicted(Written(t, Encrypted, After(u, Content(t, Encrypted))), Encrypted) else t
    ensures var (f, verdict) := Finished(a, RequestFor(u, Content(t, Encrypted)).Some?, sealed, Held(t), n);
            && (verdict == NotStored ==> Held(f) == Held(t) && Coherent(f))
            && (verdict == RollbackFailed ==> f == a && RequestFor(sealed, Content(t, Sealed)).Some?)
            && verdict != NotLoaded
            && (verdict == RollbackFailed && Working(n.rollback) ==> u.Remove? && Content(t, Encrypted).Some?)
  {
    var previous := Content(t, Sealed);
    if !Changed(a, Sealed, sealed, previous, n.sealed).1 {
      ChangedFalse(a, Sealed, sealed, previous, n.sealed);
      if RequestFor(u, Content(t, Encrypted)).Some? { RollbackRestores(t, u, a, n.rollback); }
    }
  }

  /** Err without `rollback_failed` means nothing changed, given failed requests that change nothing. */
  lemma FailureChangesNothing<V>(s: Store<V>, encrypted: Update<V>, sealed: Update<V>, n: UpdateNet)
    requires Coherent(s) && QuietNet(n)
    requires Updated(s, encrypted, sealed, n).1.NotLoaded? || Updated(s, encrypted, sealed, n).1.NotStored?
    ensures Held(Updated(s, encrypted, sealed, n).0) == Held(s)
    ensures Coherent(Updated(s, encrypted, sealed, n).0)
  {
    LoadTrue(s, n.load);
    var (t, previous) := Loaded(s, n.load);
    if previous.Some? {
      if !Changed(t, Encrypted, encrypted, previous.value.encrypted, n.encrypted).1 {
        ChangedFalse(t, Encrypted, encrypted, previous.value.encrypted, n.encrypted);
      } else {
        FirstHalf(t, encrypted, n.encrypted);
        SecondHalf(t, encrypted, sealed, Changed(t, Encrypted, encrypted, Content(t, Encrypted), n.encrypted).0, n);
      }
    }
  }

  /** With a store that answers the rollback, only an encrypted removal can end in `rollback_failed`. */
  lemma RollbackFailsOnlyAfterRemoval<V>(s: Store<V>, encrypted: Update<V>, sealed: Update<V>, n: UpdateNet)
    requires Coherent(s) && QuietNet(n) && Working(n.rollback)
    requires Updated(s, encrypted, sealed, n).1 == RollbackFailed
    ensures encrypted.Remove? && Content(s, Encrypted).Some?
    ensures Held(Updated(s, encrypted, sealed, n).0) == Held(s).(encrypted := None)
  {
    LoadTrue(s, n.load);
    var (t, previous) := Loaded(s, n.load);
    FirstHalf(t, encrypted, n.encrypted);
    SecondHalf(t, encrypted, sealed, Changed(t, Encrypted, encrypted, Content(t, Encrypted), n.encrypted).0, n);
    WrittenContent(t, Encrypted, After(encrypted, Content(t, Encrypted)));
  }

  /** All or nothing. */
  ghost predicate Atomic<V>(s: Store<V>, encrypted: Update<V>, sealed: Update<V>, n: UpdateNet) {
    var held := Held(Updated(s, encrypted, sealed, n).0);
    held == Held(s) || held == PairUpdate(Held(s), encrypted, sealed)
  }

  lemma AtomicUnlessRemoval<V>(s: Store<V>, encrypted: Update<V>, sealed: Update<V>, n: UpdateNet)
    requires Coherent(s) && QuietNet(n) && Working(n.rollback)
    requires !(encrypted.Remove? && Content(s, Encrypted).Some? && After(sealed, Content(s, Sealed)) != Content(s, Sealed))
    ensures Atomic(s, encrypted, sealed, n)
  {
    match Updated(s, encrypted, sealed, n).1
    case Stored => UpdateIsPairUpdate(s, encrypted, sealed, n);
    case NotLoaded => FailureChangesNothing(s, encrypted, sealed, n);
    case NotStored => FailureChangesNothing(s, encrypted, sealed, n);
    case RollbackFailed => RollbackFailsOnlyAfterRemoval(s, encrypted, sealed, n);
  }

  /** The run that is not atomic: the removal succeeds, the sealed half and then the rollback are refused. */
  lemma RemovalIsNotAtomic<V>(s: Store<V>, sealed: Update<V>) returns (n: UpdateNet)
    requires Coherent(s) && Content(s, Encrypted).Some?
    requires After(sealed, Content(s, Sealed)) != Content(s, Sealed)
    ensures QuietNet(n) && Working(n.rollback)
    ensures !Atomic(s, Remove, sealed, n)
  {
    var read := ReadNet(true, None, true, true);
    var works, refused := WriteNet(true, [Served(true)]), WriteNet(false, []);
    n := UpdateNet(PairNet(read, read), works, refused, works);
    PlainLoad(s, n.load);
    LoadTrue(s, n.load);
    var t := Loaded(s, n.load).0;
    WorkingWrite(t, Encrypted, Delete, works);
    FirstHalf(t, Remove, works);
    var a := Changed(t, Encrypted, Remove, Content(t, Encrypted), works).0;
    WrittenContent(t, Encrypted, None);
    WorkingWrite(a, Encrypted, RestoreRequest(Content(t, Encrypted)), works);
    WroteFalse(a, Encrypted, RestoreRequest(Content(t, Encrypted)), works);
  }

  /**
   Exactly which pairs of updates are all-or-nothing on a store that refuses
   writes at will but answers the rollback: all but the removal of a present
   encrypted resource together with a change of the sealed one, because the
   rollback of a removal is a replacement of what is no longer there.
   */
  lemma AtomicIff<V(!new)>(s: Store<V>, encrypted: Update<V>, sealed: Update<V>)
    requires Coherent(s)
    ensures (forall n: UpdateNet :: QuietNet(n) && Working(n.rollback) ==> Atomic(s, encrypted, sealed, n)) <==>
            !(encrypted.Remove? && Content(s, Encrypted).Some? && After(sealed, Content(s, Sealed)) != Content(s, Sealed))
  {
    if encrypted.Remove? && Content(s, Encrypted).Some? && After(sealed, Content(s, Sealed)) != Content(s, Sealed) {
      var n := RemovalIsNotAtomic(s, sealed);
    } else {
      forall n: UpdateNet | QuietNet(n) && Working(n.rollback) ensures Atomic(s, encrypted, sealed, n) {
        AtomicUnlessRemoval(s, encrypted, sealed, n);
      }
    }
  }

  // ---------------------------------------------------------------- teardown

  ghost predicate Erased<V>(s: Store<V>) { s.upstream == map[] && s.cache == map[] }

  lemma ErasedWhenBothGone<V>(s: Store<V>)
    requires Content(s, Encrypted) == Content(s, Sealed) == None
    requires Encrypted !in s.cache && Sealed !in s.cache
    ensures Erased(s)
  {
    forall p | p in s.upstream || p in s.cache ensures false { PathsAreTwo(p); }
  }

  /** Complete means both resources are absent upstream and uncached, from any store and after any earlier attempt. */
  lemma CompleteTeardownErases<V>(s: Store<V>, encrypted: WriteNet, sealed: WriteNet)
    requires TornDown(s, encrypted, sealed).1
    ensures Erased(TornDown(s, encrypted, sealed).0)
  {
    var t := Wrote(s, Encrypted, Delete, encrypted).0;
    WroteTrue(s, Encrypted, Delete, encrypted);
    WroteTrue(t, Sealed, Delete, sealed);
    WrittenContent(s, Encrypted, None);
    WrittenContent(t, Sealed, None);
    ErasedWhenBothGone(TornDown(s, encrypted, sealed).0);
  }

  /** A repeated teardown brings nothing back, and is complete again when the store answers. */
  lemma RepeatedTeardown<V>(s: Store<V>, encrypted: WriteNet, sealed: WriteNet)
    requires Erased(s)
    ensures Erased(TornDown(s, encrypted, sealed).0)
    ensures Working(encrypted) && Working(sealed) ==> TornDown(s, encrypted, sealed).1
  {
    DeletingNothing(s, Encrypted, encrypted);
    DeletingNothing(s, Sealed, sealed);
  }

  lemma DeletingNothing<V>(s: Store<V>, p: Path, n: WriteNet)
    requires Erased(s)
    ensures Wrote(s, p, Delete, n).0 == s
    ensures Working(n) ==> Wrote(s, p, Delete, n).1
  {
    assert Written(s, p, None) == s && Evicted(s, p) == s;
    if Wrote(s, p, Delete, n).1 { WroteTrue(s, p, Delete, n); } else { WroteFalse(s, p, Delete, n); }
    if Working(n) { WorkingWrite(s, p, Delete, n); }
  }
}
