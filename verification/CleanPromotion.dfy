/**
 * Promotion of one document from quarantine to clean storage: the staged copy, the row
 * transactions around it, and the service that runs them when nothing else interferes.
 * Pipeline.dfy interleaves the same pieces with crashes and rival workers.
 */
module CleanPromotion {
  import opened Basics
  import opened IngestionState

  const CHUNK_SIZE := 65536

  datatype Name = Final(id: Uuid) | Partial(id: Uuid)
  type Files = map<Name, Bytes>

  const SOURCE_MISSING := "PROMOTION_SOURCE_MISSING"
  const SOURCE_INVALID := "PROMOTION_SOURCE_INVALID"
  const DIGEST_MISMATCH := "PROMOTION_DIGEST_MISMATCH"
  const DESTINATION_CONFLICT := "PROMOTION_DESTINATION_CONFLICT"
  const COPY_FAILED := "PROMOTION_COPY_FAILED"
  const FSYNC_FAILED := "PROMOTION_FSYNC_FAILED"
  const TENANT_MISMATCH := "PROMOTION_TENANT_MISMATCH"
  const NOT_PROMOTABLE := "ILLEGAL_STATE"

  /** Raised as it is, not as a PromotionError. */
  const OS_ERROR := "OSError"

  predicate Promotable(s: Status) {
    s == CleanPendingPromotion || s == Promoting || s == PromotionFailed
  }

  // The row transactions.

  function CountAttempt(d: Doc): Doc {
    d.(promotion := d.promotion.(count := d.promotion.count + 1))
  }

  /** Entry of an attempt; from PROMOTING the transition is a no-op and commits nothing. */
  function Begin(d: Doc): Doc
    requires Promotable(d.status)
  {
    Move(CountAttempt(d), Promoting, None, None).value
  }

  /** What is left of `Begin` when the exception that follows rolls back what it did not commit. */
  function BeginThenRaise(d: Doc): Doc
    requires Promotable(d.status)
  {
    if d.status == Promoting then d else Begin(d)
  }

  function RecordFailure(d: Doc, code: string, summary: string): Doc {
    if d.status != Promoting then d
    else Move(d, PromotionFailed, Some(code), Some(summary)).value
  }

  function Relocate(d: Doc, id: Uuid): Doc {
    d.(source := d.source.(path := InCleanStorage(id)), promotion := d.promotion.(cleanId := Some(id)))
  }

  function RecordClean(d: Doc, id: Uuid): Doc
    requires d.status == Promoting
  {
    Move(Relocate(d, id), Clean, None, None).value
  }

  function FlagCleanup(d: Doc): Doc {
    d.(promotion := d.promotion.(cleanupPending := true))
  }

  predicate Matches(hash: Bytes -> Digest, content: Bytes, digest: Digest, size: nat) {
    |content| == size && hash(content) == digest
  }

  /**
   * What may go wrong with the files, one field a call: resolving the storage root, resolving the
   * source's path, looking for the source, looking at the destination, opening the source (or finding it
   * not a regular file), creating the partial file, reading or writing after `interrupted` chunks,
   * flushing, renaming, looking for the partial file of a failed copy, removing it, removing the source.
   */
  datatype Faults = Faults(
    root: bool,
    resolve: bool,
    search: bool,
    probe: bool,
    open: bool,
    irregular: bool,
    create: bool,
    interrupted: Option<nat>,
    fsync: bool,
    rename: bool,
    look: bool,
    cleanup: bool,
    unlink: bool)

  function FirstChunks(content: Bytes, n: nat): Bytes {
    content[..Min(n * CHUNK_SIZE, |content|)]
  }

  function StagedCopy(hash: Bytes -> Digest, files: Files, source: Option<Bytes>, id: Uuid, digest: Digest, size: nat,
                      faults: Faults): (Files, Result<Name, string>)
  {
    if faults.probe then (files, Err(COPY_FAILED))
    else if Final(id) in files then
      (files, if Matches(hash, files[Final(id)], digest, size) then Ok(Final(id)) else Err(DESTINATION_CONFLICT))
    else if source.None? || faults.open then (files, Err(SOURCE_MISSING))
    else if faults.irregular then (files, Err(SOURCE_INVALID))
    else if |source.value| != size then (files, Err(DIGEST_MISMATCH))
    else if faults.create || Partial(id) in files then (files, Err(COPY_FAILED))
    else if faults.interrupted.Some? then
      (files[Partial(id) := FirstChunks(source.value, faults.interrupted.value)], Err(COPY_FAILED))
    else if hash(source.value) != digest then (files[Partial(id) := source.value], Err(DIGEST_MISMATCH))
    else if faults.fsync then (files[Partial(id) := source.value], Err(FSYNC_FAILED))
    else if faults.rename then
      (if faults.look || faults.cleanup then files[Partial(id) := source.value] else files, Err(COPY_FAILED))
    else (files[Final(id) := source.value], Ok(Final(id)))
  }

  class CleanStore {
    var files: Files

    /** `_perform_staged_copy`: reads the source in chunks and writes what it hashes. */
    method PerformStagedCopy(hash: Bytes -> Digest, source: Option<Bytes>, id: Uuid, digest: Digest, size: nat,
                             faults: Faults)
      returns (result: Result<Name, string>)
      modifies this
      ensures (files, result) == StagedCopy(hash, old(files), source, id, digest, size, faults)
    {
      if faults.probe {
        return Err(COPY_FAILED);
      }
      if Final(id) in files {
        if |files[Final(id)]| == size && hash(files[Final(id)]) == digest {
          return Ok(Final(id));
        }
        return Err(DESTINATION_CONFLICT);
      }
      if source.None? || faults.open {
        return Err(SOURCE_MISSING);
      }
      if faults.irregular {
        return Err(SOURCE_INVALID);
      }
      var content := source.value;
      if |content| != size {
        return Err(DIGEST_MISMATCH);
      }
      if faults.create || Partial(id) in files {
        return Err(COPY_FAILED);
      }
      files := files[Partial(id) := []];
      var hashed: Bytes := [];
      var copied := 0;
      var chunks := 0;
      while copied < |content|
        invariant 0 <= copied <= |content|
        invariant hashed == content[..copied] == FirstChunks(content, chunks)
        invariant faults.interrupted.Some? ==> chunks <= faults.interrupted.value
        invariant files == old(files)[Partial(id) := hashed]
      {
        if faults.interrupted == Some(chunks) {
          return Err(COPY_FAILED);
        }
        var upTo := Min(copied + CHUNK_SIZE, |content|);
        var chunk := content[copied..upTo];
        hashed := hashed + chunk;
        copied := upTo;
        files := files[Partial(id) := files[Partial(id)] + chunk];
        chunks := chunks + 1;
      }
      assert hashed == content;
      if faults.interrupted.Some? {
        return Err(COPY_FAILED);
      }
      if copied != size || hash(hashed) != digest {
        return Err(DIGEST_MISMATCH);
      }
      if faults.fsync {
        return Err(FSYNC_FAILED);
      }
      if faults.rename {
        // If this look raises, the error goes on to the handler that records PROMOTION_COPY_FAILED.
        var _ := CleanupPartial(id, faults);
        assert old(files)[Partial(id) := content] - {Partial(id)} == old(files);
        return Err(COPY_FAILED);
      }
      files := (files - {Partial(id)})[Final(id) := files[Partial(id)]];
      assert files == old(files)[Final(id) := content];
      return Ok(Final(id));
    }

    /** `_cleanup_partial_file`: a removal that fails is passed over, a look that fails is not. */
    method CleanupPartial(id: Uuid, faults: Faults) returns (raised: bool)
      modifies this
      ensures raised == faults.look
      ensures files == if raised then old(files) else Cleaned(old(files), id, faults)
    {
      if faults.look {
        return true;
      }
      if Partial(id) in files && !faults.cleanup {
        files := files - {Partial(id)};
      }
      return false;
    }
  }

  /**
   * A final file appears only with verified content, an existing one is never rewritten, and no other
   * name is touched.
   */
  lemma StagedCopyIsSafe(hash: Bytes -> Digest, files: Files, source: Option<Bytes>, id: Uuid, digest: Digest,
                         size: nat, faults: Faults)
    ensures var (after, result) := StagedCopy(hash, files, source, id, digest, size, faults);
            && (forall n :: n in files ==> n in after && after[n] == files[n])
            && (forall n :: n in after ==> n in files || n == Final(id) || n == Partial(id))
            && (result.Ok? ==> Final(id) in after && Matches(hash, after[Final(id)], digest, size))
            && (result.Ok? && Final(id) !in files ==>
                  source == Some(after[Final(id)]) && after.Keys == files.Keys + {Final(id)})
            && (result.Err? ==> (Final(id) in after <==> Final(id) in files))
  {
  }

  /** A sound source that nothing has copied before is promoted exactly when no system call fails. */
  lemma StagedCopySucceedsExactlyWhen(hash: Bytes -> Digest, files: Files, source: Option<Bytes>, id: Uuid,
                                      digest: Digest, size: nat, faults: Faults)
    ensures StagedCopy(hash, files, source, id, digest, size, faults).1.Ok? <==>
            && !faults.probe
            && if Final(id) in files then Matches(hash, files[Final(id)], digest, size)
               else && source.Some? && Matches(hash, source.value, digest, size) && Partial(id) !in files
                    && !faults.open && !faults.irregular && !faults.create && faults.interrupted.None?
                    && !faults.fsync && !faults.rename
  {
  }

  class Quarantine {
    var file: Option<Bytes>
  }

  function NewIdentifier(d: Doc, newId: Uuid): Uuid {
    if d.promotion.cleanId.Some? then d.promotion.cleanId.value else newId
  }

  datatype Promotion = Promotion(doc: Doc, files: Files, source: Option<Bytes>, result: Result<Uuid, string>)

  predicate Admissible(d: Doc, sameTenant: bool) {
    sameTenant && Promotable(d.status) && d.source.digest.Some? && d.source.size.Some?
  }

  function Refusal(d: Doc, sameTenant: bool): string {
    if !sameTenant then TENANT_MISMATCH else if !Promotable(d.status) then NOT_PROMOTABLE else SOURCE_INVALID
  }

  function Copy(hash: Bytes -> Digest, columns: SourceColumns, files: Files, source: Option<Bytes>, id: Uuid,
                faults: Faults): (Files, Result<Name, string>)
    requires columns.digest.Some? && columns.size.Some?
  {
    if columns.path.InCleanStorage? || faults.resolve then (files, Err(SOURCE_INVALID))
    else if faults.search then (files, Err(COPY_FAILED))
    else if source.None? then (files, Err(SOURCE_MISSING))
    else StagedCopy(hash, files, source, id, columns.digest.value, columns.size.value, faults)
  }

  function Cleaned(files: Files, id: Uuid, faults: Faults): Files {
    if faults.cleanup then files else files - {Partial(id)}
  }

  /** `promote_document` from start to end with nobody else at work. */
  function Promote(hash: Bytes -> Digest, d: Doc, files: Files, source: Option<Bytes>, sameTenant: bool, newId: Uuid,
                   faults: Faults): Promotion {
    if !Admissible(d, sameTenant) then Promotion(d, files, source, Err(Refusal(d, sameTenant)))
    else if faults.root then Promotion(BeginThenRaise(d), files, source, Err(OS_ERROR))
    else
      var id := NewIdentifier(d, newId);
      var (copied, result) := Copy(hash, d.source, files, source, id, faults);
      if result.Err? && faults.look then Promotion(BeginThenRaise(d), copied, source, Err(OS_ERROR))
      else if result.Err? then
        Promotion(RecordFailure(Begin(d), result.error, result.error), Cleaned(copied, id, faults), source,
                  Err(result.error))
      else if source.Some? && !faults.unlink then
        Promotion(RecordClean(Begin(d), id), copied, None, Ok(id))
      else
        Promotion(FlagCleanup(RecordClean(Begin(d), id)), copied, source, Ok(id))
  }

  method CopyFromQuarantine(hash: Bytes -> Digest, columns: SourceColumns, store: CleanStore, source: Option<Bytes>,
                            id: Uuid, faults: Faults)
    returns (result: Result<Name, string>)
    requires columns.digest.Some? && columns.size.Some?
    modifies store
    ensures (store.files, result) == Copy(hash, columns, old(store.files), source, id, faults)
  {
    if columns.path.InCleanStorage? || faults.resolve {
      return Err(SOURCE_INVALID);
    }
    if faults.search {
      return Err(COPY_FAILED);
    }
    if source.None? {
      return Err(SOURCE_MISSING);
    }
    result := store.PerformStagedCopy(hash, source, id, columns.digest.value, columns.size.value, faults);
  }

  method PromoteDocument(hash: Bytes -> Digest, row: DocumentRow, store: CleanStore, quarantine: Quarantine,
                         sameTenant: bool, newId: Uuid, faults: Faults)
    returns (result: Result<Uuid, string>)
    modifies row, store, quarantine
    ensures Promotion(row.Row(), store.files, quarantine.file, result)
            == Promote(hash, old(row.Row()), old(store.files), old(quarantine.file), sameTenant, newId, faults)
  {
    if !sameTenant {
      return Err(TENANT_MISMATCH);
    }
    if !Promotable(row.status) {
      return Err(NOT_PROMOTABLE);
    }
    if row.source.digest.None? || row.source.size.None? {
      return Err(SOURCE_INVALID);
    }
    var committed, resumed := row.promotion, row.status == Promoting;
    BeginPromotion(row);
    if faults.root {
      RollBack(row, resumed, committed);
      return Err(OS_ERROR);
    }
    var id := if row.promotion.cleanId.Some? then row.promotion.cleanId.value else newId;
    var copied := CopyFromQuarantine(hash, row.source, store, quarantine.file, id, faults);
    if copied.Err? {
      var raised := store.CleanupPartial(id, faults);
      if raised {
        RollBack(row, resumed, committed);
        return Err(OS_ERROR);
      }
      RecordPromotionFailure(row, copied.error);
      return Err(copied.error);
    }
    RecordPromotion(row, id);
    CleanUpSource(row, quarantine, faults);
    return Ok(id);
  }

  /** The source is removed, or else flagged for a later clean-up. */
  method CleanUpSource(row: DocumentRow, quarantine: Quarantine, faults: Faults)
    modifies row, quarantine
    ensures (row.Row(), quarantine.file) == if old(quarantine.file).Some? && !faults.unlink then (old(row.Row()), None)
                                            else (FlagCleanup(old(row.Row())), old(quarantine.file))
  {
    if quarantine.file.Some? && !faults.unlink {
      quarantine.file := None;
    } else {
      row.promotion := row.promotion.(cleanupPending := true);
    }
  }

  method BeginPromotion(row: DocumentRow)
    requires Promotable(row.status)
    modifies row
    ensures row.Row() == Begin(old(row.Row()))
  {
    row.promotion := row.promotion.(count := row.promotion.count + 1);
    var _ := row.Transition(Promoting, None, None);
  }

  /** An exception leaves the call: what a resumed attempt counted was never committed. */
  method RollBack(row: DocumentRow, resumed: bool, committed: PromotionColumns)
    modifies row
    ensures row.Row() == if resumed then old(row.Row()).(promotion := committed) else old(row.Row())
  {
    if resumed {
      row.promotion := committed;
    }
  }

  method RecordPromotionFailure(row: DocumentRow, code: string)
    modifies row
    ensures row.Row() == RecordFailure(old(row.Row()), code, code)
  {
    if row.status == Promoting {
      var _ := row.Transition(PromotionFailed, Some(code), Some(code));
    }
  }

  method RecordPromotion(row: DocumentRow, id: Uuid)
    requires row.status == Promoting
    modifies row
    ensures row.Row() == RecordClean(old(row.Row()), id)
  {
    row.source := row.source.(path := InCleanStorage(id));
    row.promotion := row.promotion.(cleanId := Some(id));
    var _ := row.Transition(Clean, None, None);
  }

  /** What a copy must get past, in the order of the source; a destination that is there already is not copied again. */
  function CopyHurdles(hash: Bytes -> Digest, columns: SourceColumns, files: Files, source: Option<Bytes>, id: Uuid,
                       faults: Faults): seq<Hurdle<string>>
    requires columns.digest.Some? && columns.size.Some?
  {
    var there := Final(id) in files;
    [ Hurdle(columns.path == InQuarantine && !faults.resolve, "PROMOTION_SOURCE_INVALID"),
      Hurdle(!faults.search, "PROMOTION_COPY_FAILED"),
      Hurdle(source.Some?, "PROMOTION_SOURCE_MISSING"),
      Hurdle(!faults.probe, "PROMOTION_COPY_FAILED"),
      Hurdle(there ==> |files[Final(id)]| == columns.size.value && hash(files[Final(id)]) == columns.digest.value,
             "PROMOTION_DESTINATION_CONFLICT"),
      Hurdle(there || !faults.open, "PROMOTION_SOURCE_MISSING"),
      Hurdle(there || !faults.irregular, "PROMOTION_SOURCE_INVALID"),
      Hurdle(there || (source.Some? && |source.value| == columns.size.value), "PROMOTION_DIGEST_MISMATCH"),
      Hurdle(there || (!faults.create && Partial(id) !in files), "PROMOTION_COPY_FAILED"),
      Hurdle(there || faults.interrupted.None?, "PROMOTION_COPY_FAILED"),
      Hurdle(there || (source.Some? && hash(source.value) == columns.digest.value), "PROMOTION_DIGEST_MISMATCH"),
      Hurdle(there || !faults.fsync, "PROMOTION_FSYNC_FAILED"),
      Hurdle(there || !faults.rename, "PROMOTION_COPY_FAILED")]
  }

  lemma ClearedCopies(hash: Bytes -> Digest, columns: SourceColumns, files: Files, source: Option<Bytes>, id: Uuid,
                      faults: Faults)
    requires columns.digest.Some? && columns.size.Some?
    requires AllCleared(CopyHurdles(hash, columns, files, source, id, faults))
    ensures Copy(hash, columns, files, source, id, faults).1 == Ok(Final(id))
  {
    var h := CopyHurdles(hash, columns, files, source, id, faults);
    assert h[0].cleared && h[1].cleared && h[2].cleared && h[3].cleared && h[4].cleared && h[5].cleared && h[6].cleared;
    assert h[7].cleared && h[8].cleared && h[9].cleared && h[10].cleared && h[11].cleared && h[12].cleared;
  }

  lemma MissedBeforeTheCopy(hash: Bytes -> Digest, columns: SourceColumns, files: Files, source: Option<Bytes>,
                            id: Uuid, faults: Faults, k: nat)
    requires columns.digest.Some? && columns.size.Some? && k < 7
    requires FirstMissed(CopyHurdles(hash, columns, files, source, id, faults), k)
    ensures Copy(hash, columns, files, source, id, faults).1
            == Err(CopyHurdles(hash, columns, files, source, id, faults)[k].code)
  {
    var h := CopyHurdles(hash, columns, files, source, id, faults);
    assert (k > 0 ==> h[0].cleared) && (k > 1 ==> h[1].cleared) && (k > 2 ==> h[2].cleared);
    assert (k > 3 ==> h[3].cleared) && (k > 4 ==> h[4].cleared) && (k > 5 ==> h[5].cleared);
  }

  lemma MissedInTheCopy(hash: Bytes -> Digest, columns: SourceColumns, files: Files, source: Option<Bytes>, id: Uuid,
                        faults: Faults, k: nat)
    requires columns.digest.Some? && columns.size.Some? && k >= 7
    requires FirstMissed(CopyHurdles(hash, columns, files, source, id, faults), k)
    ensures Copy(hash, columns, files, source, id, faults).1
            == Err(CopyHurdles(hash, columns, files, source, id, faults)[k].code)
  {
    var h := CopyHurdles(hash, columns, files, source, id, faults);
    assert h[0].cleared && h[1].cleared && h[2].cleared && h[3].cleared && h[4].cleared && h[5].cleared && h[6].cleared;
    assert (k > 7 ==> h[7].cleared) && (k > 8 ==> h[8].cleared) && (k > 9 ==> h[9].cleared);
    assert (k > 10 ==> h[10].cleared) && (k > 11 ==> h[11].cleared);
  }

  /** A copy succeeds exactly if it gets past every hurdle, and fails under the code of the first it misses. */
  lemma CopiesExactlyWhen(hash: Bytes -> Digest, columns: SourceColumns, files: Files, source: Option<Bytes>, id: Uuid,
                          faults: Faults)
    requires columns.digest.Some? && columns.size.Some?
    ensures var h, result := CopyHurdles(hash, columns, files, source, id, faults),
                             Copy(hash, columns, files, source, id, faults).1;
            && (result.Ok? <==> AllCleared(h))
            && (forall k: nat :: FirstMissed(h, k) ==> result == Err(h[k].code))
  {
    var h := CopyHurdles(hash, columns, files, source, id, faults);
    if AllCleared(h) {
      ClearedCopies(hash, columns, files, source, id, faults);
    } else {
      var k := SomeIsFirstMissed(h);
      if k < 7 {
        MissedBeforeTheCopy(hash, columns, files, source, id, faults, k);
      } else {
        MissedInTheCopy(hash, columns, files, source, id, faults, k);
      }
    }
  }

  /**
   * Which calls are refused before anything is written, and that nothing is: a foreign tenant's, one on a
   * document that waits for no promotion, one without a recorded digest and size.
   */
  lemma RefusedExactlyWhen(hash: Bytes -> Digest, d: Doc, files: Files, source: Option<Bytes>, sameTenant: bool,
                           newId: Uuid, faults: Faults)
    ensures var p := Promote(hash, d, files, source, sameTenant, newId, faults);
            var h := [ Hurdle(sameTenant, "PROMOTION_TENANT_MISMATCH"),
                       Hurdle(d.status in {CleanPendingPromotion, Promoting, PromotionFailed}, "ILLEGAL_STATE"),
                       Hurdle(d.source.digest.Some? && d.source.size.Some?, "PROMOTION_SOURCE_INVALID")];
            && (Admissible(d, sameTenant) <==> AllCleared(h))
            && (forall k: nat :: FirstMissed(h, k) ==> p == Promotion(d, files, source, Err(h[k].code)))
  {
    var h := [ Hurdle(sameTenant, "PROMOTION_TENANT_MISMATCH"),
               Hurdle(d.status in {CleanPendingPromotion, Promoting, PromotionFailed}, "ILLEGAL_STATE"),
               Hurdle(d.source.digest.Some? && d.source.size.Some?, "PROMOTION_SOURCE_INVALID")];
    assert AllCleared(h) ==> h[0].cleared && h[1].cleared && h[2].cleared;
    forall k: nat | FirstMissed(h, k)
      ensures Promote(hash, d, files, source, sameTenant, newId, faults)
              == Promotion(d, files, source, Err(h[k].code))
    {
      assert (k > 0 ==> h[0].cleared) && (k > 1 ==> h[1].cleared);
    }
  }

  lemma CopyIsSafe(hash: Bytes -> Digest, columns: SourceColumns, files: Files, source: Option<Bytes>, id: Uuid,
                   faults: Faults)
    requires columns.digest.Some? && columns.size.Some?
    ensures var (copied, result) := Copy(hash, columns, files, source, id, faults);
            && (result.Ok? ==>
                  Final(id) in copied && Matches(hash, copied[Final(id)], columns.digest.value, columns.size.value))
            && (result.Err? ==> copied - {Partial(id)} == files - {Partial(id)} && result.error != OS_ERROR)
  {
    StagedCopyIsSafe(hash, files, source, id, columns.digest.value, columns.size.value, faults);
  }

  lemma RecordedFailure(d: Doc, code: string)
    requires Promotable(d.status)
    ensures var e := RecordFailure(Begin(d), code, code);
            && e.status == PromotionFailed && e.reason == Some(code)
            && e.source == d.source && e.promotion.cleanId == d.promotion.cleanId
    ensures Begin(d).status == Promoting && Begin(d).source == d.source
    ensures Begin(d).promotion.cleanId == d.promotion.cleanId
  {
  }

  lemma RecordedSuccess(d: Doc, id: Uuid)
    requires Promotable(d.status)
    ensures var e := RecordClean(Begin(d), id);
            e.status == Clean && e.promotion.cleanId == Some(id) && e.source.path == InCleanStorage(id)
  {
  }

  /**
   * All or nothing: afterwards either the document is CLEAN under a verified file and the source is
   * gone or flagged, or the source is where it was and the document waits in PROMOTION_FAILED; in
   * PROMOTING if and only if the storage root could not be resolved, or the copy failed and so did the
   * look for its partial file.
   */
  lemma PromotionIsAllOrNothing(hash: Bytes -> Digest, d: Doc, files: Files, source: Option<Bytes>, sameTenant: bool,
                                newId: Uuid, faults: Faults)
    requires Admissible(d, sameTenant)
    ensures var p, id := Promote(hash, d, files, source, sameTenant, newId, faults), NewIdentifier(d, newId);
            && (p.result.Ok? <==> p.doc.status == Clean)
            && (p.result.Ok? <==> !faults.root && Copy(hash, d.source, files, source, id, faults).1.Ok?)
            && (p.result.Ok? ==>
                  && p.doc.promotion.cleanId == Some(id) && p.result.value == id
                  && p.doc.source.path == InCleanStorage(id)
                  && Final(id) in p.files
                  && Matches(hash, p.files[Final(id)], d.source.digest.value, d.source.size.value)
                  && (p.source.None? || (p.source == source && p.doc.promotion.cleanupPending)))
            && (p.doc.status == Promoting <==> p.result.Err? && (faults.root || faults.look))
            && (p.doc.status == Promoting <==> p.result == Err(OS_ERROR))
            && (p.result.Err? && !faults.root && !faults.look ==>
                  p.doc.status == PromotionFailed && p.doc.reason == Some(p.result.error))
            && (p.result.Err? ==>
                  && p.doc.source == d.source && p.doc.promotion.cleanId == d.promotion.cleanId && p.source == source
                  && p.files - {Partial(id)} == files - {Partial(id)}
                  && (faults.root ==> p.files == files)
                  && (!faults.root && !faults.look && !faults.cleanup ==> Partial(id) !in p.files))
  {
    var id := NewIdentifier(d, newId);
    CopyIsSafe(hash, d.source, files, source, id, faults);
    var (copied, result) := Copy(hash, d.source, files, source, id, faults);
    if result.Err? {
      RecordedFailure(d, result.error);
    } else {
      RecordedSuccess(d, id);
    }
  }

  /** The row of an attempt that began: charged, and with its first audit row unless it was resumed. */
  function BegunTrail(d: Doc): seq<AuditEvent> {
    if d.status == Promoting then d.audit else d.audit + [AuditEvent(d.status, Promoting, None)]
  }

  lemma TheRowAfterAFailure(d: Doc, code: string)
    requires Promotable(d.status)
    ensures RecordFailure(Begin(d), code, code)
            == d.(status := PromotionFailed, reason := Some(code), summary := Some(code),
                  promotion := d.promotion.(count := d.promotion.count + 1),
                  audit := BegunTrail(d) + [AuditEvent(Promoting, PromotionFailed, Some(code))])
    ensures BeginThenRaise(d) == if d.status == Promoting then d
                                 else d.(status := Promoting, audit := BegunTrail(d),
                                         promotion := d.promotion.(count := d.promotion.count + 1))
  {
  }

  lemma TheRowAfterASuccess(d: Doc, id: Uuid)
    requires Promotable(d.status)
    ensures RecordClean(Begin(d), id)
            == d.(status := Clean, source := d.source.(path := InCleanStorage(id)),
                  promotion := d.promotion.(count := d.promotion.count + 1, cleanId := Some(id)),
                  audit := BegunTrail(d) + [AuditEvent(Promoting, Clean, None)])
  {
  }

  /**
   * What a call that is let through leaves on the row, column by column, and of the source: it is gone
   * exactly if the copy succeeded and its removal did not fail, and flagged exactly if it did.
   */
  lemma WhatAnAttemptLeaves(hash: Bytes -> Digest, d: Doc, files: Files, source: Option<Bytes>, sameTenant: bool,
                            newId: Uuid, faults: Faults)
    requires Admissible(d, sameTenant)
    ensures var p := Promote(hash, d, files, source, sameTenant, newId, faults);
            var id := if d.promotion.cleanId.Some? then d.promotion.cleanId.value else newId;
            var charged := d.promotion.(count := d.promotion.count + 1);
            var flagged := source.None? || faults.unlink;
            if p.result.Ok? then
              && p.doc == d.(status := Clean, source := d.source.(path := InCleanStorage(id)),
                             promotion := charged.(cleanId := Some(id),
                                                   cleanupPending := flagged || d.promotion.cleanupPending),
                             audit := BegunTrail(d) + [AuditEvent(Promoting, Clean, None)])
              && p.source == (if flagged then source else None)
            else if faults.root || faults.look then
              p.doc == (if d.status == Promoting then d
                        else d.(status := Promoting, audit := BegunTrail(d), promotion := charged))
            else
              p.doc == d.(status := PromotionFailed, reason := Some(p.result.error), summary := Some(p.result.error),
                          promotion := charged,
                          audit := BegunTrail(d) + [AuditEvent(Promoting, PromotionFailed, Some(p.result.error))])
  {
    var (copied, result) := Copy(hash, d.source, files, source, NewIdentifier(d, newId), faults);
    if result.Err? {
      TheRowAfterAFailure(d, result.error);
    } else {
      TheRowAfterASuccess(d, NewIdentifier(d, newId));
    }
    TheRowAfterAFailure(d, "");
  }
}
