/** Streaming an upload into quarantine: what the recorded digest, size, header and tail mean. */
module QuarantineUpload {
  import opened Basics

  const HEADER_WINDOW := 1024
  const TAIL_WINDOW := 1024

  datatype Name = Upload(id: Uuid) | PartialUpload(id: Uuid)

  type Files = map<Name, Bytes>

  datatype Written = Written(id: Uuid, digest: Digest, size: nat, header: Bytes, tail: Bytes)

  datatype Settings = Settings(hash: Bytes -> Digest, maxSize: nat)

  function Last(b: Bytes, n: nat): Bytes {
    if |b| <= n then b else b[|b| - n..]
  }

  function First(b: Bytes, n: nat): Bytes {
    b[..Min(n, |b|)]
  }

  /** A window that keeps only its last bytes at every chunk ends up with the last bytes of the whole. */
  lemma TailOfTail(a: Bytes, b: Bytes, n: nat)
    ensures Last(Last(a, n) + b, n) == Last(a + b, n)
  {
  }

  lemma HeadGrows(a: Bytes, b: Bytes, n: nat)
    ensures First(a + b, n) == First(a, n) + First(b, n - |First(a, n)|)
  {
  }

  /** What an undisturbed upload of this content does to the store. */
  function Stored(cfg: Settings, files: Files, id: Uuid, content: Bytes): (Files, Result<Written, string>) {
    if PartialUpload(id) in files then (files, Err("IDENTIFIER_COLLISION"))
    else if |content| > cfg.maxSize then (files, Err("TOO_LARGE"))
    else if content == [] then (files, Err("EMPTY_FILE"))
    else if Upload(id) in files then (files, Err("IDENTIFIER_COLLISION"))
    else (files[Upload(id) := content],
          Ok(Written(id, cfg.hash(content), |content|, First(content, HEADER_WINDOW), Last(content, TAIL_WINDOW))))
  }

  /** The call that fails, if any: reads are numbered from 0, the last one finds the end of the body. */
  datatype Fault = NoFault | CreateFails | ReadFails(at: nat) | WriteFails(at: nat) | FlushFails | RenameFails

  /** Why the reading loop is left early, and after how many pieces were written. */
  datatype Cut = Cut(code: string, written: nat)

  /** How the reading loop is left early, from read `i` on with `total` bytes taken. */
  function CutShort(cfg: Settings, pieces: seq<Bytes>, fault: Fault, i: nat, total: nat): (cut: Option<Cut>)
    requires i <= |pieces|
    ensures cut.Some? ==> i <= cut.value.written <= |pieces|
    decreases |pieces| - i
  {
    if fault == ReadFails(i) then Some(Cut("READ_FAILURE", i))
    else if i >= |pieces| then None
    else if total + |pieces[i]| > cfg.maxSize then Some(Cut("TOO_LARGE", i))
    else if fault == WriteFails(i) then Some(Cut("WRITE_FAILURE", i))
    else CutShort(cfg, pieces, fault, i + 1, total + |pieces[i]|)
  }

  /** The partial file is removed, or stays because its removal fails too (`stuck`), which hides the first failure. */
  function GivenUp(files: Files, id: Uuid, partial: Bytes, code: string, stuck: bool): (Files, Result<Written, string>)
  {
    if stuck then (files[PartialUpload(id) := partial], Err("OSError")) else (files, Err(code))
  }

  function Streamed(cfg: Settings, files: Files, id: Uuid, pieces: seq<Bytes>, fault: Fault, stuck: bool)
    : (Files, Result<Written, string>)
  {
    if PartialUpload(id) in files then (files, Err("IDENTIFIER_COLLISION"))
    else if fault.CreateFails? then (files, Err("WRITE_FAILURE"))
    else
      var cut := CutShort(cfg, pieces, fault, 0, 0);
      var stored := Stored(cfg, files, id, Concat(pieces));
      if cut.Some? then GivenUp(files, id, Concat(pieces[..cut.value.written]), cut.value.code, stuck)
      else if fault.FlushFails? then GivenUp(files, id, Concat(pieces), "WRITE_FAILURE", stuck)
      else if stored.1.Err? then GivenUp(files, id, Concat(pieces), stored.1.error, stuck)
      else if fault.RenameFails? then GivenUp(files, id, Concat(pieces), "WRITE_FAILURE", stuck)
      else stored
  }

  /** The header and tail windows, one chunk further on. */
  method MoveWindows(ghost before: Bytes, chunk: Bytes, header: Bytes, tail: Bytes) returns (head: Bytes, end: Bytes)
    requires header == First(before, HEADER_WINDOW) && tail == Last(before, TAIL_WINDOW)
    ensures head == First(before + chunk, HEADER_WINDOW) && end == Last(before + chunk, TAIL_WINDOW)
  {
    HeadGrows(before, chunk, HEADER_WINDOW);
    TailOfTail(before, chunk, TAIL_WINDOW);
    head := header;
    if |header| < HEADER_WINDOW {
      head := header + First(chunk, HEADER_WINDOW - |header|);
    }
    end := Last(tail + chunk, TAIL_WINDOW);
  }

  class QuarantineStore {
    var files: Files

    /** `stream_upload_to_quarantine`. An empty read is the end of the body, so no piece is empty. */
    method StreamUpload(cfg: Settings, pieces: seq<Bytes>, id: Uuid, fault: Fault, stuck: bool)
      returns (result: Result<Written, string>)
      requires forall i :: 0 <= i < |pieces| ==> pieces[i] != []
      modifies this
      ensures (files, result) == Streamed(cfg, old(files), id, pieces, fault, stuck)
    {
      if PartialUpload(id) in files {
        return Err("IDENTIFIER_COLLISION");
      }
      if fault.CreateFails? {
        return Err("WRITE_FAILURE");
      }
      files := files[PartialUpload(id) := []];
      var read := ReadAll(cfg, pieces, id, fault);
      if read.Err? {
        assert files - {PartialUpload(id)} == old(files);
        result := GiveUp(id, read.error, stuck);
        return;
      }
      if fault.FlushFails? || read.value.size == 0 || Upload(id) in files || fault.RenameFails? {
        var code := if fault.FlushFails? then "WRITE_FAILURE" else if read.value.size == 0 then "EMPTY_FILE"
                    else if Upload(id) in files then "IDENTIFIER_COLLISION" else "WRITE_FAILURE";
        assert files - {PartialUpload(id)} == old(files);
        result := GiveUp(id, code, stuck);
        return;
      }
      files := (files - {PartialUpload(id)})[Upload(id) := files[PartialUpload(id)]];
      assert files == old(files)[Upload(id) := Concat(pieces)];
      return Ok(read.value);
    }

    /** `unlink(missing_ok=True)` in the handlers, which lets its own error through. */
    method GiveUp(id: Uuid, code: string, stuck: bool) returns (result: Result<Written, string>)
      requires PartialUpload(id) in files
      modifies this
      ensures (files, result)
              == GivenUp(old(files) - {PartialUpload(id)}, id, old(files[PartialUpload(id)]), code, stuck)
    {
      if stuck {
        assert (files - {PartialUpload(id)})[PartialUpload(id) := files[PartialUpload(id)]] == files;
        return Err("OSError");
      }
      files := files - {PartialUpload(id)};
      return Err(code);
    }

    /** The loop over the request body, into the partial file. */
    method ReadAll(cfg: Settings, pieces: seq<Bytes>, id: Uuid, fault: Fault) returns (result: Result<Written, string>)
      requires PartialUpload(id) in files && files[PartialUpload(id)] == []
      modifies this
      ensures var cut := CutShort(cfg, pieces, fault, 0, 0);
              && (result.Err? <==> cut.Some?)
              && (result.Err? ==>
                    && result.error == cut.value.code
                    && files == old(files)[PartialUpload(id) := Concat(pieces[..cut.value.written])])
      ensures result.Ok? ==>
                var content := Concat(pieces);
                && |content| <= cfg.maxSize && files == old(files)[PartialUpload(id) := content]
                && result.value == Written(id, cfg.hash(content), |content|, First(content, HEADER_WINDOW),
                                           Last(content, TAIL_WINDOW))
    {
      var hashed: Bytes := [];
      var total := 0;
      var header: Bytes := [];
      var tail: Bytes := [];
      for i := 0 to |pieces|
        invariant hashed == Concat(pieces[..i]) && total == |hashed| <= cfg.maxSize
        invariant header == First(hashed, HEADER_WINDOW) && tail == Last(hashed, TAIL_WINDOW)
        invariant files == old(files)[PartialUpload(id) := hashed]
        invariant CutShort(cfg, pieces, fault, 0, 0) == CutShort(cfg, pieces, fault, i, total)
      {
        if fault == ReadFails(i) {
          return Err("READ_FAILURE");
        }
        var chunk := pieces[i];
        ConcatAppends(pieces, i);
        total := total + |chunk|;
        if total > cfg.maxSize {
          return Err("TOO_LARGE");
        }
        header, tail := MoveWindows(hashed, chunk, header, tail);
        hashed := hashed + chunk;
        if fault == WriteFails(i) {
          return Err("WRITE_FAILURE");
        }
        files := files[PartialUpload(id) := files[PartialUpload(id)] + chunk];
      }
      assert pieces[..|pieces|] == pieces;
      if fault == ReadFails(|pieces|) {
        return Err("READ_FAILURE");
      }
      return Ok(Written(id, cfg.hash(hashed), total, header, tail));
    }
  }

  /** The loop is left early if and only if the body is too long or a read or a write it makes fails. */
  lemma {:induction false} CutShortExactlyWhen(cfg: Settings, pieces: seq<Bytes>, fault: Fault, i: nat, total: nat)
    requires i <= |pieces| && total == |Concat(pieces[..i])| <= cfg.maxSize
    ensures CutShort(cfg, pieces, fault, i, total).None? <==>
            && |Concat(pieces)| <= cfg.maxSize
            && !(fault.ReadFails? && i <= fault.at <= |pieces|)
            && !(fault.WriteFails? && i <= fault.at < |pieces|)
    ensures var cut := CutShort(cfg, pieces, fault, i, total);
            cut.Some? && cut.value.code == "TOO_LARGE" ==> |Concat(pieces)| > cfg.maxSize
    decreases |pieces| - i
  {
    if i == |pieces| {
      assert pieces[..i] == pieces;
    } else {
      ConcatAppends(pieces, i);
      PrefixIsAPrefix(pieces, i + 1);
      if total + |pieces[i]| <= cfg.maxSize {
        CutShortExactlyWhen(cfg, pieces, fault, i + 1, total + |pieces[i]|);
      }
    }
  }

  /** However the body is cut into reads, an undisturbed upload depends on its bytes alone. */
  lemma OnlyTheBytesMatter(cfg: Settings, files: Files, id: Uuid, pieces: seq<Bytes>)
    ensures Streamed(cfg, files, id, pieces, NoFault, false) == Stored(cfg, files, id, Concat(pieces))
  {
    assert pieces[..0] == [];
    CutShortExactlyWhen(cfg, pieces, NoFault, 0, 0);
    TooLongIsTheOnlyCut(cfg, pieces, 0, 0);
  }

  lemma {:induction false} TooLongIsTheOnlyCut(cfg: Settings, pieces: seq<Bytes>, i: nat, total: nat)
    requires i <= |pieces|
    ensures CutShort(cfg, pieces, NoFault, i, total).Some? ==>
              CutShort(cfg, pieces, NoFault, i, total).value.code == "TOO_LARGE"
    decreases |pieces| - i
  {
    if i < |pieces| && total + |pieces[i]| <= cfg.maxSize {
      TooLongIsTheOnlyCut(cfg, pieces, i + 1, total + |pieces[i]|);
    }
  }

  /**
   * All or nothing, and exactly when: the whole body is stored under its name if both names were free,
   * it is neither empty nor too long, and no call that was made failed; otherwise the store is as it was,
   * but for a partial file that was created and could not be removed again.
   */
  lemma UploadsAreAllOrNothing(cfg: Settings, files: Files, id: Uuid, pieces: seq<Bytes>, fault: Fault, stuck: bool)
    ensures var (after, result) := Streamed(cfg, files, id, pieces, fault, stuck);
            var created := PartialUpload(id) !in files && !fault.CreateFails?;
            && (result.Ok? <==>
                  && created && Upload(id) !in files && 0 < |Concat(pieces)| <= cfg.maxSize
                  && !fault.FlushFails? && !fault.RenameFails?
                  && !(fault.ReadFails? && fault.at <= |pieces|) && !(fault.WriteFails? && fault.at < |pieces|))
            && (result.Ok? ==> after == files[Upload(id) := Concat(pieces)])
            && (result.Err? && !(created && stuck) ==> after == files)
            && (result.Err? && created && stuck ==>
                  && PartialUpload(id) in after && after[PartialUpload(id)] <= Concat(pieces)
                  && after == files[PartialUpload(id) := after[PartialUpload(id)]])
  {
    assert pieces[..0] == [];
    CutShortExactlyWhen(cfg, pieces, fault, 0, 0);
    var cut := CutShort(cfg, pieces, fault, 0, 0);
    if cut.Some? {
      PrefixIsAPrefix(pieces, cut.value.written);
    }
  }

  lemma {:induction false} PrefixIsAPrefix(pieces: seq<Bytes>, i: nat)
    requires i <= |pieces|
    ensures Concat(pieces[..i]) <= Concat(pieces)
  {
    if i > 0 {
      PrefixIsAPrefix(pieces[1..], i - 1);
      assert pieces[..i][1..] == pieces[1..][..i - 1];
    }
  }

  /**
   * Where the reading loop stops: after the pieces it wrote, all within the limit, at a read that fails, a
   * piece that passes the limit, or a write that fails; in this order at one piece.
   */
  lemma {:induction false} StopsExactlyAt(cfg: Settings, pieces: seq<Bytes>, fault: Fault, i: nat, total: nat)
    requires i <= |pieces| && total == |Concat(pieces[..i])| <= cfg.maxSize
    requires CutShort(cfg, pieces, fault, i, total).Some?
    ensures var cut := CutShort(cfg, pieces, fault, i, total).value;
            && |Concat(pieces[..cut.written])| <= cfg.maxSize
            && cut.code in {"READ_FAILURE", "TOO_LARGE", "WRITE_FAILURE"}
            && (cut.code == "READ_FAILURE" <==> fault == ReadFails(cut.written))
            && (cut.code != "READ_FAILURE" ==>
                  && cut.written < |pieces|
                  && (cut.code == "TOO_LARGE" <==> |Concat(pieces[..cut.written + 1])| > cfg.maxSize)
                  && (cut.code == "WRITE_FAILURE" ==> fault == WriteFails(cut.written)))
    decreases |pieces| - i
  {
    if i < |pieces| {
      ConcatAppends(pieces, i);
      if fault != ReadFails(i) && total + |pieces[i]| <= cfg.maxSize && fault != WriteFails(i) {
        StopsExactlyAt(cfg, pieces, fault, i + 1, total + |pieces[i]|);
      }
    }
  }

  /** Why an upload fails: the first of these, or with the error of a removal that fails in its turn. */
  lemma FailsExactlyAs(cfg: Settings, files: Files, id: Uuid, pieces: seq<Bytes>, fault: Fault, stuck: bool)
    ensures var (after, result) := Streamed(cfg, files, id, pieces, fault, stuck);
            var cut := CutShort(cfg, pieces, fault, 0, 0);
            var h := [ Hurdle(PartialUpload(id) !in files, "IDENTIFIER_COLLISION"),
                       Hurdle(fault != CreateFails, "WRITE_FAILURE"),
                       Hurdle(cut.None?, if cut.Some? then cut.value.code else ""),
                       Hurdle(fault != FlushFails, "WRITE_FAILURE"),
                       Hurdle(Concat(pieces) != [], "EMPTY_FILE"),
                       Hurdle(Upload(id) !in files, "IDENTIFIER_COLLISION"),
                       Hurdle(fault != RenameFails, "WRITE_FAILURE")];
            && (result.Ok? <==> AllCleared(h))
            && (forall k: nat :: FirstMissed(h, k) ==> result == Err(if k >= 2 && stuck then "OSError" else h[k].code))
  {
    var cut := CutShort(cfg, pieces, fault, 0, 0);
    var h := [ Hurdle(PartialUpload(id) !in files, "IDENTIFIER_COLLISION"),
               Hurdle(fault != CreateFails, "WRITE_FAILURE"),
               Hurdle(cut.None?, if cut.Some? then cut.value.code else ""),
               Hurdle(fault != FlushFails, "WRITE_FAILURE"),
               Hurdle(Concat(pieces) != [], "EMPTY_FILE"),
               Hurdle(Upload(id) !in files, "IDENTIFIER_COLLISION"),
               Hurdle(fault != RenameFails, "WRITE_FAILURE")];
    assert pieces[..0] == [];
    CutShortExactlyWhen(cfg, pieces, fault, 0, 0);
    if AllCleared(h) {
      assert h[0].cleared && h[1].cleared && h[2].cleared && h[3].cleared && h[4].cleared && h[5].cleared;
      assert h[6].cleared;
    } else {
      var k := SomeIsFirstMissed(h);
      assert (k > 0 ==> h[0].cleared) && (k > 1 ==> h[1].cleared) && (k > 2 ==> h[2].cleared);
      assert (k > 3 ==> h[3].cleared) && (k > 4 ==> h[4].cleared) && (k > 5 ==> h[5].cleared);
    }
  }

  lemma EndsOf(body: Bytes, n: nat)
    ensures var head, tail := First(body, n), Last(body, n);
            && head <= body && |head| == Min(n, |body|)
            && |tail| == Min(n, |body|) && body[|body| - |tail|..] == tail
  {
  }

  lemma RecordedWhenStored(cfg: Settings, files: Files, id: Uuid, pieces: seq<Bytes>, fault: Fault, stuck: bool)
    requires Streamed(cfg, files, id, pieces, fault, stuck).1.Ok?
    ensures Streamed(cfg, files, id, pieces, fault, stuck).1 == Stored(cfg, files, id, Concat(pieces)).1
  {
  }

  /** What is recorded of an upload: its digest and length, and up to 1024 bytes of each of its ends. */
  lemma RecordsTheBody(cfg: Settings, files: Files, id: Uuid, pieces: seq<Bytes>, fault: Fault, stuck: bool)
    requires Streamed(cfg, files, id, pieces, fault, stuck).1.Ok?
    ensures var body, w := Concat(pieces), Streamed(cfg, files, id, pieces, fault, stuck).1.value;
            && w.id == id && w.digest == cfg.hash(body) && w.size == |body|
            && w.header <= body && |w.header| == Min(1024, |body|)
            && |w.tail| == Min(1024, |body|) && body[|body| - |w.tail|..] == w.tail
  {
    RecordedWhenStored(cfg, files, id, pieces, fault, stuck);
    EndsOf(Concat(pieces), 1024);
  }
}
