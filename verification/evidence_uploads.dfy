/**
 Uploads racing for one proof (funding/service.ts completeUpload and the stale-row removal of
 submitProof; payout/service.ts completeUpload is the same protocol without the removal). The row, the
 file and every request's progress are one state; a step is one read, one file operation or one commit.

 Files behave as POSIX files: a writer holds its own file, unlinking a name takes whatever file has that
 name, and what is written to a file that lost its name is seen by nobody.
 */
module EvidenceUploads {
  import opened Common
  import opened EvidenceStorage

  /** The proof row: waiting for its file, uploaded (the winner is history), or dropped as stale. */
  datatype Row = Pending | Uploaded(winner: nat) | Dropped

  /** The file that has the proof's name. */
  datatype File = File(creator: nat, bytes: seq<Byte>)

  /** A request to completeUpload, by what it does next. */
  datatype Request =
    | Opening
    | Writing(received: seq<Byte>)
    | Committing(received: seq<Byte>)
    | Cleaning
    | Ended(success: bool)

  /** What the upload promised, and the store's limit. */
  datatype Promise = Promise(sizeBytes: int, contentType: ContentType, expiresAt: Instant, maximum: int)

  datatype World = World(row: Row, file: Option<File>, requests: map<nat, Request>, removing: bool)

  datatype Step =
    | Begin(request: nat, now: Instant, authentic: bool)
    | Open(request: nat)
    | Chunk(request: nat, bytes: seq<Byte>)
    | SourceEnds(request: nat)
    | SourceBreaks(request: nat)
    | Commit(request: nat, fundingPending: bool)
    | Clean(request: nat)
    | DropStale(now: Instant)
    | RemoveStaleFile

  function Set(w: World, request: nat, phase: Request): World {
    w.(requests := w.requests[request := phase])
  }

  /** Bytes written to a request's own file show under the name only while that file still has it. */
  function WriteOwn(file: Option<File>, request: nat, bytes: seq<Byte>): Option<File> {
    if file.Some? && file.value.creator == request then Some(File(request, file.value.bytes + bytes)) else file
  }

  function Next(w: World, step: Step, p: Promise): World {
    match step
    case Begin(request, now, authentic) =>
      if request in w.requests then w
      else Set(w, request, if w.row.Pending? && p.expiresAt > now && authentic then Opening else Ended(false))
    case Open(request) =>
      if request !in w.requests || !w.requests[request].Opening? then w
      else if p.sizeBytes < 1 || p.sizeBytes > p.maximum || w.file.Some? then Set(w, request, Ended(false))
      else Set(w.(file := Some(File(request, []))), request, Writing([]))
    case Chunk(request, bytes) =>
      if request !in w.requests || !w.requests[request].Writing? then w
      else
        var received := w.requests[request].received + bytes;
        if |received| > p.sizeBytes || |received| > p.maximum then Set(w, request, Cleaning)
        else Set(w.(file := WriteOwn(w.file, request, bytes)), request, Writing(received))
    case SourceEnds(request) =>
      if request !in w.requests || !w.requests[request].Writing? then w
      else
        var received := w.requests[request].received;
        Set(w, request, if |received| == p.sizeBytes && Signed(p.contentType, received) then Committing(received) else Cleaning)
    case SourceBreaks(request) =>
      if request !in w.requests || !w.requests[request].Writing? then w else Set(w, request, Cleaning)
    case Commit(request, fundingPending) =>
      if request !in w.requests || !w.requests[request].Committing? then w
      else if w.row.Pending? && fundingPending then Set(w.(row := Uploaded(request)), request, Ended(true))
      else Set(w, request, Cleaning)
    case Clean(request) =>
      if request !in w.requests || !w.requests[request].Cleaning? then w else Set(w.(file := None), request, Ended(false))
    case DropStale(now) =>
      if w.row.Pending? && p.expiresAt <= now then w.(row := Dropped, removing := true) else w
    case RemoveStaleFile => if w.removing then w.(file := None, removing := false) else w
  }

  const START := World(Pending, None, map[], false)

  ghost predicate IsRun(worlds: seq<World>, steps: seq<Step>, p: Promise) {
    && |worlds| == |steps| + 1
    && worlds[0] == START
    && (forall i | 0 <= i < |steps| :: worlds[i + 1] == Next(worlds[i], steps[i], p))
  }

  // ----- The invariant -----

  /** This request created a file and has not settled what becomes of it. */
  predicate Owes(request: Request) {
    request.Writing? || request.Committing? || request.Cleaning?
  }

  /** The file as its creator left it so far. */
  predicate Faithful(file: File, request: Request) {
    && (request.Writing? ==> file.bytes == request.received)
    && (request.Committing? ==> file.bytes == request.received)
  }

  predicate Complete(bytes: seq<Byte>, p: Promise) {
    |bytes| == p.sizeBytes && Signed(p.contentType, bytes)
  }

  /** Whoever has the name is still at work on it or won the row. */
  predicate FileOk(w: World) {
    w.file.Some? ==>
      || (w.row.Uploaded? && w.row.winner == w.file.value.creator)
      || (w.file.value.creator in w.requests && Owes(w.requests[w.file.value.creator]) &&
          Faithful(w.file.value, w.requests[w.file.value.creator]))
  }

  /** While the row waits, only one request can have created the file, and it still has it. */
  predicate RowOk(w: World, p: Promise) {
    match w.row
    case Pending => !w.removing && forall request | request in w.requests && Owes(w.requests[request]) ::
        w.file.Some? && w.file.value.creator == request
    case Uploaded(winner) =>
      && !w.removing
      && w.file.Some? && w.file.value.creator == winner && Complete(w.file.value.bytes, p)
      && forall request | request in w.requests :: !Owes(w.requests[request])
    case Dropped => true
  }

  predicate RequestsOk(w: World, p: Promise) {
    && (forall request | request in w.requests && w.requests[request].Committing? :: Complete(w.requests[request].received, p))
    && (forall request | request in w.requests && w.requests[request] == Ended(true) :: w.row == Uploaded(request))
  }

  predicate Inv(w: World, p: Promise) {
    FileOk(w) && RowOk(w, p) && RequestsOk(w, p)
  }

  /** Steps of a request that has created its file. */
  lemma OwnerKeeps(w: World, step: Step, p: Promise)
    requires Inv(w, p) && (step.Chunk? || step.SourceEnds? || step.SourceBreaks?) && step.request in w.requests
    ensures Inv(Next(w, step, p), p)
  {
  }

  lemma CommitKeeps(w: World, step: Step, p: Promise)
    requires Inv(w, p) && step.Commit?
    ensures Inv(Next(w, step, p), p)
  {
  }

  lemma CleanKeeps(w: World, step: Step, p: Promise)
    requires Inv(w, p) && (step.Clean? || step.RemoveStaleFile? || step.DropStale?)
    ensures Inv(Next(w, step, p), p)
  {
  }

  lemma BeginKeeps(w: World, step: Step, p: Promise)
    requires Inv(w, p) && (step.Begin? || step.Open?)
    ensures Inv(Next(w, step, p), p)
  {
  }

  lemma StepKeeps(w: World, step: Step, p: Promise)
    requires Inv(w, p)
    ensures Inv(Next(w, step, p), p)
  {
    if step.Begin? || step.Open? {
      BeginKeeps(w, step, p);
    } else if step.Commit? {
      CommitKeeps(w, step, p);
    } else if step.Clean? || step.RemoveStaleFile? || step.DropStale? {
      CleanKeeps(w, step, p);
    } else if step.request in w.requests {
      OwnerKeeps(w, step, p);
    }
  }

  lemma {:induction false} RunKeeps(worlds: seq<World>, steps: seq<Step>, p: Promise, i: nat)
    requires IsRun(worlds, steps, p) && i < |worlds|
    ensures Inv(worlds[i], p)
  {
    if i > 0 {
      RunKeeps(worlds, steps, p, i - 1);
      hide Inv, Next;
      StepKeeps(worlds[i - 1], steps[i - 1], p);
    }
  }

  // ----- What every interleaving guarantees -----

  /** A row marked uploaded has its file, of the promised length and type, and only one request was told it succeeded. */
  lemma UploadedMeansComplete(worlds: seq<World>, steps: seq<Step>, p: Promise, i: nat)
    requires IsRun(worlds, steps, p) && i < |worlds|
    ensures worlds[i].row.Uploaded? ==> worlds[i].file.Some? && Complete(worlds[i].file.value.bytes, p)
    ensures forall a, b | a in worlds[i].requests && b in worlds[i].requests &&
                          worlds[i].requests[a] == Ended(true) && worlds[i].requests[b] == Ended(true) :: a == b
  {
    RunKeeps(worlds, steps, p, i);
  }

  lemma UploadedStep(w: World, step: Step, p: Promise)
    requires Inv(w, p) && w.row.Uploaded?
    ensures Next(w, step, p).row == w.row && Next(w, step, p).file == w.file
  {
  }

  /** Once uploaded, always uploaded, with the same file: no loser unlinks, replaces or appends to it. */
  lemma {:induction false} UploadedIsForever(worlds: seq<World>, steps: seq<Step>, p: Promise, i: nat, j: nat)
    requires IsRun(worlds, steps, p) && i <= j < |worlds| && worlds[i].row.Uploaded?
    ensures worlds[j].row == worlds[i].row && worlds[j].file == worlds[i].file
  {
    if i < j {
      UploadedIsForever(worlds, steps, p, i, j - 1);
      RunKeeps(worlds, steps, p, j - 1);
      hide Next, Inv;
      UploadedStep(worlds[j - 1], steps[j - 1], p);
    }
  }

  /** When every request and the stale-file removal have ended, a file is left exactly if the row is uploaded. */
  lemma NoOrphans(worlds: seq<World>, steps: seq<Step>, p: Promise, i: nat)
    requires IsRun(worlds, steps, p) && i < |worlds|
    requires forall request | request in worlds[i].requests :: worlds[i].requests[request].Ended?
    requires !worlds[i].removing
    ensures worlds[i].file.Some? <==> worlds[i].row.Uploaded?
  {
    RunKeeps(worlds, steps, p, i);
  }

  // ----- One request's writing is WriteObject -----

  /** Feed the chunks to this request, one step each, with nothing in between. */
  function Feed(w: World, request: nat, chunks: seq<seq<Byte>>, p: Promise): World
    decreases |chunks|
  {
    if chunks == [] then w else Feed(Next(w, Chunk(request, chunks[0]), p), request, chunks[1..], p)
  }

  lemma {:induction false} FeedConcatenates(w: World, request: nat, chunks: seq<seq<Byte>>, p: Promise)
    requires request in w.requests && p.sizeBytes <= p.maximum
    requires w.requests[request].Cleaning? || (w.requests[request].Writing? && |w.requests[request].received| <= p.sizeBytes)
    ensures var after := Feed(w, request, chunks, p);
            && request in after.requests
            && after.requests[request] ==
               if w.requests[request].Cleaning? || |w.requests[request].received| + |Concat(chunks)| > p.sizeBytes then Cleaning
               else Writing(w.requests[request].received + Concat(chunks))
    decreases |chunks|
  {
    if chunks == [] {
      assert w.requests[request].Writing? ==> w.requests[request].received + [] == w.requests[request].received;
    } else {
      FeedConcatenates(Next(w, Chunk(request, chunks[0]), p), request, chunks[1..], p);
      if w.requests[request].Writing? {
        var received := w.requests[request].received;
        assert received + (chunks[0] + Concat(chunks[1..])) == received + chunks[0] + Concat(chunks[1..]);
      }
    }
  }

  /** A request gets as far as its commit exactly when the storage judges what it received as stored; otherwise it cleans up. */
  lemma WritesLikeStorage(w: World, request: nat, chunks: seq<seq<Byte>>, breaks: bool, p: Promise)
    requires request in w.requests && w.requests[request].Opening?
    ensures var created := Next(w, Open(request), p);
            var fed := Feed(created, request, chunks, p);
            var after := Next(fed, if breaks then SourceBreaks(request) else SourceEnds(request), p);
            var verdict := Judge(w.file.Some?, Concat(chunks), breaks, p.sizeBytes, p.maximum, p.contentType);
            && request in after.requests
            && after.requests[request] ==
               if verdict == Stored then Committing(Concat(chunks))
               else if created.requests[request].Ended? then Ended(false) else Cleaning
  {
    var created := Next(w, Open(request), p);
    if created.requests[request].Writing? {
      FeedConcatenates(created, request, chunks, p);
      assert [] + Concat(chunks) == Concat(chunks);
    } else {
      EndedStays(created, request, chunks, p);
    }
  }

  lemma {:induction false} EndedStays(w: World, request: nat, chunks: seq<seq<Byte>>, p: Promise)
    requires request in w.requests && w.requests[request].Ended?
    ensures Feed(w, request, chunks, p) == w
  {
    if chunks != [] {
      EndedStays(w, request, chunks[1..], p);
    }
  }

  // ----- One request with nothing in between -----

  function Undisturbed(
      w: World, request: nat, now: Instant, authentic: bool, chunks: seq<seq<Byte>>, breaks: bool, fundingPending: bool, p: Promise): World
  {
    var begun := Next(w, Begin(request, now, authentic), p);
    var fed := Feed(Next(begun, Open(request), p), request, chunks, p);
    var read := Next(fed, if breaks then SourceBreaks(request) else SourceEnds(request), p);
    Next(Next(read, Commit(request, fundingPending), p), Clean(request), p)
  }

  lemma {:induction false} FeedShows(w: World, request: nat, chunks: seq<seq<Byte>>, p: Promise)
    requires request in w.requests && w.requests[request].Writing? && w.file == Some(File(request, w.requests[request].received))
    ensures var after := Feed(w, request, chunks, p);
            && request in after.requests && after.requests == w.requests[request := after.requests[request]]
            && after.row == w.row && after.removing == w.removing && after.file.Some? && after.file.value.creator == request
            && (after.requests[request].Writing? ==> after.file.value.bytes == after.requests[request].received)
    decreases |chunks|
  {
    if chunks != [] {
      var fed := Next(w, Chunk(request, chunks[0]), p);
      if fed.requests[request].Writing? {
        FeedShows(fed, request, chunks[1..], p);
      } else {
        CleaningStays(fed, request, chunks[1..], p);
      }
    }
  }

  lemma {:induction false} CleaningStays(w: World, request: nat, chunks: seq<seq<Byte>>, p: Promise)
    requires request in w.requests && w.requests[request].Cleaning?
    ensures Feed(w, request, chunks, p) == w
  {
    if chunks != [] {
      CleaningStays(w, request, chunks[1..], p);
    }
  }

  /**
   An upload that nothing interferes with succeeds exactly when the row waits for it, its link is good, the name is free, and
   what arrives is complete; then row and file are its own, and otherwise both are as they were.
   */
  lemma UploadLaw(
      w: World, request: nat, now: Instant, authentic: bool, chunks: seq<seq<Byte>>, breaks: bool, fundingPending: bool, p: Promise)
    requires request !in w.requests
    ensures var after := Undisturbed(w, request, now, authentic, chunks, breaks, fundingPending, p);
            var success := w.row.Pending? && now < p.expiresAt && authentic && w.file.None? && !breaks
              && 1 <= p.sizeBytes <= p.maximum && Complete(Concat(chunks), p) && fundingPending;
            && after.requests == w.requests[request := Ended(success)]
            && after.row == (if success then Uploaded(request) else w.row)
            && after.file == (if success then Some(File(request, Concat(chunks))) else w.file)
            && after.removing == w.removing
  {
    var created := Next(Next(w, Begin(request, now, authentic), p), Open(request), p);
    FirstSteps(w, request, now, authentic, p);
    TooLongIsIncomplete(Concat(chunks), p);
    hide Next, Feed, Complete, Concat;
    var fed := Feed(created, request, chunks, p);
    if created.requests[request].Ended? {
      EndedStays(created, request, chunks, p);
      EndedLasts(created, request, breaks, fundingPending, p);
    } else {
      FeedConcatenates(created, request, chunks, p);
      assert [] + Concat(chunks) == Concat(chunks);
      FeedShows(created, request, chunks, p);
      LastSteps(fed, request, breaks, fundingPending, p);
      assert w.requests[request := fed.requests[request]] == created.requests[request := fed.requests[request]];
    }
  }

  lemma FirstSteps(w: World, request: nat, now: Instant, authentic: bool, p: Promise)
    requires request !in w.requests
    ensures var created := Next(Next(w, Begin(request, now, authentic), p), Open(request), p);
            && request in created.requests && created.row == w.row && created.removing == w.removing
            && created.requests == w.requests[request := created.requests[request]]
            && if w.row.Pending? && now < p.expiresAt && authentic && w.file.None? && 1 <= p.sizeBytes <= p.maximum
               then created.requests[request] == Writing([]) && created.file == Some(File(request, []))
               else created.requests[request] == Ended(false) && created.file == w.file
  {
  }

  lemma EndedLasts(w: World, request: nat, breaks: bool, fundingPending: bool, p: Promise)
    requires request in w.requests && w.requests[request].Ended?
    ensures var read := Next(w, if breaks then SourceBreaks(request) else SourceEnds(request), p);
            Next(Next(read, Commit(request, fundingPending), p), Clean(request), p) == w
  {
  }

  lemma TooLongIsIncomplete(bytes: seq<Byte>, p: Promise)
    ensures |bytes| > p.sizeBytes ==> !Complete(bytes, p)
  {
  }

  lemma LastSteps(w: World, request: nat, breaks: bool, fundingPending: bool, p: Promise)
    requires request in w.requests && w.file.Some? && w.file.value.creator == request && w.row.Pending?
    requires w.requests[request].Cleaning? || (w.requests[request].Writing? && w.file.value.bytes == w.requests[request].received)
    ensures var read := Next(w, if breaks then SourceBreaks(request) else SourceEnds(request), p);
            var after := Next(Next(read, Commit(request, fundingPending), p), Clean(request), p);
            var success := w.requests[request].Writing? && !breaks && Complete(w.requests[request].received, p) && fundingPending;
            && after.requests == w.requests[request := Ended(success)]
            && after.row == (if success then Uploaded(request) else w.row)
            && after.file == (if success then w.file else None)
            && after.removing == w.removing
  {
  }

  /** A waiting row is dropped exactly when its link has run out; then whatever file has the name goes too. */
  lemma DropLaw(w: World, now: Instant, p: Promise)
    ensures var dropped := Next(w, DropStale(now), p); var gone := Next(dropped, RemoveStaleFile, p);
            if w.row.Pending? && p.expiresAt <= now
            then gone.row == Dropped && gone.file.None? && !gone.removing && gone.requests == w.requests
            else dropped == w
  {
  }

  // ----- The method -----

  datatype Outcome = Accepted | UploadClosed | UrlExpired | NotAuthentic | TypeMismatch | NotStored(verdict: Verdict)

  /** completeUpload as it runs: the checks, the file, the row, and the file's removal if the row is refused. */
  class ProofUpload {
    const key: nat
    const promise: Promise
    const storage: LocalEvidenceStorage
    var row: Row

    constructor (key: nat, promise: Promise, storage: LocalEvidenceStorage)
      ensures row == Pending && this.key == key && this.promise == promise && this.storage == storage
    {
      this.key, this.promise, this.storage, row := key, promise, storage, Pending;
    }

    /** The row is marked uploaded together with its complete file, or neither the row nor any file changes. */
    method CompleteUpload(
        request: nat, now: Instant, authentic: bool, contentType: ContentType,
        chunks: seq<seq<Byte>>, breaks: bool, fundingPending: bool)
      returns (outcome: Outcome)
      requires storage.maximumBytes == promise.maximum
      modifies this, storage
      ensures outcome == Accepted <==>
              && old(row) == Pending && promise.expiresAt > now && authentic && contentType == promise.contentType
              && key !in old(storage.objects) && !breaks
              && 1 <= promise.sizeBytes <= promise.maximum && Complete(Concat(chunks), promise)
              && fundingPending
      ensures row == if outcome == Accepted then Uploaded(request) else old(row)
      ensures storage.objects == if outcome == Accepted then old(storage.objects)[key := Concat(chunks)] else old(storage.objects)
    {
      if row != Pending {
        return UploadClosed;
      }
      if promise.expiresAt <= now {
        return UrlExpired;
      }
      if !authentic {
        return NotAuthentic;
      }
      if contentType != promise.contentType {
        return TypeMismatch;
      }
      var verdict := storage.WriteObject(key, chunks, breaks, promise.sizeBytes, contentType);
      if verdict != Stored {
        return NotStored(verdict);
      }
      if !fundingPending {
        storage.DeleteObject(key);
        assert storage.objects == old(storage.objects);
        return UploadClosed;
      }
      row := Uploaded(request);
      outcome := Accepted;
    }
  }
}
