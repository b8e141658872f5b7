/** The browser-side video uploader. Files over 500 MiB are refused before any request; files between
    10 MiB and 500 MiB go through the backend-proxied multipart route in 5 MiB parts, each part tried
    up to three times; smaller files go through one standard request. Every request's answer is an
    input: `initOk`, `completeOk` and `standardOk` for the single requests, and for part `p` the
    sequence `answers[p - 1]` of attempt outcomes (attempts beyond it fail). */
module VideoUploader {
  import opened Common

  const MiB: nat := 1024 * 1024
  /** Larger files are uploaded in parts. */
  const ChunkedThreshold: nat := 10 * MiB
  /** Larger files are refused. */
  const MaxFileSize: nat := 500 * MiB
  /** Larger files first go through the (identity) compression step. */
  const CompressThreshold: nat := 20 * MiB
  /** Progress reported once the multipart upload is initialised, and once it is complete. */
  const InitProgress: int := 5
  const DoneProgress: int := 100

  /** Why an upload ended without a stored video. */
  datatype Failure =
    | TooLarge                    // the 500 MiB guard, before any request
    | CompressFailed              // the video element could not load the file
    | InitFailed                  // the init request was refused
    | PartFailed(partNumber: nat) // a part failed every attempt
    | CompleteFailed              // the complete request was refused
    | StandardFailed              // the single-request upload failed

  datatype Outcome = Uploaded | Failed(failure: Failure)

  /** Which request route an upload took. */
  datatype Route = NoRequest | Standard | Chunked

  /** One part sent: its number (from 1) and its byte range `[start, end)` of the file. */
  datatype Slice = Slice(partNumber: nat, start: nat, end: nat)

  /** The slices of parts `1..n`, in order. */
  function PlannedSlices(n: nat, size: nat, chunk: nat): seq<Slice> {
    if n == 0 then [] else PlannedSlices(n - 1, size, chunk) + [Slice(n, PartStart(n, chunk), PartEnd(n, size, chunk))]
  }

  lemma {:induction false} PlannedSlicesAt(n: nat, size: nat, chunk: nat)
    ensures |PlannedSlices(n, size, chunk)| == n
    ensures forall i :: 0 <= i < n ==>
              PlannedSlices(n, size, chunk)[i] == Slice(i + 1, PartStart(i + 1, chunk), PartEnd(i + 1, size, chunk))
  {
    if n > 0 {
      PlannedSlicesAt(n - 1, size, chunk);
    }
  }

  /** `Math.ceil(size / chunk)`. */
  function NumParts(size: nat, chunk: nat): nat
    requires chunk > 0
  {
    (size + chunk - 1) / chunk
  }

  /** The first byte of part `p`. */
  function PartStart(p: nat, chunk: nat): nat
    requires p >= 1
  {
    (p - 1) * chunk
  }

  /** `Math.min(start + chunk, size)`: one past the last byte of part `p`. */
  function PartEnd(p: nat, size: nat, chunk: nat): nat
    requires p >= 1
  {
    var start := PartStart(p, chunk);
    if start + chunk < size then start + chunk else size
  }

  /** The answers to the attempts of part `p`. */
  function TriesFor(answers: seq<seq<bool>>, p: nat): seq<bool> {
    if 1 <= p <= |answers| then answers[p - 1] else []
  }

  /** Attempt `k` (from 0) succeeds. */
  predicate AttemptOk(tries: seq<bool>, k: nat) {
    k < |tries| && tries[k]
  }

  /** Part `p` succeeds within `retries` attempts. */
  predicate PartOk(answers: seq<seq<bool>>, p: nat, retries: nat) {
    exists k: nat :: k < retries && AttemptOk(TriesFor(answers, p), k)
  }

  /** Every part `1..parts` succeeds within `retries` attempts. */
  predicate AllPartsOk(answers: seq<seq<bool>>, parts: nat, retries: nat) {
    forall p: nat :: 1 <= p <= parts ==> PartOk(answers, p, retries)
  }

  /** Bytes uploaded once parts `1..n` are through: the running `totalUploaded`. */
  function UploadedBytes(n: nat, size: nat, chunk: nat): int {
    if n == 0 then 0 else UploadedBytes(n - 1, size, chunk) + (PartEnd(n, size, chunk) - PartStart(n, chunk))
  }

  /** `Math.round(num / den)` for a non-negative ratio: halves round up. */
  function RoundRatio(num: int, den: int): int
    requires den > 0
  {
    (2 * num + den) / (2 * den)
  }

  /** Progress after a part: 5 for the init, plus the uploaded share of 90. */
  function PartProgress(total: int, size: nat): int
    requires size > 0
  {
    InitProgress + RoundRatio(total * 90, size)
  }

  /** The progress values reported after parts `1..n`. */
  function ProgressTrail(n: nat, size: nat, chunk: nat): seq<int>
    requires size > 0
  {
    if n == 0 then [] else ProgressTrail(n - 1, size, chunk) + [PartProgress(UploadedBytes(n, size, chunk), size)]
  }

  predicate Nondecreasing(s: seq<int>) {
    forall i, j :: 0 <= i <= j < |s| ==> s[i] <= s[j]
  }

  /** Every reported value lies between the init value and completion. */
  predicate InProgressRange(s: seq<int>) {
    forall i :: 0 <= i < |s| ==> InitProgress <= s[i] <= DoneProgress
  }

  // ---------------------------------------------------------------- arithmetic helpers

  lemma MulMonotone(a: nat, b: nat, c: nat)
    requires a <= b
    ensures a * c <= b * c
  {
  }

  // ---------------------------------------------------------------- the chunk plan

  /** `numParts` is the ceiling: the parts reach the end of the file, and one fewer would not. */
  lemma NumPartsIsCeiling(size: nat, chunk: nat)
    requires chunk > 0
    ensures size <= NumParts(size, chunk) * chunk
    ensures NumParts(size, chunk) > 0 ==> (NumParts(size, chunk) - 1) * chunk < size
    ensures NumParts(size, chunk) == 0 <==> size == 0
  {
    var x := size + chunk - 1;
    var n := x / chunk;
    var r := x % chunk;
    assert x == n * chunk + r && 0 <= r < chunk;
    if n > 0 {
      assert (n - 1) * chunk == n * chunk - chunk;
    }
  }

  /** Part `p` of a file is a non-empty range; all but the last are exactly one chunk long, each ends
      where the next begins, and the last ends at the end of the file. */
  lemma PartsTile(size: nat, chunk: nat, p: nat)
    requires chunk > 0 && 1 <= p <= NumParts(size, chunk)
    ensures PartStart(p, chunk) < PartEnd(p, size, chunk) <= size
    ensures p < NumParts(size, chunk) ==>
              PartEnd(p, size, chunk) - PartStart(p, chunk) == chunk && PartEnd(p, size, chunk) == PartStart(p + 1, chunk)
    ensures p == NumParts(size, chunk) ==> PartEnd(p, size, chunk) == size
  {
    var n := NumParts(size, chunk);
    NumPartsIsCeiling(size, chunk);
    MulMonotone(p - 1, n - 1, chunk);
    assert PartStart(p, chunk) + chunk == p * chunk;
    if p < n {
      MulMonotone(p, n - 1, chunk);
    } else {
      assert n * chunk >= size;
    }
  }

  /** The parts are pairwise disjoint: an earlier part ends before a later one begins. */
  lemma {:induction false} PartsDisjoint(size: nat, chunk: nat, p: nat, q: nat)
    requires chunk > 0 && 1 <= p < q <= NumParts(size, chunk)
    ensures PartEnd(p, size, chunk) <= PartStart(q, chunk)
    decreases q - p
  {
    PartsTile(size, chunk, p);
    if p + 1 < q {
      PartsDisjoint(size, chunk, p + 1, q);
      PartsTile(size, chunk, p + 1);
    }
  }

  /** Every byte of the file lies in a part: byte `b` in part `b / chunk + 1`. */
  lemma ByteInPart(size: nat, chunk: nat, b: nat)
    requires chunk > 0 && b < size
    ensures var p := b / chunk + 1;
            1 <= p <= NumParts(size, chunk) && PartStart(p, chunk) <= b < PartEnd(p, size, chunk)
  {
    var p := b / chunk + 1;
    var r := b % chunk;
    assert b == (p - 1) * chunk + r && 0 <= r < chunk;
    NumPartsIsCeiling(size, chunk);
    var n := NumParts(size, chunk);
    if p > n {
      MulMonotone(n, p - 1, chunk);
    }
    assert PartStart(p, chunk) + chunk == p * chunk;
  }

  /** After part `n` the running total is `min(n * chunk, size)`, the end of part `n`; after the last
      part it is the file size. */
  lemma {:induction false} UploadedBytesIsPartEnd(size: nat, chunk: nat, n: nat)
    requires chunk > 0 && 1 <= n <= NumParts(size, chunk)
    ensures UploadedBytes(n, size, chunk) == PartEnd(n, size, chunk)
    ensures n == NumParts(size, chunk) ==> UploadedBytes(n, size, chunk) == size
  {
    PartsTile(size, chunk, n);
    if n > 1 {
      UploadedBytesIsPartEnd(size, chunk, n - 1);
      PartsTile(size, chunk, n - 1);
    }
  }

  // ---------------------------------------------------------------- progress

  /** A part's progress lies between 5 and 95, reaching 95 with the whole file. */
  lemma PartProgressBounds(total: int, size: nat)
    requires size > 0 && 0 <= total <= size
    ensures InitProgress <= PartProgress(total, size) <= 95
    ensures total == size ==> PartProgress(total, size) == 95
  {
    DivMonotone(size, 2 * total * 90 + size, 2 * size);
    DivMonotone(2 * total * 90 + size, 2 * size * 90 + size, 2 * size);
    DivBetween(2 * size * 90 + size, 2 * size, 90);
    DivBetween(size, 2 * size, 0);
  }

  lemma PartProgressMonotone(t1: int, t2: int, size: nat)
    requires size > 0 && t1 <= t2
    ensures PartProgress(t1, size) <= PartProgress(t2, size)
  {
    DivMonotone(2 * t1 * 90 + size, 2 * t2 * 90 + size, 2 * size);
  }

  /** The values reported after the parts rise and stay within 5..95; the last part reports 95. */
  lemma {:induction false} ProgressTrailRises(size: nat, chunk: nat, n: nat)
    requires chunk > 0 && size > 0 && n <= NumParts(size, chunk)
    ensures |ProgressTrail(n, size, chunk)| == n
    ensures Nondecreasing(ProgressTrail(n, size, chunk))
    ensures forall i :: 0 <= i < n ==> InitProgress <= ProgressTrail(n, size, chunk)[i] <= 95
    ensures n > 0 && n == NumParts(size, chunk) ==> ProgressTrail(n, size, chunk)[n - 1] == 95
  {
    if n > 0 {
      var t := ProgressTrail(n - 1, size, chunk);
      ProgressTrailRises(size, chunk, n - 1);
      UploadedBytesIsPartEnd(size, chunk, n);
      PartsTile(size, chunk, n);
      PartProgressBounds(UploadedBytes(n, size, chunk), size);
      if n > 1 {
        UploadedBytesIsPartEnd(size, chunk, n - 1);
        PartsTile(size, chunk, n - 1);
        PartProgressMonotone(UploadedBytes(n - 1, size, chunk), UploadedBytes(n, size, chunk), size);
        assert t[n - 2] == PartProgress(UploadedBytes(n - 1, size, chunk), size);
      }
    }
  }

  /** The whole chunked report: 5 at init, the part values (none for an empty file), then 100 on
      completion. */
  lemma ChunkedProgressRises(size: nat, chunk: nat, n: nat, done: bool, report: seq<int>)
    requires chunk > 0 && n <= NumParts(size, chunk)
    requires size > 0 ==> report == [InitProgress] + ProgressTrail(n, size, chunk) + (if done then [DoneProgress] else [])
    requires size == 0 ==> report == [InitProgress] + (if done then [DoneProgress] else [])
    ensures Nondecreasing(report) && InProgressRange(report)
    ensures |report| > 0 && report[0] == InitProgress
    ensures report[|report| - 1] == DoneProgress <==> done
  {
    var trail := if size > 0 then ProgressTrail(n, size, chunk) else [];
    if size > 0 {
      ProgressTrailRises(size, chunk, n);
    }
    var head := [InitProgress] + trail;
    InitBeforeTrail(trail);
    if done {
      DoneAfterTrail(head);
    } else {
      assert report == head;
    }
  }

  /** The init report in front of the part values keeps them rising and in range. */
  lemma InitBeforeTrail(trail: seq<int>)
    requires Nondecreasing(trail) && forall i :: 0 <= i < |trail| ==> InitProgress <= trail[i] <= 95
    ensures Nondecreasing([InitProgress] + trail) && InProgressRange([InitProgress] + trail)
  {
    var head := [InitProgress] + trail;
    assert forall i :: 0 < i < |head| ==> head[i] == trail[i - 1];
  }

  /** The final 100 after rising reports in range keeps them rising and in range. */
  lemma DoneAfterTrail(head: seq<int>)
    requires Nondecreasing(head) && InProgressRange(head)
    ensures Nondecreasing(head + [DoneProgress]) && InProgressRange(head + [DoneProgress])
  {
    var s := head + [DoneProgress];
    assert forall i :: 0 <= i < |head| ==> s[i] == head[i];
  }

  /** The optional "Optimizing video..." 5 in front of a chunked report keeps it rising. */
  lemma PrependInit(pre: seq<int>, s: seq<int>)
    requires pre == [] || pre == [InitProgress]
    requires Nondecreasing(s) && InProgressRange(s) && (|s| > 0 ==> s[0] == InitProgress)
    ensures Nondecreasing(pre + s) && InProgressRange(pre + s)
  {
    var t := pre + s;
    forall i, j | 0 <= i <= j < |t| ensures t[i] <= t[j] {
      if i < |pre| {
        assert t[i] == InitProgress;
        assert j < |pre| || InitProgress <= s[j - |pre|];
      }
    }
  }

  // ---------------------------------------------------------------- the uploader

  class Uploader {
    /** 5 MiB parts, the S3 multipart minimum. */
    const chunkSize: nat := 5 * MiB
    const maxRetries: nat := 3
    /** Milliseconds between attempts; waiting is not modelled. */
    const retryDelay: nat := 2000

    constructor ()
    {
    }

    /** `shouldUseChunkedUpload`: strictly more than 10 MiB. */
    function ShouldUseChunked(size: nat): bool {
      size > ChunkedThreshold
    }

    /** The retry loop of one part: attempts until one succeeds or `maxRetries` have failed. */
    method UploadPart(tries: seq<bool>) returns (success: bool, attempts: nat)
      ensures attempts <= maxRetries
      ensures success <==> exists k: nat :: k < maxRetries && AttemptOk(tries, k)
      ensures success ==> attempts >= 1 && AttemptOk(tries, attempts - 1)
      ensures success ==> forall k: nat :: k < attempts - 1 ==> !AttemptOk(tries, k)
      ensures !success ==> attempts == maxRetries
    {
      attempts := 0;
      success := false;
      while attempts < maxRetries && !success
        invariant attempts <= maxRetries
        invariant success ==> attempts >= 1 && AttemptOk(tries, attempts - 1)
        invariant forall k: nat :: k < (if success then attempts - 1 else attempts) ==> !AttemptOk(tries, k)
      {
        if attempts < |tries| && tries[attempts] {
          success := true;
          attempts := attempts + 1;
        } else {
          attempts := attempts + 1;
        }
      }
    }

    /** `backendProxiedChunkedUpload`: init, the parts in order, then complete. A part failing every
        attempt ends the upload, and no later part is tried. Returned are the outcome, the progress
        values reported, the slices sent and the attempts spent on each. */
    method BackendProxiedChunkedUpload(size: nat, initOk: bool, answers: seq<seq<bool>>, completeOk: bool)
      returns (outcome: Outcome, progress: seq<int>, slices: seq<Slice>, attempts: seq<nat>)
      ensures !initOk ==> outcome == Failed(InitFailed) && progress == [] && slices == [] && attempts == []
      ensures |slices| == |attempts| <= NumParts(size, chunkSize)
      ensures forall i :: 0 <= i < |slices| ==>
                slices[i] == Slice(i + 1, PartStart(i + 1, chunkSize), PartEnd(i + 1, size, chunkSize))
      ensures forall i :: 0 <= i < |attempts| ==> 1 <= attempts[i] <= maxRetries
      ensures forall p :: 1 <= p < |slices| ==> PartOk(answers, p, maxRetries)
      ensures initOk ==>
                (outcome == Failed(PartFailed(|slices|)) <==> |slices| > 0 && !PartOk(answers, |slices|, maxRetries))
      ensures initOk && outcome != Failed(PartFailed(|slices|)) ==>
                |slices| == NumParts(size, chunkSize) && (outcome == Uploaded <==> completeOk)
                && (outcome.Failed? ==> outcome.failure == CompleteFailed)
      ensures outcome == Failed(PartFailed(|slices|)) ==> attempts[|slices| - 1] == maxRetries
      ensures initOk ==> size > 0 ==>
                var parts := if outcome == Failed(PartFailed(|slices|)) then |slices| - 1 else |slices|;
                progress == [InitProgress] + ProgressTrail(parts, size, chunkSize)
                            + (if outcome == Uploaded then [DoneProgress] else [])
      ensures initOk && size == 0 ==> progress == [InitProgress] + (if outcome == Uploaded then [DoneProgress] else [])
      ensures Nondecreasing(progress) && InProgressRange(progress)
      ensures initOk ==> |progress| > 0 && progress[0] == InitProgress
                         && (progress[|progress| - 1] == DoneProgress <==> outcome == Uploaded)
    {
      slices, attempts := [], [];
      if !initOk {
        return Failed(InitFailed), [], slices, attempts;
      }
      var failed;
      failed, progress, slices, attempts := UploadParts(size, answers);
      if failed {
        outcome := Failed(PartFailed(|slices|));
        assert progress + [] == progress;
        ChunkedProgressRises(size, chunkSize, |slices| - 1, false, progress);
        return;
      }
      if completeOk {
        progress := progress + [DoneProgress];
        outcome := Uploaded;
      } else {
        outcome := Failed(CompleteFailed);
        assert progress + [] == progress;
      }
      ChunkedProgressRises(size, chunkSize, |slices|, completeOk, progress);
    }

    /** One pass of the part loop: the slice `[start, end)` of part `partNumber` and its retry loop. */
    method SendPart(size: nat, answers: seq<seq<bool>>, partNumber: nat) returns (success: bool, tries: nat, slice: Slice)
      requires partNumber >= 1
      ensures slice == Slice(partNumber, PartStart(partNumber, chunkSize), PartEnd(partNumber, size, chunkSize))
      ensures 1 <= tries <= maxRetries
      ensures success <==> PartOk(answers, partNumber, maxRetries)
      ensures !success ==> tries == maxRetries
    {
      var start := (partNumber - 1) * chunkSize;
      var end := if start + chunkSize < size then start + chunkSize else size;
      success, tries := UploadPart(TriesFor(answers, partNumber));
      slice := Slice(partNumber, start, end);
    }

    /** The part loop of `backendProxiedChunkedUpload`, after a successful init: the parts in order,
        each with its retries, reporting the running progress; `failed` when a part fails every attempt,
        which is then the last slice sent. */
    method UploadParts(size: nat, answers: seq<seq<bool>>)
      returns (failed: bool, progress: seq<int>, slices: seq<Slice>, attempts: seq<nat>)
      ensures |slices| == |attempts| <= NumParts(size, chunkSize)
      ensures forall i :: 0 <= i < |slices| ==>
                slices[i] == Slice(i + 1, PartStart(i + 1, chunkSize), PartEnd(i + 1, size, chunkSize))
      ensures forall i :: 0 <= i < |attempts| ==> 1 <= attempts[i] <= maxRetries
      ensures forall p :: 1 <= p < |slices| ==> PartOk(answers, p, maxRetries)
      ensures failed ==> |slices| > 0 && !PartOk(answers, |slices|, maxRetries) && attempts[|slices| - 1] == maxRetries
      ensures !failed ==> |slices| == NumParts(size, chunkSize) && (|slices| == 0 || PartOk(answers, |slices|, maxRetries))
      ensures size > 0 ==> progress == [InitProgress] + ProgressTrail(if failed then |slices| - 1 else |slices|, size, chunkSize)
      ensures size == 0 ==> progress == [InitProgress]
    {
      var numParts := NumParts(size, chunkSize);
      slices, attempts := [], [];
      progress := [InitProgress];
      var totalUploaded: int := 0;
      var partNumber: nat := 1;
      while partNumber <= numParts
        invariant 1 <= partNumber <= numParts + 1
        invariant |slices| == |attempts| == partNumber - 1
        invariant slices == PlannedSlices(partNumber - 1, size, chunkSize)
        invariant forall i :: 0 <= i < |attempts| ==> 1 <= attempts[i] <= maxRetries
        invariant forall p :: 1 <= p <= |slices| ==> PartOk(answers, p, maxRetries)
        invariant totalUploaded == UploadedBytes(partNumber - 1, size, chunkSize)
        invariant size == 0 ==> partNumber == 1 && progress == [InitProgress]
        invariant size > 0 ==> progress == [InitProgress] + ProgressTrail(partNumber - 1, size, chunkSize)
      {
        var success, tries, slice := SendPart(size, answers, partNumber);
        slices := slices + [slice];
        attempts := attempts + [tries];
        if !success {
          PlannedSlicesAt(partNumber, size, chunkSize);
          return true, progress, slices, attempts;
        }
        totalUploaded := totalUploaded + (slice.end - slice.start);
        progress := progress + [PartProgress(totalUploaded, size)];
        partNumber := partNumber + 1;
      }
      PlannedSlicesAt(numParts, size, chunkSize);
      failed := false;
    }

    /** `uploadVideo`: the size guard, the compression step (which hands back the same file), then the
        chunked or the standard route. `errorReports` counts the `onError` calls: a failure inside
        either route is reported by the route and again by `uploadVideo`. */
    method UploadVideo(size: nat, compressOk: bool, initOk: bool, answers: seq<seq<bool>>, completeOk: bool,
                       standardOk: bool)
      returns (outcome: Outcome, route: Route, progress: seq<int>, errorReports: nat)
      ensures size > MaxFileSize ==> outcome == Failed(TooLarge) && route == NoRequest && progress == []
      ensures size <= MaxFileSize && size > CompressThreshold && !compressOk ==>
                outcome == Failed(CompressFailed) && route == NoRequest && progress == [InitProgress]
      ensures route == Chunked <==>
                size <= MaxFileSize && (size <= CompressThreshold || compressOk) && size > ChunkedThreshold
      ensures route == Standard <==> size <= ChunkedThreshold
      ensures route == Standard ==> progress == [] && (outcome == Uploaded <==> standardOk)
      ensures route == Chunked ==> Nondecreasing(progress) && InProgressRange(progress)
      ensures route == Chunked && initOk ==> |progress| > 0 && (progress[|progress| - 1] == DoneProgress <==> outcome == Uploaded)
      ensures route == Chunked ==>
                (outcome == Uploaded <==> initOk && AllPartsOk(answers, NumParts(size, chunkSize), maxRetries) && completeOk)
      ensures outcome == Uploaded ==> errorReports == 0 && route != NoRequest
      ensures outcome.Failed? ==> errorReports == (if route == NoRequest then 1 else 2)
    {
      route := NoRequest;
      progress := [];
      if size > MaxFileSize {
        return Failed(TooLarge), route, progress, 1;
      }
      var processedSize := size;
      if size > CompressThreshold {
        progress := [InitProgress];
        if !compressOk {
          return Failed(CompressFailed), route, progress, 1;
        }
      }
      if ShouldUseChunked(processedSize) {
        route := Chunked;
        var more, slices, attempts;
        outcome, more, slices, attempts := BackendProxiedChunkedUpload(processedSize, initOk, answers, completeOk);
        PrependInit(progress, more);
        progress := progress + more;
      } else {
        route := Standard;
        outcome := if standardOk then Uploaded else Failed(StandardFailed);
      }
      errorReports := if outcome.Failed? then 2 else 0;
    }
  }

  /** An 11 MiB file goes in three parts: two full chunks and a final 1 MiB. */
  lemma ElevenMiBInThreeParts()
    ensures NumParts(11 * MiB, 5 * MiB) == 3
    ensures PartEnd(3, 11 * MiB, 5 * MiB) - PartStart(3, 5 * MiB) == MiB
  {
  }
}
