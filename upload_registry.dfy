/** The in-process registry of multipart video uploads behind the upload routes: one map
    `active_uploads` from upload id to session record, changed in place by the handlers. Every
    per-session handler checks, in this order, that the session exists, that the caller owns it,
    that it has not expired, and (for completion) that all parts were reported. Object-storage calls
    are recorded as `RemoteCall`s; their success or failure is an input. */
module UploadRegistry {
  import opened Common

  const Bucket: string := "tlhmaterials"
  /** Sessions live 24 hours; time is in seconds. */
  const SessionLifetime: int := 24 * 3600
  /** Presigned part URLs are signed for 1 hour. */
  const PresignedUrlExpiry: int := 3600
  /** Only instructor 1 may run the cleanup route. */
  const AdminId: int := 1
  const InitialStatus: string := "initialized"

  datatype Part = Part(etag: string, partNumber: int)

  datatype Session = Session(
    courseId: int,
    lectureId: int,
    key: string,
    fileSize: int,
    fileType: string,
    partsExpected: int,
    partsReceived: int,
    parts: seq<Part>,
    instructorId: int,
    status: string,
    createdAt: int,
    expiresAt: int)

  datatype UploadError =
    | NotFound            // 404 "Upload not found"
    | Forbidden           // 403 "Not authorized ..."
    | LectureNotFound     // 404 "Lecture not found or doesn't belong to this course"
    | Expired             // 400 "Upload expired"
    | Incomplete(expected: int, received: int)  // 400 "Not all parts received ..."
    | InitFailed          // 500 "Failed to initialize upload"
    | CompleteFailed      // 500 "Failed to complete upload"
    | AbortFailed         // 500 "Failed to abort upload"
    | ZeroPartsExpected   // 500: the progress division by parts_expected raised

  function HttpStatus(e: UploadError): int {
    match e
    case NotFound => 404
    case Forbidden => 403
    case LectureNotFound => 404
    case Expired => 400
    case Incomplete(_, _) => 400
    case _ => 500
  }

  datatype Result<T> = Ok(value: T) | Err(error: UploadError)

  /** Object-storage requests the handlers issue. */
  datatype RemoteCall =
    | CreateMultipartUpload(key: string, contentType: string)
    | CompleteMultipartUpload(key: string, uploadId: string, parts: seq<Part>)
    | AbortMultipartUpload(key: string, uploadId: string)

  datatype InitResponse = InitResponse(uploadId: string, presignedUrls: map<string, string>, key: string, expiresAt: int)
  datatype PartAck = PartAck(uploadId: string, partNumber: int, partsReceived: int, partsExpected: int, progress: int)
  datatype Completion = Completion(videoUrl: string, courseId: int, lectureId: int, key: string, invalidated: seq<string>)
  datatype Aborted = Aborted(courseId: int, lectureId: int)
  datatype StatusView = StatusView(uploadId: string, status: string, courseId: int, lectureId: int,
                                   partsReceived: int, partsExpected: int, progress: int, createdAt: int, expiresAt: int)
  datatype Summary = Summary(courseId: int, lectureId: int, status: string, progress: int, createdAt: int, expiresAt: int)
  datatype CleanupReport = CleanupReport(cleaned: seq<string>, count: int)

  /** `get_lecture_video_key`: the object key of a lecture's video. */
  function LectureVideoKey(courseId: int, lectureId: int): string {
    VideoKeyPrefix + (IntToString(courseId) + (LectureTag + (IntToString(lectureId) + VideoKeySuffix)))
  }

  const VideoKeyPrefix: string := "videos/cid"
  const LectureTag: string := "/lid"
  const VideoKeySuffix: string := "/vid_lecture.mp4"

  function VideoUrl(region: string, key: string): (u: string)
    ensures EndsWith(u, key)
  {
    var u := "https://" + Bucket + ".s3-" + region + ".amazonaws.com/" + key;
    assert u[|u| - |key|..] == key;
    u
  }

  /** The part-number keys of the presigned URL map: "1" .. str(parts) (none when parts <= 0). */
  ghost function PartKeys(parts: int): set<string> {
    set p: nat | 1 <= p <= parts :: NatToString(p)
  }

  /** The session is past its expiry; a session expiring exactly now is still valid. */
  predicate IsExpired(s: Session, now: int) {
    s.expiresAt < now
  }

  /** `int((received / expected) * 100)` with the division done exactly and truncated toward zero. */
  function Progress(received: int, expected: int): int
    requires expected != 0
  {
    var n := 100 * received;
    if (n >= 0) == (expected > 0) then Abs(n) / Abs(expected) else -(Abs(n) / Abs(expected))
  }

  function Abs(x: int): nat {
    if x < 0 then -x else x
  }

  /** The existence-then-ownership check every per-session handler starts with. */
  function Access(sessions: map<string, Session>, caller: int, uploadId: string): (r: Result<Session>)
    ensures r.Ok? <==> uploadId in sessions && sessions[uploadId].instructorId == caller
    ensures r.Ok? ==> r.value == sessions[uploadId]
    ensures r.Err? ==> r.error == (if uploadId in sessions then Forbidden else NotFound)
  {
    if uploadId !in sessions then Err(NotFound)
    else if sessions[uploadId].instructorId != caller then Err(Forbidden)
    else Ok(sessions[uploadId])
  }

  function Summarize(s: Session): Summary
    requires s.partsExpected != 0
  {
    Summary(s.courseId, s.lectureId, s.status, Progress(s.partsReceived, s.partsExpected), s.createdAt, s.expiresAt)
  }

  /** Sorted ascending by part number. */
  predicate SortedByPartNumber(s: seq<Part>) {
    forall i, j :: 0 <= i < j < |s| ==> s[i].partNumber <= s[j].partNumber
  }

  /** Inserts `x` after every part whose number is at most its own (what keeps Python's sort stable). */
  function InsertPart(x: Part, t: seq<Part>): (r: seq<Part>)
    ensures multiset(r) == multiset(t) + multiset{x}
  {
    if t == [] then [x]
    else if x.partNumber < t[0].partNumber then [x] + t
    else
      assert t == [t[0]] + t[1..];
      [t[0]] + InsertPart(x, t[1..])
  }

  lemma {:induction false} InsertPartSorted(x: Part, t: seq<Part>)
    requires SortedByPartNumber(t)
    ensures SortedByPartNumber(InsertPart(x, t))
    decreases |t|
  {
    if t != [] && x.partNumber >= t[0].partNumber {
      var r' := InsertPart(x, t[1..]);
      assert SortedByPartNumber(t[1..]);
      InsertPartSorted(x, t[1..]);
      forall y | y in r' ensures t[0].partNumber <= y.partNumber {
        assert y in multiset(r');
        if y != x {
          assert y in t[1..];
        }
      }
    }
  }

  /** `sorted(parts, key=lambda x: x['PartNumber'])`: a stable insertion sort. */
  function SortParts(s: seq<Part>): (r: seq<Part>)
    ensures multiset(r) == multiset(s)
    ensures SortedByPartNumber(r)
  {
    if s == [] then []
    else
      assert s == s[..|s| - 1] + [s[|s| - 1]];
      var t := SortParts(s[..|s| - 1]);
      InsertPartSorted(s[|s| - 1], t);
      InsertPart(s[|s| - 1], t)
  }

  /** A sequence of parts with the same length as the session's `parts_received` counter. */
  ghost predicate CounterMatches(s: Session) {
    s.partsReceived == |s.parts|
  }

  class Registry {
    /** `active_uploads`. */
    var sessions: map<string, Session>
    /** The `REGION_NAME` the video URL is built with. */
    const region: string

    /** Every record's counter equals the number of recorded parts, and no handler ever moves `status`. */
    ghost predicate Valid()
      reads this
    {
      forall id :: id in sessions ==> CounterMatches(sessions[id]) && sessions[id].status == InitialStatus
    }

    constructor (region: string)
      ensures Valid() && sessions == map[] && this.region == region
    {
      this.region := region;
      sessions := map[];
    }

    /** `init_upload`. `ownsCourse` and `lectureInCourse` are the two SQL checks; `created` is the upload
        id object storage returns, or None when it fails; `sign` yields the presigned URL of one part. */
    method InitUpload(caller: int, courseId: int, lectureId: int, fileSize: int, fileType: string, parts: int,
                      now: int, ownsCourse: bool, lectureInCourse: bool, created: Option<string>,
                      sign: (string, string, int) -> string)
      returns (r: Result<InitResponse>, calls: seq<RemoteCall>)
      requires Valid()
      modifies this
      ensures Valid()
      ensures !ownsCourse ==> r == Err(Forbidden) && calls == [] && sessions == old(sessions)
      ensures ownsCourse && !lectureInCourse ==> r == Err(LectureNotFound) && calls == [] && sessions == old(sessions)
      ensures ownsCourse && lectureInCourse ==>
                calls == [CreateMultipartUpload(LectureVideoKey(courseId, lectureId), fileType)]
      ensures ownsCourse && lectureInCourse && created.None? ==> r == Err(InitFailed) && sessions == old(sessions)
      ensures ownsCourse && lectureInCourse && created.Some? ==>
                var key := LectureVideoKey(courseId, lectureId);
                && r.Ok?
                && r.value.uploadId == created.value
                && r.value.key == key
                && r.value.expiresAt == now + SessionLifetime
                && r.value.presignedUrls.Keys == PartKeys(parts)
                && (forall p: nat :: 1 <= p <= parts ==>
                      r.value.presignedUrls[NatToString(p)] == sign(key, created.value, p))
                && sessions == old(sessions)[created.value :=
                     Session(courseId, lectureId, key, fileSize, fileType, parts, 0, [], caller,
                             InitialStatus, now, now + SessionLifetime)]
    {
      calls := [];
      if !ownsCourse {
        return Err(Forbidden), calls;
      }
      if !lectureInCourse {
        return Err(LectureNotFound), calls;
      }
      var key := LectureVideoKey(courseId, lectureId);
      calls := [CreateMultipartUpload(key, fileType)];
      if created.None? {
        return Err(InitFailed), calls;
      }
      var uploadId := created.value;
      var urls := PresignParts(key, uploadId, parts, sign);
      var expiresAt := now + SessionLifetime;
      sessions := sessions[uploadId := Session(courseId, lectureId, key, fileSize, fileType, parts, 0, [], caller,
                                               InitialStatus, now, expiresAt)];
      r := Ok(InitResponse(uploadId, urls, key, expiresAt));
    }

    /** `upload_part_status`: records one reported part. Repeats of a part number are appended too. */
    method UploadPartStatus(caller: int, uploadId: string, partNumber: int, etag: string, now: int)
      returns (r: Result<PartAck>)
      requires Valid()
      modifies this
      ensures Valid()
      ensures Access(old(sessions), caller, uploadId).Err? ==>
                r == Err(Access(old(sessions), caller, uploadId).error) && sessions == old(sessions)
      ensures Access(old(sessions), caller, uploadId).Ok? ==>
                var s := old(sessions)[uploadId];
                if IsExpired(s, now) then r == Err(Expired) && sessions == old(sessions)
                else
                  && sessions == old(sessions)[uploadId := s.(parts := s.parts + [Part(etag, partNumber)],
                                                              partsReceived := s.partsReceived + 1)]
                  && (s.partsExpected == 0 ==> r == Err(ZeroPartsExpected))
                  && (s.partsExpected != 0 ==>
                        r == Ok(PartAck(uploadId, partNumber, s.partsReceived + 1, s.partsExpected,
                                        Progress(s.partsReceived + 1, s.partsExpected))))
    {
      var access := Access(sessions, caller, uploadId);
      if access.Err? {
        return Err(access.error);
      }
      var s := access.value;
      if IsExpired(s, now) {
        return Err(Expired);
      }
      var s' := s.(parts := s.parts + [Part(etag, partNumber)], partsReceived := s.partsReceived + 1);
      sessions := sessions[uploadId := s'];
      if s'.partsExpected == 0 {
        return Err(ZeroPartsExpected);
      }
      r := Ok(PartAck(uploadId, partNumber, s'.partsReceived, s'.partsExpected,
                      Progress(s'.partsReceived, s'.partsExpected)));
    }

    /** `complete_upload`. `completeOk` is the outcome of the object-storage complete call; the
        compensating abort's outcome does not matter to the handler. */
    method CompleteUpload(caller: int, uploadId: string, now: int, completeOk: bool)
      returns (r: Result<Completion>, calls: seq<RemoteCall>)
      requires Valid()
      modifies this
      ensures Valid()
      ensures Access(old(sessions), caller, uploadId).Err? ==>
                r == Err(Access(old(sessions), caller, uploadId).error) && calls == [] && sessions == old(sessions)
      ensures Access(old(sessions), caller, uploadId).Ok? ==>
                var s := old(sessions)[uploadId];
                if IsExpired(s, now) then
                  r == Err(Expired) && calls == [AbortMultipartUpload(s.key, uploadId)]
                  && sessions == old(sessions) - {uploadId}
                else if s.partsReceived != s.partsExpected then
                  r == Err(Incomplete(s.partsExpected, s.partsReceived)) && calls == [] && sessions == old(sessions)
                else
                  && sessions == old(sessions) - {uploadId}
                  && |calls| >= 1
                  && calls[0] == CompleteMultipartUpload(s.key, uploadId, SortParts(s.parts))
                  && (completeOk ==>
                        calls == [calls[0]]
                        && r == Ok(Completion(VideoUrl(region, s.key), s.courseId, s.lectureId, s.key,
                                              InvalidatedPatterns(s.courseId, s.lectureId))))
                  && (!completeOk ==>
                        calls == [calls[0], AbortMultipartUpload(s.key, uploadId)] && r == Err(CompleteFailed))
    {
      calls := [];
      var access := Access(sessions, caller, uploadId);
      if access.Err? {
        return Err(access.error), calls;
      }
      var s := access.value;
      if IsExpired(s, now) {
        calls := [AbortMultipartUpload(s.key, uploadId)];
        sessions := sessions - {uploadId};
        return Err(Expired), calls;
      }
      if s.partsReceived != s.partsExpected {
        return Err(Incomplete(s.partsExpected, s.partsReceived)), calls;
      }
      var parts := SortParts(s.parts);
      calls := [CompleteMultipartUpload(s.key, uploadId, parts)];
      if completeOk {
        var url := VideoUrl(region, s.key);
        sessions := sessions - {uploadId};
        r := Ok(Completion(url, s.courseId, s.lectureId, s.key, InvalidatedPatterns(s.courseId, s.lectureId)));
      } else {
        calls := calls + [AbortMultipartUpload(s.key, uploadId)];
        sessions := sessions - {uploadId};
        r := Err(CompleteFailed);
      }
    }

    /** `abort_upload`: expiry is not checked, and the record goes whether or not the remote abort works. */
    method AbortUpload(caller: int, uploadId: string, abortOk: bool)
      returns (r: Result<Aborted>, calls: seq<RemoteCall>)
      requires Valid()
      modifies this
      ensures Valid()
      ensures Access(old(sessions), caller, uploadId).Err? ==>
                r == Err(Access(old(sessions), caller, uploadId).error) && calls == [] && sessions == old(sessions)
      ensures Access(old(sessions), caller, uploadId).Ok? ==>
                var s := old(sessions)[uploadId];
                && calls == [AbortMultipartUpload(s.key, uploadId)]
                && sessions == old(sessions) - {uploadId}
                && r == (if abortOk then Ok(Aborted(s.courseId, s.lectureId)) else Err(AbortFailed))
    {
      calls := [];
      var access := Access(sessions, caller, uploadId);
      if access.Err? {
        return Err(access.error), calls;
      }
      var s := access.value;
      calls := [AbortMultipartUpload(s.key, uploadId)];
      sessions := sessions - {uploadId};
      r := if abortOk then Ok(Aborted(s.courseId, s.lectureId)) else Err(AbortFailed);
    }

    /** `get_upload_status`: reads only; expiry is not checked. */
    function GetUploadStatus(caller: int, uploadId: string): (r: Result<StatusView>)
      reads this
      ensures Access(sessions, caller, uploadId).Err? ==> r == Err(Access(sessions, caller, uploadId).error)
      ensures Access(sessions, caller, uploadId).Ok? && sessions[uploadId].partsExpected == 0 ==>
                r == Err(ZeroPartsExpected)
      ensures Access(sessions, caller, uploadId).Ok? && sessions[uploadId].partsExpected != 0 ==> r.Ok?
      ensures r.Ok? ==> uploadId in sessions && sessions[uploadId].instructorId == caller
                        && var s := sessions[uploadId];
                        && r.value.uploadId == uploadId && r.value.status == s.status
                        && r.value.courseId == s.courseId && r.value.lectureId == s.lectureId
                        && r.value.partsReceived == s.partsReceived && r.value.partsExpected == s.partsExpected
                        && r.value.progress == Progress(s.partsReceived, s.partsExpected)
                        && r.value.createdAt == s.createdAt && r.value.expiresAt == s.expiresAt
    {
      match Access(sessions, caller, uploadId)
      case Err(e) => Err(e)
      case Ok(s) =>
        if s.partsExpected == 0 then Err(ZeroPartsExpected)
        else Ok(StatusView(uploadId, s.status, s.courseId, s.lectureId, s.partsReceived, s.partsExpected,
                           Progress(s.partsReceived, s.partsExpected), s.createdAt, s.expiresAt))
    }

    /** `list_active_uploads`: the caller's sessions, summarised; one of them with zero expected parts
        makes the whole listing fail. */
    method ListActiveUploads(caller: int) returns (r: Result<map<string, Summary>>, count: int)
      ensures r.Err? <==> exists id :: id in sessions && sessions[id].instructorId == caller
                                       && sessions[id].partsExpected == 0
      ensures r.Err? ==> r.error == ZeroPartsExpected
      ensures r.Ok? ==> r.value.Keys == set id | id in sessions && sessions[id].instructorId == caller
      ensures r.Ok? ==> forall id :: id in r.value ==>
                          sessions[id].partsExpected != 0 && r.value[id] == Summarize(sessions[id])
      ensures r.Ok? ==> count == |r.value|
    {
      var remaining := sessions.Keys;
      var acc: map<string, Summary> := map[];
      while remaining != {}
        invariant remaining <= sessions.Keys
        invariant acc.Keys == set id | id in sessions.Keys - remaining && sessions[id].instructorId == caller
        invariant forall id :: id in acc ==> sessions[id].partsExpected != 0 && acc[id] == Summarize(sessions[id])
        decreases remaining
      {
        var id :| id in remaining;
        var info := sessions[id];
        if info.instructorId == caller {
          if info.partsExpected == 0 {
            return Err(ZeroPartsExpected), 0;
          }
          acc := acc[id := Summarize(info)];
        }
        remaining := remaining - {id};
      }
      r, count := Ok(acc), |acc|;
    }

    /** `cleanup_uploads`: refused unless the caller is the admin; otherwise one sweep. */
    method CleanupUploads(caller: int, now: int) returns (r: Result<CleanupReport>, calls: seq<RemoteCall>)
      requires Valid()
      modifies this
      ensures Valid()
      ensures caller != AdminId ==> r == Err(Forbidden) && calls == [] && sessions == old(sessions)
      ensures caller == AdminId ==>
                && r.Ok?
                && r.value.count == |r.value.cleaned|
                && Distinct(r.value.cleaned)
                && (forall i :: 0 <= i < |r.value.cleaned| ==> r.value.cleaned[i] in ExpiredIds(old(sessions), now))
                && (forall id :: id in ExpiredIds(old(sessions), now) ==> id in r.value.cleaned)
                && sessions == old(sessions) - ExpiredIds(old(sessions), now)
                && |calls| == |r.value.cleaned|
                && (forall i :: 0 <= i < |calls| ==>
                      calls[i] == AbortMultipartUpload(old(sessions)[r.value.cleaned[i]].key, r.value.cleaned[i]))
    {
      if caller != AdminId {
        return Err(Forbidden), [];
      }
      var cleaned;
      cleaned, calls := SweepExpired(now);
      r := Ok(CleanupReport(cleaned, |cleaned|));
    }

    /** One pass of `background_cleanup` (the hourly sleep between passes is not modelled). */
    method BackgroundCleanupPass(now: int) returns (calls: seq<RemoteCall>)
      requires Valid()
      modifies this
      ensures Valid()
      ensures sessions == old(sessions) - ExpiredIds(old(sessions), now)
      ensures forall id :: id in ExpiredIds(old(sessions), now) ==>
                AbortMultipartUpload(old(sessions)[id].key, id) in calls
      ensures forall c :: c in calls ==> c.AbortMultipartUpload? && c.uploadId in ExpiredIds(old(sessions), now)
    {
      var cleaned;
      cleaned, calls := SweepExpired(now);
      forall id | id in ExpiredIds(old(sessions), now)
        ensures AbortMultipartUpload(old(sessions)[id].key, id) in calls
      {
        var i :| 0 <= i < |cleaned| && cleaned[i] == id;
        assert cleaned[i] in ExpiredIds(old(sessions), now);
        assert calls[i] == AbortMultipartUpload(old(sessions)[id].key, id);
      }
    }

    /** The loop body both sweeps share: walk a snapshot of the records, abort and delete each expired one.
        A failing abort is logged and the record is deleted all the same. */
    method SweepExpired(now: int) returns (cleaned: seq<string>, calls: seq<RemoteCall>)
      requires Valid()
      modifies this
      ensures Valid()
      ensures Distinct(cleaned)
      ensures forall i :: 0 <= i < |cleaned| ==> cleaned[i] in ExpiredIds(old(sessions), now)
      ensures forall id :: id in ExpiredIds(old(sessions), now) ==> id in cleaned
      ensures sessions == old(sessions) - ExpiredIds(old(sessions), now)
      ensures |calls| == |cleaned|
      ensures forall i :: 0 <= i < |calls| ==>
                calls[i] == AbortMultipartUpload(old(sessions)[cleaned[i]].key, cleaned[i])
    {
      var snapshot := sessions;
      var remaining := snapshot.Keys;
      cleaned, calls := [], [];
      while remaining != {}
        invariant remaining <= snapshot.Keys
        invariant snapshot == old(sessions)
        invariant Distinct(cleaned)
        invariant forall i :: 0 <= i < |cleaned| ==> cleaned[i] in ExpiredIds(snapshot, now) && cleaned[i] !in remaining
        invariant forall id :: id in ExpiredIds(snapshot, now) - remaining ==> id in cleaned
        invariant sessions == snapshot - (ExpiredIds(snapshot, now) - remaining)
        invariant |calls| == |cleaned|
        invariant forall i :: 0 <= i < |calls| ==>
                    calls[i] == AbortMultipartUpload(snapshot[cleaned[i]].key, cleaned[i])
        invariant Valid()
        decreases remaining
      {
        var id :| id in remaining;
        var info := snapshot[id];
        if IsExpired(info, now) {
          calls := calls + [AbortMultipartUpload(info.key, id)];
          sessions := sessions - {id};
          cleaned := cleaned + [id];
        }
        remaining := remaining - {id};
      }
    }
  }

  /** Ids of the records past their expiry at `now`. */
  ghost function ExpiredIds(sessions: map<string, Session>, now: int): set<string> {
    set id | id in sessions && IsExpired(sessions[id], now)
  }

  predicate Distinct<T(==)>(s: seq<T>) {
    forall i, j :: 0 <= i < j < |s| ==> s[i] != s[j]
  }

  /** The two cache patterns a successful completion invalidates. */
  function InvalidatedPatterns(courseId: int, lectureId: int): seq<string> {
    ["lectures:id:" + IntToString(lectureId) + ":*", "courses:id:" + IntToString(courseId) + ":*"]
  }

  /** The presigned-URL loop of `init_upload`, one URL per part number 1 .. parts, keyed by `str(part_number)`. */
  method PresignParts(key: string, uploadId: string, parts: int, sign: (string, string, int) -> string)
    returns (urls: map<string, string>)
    ensures urls.Keys == PartKeys(parts)
    ensures forall p: nat :: 1 <= p <= parts ==> urls[NatToString(p)] == sign(key, uploadId, p)
  {
    urls := map[];
    var p: nat := 1;
    while p <= parts
      invariant 1 <= p && (parts >= 1 ==> p <= parts + 1) && (parts < 1 ==> p == 1)
      invariant urls.Keys == set q: nat | 1 <= q < p :: NatToString(q)
      invariant forall q: nat :: 1 <= q < p ==> urls[NatToString(q)] == sign(key, uploadId, q)
    {
      forall q: nat | 1 <= q < p ensures NatToString(q) != NatToString(p) {
        if NatToString(q) == NatToString(p) {
          NatToStringInjective(q, p);
        }
      }
      assert (set q: nat | 1 <= q < p + 1 :: NatToString(q)) == (set q: nat | 1 <= q < p :: NatToString(q)) + {NatToString(p)};
      urls := urls[NatToString(p) := sign(key, uploadId, p)];
      p := p + 1;
    }
    if parts >= 1 {
      assert p == parts + 1;
    } else {
      assert p == 1;
    }
  }

  /** Decimal renderings of integers hold only digits and the minus sign. */
  lemma IntToStringChars(i: int)
    ensures forall k :: 0 <= k < |IntToString(i)| ==> IntToString(i)[k] == '-' || '0' <= IntToString(i)[k] <= '9'
  {
    if i < 0 {
      var n := NatToString(-i);
      assert forall k :: 1 <= k < |IntToString(i)| ==> IntToString(i)[k] == n[k - 1];
    }
  }

  /** Different (course, lecture) pairs get different object keys, so two lectures never share a video. */
  lemma LectureVideoKeyInjective(c1: int, l1: int, c2: int, l2: int)
    requires LectureVideoKey(c1, l1) == LectureVideoKey(c2, l2)
    ensures c1 == c2 && l1 == l2
  {
    var a1, a2 := IntToString(c1), IntToString(c2);
    var b1, b2 := IntToString(l1), IntToString(l2);
    PrefixCancel(VideoKeyPrefix, a1 + (LectureTag + (b1 + VideoKeySuffix)), a2 + (LectureTag + (b2 + VideoKeySuffix)));
    IntToStringChars(c1);
    IntToStringChars(c2);
    SplitAtSeparator(a1, LectureTag + (b1 + VideoKeySuffix), a2, LectureTag + (b2 + VideoKeySuffix), '/');
    PrefixCancel(LectureTag, b1 + VideoKeySuffix, b2 + VideoKeySuffix);
    SuffixCancel(b1, b2, VideoKeySuffix);
    IntToStringInjective(c1, c2);
    IntToStringInjective(l1, l2);
  }

  /** For a counter within its bound the progress is a percentage, and it is 100 exactly when every
      expected part has been reported. */
  lemma ProgressBounds(received: int, expected: int)
    requires 0 <= received <= expected && expected > 0
    ensures 0 <= Progress(received, expected) <= 100
    ensures Progress(received, expected) == 100 <==> received == expected
  {
    var n := 100 * received;
    assert Progress(received, expected) == n / expected;
    MulMonotoneInt(received, expected, 100);
    DivBrackets(n, expected);
    if received < expected {
      assert n < 100 * expected by {
        assert 100 * expected - n == 100 * (expected - received);
      }
      MulCancel(n / expected, 100, expected);
    } else {
      DivBetween(n, expected, 100);
    }
    if n / expected < 0 {
      MulCancel(n / expected + 1, 1, expected);
    }
  }

  /** Parts that arrive already in order are sent in that order: the sort moves nothing, not even ties. */
  lemma {:induction false} InsertPartAfterAll(x: Part, t: seq<Part>)
    requires forall k :: 0 <= k < |t| ==> t[k].partNumber <= x.partNumber
    ensures InsertPart(x, t) == t + [x]
    decreases |t|
  {
    if t != [] {
      InsertPartAfterAll(x, t[1..]);
      assert t == [t[0]] + t[1..];
    }
  }

  lemma {:induction false} SortPartsSortedIsIdentity(s: seq<Part>)
    requires SortedByPartNumber(s)
    ensures SortParts(s) == s
    decreases |s|
  {
    if s != [] {
      var init, x := s[..|s| - 1], s[|s| - 1];
      assert init + [x] == s;
      SortedSplitsAtLast(init, x);
      SortPartsSortedIsIdentity(init);
      InsertPartAfterAll(x, init);
      assert SortParts(s) == InsertPart(x, SortParts(init));
    }
  }

  /** The parts numbered `n`, in the order they appear. */
  function Numbered(s: seq<Part>, n: int): seq<Part> {
    if s == [] then [] else Tie(s[0], n) + Numbered(s[1..], n)
  }

  /** `[y]` when `y` is numbered `n`, and nothing otherwise. */
  function Tie(y: Part, n: int): seq<Part> {
    if y.partNumber == n then [y] else []
  }

  lemma NumberedCons(y: Part, r: seq<Part>, n: int)
    ensures Numbered([y] + r, n) == Tie(y, n) + Numbered(r, n)
  {
    assert ([y] + r)[0] == y && ([y] + r)[1..] == r;
  }

  lemma {:induction false} NumberedConcat(a: seq<Part>, b: seq<Part>, n: int)
    ensures Numbered(a + b, n) == Numbered(a, n) + Numbered(b, n)
    decreases |a|
  {
    if a == [] {
      assert a + b == b;
    } else {
      var ab := a + b;
      assert ab[0] == a[0];
      assert ab[1..] == a[1..] + b;
      NumberedConcat(a[1..], b, n);
      calc {
        Numbered(ab, n);
        Tie(a[0], n) + Numbered(a[1..] + b, n);
        Tie(a[0], n) + (Numbered(a[1..], n) + Numbered(b, n));
        (Tie(a[0], n) + Numbered(a[1..], n)) + Numbered(b, n);
        Numbered(a, n) + Numbered(b, n);
      }
    }
  }

  lemma {:induction false} NumberedAbove(t: seq<Part>, n: int)
    requires forall k :: 0 <= k < |t| ==> t[k].partNumber > n
    ensures Numbered(t, n) == []
    decreases |t|
  {
    if t != [] {
      NumberedAbove(t[1..], n);
    }
  }

  /** Inserting into sorted parts puts `x` after every part that shares its number. */
  lemma {:induction false} InsertPartKeepsTies(x: Part, t: seq<Part>, n: int)
    requires SortedByPartNumber(t)
    ensures Numbered(InsertPart(x, t), n) == Numbered(t, n) + Tie(x, n)
    decreases |t|
  {
    if t == [] {
      NumberedCons(x, [], n);
    } else if x.partNumber < t[0].partNumber {
      InsertBeforeKeepsTies(x, t, n);
    } else {
      InsertAfterHeadKeepsTies(x, t, n);
    }
  }

  lemma InsertBeforeKeepsTies(x: Part, t: seq<Part>, n: int)
    requires SortedByPartNumber(t) && t != [] && x.partNumber < t[0].partNumber
    ensures Numbered(InsertPart(x, t), n) == Numbered(t, n) + Tie(x, n)
  {
    assert InsertPart(x, t) == [x] + t;
    NumberedCons(x, t, n);
    if x.partNumber == n {
      forall k | 0 <= k < |t| ensures t[k].partNumber > n {
        assert t[0].partNumber <= t[k].partNumber;
      }
      NumberedAbove(t, n);
    }
  }

  lemma {:induction false} InsertAfterHeadKeepsTies(x: Part, t: seq<Part>, n: int)
    requires SortedByPartNumber(t) && t != [] && x.partNumber >= t[0].partNumber
    ensures Numbered(InsertPart(x, t), n) == Numbered(t, n) + Tie(x, n)
    decreases |t|, 0
  {
    var r := InsertPart(x, t[1..]);
    assert InsertPart(x, t) == [t[0]] + r;
    assert SortedByPartNumber(t[1..]);
    InsertPartKeepsTies(x, t[1..], n);
    NumberedCons(t[0], r, n);
  }

  /** The sort is stable: for every part number, the parts with that number keep their arrival order. */
  lemma {:induction false} SortPartsStable(s: seq<Part>, n: int)
    ensures Numbered(SortParts(s), n) == Numbered(s, n)
    decreases |s|
  {
    if s != [] {
      var init, x := s[..|s| - 1], s[|s| - 1];
      assert init + [x] == s;
      SortPartsStable(init, n);
      InsertPartKeepsTies(x, SortParts(init), n);
      assert SortParts(s) == InsertPart(x, SortParts(init));
      NumberedConcat(init, [x], n);
      NumberedCons(x, [], n);
      assert [x] + [] == [x];
    }
  }

  lemma SortedSplitsAtLast(init: seq<Part>, x: Part)
    requires SortedByPartNumber(init + [x])
    ensures SortedByPartNumber(init)
    ensures forall k :: 0 <= k < |init| ==> init[k].partNumber <= x.partNumber
  {
    var s := init + [x];
    forall i, j | 0 <= i < j < |init|
      ensures init[i].partNumber <= init[j].partNumber
    {
      assert init[i] == s[i] && init[j] == s[j];
    }
    forall k | 0 <= k < |init|
      ensures init[k].partNumber <= x.partNumber
    {
      assert init[k] == s[k] && x == s[|init|];
    }
  }


  /** The parts 3, 1, 5, 2, 4 of session "U1", reported one after another by its owner. */
  method ReportOutOfOrder(registry: Registry)
    requires registry.Valid() && "U1" in registry.sessions
    requires var s := registry.sessions["U1"];
             s.instructorId == 7 && s.parts == [] && s.partsReceived == 0 && !IsExpired(s, 1005)
    modifies registry
    ensures registry.Valid() && "U1" in registry.sessions
    ensures registry.sessions["U1"] == old(registry.sessions["U1"]).(
              parts := [Part("e", 3), Part("e", 1), Part("e", 5), Part("e", 2), Part("e", 4)], partsReceived := 5)
  {
    var numbers := [3, 1, 5, 2, 4];
    ghost var s0 := registry.sessions["U1"];
    ghost var all := [Part("e", 3), Part("e", 1), Part("e", 5), Part("e", 2), Part("e", 4)];
    var i := 0;
    while i < 5
      invariant 0 <= i <= 5
      invariant registry.Valid() && "U1" in registry.sessions
      invariant registry.sessions["U1"] == s0.(parts := all[..i], partsReceived := i)
    {
      assert all[..i + 1] == all[..i] + [Part("e", numbers[i])];
      var _ := registry.UploadPartStatus(7, "U1", numbers[i], "e", 1001 + i);
      i := i + 1;
    }
    assert all[..5] == all;
  }

  /** Five parts reported out of order, 3, 1, 5, 2, 4, make the session completable, and the completion
      call receives exactly those parts in part order. */
  method OutOfOrderUploadScenario(sign: (string, string, int) -> string)
    returns (registry: Registry, done: Result<Completion>, calls: seq<RemoteCall>)
    ensures done.Ok? && "U1" !in registry.sessions
    ensures |calls| == 1 && calls[0].CompleteMultipartUpload?
    ensures SortedByPartNumber(calls[0].parts)
    ensures multiset(calls[0].parts) == multiset{Part("e", 1), Part("e", 2), Part("e", 3), Part("e", 4), Part("e", 5)}
  {
    registry := new Registry("ap-southeast-1");
    var init, _ := registry.InitUpload(7, 3, 9, 25 * 1024 * 1024, "video/mp4", 5, 1000, true, true, Some("U1"), sign);
    ReportOutOfOrder(registry);
    ghost var reported := registry.sessions["U1"].parts;
    assert multiset(reported) == multiset{Part("e", 1), Part("e", 2), Part("e", 3), Part("e", 4), Part("e", 5)};
    done, calls := registry.CompleteUpload(7, "U1", 2000, true);
  }
}
