# The Learning House — a verified model of its core

The Learning House is an online-course platform. It has a Python (FastAPI) backend and a React frontend. This project models the parts of both that hold the platform's state and rules, and proves properties of that model:

- **Backend caches.** The read-through API cache, with optional compression and hit/miss/size counters. The caching decorators and the pattern clear. The per-user chat transcripts. All of them sit over a Valkey/Redis store with `GET`, `SETEX`, `DEL` and cursor-based `SCAN`.
- **Chat memory.** The chatbot's per-user, per-context conversation buffers.
- **Multipart upload registry.** Sessions keyed by upload id, each with an owner check, a 24-hour expiry, the parts reported so far, completion, abort and cleanup.
- **Vector-store sync.** The row hashing, document text normalisation, scroll of the stored points, and the new/removed/updated plan of the vector-store sync, for courses and for lectures.
- **API handlers.** Token extraction. Grouping of quiz rows into questions, and the round-trip from `create_lecture` through `get_lecture_details`. Quiz grading and the completion bucket. The per-day dashboard statistics. The profile update, and the status codes of `update_user_profile` and `create_lecture`.
- **Frontend.**
  - The chunked video uploader: routing, part tiling, retries and progress.
  - The loading counter.
  - The asset path rule.
  - The home page's five-minute metrics cache in local storage.
  - Course sorting and search.
  - The login and registration form logic, including the e-mail pattern.

Everything outside the program becomes an input of the members. That covers the store's replies, SQL outcomes, object-storage outcomes, the clock, JSON, zlib/base64 and md5. JSON is a `Codec` with a round-trip hypothesis (`Common.JsonLike`). zlib+base64 is a `Packer` with its own round-trip hypothesis. md5 is a function parameter, assumed injective only where a lemma says so.

Each source file is one Dafny module: `ApiCache`, `CacheUtils`, `ChatCache`, `Memory`, `Retrieval`, `UploadRegistry`, `ApiEndpoints`, `VideoUploader`, `LoadingContext`, `AssetUtils`, `HomeCache`, `Courses` and `Login`. Two modules are shared: `Common` (Option, codecs, string helpers, decimal rendering) and `KvStore` (the key-value store). Objects that the source updates in place are classes with `modifies` frames: the store, the cache and its counters, the memory manager and its buffers, the upload registry, the uploader, the loading provider, local storage and the home page state.

## Model

| member | source | states |
|---|---|---|
| KvStore.Store.Get | services/utils/api_cache.py:41 | `GET` yields a value exactly when the key is present, and the value is the stored one |
| KvStore.Store.SetEx | services/utils/api_cache.py:103-106 | `SETEX` sets the key's value and its TTL and changes no other key |
| KvStore.Store.Delete | services/utils/api_cache.py:124 | `DEL` removes exactly the listed keys; absent keys are ignored |
| KvStore.Store.DeleteScanned | services/utils/api_cache.py:137-144 | the cursor loop from 0 until the server hands back 0 removes exactly the matching keys of every page it visits |
| KvStore.ScanReply | services/utils/api_cache.py:140 | a `SCAN ... MATCH` reply holds exactly the keys of the page that match the glob |
| KvStore.MatchedKeysMembers | services/utils/api_cache.py:138-144 | a key is removed by the walk iff it matches and lies on some visited page |
| KvStore.StarMatchesAll | services/utils/cache_utils.py:41 | the default pattern `*` matches every key |
| KvStore.PrefixStarMatch | services/api/upload_endpoints.py:288-289 | a wildcard-free prefix followed by `*` matches exactly the keys that start with the prefix |
| KvStore.FullScanLeavesNonMatching | services/utils/api_cache.py:128-146 | a scan that visits every key leaves exactly the non-matching keys |
| ApiCache.Classify | services/utils/api_cache.py:41-68 | an absent or empty value is a miss; an unprefixed value that parses is served as parsed; a prefixed one is unpacked first; a failure the inner `except` names makes the value corrupt, and one it does not name (a `ValueError` from `b64decode` or from UTF-8 decoding) escapes to the outer handler exactly when unpacking raises it |
| ApiCache.Encoded | services/utils/api_cache.py:78-106 | what a miss stores carries the `COMPRESSED:` prefix when compression was asked for and the JSON is over 10 KiB, and is the plain JSON otherwise |
| ApiCache.Cache.constructor | services/utils/api_cache.py:12-16 | all counters start at zero and the start time is now |
| ApiCache.Cache.GetCachedData | services/utils/api_cache.py:21-114 | per path (disabled, failing get, hit, corrupt, escaping unpack error, fill, failing fill): the value returned, how many database fetches ran, the hit and miss increments, the size counters, and the exact store contents afterwards |
| ApiCache.Cache.InvalidateCache | services/utils/api_cache.py:116-126 | the listed keys are deleted unless the cache is unavailable, the list is empty or the delete raises; in those cases the store is unchanged |
| ApiCache.Cache.InvalidateCachePattern | services/utils/api_cache.py:128-146 | the matching keys of the pages walked before any failing step are deleted, and nothing else is |
| ApiCache.Cache.GetCacheMetrics | services/utils/api_cache.py:148-172 | the counts as kept, and total = hits + misses; the hit ratio is 0 with no requests and the hit percentage otherwise, so it lies in 0..100 and is 100 iff there were requests and no misses; the savings are 0 unless both size counters are positive, and 100 minus the compressed share otherwise; the two sizes are reported in KiB; savings are positive iff the compressed values take fewer bytes in total than the JSON of every value stored, since both size counters are running totals |
| ApiCache.Cache.ResetCacheMetrics | services/utils/api_cache.py:174-182 | every counter is back to zero and the start time is now |
| ApiCache.PercentBounds | services/utils/api_cache.py:152-161 | `part/whole*100` lies in 0..100 for 0 <= part <= whole, and is 100 exactly when part = whole |
| ApiCache.EncodedRoundTrip | services/utils/api_cache.py:50-61 | whatever a miss stores, compressed or not, is read back by the hit path as the same value |
| ApiCache.NonAsciiPayloadEscapes | services/utils/api_cache.py:53-62 | a stored `COMPRESSED:é` is neither served nor deleted: `b64decode` raises a `ValueError` the inner `except` does not name, so the outer handler counts a miss and runs the database fetch |
| ApiCache.EncodedPrefixIffCompressed | services/utils/api_cache.py:86-106 | the stored value carries the prefix iff it was compressed: plain JSON never starts with it |
| ApiCache.MissThenHit | services/utils/api_cache.py:41-106 | a first call on an absent key fetches once and stores the value; a second call is served that value without fetching; one hit and one miss are counted |
| CacheUtils.CacheKey | services/utils/cache_utils.py:20 | the key is prefix, args and kwargs separated by colons |
| CacheUtils.CacheKeyInjectiveInArgs | services/utils/cache_utils.py:20 | under one prefix and the same kwargs, different positional arguments get different keys |
| CacheUtils.CacheData | services/utils/cache_utils.py:8-39 | a failing `GET` raises before the function runs and changes nothing; a non-empty cached value is returned parsed (or the call raises) without running the function; otherwise the function runs once and its result is stored with the TTL, or the call raises when `SETEX` fails |
| CacheUtils.CacheWithFallback | services/utils/cache_utils.py:53-81 | a hit returns the parsed value with no call; a miss stores the result for an hour; a failing store call or an unparsable value makes the function run directly, and that run's value is returned; no key but its own gains a TTL |
| CacheUtils.CacheWithFallbackTwice | services/utils/cache_utils.py:53-81 | a first call on an absent key runs the function once; a second call with the same arguments returns the same value without running it |
| CacheUtils.ClearCache | services/utils/cache_utils.py:41-51 | the scan-and-delete walk removes exactly the matching keys of the scanned pages |
| CacheUtils.ClearCacheDefaultEmpties | services/utils/cache_utils.py:41-51 | `clear_cache()` over a scan that visits every key leaves the store empty |
| ChatCache.HistoryKeyInjective | services/utils/chat_cache.py:9 | every user has a key of their own |
| ChatCache.History | services/utils/chat_cache.py:7-19 | an absent key, or a value that does not parse, reads as the empty transcript |
| ChatCache.AppendThenRead | services/utils/chat_cache.py:21-29 | after an append, the transcript is the old one plus exactly the new message at the end |
| ChatCache.AppendLeavesOthers | services/utils/chat_cache.py:21-29 | an append leaves every other user's transcript as it was |
| ChatCache.GetChatHistory | services/utils/chat_cache.py:7-19 | a stored value that parses is the history; an absent, empty or unparsable value means an empty history |
| ChatCache.AppendChatMessage | services/utils/chat_cache.py:21-29 | the store holds the appended transcript under the user's key, with a TTL of one hour |
| ChatCache.ClearUserChatHistory | services/utils/chat_cache.py:31-34 | exactly the user's key is removed |
| ChatCache.ClearThenRead | services/utils/chat_cache.py:31-34 | after a clear the transcript reads as empty |
| ChatCache.TwoMessagesScenario | services/utils/chat_cache.py:7-34 | after a clear and two appends, the history is the two messages in the order they were sent |
| Memory.MemoryManager.GetMemory | services/api/chatbot/memory.py:8-25 | an existing (user, context) buffer is returned with the map unchanged; otherwise a new empty buffer is registered under the pair and nothing else in the map changes; no buffer is ever shared between two pairs |
| Memory.SameBufferTwice | services/api/chatbot/memory.py:8-25 | asking twice for one (user, context) pair gives the same buffer; the map changes only when the pair was new, by that one fresh empty buffer |
| Memory.MemoryManager.GetDefaultMemory | services/api/chatbot/memory.py:8-25 | with no context the `general` context is used: a buffer that already exists there is returned and the map is unchanged; otherwise one fresh empty buffer is added under `general` and nothing else changes |
| Memory.MemoryManager.ClearMemory | services/api/chatbot/memory.py:27-41 | a non-empty context empties that one buffer; None or "" empties every buffer of the user; buffers of other users, and other contexts when one was named, keep their messages; the map itself never changes |
| Memory.Buffer.Clear | services/api/chatbot/memory.py:37 | the buffer's messages are emptied |
| Retrieval.Columns | services/api/chatbot/retrieval.py:63-70 | one value per hashed column, "" when the row lacks it |
| Retrieval.HashLecturesAsWrittenConstant | services/api/chatbot/retrieval.py:62-71 | every lecture row hashes to the digest of five bars whatever its title, description or content, because the hash reads the course columns |
| Retrieval.JoinInjective | services/api/chatbot/retrieval.py:63 | joining equal-length lists whose items avoid the separator is injective |
| Retrieval.ColumnsHashDetectsEdits | services/api/chatbot/retrieval.py:314-323 | with an injective digest and separator-free values, rows that differ in a hashed column hash differently |
| Retrieval.HashCourseDetectsEdits | services/api/chatbot/retrieval.py:314-323 | `hash_course` changes when any of its six columns changes |
| Retrieval.HashLectureDetectsEdits | services/api/chatbot/retrieval.py:77 | the lecture hash over the selected lecture columns changes when the title, description or content changes |
| Retrieval.Collapse | services/api/chatbot/retrieval.py:100 | `re.sub(r"\s+", " ", s)`: every white-space character left is a single blank with no white space beside it, and the result is empty iff the input is |
| Retrieval.NormalizeClean | services/api/chatbot/retrieval.py:100 | normalised text is well spaced and has no leading or trailing white space |
| Retrieval.NormalizeKeepsVisibleText | services/api/chatbot/retrieval.py:100 | normalising keeps every non-white-space character, in order |
| Retrieval.CollapseJoin | services/api/chatbot/retrieval.py:100 | a run of white space between text that ends visibly and text that starts visibly becomes exactly one blank, so the words on either side are kept apart and each side collapses as it would alone |
| Retrieval.CollapseWellSpacedIsIdentity | services/api/chatbot/retrieval.py:100 | collapsing text that is already well spaced changes nothing |
| Retrieval.NormalizeIdempotent | services/api/chatbot/retrieval.py:100 | normalising twice is normalising once |
| Retrieval.LectureTextClean | services/api/chatbot/retrieval.py:94-100 | a lecture's page text is clean and holds the visible text of the labelled, comma-joined parts |
| Retrieval.CourseTextClean | services/api/chatbot/retrieval.py:341-350 | a course's page text is clean and holds the visible text of the labelled, comma-joined parts |
| Retrieval.BuildEach | services/api/chatbot/retrieval.py:92-108 | the list built has one entry per row, the i-th made from the i-th row, in row order |
| Retrieval.LectureDocumentHashConstant | services/api/chatbot/retrieval.py:103-105 | as written, every lecture document stores the same hash, the digest of five bars, whatever its text |
| Retrieval.LectureDocumentCorrectedHashDetectsEdits | services/api/chatbot/retrieval.py:94-105 | with the lecture hash and an injective digest, two lecture documents whose title, description or content differ store different hashes |
| Retrieval.ConvertToDocumentsLectures | services/api/chatbot/retrieval.py:91-108 | one document per row, in row order, with that row's text, id and `hash_lectures` hash as written |
| Retrieval.ConvertToDocumentsLecturesCorrected | services/api/chatbot/retrieval.py:91-108 | the same documents, each hashed with the lecture hash over its own title, description and content |
| Retrieval.ConvertToDocuments | services/api/chatbot/retrieval.py:337-363 | one document per course row, in row order, with that row's text, its four metadata columns (skills, duration, difficulty, average rating) and hash |
| Retrieval.HashMapOfKeys | services/api/chatbot/retrieval.py:378-381 | the hash map has a key for exactly the ids of the points seen |
| Retrieval.HashMapOfLastSeen | services/api/chatbot/retrieval.py:381 | for each id the map keeps the hash of the last point seen with it, "" when that point has none |
| Retrieval.GetExistingQdrantData | services/api/chatbot/retrieval.py:366-385 | the scroll loop returns the ids and the id-to-hash map of all points on all pages |
| Retrieval.DbMap | services/api/chatbot/retrieval.py:418-419 | the map from id to row has a key for exactly the row ids |
| Retrieval.Plan | services/api/chatbot/retrieval.py:424-434 | the new, removed and updated sets are pairwise disjoint; an id is upserted iff it is in the database and is either not stored or stored with another hash; an id is removed iff it is stored but no longer in the database |
| Retrieval.SyncConverges | services/api/chatbot/retrieval.py:408-463 | on a store keyed by entity id, one sync against the store's own contents leaves it mirroring the database's hashes |
| Retrieval.SyncIdempotent | services/api/chatbot/retrieval.py:424-431 | on a store keyed by entity id, right after a sync a second one finds nothing new, removed or updated |
| Retrieval.AsWrittenNeverReindexesLecture | services/api/chatbot/retrieval.py:62-71 | as written, a lecture row read back in any state after indexing, edited or not, is planned neither as new nor as updated |
| Retrieval.LectureEditMissedAsWritten | services/api/chatbot/retrieval.py:62-71 | as written, a lecture whose title was edited after indexing is neither new nor updated |
| Retrieval.LectureEditDetected | services/api/chatbot/retrieval.py:170-176 | with the lecture hash and an injective digest, the same edit is planned as an update |
| UploadRegistry.LectureVideoKey | services/api/upload_endpoints.py:84-85 | the object key of a lecture's video |
| UploadRegistry.LectureVideoKeyInjective | services/api/upload_endpoints.py:84-85 | different (course, lecture) pairs get different keys |
| UploadRegistry.VideoUrl | services/api/upload_endpoints.py:280 | the public URL ends with the object key |
| UploadRegistry.Access | services/api/upload_endpoints.py:198-203 | access is granted iff the session exists and the caller owns it; otherwise 404 for an unknown id and 403 for someone else's |
| UploadRegistry.ProgressBounds | services/api/upload_endpoints.py:225 | `int(received/expected*100)` lies in 0..100 and is 100 exactly when every part was reported |
| UploadRegistry.InsertPart | services/api/upload_endpoints.py:267 | inserting keeps the multiset of parts, plus the new one |
| UploadRegistry.InsertPartSorted | services/api/upload_endpoints.py:267 | inserting into parts sorted by number keeps them sorted |
| UploadRegistry.SortParts | services/api/upload_endpoints.py:267 | the parts sent to the complete call are a permutation of those reported, sorted by part number |
| UploadRegistry.SortPartsSortedIsIdentity | services/api/upload_endpoints.py:267 | parts already in order are sent unchanged, ties included |
| UploadRegistry.SortPartsStable | services/api/upload_endpoints.py:267 | the sort is stable: for every part number, the parts with that number reach the complete call in the order they were reported |
| UploadRegistry.InsertPartKeepsTies | services/api/upload_endpoints.py:267 | inserting a part into sorted parts places it after every part that shares its number |
| UploadRegistry.InsertPartAfterAll | services/api/upload_endpoints.py:267 | a part numbered at least as high as all before it goes last |
| UploadRegistry.PresignParts | services/api/upload_endpoints.py:142-153 | one presigned URL per part number 1..parts, keyed by the printed part number |
| UploadRegistry.Registry.constructor | services/api/upload_endpoints.py:42 | the registry starts empty |
| UploadRegistry.Registry.InitUpload | services/api/upload_endpoints.py:89-183 | 403 unless the caller owns the course, 404 unless the lecture is in it, 500 when the remote create fails; otherwise a new session expiring in 24 hours with no parts, the presigned URLs, and only that record added |
| UploadRegistry.Registry.UploadPartStatus | services/api/upload_endpoints.py:187-226 | 404, 403 and then 400 for an expired session, in that order; otherwise the part is appended (repeats included), the counter rises by one and nothing else changes |
| UploadRegistry.Registry.CompleteUpload | services/api/upload_endpoints.py:230-318 | 404, 403, 400 for expiry (the record is dropped), 400 when parts are missing (the record is kept); otherwise the complete call gets the parts sorted by number, and on success the URL, the record dropped and the two cache patterns, or on failure a compensating abort and the record dropped |
| UploadRegistry.OutOfOrderUploadScenario | services/api/upload_endpoints.py:187-318 | after parts 3, 1, 5, 2, 4 of five are reported, completion succeeds, issues one complete call whose parts are exactly those five sorted by part number, and drops the record |
| UploadRegistry.Registry.AbortUpload | services/api/upload_endpoints.py:322-366 | 404 and 403 as usual; expiry is not checked; the record is removed whether or not the remote abort succeeds |
| UploadRegistry.Registry.GetUploadStatus | services/api/upload_endpoints.py:370-400 | 404/403 from the access check, a failure when zero parts are expected, otherwise every field of the record (id, status, course, lecture, parts received and expected, creation and expiry) with its progress, the percentage of parts received truncated toward zero; any session that passes the access check and expects parts is answered; nothing changes |
| UploadRegistry.Registry.ListActiveUploads | services/api/upload_endpoints.py:404-428 | exactly the caller's sessions, summarised, with their count; the listing fails iff one of them expects zero parts |
| UploadRegistry.Registry.CleanupUploads | services/api/upload_endpoints.py:432-465 | refused with 403 unless the caller is the admin; otherwise every expired record is aborted and removed and the rest kept |
| UploadRegistry.Registry.BackgroundCleanupPass | services/api/upload_endpoints.py:468-489 | one pass removes exactly the expired records |
| UploadRegistry.Registry.SweepExpired | services/api/upload_endpoints.py:446-459 | the ids cleaned are distinct and are exactly the expired ones, each with one remote abort; the remaining records are the unexpired ones |
| ApiEndpoints.FirstField | services/api/api_endpoints.py:113 | the text before the first space, all of it when there is none |
| ApiEndpoints.RequestToken | services/api/api_endpoints.py:919-924 | a non-empty cookie wins; otherwise the second field of a header starting with `Bearer `; None (401) when there is neither, or when the field is empty, which `decode_token` rejects |
| ApiEndpoints.BearerRoundTrip | services/api/api_endpoints.py:921-922 | `Bearer <t>`, with or without further fields, yields `t` for any non-empty `t` without spaces |
| ApiEndpoints.GroupedWellFormed | services/api/api_endpoints.py:414-444 | every question built has an option, and its correct index points at one of its options |
| ApiEndpoints.GroupQuizRows | services/api/api_endpoints.py:414-444 | the grouping loop computes the grouping function, and its result is well formed |
| ApiEndpoints.GroupedKeepsEveryOption | services/api/api_endpoints.py:434 | grouping loses and reorders no option, whatever the row order |
| ApiEndpoints.GroupedMatchesRowsOf | services/api/api_endpoints.py:400-444 | for rows ordered by question id: one question per id, in increasing order, each with its own rows' texts in order, its first row's text and the index of its last correct option (0 when none is correct) |
| ApiEndpoints.InsertedRows | services/api/api_endpoints.py:1823-1827 | one option row per option, marked correct iff its index is the submitted `correctAnswer` |
| ApiEndpoints.InsertOptions | services/api/api_endpoints.py:1823-1828 | the insert loop writes exactly those rows, in option order |
| ApiEndpoints.AtMostOneCorrect | services/api/api_endpoints.py:1827 | at most one option of a written question is correct, and exactly one when the submitted index is in range |
| ApiEndpoints.QuizRoundTrip | services/api/api_endpoints.py:1813-1828 | a question written by `create_lecture` reads back through the grouping with its text, its options in order and its correct index when that was in range (0 otherwise); one written with no options does not read back |
| ApiEndpoints.CorrectAnswers | services/api/api_endpoints.py:1442 | the dict maps each question with a correct option to that option's text, the last row winning |
| ApiEndpoints.CorrectAnswersOfInserted | services/api/api_endpoints.py:1435-1442 | a written question grades against its submitted correct option, or against nothing when the index was out of range |
| ApiEndpoints.ListedAsStringIff | services/api/api_endpoints.py:1451 | comparing printed ids is comparing ids |
| ApiEndpoints.CorrectCount | services/api/api_endpoints.py:1445-1452 | None (the 500) iff the quiz has no correct options; otherwise a count bounded by the number of questions and by the number of answers |
| ApiEndpoints.PerfectSubmission | services/api/api_endpoints.py:1449-1454 | answering every question correctly scores them all |
| ApiEndpoints.UnknownQuestionIgnored | services/api/api_endpoints.py:1451 | an answer to a question the quiz lacks changes nothing |
| ApiEndpoints.CompletionPercentage | services/api/api_endpoints.py:1495-1510 | no value for a course without lectures; otherwise one of 0, 20, 40, 60, 80 and 100, at most 10 points above the raw percentage, and 100 iff at least 90% were passed |
| ApiEndpoints.CompletionMonotone | services/api/api_endpoints.py:1496-1510 | passing more lectures never lowers the bucket |
| ApiEndpoints.FirstOccurrences | services/api/api_endpoints.py:1113-1114 | the distinct dates, each once, in order of first appearance |
| ApiEndpoints.GroupByDate | services/api/api_endpoints.py:1111-1132 | one entry per distinct date, in dict insertion order, with that date's count of passed rows and its score sum |
| ApiEndpoints.FormatDays | services/api/api_endpoints.py:1123-1132 | the days in dict order with their counts and score sums |
| ApiEndpoints.DayCountsSumToRows | services/api/api_endpoints.py:1111-1127 | the per-day counts add up to the number of passed rows |
| ApiEndpoints.SetList | services/api/api_endpoints.py:942-955 | for each key of the role's table found in the body, in table order, its SET clause and the body's value |
| ApiEndpoints.SetListIgnoresOtherKeys | services/api/api_endpoints.py:945-955 | keys outside the table never reach the statement, so a learner cannot set `Expertise` |
| ApiEndpoints.LearnerFullUpdate | services/api/api_endpoints.py:940-969 | a learner sending all three keys sets all three columns, in order |
| ApiEndpoints.LearnerEmailOnly | services/api/api_endpoints.py:949-951 | a learner sending only `email` sets only `Email` |
| ApiEndpoints.StatusAsWritten | services/api/api_endpoints.py:1008-1010 | as written, every failure inside the token block answers 401 |
| ApiEndpoints.StatusIntended | services/api/api_endpoints.py:1836-1837 | with HTTP errors passed through, each keeps its own status and anything else is 401 |
| ApiEndpoints.UpdateProfileBody | services/api/api_endpoints.py:927-1006 | a bad token raises; an unreachable database raises before the role is looked at; an unknown role is a 403; no editable key is a 200 with no statement; otherwise the statement runs and commits unless it fails |
| ApiEndpoints.UpdateUserProfileAsWritten | services/api/api_endpoints.py:913-1018 | as written: 401 without a usable token, and 401 for every failure inside, including the invalid role |
| ApiEndpoints.UpdateUserProfile | services/api/api_endpoints.py:913-1018 | 401 without a usable token, for a bad one or with the database unreachable, 403 for a role other than Learner and Instructor, 200 otherwise unless the statement fails |
| ApiEndpoints.InvalidRoleAnswered401 | services/api/api_endpoints.py:1003-1010 | as written, an invalid role gets 401 where the code raised 403 |
| ApiEndpoints.UnreachableDatabaseBeforeRole | services/api/api_endpoints.py:936-998 | `connect_db` runs before the role test, so with the database unreachable an invalid role is answered 401 by both versions |
| ApiEndpoints.ProfileSameWrites | services/api/api_endpoints.py:913-1018 | the two versions write the same thing and differ only in the status |
| ApiEndpoints.CreateLectureBody | services/api/api_endpoints.py:1730-1840 | 403 for a non-instructor; an instructor whose database is unreachable gets the raised error with nothing stored; 404 for an unknown instructor, 403 for a course of someone else; a failing lecture insert gives 500 with no lecture; the lecture commits before the video is checked; 400 for an oversized video or a non-video type; after those checks, 500 exactly when the object store fails on a video, the quiz JSON does not parse, or a quiz insert fails while there are questions; a normal exit stores the video iff one was sent and the quiz iff it has questions |
| ApiEndpoints.CreateLectureAsWritten | services/api/api_endpoints.py:1710-1853 | as written, every failure after the token is read answers 401 |
| ApiEndpoints.CreateLecture | services/api/api_endpoints.py:1710-1853 | with HTTP errors passed through, each failure gets its own status: 401 for an unreachable database, 403 and 404 as in the body; 200 only when the video was accepted and nothing failed inside; 500 exactly for a failing lecture insert, or for a failing store, quiz JSON or quiz insert after the lecture committed; a 500 without a lecture stores nothing |
| ApiEndpoints.LectureDatabaseFailures | services/api/api_endpoints.py:1740-1772 | a failing lecture insert gives 500 with nothing stored once errors pass through, and 401 as written; an unreachable database gives 401 with nothing stored in both |
| ApiEndpoints.OversizeVideoAnswered401 | services/api/api_endpoints.py:1781-1782 | as written, an oversized video gets 401 while its lecture stays committed; passed through it gets 400 |
| VideoUploader.NumPartsIsCeiling | react-frontend/src/utils/videoUploader.js:220 | the number of parts is the least count of chunks that covers the file |
| VideoUploader.PartsTile | react-frontend/src/utils/videoUploader.js:258-261 | the slices are non-empty and contiguous; each is one chunk long except the last, which ends at the file size |
| VideoUploader.PartsDisjoint | react-frontend/src/utils/videoUploader.js:259-261 | two different parts never share a byte |
| VideoUploader.ByteInPart | react-frontend/src/utils/videoUploader.js:259-261 | every byte of the file lies in exactly the part its offset names |
| VideoUploader.UploadedBytesIsPartEnd | react-frontend/src/utils/videoUploader.js:311 | after n parts the uploaded total is where part n ends |
| VideoUploader.PartProgressBounds | react-frontend/src/utils/videoUploader.js:312-313 | progress during the parts lies in 5..95 and reaches 95 when the whole file is sent |
| VideoUploader.PartProgressMonotone | react-frontend/src/utils/videoUploader.js:312-313 | more bytes never mean less progress |
| VideoUploader.ProgressTrailRises | react-frontend/src/utils/videoUploader.js:311-313 | the progress reports after each part never decrease and stay in range |
| VideoUploader.ChunkedProgressRises | react-frontend/src/utils/videoUploader.js:253-344 | the whole report sequence starts at 5, never decreases, stays in 5..100 and ends at 100 exactly when the upload is done |
| VideoUploader.ElevenMiBInThreeParts | react-frontend/src/utils/videoUploader.js:10-12 | an 11 MiB file goes chunked, in three parts of 5, 5 and 1 MiB |
| VideoUploader.Uploader.UploadPart | react-frontend/src/utils/videoUploader.js:266-308 | at most three attempts; success iff one of the first three attempts works, and then the attempts stop at the first success; failure means three attempts |
| VideoUploader.Uploader.SendPart | react-frontend/src/utils/videoUploader.js:258-308 | part p covers bytes [PartStart(p), PartEnd(p)); it succeeds iff one of its first three attempts works, and a failure spends all three |
| VideoUploader.Uploader.UploadParts | react-frontend/src/utils/videoUploader.js:257-314 | parts are sent in order as the planned slices, every part before the last one sent succeeded; a failure stops at that part, otherwise all parts go; the progress reports are the trail over the parts that succeeded |
| VideoUploader.Uploader.BackendProxiedChunkedUpload | react-frontend/src/utils/videoUploader.js:217-353 | init failure sends no part; otherwise parts go in order, each after its predecessors succeeded; the first failing part stops the upload; success needs the complete call to work; the progress reports rise from 5 and reach 100 iff uploaded |
| VideoUploader.Uploader.UploadVideo | react-frontend/src/utils/videoUploader.js:101-137 | over 500 MiB: no request and no progress; a compression failure stops at 5; the chunked route iff the file is over 10 MiB; on the chunked route the file is uploaded iff init succeeds, every part succeeds within three attempts and complete succeeds; `onError` is reported twice for a failure inside a route, once for one before it, and never on success |
| LoadingContext.AfterStart | react-frontend/src/services/LoadingContext.js:9-12 | one more outstanding load, with the flag raised |
| LoadingContext.AfterStop | react-frontend/src/services/LoadingContext.js:14-23 | one fewer load, clamped at zero: the last stop (or one when idle) gives idle, the others keep the flag |
| LoadingContext.RunStaysConsistent | react-frontend/src/services/LoadingContext.js:6-23 | any sequence of calls, each applied on its own, keeps the flag equal to "count > 0" and the count non-negative |
| LoadingContext.StopWhenIdle | react-frontend/src/services/LoadingContext.js:16-18 | a stop when idle leaves it idle |
| LoadingContext.StopUndoesStart | react-frontend/src/services/LoadingContext.js:9-23 | a stop undoes a start |
| LoadingContext.RunConcat | react-frontend/src/services/LoadingContext.js:9-23 | running two call sequences one after the other is running their concatenation |
| LoadingContext.StartsCount | react-frontend/src/services/LoadingContext.js:9-12 | n starts raise the count by n |
| LoadingContext.StopsCount | react-frontend/src/services/LoadingContext.js:14-23 | n stops lower the count by n |
| LoadingContext.Balanced | react-frontend/src/services/LoadingContext.js:9-23 | n starts then n stops bring a consistent state back to itself |
| LoadingContext.LoadingProvider.StartLoading | react-frontend/src/services/LoadingContext.js:9-12 | the provider's new state is `AfterStart` of its old one |
| LoadingContext.LoadingProvider.StopLoading | react-frontend/src/services/LoadingContext.js:14-23 | the provider's new state is `AfterStop` of its old one |
| AssetUtils.GetAssetPath | react-frontend/src/utils/assetUtils.js:5-26 | URLs and development paths come back unchanged; in production every other path (missing ones rendered as `null`/`undefined`) goes under `/thelearninghouse/` with one leading slash dropped |
| AssetUtils.ProductionUnderBasename | react-frontend/src/utils/assetUtils.js:12-20 | every production result that is not a URL starts with `/thelearninghouse/` |
| AssetUtils.LeadingSlashIrrelevant | react-frontend/src/utils/assetUtils.js:17-20 | `x` and `/x` name the same asset |
| AssetUtils.ProductionInjective | react-frontend/src/utils/assetUtils.js:12-20 | different paths, up to one leading slash, stay different |
| AssetUtils.MissingPaths | react-frontend/src/utils/assetUtils.js:20 | the empty path and the missing ones land on `/thelearninghouse/`, `/thelearninghouse/null` and `/thelearninghouse/undefined` |
| HomeCache.Lookup | react-frontend/src/pages/Home.js:25-46 | a missing or empty entry gives nothing; an unparsable one gives nothing and is removed; a valid one within five minutes is returned and kept; an expired one gives nothing and is removed |
| HomeCache.ReadWithinLifetime | react-frontend/src/pages/Home.js:21-36 | within five minutes of a write, a read returns the data written and keeps the entry |
| HomeCache.ReadAfterLifetime | react-frontend/src/pages/Home.js:34-40 | from five minutes on, a read gives nothing and the storage is as before the write, less the key |
| HomeCache.WriteLeavesOtherKeys | react-frontend/src/pages/Home.js:48-58 | a write under one key does not change what a read under another finds |
| HomeCache.LocalStorage.GetItem | react-frontend/src/pages/Home.js:27 | `getItem` gives the stored value iff the key is present |
| HomeCache.GetCachedData | react-frontend/src/pages/Home.js:25-46 | the result and the new storage contents are those of `Lookup` |
| HomeCache.SetCachedData | react-frontend/src/pages/Home.js:48-58 | the entry with the current time is stored, or the storage is unchanged when the write fails |
| HomeCache.HomePage.FetchMetrics | react-frontend/src/pages/Home.js:104-139 | a cache hit shows the cached metrics and sends no request; otherwise three requests go out, their answer is shown and cached, and a failure keeps the metrics shown; loading always ends |
| HomeCache.HomePage.RefreshMetrics | react-frontend/src/pages/Home.js:142-145 | a refresh always sends the three requests; the storage afterwards is the old one without the entry, plus the fresh entry stamped now when the answer came and the write succeeded |
| HomeCache.VisitTwice | react-frontend/src/pages/Home.js:104-139 | a first visit asks the API and caches the answer; a second visit within five minutes shows the same metrics and asks nothing |
| Courses.LexCompare | react-frontend/src/pages/Courses.js:30 | the name comparison is -1, 0 or 1, and 0 iff the names are equal |
| Courses.LexCompareAntisymmetric | react-frontend/src/pages/Courses.js:30 | swapping the names negates the comparison |
| Courses.CompareAntisymmetric | react-frontend/src/pages/Courses.js:23-42 | swapping the courses negates the comparison, for every key and order |
| Courses.SortIsSortedPermutation | react-frontend/src/pages/Courses.js:21-43 | the sorted list is sorted by the chosen key and order, and is a permutation of the input |
| Courses.InsertPermutes | react-frontend/src/pages/Courses.js:23 | inserting adds exactly the one course |
| Courses.InsertSorted | react-frontend/src/pages/Courses.js:23 | inserting into a sorted list keeps it sorted |
| Courses.SortKeepsSorted | react-frontend/src/pages/Courses.js:23 | a list already sorted is returned unchanged, ties included |
| Courses.SortIdempotent | react-frontend/src/pages/Courses.js:82-84 | re-sorting the sorted list changes nothing, so the re-sort effect is harmless |
| Courses.UnknownKeyKeepsOrder | react-frontend/src/pages/Courses.js:38-39 | an unknown sort key keeps the input order |
| Courses.EnrollmentOrder | react-frontend/src/pages/Courses.js:27-41 | sorted on enrolments, "asc" lists the largest counts first and "desc" the smallest first |
| Courses.SortCourses | react-frontend/src/pages/Courses.js:21-22 | a missing list sorts to the empty list |
| Courses.Matching | react-frontend/src/pages/Courses.js:75-77 | a course is kept iff its lower-cased name contains the lower-cased search term; nothing is added |
| Courses.VisibleCourses | react-frontend/src/pages/Courses.js:71-80 | a blank search shows every course, sorted; otherwise the matching ones, sorted |
| Courses.VisibleCoursesAre | react-frontend/src/pages/Courses.js:71-80 | the courses shown are sorted and are exactly the matching ones, each as often as in the list |
| Courses.HandleSortChange | react-frontend/src/pages/Courses.js:95-99 | picking the current key while ascending switches to descending; anything else gives the new key ascending |
| Courses.SameHeaderTwice | react-frontend/src/pages/Courses.js:95-99 | clicking the current header twice from ascending comes back to ascending |
| Courses.InstructorComparisonAgrees | react-frontend/src/pages/InstructorDashboard.js:324-347 | when both enrolment counts are present, the dashboard compares like the courses page |
| Login.LastIndexOf | react-frontend/src/pages/Login.js:23 | the position of the last occurrence of a character (the domain's last dot), or none when there is none |
| Login.IndexOfIsFirst | react-frontend/src/pages/Login.js:23 | `IndexOf` finds the first '@' |
| Login.ValidateEmailIsPattern | react-frontend/src/pages/Login.js:22-24 | the scan accepts exactly the language of `^[\w.-]+@[\w.-]+\.\w+$`, both ways |
| Login.ValidEmailHasOneAt | react-frontend/src/pages/Login.js:23 | an accepted address holds exactly one '@' |
| Login.HandleLogin | react-frontend/src/pages/Login.js:26-45 | an empty field gives "Please fill in both fields." and no login call; otherwise login is called and leads to `/courses` iff it works; an error is shown iff there is no navigation |
| Login.FirstFailureIsEarliest | react-frontend/src/pages/Login.js:52-76 | the check reported is the earliest check that fails, and no report means that no check fails |
| Login.MakeUserData | react-frontend/src/pages/Login.js:80-92 | the body carries the phone iff the role is Learner and the expertise otherwise, with the other fields copied |
| Login.HandleRegister | react-frontend/src/pages/Login.js:47-113 | a failing check shows its message and sends nothing; otherwise the body is sent; auto-login runs iff registration succeeds; navigation iff it works; once sent, the message shown is the thrown one (or the generic failure text), the automatic login's failure text, or none |
| Login.SentFormsAreValid | react-frontend/src/pages/Login.js:52-76 | only a valid form is sent: required fields present, password at least 8 long and confirmed, a pattern-valid address with one '@', a learner phone of at least 9 characters |
| Login.PhoneAndExpertiseByRole | react-frontend/src/pages/Login.js:52-73 | outside the Learner role the phone plays no part in validation, and outside the Instructor role the expertise plays none |
| Login.ShortPasswordBeforeBadEmail | react-frontend/src/pages/Login.js:58-66 | a short password is reported even when the address is also malformed |

## Left out

- Printing, logging, `alert` and `console` output are not modelled. Neither are the React rendering and effect scheduling; `Courses.SortIdempotent` covers the re-sort effect.
- The network, SQL, object storage (S3), the vector store and Redis connection handling are left out. Their outcomes are inputs of the members: bool and Option arguments, and scan or scroll pages given as sequences.
- LoadingContext.RunStaysConsistent, LoadingContext.LoadingProvider.StartLoading, LoadingContext.LoadingProvider.StopLoading: each call's two state setters are applied at once, in call order. React batches the setters of calls made in one event. Its `setLoadingCount` updater runs at render time, and the `setLoading(false)` it issues is queued from inside it. So calls batched together, such as a start, a stop and a start from idle, are not covered. Under that batching the flag can end false while the count is 1.
- ApiCache.Cache.GetCachedData: the database fetch and the JSON serialiser always return. A fetch or a `json.dumps` that raises inside the `try` is not modelled. The outer handler answers either by counting one more miss and fetching once more.
- CacheUtils.ClearCache: a `SCAN` or `DEL` that raises, which propagates to the caller after deleting the pages before it, is not modelled.
- UploadRegistry.Registry.InitUpload: a `generate_presigned_url` that raises is not modelled. The source then answers 500, registers no session and leaves the multipart upload open.
- ApiEndpoints.UpdateProfileBody: the request body is given as a map of strings. A body that is not JSON, where `request.json()` raises and the handler answers 401, is not modelled.
- JSON, zlib and base64 are modelled as codecs with a round-trip hypothesis. md5 is a function parameter. None of the three algorithms is modelled.
- Clocks are integer inputs: seconds in the backend, milliseconds in Home.js. The hourly sleep of `background_cleanup` and the upload retry delays (`setTimeout`) are not modelled. Neither is the one-second navigation delay after sign-in.
- Concurrency is not modelled. Handlers and async callbacks run one at a time, so a request racing another on `active_uploads` is not covered.
- Floating point is replaced by exact arithmetic everywhere. The source computes in IEEE doubles, and the two can disagree where a product rounds down:
  - UploadRegistry.Progress: `int((received / expected) * 100)` is computed exactly and truncated toward zero. In doubles, `int((29/100)*100)` is 28, while `Progress(29, 100)` is 29. `ProgressBounds` and the progress fields of the status, listing and part replies are stated for the exact value.
  - ApiCache.Percent: the hit ratio and the compression savings of `get_cache_metrics` are exact reals, not doubles. `PercentBounds` is stated for them.
  - VideoUploader.RoundRatio: `Math.round((totalUploaded / file.size) * 90)` is exact rational rounding, with halves rounding up.
  - ApiEndpoints.CompletionPercentage: the bucket thresholds of `submit_quiz_answers` are compared exactly.
  - ApiEndpoints.PassedRow: the `Score` column is the float `correct / total * 100` written by `submit_quiz_answers`. It is an integer here, so the per-day score sums of `GroupByDate` are exact integer sums.
  - Ratings and completion rates on the course pages are integers.
  - The rendered `f"{x:.2f}%"` strings are not modelled.
- Retrieval.CourseDocumentOf: the `AverageRating` metadata is kept as the column's text ("0.0" when absent). The `float(...)` conversion is not modelled, and neither is the error it raises on a value that is not a number.
- The dashboard's rounded average score per day is not modelled. `ApiEndpoints.GroupByDate` gives the count and the score sum from which the average is computed.
- `localeCompare` is modelled as code-unit order. `toLowerCase` is modelled on ASCII letters only. `\s`, `strip()` and `trim()` are modelled on six white-space characters only: blank, tab, line feed, carriage return, vertical tab and form feed (`Common.IsSpace`). Python's `re` `\s` and `str.strip()` also count the separators `\x1c`–`\x1f` and the Unicode spaces, and JavaScript counts the Unicode spaces. Text holding one of those is normalised, trimmed or matched differently in the source.
- UploadRegistry.Registry.SweepExpired, UploadRegistry.Registry.CleanupUploads: the ids cleaned are proved distinct and equal to the expired set. Their order, the insertion order of the `active_uploads` dict, is not modelled.
- Login.Fails: string lengths count Unicode scalar values. JavaScript's `.length` counts UTF-16 code units, so a password or phone number holding a character outside the Basic Multilingual Plane is longer in the browser than in the model. For example, one emoji counts 2 in the browser and 1 in the model.
- KvStore.GlobMatch: it models `*`, `?` and literal characters only. The Redis bracket classes `[...]` and the `\` escape are not modelled. Every pattern the modelled code passes is a wildcard-free prefix followed by `*` (services/api/upload_endpoints.py:288-289) or the default `*`.
- The standard upload's XHR progress events are not modelled, only its final outcome. The same goes for the compression step's canvas and encoder details: it either yields a file or fails.
- The uploader's AbortController is never passed to a request in the source, so the 'Upload cancelled' path cannot be reached. It is left out.
- On the instructor dashboard, enrolment counts may be missing. The comparison then treats the pair as equal, which is not a consistent order, so the resulting sort is engine-defined. Only the comparison is modelled (`Courses.InstructorComparisonAgrees`), not that sort.
- ApiEndpoints.CreateLectureBody: a failing instructor or ownership `SELECT` has no input of its own. It would end, like a failing lecture insert (`lectureInsertOk`), in the inner handler's 500 with nothing stored; `instructorFound` and `ownsCourse` are the results of queries that ran.
- ApiEndpoints.CreateLectureBody: a failing quiz insert, or a question lacking `options` or `correctAnswer`, is one `quizOk` input read only when the quiz has questions. Which quiz rows were already committed when a later insert fails is not modelled: the run reports the quiz as not stored. The `submit_quiz_answers` write of the lecture result and of the enrolment percentage is modelled only as the bucket value (`ApiEndpoints.CompletionPercentage`). Its swallowed errors are not modelled.
- The registry is process memory only; sessions do not survive a restart.
- A repeated report of one part number is appended again.
- Retrieval.SyncConverges, Retrieval.SyncIdempotent: both hold on a store keyed by entity id, which is what the sync's diff assumes. `add_documents` (services/api/chatbot/retrieval.py:189, 444) assigns its own point ids, while the removal step passes entity ids (449-452). The lemmas do not cover a store whose point ids differ from the entity ids.
- The other route handlers of the API and the database schema are not part of this model. Neither are the authentication context, token decoding and the frontend API client: a decoded token is an input.
- `get_memory`'s buffer contents are only the message list. The chat chain that fills buffers is not part of this model.

## Findings

| source | as written | input that shows it | evidently intended | confidence | as-written member | corrected member |
|---|---|---|---|---|---|---|
| services/api/chatbot/retrieval.py:62-71 | `hash_lectures` hashes the six course columns, which the lecture query never selects, so every lecture hashes to md5 of five bars, and `convert_to_documents_lectures` stores that hash (`Retrieval.LectureDocumentHashConstant`) | a lecture indexed with title "Intro" and then retitled "Intro (revised)": the sync plans neither an update nor an insert | hash the lecture's Title, Description and Content so that edits are re-indexed; `Retrieval.ConvertToDocumentsLecturesCorrected` stores that hash | not executed | Retrieval.LectureEditMissedAsWritten | Retrieval.LectureEditDetected |
| services/api/api_endpoints.py:1003-1010 | the `except Exception` around the handler body catches the `HTTPException(403, "Invalid user role")` and answers 401 | a valid token whose role is neither Learner nor Instructor, with the database reachable | answer 403, as the code raises, by re-raising HTTP errors the way `create_lecture`'s inner block does | not executed | ApiEndpoints.InvalidRoleAnswered401 | ApiEndpoints.UpdateUserProfile |
| services/api/api_endpoints.py:1842-1844 | the outer `except Exception` catches the 400, 403, 404 and 500 that the inner block re-raises and answers 401 | an instructor uploading a 101 MiB video to their own course: answered 401 while the lecture row stays committed | answer each error with its own status | not executed | ApiEndpoints.OversizeVideoAnswered401 | ApiEndpoints.CreateLecture |
