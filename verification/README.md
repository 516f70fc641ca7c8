# Saved videos and exam caches of a TOPIK learning site, in Dafny

This project models the logic at the core of a Korean-language (TOPIK) study site. It has a Next.js front end (`soometa-web`) and an Express/Mongoose back end (`SooMeta-Be`). The model covers four areas:

- **Caches.** The exam list and the document-link list are read from large JSON files into two one-hour, single-key, read-through caches. These de-duplicate concurrent loads ("single flight"). `SlotCache` models the shared slot. `ExamCache` and `DocumentCache` model the two by-id lookups.
- **Guest videos.** A guest keeps saved YouTube videos in browser storage, limited to two (`GuestVideos`).
- **Server videos.** A signed-in user's videos are `SavedVideo` documents. They are keyed uniquely by `(userId, videoId)` and written by the `POST /`, `PUT /:videoId/translation`, `DELETE` and `POST /sync` handlers (`VideoRecord`, `VideoRoutes`). The admin listings share one piece of pagination arithmetic (`Pagination`).
- **Pure UI logic:**
  - the player page's video-id extraction (`YoutubeIds`);
  - its `mm:ss` clock and subtitle highlighting, and the sidebar list operations (`PlayerPage`, `VideoCards`, `SavedVideosHook`);
  - the practice page's filters and exam list (`PracticeFilters`, `PracticePage`);
  - the instruction statistics chart (`InstructionStats`);
  - the progress page (`MyProgress`);
  - the admin saved-videos page (`AdminSavedVideos`).

Modelling conventions:

- **Asynchronous code.** An asynchronous function is cut into the events the single-threaded scheduler can interleave. For a cache these are a read, the completion of a load and a clear. A trace of events (`SlotCache.Run`) lets lemmas speak about concurrency.
- **Clocks and storage.** The clock is a `now` parameter in milliseconds. Browser storage is an explicit value (`GuestVideos.Storage`). The database is a map from the unique key to the document (`VideoRecord.Store`).
- **JavaScript values.** A property can be `undefined`, `null` or a value (`Common.Js`). `x || d` follows JavaScript truthiness: an empty string falls back, but an empty array does not (`Common.OrString`, `Common.OrArray`).
- **Arithmetic.** Integers are unbounded. `Math.floor(a / b)` with `b > 0` is Dafny's `/`. JavaScript's truncating `%` is written out (`PlayerPage.JsRem`). `Math.round(100 * a / b)` is computed exactly, halves rounding up (`InstructionStats.RoundPercent`).

Where the behaviour of the code differs from what its comments or design suggest, the model follows the code:

- **A failed load reaches the callers who joined it.** A caller that joined an in-flight load returns the load promise itself, which escapes the `try`/`catch`. When the file read or the parse throws, the caller that started the load gets `[]`, but every joiner sees a rejection (`SlotCache.JoinerView`, `SlotCache.JoinersAgreeUnlessFailed`). `getExamData` catches that rejection and answers `null`. `getDocumentData` has no `catch`, so the rejection reaches its caller.
- **Clearing does not cancel a load.** `clear…Cache()` resets all four variables but cannot cancel a load already in flight. That load still writes the cache when it completes (`SlotCache.ClearDoesNotCancel`). A read after the clear starts a second load alongside it (`SlotCache.ClearAllowsSecondFlight`). Without a clear, at most one load is ever outstanding (`SlotCache.RunWithoutClearIsSingleFlight`).
- **An empty `translatedTo` behaves differently on create and on update.** On `POST /` the create path stores an empty `translatedTo` as `null`. The update path copies any value that is not `undefined`, so the same request sent again stores `""`. The enumeration rejects `""`, so the second request fails with 500 (`VideoRoutes.EmptyTranslatedToFailsOnResend`).
- **A `null` element ends a sync with 500.** On `POST /sync`, a `null` element of `videos` makes the per-item error handler itself throw when it reads `video.videoId`. The whole request then ends with 500, and the writes of the items before it remain (`VideoRoutes.SyncNullKeepsEarlierWrites`).

## Model

| member | source | states |
|---|---|---|
| SlotCache.Get | soometa-web/lib/examDataCache.ts:21-37 | A fresh slot (data present, including an empty array, and younger than one hour) answers the cached array and changes nothing. A miss during a load joins that load without starting one. A load starts exactly on a miss with no load recorded, and starting one only sets the two loading markers. |
| SlotCache.Settle | soometa-web/lib/examDataCache.ts:37-63 | A successful load stores the array, stamped with its completion time, and answers it. A non-array payload or a thrown error answers `[]` and keeps the previous snapshot. Every outcome clears both loading markers. |
| SlotCache.JoinerView | soometa-web/lib/examDataCache.ts:29-32 | A joining caller sees a rejection exactly when the load threw. Otherwise it sees the loaded array, or `[]` for a non-array payload. |
| SlotCache.JoinersAgreeUnlessFailed | soometa-web/lib/examDataCache.ts:29-63 | The joiners and the caller that started the load receive the same array if and only if the load did not throw. |
| SlotCache.Clear | soometa-web/lib/examDataCache.ts:84-89 | After a clear the slot is empty, with timestamp 0 and no load recorded, so it is not fresh at any time. |
| SlotCache.EventsKeepConsistent | soometa-web/lib/examDataCache.ts:30-60 | Each of read, settle and clear keeps `isLoading` and the promise reference in step. |
| SlotCache.FailureIsRetried | soometa-web/lib/examDataCache.ts:58-63 | After a failed load, the next read that misses starts a new load. |
| SlotCache.ClearForcesReload | soometa-web/lib/examDataCache.ts:84-89 | The first read after a clear starts a load, whatever the cache held before. |
| SlotCache.GetStats | soometa-web/lib/examDataCache.ts:106-118 | The status is valid, expired or empty, matching freshness and presence. The count is the array length, or 0 when empty. The age and the remaining time are the floored whole seconds of the elapsed and the remaining milliseconds. The remaining time is 0 unless the slot is valid. |
| SlotCache.StatsAgeBudget | soometa-web/lib/examDataCache.ts:106-118 | For a valid slot, age plus remaining seconds is 3599 or 3600. When the clock is not behind the load time, neither exceeds one hour. |
| SlotCache.Step | soometa-web/lib/examDataCache.ts:21-89 | A completion is possible only while a load is outstanding. A read that starts a load adds exactly one outstanding load. |
| SlotCache.RunWithoutClearIsSingleFlight | soometa-web/lib/examDataCache.ts:13-15 | Along any trace without a clear, at most one load is outstanding, and the loading flag is set exactly while one is. |
| SlotCache.InitialRunIsSingleFlight | soometa-web/lib/examDataCache.ts:9-15 | From module load, every trace without a clear keeps a single flight. |
| SlotCache.RunKeepsConsistent | soometa-web/lib/examDataCache.ts:30-89 | Along any trace, clears included, the two loading markers stay in step. |
| SlotCache.ClearDoesNotCancel | soometa-web/lib/examDataCache.ts:46-48 | A load outstanding when the cache is cleared still stores its array when it completes. |
| SlotCache.ClearAllowsSecondFlight | soometa-web/lib/examDataCache.ts:84-89 | A clear during a load followed by a read leaves two loads outstanding. |
| ExamCache.GetExamData | soometa-web/lib/examDataCache.ts:70-79 | Returns the first exam whose id, as text, equals the requested id. Returns `null` when there is none or when the list could not be obtained. |
| ExamCache.NumericIdFoundByText | soometa-web/lib/examDataCache.ts:73 | An exam with a numeric id, at any position, is found by the decimal text of that number. The answer has that id text and is that exam or an earlier one with the same text. |
| DocumentCache.GetDocumentData | soometa-web/lib/documentDataCache.ts:81-84 | Returns the first document whose id equals the requested one. Returns not-found exactly when no document has that id. Throws exactly when the joined load rejected. |
| DocumentCache.DocumentStatsWithinHour | soometa-web/lib/documentDataCache.ts:111-123 | For a valid document cache, age plus remaining seconds never exceeds 3600. |
| VideoRecord.NewWithDefaults | SooMeta-Be/models/SavedVideo.js:10-56 | A document built from the two ids alone is valid and takes every schema default: empty title and thumbnail, `ko`, no subtitles, `null` translation, both timestamps at creation. |
| VideoRecord.Save | SooMeta-Be/models/SavedVideo.js:29-65 | A save succeeds exactly when the validators pass and it does not insert a second document under a taken `(userId, videoId)`. A validator failure is reported before a duplicate key. A successful save writes the document under its key with `updatedAt` refreshed. |
| VideoRecord.SaveKeepsWellKeyed | SooMeta-Be/models/SavedVideo.js:58-59 | Saving keeps every document under its own key, so a key never holds two documents. |
| GuestVideos.ReadLocal | soometa-web/lib/savedVideos.ts:21-31 | A missing or unparsable storage entry reads as an empty list. A stored list reads as itself. |
| GuestVideos.IsVideoSavedLocally | soometa-web/lib/savedVideos.ts:45-48 | True if and only if some stored video has the id. |
| GuestVideos.Overlay | soometa-web/lib/savedVideos.ts:59-63 | In the spread merge, each of the nine properties takes the incoming value when present and keeps the stored value when absent. |
| GuestVideos.OverlayAssociative | soometa-web/lib/savedVideos.ts:59-63 | Spreading twice in turn equals spreading once with the second spread over the first, and spreading a video over itself changes nothing. |
| GuestVideos.AddLocal | soometa-web/lib/savedVideos.ts:51-85 | The limit refuses exactly a new id when two videos are stored, and a refusal writes nothing. An existing id is updated in place. A new id is appended with both timestamps set to now. |
| GuestVideos.AddExistingUpdatesInPlace | soometa-web/lib/savedVideos.ts:55-66 | Re-adding a stored id succeeds even at the limit. It replaces only that entry, overlaid and re-stamped, and leaves every other entry unchanged. |
| GuestVideos.AddKeepsDistinctAndBounded | soometa-web/lib/savedVideos.ts:51-85 | Adding keeps ids distinct and never grows the list beyond two, or beyond its current length if that is larger. |
| GuestVideos.RemoveLocal | soometa-web/lib/savedVideos.ts:88-92 | Afterwards no entry has the id. Every other entry is kept, and nothing new appears. |
| GuestVideos.RemoveKeepsOrder | soometa-web/lib/savedVideos.ts:88-92 | The surviving entries keep their relative order. |
| GuestVideos.UpdateTranslationLocal | soometa-web/lib/savedVideos.ts:95-105 | An unknown id leaves storage untouched. Otherwise the first entry with the id gets the translation, the translated subtitles and a new `updatedAt`, and nothing else changes. |
| GuestVideos.ClearLocal | soometa-web/lib/savedVideos.ts:108-111 | After the entry is removed the list reads empty, so no id is saved locally. |
| VideoRoutes.Create | SooMeta-Be/routes/savedVideoRoutes.js:59-70 | The created document has the requested key and applies `x \|\| default` field by field. An empty string falls back, an empty array does not, and an empty or missing `translatedTo` becomes `null`. |
| VideoRoutes.PostMerge | SooMeta-Be/routes/savedVideoRoutes.js:43-50 | An update changes a string field only to a non-empty value and an array field whenever one is supplied. It sets `translatedTo` whenever the field is not `undefined`, so `null` clears it. The key and `createdAt` are kept. |
| VideoRoutes.PostMergeIdempotent | SooMeta-Be/routes/savedVideoRoutes.js:43-52 | Sending the same update body twice has the effect of sending it once. |
| VideoRoutes.WriteChanged | SooMeta-Be/routes/savedVideoRoutes.js:44-52 | Saving a loaded document writes only the paths the handler changed. With no write in between it stores the edited document. An edit that changes nothing leaves the stored document as it is, and an unchanged translation keeps whatever translation is stored now. |
| VideoRoutes.PostWith | SooMeta-Be/routes/savedVideoRoutes.js:31-90 | Given what the lookup saw and the store at save time, the status is 200, 201, 400, 409 or 500. It is 400 exactly for a missing `videoId`. It is 409 exactly when the lookup saw nothing but a valid new document meets a taken key, and 201 exactly when the key is still free; 201 stores the created document, re-stamped. It is 200 exactly when the lookup found the document, it is still there and the merged document is valid; 200 writes the changed paths over the document now stored, re-stamped. Error replies write nothing. |
| VideoRoutes.PostKeepsConcurrentTranslation | SooMeta-Be/routes/savedVideoRoutes.js:44-52 | A POST whose body carries no translation does not undo a translation written after its lookup. |
| VideoRoutes.Find | SooMeta-Be/routes/savedVideoRoutes.js:41 | The lookup finds a document exactly when its key is stored, and returns that document. |
| VideoRoutes.Post | SooMeta-Be/routes/savedVideoRoutes.js:31-90 | With nothing interleaved: a missing `videoId` gives 400. A new key is created with defaults (201). An existing key is merged and re-stamped (200). A validation failure gives 500 and writes nothing. No other key changes. |
| VideoRoutes.PostCreatesDefaults | SooMeta-Be/routes/savedVideoRoutes.js:59-78 | A body with only a `videoId` creates exactly the schema-default document and answers 201. |
| VideoRoutes.ConcurrentCreateConflicts | SooMeta-Be/routes/savedVideoRoutes.js:41-86 | Two requests that both found no document both take the create path. The second save hits the unique index and answers 409 without writing. |
| VideoRoutes.EmptyTranslatedToFailsOnResend | SooMeta-Be/routes/savedVideoRoutes.js:49-68 | An empty `translatedTo` is stored as `null` on creation. Sending the same body again fails with 500 and changes nothing. |
| VideoRoutes.PutTranslation | SooMeta-Be/routes/savedVideoRoutes.js:93-123 | An empty or missing `translatedTo` gives 400. An unknown video gives 404. On success only the translation, its subtitles (or `[]`) and `updatedAt` change. Every non-200 reply writes nothing. |
| VideoRoutes.PutTranslationSucceeds | SooMeta-Be/routes/savedVideoRoutes.js:99-117 | On a valid stored document, a translation update succeeds if and only if the language is one of the eight codes and every subtitle is complete. |
| VideoRoutes.Delete | SooMeta-Be/routes/savedVideoRoutes.js:126-145 | The reply is 404 exactly when the key is not stored, and then nothing changes. Otherwise the reply is 200 and exactly that key is removed. |
| VideoRoutes.SyncMerge | SooMeta-Be/routes/savedVideoRoutes.js:189-197 | A sync update changes string fields and subtitles as POST does. The translation is replaced only by a non-empty `translatedTo`, and then together with its subtitles or `[]`. |
| VideoRoutes.SyncOne | SooMeta-Be/routes/savedVideoRoutes.js:162-203 | Each object element yields exactly one success or one failure entry. A missing id is reported as `unknown`, and a failed save under the item's own id. An item with an id succeeds exactly when the document it would write is valid. The action is `created` exactly for a key not yet stored. A created item stores the created document and an updated one the sync merge, both re-stamped. Failures write nothing, and no other key changes. |
| VideoRoutes.SyncAgreesWithPost | SooMeta-Be/routes/savedVideoRoutes.js:59-70 | For a new key, a sync item writes the same document as `POST /`. For a stored key and a non-empty `translatedTo`, the sync update equals the POST update. |
| VideoRoutes.SyncItems | SooMeta-Be/routes/savedVideoRoutes.js:162-204 | The reply is 200 if and only if no element is `null`, and then there is one entry per element. Otherwise it is 500 with no entries. Stored keys are never lost, and every reported success is stored. |
| VideoRoutes.SyncItemsCons | SooMeta-Be/routes/savedVideoRoutes.js:162-210 | When the rest of the array succeeds, the first item's own entry comes first, followed by the entries of the rest, which run against the store the first item left. When the rest ends in 500, so does the whole. |
| VideoRoutes.SyncNullKeepsEarlierWrites | SooMeta-Be/routes/savedVideoRoutes.js:162-213 | For `pre`, `null`, `post` with no `null` in `pre`, the reply is 500 with no entries, and the store holds exactly what the items of `pre` wrote. |
| VideoRoutes.SyncReportsEachItem | SooMeta-Be/routes/savedVideoRoutes.js:162-210 | Without a `null` element the reply is 200, and every item is reported exactly once, in input order, by the entry of its own step against the store the items before it left. |
| VideoRoutes.Sync | SooMeta-Be/routes/savedVideoRoutes.js:148-215 | A non-array `videos` gives 400 and writes nothing. Otherwise the reply is 200 if and only if no element is `null`, and then it accounts for every element. |
| Pagination.Skip | SooMeta-Be/routes/savedVideoRoutes.js:308-309 | For any page number the skip, together with one page, makes `page * limit` documents. For a positive limit it is negative exactly for a page below 1. |
| Pagination.TotalPagesIsCeiling | SooMeta-Be/routes/savedVideoRoutes.js:375 | The page count is the least `n` with `n * limit >= total`, that is, `Math.ceil(total / limit)`. |
| Pagination.TotalPagesZeroIffEmpty | SooMeta-Be/routes/savedVideoRoutes.js:421 | The page count is zero if and only if there are no documents. |
| Pagination.PageSlice | SooMeta-Be/routes/savedVideoRoutes.js:434-442 | A page holds up to `limit` documents, taken in order from the skip position. |
| Pagination.QueryPage | SooMeta-Be/routes/savedVideoRoutes.js:434-442 | For any page number read from the query, a page below 1 gives a negative skip, which the database refuses (the handler answers 500). Any other page holds up to `limit` documents, in order from the skip, and is non-empty exactly when the skip is inside the result. |
| Pagination.PagesCoverAll | SooMeta-Be/routes/savedVideoRoutes.js:388-421 | Pages 1 to the page count, laid end to end, are exactly the sorted result: no document is skipped or repeated. |
| Pagination.PagesWithinCountAreNonEmpty | SooMeta-Be/routes/savedVideoRoutes.js:463-468 | A page is non-empty if and only if its number is at most the page count. |
| YoutubeIds.RunFrom | soometa-web/app/youtube-player/page.tsx:116 | The captured run is the longest stretch starting there that is free of `&`, newline, `?` and `#`. |
| YoutubeIds.CaptureAt | soometa-web/app/youtube-player/page.tsx:116 | A capture exists at a position exactly when one of the three link forms is followed by at least one id character. A capture is never empty and never contains a stop character. |
| YoutubeIds.FindFrom | soometa-web/app/youtube-player/page.tsx:116-122 | The search returns the capture at the leftmost matching position, and nothing exactly when no position matches. |
| YoutubeIds.ExtractVideoId | soometa-web/app/youtube-player/page.tsx:114-125 | The result is `null` exactly when no link form matches and the input is not an 11-character bare id. A link anywhere takes priority over the bare form. |
| YoutubeIds.BareIdRoundTrip | soometa-web/app/youtube-player/page.tsx:117 | An 11-character id over `[a-zA-Z0-9_-]` is returned as it is. |
| YoutubeIds.ShortLinkRoundTrip | soometa-web/app/youtube-player/page.tsx:116 | `youtu.be/<id>` gives back `<id>`. |
| YoutubeIds.WatchLinkRoundTrip | soometa-web/app/youtube-player/page.tsx:116 | `https://www.youtube.com/watch?v=<id>&…` gives back `<id>`, stopping at the `&`. |
| YoutubeIds.BareIdHasNoLink | soometa-web/app/youtube-player/page.tsx:116-117 | No link form can match inside a bare id, so the two patterns never compete. |
| Decimal.NatToStringRoundTrip | soometa-web/app/youtube-player/page.tsx:68 | The decimal text of a number reads back as that number. |
| Decimal.PadStart2 | soometa-web/app/youtube-player/page.tsx:68 | Padding fills with leading zeros up to two characters and keeps longer texts unchanged. |
| PlayerPage.JsRem | soometa-web/app/youtube-player/page.tsx:67 | The remainder completes truncating division and takes the sign of the dividend. |
| PlayerPage.FormatTimeRoundTrip | soometa-web/app/youtube-player/page.tsx:65-69 | For a non-negative time the clock reads back as the same number of seconds. Minutes are not capped, and the seconds field is 00 to 59. |
| PlayerPage.CurrentSubtitleIndex | soometa-web/app/youtube-player/page.tsx:388-408 | Returns the showing line with the latest start, the earliest such line on a tie, or -1. When no start is negative, -1 means exactly that no line is showing. |
| PlayerPage.SaveCurrentVideo | soometa-web/app/youtube-player/page.tsx:127-145 | Nothing changes when the id is empty or already listed. Otherwise one card is put in front, with the id, the current URL, the title passed, else the typed title, else `Video <id>`, the medium thumbnail, the language and the time. |
| PlayerPage.SaveKeepsDistinct | soometa-web/app/youtube-player/page.tsx:141-144 | Saving never lists the same id twice. |
| PlayerPage.DeleteVideo | soometa-web/app/youtube-player/page.tsx:160-166 | Removes every card with the id and keeps all others. It clears the current video and its subtitles exactly when that video is the one deleted. Nothing else on the page changes. |
| PlayerPage.DeleteKeepsOrder | soometa-web/app/youtube-player/page.tsx:161 | The remaining cards keep their order. |
| PlayerPage.LoadVideoStart | soometa-web/app/youtube-player/page.tsx:215-236 | With no id, only the error changes. Otherwise the form closes and clears, and the video becomes current and loading. A typed URL not yet listed gets one card in front; otherwise the list is unchanged. The subtitles are untouched. |
| PlayerPage.LoadVideoFinish | soometa-web/app/youtube-player/page.tsx:243-315 | Loading ends. On success the fetched lines are shown, or, without a subtitle array, none and the no-subtitles message. The matching cards are then renamed in any case: the typed title, else the player's non-empty title, else `Video <id>`. On failure the error is shown and the card is dropped unless the video came from the list. |
| PlayerPage.LoadNewUrl | soometa-web/app/youtube-player/page.tsx:215-315 | Loading a typed URL that is not listed yet puts its card first, with the typed title when there is one. When the load fails the list is as it was before. |
| VideoCards.RenameCards | soometa-web/app/youtube-player/page.tsx:147-151 | Only the title of the matching cards changes. With no match the list is unchanged. |
| VideoCards.RenameKeepsIds | soometa-web/app/youtube-player/useSavedVideos.ts:142-149 | Renaming keeps the id list, so distinct ids stay distinct. |
| VideoCards.RenameTwice | soometa-web/app/youtube-player/useSavedVideos.ts:142-145 | Renaming twice is renaming once with the last title. |
| SavedVideosHook.ToCard | soometa-web/app/youtube-player/useSavedVideos.ts:64-71 | A stored video becomes a card with its id and a watch URL. A non-empty title, thumbnail or language is kept; otherwise it falls back to `Untitled`, the small thumbnail or `ko`. A missing creation time means now. |
| SavedVideosHook.Display | soometa-web/app/youtube-player/useSavedVideos.ts:52-72 | One card per stored video, in stored order. |
| SavedVideosHook.DisplayKeepsOrderAndIds | soometa-web/app/youtube-player/useSavedVideos.ts:63-72 | The cards carry the stored ids in order, distinct stays distinct, and an id is listed if and only if it is stored. |
| SavedVideosHook.AddRecord | soometa-web/app/youtube-player/useSavedVideos.ts:82-95 | The record being added has the given title, the small thumbnail, the language passed or `ko`, and the subtitles passed or `[]`. It has no translation fields and no timestamps. |
| SavedVideosHook.AddVideoGuest | soometa-web/app/youtube-player/useSavedVideos.ts:102-115 | At the limit, a new id is refused with the sign-in message and nothing changes. Otherwise the reply is success and the reloaded cards list the id. |
| SavedVideosHook.GuestAddShowsNewCard | soometa-web/app/youtube-player/useSavedVideos.ts:82-115 | A guest's new video under the limit shows as the last card, with the typed title or `Untitled`, the small thumbnail, the language passed or `ko`, and the time it was added. |
| SavedVideosHook.ReAddKeepsTranslation | soometa-web/app/youtube-player/useSavedVideos.ts:89-104 | Re-adding a stored video keeps its translation, because the added record has no translation fields. |
| SavedVideosHook.DeleteVideoGuest | soometa-web/app/youtube-player/useSavedVideos.ts:125-135 | After deletion the reloaded cards do not list the id and show every other stored video. |
| PracticeFilters.ExamOptions | soometa-web/app/practice/PracticeFilters.tsx:44-50 | `all` comes first, then one option per exam in order. A string id is the option's value itself; a numeric id is valued by its decimal text. |
| PracticeFilters.LevelChange | soometa-web/app/practice/PracticeFilters.tsx:53-60 | A cleared choice changes nothing. A level resets the exam to `all` and clears the instruction types. TOPIK Ⅰ forces the listening skill, and any other level keeps the skill. |
| PracticeFilters.SkillChange | soometa-web/app/practice/PracticeFilters.tsx:62-68 | A cleared choice changes nothing. A skill resets the exam and the instruction types. |
| PracticeFilters.ExamChange | soometa-web/app/practice/PracticeFilters.tsx:70-74 | A cleared choice changes nothing. Otherwise only the exam changes. |
| PracticeFilters.InstructionsChange | soometa-web/app/practice/PracticeFilters.tsx:76-79 | The chosen values in order, or none for a cleared select. Nothing else changes. |
| PracticeFilters.ShownInstructions | soometa-web/app/practice/PracticeFilters.tsx:149 | The displayed options are exactly those whose value is chosen. |
| PracticeFilters.ChosenOptionsAreShown | soometa-web/app/practice/PracticeFilters.tsx:76-79 | After a choice, the display lists, in option order, every offered option that was chosen. |
| PracticeFilters.LevelOrSkillResetsExam | soometa-web/app/practice/PracticeFilters.tsx:53-68 | A level choice followed by a skill choice leaves exactly that level and skill, the exam at `all`, and no instruction type. |
| PracticePage.FilteredExams | soometa-web/app/practice/page.tsx:7-30 | The result keeps exactly the exams with a string id outside series 35, 36 and 37. A failed load gives an empty list. |
| PracticePage.FilteredKeepsOrder | soometa-web/app/practice/page.tsx:20-23 | The kept exams are in cache order. |
| PracticePage.ExcludedSeriesNeverShown | soometa-web/app/practice/page.tsx:8-23 | Exams of series 35 to 37, and exams with numeric ids, never reach the page. |
| PracticePage.Render | soometa-web/app/practice/page.tsx:34-58 | The error view is shown exactly when the filtered list is empty. Otherwise the client view receives that list. |
| PracticePage.OfferedOptionsCarryIds | soometa-web/app/practice/page.tsx:1-60 | Every exam the page hands to the filters has a string id, so each exam option is valued by that id itself, as the filter bar does. |
| InstructionStats.RoundPercentIsNearest | soometa-web/app/components/InstructionStatsChart.tsx:112 | The rounded percent is the integer nearest to `100 * correct / total`, halves rounding up. |
| InstructionStats.RoundPercentBounded | soometa-web/app/components/InstructionStatsChart.tsx:45 | A share of a whole rounds to at most 100. |
| InstructionStats.RowPercent | soometa-web/app/components/InstructionStatsChart.tsx:112 | 0 for an empty row. Otherwise the nearest integer percent, at most 100 when the correct count does not exceed the total. |
| InstructionStats.ToneOf | soometa-web/app/components/InstructionStatsChart.tsx:113-116 | Green from 70, yellow from 40 up to 69, red below 40. |
| InstructionStats.RateCell | soometa-web/app/components/InstructionStatsChart.tsx:121 | The cell shows `-` exactly for an empty row. Otherwise it shows the percent and `%`. |
| InstructionStats.PieData | soometa-web/app/components/InstructionStatsChart.tsx:35-39 | One slice per instruction, in order, valued by its total and coloured by position modulo thirty. |
| InstructionStats.TooltipShare | soometa-web/app/components/InstructionStatsChart.tsx:44-45 | A slice's share of all slices is the nearest integer percent, never above 100, and 0 when every total is 0. |
| MyProgress.SortByDate | soometa-web/app/my-progress/page.tsx:165 | The copy is sorted by date and is a permutation of the sessions. |
| MyProgress.ChartData | soometa-web/app/my-progress/page.tsx:161-171 | No sessions give no points. Otherwise the points are in date order and are exactly the sessions' points, reordered: one point per session. |
| MyProgress.SortedPoints | soometa-web/app/my-progress/page.tsx:163-166 | Sorting the sessions by date reorders their points without adding or dropping one. |
| MyProgress.TooltipName | soometa-web/app/my-progress/page.tsx:179 | A name longer than 35 characters becomes its first 32 characters and `...`. Shorter names are unchanged. |
| MyProgress.RecentHistory | soometa-web/app/my-progress/page.tsx:324 | The ten last-listed sessions, newest-listed first. |
| MyProgress.HistoryShowsAllOrLinks | soometa-web/app/my-progress/page.tsx:324-334 | Every session is in the table exactly when the "view all" link is absent. The table holds only listed sessions. |
| MyProgress.ChartAreaOf | soometa-web/app/my-progress/page.tsx:265-304 | The chart is drawn exactly for more than one session. With fewer the page asks for two sessions, and without a list it shows the generic message. |
| AdminSavedVideos.Step | soometa-web/app/admin/saved-videos/page.tsx:99-102 | Typing changes only the search box. Searching applies the typed text and returns to page 1. Enabled previous/next clicks move one page, clamped. Clicks on hidden or disabled buttons do nothing. A response sets the page count and changes nothing else, and only a response changes it. |
| AdminSavedVideos.PageAtLeastOne | soometa-web/app/admin/saved-videos/page.tsx:262 | The page never drops below 1. |
| AdminSavedVideos.ClicksStayInRange | soometa-web/app/admin/saved-videos/page.tsx:259-277 | While the page count is fixed, clicks keep the page between 1 and the count, and each enabled click moves exactly one page. |
| AdminSavedVideos.NextClampsStalePage | soometa-web/app/admin/saved-videos/page.tsx:272-273 | When the page count shrinks below the current page, "Next" jumps back to the last page. |
| AdminSavedVideos.NoPagerWithoutPages | soometa-web/app/admin/saved-videos/page.tsx:39-42 | From the initial state, until a response arrives, the page stays at 1 and the pager is hidden. |
| AdminSavedVideos.TopVideosShown | soometa-web/app/admin/saved-videos/page.tsx:144 | At most six top videos, in server order. |
| AdminSavedVideos.MostActive | soometa-web/app/admin/saved-videos/page.tsx:130 | The first user's count, or 0 when there are no users. |

## Left out

- File reading and `JSON.parse` in the caches are reduced to their outcome (`SlotCache.LoadOutcome`). Logging is left out.
- SlotCache.Settle: the cache write (inside the load promise) and the flag reset (after `await`) are one event here. Between them the slot already holds fresh data, so any read in that window is a hit, the same answer the model gives.
- SlotCache.GetStats: reads the clock once. The source reads it up to three times within one synchronous call.
- `preloadExamCache` and `preloadDocumentCache` only call the loader and ignore the result. They are not modelled separately.
- ExamCache.GetExamData: `null` elements of the exam array are left out. The source would throw on `e.id` and answer `null` through its `catch`.
- The HTTP layer and authentication are left out: Express routing, the auth middlewares and the JSON bodies of the replies. A reply is its status code and the store.
- The admin `GET` listings' MongoDB queries and aggregation pipelines (search, grouping, `$lookup`, the overview statistics) are left out. Only their pagination arithmetic is modelled, as `Pagination`.
- Pagination.TotalPages: requires `limit >= 1`, as do `Pagination.PageSlice` and `Pagination.QueryPage`. With a `limit` that `parseInt` reads as `NaN`, 0 or a negative number, the source divides by zero, produces `NaN`, or passes a non-positive limit to MongoDB, and the model does not cover that.
- `GET /` (list by `updatedAt`) is a plain query and is left out.
- Mongoose's ObjectId casting of `userId` is left out. User ids are strings.
- The signed-in paths of the saved-videos hook and the axios client functions only call the server. The server side is `VideoRoutes`.
- `setLocalSavedVideos` swallows a storage quota error. The model treats every write as successful.
- PlayerPage.FormatTime: takes whole seconds. For a non-negative fractional time, flooring the seconds first gives the same text, but negative and fractional inputs together are not covered.
- PlayerPage.CurrentSubtitleIndex: subtitle times are integers, not floating-point numbers.
- PlayerPage.LoadVideoFinish: the fetched lines arrive already converted from milliseconds to seconds. The translated lines are not part of the page state, so their reset to `[]` is not modelled.
- VideoRoutes.PostWith: Mongoose's version check (`__v`) is not modelled. When a stale POST writes an array after a concurrent write that changed an array, the source fails with a version error (500), while the model writes the changed paths.
- MyProgress.TooltipName: lengths count Unicode characters. JavaScript's `length` and `substring` count UTF-16 code units, so a name with characters outside the Basic Multilingual Plane is cut at a different place.
- InstructionStats.RoundPercent: computes exactly. Floating-point error at a .5 boundary is not modelled.
- `toFixed`, locale date formatting (`formatDateForChart`) and `toLocaleString` are left out. Dates are milliseconds.
- SavedVideosHook.ToCard: takes `createdAt` as already converted to milliseconds. Parsing the ISO text is left out.
- The YouTube player API, subtitle fetching and translation (`translateSubtitlesAsync`), timers and the five-second title wait are inputs (`PlayerPage.LoadOutcome`).
- React rendering and effects, other than the state transitions listed above, are left out.
- The subtitle and translation proxy routes, the warm-up route and exam preloader, the socket client, the layout and loading components and the `toFixed` average on the admin overview carry no logic beyond I/O or floating-point formatting and are not part of this model.
