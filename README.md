# SHUATS quiz app — a verified model of its core logic

This project models, in Dafny, the logic at the heart of the SHUATS quiz
application: a Next.js site where students register, upload their documents
for verification, take a timed multiple-choice quiz and see their results
and the leaderboard, administered by staff and a super-admin, together with
the two Python scripts that load-test its quiz submission. Every database,
object-storage, JWT, HTTP, clock and random source the code reaches is a
parameter of the model (a reply record, a map of rows, a sequence of draws),
so each operation is a function of its inputs, and the mutable screens and
scripts are classes whose methods are proved against those functions.

One module per source file:

- `QuizActions` (`actions/quiz.ts`): adding and updating a question with its
  correct answer, the Fisher–Yates shuffle of all questions (in place on an
  array), scoring a user's submissions and building the ranked leaderboard.
- `QuestionActions` (`actions/question.ts`): the document-store variant of
  adding and updating questions and the id fallback for stored options.
- `QuestionParser` (`lib/utils/question-parser.ts`): the markdown importer,
  its regular expressions modelled as leftmost-match functions.
- `QuizView` (`quiz-question-view.tsx`, `quiz-interface.tsx`): the quiz
  screen's per-question statuses, navigation, save, clear, mark for review,
  palette jump and the unanswered count, with React's snapshot semantics.
- `Middleware` and `Dal` (`middleware.ts`, `lib/dal.ts`): the route guard
  and the session, role and per-user data checks.
- `Upload`, `S3`, `CareerGuidance` (`actions/upload.ts`, `lib/s3.ts`,
  `actions/career-guidance.ts`): the upload action, storage keys and URLs,
  and the career-guidance text assembly.
- `Carousel`, `QuizControl`, `UserSubmissions`, `DocumentVerification`,
  `FileUpload`, `DocumentUploadPage`: the stateful admin and user screens.
- `DirectLoadTest` / `DirectLoadStatistics`, `HttpLoadTest`, `LoadAnalysis`,
  `PyRandom` (`load-testing-py/`): the phased load tests, their sampling
  and the per-level statistics.
- `Text`, `Sorting`, `Wrappers`: the string, sorting and Option/Result
  helpers the modules share (JavaScript's `trim`, `toLowerCase`,
  `includes`, `split`, `join`, and a stable sort).

## Model

| member | source | states |
|---|---|---|
| Carousel.ImagesOf | components/image-carousel.tsx:35-38 | a category missing from the catalogue contributes no images; a present one contributes exactly its own list |
| Carousel.FlatImagesConcat | components/image-carousel.tsx:33-35 | the images of a list of categories follow the list order: those of `a + b` are those of `a` followed by those of `b` |
| Carousel.OneCategoryAsList | components/image-carousel.tsx:32-39 | a one-element list shows the same images as that single category, and an unknown category in a list adds nothing |
| Carousel.Previous | components/image-carousel.tsx:47-49 | inside a list of `length` images the previous index stays inside it and is `(i - 1) mod length`, so 0 goes to the last image |
| Carousel.Next | components/image-carousel.tsx:51-53 | inside a list of `length` images the next index stays inside it and is `(i + 1) mod length`, so the last image goes to 0 |
| Carousel.MovesWrapAround | components/image-carousel.tsx:47-53 | inside a non-empty list, next and previous stay inside it; next from the last index gives 0 and previous from 0 gives the last, i.e. (i ± 1) mod length |
| Carousel.MovesAreInverse | components/image-carousel.tsx:47-53 | next undoes previous and previous undoes next |
| Carousel.NextTimes | components/image-carousel.tsx:51-53 | `k` presses of next (or auto-slide ticks, lines 62-68) from an index inside the list stay inside it |
| Carousel.NextSteps | components/image-carousel.tsx:51-53 | `k` presses of next (k up to the length) land at `i + k`, wrapped at most once |
| Carousel.FullCycle | components/image-carousel.tsx:51-53 | pressing next (or letting the auto-slide tick) `length` times returns to the starting image |
| Carousel.NextWithoutImagesDrifts | components/image-carousel.tsx:51-53 | with no images the next move never wraps: the index only grows (nothing is shown then, lines 71-79) |
| Carousel.ImageCarousel.constructor | components/image-carousel.tsx:41-44 | the images are `getImages()` of the category prop, the index 0, the viewer closed on index 0 |
| Carousel.ImageCarousel.GoToPrevious | components/image-carousel.tsx:47-49 | the index becomes its wrap-around predecessor and stays valid; the viewer is untouched |
| Carousel.ImageCarousel.GoToNext | components/image-carousel.tsx:51-53 | the next button, and each auto-slide tick (lines 62-68): the index becomes its wrap-around successor and stays valid |
| Carousel.ImageCarousel.GoTo | components/image-carousel.tsx:127-130 | an indicator dot sets the index to its own position |
| Carousel.ImageCarousel.OpenViewer | components/image-carousel.tsx:55-59 | clicking image `index` opens the viewer on that image; the carousel index is kept |
| Carousel.ImageCarousel.CloseViewer | components/image-carousel.tsx:150-154 | the close button closes the viewer and changes no index |
| Carousel.ImageCarousel.ViewerPrevious | components/image-carousel.tsx:174-189 | the viewer's left arrow, shown only with more than one image, moves the viewer index back with wrap-around |
| Carousel.ImageCarousel.ViewerNext | components/image-carousel.tsx:190-203 | the viewer's right arrow, shown only with more than one image, moves the viewer index forward with wrap-around |
| QuizControl.Apply | app/admin/dashboard/_components/quiz-control.tsx:54-138 | an action rewrites one quiz: its id and title never change, only setting the time limit changes the limit, and setting it changes nothing else |
| QuizControl.Updated | app/admin/dashboard/_components/quiz-control.tsx:54-138 | the `map` over the list keeps its length, every id and title in place, and every quiz with another id unchanged |
| QuizControl.UpdatedTouchesOnlyMatching | app/admin/dashboard/_components/quiz-control.tsx:54-138 | every action maps over the list: no quiz is added or lost, quizzes with another id are unchanged, those with the id get exactly the action's rewrite, ids never change |
| QuizControl.UnknownIdChangesNothing | app/admin/dashboard/_components/quiz-control.tsx:56-67 | an id no quiz has leaves the list as it was |
| QuizControl.ToggleFlipsActive | app/admin/dashboard/_components/quiz-control.tsx:58-64 | the switch makes an active quiz inactive and any other quiz (also a scheduled one) active, and changes nothing else |
| QuizControl.ToggleTwice | app/admin/dashboard/_components/quiz-control.tsx:58 | toggling twice restores an active or inactive quiz; a scheduled quiz ends up inactive |
| QuizControl.StartAndStopWindow | app/admin/dashboard/_components/quiz-control.tsx:80-101 | starting makes the quiz active with an end exactly `timeLimit * 60 * 1000` ms after its start; stopping afterwards keeps the start, ends it now and makes it inactive |
| QuizControl.LastSettingWins | app/admin/dashboard/_components/quiz-control.tsx:117-133 | scheduling twice or setting the time limit twice is the same as doing only the last one |
| QuizControl.StartPicked | app/admin/dashboard/_components/quiz-control.tsx:242-246 | the start-date picker schedules from the picked date, keeping the end when there is one and otherwise ending `timeLimit` minutes later |
| QuizControl.EndPicked | app/admin/dashboard/_components/quiz-control.tsx:263-270 | the end-date picker schedules up to the picked date, from the quiz's start when set and otherwise from now |
| QuizControl.TimeLimitInput | app/admin/dashboard/_components/quiz-control.tsx:212 | the time-limit field never yields 0: NaN and 0 are falsy and give 30 |
| QuizControl.TimeLimitOfNumber | app/admin/dashboard/_components/quiz-control.tsx:212 | a typed positive number is taken as it is |
| QuizControl.ParseDigits | app/admin/dashboard/_components/quiz-control.tsx:212 | `Number.parseInt` of a plain digit string is its decimal value |
| QuizControl.TimeLimitFallback | app/admin/dashboard/_components/quiz-control.tsx:212 | an empty field, or one that does not start with a sign or a digit, gives the default of 30 minutes |
| QuizControl.ParseInt | app/admin/dashboard/_components/quiz-control.tsx:212 | `parseInt` gives NaN for a blank field; a number it reads comes from a non-blank field, and a negative one only from a field whose first non-space character is `-` |
| QuizControl.DigitPrefix | app/admin/dashboard/_components/quiz-control.tsx:212 | the leading digits `parseInt` reads: a prefix of the input made of digits, ending at the first non-digit |
| QuizControl.QuizControlPanel.constructor | app/admin/dashboard/_components/quiz-control.tsx:27-52 | the three initial quizzes with distinct ids: active ending one hour from now, inactive without times, scheduled one day from now |
| QuizControl.QuizControlPanel.ToggleQuizStatus | app/admin/dashboard/_components/quiz-control.tsx:54-69 | the list becomes the toggle applied to the quiz with that id only |
| QuizControl.QuizControlPanel.StartQuiz | app/admin/dashboard/_components/quiz-control.tsx:71-90 | the list becomes the start (active, now, now + limit) applied to that quiz only |
| QuizControl.QuizControlPanel.StopQuiz | app/admin/dashboard/_components/quiz-control.tsx:92-106 | the list becomes the stop (inactive, end now) applied to that quiz only |
| QuizControl.QuizControlPanel.ScheduleQuiz | app/admin/dashboard/_components/quiz-control.tsx:108-122 | the list becomes the scheduling (scheduled, given start and end) applied to that quiz only |
| QuizControl.QuizControlPanel.UpdateTimeLimit | app/admin/dashboard/_components/quiz-control.tsx:124-138 | the list becomes the new time limit applied to that quiz only |
| UserSubmissions.SortToggleCycles | app/super-admin/_components/user-submissions.tsx:139-146 | a click always sorts by the clicked column; a new column starts descending, the same column flips the direction, and two clicks on the same column restore the direction |
| UserSubmissions.Filtered | app/super-admin/_components/user-submissions.tsx:157-166 | a user is kept exactly when the lower-cased query occurs in the lower-cased name, in the non-empty e-mail or in the school; nothing is added |
| UserSubmissions.QueryCaseIgnored | app/super-admin/_components/user-submissions.tsx:160-165 | the case of the search query does not change which users match |
| UserSubmissions.EmptyQueryKeepsAll | app/super-admin/_components/user-submissions.tsx:157-166 | an empty search box keeps every user, in order |
| UserSubmissions.Before | app/super-admin/_components/user-submissions.tsx:167-184 | the comparator's order relates any two entries one way or the other, on any column and in either direction |
| UserSubmissions.BeforeIsTotalPreorder | app/super-admin/_components/user-submissions.tsx:167-184 | the order the comparator sorts by, on any column and in either direction, is total and transitive |
| UserSubmissions.Rows | app/super-admin/_components/user-submissions.tsx:157-184 | the rows on screen are the filtered users, each as often as loaded, and never more than the loaded users |
| UserSubmissions.RowsAreSortedMatches | app/super-admin/_components/user-submissions.tsx:157-184 | the table shows exactly the matching users, each as often as loaded, sorted by the chosen column in the chosen direction |
| UserSubmissions.AttemptedSortsByTotalAnswered | app/super-admin/_components/user-submissions.tsx:171-173 | for leaderboard entries (which carry no `attemptedQuestions`) the attempted column sorts descending by `totalAnswered` |
| UserSubmissions.ScoreBadge | app/super-admin/_components/user-submissions.tsx:213-220 | `getScoreBadge`: "Excellent" exactly from 90, "Good" exactly in 75..90, "Average" exactly in 60..75, "Needs Improvement" exactly below 60 |
| UserSubmissions.BadgeLevel | app/super-admin/_components/user-submissions.tsx:213-220 | the bands ranked 0..3, "Excellent" alone the highest and "Needs Improvement" alone the lowest, which ScoreBadgeMonotone orders by score |
| UserSubmissions.ScoreBadgeMonotone | app/super-admin/_components/user-submissions.tsx:213-220 | badges follow the thresholds 90, 75, 60 (each band exactly), and a higher score never earns a lower badge |
| UserSubmissions.SubmissionsTable.constructor | app/super-admin/_components/user-submissions.tsx:59-64 | no users, an empty query, sorted by score descending |
| UserSubmissions.SubmissionsTable.LoadUsers | app/super-admin/_components/user-submissions.tsx:67-90 | a successful reply replaces the users; a failed one leaves them |
| UserSubmissions.SubmissionsTable.HandleSort | app/super-admin/_components/user-submissions.tsx:139-146 | the sort state becomes the toggled state of the clicked column; users and query are kept |
| UserSubmissions.SubmissionsTable.SetSearchQuery | app/super-admin/_components/user-submissions.tsx:62 | the query is replaced and nothing else changes |
| UserSubmissions.SubmissionsTable.HandleReset | app/super-admin/_components/user-submissions.tsx:96-136 | an empty or blank e-mail is refused with its message, no request and no change; any other e-mail is requested, in order; a successful reset shows the reply's message or the default and reloads the list, which the reload's entries replace exactly as in LoadUsers; a refused reset shows the reply's message or "Failed to reset user submissions", and a thrown call the fixed error text, both keeping the list; the search and sort state never change |
| DocumentVerification.JudgedDocuments | app/admin/verification/_components/document-verification-list.tsx:151-207 | one user's documents after a verdict: same length, types and file names; documents of the selected type get "approved" or "rejected", the others stay as they were |
| DocumentVerification.VerdictTouchesOnlySelected | app/admin/verification/_components/document-verification-list.tsx:151-207 | a verdict changes only documents of the selected type held by the selected user; every other user, every other document and every user's own details stay as they were |
| DocumentVerification.VerdictStatus | app/admin/verification/_components/document-verification-list.tsx:159-162 | approval sets the status "approved" and keeps the reason; rejection sets "rejected" and the given reason; no other field of the document changes |
| DocumentVerification.VerdictIdempotent | app/admin/verification/_components/document-verification-list.tsx:151-207 | giving the same verdict twice leaves the same list as giving it once |
| DocumentVerification.ApprovalKeepsRejectionReason | app/admin/verification/_components/document-verification-list.tsx:159-162 | approving a previously rejected document leaves its old rejection reason in place |
| DocumentVerification.DocumentTypeName | app/admin/verification/_components/document-verification-list.tsx:209-222 | a type shows its own key exactly when it is none of "aadhar", "photo", "10th_marksheet" and "12th_marksheet" |
| DocumentVerification.UnknownTypesShowKey | app/admin/verification/_components/document-verification-list.tsx:209-222 | a type is shown as its own key exactly when it is none of the four known document types |
| DocumentVerification.SomeDocumentMatchesExists | app/admin/verification/_components/document-verification-list.tsx:249-256 | the `some` over a user's documents holds exactly when one of the documents passes both the type and the status filter |
| DocumentVerification.Listed | app/admin/verification/_components/document-verification-list.tsx:242-259 | a listed user always matches the search; with status "all" matching the search is enough, otherwise some document has the chosen status |
| DocumentVerification.ListedIff | app/admin/verification/_components/document-verification-list.tsx:242-259 | a user is listed exactly when the search matches the name or e-mail and either every status is shown or one of the documents has the chosen status and the chosen type |
| DocumentVerification.TypeFilterIgnoredForAllStatuses | app/admin/verification/_components/document-verification-list.tsx:258 | with the status filter on "all", the document-type filter has no effect |
| DocumentVerification.FilteredUsers | app/admin/verification/_components/document-verification-list.tsx:242-259 | the list holds exactly the listed users and no more than were loaded |
| DocumentVerification.VerificationList.constructor | app/admin/verification/_components/document-verification-list.tsx:90-104 | the list opens on every type, pending documents, an empty query, nothing selected and every dialog closed |
| DocumentVerification.VerificationList.HandleViewDocument | app/admin/verification/_components/document-verification-list.tsx:118-127 | the document becomes the selection and the view dialog opens; nothing else changes |
| DocumentVerification.VerificationList.HandleApproveDocument | app/admin/verification/_components/document-verification-list.tsx:129-138 | the document becomes the selection and the approve dialog opens; nothing else changes |
| DocumentVerification.VerificationList.HandleRejectDocument | app/admin/verification/_components/document-verification-list.tsx:140-149 | the document becomes the selection and the reject dialog opens; nothing else changes |
| DocumentVerification.VerificationList.ApproveDocument | app/admin/verification/_components/document-verification-list.tsx:151-178 | with no selection nothing happens; otherwise the selected document is approved and the approve dialog closes |
| DocumentVerification.VerificationList.RejectDocument | app/admin/verification/_components/document-verification-list.tsx:180-207 | with no selection nothing happens; otherwise the selected document is rejected with the reason and the reject dialog closes |
| DocumentVerification.VerificationList.SetFilters | app/admin/verification/_components/document-verification-list.tsx:90-92 | the search text and both filters are replaced; users, selection and dialogs stay |
| FileUpload.WithoutFirstDot | app/user/document-upload/_components/file-upload.tsx:68 | only the first dot of an accepted type is removed: a type without a dot is kept, otherwise the result is one character shorter and is the type with that dot cut out |
| FileUpload.ValidTypes | app/user/document-upload/_components/file-upload.tsx:66-68 | one accepted extension per `", "`-separated piece of the prop |
| FileUpload.CheckFile | app/user/document-upload/_components/file-upload.tsx:64-90 | a file passes exactly when its MIME type contains an accepted extension and its size is at most the limit; a wrong type is reported before a wrong size |
| FileUpload.SizeLimitInclusive | app/user/document-upload/_components/file-upload.tsx:83-90 | a file of exactly the limit in mebibytes passes; one byte more is refused as too large |
| FileUpload.MentionedExtensionAccepted | app/user/document-upload/_components/file-upload.tsx:69-71 | a MIME type that contains any one accepted extension, lower-cased, is accepted |
| FileUpload.ProgressAfter | app/user/document-upload/_components/file-upload.tsx:115-123 | the simulated bar stays between 0 and 95 whatever the number of timer ticks |
| FileUpload.TickAdvances | app/user/document-upload/_components/file-upload.tsx:116-122 | each tick moves the bar to the next step, never down and by at most five |
| FileUpload.UploadCard.constructor | app/user/document-upload/_components/file-upload.tsx:54-57 | no file, no preview, not uploading, progress 0 |
| FileUpload.UploadCard.HandleFileChange | app/user/document-upload/_components/file-upload.tsx:60-106 | a file is kept only after both checks pass, with the reader's data URL as preview for images and no preview otherwise; a refused or missing file leaves the card as it was and the refusal names the failing check |
| FileUpload.UploadCard.HandleUpload | app/user/document-upload/_components/file-upload.tsx:108-166 | without a file nothing happens; otherwise a reply completes the bar, an exception leaves it where the timer stopped, and the page is told exactly when the reply reports success, with the returned URL; uploading ends except when that report's handler throws, since `setUploading(false)` at line 149 follows the handler call |
| FileUpload.UploadCard.HandleRemoveFile | app/user/document-upload/_components/file-upload.tsx:168-174 | the file and its preview are dropped; the upload state stays |
| DocumentUploadPage.InitialStatusNothingUploaded | app/user/document-upload/page.tsx:18-32 | the status request answers with the four documents, none uploaded or verified |
| DocumentUploadPage.Verified | app/user/document-upload/page.tsx:100 | exactly the documents whose status is verified |
| DocumentUploadPage.RoundedPercent | app/user/document-upload/page.tsx:102 | the verified share rounded to the nearest whole percent, halves up, between 0 and 100 |
| DocumentUploadPage.RoundedPercentUnique | app/user/document-upload/page.tsx:102 | that percentage is the only whole number within half a percent of the exact share |
| DocumentUploadPage.CalculateProgress | app/user/document-upload/page.tsx:95-103 | 0 before the status arrives; for an arrived status a percentage between 0 and 100, undefined (NaN) exactly when the status is empty |
| DocumentUploadPage.ProgressEnds | app/user/document-upload/page.tsx:95-103 | nothing verified shows 0 %, everything verified shows 100 % |
| DocumentUploadPage.InitialProgressIsZero | app/user/document-upload/page.tsx:18-32 | the freshly loaded page shows 0 % |
| DocumentUploadPage.ProgressMonotone | app/user/document-upload/page.tsx:102 | more verified documents never show a lower percentage |
| DocumentUploadPage.Merged | app/user/document-upload/page.tsx:144-149 | the report is added under its key, every other document is kept, the reported one takes the upload flag and URL and keeps its verdict |
| DocumentUploadPage.MergeTouchesOneDocument | app/user/document-upload/page.tsx:144-149 | an upload report overwrites only the reported document's upload flag and URL; its verdict fields and every other document are kept |
| DocumentUploadPage.MergeKeepsProgress | app/user/document-upload/page.tsx:144-149 | an upload report never changes the verification percentage |
| DocumentUploadPage.UploadPage.constructor | app/user/document-upload/page.tsx:35-36 | loading, with no status |
| DocumentUploadPage.UploadPage.FetchDocumentStatus | app/user/document-upload/page.tsx:64-92 | the status is replaced only for a signed-in user with a non-zero id and a successful reply; loading ends in every case |
| DocumentUploadPage.UploadPage.OnUploadSuccessAsWritten | app/user/document-upload/page.tsx:144-149 | the handler as written: the report is merged into the status captured at render time and the result replaces the current status; a type error, changing nothing, when that captured status was missing |
| DocumentUploadPage.UploadPage.OnUploadSuccess | app/user/document-upload/page.tsx:144-149 | the corrected handler, a functional update: the report is merged into the current status; while no status has arrived it fails with a type error and nothing changes |
| DocumentUploadPage.LostUploadAsWritten | app/user/document-upload/page.tsx:144-149 | two uploads whose handlers come from the same render: after both run, the Aadhar card is shown as not uploaded and only the photo as uploaded |
| DocumentUploadPage.BothUploadsKept | app/user/document-upload/page.tsx:144-149 | the same two uploads applied as functional updates: both documents are shown uploaded with their own URLs |
| DocumentUploadPage.SuccessiveMergesKeepBoth | app/user/document-upload/page.tsx:144-149 | reports for two different documents merged one after the other both survive, each with its own flag and URL |
| DirectLoadTest.SubmissionStore.constructor | load-testing-py/direct_load_test.py:149 | the `submittedanswers` collection starts empty |
| DirectLoadTest.SubmissionStore.InsertMany | load-testing-py/direct_load_test.py:149 | a batch is appended to the collection exactly when the insert returns; a raising insert stores nothing |
| DirectLoadTest.SubmissionStore.DeleteAll | load-testing-py/direct_load_test.py:204 | the collection is emptied |
| DirectLoadTest.GenerateQuestion | load-testing-py/direct_load_test.py:41-56 | a generated question has four options numbered 1 to 4 in order, and its correct option id is one of them |
| DirectLoadTest.BuildAnswers | load-testing-py/direct_load_test.py:127-142 | one answer per selected question, in selection order, for the given user, with an option id in 1..4 and a time taken in 30..300 seconds |
| DirectLoadTest.SubmissionOutcome | load-testing-py/direct_load_test.py:147-169 | success exactly when the insert returned; the latency and user id are reported on both paths, the answer count only on success and the error text only on failure |
| DirectLoadTest.SubmitQuizAnswers | load-testing-py/direct_load_test.py:119-169 | min(20, pool size) answers to questions from the pool, distinct when the pool is, each with an option in 1..4; the batch is stored exactly when the outcome is a success |
| DirectLoadTest.TaggedOutcome | load-testing-py/direct_load_test.py:147-169 | a submission's outcome within a phase names its user, carries the phase's level, and is a success exactly when the insert returned |
| DirectLoadTest.SubmitAll | load-testing-py/direct_load_test.py:176-186 | one outcome per selected user, in order: the k-th is the k-th user's submission outcome on the k-th reply, tagged with the phase's level; the store gains exactly the successful batches |
| DirectLoadTest.RunPhase | load-testing-py/direct_load_test.py:171-188 | fails exactly when the phase asks for more users than the pool holds; otherwise the drawn users are a sub-multiset of the pool, the k-th outcome is the k-th drawn user's submission outcome tagged with the level, the stored batches are full for successes and empty for failures, and the store gains exactly those batches |
| DirectLoadTest.PhaseRunUsers | load-testing-py/direct_load_test.py:174-186 | every outcome of a phase names a user of the pool and carries the level, and no user submits twice when the pool's ids are distinct |
| DirectLoadTest.LoadRunner.constructor | load-testing-py/direct_load_test.py:197 | the runner starts with no time spent pausing |
| DirectLoadTest.LoadRunner.RunLoadTest | load-testing-py/direct_load_test.py:190-213 | fails exactly when some phase is larger than the user pool; otherwise the results are the concatenation, in PHASES order, of one phase run per level (its own draw of that many users from the pool and one outcome per drawn user on that phase's replies), a 5 s pause follows every phase including the last, and the store holds exactly the batches stored by the last phase |
| DirectLoadTest.LoadRunner.RunPhases | load-testing-py/direct_load_test.py:200-213 | the phase loop for any non-empty list of levels: the same promises as the full run, stated for that list |
| DirectLoadTest.RecordedStep | load-testing-py/direct_load_test.py:200-207 | recording one more phase run extends the record of the run so far: concatenated results, each phase's draw and outcomes, and the tags |
| DirectLoadTest.TagsOfPhase | load-testing-py/direct_load_test.py:206-207 | extending the results by a full phase moves that phase's tags from the pending to the collected part |
| DirectLoadStatistics.PhaseTagsCount | load-testing-py/direct_load_test.py:200-207 | a complete run carries each phase's level exactly as often as the level itself, and no other level |
| DirectLoadStatistics.LatenciesCount | load-testing-py/direct_load_test.py:221-224 | the latencies grouped under a level are as many as the outcomes tagged with it |
| DirectLoadStatistics.PhaseTagsMembership | load-testing-py/direct_load_test.py:200-207 | a level is tagged in a complete run exactly when it is a non-empty phase |
| DirectLoadStatistics.StrictlyIncreasingUnique | load-testing-py/direct_load_test.py:221-224 | two ascending lists without repeats holding the same levels are the same list |
| DirectLoadStatistics.TaggedIffInTags | load-testing-py/direct_load_test.py:185 | some outcome carries a level exactly when that level is among the tags |
| DirectLoadStatistics.FullRunLevels | load-testing-py/direct_load_test.py:221-224 | the groups of a complete run are exactly the phases, in PHASES order |
| DirectLoadStatistics.FullRunStatistics | load-testing-py/direct_load_test.py:215-224 | a complete run is analysed without error, and its statistics have one row per phase, in order, whose count is that phase's number of users |
| HttpLoadTest.LoginUser | load-testing-py/load_test.py:15-28 | cookies exactly on HTTP 200, and then the reply's cookies, which stand for the session cookie jar's cookies for the response URL; nothing on any other status or an exception |
| HttpLoadTest.KeptIndices | load-testing-py/load_test.py:98-101 | exactly the positions of the truthy logins, ascending |
| HttpLoadTest.KeptIndicesStep | load-testing-py/load_test.py:98-101 | looking at one more login adds its position exactly when it is truthy |
| HttpLoadTest.FilterLoggedIn | load-testing-py/load_test.py:95-101 | the kept users and cookies are index-aligned: the k-th kept user is the one at the k-th truthy login, and the k-th cookie jar is that login's |
| HttpLoadTest.BuildAnswers | load-testing-py/load_test.py:37-45 | one answer per selected question, in order, with an option id in 1..4 |
| HttpLoadTest.SubmitOutcome | load-testing-py/load_test.py:50-76 | success exactly on HTTP 200; the latency and the user id are always reported; an error text (the body or the exception) exactly on failure |
| HttpLoadTest.SubmitQuiz | load-testing-py/load_test.py:30-76 | min(20, number of questions) answers to questions of the pool, distinct when the pool's ids are, each with an option in 1..4, and the outcome of the reply |
| HttpLoadTest.SubmitAll | load-testing-py/load_test.py:105-114 | one outcome per logged-in user, in order, each the outcome of that user's reply |
| HttpLoadTest.RunPhase | load-testing-py/load_test.py:78-116 | fails exactly when the phase asks for more users than there are; otherwise the drawn users are a sub-multiset of the pool, there is one outcome per drawn user whose login succeeded, and the k-th outcome is the k-th such user's submission outcome on the k-th reply, untagged |
| HttpLoadTest.PhaseRunUsers | load-testing-py/load_test.py:81-114 | a phase returns at most one outcome per drawn user, each naming a user of the pool, and no user twice when the pool's ids are distinct |
| HttpLoadTest.PhaseRunDistinct | load-testing-py/load_test.py:81-114 | with distinct ids in the pool, the outcomes of a phase name pairwise different users |
| HttpLoadTest.DrawnIdsDiffer | load-testing-py/load_test.py:81 | two different draws from a pool with distinct ids carry different ids |
| HttpLoadTest.TagPhase | load-testing-py/load_test.py:143-144 | every result of the phase gets the phase's level and nothing else about it changes |
| HttpLoadTest.AssignUserIds | load-testing-py/load_test.py:128-129 | the i-th user (from 0) gets the id `user_<i+1>`; nothing else changes |
| HttpLoadTest.AssignQuestionIds | load-testing-py/load_test.py:132-133 | the i-th question (from 0) gets the id `question_<i+1>`; nothing else changes |
| HttpLoadTest.AssignedIdsDistinct | load-testing-py/load_test.py:128-133 | different positions get different user ids and different question ids |
| HttpLoadTest.CountedTagsAppend | load-testing-py/load_test.py:143-146 | appending a phase with c logged-in users appends c tags of its level |
| HttpLoadTest.HttpLoadRunner.constructor | load-testing-py/load_test.py:135 | no time spent pausing yet |
| HttpLoadTest.HttpLoadRunner.RunLoadTest | load-testing-py/load_test.py:118-152 | users are numbered `user_1`, `user_2`, ...; the run fails exactly when some phase is larger than the user pool; otherwise the results are the concatenation, in PHASES order, of each phase's run on the numbered users (its own draw, the outcomes of the users whose login succeeded) tagged with its level, no phase names a user twice, and a 5 s pause follows every phase |
| HttpLoadTest.HttpLoadRunner.RunPhases | load-testing-py/load_test.py:138-152 | the phase loop for any list of levels: fails exactly when some level exceeds the pool, otherwise the tagged phase runs concatenated in order, with per-phase counts of at most the level and a pause per phase |
| HttpLoadTest.RecordedStep | load-testing-py/load_test.py:138-146 | recording one more phase run extends the record: the untagged and tagged results, the draw, and the concatenation |
| LoadAnalysis.FilterMap | load-testing-py/direct_load_test.py:221 | keeps, in input order, the values of exactly the rows that carry one, and no more values than rows |
| LoadAnalysis.FilterMapPermutation | load-testing-py/direct_load_test.py:221 | reordering the rows reorders the kept values the same way: the same multiset of values comes out |
| LoadAnalysis.Dedup | load-testing-py/direct_load_test.py:221 | dropping adjacent repeats keeps exactly the values there were and the first one first |
| LoadAnalysis.DedupOfSorted | load-testing-py/direct_load_test.py:221 | the sorted tags without repeats are strictly ascending: each group key appears once |
| LoadAnalysis.SumBounds | load-testing-py/direct_load_test.py:224 | the total of a sample lies between its size times its lowest and its size times its highest value |
| LoadAnalysis.SumAppend | load-testing-py/direct_load_test.py:224 | the total of two samples joined is the sum of their totals |
| LoadAnalysis.SumPermutation | load-testing-py/direct_load_test.py:224 | the total of a sample does not depend on the order of its values |
| LoadAnalysis.MeanBetween | load-testing-py/direct_load_test.py:224 | the mean lies between the lowest and the highest value |
| LoadAnalysis.MedianBetween | load-testing-py/direct_load_test.py:224 | the median of a sorted sample (the middle value, or the average of the two middle values) lies between its ends |
| LoadAnalysis.StatsOf | load-testing-py/direct_load_test.py:224 | one row per group: its level and count, a minimum and a maximum that occur in the sample and bound all of it, the mean as the sample's total over its size, and the median of the sorted sample, both between the minimum and the maximum |
| LoadAnalysis.SampleSummary | load-testing-py/direct_load_test.py:224 | the ends of the sorted sample are its minimum and maximum, and the mean and median lie between them |
| LoadAnalysis.AnalyzeResults | load-testing-py/load_test.py:154-163 | fails with a KeyError exactly when no result carries a level (so for an empty result list, which load_test.py reaches when every login fails); otherwise the non-empty statistics table |
| LoadAnalysis.Analyze | load-testing-py/direct_load_test.py:221-224 | one row per distinct tagged level, in the level order, each the statistics of the response times tagged with that level, of which there is at least one |
| LoadAnalysis.LatenciesNonEmpty | load-testing-py/direct_load_test.py:221 | every group has at least one response time |
| LoadAnalysis.LevelsAreTheTaggedLevels | load-testing-py/direct_load_test.py:221 | the group keys are strictly ascending and are exactly the levels some outcome carries; untagged outcomes form no group |
| LoadAnalysis.AnalyzeOrderIndependent | load-testing-py/direct_load_test.py:183-186 | the order in which the outcomes complete does not change the statistics table |
| LoadAnalysis.LevelsOrderIndependent | load-testing-py/direct_load_test.py:221 | the group keys do not depend on the order of the outcomes |
| LoadAnalysis.LatenciesOrderIndependent | load-testing-py/direct_load_test.py:221 | each group's sorted response times do not depend on the order of the outcomes |
| LoadAnalysis.StatsOfSeesSortedSample | load-testing-py/direct_load_test.py:224 | a group's row depends only on its sorted sample |
| LoadAnalysis.SuccessRate | load-testing-py/direct_load_test.py:259 | the success rate of a level lies in [0, 1] and is 1 exactly when every outcome of that level succeeded |
| LoadAnalysis.AllTrueIffCountIsLength | load-testing-py/direct_load_test.py:259 | counting the successes gives the group size exactly when no outcome failed |
| PyRandom.RandInt | load-testing-py/direct_load_test.py:131 | `randint(lo, hi)` is within the closed range |
| PyRandom.Sample | load-testing-py/direct_load_test.py:174 | `random.sample` raises exactly when more elements are asked for than there are; otherwise it returns that many, drawn without replacement from the population |
| PyRandom.TakeFromPool | load-testing-py/direct_load_test.py:174 | one draw emits the chosen live element and leaves exactly the other live elements live |
| PyRandom.LiveShrinks | load-testing-py/direct_load_test.py:174 | moving the last live element into the drawn slot drops exactly the drawn element |
| PyRandom.SubMultisetOfDistinct | load-testing-py/direct_load_test.py:122 | a sample from a population without repeats has no repeats |
| QuestionParser.OptionMapIsLetterToId | lib/utils/question-parser.ts:13-18 | the option map has exactly the letters A to D, mapped to 1 to 4 in order |
| QuestionParser.OptionId | lib/utils/question-parser.ts:50 | an option letter's id is its position in A..D, from 1 |
| QuestionParser.RunLength | lib/utils/question-parser.ts:35 | the run found is the longest one: every character in it qualifies and the next one does not |
| QuestionParser.Leftmost | lib/utils/question-parser.ts:28 | a reported match is at or after the start and is a match of the pattern there |
| QuestionParser.LeftmostIsLeftmost | lib/utils/question-parser.ts:28 | no position before the reported match matches, and no position at all when none is reported |
| QuestionParser.SubjectAt | lib/utils/question-parser.ts:28 | the subject capture is non-empty and holds no opening parenthesis |
| QuestionParser.LastDotStart | lib/utils/question-parser.ts:46 | where `(.+)` can begin: inside the white space after the parenthesis and not on a line terminator |
| QuestionParser.OptionAt | lib/utils/question-parser.ts:46 | an option match carries a letter from A to D and a non-empty text |
| QuestionParser.AnswerAt | lib/utils/question-parser.ts:56 | an answer match names a letter from A to D |
| QuestionParser.LineOption | lib/utils/question-parser.ts:46-53 | a line contributes no option exactly when the option pattern matches nowhere in it; otherwise one option, with the id of the leftmost match's letter and its trimmed text, an id in 1..4 |
| QuestionParser.OptionLine | lib/utils/question-parser.ts:46-53 | the option line the parser expects: the letter, `) ` and the text, which OptionLineParses reads back |
| QuestionParser.OptionLineParses | lib/utils/question-parser.ts:46-53 | a plain line `X) text` contributes option X with the trimmed text |
| QuestionParser.LineAnswer | lib/utils/question-parser.ts:56-60 | a line names at most one answer letter, from A to D |
| QuestionParser.ScanLines | lib/utils/question-parser.ts:39-61 | the collected options have ids in 1..4 and trimmed texts, there are no more of them than lines, and the correct id is in 1..4 |
| QuestionParser.SubjectSlug | lib/utils/question-parser.ts:68 | the slug has the subject's length and only letters a to z and dashes; a lower-case letter is kept, an ASCII capital becomes its lower-case letter, and every other character becomes a dash |
| QuestionParser.ReadSectionsAppend | lib/utils/question-parser.ts:26-71 | questions come out in section order: the output of two runs of sections is the output of the first, then that of the second under the subject the first leaves |
| QuestionParser.ScanSectionLines | lib/utils/question-parser.ts:39-61 | the line loop collects exactly the options and the correct id of the line-by-line definition |
| QuestionParser.ReadSection | lib/utils/question-parser.ts:27-70 | one pass of the section loop: a header section only sets the subject; any other section yields the question its heading and exactly four options give, or nothing |
| QuestionParser.ParseMarkdownQuestions | lib/utils/question-parser.ts:20-74 | the parser's output is the section-by-section definition, with the subject starting empty |
| QuestionParser.ReadAllSections | lib/utils/question-parser.ts:24-73 | the section loop collects exactly what reading the sections one by one under the running subject yields |
| QuestionParser.SectionQuestionWellFormed | lib/utils/question-parser.ts:35-70 | a question a section yields is well formed |
| QuestionParser.ReadSectionsWellFormed | lib/utils/question-parser.ts:26-71 | every question of a run of sections is well formed, whatever the starting subject |
| QuestionParser.Parse | lib/utils/question-parser.ts:20-74 | the parse of a document: every question in it has four options with ids 1..4 and trimmed texts, a non-empty trimmed text, a correct id in 1..4 and a slug subject |
| QuestionParser.ParseWellFormed | lib/utils/question-parser.ts:20-74 | every parsed question has exactly four options with ids in 1..4 and trimmed texts, a non-empty trimmed text, a correct id in 1..4 and a subject of lower-case letters and dashes |
| QuestionParser.NoAnswerLineMeansFirstOption | lib/utils/question-parser.ts:40 | a section without an answer line marks option 1 correct |
| QuestionParser.LastAnswerLineWins | lib/utils/question-parser.ts:57-60 | with several answer lines the last one decides the correct option |
| QuestionParser.HeaderSectionSetsSubject | lib/utils/question-parser.ts:28-32 | a header section yields no question and every later section is read under its trimmed subject |
| QuestionParser.AnswerLine | lib/utils/question-parser.ts:55-60 | the answer line the document format uses: `**Answer:** ` followed by exactly an option line, which is why AnswerLineIsAlsoAnOption holds |
| QuestionParser.AnswerLineIsAlsoAnOption | lib/utils/question-parser.ts:44-60 | a line `**Answer:** X) text` is read both as the answer X and as one more option X with that text |
| QuestionParser.AnswerLineMakesFiveOptions | lib/utils/question-parser.ts:44-63 | a section with four option lines and such an answer line collects five options, so the question is dropped |
| QuestionParser.ScanLinesIntended | lib/utils/question-parser.ts:44-61 | the corrected line loop: its options have ids in 1..4 and trimmed texts and its correct id is in 1..4 |
| QuestionParser.IntendedAgreesWithoutAnswers | lib/utils/question-parser.ts:44-61 | without answer lines the corrected loop collects exactly what the written one does |
| QuestionParser.IntendedAnswerLineKeepsOptions | lib/utils/question-parser.ts:44-63 | under the corrected loop an answer line sets the correct option and adds no option |
| Dal.GetSession | lib/dal.ts:15-32 | no user and no session exactly when the cookie is missing or empty or the token fails to verify; otherwise the verified payload and the raw token |
| Dal.VerifyAuth | lib/dal.ts:35-50 | the session's user exactly when there is one and no role is required or its role is the required one |
| Dal.GetAuthOrRedirect | lib/dal.ts:53-75 | authenticated exactly when `verifyAuth` gives a user; nobody signed in is sent to the given path, and a signed-in user of the wrong role to the required role's login page |
| Dal.GetUserData | lib/dal.ts:78-111 | data, when returned, is the stored row of the asked-for id |
| Dal.GetUserDataOnlyForOwner | lib/dal.ts:80-88 | as written, data comes back exactly to a signed-in 'user' asking for their own existing row |
| Dal.GetUserDataRefusesAdmins | lib/dal.ts:80-88 | as written, an admin or superadmin never gets data, although the guard names them as exempt |
| Dal.GetUserDataIntended | lib/dal.ts:78-111 | the corrected access rule returns, when it returns, the stored row of the asked-for id |
| Dal.GetUserDataIntendedAccess | lib/dal.ts:81-88 | under the corrected rule data comes back exactly to its owner, an admin or a superadmin, when the row exists |
| Middleware.Decide | middleware.ts:5-88 | the cookie is deleted only for a present token that fails to verify, with a redirect to /login; a visitor without a token is redirected only away from a non-public page, and keeps the (absent) cookie |
| Middleware.AreasAreDisjoint | middleware.ts:24-42 | a path lies in at most one of the /user, /admin and /super-admin areas |
| Middleware.AreaPagesAreNotPublic | middleware.ts:7-14 | no area page other than its own login page is public |
| Middleware.PublicPathsPassWithoutToken | middleware.ts:7-20 | the five public paths pass when there is no token |
| Middleware.NoTokenRedirectsToAreaLogin | middleware.ts:20-43 | without a token a non-public area page is redirected to that area's login with the page as `redirect` parameter; any other non-public page passes |
| Middleware.AreaPagesNeedTheirRole | middleware.ts:45-87 | a request reaches an area page only with a token that verifies to that area's role |
| Middleware.OwnRoleIsAdmitted | middleware.ts:45-87 | a token verifying to an area's role opens every page of that area |
| Middleware.WrongRoleRedirectsToAreaLogin | middleware.ts:48-75 | a token without the area's role (or failing to verify) is sent from an area page to that area's login page, and is kept |
| Middleware.TokenDeletedOnlyWhenInvalid | middleware.ts:78-84 | the cookie is deleted exactly for a present token that fails to verify on a non-public page outside the three areas, always with a redirect to /login |
| Middleware.InvalidTokenNeverPasses | middleware.ts:45-84 | a token that fails to verify never reaches a non-public page |
| QuestionActions.NormalisedTexts | actions/question.ts:30-32 | one normalised text per option, in order: the option's text trimmed and lower-cased |
| QuestionActions.OptionTextsUniqueMeansPairwise | actions/question.ts:30-36 | the Set-size check accepts exactly the option lists in which no two texts agree once trimmed and lower-cased |
| QuestionActions.CheckNewQuestion | actions/question.ts:23-44 | a new question passes exactly when its text is not stored yet, its option texts are unique and its correct id names an option; a duplicate text is reported first |
| QuestionActions.CheckUpdate | actions/question.ts:391-406 | an update passes exactly when the new option texts are unique and the new correct id names an option; duplicate options are reported first |
| QuestionActions.DuplicateTextReportedFirst | actions/question.ts:23-44 | a duplicate text is reported whatever is wrong with the options, and options a new question may have are options an update may have |
| QuestionActions.PutKeepsValid | actions/question.ts:47-62 | storing a well-formed question with its answer keeps every question paired with exactly one answer and every stored question well formed |
| QuestionActions.QuestionStore.constructor | actions/question.ts:9-65 | both collections start empty, which is a valid store |
| QuestionActions.QuestionStore.AddQuestion | actions/question.ts:9-65 | refused exactly when a check fails, with that check's message and no change; otherwise the question and its correct answer are stored under the new id and the store stays valid |
| QuestionActions.QuestionStore.UpdateQuestion | actions/question.ts:369-424 | an unknown id gives "Question not found"; a failed check returns that check's own message (duplicate options first, then the correct-option check) and changes nothing; otherwise text, options and subject are replaced and the correct answer is updated or inserted, and the store stays valid |
| QuestionActions.FormatOption | actions/question.ts:325-335 | an option object keeps a truthy id and its text; any other option gets the id index + 1; no formatted id is 0 |
| QuestionActions.FormatOptions | actions/question.ts:325-336 | one formatted option per stored option, each formatted at its own index |
| QuestionActions.FormatOptionsIdempotent | actions/question.ts:325-336 | formatting options that were already formatted gives them back unchanged |
| QuestionActions.ListOption | actions/question.ts:98-111 | an object with an id is passed on as it is, id 0 included; a bare string gets the id index + 1 and is the text; an object without an id gets index + 1 and the text "[object Object]" |
| QuestionActions.ListOptions | actions/question.ts:98-111 | one listed option per stored option, each at its own index |
| QuestionActions.ListAndFormatAgree | actions/question.ts:98-111 | the listing and the answer-key formatters agree on bare strings and non-zero ids, differ on id 0, and on an object without an id agree only when its text is "[object Object]" |
| QuestionActions.ListOptionsIdempotent | actions/question.ts:98-111 | listing options that were already listed gives them back unchanged |
| QuestionActions.BareOptionsAreNumbered | actions/question.ts:326-334 | bare strings from older data are numbered 1, 2, ... in order, keeping their text |
| QuizActions.ElementsSize | actions/quiz.ts:99-103 | the Set built from a list is no larger than the list, and as large exactly when the list has no repeats |
| QuizActions.NormalisedValues | actions/quiz.ts:99-101 | one normalised value per option, in order: the option's value trimmed and lower-cased |
| QuizActions.OptionValuesUniqueMeansPairwise | actions/quiz.ts:99-108 | the Set-size check accepts exactly the option lists in which no two values agree once trimmed and lower-cased |
| QuizActions.AddRefusal | actions/quiz.ts:69-152 | the add checks in order: a non-staff caller is refused first, then a text already stored; no message exactly when every check passes and the transaction succeeds |
| QuizActions.UpdateRefusal | actions/quiz.ts:344-438 | the update checks in order: a non-staff caller is refused first, then an unknown id; no message exactly when every check passes and the transaction succeeds |
| QuizActions.AddQuestion | actions/quiz.ts:63-153 | succeeds exactly when the caller is admin or superadmin, the text is new, the option values are unique, the correct option names an option and the transaction succeeds; then the question and its answer are stored under the next serial id, otherwise nothing changes |
| QuizActions.AddQuestionKeepsConsistent | actions/quiz.ts:63-153 | adding keeps the tables consistent: every question has a correct answer naming one of its options, option values unique, question texts unique |
| QuizActions.UpdateQuestion | actions/quiz.ts:331-439 | succeeds exactly when the caller is staff, the question exists, no other question has the new text, the options are unique and the correct option names one; then only that question changes (an absent subject keeps the stored one) and an existing answer row takes the new option; otherwise nothing changes |
| QuizActions.Rewritten | actions/quiz.ts:409-427 | the update transaction rewrites only the one question row and, when it exists, its answer row; no row appears or disappears |
| QuizActions.UpdateQuestionKeepsConsistent | actions/quiz.ts:331-439 | updating keeps the tables consistent |
| QuizActions.SwapPermutes | actions/quiz.ts:207-210 | a swap keeps the same questions |
| QuizActions.ShuffleDownPermutes | actions/quiz.ts:203-211 | the remaining shuffle steps keep the length and the same questions |
| QuizActions.ShuffleDown | actions/quiz.ts:203-211 | the remaining Fisher–Yates steps from position `i` keep the length and never touch a position above `i` |
| QuizActions.Shuffle | actions/quiz.ts:201-211 | the shuffled list has the same length and holds the same questions |
| QuizActions.ShufflePermutes | actions/quiz.ts:201-211 | whatever the random draws, the shuffled list is a permutation of the questions |
| QuizActions.ShuffleDownFixed | actions/quiz.ts:203-211 | draws that always pick the position itself leave the order unchanged |
| QuizActions.ShuffleInPlace | actions/quiz.ts:203-211 | the in-place swap loop leaves the array in the order the Fisher–Yates steps define |
| QuizActions.GetAllQuestions | actions/quiz.ts:156-216 | the served questions are the stored ones in client form, shuffled: a permutation of them |
| QuizActions.Formatted | actions/quiz.ts:174-199 | one client question per row, in query order, carrying the row's id, text, options and subject |
| QuizActions.AnswerMap | actions/quiz.ts:528-533 | the map has an entry exactly for the questions some answer row names; rows without a question are skipped |
| QuizActions.AnswerMapLastWins | actions/quiz.ts:529-533 | a question's entry is the answer of the last row naming it |
| QuizActions.BuildAnswerMap | actions/quiz.ts:528-533 | the `forEach` loop builds exactly that map |
| QuizActions.ResultOf | actions/quiz.ts:540-569 | a submission gives a result line exactly when it has a question id; the line carries that id and the chosen option, is correct exactly when a stored answer equals the option, and shows a correct option exactly when one is stored |
| QuizActions.Results | actions/quiz.ts:540-571 | at most one result line per submission, and a line is correct exactly when its question's stored answer equals the chosen option |
| QuizActions.CountCorrect | actions/quiz.ts:551-554 | the correct count never exceeds the number of lines |
| QuizActions.CountAttempted | actions/quiz.ts:556-558 | the attempted count never exceeds the number of lines |
| QuizActions.Percentage | actions/quiz.ts:578-581 | the score is 0 with no lines, else the value whose product with the line count is 100 times the right answers |
| QuizActions.PercentageBounds | actions/quiz.ts:578-581 | a score lies in 0..100; it is 100 exactly when there are lines and all are right, and 0 exactly when none is right |
| QuizActions.Tally | actions/quiz.ts:551-558 | one line adds one to the correct count exactly when it is right and one to the attempted count exactly when an option was chosen |
| QuizActions.ScoreSubmissions | actions/quiz.ts:536-571 | the scoring loop yields exactly the result lines and the two counts over them |
| QuizActions.ScoreOne | actions/quiz.ts:541-570 | one pass of the scoring loop extends the lines and counts by the next submission |
| QuizActions.GetQuizResults | actions/quiz.ts:490-598 | succeeds exactly for a signed-in caller who is staff or asks for their own results; then the lines, the totals over them and the score as a percentage of the lines |
| QuizActions.SummaryScoreBounds | actions/quiz.ts:574-582 | the summary score lies in 0..100 and is 100 exactly when there are lines and every one is right |
| QuizActions.NullQuestionsAreSkipped | actions/quiz.ts:543-546 | a submission without a question id leaves the results untouched |
| QuizActions.SubmissionsOf | actions/quiz.ts:642-644 | every kept submission is the user's, and every submission of the user is kept |
| QuizActions.SubmissionsOfMultiset | actions/quiz.ts:642-644 | the filter keeps every submission of the user exactly as often as the query returns it, and no other |
| QuizActions.SubmissionsOfAppend | actions/quiz.ts:642-644 | the filter keeps query order: filtering a concatenation concatenates the filtered parts |
| QuizActions.CorrectCount | actions/quiz.ts:650-657 | the right answers among a user's submissions, never more than the submissions |
| QuizActions.CountCorrectAnswers | actions/quiz.ts:648-657 | the `forEach` counter gives exactly that count |
| QuizActions.EntryFor | actions/quiz.ts:640-675 | an entry carries the user's id, name, e-mail and school; `totalAnswered` is the number of the user's submissions and `correctAnswers` the number of those that are right; the score is 10 points per right answer, and the accuracy is right/answered × 100 (0 when nothing was answered), so it lies in 0..100 |
| QuizActions.ByScoreDescIsTotalPreorder | actions/quiz.ts:679 | the leaderboard comparator is a total preorder |
| QuizActions.Ranked | actions/quiz.ts:682-685 | ranks are 1, 2, ... in list order |
| QuizActions.ScoreUser | actions/quiz.ts:640-675 | the per-user callback computes exactly that user's entry |
| QuizActions.BuildEntries | actions/quiz.ts:639-676 | one entry per user, in the users query's order |
| QuizActions.SortedEntriesComeFromInput | actions/quiz.ts:679 | every sorted entry is one of the computed entries |
| QuizActions.GetLeaderboard | actions/quiz.ts:601-698 | one ranked entry per user, ranks 1, 2, ..., scores never increasing down the board, each entry one of the users' entries |
| QuizActions.Entries | actions/quiz.ts:639-676 | the entries of the users, one each, in their order |
| QuizActions.LeaderboardTiesKeepUserOrder | actions/quiz.ts:679 | users with the same score keep the users query's order |
| QuizView.Initialised | app/user/quiz/_components/quiz-interface.tsx:75-81 | every fetched question is kept in order with its id, text and options; the first gets status not-answered, every other not-visited, and none has a stored answer |
| QuizView.FetchOutcome | app/user/quiz/_components/quiz-interface.tsx:68-91 | the questions load exactly when the reply is a success carrying a list, and then they are the initialised list; otherwise the error shown is the reply's error, or "Failed to fetch questions" when it has none |
| QuizView.Loaded | app/user/quiz/_components/quiz-interface.tsx:61-82 | after loading the first question is shown with nothing selected and no answers, one question per fetched item with its id and no stored answer |
| QuizView.LoadedIsConsistent | app/user/quiz/_components/quiz-interface.tsx:61-82 | a freshly loaded non-empty quiz with distinct ids is on a question, has an empty answers map that agrees with the (absent) stored answers |
| QuizView.Saved | app/user/quiz/_components/quiz-question-view.tsx:36-51 | saving keeps the index, the selection and the number of questions |
| QuizView.SaveTouchesOnlyCurrent | app/user/quiz/_components/quiz-question-view.tsx:36-51 | saving gives the question on screen the new status and the current selection as its stored answer, leaves every other question alone, and adds the selection to the answers map only when it is non-empty |
| QuizView.Navigated | app/user/quiz/_components/quiz-question-view.tsx:53-66 | navigation always leaves the index on a question |
| QuizView.NavigationOutsideIsNoop | app/user/quiz/_components/quiz-question-view.tsx:53-66 | Previous on the first question and Next on the last change nothing |
| QuizView.NavigationSavesAndLoads | app/user/quiz/_components/quiz-question-view.tsx:53-66 | navigation inside the list saves the question left as answered exactly when something was selected, moves to the neighbour and shows that neighbour's stored answer |
| QuizView.SavedAndNext | app/user/quiz/_components/quiz-question-view.tsx:68-79 | Save & Next always leaves the index on a question |
| QuizView.SaveAndNextNeedsAnswer | app/user/quiz/_components/quiz-question-view.tsx:68-79 | with nothing selected Save & Next changes nothing (only the warning is shown) |
| QuizView.SaveAndNextStoresAnswer | app/user/quiz/_components/quiz-question-view.tsx:68-79 | with a selection Save & Next marks the question answered, records the selection in the answers map and moves to the next question when there is one |
| QuizView.Cleared | app/user/quiz/_components/quiz-question-view.tsx:81-96 | clearing keeps the index on a question |
| QuizView.ClearForgetsAnswer | app/user/quiz/_components/quiz-question-view.tsx:81-96 | clearing empties the selection, marks the question not answered with no stored answer, removes its id from the answers map and keeps every other entry |
| QuizView.MarkedForReview | app/user/quiz/_components/quiz-question-view.tsx:98-103 | mark for review always leaves the index on a question |
| QuizView.MarkForReviewIsPlainNavigation | app/user/quiz/_components/quiz-question-view.tsx:98-103 | as written, marking a question that has a next one gives exactly the state of plain Next, so the question's status is answered or not-answered and the mark is lost |
| QuizView.MarkOnLastQuestionSticks | app/user/quiz/_components/quiz-question-view.tsx:98-103 | on the last question the mark is saved and the screen stays put |
| QuizView.MarkedForReviewIntended | app/user/quiz/_components/quiz-question-view.tsx:98-103 | intended mark for review always leaves the index on a question |
| QuizView.MarkForReviewIntendedKeepsMark | app/user/quiz/_components/quiz-question-view.tsx:98-103 | as intended, the question keeps the mark (answered-marked or marked-review) and the selection, and the next question is shown with its stored answer |
| QuizView.SavedKeepsAgreement | app/user/quiz/_components/quiz-question-view.tsx:36-51 | a save keeps the ids distinct and the answers map holding exactly the questions with a non-empty stored answer |
| QuizView.ShowKeepsConsistent | app/user/quiz/_components/quiz-question-view.tsx:63-64 | showing any question with its stored answer gives a consistent screen |
| QuizView.NavigatedKeepsConsistent | app/user/quiz/_components/quiz-question-view.tsx:53-66 | navigation preserves consistency of screen, stored answers and answers map |
| QuizView.SavedAndNextKeepsConsistent | app/user/quiz/_components/quiz-question-view.tsx:68-79 | Save & Next preserves consistency |
| QuizView.ClearedKeepsConsistent | app/user/quiz/_components/quiz-question-view.tsx:81-96 | clearing preserves consistency |
| QuizView.MarkedForReviewKeepsConsistent | app/user/quiz/_components/quiz-question-view.tsx:98-103 | mark for review, as written and as intended, preserves consistency |
| QuizView.SelectedKeepsConsistent | app/user/quiz/_components/quiz-question-view.tsx:151-154 | choosing an option preserves consistency |
| QuizView.JumpedIntendedKeepsConsistent | app/user/quiz/_components/quiz-interface.tsx:151-153 | a palette click that also loads the target's stored answer preserves consistency |
| QuizView.Jumped | app/user/quiz/_components/quiz-interface.tsx:151-153 | as written, a palette click only moves to the clicked question; the selection still holds the previous question's choice |
| QuizView.JumpedIntended | app/user/quiz/_components/quiz-interface.tsx:151-153 | the corrected palette click moves to the clicked question and selects its stored answer, as navigation does (line 64) |
| QuizView.PaletteJumpLeavesStaleAnswer | app/user/quiz/_components/quiz-interface.tsx:151-153 | as written, a palette click keeps the previous selection: jumping from an unanswered question to one answered "B" and pressing Next stores that question as not answered with an empty answer while the answers map still holds "B" |
| QuizView.UnansweredCount | app/user/quiz/_components/quiz-question-view.tsx:105-108 | the count of not-visited and not-answered questions never exceeds the number of questions |
| QuizView.UnansweredCountUpdate | app/user/quiz/_components/quiz-question-view.tsx:105-108 | replacing one question changes the unanswered count by exactly what the old and the new question contribute |
| QuizView.AllUnansweredCount | app/user/quiz/_components/quiz-question-view.tsx:105-108 | when every question is unanswered the count is the number of questions |
| QuizView.LoadedAllUnanswered | app/user/quiz/_components/quiz-interface.tsx:75-81 | right after loading every question counts as unanswered |
| QuizView.SaveAndNextCountsOneAnswer | app/user/quiz/_components/quiz-question-view.tsx:68-79 | answering an unanswered question with Save & Next lowers the unanswered count by exactly one |
| QuizView.OptionsMappingInvertsOptionMap | app/user/quiz/_components/quiz-interface.tsx:32-37 | the letters shown for option ids 1-4 are exactly the inverse of the importer's letter-to-id map |
| QuizView.QuizSession.constructor | app/user/quiz/_components/quiz-interface.tsx:61-82 | the component starts on the loaded quiz: first question, nothing selected, empty answers map |
| QuizView.QuizSession.SaveCurrentQuestionState | app/user/quiz/_components/quiz-question-view.tsx:36-51 | the questions become the render's list with the question on screen saved, and the answers map is updated functionally from its latest value |
| QuizView.QuizSession.HandleNavigation | app/user/quiz/_components/quiz-question-view.tsx:53-66 | inside the list the state becomes the navigated render; outside it nothing changes |
| QuizView.QuizSession.HandleSaveAndNext | app/user/quiz/_components/quiz-question-view.tsx:68-79 | warns exactly when nothing is selected and leaves the state Save & Next prescribes |
| QuizView.QuizSession.HandleClear | app/user/quiz/_components/quiz-question-view.tsx:81-96 | leaves the cleared state |
| QuizView.QuizSession.HandleMarkForReview | app/user/quiz/_components/quiz-question-view.tsx:98-103 | leaves the state of mark for review as written, where the navigation's save replaces the mark |
| QuizView.QuizSession.HandleMarkForReviewIntended | app/user/quiz/_components/quiz-question-view.tsx:98-103 | leaves the state of mark for review as intended |
| QuizView.QuizSession.SelectAnswer | app/user/quiz/_components/quiz-question-view.tsx:151-154 | only the selection changes |
| QuizView.QuizSession.JumpTo | app/user/quiz/_components/quiz-interface.tsx:151-153 | only the index changes |
| QuizView.QuizSession.JumpToIntended | app/user/quiz/_components/quiz-interface.tsx:151-153 | the index changes and the target's stored answer is selected |
| CareerGuidance.Lookup | actions/career-guidance.ts:69 | a table entry counts exactly when it is present and non-empty, and then it is the entry's value |
| CareerGuidance.MapKey | actions/career-guidance.ts:15-25 | a known subject key is replaced by its configuration key; an unknown one passes through unchanged |
| CareerGuidance.MappedSubjects | actions/career-guidance.ts:49-51 | the selection is mapped key by key, keeping its length and order |
| CareerGuidance.StrLeIsTotalOrder | actions/career-guidance.ts:63 | the string order the default sort uses is total, transitive and antisymmetric |
| CareerGuidance.CombinedKey | actions/career-guidance.ts:63-64 | the sorted, comma-joined key: empty for no subject and the subject itself for one |
| CareerGuidance.CombinedKeyIgnoresOrder | actions/career-guidance.ts:63-64 | selections holding the same subjects in any order produce the same combined key |
| CareerGuidance.CombinationFoundInAnyOrder | actions/career-guidance.ts:49-69 | selections holding the same subjects in any order find the same combined analysis, or none |
| CareerGuidance.MappedPreservesMultiset | actions/career-guidance.ts:49-51 | mapping two selections with the same subjects gives mapped lists with the same subjects |
| CareerGuidance.DisplayNames | actions/career-guidance.ts:81-83 | each subject's header name is its display name, or the key itself when none is configured |
| CareerGuidance.Header | actions/career-guidance.ts:86-94 | the header is non-empty and starts with a Markdown heading mark |
| CareerGuidance.Piece | actions/career-guidance.ts:97-112 | a subject without a single analysis adds nothing; one whose file cannot be read fails the whole guidance, and only then |
| CareerGuidance.AndThen | actions/career-guidance.ts:111 | appending succeeds exactly when both parts are present, and then is their concatenation |
| CareerGuidance.AndThenAssociative | actions/career-guidance.ts:97-112 | appending pieces one by one does not depend on the grouping |
| CareerGuidance.SectionsSkipAbsent | actions/career-guidance.ts:98 | subjects none of which has a single analysis contribute no text |
| CareerGuidance.Sections | actions/career-guidance.ts:97-112 | the per-subject text fails exactly when some selected subject names an analysis file that cannot be read |
| CareerGuidance.SectionsConcat | actions/career-guidance.ts:97-112 | the text for a selection is the text for its first part followed by the text for the rest, in selection order |
| CareerGuidance.NoneStaysNone | actions/career-guidance.ts:97-122 | once a file cannot be read the whole guidance fails, whatever follows |
| CareerGuidance.AppendSections | actions/career-guidance.ts:97-113 | the per-subject loop yields exactly the ordered concatenation of the pieces, or the failure of the first unreadable file |
| CareerGuidance.Assembled | actions/career-guidance.ts:80-118 | the assembled guidance is never empty, and is the error message when a named analysis file cannot be read |
| CareerGuidance.Assemble | actions/career-guidance.ts:80-118 | the assembled text is the header (several subjects only) followed by the pieces, the fallback message when that is empty, or the error message when a file cannot be read |
| CareerGuidance.ForSubjects | actions/career-guidance.ts:66-118 | a combination named by the sorted key gives its file's text, or the error message when the file cannot be read; otherwise the assembled guidance, never empty |
| CareerGuidance.Guidance | actions/career-guidance.ts:30-124 | no cookie, a falsy-length value or an empty list gives the no-subjects message; a malformed cookie or an unreadable configuration the error message; otherwise the guidance for the mapped subjects |
| CareerGuidance.GetCareerGuidance | actions/career-guidance.ts:30-124 | the guidance for a cookie, a configuration and the analysis files: the no-subjects message, the error message, an exact combination's file, or the assembled analyses |
| CareerGuidance.NoSelectionMessage | actions/career-guidance.ts:36-46 | a missing cookie and an empty list both give the no-subjects message, whatever the configuration |
| CareerGuidance.ExactCombinationReturnsItsFile | actions/career-guidance.ts:63-77 | when the sorted mapped subjects name a combined analysis, that file's text alone is returned |
| CareerGuidance.OneSubjectHasNoHeader | actions/career-guidance.ts:86-118 | a single subject gets its analysis without header or separator, the fallback message when it has none or the file is empty, and the error message when the file cannot be read |
| CareerGuidance.SeveralSubjectsStartWithHeader | actions/career-guidance.ts:86-113 | several subjects without a combination get the header followed by their pieces |
| CareerGuidance.AssembledWithHeader | actions/career-guidance.ts:86-118 | with several subjects whose files are all readable the fallback message is never chosen: the text is the header and the pieces |
| CareerGuidance.SeveralSubjectsWithoutAnalysesShowOnlyHeader | actions/career-guidance.ts:86-118 | several subjects none of which has an analysis give the header alone, not the fallback message |
| S3.SkipSpaces | lib/s3.ts:92 | the result is a suffix of the input that starts with no whitespace |
| S3.Hyphenate | lib/s3.ts:92 | replacing whitespace runs leaves no whitespace in the result |
| S3.HyphenateSpaceFree | lib/s3.ts:92 | text without whitespace is left unchanged |
| S3.HyphenateIdempotent | lib/s3.ts:92 | hyphenating twice gives the same as hyphenating once |
| S3.RunsCollapse | lib/s3.ts:92 | a whitespace run gives one hyphen however long it is: doubling a whitespace character anywhere changes nothing |
| S3.TypeSegment | lib/s3.ts:90-92 | the type segment holds no whitespace and no upper-case letter |
| S3.HyphenateKeepsLower | lib/s3.ts:90-92 | hyphenating lower-case text introduces no upper-case letter |
| S3.KeyPrefix | lib/s3.ts:90 | every key starts with "documents/" |
| S3.GenerateS3Key | lib/s3.ts:84-93 | every key starts with "documents/" and ends with "." and the file extension |
| S3.KeysDifferInTime | lib/s3.ts:84-93 | two keys for the same user, type and extension are equal only when their timestamps are |
| S3.FileUrl | lib/s3.ts:45-51 | the URL is the CDN origin and the key when a CDN origin is set, otherwise endpoint, bucket and key |
| S3.FileUrlEndsWithKey | lib/s3.ts:45-51 | every returned URL ends with a slash followed by the key |
| S3.UploadToS3 | lib/s3.ts:28-56 | the upload succeeds exactly when the put succeeded, returning the file's URL, and otherwise fails with the fixed message |
| Upload.AfterLastDot | actions/upload.ts:38 | the result is a dot-free suffix of the name, preceded by a dot whenever it is shorter than the name |
| Upload.ContainsDot | actions/upload.ts:38 | the name contains "." exactly when one of its characters is a dot |
| Upload.AfterLastDotSkipsDot | actions/upload.ts:38 | everything up to and including a dot is irrelevant to the text after the last dot |
| Upload.LastPieceIsAfterLastDot | actions/upload.ts:38 | the last piece of splitting the name at dots is the text after its last dot |
| Upload.Extension | actions/upload.ts:37-42 | the last piece of the name split on "." is the text after the last dot, lower-cased |
| Upload.ExtensionIsAfterLastDot | actions/upload.ts:37-42 | the extension is the lower-cased text after the last dot; it holds no dot, is empty exactly when the name is empty or ends in a dot, and a dot-free name is all extension |
| Upload.Classify | actions/upload.ts:55-73 | every document type is given one of the five category keys |
| Upload.ClassifyIsFirstMatch | actions/upload.ts:55-73 | the category is that of the first rule (aadhar, 10th, 12th, photo) one of whose keywords the lower-cased type contains, else "other"; the exact "profile photo" test adds nothing |
| Upload.ProfilePhotoMentionsPhoto | actions/upload.ts:69-70 | "profile photo" already contains "photo" |
| Upload.UploadDocument | actions/upload.ts:11-110 | a success always comes with an inserted row and no database error; a row is only written after the file was stored, with both review flags cleared; the reported info says uploaded, not verified, not rejected, at the returned URL |
| Upload.UploadInputChecks | actions/upload.ts:14-42 | a missing session, a zero user id, a missing file, a missing or empty document type and an empty extension each fail with their own message, in that order, and nothing is stored or inserted |
| Upload.UploadSuccessRecordsDocument | actions/upload.ts:49-105 | a successful upload stored the file under the generated key, returns its URL, and inserts and reports the classified type, the file name, size and MIME type with both review flags cleared |
| Upload.InsertFailureLeavesStoredFile | actions/upload.ts:52-108 | when the database refuses the row after the file was stored, the action reports the database error though the file remains in storage |
| Sorting.SortBy | actions/quiz.ts:679 | the sort keeps the length and is a permutation of its input |
| Sorting.SortBySorted | actions/quiz.ts:679 | under a total preorder the sort's output is ordered |
| Sorting.SortByStable | actions/quiz.ts:679 | the sort is stable: elements the order does not separate keep their input order, as a JavaScript array sort does |
| Sorting.SortByPermutationInvariant | actions/career-guidance.ts:63 | under an antisymmetric total order the sorted result depends only on which elements the input holds |
| Text.Trim | actions/question.ts:31 | the result is the slice of the input left after removing its leading and its trailing white space, and itself neither starts nor ends with white space |
| Text.TrimIdempotent | actions/question.ts:31 | trimming twice is trimming once |
| Text.ToLower | actions/question.ts:31 | lower-casing keeps the length and lower-cases each ASCII capital in place |
| Text.IndexOf | lib/utils/question-parser.ts:22 | the result is the first position at which the separator occurs, and there is none exactly when the text does not contain it |
| Text.Split | lib/utils/question-parser.ts:22 | a split always yields at least one piece |
| Text.JoinSplit | lib/utils/question-parser.ts:22 | joining the pieces of a split with the separator gives back the original text |
| Text.SplitPiecesAreSeparatorFree | lib/utils/question-parser.ts:22 | no piece of a split contains the separator |

## Left out

- Input and output: the database (MongoDB, Postgres through drizzle), the object store, the JWT library, password hashing, e-mail, cookies, HTTP requests and file reads are not modelled; each appears as a parameter holding its reply (rows, success flags, error text, a verification function) or as a map of files.
- Concurrency: asyncio and aiohttp tasks, `as_completed` and progress bars; each load-test phase runs its operations one after the other.
- Clocks and randomness: `Date.now()`, `time.time()`, `random` and `Math.random()` are parameters (timestamps, latencies, sequences of draws); `Math.floor(Math.random() * (i + 1))` is modelled as a draw modulo `i + 1`, and `randbelow(m)` as a draw modulo `m`.
- React rendering, toasts, dialogs, routing, `useEffect` timers, `beforeunload` warnings and `FileReader` previews; only the state each handler leaves is modelled.
- Plotting, CSV output and printing in the load-test scripts, and `toFixed` display formatting.
- The Next.js `config.matcher` that selects which paths the middleware runs on; the guard is modelled for every path it is given.
- `getQuestionById`, `deleteQuestion` and the quiz-settings actions in `actions/quiz.ts` and `actions/question.ts`, `getAdminData` and `getSuperAdminData` in `lib/dal.ts`, and `getUserDocuments` in `actions/upload.ts`: data fetches with no rule beyond the role checks already modelled. Of `getAllQuestions` and `getAllQuestionsWithAnswers` only the option formatting is modelled (`QuestionActions.ListOptions`, `QuestionActions.FormatOptions`).
- The quiz screen's `handleSubmit`: it only asks for confirmation and shows a toast (the submission itself is a placeholder); the unanswered count it shows is modelled.
- `refreshData` and the status badge of the verification list, the tab routing and role redirect of the document-upload page: display and navigation only.
- The upload card's interval and toasts: the timer is reduced to the number of ticks before the reply, and `handleUpload`'s final state is stated for each reply.
- Integer widths: JavaScript numbers and Python integers are modelled as unbounded integers; response times in float seconds are modelled as whole milliseconds, and means and medians as exact rationals.
- DocumentUploadPage.RoundedPercent: `Math.round` on a floating-point quotient is modelled on the exact fraction, so a quotient whose float is off by one unit in the last place may round differently in the browser.
- QuizActions.EntryFor: the accuracy is the exact percentage, not rounded to two decimals as the leaderboard displays it.
- UserSubmissions.RowsAreSortedMatches: the table's comparator never returns 0, so the order the browser gives to tied rows is not specified by the code; the model uses a stable sort by the same column and direction and proves only the ordering and that the rows are the filtered entries.
- LoadAnalysis.Analyze: results arrive in completion order in the scripts and in selection order in the model; the statistics are proved not to depend on the order (`AnalyzeOrderIndependent`). The table is the one `groupby` builds once the level column exists; the KeyError raised without that column is modelled by `AnalyzeResults`.
- Text.ToLower: lower-cases only the ASCII capitals A to Z, and works on code points; JavaScript's `toLowerCase` also maps non-ASCII capitals ("Ä" to "ä") and strings are UTF-16, so "Äpfel" and "äpfel" count as different here but equal in the browser. Every comparison that folds case inherits this: `QuizActions.NormalisedValues`, `QuestionActions.NormalisedTexts`, `UserSubmissions.Filtered`, `DocumentVerification.ListedIff`, `FileUpload.CheckFile`, `Upload.Classify`, `Upload.ExtensionIsAfterLastDot` and `S3.TypeSegment`.
- QuestionParser.SubjectSlug: built on the ASCII-only `Text.ToLower` and on code points, so a non-ASCII capital becomes a dash rather than its lower-case letter, and a character outside the Basic Multilingual Plane ("😀", two UTF-16 code units) gives one dash where the browser gives two.
- CareerGuidance.GetCareerGuidance: the cookie's `decodeURIComponent` and `JSON.parse` are not modelled; which parsed values count as no selection, as an error or as a subject list is stated on the `Cookie` datatype and taken as an input, and a list holding non-strings is not modelled.
- Text.StrLe: compares code points where JavaScript compares UTF-16 code units; the orders differ only between a character above U+FFFF and one in U+E000..U+FFFF, which affects the career-guidance sort by combined key (`CareerGuidance.StrLeIsTotalOrder`) only for such subject names.
- DirectLoadTest.SubmissionStore.InsertMany: the insert's reply is an input; pymongo raises on an empty batch, so with an empty question pool every submission fails in the script, while the model reports whatever reply it is given.
- PyRandom.Sample: models CPython's pool algorithm; for populations large relative to the sample CPython uses a rejection set, which draws differently but also returns distinct members.
- Behaviour kept as written and stated by lemmas rather than corrected: several subjects none of which has an analysis show only the career-guidance header, never the fallback message (`CareerGuidance.SeveralSubjectsWithoutAnalysesShowOnlyHeader`); a separator for a subject without a display name reads "undefined"; a database insert failure after a successful upload leaves the file in storage (`Upload.InsertFailureLeavesStoredFile`); with no images the carousel's auto-slide index grows without bound (`Carousel.NextWithoutImagesDrifts`); a negative typed time limit is accepted; the verification list ignores the type filter when the status filter is "all" (`DocumentVerification.TypeFilterIgnoredForAllStatuses`); approving a document keeps an earlier rejection reason (`DocumentVerification.ApprovalKeepsRejectionReason`); the upload page's `marksheet11` document is classified "other" by the upload action.

## Findings

| source | as written | input that shows it | evidently intended | confidence | as-written member | corrected member |
|---|---|---|---|---|---|---|
| lib/utils/question-parser.ts:44-63 | the option pattern is tried on every line, so the answer line `**Answer:** B) text` also adds an option | a section with four options and the answer line `**Answer:** B) Paris` | the answer line sets the correct option and adds no option, so the question is kept with four options | high, not executed | QuestionParser.AnswerLineMakesFiveOptions | QuestionParser.IntendedAnswerLineKeepsOptions |
| lib/dal.ts:80-88 | `verifyAuth('user')` already refuses every other role, so the admin and super-admin exceptions after it can never apply | an admin asking for user 7's data | staff may read any user's data and a user only their own | medium, not executed | Dal.GetUserDataRefusesAdmins | Dal.GetUserDataIntendedAccess |
| app/user/quiz/_components/quiz-question-view.tsx:98-103 | the mark is saved, then the navigation saves again from the same render's list, replacing the mark | marking question 1 of 2 for review | the question keeps the marked-review or answered-marked status and the next question is shown | high, not executed | QuizView.MarkForReviewIsPlainNavigation | QuizView.MarkForReviewIntendedKeepsMark |
| app/user/document-upload/page.tsx:144-149 | each card's handler spreads the `documentStatus` captured when the page rendered, and the upload card calls it 500 ms after the upload returns, so the handler of a second upload started before the first one's report arrived writes over that report | start the photo upload, then the Aadhar upload completes, then the photo upload completes | each report is merged into the latest status with a functional update, so both documents show as uploaded | medium, not executed | DocumentUploadPage.LostUploadAsWritten | DocumentUploadPage.BothUploadsKept |
| app/user/quiz/_components/quiz-interface.tsx:151-153 | a palette click changes only the index, so the previous question's selection stays selected | from an unanswered question, jump to one answered "B" and press Next | the target's stored answer is selected, as navigation does | high, not executed | QuizView.PaletteJumpLeavesStaleAnswer | QuizView.JumpedIntendedKeepsConsistent |
