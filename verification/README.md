# Verification of the sync, library and parsing logic

This project models the parts of the repository where a mistake would lose posts or files without anybody noticing,
and proves what they are meant to guarantee.

* **The sync watermark protocol.** `Protocol` is a step system with the lock granularity of the orchestrator: callers
  of StartScrape, the job channel, eight workers, the slot counter, cancels, log lines, restarts, renames, full-resync
  marks, the stored rows and a crash that may come at any step. `Invariants` holds the inductive invariant, `Safety`
  what it says about whole runs, `Drain` that no run gets stuck, `Restart` which starts would break the invariant,
  `Watermarks` what the watermark of a target is at every moment, `Cancels` whom a cancel reaches, `Breaker` what an
  expired session stops. `Orchestration.Orchestrator` is the class with the locked sections as methods; each is proved
  to make exactly the step of `Protocol` that bears its name. `Twitter` and `Pool` model one scrape, and `NoGap` runs
  them beside the protocol: over whole runs no tweet dated before a watermark was skipped.
* **The Instagram scrape.** `Instagram` models the paged scan with its three-in-a-row stop, `IgIndex` the file index
  that names downloads and adopts legacy videos.
* **The library migrations.** `IgMigration` (names by media id, duplicates moved aside) and `TikTok` (canonical names,
  archive seeding) work on a folder as a map from names to contents; a ghost map follows every file.
* **Formats.** `Integrity` is the ISO box walk (section 4.2 of ISO/IEC 14496-12) in wrapping 64-bit arithmetic;
  `Cookies` and `CookieEdit` are the Netscape cookie printer, parser and line editor.
* **Loops with exact specifications.** `Timeline` (pages, retries, pauses), `Gallery` (layered caches) and `Download`
  (concurrent downloads to one path, with crashes).

`Basics`, `Text` and `IgFiles` hold what these share.

## Assumptions

* Clocks never go backwards. Times are natural numbers of nanoseconds; 0 is Go's zero time.
* A worker may receive any job in the channel, not only the oldest: more runs than the program has, so what is proved
  holds for it too. The atomic tallies of the pool do not overflow.
* *Restart hypothesis*: a target cancelled while queued is not started again until its old job is discarded.
  `Restart.RestartLeaksExactly`: in every state of a run, a start that is not refused can be followed by a leaked
  watermark exactly when it breaks the hypothesis. While the limit is one the hypothesis is not needed for safe
  watermarks (`Restart.OneSlotNeverLeaks`).
* Writes of the full-resync setting succeed. Runs of the protocol remove no account. A rename is one guarded step: the
  target is not active, was not cancelled while queued, and no late "queued" write of either handle is pending.
* For the no-gap theorem: settings are fixed, a tweet is dated by the millisecond in which it appears and is never
  deleted, a scrape that succeeds takes a millisecond or more, and its timeline is newest first and lists the eligible
  tweets with media that are dated between the job's watermark and the start of the scrape. It met neither the post
  cap nor the end of what the timeline serves.
* The calendar text of a date is any string of 20 characters without a dot that ends in an underscore. URL parsing is
  an arbitrary function from urls to base names. Lower-casing covers ASCII.

Where code and comments differ, the model follows the code:

* `internal/orchestrator/orchestrator.go:593-596` clears a full-resync mark after any forced run, also one that began
  before the mark was set. `Safety.MarkCanBeLostExactly` says when, `Safety.QuietMarkIsHonoured` what does hold.
* `internal/orchestrator/orchestrator.go:505-520` shows a target as running before its cancel function is registered; a
  cancel in between changes nothing (`Cancels.CancelReachesExactly`).
* `internal/scraper/twitter.go:174-178` queues a photo without a url as the bare query of the large form, where videos
  and gifs without a url are skipped (`Twitter.MediaIsExact`).
* `internal/download/file.go:77-81` skips the length check when the answer declares no length or the temporary file
  cannot be inspected (`Download.UncomparedSizeCommitsAShortBody` shows both;
  `Download.DestinationIsWhole` is exact).
* `internal/download/integrity.go:24-57` is meant to catch truncated downloads. A stub of one to seven bytes passes as
  a file of unknown format, and a cut on a box boundary behind moov passes too (`Integrity.TruncatedDownloadIsCaught`).
* `internal/store/migration_legacy_tokens.go:124-131` takes a commented line, or one of another site, for the cookie it
  looks for, and then adds none (`CookieEdit.CommentedLineIsUnseen`; `CookieEdit.EditTakesEffectExactly` is exact).
* `internal/scraper/igmigrate.go:32` promises the accounts whose files changed, but
  `internal/scraper/igmigrate.go:109-121` counts a rename only when the row's url changes too.
  `IgMigration.RenameGoesUncounted` is an input; which posts are renamed uncounted (`IgMigration.Library.MigratePost`)
  and which tidy libraries go unreported though a file was renamed (`IgMigration.RunReports`) is stated exactly.
* `internal/scraper/instagram.go:173-196` also stops at three *existing* posts, so an incremental run promises nothing
  about the posts after them. `Instagram.ReachedExactly` and `Instagram.SuccessIsExact` say exactly what it fetched.

## Model

| member | source | states |
|---|---|---|
| Invariants.Preserved | internal/orchestrator/orchestrator.go:266-619 | every step of every goroutine, a crash included, keeps the protocol's invariant: safe watermarks, one live job a target, statuses that match it, exact slots, one Twitter run, saved marks |
| Safety.WatermarksNeverLeak | internal/orchestrator/orchestrator.go:436-452 | in every run, at every moment, the watermark of a target that is not running, of every live job and of every stored row is zero, was recorded before, or is the start of a run of that very target that succeeded, followed through renames |
| Safety.StatusIsExact | internal/orchestrator/orchestrator.go:455-509 | at most one worker is inside runScrape for a target; "running" holds exactly when one is, "queued" exactly when its job waits and was not dropped |
| Safety.SlotsAreExact | internal/orchestrator/orchestrator.go:470-485 | the counter equals the workers between acquire and release, never passes eight or the largest limit so far, and one Twitter scrape executes at a time |
| Safety.MarksAreKept | internal/orchestrator/orchestrator.go:881-911 | in every run the stored marks equal the marks, and a mark disappears only with a forced run that succeeded or by following a rename |
| Safety.LaterJobsAreForced | internal/orchestrator/orchestrator.go:408-431 | while a mark is pending every job made for the target is forced and carries a zero watermark |
| Safety.QuietMarkIsHonoured | internal/orchestrator/orchestrator.go:593-596 | a mark set while no forced run of the target was mid-scrape is cleared only by a run whose scrape began after it |
| Safety.MarkCanBeLostExactly | internal/orchestrator/orchestrator.go:593-596 | a pending mark can be cleared by a scrape that began before it exactly when a forced run of the target is mid-scrape: scraping, or returned with success and not yet published |
| Restart.RestartLeaksExactly | internal/orchestrator/orchestrator.go:396-513 | in every state of a run, starting a target can be followed by a stored watermark that no scrape earned exactly when the start is not refused and the target was cancelled while queued and its old job still waits |
| Restart.RestartLeaks | internal/orchestrator/orchestrator.go:498-513 | after such a restart the stored watermark can become any time from now on without a scrape of the target succeeding, however busy the workers are |
| Restart.OneSlotNeverLeaks | internal/orchestrator/orchestrator.go:470-513 | in runs whose limit never exceeds one every watermark is safe, restarts of dropped targets included |
| Drain.RunOut | internal/orchestrator/orchestrator.go:455-619 | a job that has what it waits for can be run to its end by its own steps, leaving all other jobs and targets as they were |
| Drain.NothingIsStuck | internal/orchestrator/orchestrator.go:396-619 | from every state of a run, permitted steps lead to a state with no job left, once the limit is raised to eight: no worker, slot or lock deadlocks |
| Watermarks.WatermarkIsEarned | internal/orchestrator/orchestrator.go:396-605 | at every moment of every run the watermark of a target that is not running equals what it has earned: the start of its last successful run since it was loaded, or what it was loaded with; live jobs ask for what is newer, and a failing run puts it back |
| Watermarks.SuccessAdvances | internal/orchestrator/orchestrator.go:576-592 | a success publishes its start, and the target keeps it until its next success, a rename or the death of the process |
| Watermarks.FinishPublishes | internal/orchestrator/orchestrator.go:576-605 | the values a result leaves: start and completed on success; the old watermark, idle if cancelled and failed otherwise, on failure; the row the same if the write works; the mark, and nobody else |
| Watermarks.RowComesToHold | internal/orchestrator/orchestrator.go:266-605 | each step leaves a stored watermark as it was, or at what the target has earned, or zero for a new or cleared row, or as a late write or a rename brings it |
| Watermarks.StartIsRefusedExactly | internal/orchestrator/orchestrator.go:396-412 | a start is refused exactly when the target is queued or running or its platform is blocked |
| Watermarks.StartQueuesTheWatermark | internal/orchestrator/orchestrator.go:408-449 | an accepted start queues a job with the watermark, forced and without one for a forced start, a backfill or a mark |
| Watermarks.LoadedFromItsRow | internal/orchestrator/orchestrator.go:266-299 | a target loaded anew takes its stored watermark, and a status left by a dead process becomes idle |
| Cancels.RunsStayInReach | internal/orchestrator/orchestrator.go:519-577 | in every state of every run, each run between the registration of its cancel function and its result is in reach of a cancel or was reached by one: no function is overwritten or lost |
| Cancels.CancelReachesExactly | internal/orchestrator/orchestrator.go:691-743 | a cancel reaches exactly the named runs that have registered; one that has set "running" and not registered yet is missed, in every state of every run |
| Cancels.ReachedForGood | internal/orchestrator/orchestrator.go:712-743 | a run once reached stays so until the process dies, and is cancelled when its function is called |
| Cancels.ReachedByRequest | internal/orchestrator/orchestrator.go:691-743 | no run is ended unless some step asked to cancel its target while it could hear |
| Cancels.IdleMeansCancelled | internal/orchestrator/orchestrator.go:576-586 | a failing run leaves its target idle instead of failed exactly when it was cancelled, and then somebody had asked for it |
| Breaker.TripIsExact | internal/orchestrator/orchestrator.go:567-574 | an expired session of Instagram or Twitter blocks that platform for six hours; no other result blocks anything |
| Breaker.FlaggedPlatformRests | internal/orchestrator/orchestrator.go:396-412 | for six hours after that no start on the platform makes a job, unless the session is saved anew or the process dies |
| Breaker.BlockComesFrom | internal/orchestrator/orchestrator.go:567-574 | whatever blocks a platform was an expired session of that platform, six hours before the block ends |
| Breaker.ResetLetsStart | internal/orchestrator/orchestrator.go:914-919 | saving the session anew lifts every block: an inactive target can be started |
| Restart.FreshProcessLeaks | internal/orchestrator/orchestrator.go:396-513 | a concrete process where start, cancel, start leads there |
| Orchestration.Orchestrator.SyncTargets | internal/orchestrator/orchestrator.go:266-299 | the targets become those of the accounts: known ones keep their state, new ones are loaded, missing ones dropped, stale stored statuses reset, whatever reads and writes fail; the protocol's step when none is dropped |
| Orchestration.Orchestrator.StartScrape | internal/orchestrator/orchestrator.go:396-449 | refuses active or blocked targets, otherwise queues a job with the watermark, or none for a forced or marked target |
| Orchestration.Orchestrator.Recheck | internal/orchestrator/orchestrator.go:458-464 | the re-check skips exactly the jobs whose target is gone or no longer queued |
| Orchestration.Orchestrator.EnterRun | internal/orchestrator/orchestrator.go:498-509 | sets "running" without looking at the status again and remembers the watermark it found |
| Orchestration.Orchestrator.FinishRun | internal/orchestrator/orchestrator.go:576-605 | publishes a result: success leaves the run's start as watermark in memory and, if the write works, in the row; failure leaves the old watermark, idle if cancelled and failed otherwise; a forced success clears the mark; no other target changes |
| Orchestration.Orchestrator.AppendTaskLog | internal/orchestrator/orchestrator.go:301-349 | a log line moves the time of the running targets it reaches and changes nothing else |
| Orchestration.Orchestrator.CancelScrape | internal/orchestrator/orchestrator.go:712-743 | dequeues every queued target of that name, leaves its job in the channel, and collects the cancel functions of running ones |
| Orchestration.Orchestrator.CancelEverything | internal/orchestrator/orchestrator.go:691-710 | cancels every run, empties the channel and makes the drained targets that were queued idle |
| Orchestration.Orchestrator.RenameTarget | internal/orchestrator/orchestrator.go:674-689 | entry and mark follow the new handle, known or not, taken or not |
| Orchestration.Orchestrator.RenameAccount | cmd/parser/accounts.go:311-359 | past the handler's checks, the row and the target together make the protocol's rename step |
| Orchestration.Orchestrator.RequestFullResync | internal/orchestrator/orchestrator.go:906-911 | sets the mark and its stored copy |
| Twitter.JobQueue.QueueTweet | internal/scraper/twitter.go:150-186 | a job is asked for exactly when it is a non-empty wanted video or gif of the tweet, or a wanted photo in its large form, with the tweet's id, date and kind; each url once over the whole scrape |
| Twitter.ReadTimeline | internal/scraper/twitter.go:108-212 | the loop stops where and why `Walk` says, having asked for the media of exactly the kept tweets before that |
| Twitter.StoppedAtOld | internal/scraper/twitter.go:125-131 | in a newest-first timeline all that a cleanly ended loop leaves unread is older than the cutoff |
| Twitter.CleanScrapeQueuesTheRange | internal/scraper/twitter.go:108-212 | such a loop queued every media url of every kept tweet dated at or after the cutoff |
| Twitter.OnlyTheRangeIsQueued | internal/scraper/twitter.go:108-212 | every queued item is media of a kept tweet that is not older than the cutoff |
| Twitter.FirstPerUrlIsExact | internal/scraper/twitter.go:159-171 | the queue holds each url asked for exactly once |
| Twitter.QueueScrape | internal/scraper/twitter.go:108-212 | a scrape sends the pool the media of the tweets before the stop, each url once, without the sends given up for a cancelled context |
| Twitter.MediaIsExact | internal/scraper/twitter.go:150-186 | what a tweet asks for, item by item: wanted videos and gifs with a url, wanted photos in their large form |
| Twitter.MediaInOrder | internal/scraper/twitter.go:150-186 | photos come first, then videos, then gifs, each list in its order |
| Twitter.KeptIsExact | internal/scraper/twitter.go:135-141 | a tweet is kept unless it is a retweet that is unwanted or whose text is not saved, or filters are set and none occurs in its text in whatever case |
| Twitter.Epochs | internal/scraper/twitter.go:30-37 | id 0 is dated 4 November 2010, 01:42:54.657, by the calendar of leap years |
| Twitter.SnowflakeClock | internal/scraper/twitter.go:30-37 | from there on, 2^22 ids share a millisecond |
| Twitter.WalkStopsExactly | internal/scraper/twitter.go:108-148 | the loop ends with the timeline, at an error, at the cap, or at a tweet dated before the cutoff, and says which |
| Twitter.WalkKeepsToTheCap | internal/scraper/twitter.go:143-148 | a cap lets so many kept tweets be read, and stops the loop only when they were |
| Twitter.FirstIsKept | internal/scraper/twitter.go:159-171 | of the jobs with one url the first is the one queued |
| Pool.TalliesAreExact | internal/download/pool.go:43-71 | in every interleaving of the workers, Wait's tallies count every job sent exactly once, and no failure means every job was downloaded or skipped |
| NoGap.SuccessIsClean | internal/scraper/twitter.go:215-230 | a scrape that succeeds gave up no send, so its pool had every media url of the tweets it read and settled each |
| NoGap.ReturnCovers | internal/scraper/twitter.go:108-230 | a scrape that returns success leaves every eligible tweet dated before its start downloaded or skipped |
| NoGap.NothingOldIsQueued | internal/scraper/twitter.go:108-212 | a scrape queues nothing dated before the Since bound or the job's watermark |
| NoGap.NoTweetIsSkipped | internal/orchestrator/orchestrator.go:552-592 | across any mix of successes, failures, cancels, crashes and restarts every eligible tweet dated before a Twitter target's watermark had each wanted photo, in its large form, and each wanted video and gif downloaded or skipped |
| Instagram.Best | internal/scraper/instagram.go:64-69 | the rendition picked is the first of the largest ones |
| Instagram.PostEntries | internal/scraper/instagram.go:271-301 | the entries are, in order, those of the slides of a carousel that has some and otherwise of the item: each with the url of the first largest rendition of its videos if it is one and of its images otherwise, its kind, the date, and its id or else the post's; what is left out has no url |
| Instagram.SoleVideoIsMarked | internal/scraper/instagram.go:295-299 | an entry is marked sole, and carries the post's id, exactly when it is its post's only video |
| Instagram.CheckFiles | internal/scraper/instagram.go:176-184 | a post counts as existing exactly when it has entries, all are found, and the sync is not forced |
| Instagram.Scan | internal/scraper/instagram.go:114-251 | the paged loop handles exactly the posts before the first stop (third quiet post in a row, or the cap) and queues exactly the media of those not older than the cutoff |
| Instagram.PagesDoNotMatter | internal/scraper/instagram.go:114-251 | two feeds with the same posts cut into pages differently give the same verdict and jobs |
| Instagram.JobsAreExact | internal/scraper/instagram.go:198-208 | a job is queued exactly when it is media of a post before the stop that is not older than the cutoff |
| Instagram.SuccessIsExact | internal/scraper/instagram.go:253-264 | a successful run ended at the first stop or the end of the feed, queued exactly the media asked for up to there, counted every job once, and downloaded or skipped each |
| Instagram.ReachedExactly | internal/scraper/instagram.go:173-196 | a scan without a cap reaches a post exactly when no three settled posts in a row (old, or unforced with entries and all files there) come up to it |
| Instagram.NothingIsMissedExactly | internal/scraper/instagram.go:173-196 | so it reaches every post that is not older than the cutoff exactly when none of them is hidden in that way |
| Instagram.QuietIsSettled | internal/scraper/instagram.go:173-196 | the posts the scan counts as quiet are those dated before the cutoff and, unless forced, those with entries whose files are all there |
| Instagram.CapIsExact | internal/scraper/instagram.go:184-189 | a cap bounds the posts handled that are not old; a scan that stopped had used it up or met three settled posts in a row |
| Instagram.PinnedPostsHideNothing | internal/scraper/instagram.go:191-196 | with at most two pinned posts, all that an uncapped full sync does not reach is older than the cutoff |
| Instagram.ThreePinnedPostsHideTheRest | internal/scraper/instagram.go:191-196 | three old posts at the top end the scan with nothing queued, and it succeeds |
| IgFiles.LegacyVideos | internal/scraper/instagram.go:414-427 | exactly the CDN-token videos of a date, each once, oldest first with ties broken by name, whatever order the names come in |
| IgFiles.LegacyIsExact | internal/scraper/instagram.go:414-427 | the legacy videos of a date are the names made of its prefix, a token that is no number, and .mp4 |
| IgFiles.NewestIsExact | internal/scraper/instagram.go:414-427 | none is younger than the newest, and of the same age none has a later name, byte by byte |
| IgIndex.SoleVideoHasItsMigratedName | internal/scraper/instagram.go:328-349 | a sync names a post's only video as the migration does |
| IgIndex.VideoNamesDiffer | internal/scraper/instagram.go:328-349 | videos with different media ids never share a name |
| IgIndex.FileNameIsExact | internal/scraper/instagram.go:328-349 | a video with an id is named by it, anything else by the last segment of its url or else its id, with .mp4 or .jpg unless it has an extension |
| IgIndex.FileIndex.AdoptLegacyVideo | internal/scraper/instagram.go:390-410 | at most one file changes its name: the newest legacy video of the date, to a name the index did not hold; it fails only if there is none or the rename fails |
| IgIndex.FileIndex.Exists | internal/scraper/instagram.go:363-388 | the answer is yes exactly when the index afterwards holds the entry's name, or a file whose name contains its base name or media id; adopts only for a sole video that was not there |
| IgIndex.AskTwice | internal/scraper/instagram.go:363-410 | what was found once is found again and moves nothing the second time |
| IgIndex.CheckPost | internal/scraper/instagram.go:176-184 | the check of a post's files put to a real index gives the scan's verdict, and what it reports missing is not in the index afterwards |
| IgMigration.ResolveAll | internal/scraper/igmigrate.go:85-90 | each row gets a file its url means, or nothing exactly when there is none |
| IgMigration.PairUp | internal/scraper/igmigrate.go:91-101 | the newest legacy video for a lone row, one each in order of age when there are as many as rows, none otherwise |
| IgMigration.Library.Rename | internal/scraper/igmigrate.go:174-184 | a rename to a free name loses and doubles no file |
| IgMigration.Library.MigrateRow | internal/scraper/igmigrate.go:102-124 | one row: the rename, the new url and the reference it leaves, with every failure |
| IgMigration.Library.MigratePost | internal/scraper/igmigrate.go:75-125 | one post: its lone video renamed if its name is free, its rows repointed, and what they now mean; with every operation working, a file is renamed and nothing counted exactly when it is to be renamed and its row has the canonical url already |
| IgMigration.RenameIsDecided | internal/scraper/igmigrate.go:80-111 | whether a post's file is renamed is settled by the folder before: a lone video with a match or a legacy copy whose own name is free, whichever match is taken |
| IgMigration.Library.MoveDuplicates | internal/scraper/igmigrate.go:127-152 | moved aside are only, and without failures all, unreferenced legacy videos that share their date with a referenced file |
| IgMigration.Library.Migrate | internal/scraper/igmigrate.go:56-154 | in any library, whatever fails: files are conserved, no file a row resolved to is moved aside, each moved one has such a file of its date, kept unless a rename took its name; the counters tell exactly whether rows changed or files moved aside. In a tidy library every file that a row now means stays; without failures nothing is left to do, nothing is done when there was nothing to do, and what is counted and what goes uncounted is exact |
| IgMigration.RunReports | internal/scraper/igmigrate.go:32-54 | of a run that counted nothing: a file was renamed only if some post's was to be and its row had the canonical url; in a tidy library without failures nothing is counted exactly when every post is quiet, and files change uncounted exactly when, besides, one is silent, both read off the folder before |
| IgMigration.QuietRun | internal/scraper/igmigrate.go:75-152 | in a tidy library without failures no row changes and nothing is moved aside exactly when every post keeps its urls and leaves no legacy video of its date, by the folder before |
| IgMigration.CopyIsRenamedSilently | internal/scraper/igmigrate.go:109-121 | a legacy video whose row has the canonical url makes such a library |
| IgMigration.RenameGoesUncounted | internal/scraper/igmigrate.go:32-54 | the migration of that library renames its file and counts nothing |
| IgMigration.StepIsMeant | internal/scraper/igmigrate.go:75-125 | after one post, renamed or not, what its rows mean now is among what they referenced |
| IgMigration.MoveConserves | internal/scraper/igmigrate.go:143-146 | a move keeps every file under exactly one name; the one file it can cost is an earlier duplicate of the same name in the duplicates folder |
| IgMigration.TwinIsKept | internal/scraper/igmigrate.go:127-141 | a file moved aside leaves a referenced file of the same date in the folder |
| IgMigration.StaysDone | internal/scraper/igmigrate.go:74-125 | what happens to files of other dates leaves a migrated post migrated |
| IgMigration.DuplicatesGone | internal/scraper/igmigrate.go:133-152 | when all posts are done and the duplicates moved, nothing is left to do |
| IgMigration.MigrateTwice | internal/scraper/igmigrate.go:33-54 | a second run over a tidy library renames, repoints and moves nothing |
| TikTok.CanonicalIsRead | internal/scraper/ttmigrate.go:58-85 | ttVideoID undoes the canonical name, for every name it accepts |
| TikTok.CanonicalIsEligible | internal/scraper/ttmigrate.go:45-48 | a canonical name is not hidden and not in transcoding |
| TikTok.VideoIdIsExact | internal/scraper/ttmigrate.go:71-85 | an id is read from exactly the names made of a part that is empty or ends in an underscore, 15 digits or more in 64 bits, a dot and an extension, dated or not |
| TikTok.CanonicalTells | internal/scraper/ttmigrate.go:50-51 | the canonical name carries the second that the upper half of the id counts |
| TikTok.NameForIsExact | internal/scraper/ttmigrate.go:44-51 | a file gets a name exactly when it is not hidden, not in transcoding, and named by an id |
| TikTok.SameNameSameVideo | internal/scraper/ttmigrate.go:71-85 | two files ask for one name only if their id and extension agree |
| TikTok.PassRenames | internal/scraper/ttmigrate.go:44-66 | a rename settles its file and unsettles no other |
| TikTok.Folder.Normalize | internal/scraper/ttmigrate.go:38-67 | a pass loses no file and no video; what is settled when it starts is not renamed; if every rename works nothing is left to rename |
| TikTok.NormalizeAccount | internal/scraper/ttmigrate.go:38-67 | the pass with the program's own naming: every video's canonical name is taken afterwards if every rename works |
| TikTok.NormalizeTwice | internal/scraper/ttmigrate.go:38-67 | with the program's own naming, a second pass renames nothing |
| TikTok.SeedArchive | internal/scraper/ttmigrate.go:94-115 | the ids appended are exactly those of the files that the archive lacks, each once |
| Integrity.CheckIsobmff | internal/download/integrity.go:77-114 | the walk in wrapping signed 64-bit arithmetic terminates and accepts exactly the files that the walk in unbounded integers accepts |
| Integrity.NetworkOrder | internal/download/integrity.go:88-97 | box sizes are read with the first byte highest, four bytes or eight |
| Integrity.WrittenIsAccepted | internal/download/integrity.go:77-114 | a file written box by box with sizes in network order, 32-bit or 64-bit, is accepted exactly when one of the boxes is moov or none is needed |
| Integrity.CheckWritten | internal/download/integrity.go:77-114 | the same of the method |
| Integrity.JpegVerdict | internal/download/integrity.go:39-40 | a JPEG is accepted exactly when FF D9 lies in its last 4096 bytes |
| Integrity.PngVerdict | internal/download/integrity.go:41-42 | a PNG is accepted exactly when IEND stands in its last 64 bytes |
| Integrity.WebpVerdict | internal/download/integrity.go:43-49 | a WebP is accepted exactly when it has the bytes its little-endian header declares behind the first eight |
| Integrity.TruncationIsCaught | internal/download/integrity.go:77-114 | of an accepted file of explicit boxes a proper prefix is accepted exactly when it ends on a top-level box boundary and, if moov is needed, after it |
| Integrity.OpenBoxHidesTruncation | internal/download/integrity.go:94-97 | a last box of size zero reaches to the end of any prefix, so truncation inside it is not seen |
| Integrity.ExplicitIsAccepted | internal/download/integrity.go:77-114 | every well-formed file of explicit boxes, with moov if needed, is accepted |
| Integrity.TruncatedDownloadIsCaught | internal/download/integrity.go:19-57 | the verdict on every proper prefix of an explicit video or image: 1 to 7 bytes pass, 0 and 8 to 11 do not, from 12 on one passes exactly on a box boundary and, for video, after moov |
| Integrity.TruncatedWebpIsCaught | internal/download/integrity.go:19-57 | a WebP file of exactly the declared size is accepted; of its proper prefixes exactly those of 1 to 7 bytes, and of 8 to 11 unless the size field spells a box type |
| Cookies.ParseNetscape | internal/cookies/cookies.go:16-65 | the cookies of the lines in order, or the first error, or an error when there are none |
| Cookies.ParseOfLine | internal/cookies/cookies.go:18-58 | a line of six tab-free fields and a value means the cookie of those fields, whatever tabs the value holds |
| Cookies.AllLinesCount | internal/cookies/cookies.go:16-65 | an export parses exactly when none of its lines is wrong, and then to the cookies of all lines in order |
| Cookies.FirstErrorWins | internal/cookies/cookies.go:16-65 | otherwise it fails with the first line that is wrong |
| Cookies.OddLines | internal/cookies/cookies.go:18-36 | empty, quoted-empty and comment lines are passed over; any other line with fewer than seven fields is an error |
| Cookies.JSONToNetscape | internal/cookies/cookies.go:79-108 | the header and one line for each entry that has a name and a domain |
| Cookies.PrintedFields | internal/cookies/cookies.go:84-115 | a printed line field by field: the flags, the default path, the date without its fraction, and quotes for an empty value |
| Cookies.RoundTrip | internal/cookies/cookies.go:16-108 | parsing the printed text gives the printed cookies whose domain matches, in order, with the default path and the truncated expiry |
| Cookies.LineRoundTripExactly | internal/cookies/cookies.go:39-43 | a printed cookie reads back as itself exactly when its domain does not look like a comment and its value is no quote pair and ends in no carriage return |
| CookieEdit.WithCookie | internal/store/migration_legacy_tokens.go:116-135 | replaces the lines of that name, leaves them, or appends one, as the line functions say |
| CookieEdit.EditIsExact | internal/store/migration_legacy_tokens.go:116-135 | the edited export line by line: lines of that name keep their first six fields and take the value when it overrides; where there is none one secure line is added |
| CookieEdit.LineCommutes | internal/store/migration_legacy_tokens.go:122-130 | editing a line and parsing it sets the value of what parsing gave: same fields, same skip, same error |
| CookieEdit.EditCommutes | internal/store/migration_legacy_tokens.go:116-135 | parsing the edited export gives the original cookies with every value of that name replaced, or unchanged, or with one appended |
| CookieEdit.AddedCookie | internal/store/migration_legacy_tokens.go:131-133 | the appended cookie is the only one of its name |
| CookieEdit.EditTakesEffectExactly | internal/store/migration_legacy_tokens.go:116-135 | the parsed result holds the new value exactly when no line has the name and the site is not skipped, or a parsed cookie has it (and, without override, that value) |
| CookieEdit.UnseenLineKeepsTheCookieOut | internal/store/migration_legacy_tokens.go:124-131 | a line of that name that yields no cookie leaves the parsed export as it was |
| CookieEdit.CommentedLineIsUnseen | internal/store/migration_legacy_tokens.go:124-131 | a commented cookie line is such a line, for every name and value |
| CookieEdit.EditIsIdempotent | internal/store/migration_legacy_tokens.go:116-135 | applying the edit twice equals applying it once |
| Timeline.FetchPage | internal/xscraper/xscraper.go:239-279 | at most six attempts: a rate limit is always asked again, other trouble up to twice, and what the last reply was decides between page, unparsed body, expired session, too many requests and other; the pauses the client chooses double from 15 seconds, with less than half on top, and stay under 697.5 seconds in all |
| Timeline.Stream | internal/xscraper/xscraper.go:97-140 | the first max tweets of the pages concatenated, an error only at the end and only from the last page or a cancelled context, and no page fetched that is not needed |
| Timeline.StreamIsTheFeed | internal/xscraper/xscraper.go:97-140 | of a source without failures the stream is the feed up to the first empty page or cursor, cut at max |
| Gallery.BuildURLFiles | internal/gallery/index.go:172-206 | the nested loops give the url map that `Gallery.UrlMapIsExact` and `Gallery.TweetsAreExact` describe |
| Gallery.UrlMapIsExact | internal/gallery/index.go:172-206 | a url is in the map exactly when a post lists it and some file's name contains its base name; it maps to the file of that very name if there is one, and otherwise to the first that contains it |
| Gallery.TweetsAreExact | internal/gallery/index.go:198-203 | a tweet key is there exactly when a post has the id, it is not empty, and the video file exists; it maps to that file |
| Gallery.FirstContainingIsFirst | internal/gallery/index.go:190-195 | containment finds a file exactly when some name contains the base name, and then the first such |
| Gallery.ResolveIsExact | internal/gallery/index.go:187-196 | a url resolves exactly when a file's name contains its base name: to the exact name first, then to the first that contains it |
| Gallery.TextMapIsExact | internal/gallery/index.go:236-257 | a file's caption is the captions of the posts that mention it, in order and as often as they do, joined by spaces |
| Gallery.Index.URLFiles | internal/gallery/index.go:159-170 | a url map comes from files and posts no older than two lifetimes nor than the target's last Invalidate, is what the layers in view give, and leaves every other target alone |
| Gallery.Index.FilePostText | internal/gallery/index.go:223-234 | a caption map comes from files and posts no older than three lifetimes nor than the target's last Invalidate, and leaves every other target alone |
| Gallery.Index.ReadAnew | internal/gallery/index.go:150-157 | a read after Invalidate equals the uncached result, and other targets keep their caches |
| Gallery.Index.FindLocalFile | internal/gallery/index.go:216-220 | a media url resolves to the file that such a url map gives, and never to a tweet key |
| Gallery.Serve | internal/gallery/index.go:150-234 | for any sequence of reads and invalidations over any targets in the order of time, every answer keeps these age bounds and none predates its target's last Invalidate |
| Download.Preserved | internal/download/file.go:17-98 | every step of every call and every crash keeps: temporary files hold first parts of their bodies, all of it unless the copy was short; compared sizes rule that out; the path holds what its writer copied |
| Download.DestinationIsWhole | internal/download/file.go:64-97 | at every moment of every run the path is absent or holds a first part of the body that one call was answered, and the whole of it exactly when that call's copy was not both short and uncompared |
| Download.WholeIfNotCut | internal/download/file.go:73-81 | with a transport that reports declared bodies cut short, the path holds a whole body exactly when the committing call's body was not cut |
| Download.UncomparedSizeCommitsAShortBody | internal/download/file.go:77-81 | both exceptions happen: no declared length, and a temporary file that cannot be inspected |
| Download.ReturnedCallsAreClean | internal/download/file.go:38-97 | a call makes at most three requests, and one that has returned left no temporary file |
| Download.FailureChangesNothing | internal/download/file.go:17-98 | a call that returns an error changed the path at none of its steps |
| Download.DestinationStays | internal/download/file.go:17-98 | once there, the path stays there |

## Left out

- HTTP handlers, templates, JavaScript, the browser sidecar, TLS clients, query-id harvesting, yt-dlp, ffmpeg, image
  decoding and thumbnails: foreign calls and request plumbing. The preview files that follow a rename are not modelled.
- SQLite: the rows touched are maps and sequences. A media row is updated by its position; the table's key (post, url)
  makes the update hit one row, and a clash with that key is among the failures of the write.
- Aliasing of TaskProgress pointers: a run that outlives a rename is excluded, since active targets are not renamed.
- Percentages, log buffers, new-file counts, auth flags and run history of the orchestrator.
- Runs of the protocol in which an account is removed or added again, and renames to a handle that differs in case only.
- Saving post texts during scrapes: it influences neither the queue nor the verdict.
- Several processes over one folder, and names of several bytes a character where the code slices by bytes.
- Instagram.CheckFiles: the answers of the file index are an input set, and so they are in `Instagram.Scan`: workers
  change the index at the same time, so any answer is possible. `IgIndex.CheckPost` puts the check to a real index.
- A claim across runs for Instagram: an incremental run stops at three existing posts, whatever lies behind them.
- JPEG and PNG tails beyond the search for their end marker, and moving incomplete files to quarantine.
- JSON decoding, percent-encoding, float rounding (expiry dates are real numbers) and time zones.
- Concurrent builds in the gallery: a build takes no time in `Gallery.Index`, so singleflight has nothing to merge.
- The file listing order of `Gallery.Index.Get` and its skip of hidden files: the scan is an input of the world.
- os.Remove of a temporary file is taken to succeed in `Download`; a crash may leave temporary files behind.
- Log trimming, the page slicer, quiet hours and small validators: true but easy.
