# Crabforge: a verified model

Crabforge is a forge in which a transactional log is the only truth. One fenced writer
decides, every table is a fold of the log, git objects live in the log and are rebuilt
into disposable caches, and CI jobs are handed from a queue to whichever runner claims
them. This project models those four parts in Dafny and proves what they are for. Run
`dafny verify dfyconfig.toml` to check it.

## How it is laid out

Where the program computes, the model has functions and lemmas. Where it changes things
step by step, the model has classes and methods proved against those functions. Where
several processes interleave, it has a state machine whose steps any of them may take,
and theorems over every run.

**Deciding.** `Commands` holds the pure decision of each of the twelve commands: the
check, the records of one transaction, the state to remember. `Protocol` is the world
around it: instances that boot (take an epoch, replay two compacted topics in batches,
serve), begin transactions, crash, are fenced, hear that a commit happened, did not
happen, or never hear; and a compactor at work all the while. `ProtocolProofs` carries
the invariant through every step; its main theorem is that the newest instance serves
exactly the fold of the committed log. `HistoryTheorems` then says what that gives:
unique names, numbers without a gap, a reflog that agrees with the reference map, and
`MergeTheorems` what a merge is checked against and what it is not.
`Acceptance` says of the log and of the request when each command is taken, and what it
is told otherwise. `KeyedLog` is replay and compaction, `Tailing` and `Writer` are the two
ends of the bus, and `Service` is the command service itself, every method proved to do
what its decision says, and to write whenever nothing is refused.

**Projecting.** `Rows` gives what one event does to one row. `Store` is the projection
as it is performed: read, change, upsert, recount. `Replay`, `IssueReplay` and
`CiReplay` prove that replaying a whole history over its own tables changes nothing.
`MergeButton` says of the history when a request may be merged, and `StretchReplay`
when a part of it may be replayed. `Projector.dfy` is the
loop around it: a transaction holding rows and cursor, any failure, any restart.
`RowHistories` says of each column of each row which event of the history it comes from,
and `Shown` closes the circle: the rows a drained topic leaves are those of its history,
and show what the commands asked for.

**Git.** `Frame` and `Codec` are keys, frames and chunks down to the byte. `Cache` says
what a stream of records amounts to, `Hydrate` brings a folder up to date through
anything that can happen to it, `Push` and `PushOrder` put objects before references,
`RefMirror` copies references into git.

**CI.** `CiProtocol` is the hand-off as a state machine of orchestrator, queue, runners
and projector; runners claim straight in the live table, so that table is not a fold of
the log. `CiTheorems` relates it to the one a rebuild would give. `Runner` is the runner
process, each step of which is a walk of that protocol. `CiOutcomes` follows a job from
how it went, through its report, to what its run is shown as.

`Progress` says what the state machines can always go on to do: take over, commit, land a
push, run a job.

`Retry` is the connection loop.

## Where the code and its documentation differ

Each of these is a theorem about all inputs, with the failing ones among them.

- A push checks every update against the state before the push
  (crates/forge-command/src/lib.rs:434-490), so one push may create a reference twice.
  The reflog is a chain exactly when no committed push does such a thing
  (`ReflogIsAChain`).
- `merge_pull` is documented to refuse a merge if head or base has moved
  (crates/forge-command/src/pulls.rs:37-40), and compares the base only
  (`MergeTakesWhen`). What lands is what was reviewed exactly when nothing committed in
  between moved the request to another head, left it closed, or merged it
  (`MergeLandsAsReviewedWhen`); any log with a reviewed request can go on to merge it
  after all of that (`MergesWhatWasNotReviewed`).
- "Applying an event twice produces the same row"
  (crates/forge-projector/src/lib.rs:20-23) is true of one event and of a whole history.
  Of a stretch of pull-request events it is true under an exact condition
  (`StretchReplays`), which fails in two ways: the request moves to the commits of an
  answer that came early, or a merge keeps a reopening from dropping an answer.
- An issue's comment count is counted from one page of comments, so it stops at 100.
- Live runs go from queued straight to their conclusion: the claim a projector attempts
  for a start has always been taken by then.
- The chunks of an object sort by number exactly when there are at most a million
  (crates/forge-git/src/frame.rs:126-132, `ChunkKeysSort`).
- Tombstones keep a chunked object off the disk unless all of it is read after the last
  of them, and never a whole one that was read at all
  (crates/forge-git/src/cache.rs:164-169, `TombstonesKeepOff`).
- References are set before others are deleted
  (crates/forge-git/src/cache.rs:255-264), so a branch that gives way to one in its own
  directory cannot be mirrored, however often it is tried: git keeps no two such names
  (`SyncRefs`).

## Taken as given

Transactions are atomic and a read-committed fetch returns the visible records of a
stretch and where it ends. SQL statements and transactions are atomic. JSON decoding
inverts encoding, so values are typed. The hash is a function, without collisions among
the objects at hand. Ids that are minted are new. Git presents a tip that is quarantined
or already stored, and lists a merge commit among the objects the merge added. What the
network, the disk and the clock do comes in as parameters (`Net`, `Weather`, `Effect`,
budgets, paces), and every theorem holds for all of them.

## Model

| member | source | states |
|---|---|---|
| ProtocolProofs.NewestServesTheFold | crates/forge-command/src/lib.rs:159-197 | At every moment of every run of boots, fetches, compactions, commits, fencings, crashes and lost answers, the log is lawful (each committed transaction is what its command decides against the fold of all before it), both compacted topics replay to that fold, and the newest process serves exactly it |
| ProtocolProofs.OnlyTheNewestWrites | crates/forge-bus/src/writer.rs:221-240 | Whatever the broker may still commit was begun at the present epoch, by a process that is dead or the newest; what the newest has in flight is what the broker holds; and no two processes are newest |
| ProtocolProofs.StepKeeps | crates/forge-command/src/lib.rs:159-197 | Every step of every process, the broker and the compactor keeps the invariant behind the two theorems above |
| ProtocolProofs.BootKeeps | crates/forge-bus/src/writer.rs:221-240 | Taking a new epoch settles the transaction left open, either way, and demotes every other process without disturbing what any of them has read |
| ProtocolProofs.HearKeeps | crates/forge-bus/src/writer.rs:280-324 | Each answer to a commit (done, failed, fenced, none) leaves the process that hears it right about the log, or dead |
| ProtocolProofs.CompactClaimsKeeps | crates/forge-command/src/catalog.rs:67-83 | Compaction in the middle of a booting process's replay keeps the invariant |
| Progress.AnyoneCanTakeOver | crates/forge-command/src/lib.rs:159-197 | Any process that is not alive can take over at any moment, whatever is in flight, by booting and reading both topics, and then serves the fold of all that was committed |
| Progress.CommandsCanCommit | crates/forge-bus/src/writer.rs:257-303 | Whatever the newest process decides to write it can commit, and go on from there |
| Commands.RememberingIsFolding | crates/forge-command/src/lib.rs:209-354 | What each command remembers after its commit is what its records fold to, for all twelve commands |
| Commands.RefKeyInjective | crates/forge-command/src/refs.rs:25-28 | The flat string key of a reference stands for exactly one repository and name |
| Commands.KeysAreApart | crates/forge-command/src/catalog.rs:40-51 | User, repository and counter keys never coincide, and each is injective |
| Protocol.TxnSlotsFold | crates/forge-command/src/catalog.rs:67-83 | The slots a transaction leaves in each compacted topic replay to the state after it, and to nothing if it aborted |
| HistoryTheorems.UsernamesAreUnique | crates/forge-command/src/lib.rs:209-249 | Over every lawful log no two committed registrations share a lower-cased username |
| HistoryTheorems.RepoNamesAreUnique | crates/forge-command/src/lib.rs:252-311 | Over every lawful log no two committed creations share a lower-cased full name |
| HistoryTheorems.NumbersHaveNoGap | crates/forge-command/src/pulls.rs:73-120 | The numbers of a repository's issues and pull requests together, in commit order, are exactly 1, 2, 3, and so on |
| HistoryTheorems.ReflogGivesTheRefs | crates/forge-command/src/lib.rs:434-490 | For every repository and name, the last move in the reflog is the current value in the reference map |
| HistoryTheorems.PushChains | crates/forge-command/src/refs.rs:117-133 | A push checked against one pre-state extends the chain if and only if its updates to one name leave it in place until the last of them |
| HistoryTheorems.ReflogIsAChain | crates/forge-command/src/pulls.rs:201-255 | The whole reflog, from pushes and merges, is a chain if and only if every committed push is linked in that sense |
| HistoryTheorems.StoredNamesAreValid | crates/forge-command/src/refs.rs:153-165 | Every name in the reflog and in the reference map is valid, merges included, although a merge checks no name |
| HistoryTheorems.EveryRunIsConsistent | crates/forge-command/src/lib.rs:159-197 | At every moment of every run of the protocol: unique names, gapless numbers, valid names, reflog and map in agreement, and the exact condition for a chain |
| HistoryTheorems.OnePushCanCreateTwice | crates/forge-command/src/lib.rs:434-490 | A concrete push that creates one reference twice is accepted and breaks the chain |
| KeyedLog.BlankKeepsReplay | crates/forge-command/src/catalog.rs:67-83 | Blanking a superseded record, or a tombstone no reader has still to meet, leaves the rest of any replay ending in the same map |
| KeyedLog.BlankIsHarmlessWhen | crates/forge-command/src/catalog.rs:67-83 | For any log, readable or not: taking one record away leaves the replay as it was if and only if a later record of its key can be parsed, or it changed nothing when it was read |
| KeyedLog.CompactionLosesUnreadable | crates/forge-command/src/refs.rs:75-87 | Compaction does take records that fail this: an unreadable record can supersede a readable one |
| MergeTheorems.MergeTakesWhen | crates/forge-command/src/pulls.rs:201-255 | For every state and command, a merge goes through if and only if its branch is at the expected base, whatever head was expected; otherwise the answer says what was expected and where the branch is |
| MergeTheorems.SecondMergeTakesWhen | crates/forge-command/src/pulls.rs:201-255 | After a committed merge, the same request merges on the same base again if and only if the branch was moved back to that base since and not away, or the merge never moved it |
| MergeTheorems.TwoMergesMovedBack | crates/forge-command/src/pulls.rs:195-200 | Wherever a lawful log holds two such merges, the branch was moved back in between |
| MergeTheorems.MergeLandsAsReviewedWhen | crates/forge-command/src/pulls.rs:37-40 | A merge asked for on the strength of an earlier point of the log lands an open, unmerged request at the head that was reviewed if and only if nothing committed in between moved it to another head, left it closed, or merged it; the base always is the expected one |
| MergeTheorems.MergesWhatWasNotReviewed | crates/forge-command/src/pulls.rs:37-40 | Any lawful log with a request as reviewed goes on lawfully to move its head, close it, merge it all the same, and merge it again |
| MergeTheorems.ThereAreReviewedRequests | crates/forge-command/src/pulls.rs:73-120 | There are such logs |
| Tailing.Tailer.NextBatch | crates/forge-bus/src/tailer.rs:163-189 | One fetch hands over exactly the visible records it steps over and moves past the invisible ones |
| Tailing.Tailer.ReplayToEnd | crates/forge-bus/src/tailer.rs:195-218 | Every visible record from the cursor on, once and in order, however the broker cuts the fetches; it ends at the end of the log, and what it has not published is invisible |
| Tailing.Tailer.MarkApplied | crates/forge-bus/src/tailer.rs:151-160 | The published offset never goes back |
| Writer.FencedWriter.Transact | crates/forge-bus/src/writer.rs:257-303 | Said of what the broker answers: the newest writer commits if and only if beginning, every record and the commit are accepted; otherwise the first refusal is what the caller is told and nothing is visible, unless the answer to the commit was lost, which leaves the process dead and the transaction in doubt; a superseded writer is told so and writes nothing, for good |
| Writer.FencedWriter.constructor | crates/forge-bus/src/writer.rs:221-240 | Connecting takes the next epoch, once what was left open is settled |
| Writer.FencedWriter.Classify | crates/forge-bus/src/writer.rs:307-324 | A fencing error latches the writer and reads as fenced; any other passes through |
| Writer.AllOrNothing | crates/forge-bus/src/writer.rs:257-303 | Readers of every topic see all of a committed transaction's records and none of an aborted one's |
| Writer.Collect | crates/forge-bus/src/writer.rs:270-297 | The offsets reported are, per topic, the highest that was acknowledged; a refusal is reported if and only if there is one, and it is the first |
| Writer.OffsetIsTheLastRecord | crates/forge-bus/src/writer.rs:89-102 | The offset a caller is told to wait for is where its transaction's last record of that topic lies, with nothing visible after it |
| Service.CommandService.Start | crates/forge-command/src/lib.rs:159-197 | Fenced first, under a new epoch and with what was left open settled either way, then rebuilt from both topics, then serving: the memory is what the log rebuilds to |
| Service.CommandService.RegisterUser | crates/forge-command/src/lib.rs:209-249 | Does what the decision says: answers and writes nothing, or attempts one transaction and remembers only if it committed; a newest process with nothing refused carries out every decision to write |
| Service.CommandService.CreateRepo | crates/forge-command/src/lib.rs:252-311 | As above, for a repository name; if the object topic cannot be provisioned nothing is written or remembered |
| Service.CommandService.OpenIssue | crates/forge-command/src/lib.rs:320-354 | As above, taking the next number of the repository |
| Service.CommandService.OpenPull | crates/forge-command/src/pulls.rs:73-120 | As above, from the same sequence of numbers |
| Service.CommandService.CommentOnIssue | crates/forge-command/src/lib.rs:357-380 | As above, for an event that claims nothing |
| Service.CommandService.UpdateRefs | crates/forge-command/src/lib.rs:434-490 | All updates checked against one state (`PushTakesWhen` says how); all or none recorded, event and state together, and moved in memory in order |
| Service.CommandService.MergePull | crates/forge-command/src/pulls.rs:201-255 | The branch is compared with the expected base only; event, move and state in one transaction |
| Service.ReadingIsFolding | crates/forge-command/src/lib.rs:170-196 | Reading the two compacted topics one after the other gives the same state as folding the records in commit order |
| Service.MemoryFollowsTheLog | crates/forge-command/src/lib.rs:209-354 | If memory is what a restart would rebuild, it is so again after any command, whatever the network did; an indeterminate transaction means a dead process |
| Acceptance.PushTakesWhen | crates/forge-command/src/refs.rs:117-133 | A push goes through if and only if it asks for something and each update has a valid name, expects its reference where it is, and does not go from nothing to nothing; and which rejection any other update is given |
| Acceptance.PushTakesOverHistory | crates/forge-command/src/lib.rs:434-490 | The same said of any lawful log: each update must expect its reference where the last move in the reflog left it |
| Acceptance.PushMoves | crates/forge-command/src/lib.rs:434-490 | A push that goes through leaves each reference where its last update for it says, and every other where it was |
| Acceptance.RegistersWhen | crates/forge-command/src/lib.rs:209-249 | Over any lawful log, a username can be registered if and only if none registered before is the same but for the case of its letters |
| Acceptance.CreatesWhen | crates/forge-command/src/lib.rs:252-311 | Over any lawful log, a repository can be created if and only if none created before has the same owner/name but for the case of its letters |
| Acceptance.OpensWhen | crates/forge-command/src/lib.rs:102-112 | An issue is opened if and only if its title, trimmed, has one to 255 characters, and which error it is otherwise |
| Acceptance.CommentsWhen | crates/forge-command/src/lib.rs:357-380 | A comment is taken if and only if, trimmed, it has one to 65536 characters |
| Acceptance.RequestsWhen | crates/forge-command/src/pulls.rs:73-120 | A pull request needs such a title and two different branches; in that order |
| Acceptance.AnnouncesAlways | crates/forge-command/src/pulls.rs:123-190 | Commands that only announce something are always taken, claim nothing, and leave the state as it was |
| Acceptance.TakenAnswers | crates/forge-command/src/lib.rs:209-249 | A caller is told the id of what the command was about |
| Acceptance.NamesAreTakenFor | crates/forge-command/src/catalog.rs:40-65 | A name is taken for the user or repository that asked for it |
| Acceptance.TrimIsMiddle | crates/forge-command/src/lib.rs:102-112 | Trimming takes white space off both ends, all of it, and nothing else |
| Acceptance.LowerMeans | crates/forge-types/src/names.rs:69-86 | Two texts are lower-cased to the same if and only if they are equal but for the case of ASCII letters |
| Acceptance.ValidMeans | crates/forge-command/src/refs.rs:153-165 | A reference name is valid if and only if it follows the rules said character by character |
| Acceptance.PlainBranchesAreValid | crates/forge-command/src/refs.rs:153-165 | Letters, digits, hyphens and underscores make a valid branch if and only if there are at most 244 |
| Store.Tables.ApplyUserEvent | crates/forge-projector/src/apply.rs:17-68 | The upsert path ends in the row the step prescribes; no other row moves |
| Store.Tables.ApplyRepoEvent | crates/forge-projector/src/apply.rs:71-164 | The same for repositories, missing rows and ignored events included |
| Store.Tables.ApplyPrEvent | crates/forge-projector/src/apply.rs:306-480 | The same for pull requests and reviews; a check is stored only for the commits the row points at |
| Store.Tables.RecordCheck | crates/forge-store/src/pulls.rs:314-331 | Stores the check if and only if head and base are still those of the row |
| Store.Tables.ApplyIssueEvent | crates/forge-projector/src/apply.rs:171-303 | Issue row, comment row, comment count and repository counters after one event |
| Store.Tables.ClaimJob | crates/forge-store/src/ci.rs:136-153 | Takes if and only if the row exists and is queued, and then changes exactly the claim columns |
| Store.Tables.FinishJob | crates/forge-store/src/ci.rs:161-178 | Takes if and only if the attempt owns the row |
| Store.Tables.ConcludeFrom | crates/forge-events/src/domain.rs:608-623 | The loop computes the worst-job verdict; nothing cancelled reads as success |
| Store.Tables.ConcludeRun | crates/forge-projector/src/apply.rs:655-672 | No verdict until there are jobs and all have ended, then that of their conclusions |
| Store.Tables.ApplyCiEvent | crates/forge-projector/src/apply.rs:489-647 | Runs and jobs after one event, conditional updates and derived conclusions included |
| Store.OrderDoesNotMatter | crates/forge-events/src/domain.rs:608-623 | The verdict is the same for every order in which a run's jobs are read, and even with repeats |
| Replay.RowReplays | crates/forge-projector/src/lib.rs:20-23 | Any row table whose creating event resets everything but fixed columns ends where it was after a replay of its whole history |
| Replay.UsersReplay | crates/forge-projector/src/apply.rs:17-68 | Replaying a whole user history over its own rows changes nothing |
| Replay.ReposReplay | crates/forge-projector/src/apply.rs:71-164 | The same for repositories |
| Replay.PullsReplay | crates/forge-projector/src/apply.rs:306-480 | The same for pull requests and reviews |
| Replay.RowEventTwice | crates/forge-projector/src/lib.rs:20-23 | One event delivered twice in a row changes no user, repository, pull-request or review row the second time |
| StretchReplay.StretchReplays | crates/forge-projector/src/lib.rs:20-23 | Exactly when any stretch of pull-request events at all, over any row or none, can be replayed over what it left: it starts from nothing, or holds an opening, or, judged from the commits and merged flag it ends at, its last word on the trial merge is silence or what is on record already |
| StretchReplay.SameGroundReplays | crates/forge-store/src/pulls.rs:314-331 | A stretch that leaves a request between the same commits and as merged as before is harmless |
| StretchReplay.EarlyAnswerIsHeard | crates/forge-store/src/pulls.rs:314-331 | One way to fail: an answer refused when it came is accepted once the request has moved to its commits |
| StretchReplay.DroppedAnswerReturns | crates/forge-projector/src/apply.rs:306-480 | The other: a reopening that dropped an answer drops it no more once the request is merged |
| Replay.SuffixReplayDiffers | crates/forge-store/src/pulls.rs:314-331 | The first of these in terms of the rows |
| IssueReplay.IssuesReplay | crates/forge-projector/src/apply.rs:171-303 | The same for issues, comments and counters, for every history, although counts are recomputed from rows mid-replay |
| IssueReplay.IssueEventTwice | crates/forge-projector/src/apply.rs:171-303 | One issue event delivered twice in a row changes nothing the second time, on any tables |
| IssueReplay.CountersAreCounts | crates/forge-store/src/issues.rs:242-273 | After any history, replays included, each counter is the number of open or closed issue rows, if each issue's events name one repository |
| IssueReplay.CommentCountIsAPage | crates/forge-store/src/issues.rs:189-222 | Once a comment follows its latest opening, an issue's comment count is the lesser of 100 and its stored comments |
| CiReplay.CiHistoryReplays | crates/forge-projector/src/apply.rs:489-647 | Replaying a whole CI history over its own tables changes no run and no job, if each job's events name one run |
| CiReplay.CrossedRunsDoNotReplay | crates/forge-projector/src/apply.rs:489-647 | That proviso is needed: a concrete history |
| CiReplay.CiEventTwice | crates/forge-projector/src/apply.rs:489-647 | One CI event delivered twice in a row changes nothing the second time |
| MergeButton.CanMergeMeans | crates/forge-store/src/pulls.rs:113-139 | The button is offered if and only if the request is open, unmerged, and a clean trial merge stands for exactly its present head and base, with no later answer, opening or reopening |
| MergeButton.ConflictsMean | crates/forge-store/src/pulls.rs:123-131 | Conflicting paths shown are those of a standing trial merge of the present commits |
| MergeButton.MergedIsAbsorbing | crates/forge-projector/src/apply.rs:306-480 | A merged request stays merged and unmergeable under every event but a fresh opening |
| RowHistories.UsersSpeak | crates/forge-projector/src/apply.rs:17-68 | After any history a user is shown if and only if registered, with what the last registration said, the profile last given since, and active unless deactivated since |
| RowHistories.ReposSpeak | crates/forge-projector/src/apply.rs:71-164 | A repository is shown if and only if created, under its last name, by the owner it was last created for |
| RowHistories.RepoSettingsSpeak | crates/forge-projector/src/apply.rs:71-164 | Its description, visibility and default branch are those last given, and it is deleted if and only if a deletion is the last of its creations and deletions |
| RowHistories.PullsSpeak | crates/forge-projector/src/apply.rs:306-480 | A pull request's identity comes from its first opening and its text from the last; it is merged if and only if merged since, and else open or closed as its last opening, closing or reopening says, with the times, head, base, commit and name that go with that |
| RowHistories.ReviewsSpeak | crates/forge-projector/src/apply.rs:306-480 | A review is what was first said under its id |
| RowHistories.IssuesSpeak | crates/forge-projector/src/apply.rs:171-303 | An issue is shown if and only if opened; it is open if and only if the last of its openings, closings and reopenings is not a closing, and closed at that closing's time; its title is that of the last opening or retitling |
| RowHistories.CommentsSpeak | crates/forge-projector/src/apply.rs:171-303 | A comment is what was first said under its id |
| RowHistories.CommentCountsSpeak | crates/forge-store/src/issues.rs:189-222 | Once a comment follows its latest opening, an issue shows the number of its comments, or 100 if there are more |
| RowHistories.CountersSpeak | crates/forge-store/src/issues.rs:242-273 | A repository's counters are the numbers of its issues that the history leaves open and closed |
| RowHistories.CountedWhen | crates/forge-store/src/issues.rs:242-273 | A repository has counters if and only if an issue of it was opened, closed or reopened |
| Projection.ApplyRecord | crates/forge-projector/src/lib.rs:254-341 | A record of another topic or that does not decode is skipped; any other is applied as its table step says; it works if and only if no statement fails |
| Projection.TopicsCommute | crates/forge-projector/src/lib.rs:254-341 | Projectors of different topics never meet: any of them may go first |
| Projection.Projector.constructor | crates/forge-projector/src/lib.rs:73-88 | Opens at the durable cursor, and publishes nothing beyond it |
| Projection.Projector.ApplyBatch | crates/forge-projector/src/lib.rs:188-230 | Rows and cursor move together or not at all, whichever statement fails and whether or not the answer to COMMIT arrives; it works if and only if none fails and it does |
| Projection.Projector.Drain | crates/forge-projector/src/lib.rs:100-170 | For every topic but CI: ends with the rows of the whole log, always so when nothing fails, or dead with the rows of some prefix of it |
| Projection.Projector.CommitCursor | crates/forge-projector/src/lib.rs:344-351 | Over invisible records the cursor moves alone |
| Projection.Projector.PublishApplied | crates/forge-projector/src/lib.rs:353-361 | The published offset never goes back |
| Projection.Projector.Turn | crates/forge-projector/src/lib.rs:173-186 | For every topic but CI: one turn of the loop keeps the rows the fold of the records below the cursor while the log grows; when nothing fails, it has read all there was when the turn began |
| Projection.Restarts | crates/forge-projector/src/lib.rs:73-186 | For every topic but CI: through any sequence of processes, each making any number of rounds over a growing log until something fails or it is killed, the rows are the fold of the visible records below a cursor that never goes back |
| Projection.WaitOnProjector | crates/forge-projector/src/lib.rs:373-397 | A handler that waits on a projector at work and is told the offset was reached finds its record in the rows; it is told so by the first round in which nothing fails |
| Projection.WaitForOffset | crates/forge-projector/src/lib.rs:379-397 | True if and only if the watch showed the offset, or more, in time |
| Projection.ReadYourWrites | crates/forge-projector/src/lib.rs:373-397 | For every topic but CI: when the published offset covers a record, the rows are the fold of a history with that record in its place |
| Shown.UsersRefine | crates/forge-projector/src/lib.rs:254-341 | The rows a projector of the user topic leaves are the fold of the user events its records decode to |
| Shown.ReposRefine | crates/forge-projector/src/lib.rs:254-341 | The same for repositories |
| Shown.PullsRefine | crates/forge-projector/src/lib.rs:254-341 | The same for pull requests |
| Shown.ReviewsRefine | crates/forge-projector/src/lib.rs:254-341 | The same for reviews |
| Shown.IssuesRefine | crates/forge-projector/src/lib.rs:254-341 | The same for issues, comments and counters |
| Shown.CiRefines | crates/forge-projector/src/lib.rs:254-341 | The same for runs and jobs |
| Shown.DrainedRowsSpeak | crates/forge-projector/src/lib.rs:100-170 | So the rows of a drained topic show, for every id, what its history says |
| Shown.RegistrationShows | crates/forge-command/src/lib.rs:209-249 | What a registration asked for is what the user's row shows once its records are projected |
| Shown.CreationShows | crates/forge-command/src/lib.rs:252-311 | The same for a created repository, on branch main |
| Shown.OpenedIssueShows | crates/forge-command/src/lib.rs:320-354 | The same for an opened issue, under the next number, its title trimmed and a blank body dropped |
| Shown.OpenedPullShows | crates/forge-command/src/pulls.rs:73-120 | The same for an opened pull request, its branches and commits included |
| Shown.CommentShows | crates/forge-command/src/lib.rs:357-380 | The same for a comment |
| Shown.IssueStateShows | crates/forge-command/src/lib.rs:383-410 | An issue asked to be open or closed is shown so |
| Shown.ReviewShows | crates/forge-command/src/pulls.rs:123-148 | A review shows its verdict and remark |
| Shown.MergeabilityShows | crates/forge-command/src/pulls.rs:151-171 | A trial merge is shown if the request is still between the commits it was computed for |
| Shown.SynchronizationShows | crates/forge-command/src/pulls.rs:174-192 | A request moved to other commits is shown between them |
| Shown.PullStateShows | crates/forge-command/src/pulls.rs:258-284 | A request asked to be open or closed is shown so, unless merged |
| Shown.MergeShows | crates/forge-command/src/pulls.rs:201-255 | A merge is shown with its commit and who made it, and its branch is at that commit |
| Shown.RecordsAreRouted | crates/forge-events/src/envelope.rs:55-70 | Every record of every command goes to the topic of its kind, an event under the key that keeps it in order |
| Shown.RecordsAreSigned | crates/forge-command/src/lib.rs:209-490 | Everything a command writes down about someone is about whoever sent it, at the time it was sent |
| Shown.PushIsLogged | crates/forge-command/src/lib.rs:434-490 | The i-th update of a push is the i-th entry of the reflog it writes, with the state it leaves beside it |
| Frame.ToHex | crates/forge-types/src/oid.rs:41-48 | Writes two lower-case digits per byte |
| Frame.OidFromStr | crates/forge-types/src/oid.rs:54-66 | Parses exactly the texts of forty hex digits, either case, and says of any other whether its length or a character is wrong |
| Frame.CaseDoesNotMatter | crates/forge-types/src/oid.rs:54-75 | The case of the digits does not matter |
| Frame.HexRoundTrip | crates/forge-types/src/oid.rs:41-75 | An id survives being written and read back |
| Frame.ObjectKeyParses | crates/forge-git/src/frame.rs:122-141 | An object key parses to its id and no index |
| Frame.ChunkKeyParses | crates/forge-git/src/frame.rs:130-141 | A chunk key parses to its id and index, for every index a u32 holds |
| Frame.ParsesExactlyKeys | crates/forge-git/src/frame.rs:134-141 | For all bytes: a key is read as an object's or a chunk's if and only if it is the text of one |
| Frame.KeysAreInjective | crates/forge-git/src/frame.rs:122-141 | No two of objects and chunks share a key |
| Frame.KeyLayout | crates/forge-git/src/frame.rs:122-132 | The text of an object key and of a chunk key |
| Frame.ChunkOrder | crates/forge-git/src/frame.rs:126-132 | For any two chunk numbers, their keys sort by number if and only if the lower does not exceed as many leading digits of the higher |
| Frame.ChunkKeysSort | crates/forge-git/src/frame.rs:126-132 | The chunks of an object sort by number if and only if there are at most a million |
| Frame.MillionthSortsEarly | crates/forge-git/src/frame.rs:126-132 | The first pair out of order |
| Codec.WholeRoundTrip | crates/forge-git/src/frame.rs:144-149 | A whole frame decodes to what it was made of |
| Codec.ManifestRoundTrip | crates/forge-git/src/frame.rs:152-156 | So does a manifest |
| Codec.ChunkRoundTrip | crates/forge-git/src/frame.rs:159-164 | So does a chunk |
| Codec.TruncatedFrameRefused | crates/forge-git/src/frame.rs:175-214 | A whole or chunk frame cut short anywhere is refused |
| Codec.DecodesExactlyFrames | crates/forge-git/src/frame.rs:175-214 | For all bytes: what a reader makes of a header and anything after it, manifest, chunk, whole or wrong length; that it makes nothing of any other bytes; and why |
| Codec.EncodeObject | crates/forge-git/src/frame.rs:223-244 | The loop cuts an object into exactly its records, in order |
| Codec.Reassemble | crates/forge-git/src/frame.rs:258-279 | The loop joins the parts, or names the first that is missing, or refuses the length |
| Codec.ReassemblyIsExact | crates/forge-git/src/frame.rs:258-279 | Slots that hold pieces of an object give its exact bytes if none is missing, and an error if one is |
| Codec.WrongLengthRefused | crates/forge-git/src/frame.rs:258-279 | Whatever the parts hold, a success has the claimed length and every part |
| Codec.RecordsRead | crates/forge-git/src/frame.rs:135-214 | Every record of an object, key and frame, reads back as what it was written for |
| Codec.FrameLayout | crates/forge-git/src/frame.rs:9-18 | Where each field of a frame lies and what it holds, byte by byte, lowest byte first |
| Codec.RecordsFit | crates/forge-git/src/frame.rs:22-30 | An object is one record if and only if it has up to 4 MiB; no value is longer than 4 MiB and a header, and every chunk but the last is full |
| Codec.ReassemblyErrs | crates/forge-git/src/frame.rs:258-279 | Which error: the first missing part, or else the claimed length and another |
| Cache.YieldsTheComplete | crates/forge-git/src/cache.rs:155-215 | From honest records in any order, repeated and with tombstones anywhere, exactly the stored objects are made whose one frame was read, or whose manifest and every part were read after the last tombstone of their id |
| Cache.OwedIsYielded | crates/forge-git/src/cache.rs:155-215 | Without tombstones, the records of an object yield it once all are there |
| Cache.YieldsOnlyStored | crates/forge-git/src/cache.rs:155-215 | Honest records never yield anything that was not stored, byte for byte, however incomplete |
| Cache.StreamIsRecorded | crates/forge-git/src/cache.rs:155-200 | For every stream the three buffers hold exactly what was said, whole objects for good, manifests and parts since the last tombstone of their id |
| Hydrate.CacheFolder.Buffer | crates/forge-git/src/cache.rs:150-200 | The loop over the records fills the buffers as the fold says |
| Hydrate.CacheFolder.Assemble | crates/forge-git/src/cache.rs:203-215 | Whatever order the manifests come in, the pending objects are those the buffers amount to, each chunked one once |
| Hydrate.CacheFolder.WriteAll | crates/forge-git/src/cache.rs:217-227 | Every object is verified before it is written; a corrupt one stops it, and the error names it; nothing else stops it but a crash |
| Hydrate.CacheFolder.WriteLoose | crates/forge-git/src/loose.rs:43-67 | An object already on disk is left alone |
| Hydrate.CacheFolder.HydrateFrom | crates/forge-git/src/cache.rs:137-231 | One hydration: nothing lost from disk, only verified objects added, the cursor moved only at the end; unless it dies or the cursor cannot be written it succeeds exactly if all is genuine, and an error names an object that is not |
| Hydrate.AnyScheduleThenHydrate | crates/forge-git/src/cache.rs:107-231 | After any schedule of hydrations, crashes, lost or torn cursors, destruction, growth and compaction, one hydration leaves exactly the stored objects, the same as one from scratch |
| Hydrate.HydrationKeeps | crates/forge-git/src/cache.rs:137-231 | Every stored object is on disk or still wholly ahead of the cursor, after a hydration that finished and after one that did not |
| Hydrate.DiskHashes | crates/forge-git/src/frame.rs:297-307 | Whatever the topics hold, through any hydrations, lost cursors and destruction, every object on disk hashes to its id |
| Hydrate.CompactionGrows | crates/forge-git/src/frame.rs:3-6 | Compaction of rewritten objects takes nothing from any reader |
| Hydrate.TombstonesKeepOff | crates/forge-git/src/cache.rs:164-169 | What tombstones keep off the disk, for every topic that has them: a finished hydration adds an object if and only if its unread records are complete in that sense |
| Hydrate.TombstoneComesTooLate | crates/forge-git/src/cache.rs:164-169 | So a tombstone read after a whole object in the same pass does not keep it off |
| Push.EncodeGroup | crates/forge-git/src/store.rs:90-106 | A batch is refused if any object does not hash to its id, and the error names the first; otherwise it holds all records of each |
| Push.ObjectWriter.PutGroup | crates/forge-git/src/store.rs:90-111 | One batch lands if and only if all its objects hash to their ids and the write is confirmed; otherwise nothing landed, or a genuine batch whose confirmation was lost |
| Push.ObjectWriter.PutAll | crates/forge-git/src/store.rs:88-111 | A whole number of batches of 64 lands; with no failure it stores all if and only if all hash to their ids, and an error otherwise names the first that does not; what the topic holds stays sound for every cache |
| Push.TransactionIsSound | crates/forge-git/src/store.rs:67-111 | A committed batch keeps the topic one of whole, genuine objects, and adds them after the old end |
| PushOrder.AcceptPush | crates/forge-githttp/src/receive.rs:72-108 | The command asks line by line for what git proposes, its tips are exactly the new ids, and there is a command to send only once every one is stored; it comes to that whenever the objects are genuine and every write is confirmed |
| PushOrder.ProposalsLand | crates/forge-githttp/src/receive.rs:56-64 | A push whose lines have distinct valid names, each current, goes through and puts each reference where its line says, the zero id standing for nowhere |
| PushOrder.PerformMerge | crates/forge-githttp/src/merge.rs:54-133 | Nothing is stored for a closed, stale or conflicting request, and which of these it was is said; otherwise the merge's objects are stored before the branch is asked to move, which it is whenever they are genuine and every write is confirmed |
| PushOrder.ObjectsComeFirst | crates/forge-githttp/src/receive.rs:22-24 | However pushes, merges and other commands interleave and fail, every object a committed record or reference names is in its repository's topic |
| Progress.PushesCanLand | crates/forge-githttp/src/receive.rs:72-108 | Whatever git may present can be stored whole and is then decided against the state as it is, with every other push as it was |
| PushOrder.TipIsTakenOnTrust | crates/forge-command/src/refs.rs:117-133 | The command service takes any id: a creating push leaves references covered if and only if its tip was stored |
| RefMirror.ForRepo | crates/forge-command/src/refs.rs:94-106 | Exactly the repository's references, sorted by name |
| RefMirror.GitRefs.SyncRefs | crates/forge-git/src/cache.rs:249-274 | Works if and only if no name to be set is a directory of one in the way, or inside one; then the references are the canonical ones, and HEAD follows the default branch if it exists; if it does not work it will not the next time |
| RefMirror.MirrorRepo | crates/forge-git/src/cache.rs:249-274 | After a sync that worked, the cache says of every name what the log says, whatever it said before, and HEAD names the default branch if the log has it; it works if no two names on either side clash |
| RefMirror.DirectoryInTheWay | crates/forge-git/src/cache.rs:255-265 | Any reference whose name is a directory of a new canonical one, or inside it, blocks the sync, because deletions come last |
| RefMirror.ClashMeans | crates/forge-git/src/cache.rs:249-274 | Two names clash if and only if one is a leading part of the other that ends before a slash |
| CiProtocolProofs.MoveKeeps | crates/forge-ci/src/service.rs:170-297 | Every move of orchestrator, queue, runners and projector keeps the invariant between live table, log and runners |
| CiProtocolProofs.ProjectorNeverClaims | crates/forge-projector/src/apply.rs:555-570 | A start the projector reads always loses the claim to the runner that wrote it |
| CiProtocolProofs.ProjectorFinishes | crates/forge-projector/src/apply.rs:572-612 | An end the projector reads always counts, in the live table and in a rebuild |
| CiTheorems.OneClaimPerJob | crates/forge-store/src/ci.rs:136-153 | However often and to however many runners a job is delivered, one claim at most is granted over the whole run |
| CiTheorems.OneReportEach | crates/forge-ci/src/service.rs:240-297 | The log holds at most one start and one end of a job, and no start after the end |
| CiTheorems.EndsFollowStarts | crates/forge-ci/src/service.rs:240-297 | Every end follows a start of the same job by the same attempt |
| CiTheorems.LiveAgreesWithRebuild | crates/forge-ci/src/service.rs:170-297 | The live tables and a rebuild from the log up to the same cursor hold the same jobs and runs, agree on which are over and how, and on every column of those but when they started |
| CiTheorems.RunsEndWithTheirJobs | crates/forge-projector/src/apply.rs:572-672 | A live run is over if and only if it has jobs and all are over, its status is their verdict, and it never reads as running |
| CiTheorems.OverForGood | crates/forge-projector/src/apply.rs:606-611 | A job or run that is over never changes again |
| CiTheorems.ProtocolLogsReplay | crates/forge-ci/src/orchestrate.rs:205-265 | Every log the protocol writes is one whose whole-history replay is harmless |
| Progress.JobsCanRun | crates/forge-ci/src/service.rs:170-297 | Whatever was announced can be queued, and any of its jobs that waits can be run by any idle runner, which leaves both reports in the log |
| CiOutcomes.ReportsAreShown | crates/forge-projector/src/apply.rs:572-612 | Once the projector has passed a report, the live job shows its conclusion, exit code, attempt and time |
| CiOutcomes.RunsGoAsTheirJobs | crates/forge-events/src/domain.rs:608-623 | A run that is over failed if and only if a job of it went wrong, was cancelled if and only if every job was, and succeeded otherwise |
| CiOutcomes.FailuresFailTheRun | crates/forge-ci/src/service.rs:240-297 | From a runner to the page: a job whose outcome was not success, reported and projected, makes its run a failure once it is over |
| CiOutcomes.RunsSpeak | crates/forge-projector/src/apply.rs:489-553 | A run is shown if and only if queued, as it was first queued |
| CiOutcomes.JobsSpeak | crates/forge-projector/src/apply.rs:489-553 | A job is shown if and only if listed, with the run, name and image of its first listing |
| CiOutcomes.LiveRowsSpeak | crates/forge-projector/src/apply.rs:489-553 | The same of the live tables, at every moment of every run of the protocol |
| CiOutcomes.RunsKeepTime | crates/forge-projector/src/apply.rs:489-647 | In a rebuild, a run started when the first of its jobs did, and ended when the last of them did |
| CiOutcomes.RunsEndOnTime | crates/forge-projector/src/apply.rs:572-672 | In the live tables, a run that is over ended when the last of its jobs did |
| Runner.JobQueue.Next | crates/forge-ci/src/queue.rs:142-173 | Every record acquired is leased, rejected or let lapse once and in order, or still waiting; a poll happens only on an empty buffer |
| Runner.JobQueue.Settle | crates/forge-ci/src/queue.rs:185-198 | One acknowledgement of the kind asked for, or none if the consumer does not accept it |
| Runner.DealTakesThePrefix | crates/forge-ci/src/queue.rs:147-170 | One call takes the unreadable records at the front and the first readable one, rejects only the former, leases only the latter |
| Runner.DealAnswers | crates/forge-ci/src/queue.rs:142-173 | What a call answers, said of the buffer: the first readable record counted as at least one delivery, nothing if there is none, or the error of a refused rejection or commit |
| Runner.TopicLog.Line | crates/forge-ci/src/service.rs:134-142 | Lines are held until they make 64 KiB, which then is one chunk; every byte said is in the topic, a chunk or the buffer, once and in order |
| Runner.TopicLog.Flush | crates/forge-ci/src/service.rs:95-131 | Everything said is in the topic, in chunks numbered from zero without a gap, ended by a marker if final; it works if and only if the write does or there is nothing to write; a failed write loses its chunks |
| Runner.RunnerService.Step | crates/forge-ci/src/service.rs:170-217 | Whatever fails, table and log are as a walk of the protocol leaves them, and the record is acknowledged only after the job was reported or lost to another runner; a job is taken if and only if one can be leased, and the step ends well if and only if every write and the settlement does |
| Runner.RunnerService.Take | crates/forge-ci/src/service.rs:176-217 | The claim, the run and the settlement, each only as far as the one before went; it ends well if and only if all of them do |
| Runner.RunnerService.Execute | crates/forge-ci/src/service.rs:240-297 | Start, then end, by the same attempt, and each only as far as the writes went; the end is a success only if the job succeeded, and otherwise says which way it failed, with the step's own exit code |
| Runner.StepIsAWalk | crates/forge-ci/src/service.rs:170-297 | One step, however it goes, is a sequence of enabled protocol moves back to an idle runner |
| Retry.ConnectWithRetry | crates/forge-store/src/lib.rs:223-256 | Which attempt connects, when, and when each begins: after a tenth of a second, doubled each time up to five seconds, never past the budget, each with the rest of the budget or a second if that is more; no attempt before the last connected in time, the whole overruns the budget by a second at most, and giving up comes no earlier than the budget |
| Retry.TriesAreFew | crates/forge-store/src/lib.rs:223-256 | Attempts are no more than pauses of a tenth of a second would allow in the budget |

## Left out

- Service.CommandService: `set_issue_state`, `review_pull`, `record_mergeability`, `synchronize_pull` and `set_pull_state` have the shape of `CommentOnIssue` and appear only as decisions in `Commands.Decide`.
- Commands.RememberingIsFolding: usernames and repository names arrive already parsed, which is why lower-casing is of ASCII letters only.
- HistoryTheorems.NumbersHaveNoGap: numbers are unbounded, where the program has 64 bits.
- ProtocolProofs.NewestServesTheFold: a command future is never cancelled between its commit and the update of memory, and the mutex is modelled as one command in flight per instance.
- Writer.FencedWriter.Transact: several writers share one broker only between transactions; their interleaving within one is `Protocol`.
- CiReplay.CiHistoryReplays: one run per job is sufficient, and shown to be needed by a history; the exact condition is not stated, as every log the program writes meets this one (`ProtocolLogsReplay`).
- StretchReplay.StretchReplays: stretches of issue and CI events; their whole histories and single events are covered.
- Store.Tables: statuses are datatypes, so a status text this build does not know is not modelled; nor are the unique indexes that could make a statement fail.
- CiProtocol: the projector's batches are taken one event at a time, claims between two events of a batch included; a job claimed before its row is projected is dropped, as in the code, so nothing says that every job runs.
- CiTheorems.LiveAgreesWithRebuild: `started_at` of jobs and runs, which does differ between the two.
- Runner.TopicLog.Flush: a failed write loses the chunks it took; that log is not part of the domain history.
- Runner.RunnerService.Step: the read-back for the waiting-time metric, and what runs inside the sandbox; its outcome is a parameter.
- Projection.Projector.Drain: the CI topic, whose tables the runners write too, so that they are not a fold of the log; `CiTheorems.LiveAgreesWithRebuild` says what holds of them instead. Each topic has a database session of its own, and the model follows one; `TopicsCommute` is why that is enough.
- Codec.RecordsRead: content whose chunks a u32 cannot count, which the code truncates silently.
- Hydrate.AnyScheduleThenHydrate: topics without tombstones, since nothing in the code writes one to an object topic; `TombstonesKeepOff` is about one hydration of a topic that has them.
- PushOrder.AcceptPush: how the lines of the hook's input are split into ids and a name, and the texts a client is shown.
- RefMirror.GitRefs.SyncRefs: git refusing a reference for any reason but a directory clash.
- Retry.ConnectWithRetry: timers that fire late.
- The orchestrator, webhook matcher and delivery worker loops, which call their step again after the tailer has moved.
- HTTP routes, pages, authentication, sandboxes, topic provisioning, metrics and tracing, pkt-line, zlib, CloudEvents headers: input and output, or policy.
