# MediaArchiverSuite: model and proofs

MediaArchiverSuite converts a collection of videos. A daemon keeps a catalogue of files and a queue of
jobs; workers connect, are handed a file, fetch it in chunks, encode it, announce the result and upload
the encoded file in chunks; the daemon moves it beside its source. This project models the four stateful
parts and the way they fit together, and proves what they keep.

| file | part |
|---|---|
| `Database.dfy`, `JobTable.dfy` | the three tables behind `SQLite`: the class and its operations; integrity, repeated calls, draining the queue |
| `Sql.dfy` | `ExecSQL`: statements built around escaped strings, read back by an SQL lexer |
| `Naming.dfy`, `Text.dfy` | names of archives and temp files |
| `Listener.dfy`, `Discovery.dfy` | `onFileSystemChange`, and the order in which files are found |
| `Daemon.dfy`, `Server.dfy` | the daemon: its handlers as functions of one state, and the class that updates that state |
| `Lease.dfy`, `Accounts.dfy`, `Results.dfy`, `Losses.dfy`, `TempFiles.dfy` | what every step of the daemon keeps; counts over whole runs; from a result to the tables; what it never comes back to; the temp files |
| `Client.dfy`, `WorkerRuns.dfy`, `WorkerPace.dfy` | the worker's `poll`, as functions and as a class; what holds in every run; how it waits and stops |
| `Transfer.dfy`, `Progress.dfy`, `Runs.dfy` | worker and daemon together over a faulty network, among other clients; how far transfers get; runs that go wrong |
| `Walk.dfy`, `Moves.dfy`, `Watcher.dfy` | the watcher: directory walk, pairing of moves, records of one read |

## How it is modelled

Each handler, each half of a main loop round, each watcher callback and each poll is one atomic step. The
classes `SQLite`, `MediaArchiverDaemon`, `MediaArchiverClient`, `FileSystemWatcherLinux` and `ExecSQL`
carry the fields of the originals and update them in place; every method is proved equal to a function of
the state before, and the results are proved about those functions, for every input and every run.
Sessions are values in a map, as `std::map` owns the structs it holds. A table with a primary key is a
map; `queue`, which has none, is a sequence of rows, and that no id has two rows is proved.

What the code learns from outside is a parameter: which eligible row `LIMIT 1` yields, whether a file
opens, how much `readsome` returns, whether a write reaches the disk, how a call ends (answered, executed
with the answer lost, not executed), what the encoder and the probes report, and the time.

A fresh session holds id 0: `ConnectedClient::originalFileId` has no initialiser
(MediaArchiverDaemon.hpp:31), and the main loop skips results with id 0.

## What came out

- A file that is out is held once and has one row of status 1 or 5. While the daemon runs it can be lost
  without the database being told in three places only: a session that asks for another file, a file that
  cannot be opened, and a session overwritten by another client under the same rpc key. A daemon that goes
  down loses every file that is held. A file that is lost is never handed out again
  (`Losses.StrandedForGood`).
- A result of OK that could not be moved is recorded as error -9 and tried again; an error posted with a length
  is filed with an archive nobody made (`Results.ReportLeaves`).
- A worker told to stop while it encodes encodes to the end for nothing: it has hung up, and does not
  authenticate again to announce the result (`WorkerPace.StopLosesResult`).
- A lost call for the last chunk of an upload is not made up for, as the stream is told to go back before it
  is cleared; a call lost before that is (`Progress.UploadRecoversIff`).
- A failed write to a temp file leaves `tellp()` at -1, which compares as the largest size: the upload
  counts as complete, and a short file is moved into place (`TempFiles.WriteKeepsLength`).
- An upload never ends for the client, even without faults, when the client's chunk size is 0 or divides
  its length (`Runs.WholeChunkRun`), or when its session has no file, because another client has taken its
  place in the meantime (`Runs.NoFileRun`); and only then (`Progress.UploadEndsIff`).
- A fetch never ends, even without faults, when the source is not as long as recorded
  (`Progress.FetchEndsIff`); no later discovery corrects the record.
- A fetched copy is exact while no `poll` has thrown, as in the shipped client, which does not survive a
  throw. If polling goes on after a throw, it is exact exactly when the source is no longer than its
  recorded length (`Progress.FetchSafeIff`, `Runs.WrongCopyRun`).
- When the connection breaks during authentication with a result of OK due, the worker drops the result and
  keeps the output stream open; the next output is then announced as OK with length 0
  (`WorkerRuns.AnnouncedLength`), and its file is recorded as done with no archive and handed out no more
  (`Runs.DroppedResultSpoilsTheNext`).
- A file ends up with status 5 and no archive in two ways: reported as OK with length 0, or discovered
  together with an archive that is filed under another source (`Losses.UnfiledAfterStep`).
- The order in which files are found matters exactly when a source is met with two archives or an archive
  with two sources (`Discovery.OrderIrrelevantIff`).
- Stripping the suffix from an archive's name gives the source's name exactly for sources whose extension is
  what stripping leaves of suffix and final extension (`Naming.StrippingUndoesNaming`). With usual names these
  are the sources that have the final extension already, and there are none if that extension contains the
  suffix (`Naming.UsualStripping`).
- The client's size limit `4u * 1024 * 1024 * 1024` is 0 in 32 bits, which the database takes for no limit.
- The comment on `readChunk` (MediaArchiverDaemon.cpp:685-692) promises true for a successful read; the code
  answers whether there was anything to read, and throws on errors. The code is modelled.

## Model

| member | source | states |
|---|---|---|
| Naming.GetArchivedFileName | MediaArchiverDaemon.cpp:820-838 | an archive is named by the path up to its last dot, the suffix and the final extension |
| Naming.ArchivedNameIsArchive | MediaArchiverDaemon.cpp:427-432 | whatever is named as an archive is recognised as one, for every path and configuration |
| Naming.StrippingUndoesNaming | MediaArchiverDaemon.cpp:465-470 | for every configuration, erasing the last suffix undoes the naming if and only if the path's extension is what stripping leaves of suffix and final extension |
| Naming.UsualStripping | MediaArchiverDaemon.cpp:465-470 | with a dot-free suffix and a one-dot extension: if and only if the path ends in the final extension and the extension is free of the suffix |
| Naming.ArchivedNamesCollide | MediaArchiverDaemon.cpp:820-838 | two sources share an archive name if and only if they agree up to their last dot |
| Naming.TempNamesDiffer | MediaArchiverDaemon.cpp:748-763 | temp files of different ids have different names, under all three settings of the temp folder |
| Naming.TempNameLies | MediaArchiverDaemon.cpp:748-763 | the temp file lies beside the source, in the working directory or in the folder set, under the number of its file |
| Sql.LexThrough | SQLite.hpp:74-78 | an SQL lexer reads an escaped string as the string, whatever follows |
| Sql.LiteralReadBack | SQLite.hpp:74-83 | a quoted, escaped string passed on as a C string is read back exactly, if and only if it has no NUL and no quote follows |
| Sql.InsertSource | SQLite.cpp:233-234 | the text sent to add a source is read as the insertion of exactly the given path and size |
| Sql.InsertArchive | SQLite.cpp:298-300 | the text sent to file an archive is read as the insertion of exactly the given id and path |
| Sql.SelectBySource | SQLite.cpp:224-227 | the text of the look-up by source is read as that query for exactly the given path |
| Sql.SelectByArchive | SQLite.cpp:280-283 | and so is that of the look-up by archive |
| Database.ArmsAreEligible | SQLite.cpp:144-152 | the three arms of the UNION select the files of one simple description |
| Database.SQLite.GetNextFile | SQLite.cpp:124-188 | hands out some eligible file and marks it started, or none if and only if none is eligible |
| Database.SQLite.AddFile | SQLite.cpp:190-317 | the branches over local flags amount to adding the source, filing the archive and raising one row |
| Database.SQLite.LookUpSource | SQLite.cpp:214-227 | the callback loop finds the source's id, its place in the queue and its archive |
| Database.SQLite.LookUpArchive | SQLite.cpp:270-283 | the callback loop ends with the last id the archive is filed under, and whether that is queued and done |
| Database.SQLite.AddEncodedFile | SQLite.cpp:318-338 | status and comment of the rows of the id, and an archive row for a positive length where there is none |
| Database.SQLite.Reset | SQLite.cpp:347-354 | status 0 for the rows of the id, nothing else |
| Database.OneRowPerIdMeans | SQLite.cpp:97 | what is kept of the queue is what a key on id would enforce |
| JobTable.ValidHandedOut | SQLite.cpp:177-186 | a handout keeps the tables sound |
| JobTable.ValidFileAdded | SQLite.cpp:211-313 | addFile keeps the tables sound for all arguments |
| JobTable.ValidEncodedAdded | SQLite.cpp:328-337 | recording the result of a queued file keeps the tables sound |
| JobTable.FileAddedRow | SQLite.cpp:239-312 | addFile leaves a row alone, raises it to status 5 or adds it untried, and never lowers a status or touches a count |
| JobTable.FileAddedIs | SQLite.cpp:190-317 | the effect on every table, row by row: what is new, what is filed where, which row is done, and which id is returned |
| JobTable.FileAddedAgain | SQLite.cpp:190-317 | a second identical call returns the same id and changes no table, on every sound database |
| JobTable.DrainTakesEveryTry | SQLite.cpp:144-186 | a worker that always fails is handed exactly as many files as the tables hold tries, whatever it is handed when, and stops exactly when nothing is eligible |
| Discovery.OnFileSystemChange | MediaArchiverDaemon.cpp:439-519 | which source, archive and queueing a file system event passes to the database, and that a missing file makes it throw |
| Discovery.SourcesMet | MediaArchiverDaemon.cpp:454-514 | the sources passed on are the interesting files found that do not look archived, and the non-empty files that archives found lead back to, each with its own size; in terms of the files alone |
| Discovery.PairsMet | MediaArchiverDaemon.cpp:484-514 | the pairs passed on are such a source with the non-empty file of its archive name, and an archive found with the non-empty file it leads back to |
| Discovery.ArchiveAlone | MediaArchiverDaemon.cpp:507-514 | an archive found without its source adds nothing to any database, and makes the file it is filed under count as done |
| Discovery.DiscoveryFinds | MediaArchiverDaemon.cpp:439-519 | from the files to the tables: with pairs one to one a source is there exactly if it is met, with its size; it has status 5 exactly if there is an archive for it, which is filed, and 0 otherwise |
| Discovery.RunIsDescribed | MediaArchiverDaemon.cpp:506-518 | after any discovery from an empty database every source met is there once, untried; status 5 only if an archive was met with it, and surely if one is filed; one met with archives has none only if all of them are filed under others |
| Discovery.OneToOneDescribed | MediaArchiverDaemon.cpp:506-518 | if no source was met with two archives and no archive with two sources, status 5 exactly with an archive and 0 without |
| Discovery.OrderIrrelevantIff | MediaArchiverDaemon.cpp:439-519 | every order of discovery gives the same rows up to ids, if and only if no source has two archives and no archive two sources |
| Server.MediaArchiverDaemon.Authenticate | MediaArchiverDaemon.cpp:521-548 | the loop over the sessions moves the one with the token under the caller's key |
| Server.MediaArchiverDaemon.GetNextFile | MediaArchiverDaemon.cpp:595-683 | refuses while a stream is open, clears the session, hands out what the database yields, fails on empty or unreadable files |
| Server.MediaArchiverDaemon.ReadChunk | MediaArchiverDaemon.cpp:693-723 | the next bytes of the open source, none only at its end |
| Server.MediaArchiverDaemon.Reset | MediaArchiverDaemon.cpp:558-569 | rewinds the stream that is open |
| Server.MediaArchiverDaemon.Abort | MediaArchiverDaemon.cpp:570-593 | closes the open stream, gives the file back and clears the session |
| Server.MediaArchiverDaemon.PostFile | MediaArchiverDaemon.cpp:725-780 | refuses an unread source or an open upload; opens an empty temp file for an upload, or queues the result |
| Server.MediaArchiverDaemon.PrepareNewSession | MediaArchiverDaemon.cpp:840-861 | the session's result joins the line and the session is cleared |
| Server.MediaArchiverDaemon.WriteChunk | MediaArchiverDaemon.cpp:781-818 | checks state and overrun, writes at the position, completes at the announced length or on a failed write |
| Server.MediaArchiverDaemon.Take | MediaArchiverDaemon.cpp:130-139 | the main loop takes entries in order and skips those without a file |
| Server.MediaArchiverDaemon.Report | MediaArchiverDaemon.cpp:143-180 | a movable result is moved and recorded, or recorded as an i/o error; any other is recorded as posted |
| Lease.InvStep | MediaArchiverDaemon.cpp:521-861 | every step keeps: sound tables, distinct tokens, every file held at most once, none held that could be handed out |
| Lease.InvAlways | MediaArchiverDaemon.cpp:521-861 | so it is in every run on every sound database |
| Lease.HeldIsOutOfReach | SQLite.cpp:144-152 | in any reachable state a held file has status 1 or 5 and is not eligible |
| Lease.TablesAlwaysSound | SQLite.cpp:91-99 | in every run one queue row per id, one source per path, archives within queue within sources |
| Lease.HandoutIsFree | SQLite.cpp:124-188 | what is handed out was held by nobody and keeps all other leases |
| Lease.Reconnection | MediaArchiverDaemon.cpp:521-548 | a token is met once; its session moves whole to the new key; the sessions under other keys stay |
| Accounts.HeldAfterStep | MediaArchiverDaemon.cpp:570-683 | who holds a file after a step: handed out, or held before and not reset, reported or lost in one of the three places |
| Accounts.Conservation | MediaArchiverDaemon.cpp:112-184 | in every run, handouts of a file are its resets, its reports, its abandonments and the one hold it may have |
| Accounts.RetryBound | SQLite.cpp:144-186 | in every run on every sound database the count column grows by the number of handouts, and stays within three and one more for each time the file was put back, before the run or by a reset or a result of value 0 |
| Accounts.WithinSizeAsked | SQLite.cpp:130-133 | 0 asks for files of any size, any other number for files of at most that size |
| Results.NamesAlways | MediaArchiverDaemon.cpp:842-844 | in every run a session with a file has its recorded path and size, and a result in the line goes to the archive name of its own source |
| Results.ReportLeaves | MediaArchiverDaemon.cpp:143-178 | what a report leaves: a result of OK that is not moved into place is recorded as error -9 with the text and files no archive, any other as it was posted; no other row changes |
| Results.ReportMoves | MediaArchiverDaemon.cpp:151-160 | a report moves the temp file of a result of OK to the archive's name, and no other file |
| Results.FailedMoveIsRetried | MediaArchiverDaemon.cpp:167-178 | a file whose archive could not be moved is eligible again if and only if it has tries left |
| Results.FiledIsThere | SQLite.cpp:332-337 | in every run without errors posted with a length, an archive filed was filed before, met by the watcher, or moved into place under that name |
| Results.PostTakenIff | MediaArchiverDaemon.cpp:725-770 | a result is taken if and only if the source was read to its recorded size, no upload is under way, and the temp file opens when one is due |
| Results.PostedIsRecorded | MediaArchiverDaemon.cpp:772-780 | over any run, a result that needs no upload is recorded as it was posted, for the file of its session, whatever happens in between |
| Results.InOrder | MediaArchiverDaemon.cpp:130-131 | over any run, results are moved and recorded in the order they came in |
| Losses.StrandedForGood | SQLite.cpp:144-152 | a file of status 1 or 5 that nobody holds is never handed out again, in any run |
| Losses.StrandedWhenAbandoned | MediaArchiverDaemon.cpp:613-640 | every abandoned file is such a file |
| Losses.StrandedWhenReported | SQLite.cpp:328-330 | a reported file is, if and only if the result recorded reads as started or done |
| Losses.StrandedOnRestart | MediaArchiverDaemon.cpp:112-139 | after a restart on the same database, every file of status 1 or 5 is, so every file that was held |
| Losses.UnfiledAfterAdd | SQLite.cpp:256-313 | addFile leaves or makes a source done without an archive if and only if it was, or is new to the queue, and the archive it comes with is filed under another |
| Losses.UnfiledAfterStep | SQLite.cpp:328-337 | after a step a file is done without an archive if and only if it was reported OK with length 0, was discovered with an archive filed under another source, or was so before and was neither reset, reported nor given a free archive |
| Losses.DoneIsFiled | SQLite.cpp:291-337 | in every run without the first two, every done file has its archive |
| TempFiles.ChunkStands | MediaArchiverDaemon.cpp:799-801 | what reaches the disk of a chunk stands where the upload had got to; the rest of that file before it, and all other files, stay |
| TempFiles.WriteKeepsLength | MediaArchiverDaemon.cpp:784-805 | a completed upload's temp file has the announced length if and only if the last write did not fail |
| TempFiles.TempInvStep | MediaArchiverDaemon.cpp:747-818 | every step keeps: uploads write to the temp file of their own id, short of the announced length; results to be moved are whole unless a write failed |
| TempFiles.MovedFileIsWhole | MediaArchiverDaemon.cpp:151-160 | for any clients, what is moved into place has the announced length unless a write failed |
| TempFiles.RunLeavesTemp | MediaArchiverDaemon.cpp:840-861 | from completion until it is reported nobody changes a finished upload, whatever happens |
| Client.MediaArchiverClient.Poll | MediaArchiverClient.cpp:734-769 | one poll does what the function of its state does, and throws when that says so |
| Client.MediaArchiverClient.DoIdle | MediaArchiverClient.cpp:200-284 | asks for a file over an authenticated connection, or goes to authenticate, wait or reconnect |
| Client.MediaArchiverClient.DoAuth | MediaArchiverClient.cpp:158-198 | returns to the previous state, stays on a refusal, falls back to Idle when the connection breaks |
| Client.MediaArchiverClient.DoReceive | MediaArchiverClient.cpp:286-328 | stores a chunk, ends at the recorded length, rewinds both sides on a fault |
| Client.MediaArchiverClient.DoConvert | MediaArchiverClient.cpp:424-540 | one or two passes, then a result: OK with the output's length, or an error |
| Client.MediaArchiverClient.OpenOutput | MediaArchiverClient.cpp:497-512 | opening an output while the last is open fails unnoticed and announces length 0 |
| Client.MediaArchiverClient.DoSendResult | MediaArchiverClient.cpp:542-577 | announces the result, then uploads from the beginning or returns to Idle |
| Client.MediaArchiverClient.DoTransmit | MediaArchiverClient.cpp:624-662 | sends the next chunk, leaves at the end of the file when the server wants no more, rewinds on a fault |
| WorkerRuns.MachineInvAlways | MediaArchiverClient.cpp:158-328 | in every run the previous state is Idle or SendResult, and transfers have an authenticated connection |
| WorkerRuns.OneResultPerFile | MediaArchiverClient.cpp:200-577 | in every run every file taken has had one result posted, is the one owed, or was dropped by a connection that broke during authentication |
| WorkerRuns.PostedBeforeNextRequest | MediaArchiverClient.cpp:191-197 | when a new file is requested, every file taken has had its result posted if and only if none was dropped |
| WorkerRuns.OutputInvAlways | MediaArchiverClient.cpp:497-512 | while none is dropped, a result of OK comes with the output open and its length announced |
| WorkerRuns.AnnouncedLength | MediaArchiverClient.cpp:497-512 | in every run an encoding is announced as what it is if and only if no result of OK has been dropped since the worker last cleaned up, or the output is empty |
| WorkerRuns.OkIff | MediaArchiverClient.cpp:424-540 | in every run: when an encoding is over, and that it is announced OK if and only if the last pass, the first of one with -crf and the second of two without, ended well, the durations agree and the output opens or an old one is open; otherwise as error -50 |
| WorkerPace.Paced | MediaArchiverClient.cpp:364-380 | in every run, as many waits are over or under way as attempts to get a file, to announce a result or to authenticate have failed |
| WorkerPace.WaitInvAlways | MediaArchiverClient.cpp:230-240 | in every run a waiting worker waits for files, and has hung up, if and only if it was told there is none |
| WorkerPace.FinishesIff | MediaArchiverClient.cpp:748-766 | a poll finishes a worker if and only if it is shut down, or told to stop between files, while fetching or while authenticating; it has then hung up and closed its files |
| WorkerPace.StopLosesResult | MediaArchiverClient.cpp:158-164 | over any run, a worker told to stop while encoding never announces the result |
| Runs.DroppedResultSpoilsTheNext | MediaArchiverClient.cpp:191-197 | a run of the whole system in which a dropped result leaves the next file done, without an archive and out of reach |
| Transfer.SystemInvStep | MediaArchiverClient.cpp:286-662 | every poll, with any losses, and every step of others keep both sides of a transfer in relation |
| Transfer.FetchedExactly | MediaArchiverDaemon.cpp:693-723 | a copy taken for complete equals the source |
| Transfer.EveryFetchIsExact | MediaArchiverClient.cpp:286-328 | in every run of the whole system, when fetching ends the copy equals the source the daemon opened, if no poll threw or the source has not outgrown its recorded length |
| Transfer.OthersLeaveUpload | MediaArchiverDaemon.cpp:781-818 | what others do leaves a session's temp file alone |
| Transfer.UploadedExactly | MediaArchiverDaemon.cpp:799-815 | a chunk that completes the upload makes the temp file equal the worker's output, if and only if the disk took it |
| Transfer.EveryUploadIsExact | MediaArchiverClient.cpp:624-662 | in every run of the whole system that holds, and the worker leaves Transmitting only on such a completion |
| Transfer.OutputReachesArchive | MediaArchiverDaemon.cpp:151-160 | in every run, what is then moved under the archive name of the file's own source is the worker's output, and the file is recorded as done with that archive |
| Transfer.AsksForAnySize | MediaArchiverClient.cpp:37 | the worker's size limit excludes no file |
| Progress.UploadEndsIff | MediaArchiverClient.cpp:628-649 | in every run, from the poll that starts an upload, with every call answered and every chunk stored: it ends within its length in polls and one more if and only if the session has a file, the chunk size is not 0 and does not divide the length, and otherwise never |
| Runs.WholeChunkRun | MediaArchiverClient.cpp:628-649 | a run into an upload of a whole chunk, which never ends |
| Runs.NoFileRun | MediaArchiverDaemon.cpp:784-796 | a run into an upload in a session without a file, which never ends |
| Progress.UploadRecoversIff | MediaArchiverClient.cpp:651-661 | after one lost call an upload starts again and ends if and only if the call was not for the last chunk and the chunk size does not divide the length |
| Progress.StopGivesBack | MediaArchiverClient.cpp:748-766 | a worker told to stop while it fetches gives its file back: nobody holds it and it is eligible |
| Progress.FetchEndsIff | MediaArchiverClient.cpp:296-327 | in every run, from the poll that takes a file, with every call answered: the fetch ends within the source's length in polls and one more if and only if the copy is open, the chunk size is not 0 and the source is as long as recorded, and otherwise never |
| Progress.FetchSafeIff | MediaArchiverClient.cpp:296-327 | in every run, if polls go on after a throw: no faults can make a wrong copy pass if and only if the source is not longer than recorded, or nothing can be copied at all |
| Runs.WrongCopyRun | MediaArchiverClient.cpp:318-327 | a run in which a copy that lacks the first byte passes |
| Walk.HandlesClosedIff | FileSystemWatcherLinux.cpp:138-181 | a walk closes every directory it opened if and only if every directory in the tree can be opened and watched, or the top one cannot be opened |
| Walk.WalkGetsThrough | FileSystemWatcherLinux.cpp:138-156 | it gets through if and only if every directory can be opened and watched |
| Walk.DirOnce | FileSystemWatcherLinux.cpp:122-183 | it then reports every regular file once, watches every directory once, and nothing else |
| Walk.StopsAtFailure | FileSystemWatcherLinux.cpp:138-156 | a walk that fails has done a first part of what it would have done without the failure, and nothing else |
| Walk.EntriesOrdered | FileSystemWatcherLinux.cpp:138-181 | nothing is reported before the directory it lies in is watched, and no directory is watched before it is open |
| Watcher.EveryDirectoryRegistered | FileSystemWatcherLinux.cpp:147-154 | after a walk that gets through every directory of the tree has one watch descriptor that gives its path, and nothing else has |
| Watcher.FileSystemWatcherLinux.WatchDir | FileSystemWatcherLinux.cpp:122-183 | the stack loop ends and does what the recursive walk does, in the same order, also when a directory fails |
| Watcher.FileSystemWatcherLinux.HandleInotifyEvent | FileSystemWatcherLinux.cpp:268-340 | what a file event does to the pending move and what the listener is told |
| Watcher.FileSystemWatcherLinux.HandleRead | FileSystemWatcherLinux.cpp:370-381 | the record loop handles the events of one read, all of them, in order |
| Moves.MovesBalance | FileSystemWatcherLinux.cpp:273-330 | in every run moves started are moves ended, timed out or pending, and every half is a start, an end or dropped |
| Moves.ToldExactly | FileSystemWatcherLinux.cpp:270-324 | in every run the listener is told, in order, of exactly the files written, the files deleted, the halves given up after five seconds and the moves completed, in terms of the flags and names of the events |
| Moves.GivenUpCame | FileSystemWatcherLinux.cpp:273-286 | a half that is told of alone came more than five seconds before, and is told on the side it was moved from or to |
| Moves.MoveJoinsHalves | FileSystemWatcherLinux.cpp:314-324 | a move with two names joins two halves of one cookie, from the old name to the new, whichever came first |
| Moves.RecordReadBack | FileSystemWatcherLinux.cpp:376-379 | a record is read as the event it was made of, wherever it stands in the buffer |

## Left out

- Moves.MoveJoinsHalves: assumes of the kernel that the two halves of one move have opposite directions.
- WorkerRuns.OutputInvAlways: holds for runs that drop no result; `WorkerRuns.AnnouncedLength` gives the exact condition in runs that do.
- Other clients use tokens and, while this worker is connected, session keys of their own; tokens are random and a collision is not modelled.
- rpclib, msgpack and sockets; time-outs as real time. A wait ends when its parameter says so.
- Mutexes, condition variables and races: steps are atomic. Nothing is claimed about shutting down the daemon, where `isIdle` locks a mutex that `start` holds.
- SQLite itself, SQL errors, `connect` and `isDBInitialized`. The time stamps of `queue` are left out. Ids stay below 2^31, where `atoi` and `uint32_t` agree with the database.
- Real files: a stream is its content, a position and an open flag. Reading sources does not fail, and they do not change while open. Temp files and media files have no names in common.
- Encoder and probe processes, command lines and texts of errors; `launch` succeeds. File times, file copying and the removal of temp files.
- Directory events of the watcher, which subscribes to no creations; events about a watched directory itself, which carry no name; folders given by a regular expression; an exception from the listener.
- The filter for interesting file names is any predicate.
- Configuration, command line, signals, fork and logging.
- `encResult` of a cleared session is 0 here and indeterminate in the original; it is assigned before it is read.
