# Verified model of the ArcLink server and its companions

This project models the concurrent parts of the ArcLink data service and of three small tools
beside it, and proves what they keep over all their runs.

- **Command buffer** (`CommandFifo.dfy`): the buffer through which every connection and every
  request handler is read. It is split in place; the specification is written on the whole byte
  stream, which knows nothing of the pieces in which the bytes arrive.
- **Queue** (`Prioritizer.dfy`): one list of requests per type and user, served in turn by a cursor
  that has to survive inserts and erases.
- **Scheduler and store** (`Server.dfy`, `ServerLoop.dfy`): the event loop that hands requests to a
  bounded pool of handler processes, the table of requests in memory and on disk, the cleaner, and
  shutdown. `Server` is the state machine and its invariant; `ServerLoop` is the class with its
  loops, each proved to do what the state machine says.
- **Turns of the types** (`TypeTurns.dfy`): when requests of one type keep those of another waiting.
- **Restarts** (`Restart.dfy`, `Accepted.dfy`, `RestartExample.dfy`): what a life of the server leaves
  behind in the state file and in the request directory, and what the next life makes of it. The
  invariant is proved for all runs of all lives, and that no accepted request gets lost.
- **Handler** (`Handler.dfy`, `Writing.dfy`): the life of one handler process: started, fed, asked to
  terminate, killed, restarted.
- **Request** (`Requests.dfy`, `Persistence.dfy`): lines and volumes, which share line objects, the
  responses that change them, and the form in which requests are saved and restored.
- **Delivery** (`Delivery.dfy`, `Encryption.dfy`): status documents cut into blocks, downloads sent
  volume by volume, and the length of the encrypted output, which is announced before it is known.
- **Shared handles** (`Sharing.dfy`): the reference-counting pointer used for all of this.
- **Proxy** (`ProxyRequest.dfy`, `ProxyPurges.dfy`, `ProxyContainer.dfy`, `ProxyThread.dfy`): requests shared
  by sessions, executing threads and a scheduler thread. `ProxyRequest` and `ProxyContainer` are state
  machines whose events are what one thread does without another being able to come between;
  `ProxyPurges` counts how often a purge is issued, and `ProxyThread` is the container's code.
- **Synchronisation** (`StationGroups.dfy`, `Instruments.dfy`): rebuilding station groups from another
  node, and removing instruments that nothing refers to.
- **Delays** (`Delays.dfy`): the reordering of records in the real-time simulator.

What sockets, `select()`, `read()`, `write()`, `waitpid()`, clocks and files do is an input of the
steps, with every allowed outcome.

## Findings

Some things that the code or its comments suggest do not hold in general. For each there is the
exact condition, and where it says so a run that shows the failure. Lines are those of
`src/arclink/apps/arclink/arclink.cc` unless another file is named.

- An internal check in `Reqhandler::term_proc` can stop the server (1490-1525): a response left over
  in the pipe of a dead process is rejected on behalf of a request attached since
  (`Handler.CheckKeeps`, `Handler.LeftoverResponse`).
- A purged request stays in the queue as a zombie if and only if it is both queued and ready
  (3276-3298, `Server.PurgeLeavesQueue`). In the life that begins with a restart, a ready request or a
  zombie is queued at some time if and only if a request was put back into the queue whose file calls
  it finished (3918-3983, `Restart.QueueStaysFresh`, `Restart.RestartQueuesReady`);
  `RestartExample.ZombieInQueue` is a whole run.
- After a restart a request can be known without being found (3247-3274), if and only if a finished
  request was purged between save_state() and the end of the life before, or had no file already
  (3859-3983, `Restart.AlwaysFound`, `Restart.NextIsComplete`).
- The type counter does not move on when a request is found (3553-3574). In a call of check() the type
  served last takes all the room there is, if and only if as many of it are queued, and may be handled,
  as there is room for, or nothing else can be served; while that lasts, other types wait
  (`TypeTurns.OthersWait`, `TypeTurns.OthersWaitOn`).
- When a read fails during a download, the client gets END in mid-stream and then the rest, once for
  each failing read (2469-2474). The reply is what it should be if and only if no read has failed
  (`Delivery.FetchRequest`, `Delivery.OneFailedRead`).
- A volume that cannot be opened ends a download as if it were complete: END is sent in its place and
  the volumes behind it are not sent, although their sizes were announced (1203-1218, 2476-2485).
  Every downloadable volume is sent if and only if every one can be opened (`Delivery.AllSent`,
  `Delivery.CutShort`, `Delivery.MissingFile`).
- The announced length of an encrypted download is right if and only if the context was not used
  before (`src/arclink/apps/arclink/encrypt.cc`:66-74); a download that is given up does not reset it
  (2110-2128, `Encryption.AnnouncedExactly`, `Encryption.AbandonThenDownload`).
- The announced size of a plain download counts all volumes (948-956); with files of the recorded sizes
  it is the number of bytes if and only if those that cannot be downloaded and those that are not
  reached have size 0 (`Delivery.AnnouncedSize`).
- After a restore, a line in work that belongs to no volume is lost by the next save (1279-1302,
  `Persistence.SurvivorsInGeneral`).
- ERROR cancels all lines of the request, also those in finished volumes, although the comment in the
  code speaks of the lines in no volume (1119-1137, `Requests.Request.RespondError`).
- A station group loses a station if and only if two of its references clash, that is, the local id
  of one station is the remote id of another one that comes later
  (`src/arclink/apps/syncarc/sync_arc.py`:1582-1597, `StationGroups.ExactlyWanted`,
  `StationGroups.ClashExample`).
- The proxy issues the purge of an upstream request as often as closing loops pass it with the flag
  set (`src/arclink/apps/proxy/arclinkproxy.py`:106-120, 289-302): at most once if and only if at most
  one such loop begins (`ProxyPurges.AtMostOnce`), and twice if the last user leaves between the flag
  and the lock (`ProxyPurges.OnceOrTwice`, `ProxyRequest.IssuedTwice`).
- An execution that ends before the request is ready takes one of the proxy's places for executing
  requests for good (`arclinkproxy.py`:497-505, `ProxyContainer.PlaceLost`,
  `ProxyContainer.PlaceCanBeLost`), and when all are lost nothing is started any more
  (`ProxyContainer.Starved`).

## Model

| member | source | states |
|---|---|---|
| CommandFifo.CutAnywhere | src/arclink/libs/slutils/utils.cc:170-187 | splitting a stream does not depend on where it is cut: only the unterminated tail is carried over, for the commands, the tail and the longest line |
| CommandFifo.FullBuffer | src/arclink/libs/slutils/utils.cc:179-183 | a buffer of at most m bytes has a line of m bytes only if it is full and one single line without terminator |
| CommandFifo.SplitUndoesFraming | src/arclink/libs/slutils/utils.cc:170-177 | splitting the bytes that feed a request, one line and CR LF each, gives back the lines, if they are not empty and hold neither CR nor LF |
| CommandFifo.LineIsOneCommand | src/arclink/libs/slutils/utils.cc:170-177 | a non-empty line without CR and LF, blanks and all, is exactly one command when it is ended by CR LF, by LF alone or by CR alone, and none before |
| CommandFifo.CommandsAreLines | src/arclink/libs/slutils/utils.cc:170-177 | no command and nothing that is kept back holds CR or LF, and no command is empty |
| CommandFifo.LongestLineIs | src/arclink/libs/slutils/utils.cc:179-183 | the longest line has m bytes or more if and only if the stream has m bytes in a row without CR and LF |
| CommandFifo.CFIFO.Split | src/arclink/libs/slutils/utils.cc:170-177 | the in-place loop stays within the buffer for any bytes; without NUL bytes the non-blank strings it hands over are the commands of the buffer, and it stops at the tail |
| CommandFifo.CFIFO.Check | src/arclink/libs/slutils/utils.cc:151-190 | one call: return value or exception for each outcome of read(), what is delivered and what is kept; overflow exactly when a line reaches cmdmaxlen bytes; afterwards there is room for a non-empty read |
| CommandFifo.ReadStream | src/arclink/libs/slutils/utils.cc:151-190 | for every way reads split a NUL-free stream: the non-blank commands delivered are those of the whole stream, up to an overflow, which happens if and only if some line is too long; nothing delivered holds CR or LF |
| Prioritizer.AtMostOneTurn | src/arclink/apps/arclink/arclink.cc:2701-2753 | while user u waits, every other user is served at most once, and not at all unless ahead of u at the start, whatever put and remove calls come between |
| Prioritizer.BoundedWait | src/arclink/apps/arclink/arclink.cc:2701-2722 | u is served after at most as many calls of get as there are users ahead of u, whatever put and remove calls come between |
| Prioritizer.FirstInFirstOut | src/arclink/apps/arclink/arclink.cc:2673-2753 | per user, what is served and then what is left is what was queued and put, in that order, without what remove took |
| Prioritizer.QueueStaysValid | src/arclink/apps/arclink/arclink.cc:2673-2753 | the cursor always points at a user with queued requests, and no empty list is kept, across inserts and erases |
| Prioritizer.RequestPrioritizer.Put | src/arclink/apps/arclink/arclink.cc:2673-2699 | accepted if and only if the user is below the limit over all types; the queue of the type grows at its end, all others are unchanged; the count of the user goes up by one |
| Prioritizer.QueuedForIsSum | src/arclink/apps/arclink/arclink.cc:2679-2684 | what is compared with the limit is the number of requests in the lists of the user, over all six types |
| Prioritizer.PutCountsOne | src/arclink/apps/arclink/arclink.cc:2679-2699 | an accepted request counts as one more for its user, and for nobody else |
| Prioritizer.LessIs | src/arclink/apps/arclink/arclink.cc:2649-2650 | the users take their turns in lexicographic order: a prefix comes first, otherwise the first character that differs decides |
| Prioritizer.RequestPrioritizer.Get | src/arclink/apps/arclink/arclink.cc:2701-2722 | serves the first request of the user whose turn it is, moves the cursor on, and changes no other queue |
| Prioritizer.RequestPrioritizer.Remove | src/arclink/apps/arclink/arclink.cc:2724-2753 | found if and only if the request is queued; takes out exactly that one and keeps the cursor valid |
| Server.Check | src/arclink/apps/arclink/arclink.cc:3576-3857 | one turn of the main loop keeps the invariant, whatever the handlers answer and the clients ask for |
| Server.CheckInSteps | src/arclink/apps/arclink/arclink.cc:3576-3857 | what check() does, in which order, and what is left out while the server goes down, when select() is interrupted, and when no cleanup is due |
| Server.AllSaturatedOrEmpty | src/arclink/apps/arclink/arclink.cc:3553-3574 | when no type is found, every type is saturated or has nothing queued, whichever type was tried first |
| Server.AttachExactly | src/arclink/apps/arclink/arclink.cc:3596-3613 | a request gets the first free handler, or else a new one, and counts for its type and no other |
| Server.DetachOneExactly | src/arclink/apps/arclink/arclink.cc:3637-3672 | a ready request leaves its handler free at the end of the free ones and is saved unless it was purged; a purged one that is not ready leaves its handler to be shut down; its type is counted down; all other handlers are passed |
| Server.SaveExactly | src/arclink/apps/arclink/arclink.cc:3655-3661 | the request is on disk as ready and its info says so; every other id is as it was |
| Server.FeedOneExactly | src/arclink/apps/arclink/arclink.cc:3736-3755 | only the handler's own request may become ready, and the handler is erased if and only if its process is gone and it was told to go |
| Server.FeedReachesAll | src/arclink/apps/arclink/arclink.cc:3736-3755 | over the whole loop a request becomes ready if and only if a busy handler that works on it answers so: erasing skips no handler |
| Server.StillFreeExactly | src/arclink/apps/arclink/arclink.cc:3757-3776 | free handlers stay if their processes live, and of those that are gone exactly the ones not told to go stay, in order |
| TypeTurns.OthersWait | src/arclink/apps/arclink/arclink.cc:3553-3614 | in one call of check() only the type served last gets handlers, if and only if there is room for no more requests than are queued of it and may be handled, or no other type can be served |
| TypeTurns.GreedyType | src/arclink/apps/arclink/arclink.cc:3553-3614 | for a type that may have all handlers that means that as many of it are queued as there is room for |
| TypeTurns.OthersWaitOn | src/arclink/apps/arclink/arclink.cc:3553-3877 | as long as there is no more room in each call of check(), no request of another type is begun, however many calls there are |
| Server.AssignKeeps | src/arclink/apps/arclink/arclink.cc:3591-3614 | handing out requests keeps the invariant and ends with the hard limit reached or nothing left to serve |
| Server.HandOutKeeps | src/arclink/apps/arclink/arclink.cc:3591-3614 | one round of it keeps the invariant, and the request fits under the limit of its type: the internal checks on the counters hold |
| Server.DetachDetaches | src/arclink/apps/arclink/arclink.cc:3634-3697 | after the detach loop no remaining busy handler has a ready or purged request |
| Server.FeedKeeps | src/arclink/apps/arclink/arclink.cc:3736-3755 | feeding the handlers keeps the invariant |
| Server.FeedOneKeeps | src/arclink/apps/arclink/arclink.cc:3736-3755 | one round of it keeps the invariant, and a handler that is erased has no request |
| Server.FreeHandlersStay | src/arclink/apps/arclink/arclink.cc:3757-3776 | no free handler reports that it is gone unless it was told to shut down |
| Server.CleanerSparesLive | src/arclink/apps/arclink/arclink.cc:3801-3841 | the cleaner swaps out or purges no request that is queued or in work and not yet purged |
| Server.CleanUpKeeps | src/arclink/apps/arclink/arclink.cc:3801-3841 | the cleaner keeps the invariant |
| Server.CleanUpExactly | src/arclink/apps/arclink/arclink.cc:3801-3841 | a known id is forgotten, with memory entry and file, if and only if it is ready, purge_time is not 0 and its time stamp plus purge_time is before now, and its request then becomes a zombie; one that stays keeps its file, and leaves memory if and only if it is ready, swapout_time is not 0 and its time stamp plus swapout_time is before now |
| Server.CleanUpSpares | src/arclink/apps/arclink/arclink.cc:3801-3841 | what is left is as it was, nothing but requests that are forgotten become zombies, and queues, handlers, pending requests and the counter are untouched |
| Server.ClientKeeps | src/arclink/apps/arclink/arclink.cc:3198-3316 | new, queued, looked-up, purged and abandoned requests keep the invariant |
| Server.NewIdIsNew | src/arclink/apps/arclink/arclink.cc:3198-3218 | the next id differs from every id that is known, queued, handled or being written |
| Server.NewRequestExactly | src/arclink/apps/arclink/arclink.cc:3198-3218 | a new request gets the value of the counter as its id, and the counter goes up by one |
| Server.QueueRequestExactly | src/arclink/apps/arclink/arclink.cc:3220-3227 | an accepted request is known, not ready, in memory, and last in the list of its user and type; all other lists are as they were; a refused one leaves no trace |
| Server.DecideExactly | src/arclink/apps/arclink/arclink.cc:2679-2687 | a request is accepted if and only if there is no limit per user or the number of requests its user has queued, of all six types together, is below it |
| Server.FindRequestExactly | src/arclink/apps/arclink/arclink.cc:3300-3316 | for the owner and the administrator only: the time stamp is now, and the request is in memory if it was or has a file; nothing else changes |
| Server.PurgeRequestExactly | src/arclink/apps/arclink/arclink.cc:3276-3298 | for the owner and the administrator only: info, memory entry and file of this id go, and its request, in memory or on disk, becomes a zombie |
| Server.PurgeLeavesOthers | src/arclink/apps/arclink/arclink.cc:2724-2753 | purging takes no other request out of the queue |
| Server.ShutDownKeeps | src/arclink/apps/arclink/arclink.cc:3859-3877 | shutdown keeps the invariant |
| Server.ShutDownExactly | src/arclink/apps/arclink/arclink.cc:3859-3870 | every handler, busy or free, is told to go and keeps its request; exactly the requests in work that are not ready become zombies |
| Server.PurgeLeavesQueue | src/arclink/apps/arclink/arclink.cc:3276-3298 | a purged request that is queued stays in the queue as a zombie if and only if it is ready |
| Restart.EveryRun | src/arclink/apps/arclink/arclink.cc:3553-3983 | in every state that any life of the server reaches, from any well-formed state file and request directory, before the state is saved and after it until the end: num_handlers[t] is the number of busy handlers of type t and within max_handlers[t], all handlers within max_handlers_hard, queued requests are not in work and are live or left over by a purge, requests in work are live or purged, and the next id is new |
| Accepted.EveryRun | src/arclink/apps/arclink/arclink.cc:3198-3877 | while the server is not going down, each accepted request that is neither finished nor purged is queued or in work: none gets lost |
| Accepted.UnfinishedComesBack | src/arclink/apps/arclink/arclink.cc:3859-3983 | a request that is unfinished when the state is saved comes back into the queue of the next life, if and only if it is not purged before the end |
| Accepted.NextLifeMissesNone | src/arclink/apps/arclink/arclink.cc:3859-3983 | the same for whole lives: what is put back into the queue is exactly what was unfinished when the state was saved, but for what was purged since |
| Restart.AlwaysFound | src/arclink/apps/arclink/arclink.cc:3247-3274 | every known id is in memory or on disk throughout a life to its end, if and only if the life began with a file for each request that the state file calls finished |
| Restart.QueueStaysFresh | src/arclink/apps/arclink/arclink.cc:3918-3956 | no finished request and no zombie is ever queued in a life to its end, if and only if no request was put back into the queue whose file calls it finished |
| Restart.NextIsWellFormed | src/arclink/apps/arclink/arclink.cc:3958-3983 | state file and request directory after save_state(), shutdown() and whatever happens until the end are well-formed: the next life may begin with them |
| Restart.RecoveredIsWellFormed | src/arclink/apps/arclink/arclink.cc:3879-3916 | the same when there is no state file; then each known request has its file, and none comes back both queued and finished |
| Restart.NextIsComplete | src/arclink/apps/arclink/arclink.cc:3859-3983 | the next life begins with a file for each finished request, if and only if each had its file when the state was saved and none was purged between that and the end |
| Restart.AfterLives | src/arclink/apps/arclink/arclink.cc:3879-3983 | any number of lives, each ended by save_state() or without it, leave a well-formed state file and request directory |
| Restart.DetachSaves | src/arclink/apps/arclink/arclink.cc:3634-3697 | a ready request that was not purged is on disk, marked as ready, after the detach loop |
| Restart.RestartQueuesReady | src/arclink/apps/arclink/arclink.cc:3918-3983 | a request that became ready but was not detached before save_state() is ready and queued in the next life, unless it is purged before the end of this one |
| Restart.PurgeLeavesZombie | src/arclink/apps/arclink/arclink.cc:3276-3298 | if its user purges it while it is still queued, it stays in the queue as a zombie |
| RestartExample.ZombieInQueue | src/arclink/apps/arclink/arclink.cc:3859-3983 | a whole run that ends with a zombie in the queue: two requests, save_state(), shutdown, check(), restart, purge |
| ServerLoop.Arclink.GetNextReqFromQueue | src/arclink/apps/arclink/arclink.cc:3553-3574 | the loop over the types finds what NextType says, and takes that request out of its queue |
| ServerLoop.Arclink.AssignRequests | src/arclink/apps/arclink/arclink.cc:3591-3614 | the loop does what Assign says, and stops with the hard limit reached or nothing left |
| ServerLoop.Arclink.ShutDownUnneeded | src/arclink/apps/arclink/arclink.cc:3619-3626 | shuts down one free handler if there are more than max_handlers_soft |
| ServerLoop.Arclink.DetachRequests | src/arclink/apps/arclink/arclink.cc:3634-3697 | the loop that erases from the list while it runs over it does what Detach says |
| ServerLoop.Arclink.FeedHandlers | src/arclink/apps/arclink/arclink.cc:3736-3755 | the same for the loop over the busy handlers behind select() |
| ServerLoop.Arclink.CheckFreeHandlers | src/arclink/apps/arclink/arclink.cc:3757-3776 | the same for the free handlers |
| ServerLoop.Arclink.QueueRequest | src/arclink/apps/arclink/arclink.cc:3220-3227 | accepted, and then registered, if and only if there is no limit per user or the user has fewer requests queued |
| ServerLoop.Arclink.GetRequest | src/arclink/apps/arclink/arclink.cc:3247-3274 | finds the request in memory, or loads it from its file |
| ServerLoop.Arclink.FindRequest | src/arclink/apps/arclink/arclink.cc:3300-3316 | finds a request the user may access, updates its time stamp and loads it |
| ServerLoop.Arclink.PurgeRequest | src/arclink/apps/arclink/arclink.cc:3276-3298 | allowed to the owner and the administrator; the request becomes a zombie and is forgotten |
| ServerLoop.Arclink.CleanUpRequests | src/arclink/apps/arclink/arclink.cc:3801-3841 | the loop over all ids purges and swaps out exactly the ids that are due: the conditions on ready, time stamp, purge_time and swapout_time are written out |
| ServerLoop.Arclink.ShutDownAll | src/arclink/apps/arclink/arclink.cc:3859-3870 | all handlers are shut down, and requests in work that are not ready become zombies |
| ServerLoop.Arclink.BeforeSelectStep | src/arclink/apps/arclink/arclink.cc:3576-3697 | check() up to select(), on the whole state |
| ServerLoop.Arclink.AfterSelectStep | src/arclink/apps/arclink/arclink.cc:3736-3857 | check() from select() on, on the whole state; of the events asked for all are served, in order, and only the queueing of a request is decided by the limit |
| ServerLoop.Arclink.ServeClients | src/arclink/apps/arclink/arclink.cc:3778-3799 | all events are served, in order, each as Decide says |
| ServerLoop.Arclink.CheckAll | src/arclink/apps/arclink/arclink.cc:3576-3857 | the whole of check() does what Check says, on the events as decided |
| ServerLoop.Arclink.Restarted | src/arclink/apps/arclink/arclink.cc:3918-3956 | after restore_state() the server is in the state that Restored says: the ids of the state file are known, those not finished and with a file are queued in the order in which the loop comes to them, those not finished and without a file are forgotten |
| ServerLoop.Arclink.SaveStateFile | src/arclink/apps/arclink/arclink.cc:3958-3983 | the loop saves exactly the requests in memory that are not ready, and the state file holds the ids and the counter |
| Handler.EveryRun | src/arclink/apps/arclink/arclink.cc:1586-1735 | in each life of the process, what was fully written since the latest attach or restart is a gap-free prefix of the content from its first line, and what is in the pipe is exactly the framed lines while the handler is active |
| Handler.CheckKeeps | src/arclink/apps/arclink/arclink.cc:1681-1735 | check() keeps the invariant, reports the handler as gone only after shutdown(), and its internal check fails exactly when a leftover response of a dead process is rejected on behalf of a request attached since |
| Handler.RespondKeeps | src/arclink/apps/arclink/arclink.cc:1527-1558 | any sequence of responses keeps the invariant; the internal check fails exactly when one is rejected without a process |
| Handler.PushKeeps | src/arclink/apps/arclink/arclink.cc:1652-1679 | a line counts as sent only when all of it was written; a partial write ends the feeding of this process |
| Handler.RestartReplays | src/arclink/apps/arclink/arclink.cc:1586-1650 | a restart begins with the first line and an empty pipe |
| Handler.FedToTheEnd | src/arclink/apps/arclink/arclink.cc:1652-1679 | from any state in which the handler is active, as many pushes as lines are left, each writing its whole line, end with all lines sent, from the first to the last, and the handler still active |
| Handler.StartedGetsAll | src/arclink/apps/arclink/arclink.cc:1586-1679 | a process that was just started gets the whole content, and splitting what it reads gives exactly its lines |
| Handler.WithoutProcess | src/arclink/apps/arclink/arclink.cc:1690-1716 | without a process: after shutdown() the handler is gone if and only if a kill was sent or the response pipe is closed; otherwise it is restarted if and only if it was used or the delay has passed, with new pipes and the same request from its first line |
| Handler.WithProcess | src/arclink/apps/arclink/arclink.cc:1718-1733 | with a process: it is asked to terminate if and only if its responses have ended, and killed if and only if that takes too long |
| Handler.BeforeManage | src/arclink/apps/arclink/arclink.cc:1437-1584 | before that: an ended response pipe is closed, any rejected response ends with asking the process to terminate, and a dead process takes its request pipe along |
| Handler.LeftoverResponse | src/arclink/apps/arclink/arclink.cc:1490-1558 | a run in which the internal check fails |
| Handler.Reqhandler.PushRequest | src/arclink/apps/arclink/arclink.cc:1652-1679 | active and with lines left, a complete write adds exactly the next line and moves on by one, and any other ends the feeding and asks the process to terminate; nothing happens only if the handler is not active, has no request or has sent all lines |
| Handler.Reqhandler.CheckResponse | src/arclink/apps/arclink/arclink.cc:1560-1584 | reads the response pipe and passes the commands on, or closes it |
| Handler.Reqhandler.Check | src/arclink/apps/arclink/arclink.cc:1681-1735 | restarts, terminates, kills or reports the handler as Checked says |
| Handler.Reqhandler.Shutdown | src/arclink/apps/arclink/arclink.cc:1737-1746 | asks a living process to terminate, once |
| Writing.WritenTmo | src/arclink/libs/slutils/utils.cc:67-103 | a positive result means all bytes were written, any other that a proper prefix was |
| Writing.Writen | src/arclink/libs/slutils/utils.cc:46-65 | the same without time-out |
| Requests.RequestLine.Cancel | src/arclink/apps/arclink/arclink.cc:641-649 | cancels unset, processing, finished and warned lines and no others |
| Requests.CancelVolumes | src/arclink/apps/arclink/arclink.cc:699-711 | a volume and its lines are cancelled once, although volumes may share line objects with each other and the request |
| Requests.Request.PushLine | src/arclink/apps/arclink/arclink.cc:1161-1168 | keeps the line in content and in the vector, or drops it when the content is full |
| Requests.Request.PushEnd | src/arclink/apps/arclink/arclink.cc:1170-1176 | accepted if and only if header, all lines pushed and END fit into max_lines; then no line was dropped |
| Requests.LineNumbers | src/arclink/apps/arclink/arclink.cc:964-971 | line n is the n-th entry behind the header |
| Requests.EveryLineMayBeReported | src/arclink/apps/arclink/arclink.cc:964-971 | for every entry of the content behind the header, but for END, each STATUS LINE response with its number is accepted, up to the last line |
| Requests.CancelEnds | src/arclink/apps/arclink/arclink.cc:641-649 | cancelling leaves cancelled, failed, denied and empty lines as they are, and turns all others into cancelled ones of size 0 |
| Requests.LastChangeCounts | src/arclink/apps/arclink/arclink.cc:1034-1077 | each STATUS response sets status, message or size and keeps the other two |
| Requests.Request.RespondCancel | src/arclink/apps/arclink/arclink.cc:1080-1118 | after CANCEL no line is unset, processing, finished or warned, no volume is processing, nothing is downloadable, and the request is ready |
| Requests.Request.RespondError | src/arclink/apps/arclink/arclink.cc:1119-1137 | after ERROR the same for lines and processing volumes, but what was downloadable stays so; all lines of the request are cancelled, those of finished volumes, too |
| Requests.Request.RespondProcessing | src/arclink/apps/arclink/arclink.cc:973-993 | the line moves to the volume, which is made if there is none |
| Requests.Request.RespondStatus | src/arclink/apps/arclink/arclink.cc:958-1078 | a LINE response is accepted if and only if its number is below the number of lines, a VOLUME response if and only if there is the volume, what each makes of the line or the volume and its lines, and that no other line and no other volume is changed |
| Requests.Request.Respond | src/arclink/apps/arclink/arclink.cc:1080-1159 | the same for all responses, malformed ones being the only others that are refused; what each changes, that nothing else is changed, and when ready, error and restricted are set |
| Requests.Request.Reset | src/arclink/apps/arclink/arclink.cc:890-905 | all lines are unset, and there are no volumes |
| Requests.Request.RunHandlers | src/arclink/apps/arclink/arclink.cc:890-1159 | over all responses and resets: ready is never taken back and is set exactly by END, CANCEL or ERROR; content and lines never change |
| Persistence.SaveAndRestore | src/arclink/apps/arclink/arclink.cc:1248-1337 | volumes that are neither unset nor processing come back with the same id, status, size and message, and lines with the same text, status, size and message; the content is header, surviving lines, END |
| Persistence.ExactlyUnfinishedSurvive | src/arclink/apps/arclink/arclink.cc:1279-1302 | if each line is unset or in exactly one volume, exactly the lines of no finished volume survive, each once |
| Persistence.SurvivorsInGeneral | src/arclink/apps/arclink/arclink.cc:1279-1302 | in general a line survives if and only if it is unset or in an unfinished volume; a line in work in no volume is lost |
| Persistence.SavedForm | src/arclink/apps/arclink/arclink.cc:713-735 | what the saved form holds of volumes and lines |
| Persistence.SavedInOrder | src/arclink/apps/arclink/arclink.cc:1279-1302 | the saved form has the volumes in lexicographic order of ids, each with its own data, and then the untouched lines, if any, as a volume UNSET |
| Persistence.GetXml | src/arclink/apps/arclink/arclink.cc:1248-1302 | the two loops build the saved form |
| Persistence.Restore | src/arclink/apps/arclink/arclink.cc:1304-1337 | restoring any saved form gives its finished volumes, and the other lines in no volume |
| Delivery.XMLOutput.IoWrite | src/arclink/apps/arclink/arclink.cc:458-483 | appends exactly the bytes given, queueing each block as it becomes full |
| Delivery.XMLOutput.IoClose | src/arclink/apps/arclink/arclink.cc:485-492 | queues the rest, if any: no empty block |
| Delivery.WriteDoc | src/arclink/apps/arclink/arclink.cc:458-502 | for every sequence of writes the blocks hold exactly the bytes, all but the last are full and none is empty |
| Delivery.Connection.DoDeliver | src/arclink/apps/arclink/arclink.cc:2393-2549 | one step moves bytes from what remains to what was sent, or a write has failed and a prefix was sent; a failing read sends END and leaves all else as it was; Retry makes progress |
| Delivery.Connection.Deliver | src/arclink/apps/arclink/arclink.cc:2551-2575 | the Retry loop ends whatever the reads and writes do; nothing is lost, repeated or reordered, ENDs come in only where reads have failed, and each call comes nearer to the end or sends one such END; the connection is given up only when a write has failed |
| Delivery.Connection.CommandDownload | src/arclink/apps/arclink/arclink.cc:2081-2128 | what a download command is going to send, first of all the sum of the sizes in decimal digits; a blocking one of a request that is not ready stays pending |
| Delivery.DecimalIsRead | src/arclink/apps/arclink/arclink.cc:2126-2126 | the digits of a number, read from left to right, give the number back, without leading zeros |
| Delivery.ReplyIsAnnounced | src/arclink/apps/arclink/arclink.cc:2126-2126 | if the first downloadable volume opens, the first line of the reply is the sum of the sizes in decimal digits; otherwise the reply is ERROR |
| Delivery.SizesAdd | src/arclink/apps/arclink/arclink.cc:948-956 | the size of a request is the sum of the sizes of its volumes, each counted once |
| Delivery.Connection.DeliverAll | src/arclink/apps/arclink/arclink.cc:2393-2575 | over any number of calls, any split and failure of reads and writes, and any change of the request before its reply is opened: a delivery that ends has sent exactly what there was, with the ENDs of the failing reads; it ends after as many calls as there are bytes and such ENDs; it is lost only by a write that fails in the last call made, and each call before has sent something |
| Delivery.FetchRequest | src/arclink/apps/arclink/arclink.cc:1178-1218 | at its end the client has exactly the reply of the volumes at the time it was opened, if and only if no read has failed; otherwise the ENDs of the failing reads are within the body; if the first downloadable volume opens, the reply is the sum of the sizes in decimal digits, the files of the downloadable volumes in order of ids up to the first that does not open, END, so every downloadable volume is sent if and only if every one opens; and it comes to its end after as many calls as there are bytes and ENDs |
| Delivery.OpenedIsPrefix | src/arclink/apps/arclink/arclink.cc:1203-1218 | what is sent is what is downloadable, in order of ids, up to the first volume that does not open |
| Delivery.WantedAreDownloadable | src/arclink/apps/arclink/arclink.cc:1178-1218 | each downloadable volume is wanted exactly once, in order of ids, and no other |
| Delivery.AllSent | src/arclink/apps/arclink/arclink.cc:1203-1218 | every downloadable volume is sent if and only if every one can be opened |
| Delivery.CutShort | src/arclink/apps/arclink/arclink.cc:1203-1218 | three volumes of which the second does not open: END comes after the first, and 3 bytes were announced |
| Delivery.MissingFile | src/arclink/apps/arclink/arclink.cc:2476-2485 | for every ready request of which a downloadable volume other than the first does not open, the client gets the files before it and END, and nothing of it or of those behind it |
| Delivery.CleanOnlyWithoutFaults | src/arclink/apps/arclink/arclink.cc:2469-2474 | what is sent is what was to be sent if and only if no END was inserted |
| Delivery.OneFailedRead | src/arclink/apps/arclink/arclink.cc:2469-2474 | for every ready request: if the first read fails and no other does, the client gets the sum of the sizes in decimal digits, END, the files, END |
| Delivery.FetchStatus | src/arclink/apps/arclink/arclink.cc:2402-2412 | a completed status reply is the bytes of the document and one END; it comes to its end unless a write fails, in the last call made |
| Delivery.BodyIsAllFiles | src/arclink/apps/arclink/arclink.cc:1178-1218 | if all files open, whatever their sizes, the body is the files of the downloadable volumes, each once, in order |
| Delivery.AnnouncedSize | src/arclink/apps/arclink/arclink.cc:948-956 | if the files that open have their recorded sizes, the announced size is the number of bytes sent if and only if the volumes that cannot be downloaded and those that are not reached have size 0 |
| Encryption.AnnouncedExactly | src/arclink/apps/arclink/encrypt.cc:66-74 | the output is as long as expectedSize() says if and only if the context was fresh |
| Encryption.AnnouncedInBlocks | src/arclink/apps/arclink/encrypt.cc:66-74 | the announced length is that of magic bytes, salt and one padded block for no bytes, and grows by 8 for every 8 bytes |
| Encryption.BeginDownload | src/arclink/apps/arclink/encrypt.cc:84-175 | the first bytes of a download that finds the context unused are the magic bytes and the new salt |
| Encryption.Encrypt.Update | src/arclink/apps/arclink/encrypt.cc:141-175 | the magic bytes and the salt come first, once; what comes out and what is held back, and that it fits the buffer; a failing call of the cipher resets the context |
| Encryption.Encrypt.Finish | src/arclink/apps/arclink/encrypt.cc:177-199 | the last block, within the buffer; the context is reset, also when the cipher fails |
| Encryption.EncryptAll | src/arclink/apps/arclink/encrypt.cc:141-199 | for any non-empty sequence of updates and a finish, the summed output is the expected size if and only if the context was fresh |
| Encryption.AbandonThenDownload | src/arclink/apps/arclink/arclink.cc:2110-2128 | after a download that was given up the next one is shorter than announced |
| Encryption.FailThenDownload | src/arclink/apps/arclink/encrypt.cc:177-199 | after a download whose last block failed, which the server answers with END and goes on, the next one is as long as announced |
| Sharing.Memory.FromRaw | src/arclink/libs/slutils/utils.h:50-50 | a handle for a new raw pointer has a count of its own |
| Sharing.Memory.Copy | src/arclink/libs/slutils/utils.h:67-81 | a copy shares the count |
| Sharing.Memory.Cast | src/arclink/libs/slutils/utils.h:134-148 | a cast shares the count if the object has the type, and is empty otherwise |
| Sharing.Memory.Destroy | src/arclink/libs/slutils/utils.h:94-101 | the object is deleted exactly if this was the last handle |
| Sharing.Memory.Assign | src/arclink/libs/slutils/utils.h:83-92 | destroy and copy; assigning a handle to itself changes nothing |
| Sharing.EveryRun | src/arclink/libs/slutils/utils.h:37-148 | over any sequence of operations: a counter exists exactly while handles share it and is their number, each handle points to what its counter was made for, which has not been deleted, and an object without a handle has been deleted once |
| Sharing.DeletedByTheLast | src/arclink/libs/slutils/utils.h:94-101 | an object is deleted by the operation that takes its last handle away, and by no other |
| Sharing.RunAll | src/arclink/libs/slutils/utils.h:37-148 | the class, run on any sequence of operations, comes to the state that EveryRun and DeletedByTheLast are about |
| StationGroups.KeyMapInjective | src/arclink/apps/syncarc/sync_arc.py:109-115 | whatever public ids are shared, no two ids map to the same key |
| StationGroups.FindSID | src/arclink/apps/syncarc/sync_arc.py:117-121 | finds the only id with this key, in whatever order the items come |
| StationGroups.OldReferencesIrrelevant | src/arclink/apps/syncarc/sync_arc.py:1557-1597 | the result does not depend on the old local references |
| StationGroups.ExactlyWanted | src/arclink/apps/syncarc/sync_arc.py:1557-1597 | the stations referred to are exactly the remote ones that exist here if and only if no two references clash |
| StationGroups.NothingUnwanted | src/arclink/apps/syncarc/sync_arc.py:1557-1597 | no station is referred to that the remote group does not have |
| StationGroups.ClashExample | src/arclink/apps/syncarc/sync_arc.py:1582-1597 | two references that clash, so that a station is left out |
| StationGroups.RebuildIdempotent | src/arclink/apps/syncarc/sync_arc.py:1557-1597 | rebuilding one group again changes nothing |
| StationGroups.SyncReferences | src/arclink/apps/syncarc/sync_arc.py:1557-1597 | the three loops over the references of a group compute Rebuild |
| StationGroups.Inventory.DoGroupRebuild | src/arclink/apps/syncarc/sync_arc.py:1505-1597 | every listed group is as the remote node has it, or gone; all others are unchanged |
| StationGroups.ListedGroup | src/arclink/apps/syncarc/sync_arc.py:1537-1597 | a listed group has the remote attributes, and its stations are exactly those wanted if and only if there is no clash |
| StationGroups.SecondRunChangesNothing | src/arclink/apps/syncarc/sync_arc.py:1505-1597 | a second run over the same list changes no group |
| ProxyRequest.PurgedOnlyUnused | src/arclink/apps/proxy/arclinkproxy.py:102-120 | over every interleaving an upstream purge is issued only while nobody uses the request, and after purge() was called |
| ProxyRequest.IdleIsPurged | src/arclink/apps/proxy/arclinkproxy.py:289-302 | once purge() has returned, a request that nobody uses has had a purge issued for everything sent, also if it was sent later |
| ProxyRequest.CountIsUses | src/arclink/apps/proxy/arclinkproxy.py:102-112 | the use count is the number of uses that have not ended; without purge() nothing is purged |
| ProxyRequest.IssuedTwice | src/arclink/apps/proxy/arclinkproxy.py:106-120 | an interleaving in which a purge is issued twice |
| ProxyPurges.OncePerLoop | src/arclink/apps/proxy/arclinkproxy.py:106-120 | over every interleaving the purge of an upstream request is issued once for each closing loop that begins with the flag set, or that finds it set before it has passed that request, but for one still running |
| ProxyPurges.IssuedArePassed | src/arclink/apps/proxy/arclinkproxy.py:111-120 | the purges issued are exactly those of the requests that closing loops pass with the flag set, in this order |
| ProxyPurges.AtMostOnce | src/arclink/apps/proxy/arclinkproxy.py:289-302 | with no closing loop running, the purge of each of distinct upstream requests has been issued as often as closing loops have begun with the flag set, so at most once if and only if at most one has |
| ProxyPurges.OnceOrTwice | src/arclink/apps/proxy/arclinkproxy.py:289-302 | when nobody comes in after purge() was called and all have left: issued twice if and only if the lock finds nobody inside but the flag had found somebody, or a closing loop still to pass the request; otherwise once |
| ProxyRequest.SettleIssues | src/arclink/apps/proxy/arclinkproxy.py:111-120 | a closing loop issues a purge for each upstream request in order, or none |
| ProxyRequest.RequestProxy.DecrUsed | src/arclink/apps/proxy/arclinkproxy.py:106-120 | the last user closes, and purges if that was asked for |
| ProxyRequest.RequestProxy.Purge | src/arclink/apps/proxy/arclinkproxy.py:289-302 | purges at once if nobody uses the request |
| ProxyRequest.RequestProxy.Execute | src/arclink/apps/proxy/arclinkproxy.py:144-193 | stores what was sent, is ready unless an exception came before, and purges if that was asked for in the meantime |
| ProxyContainer.EveryRun | src/arclink/apps/proxy/arclinkproxy.py:431-507 | over every interleaving: queue, queue per user and executing requests stay within their limits, requests are started in the order of their ids and each at most once, and a purged request is not in the queue |
| ProxyContainer.PurgesAreSafe | src/arclink/apps/proxy/arclinkproxy.py:450-459 | the same for all requests in the container: no upstream purge while the request is used |
| ProxyContainer.DeletedIsPurged | src/arclink/apps/proxy/arclinkproxy.py:450-459 | a request that has left the dictionary and that nobody uses has had its purges issued |
| ProxyContainer.PurgedNeverStarted | src/arclink/apps/proxy/arclinkproxy.py:450-459 | a request purged before it was started is never started |
| ProxyContainer.PlaceLost | src/arclink/apps/proxy/arclinkproxy.py:497-505 | an execution that ends without an answer keeps its place among the executing requests for ever |
| ProxyContainer.PlaceCanBeLost | src/arclink/apps/proxy/arclinkproxy.py:487-507 | a run that loses a place, whatever the limits are |
| ProxyContainer.Starved | src/arclink/apps/proxy/arclinkproxy.py:501-505 | when all places are lost, no request is ever started again |
| ProxyContainer.PlaceStep | src/arclink/apps/proxy/arclinkproxy.py:497-499 | a request leaves the executing ones only when the scheduler looks at it and it is ready |
| ProxyContainer.OnlyReadyGiveBack | src/arclink/apps/proxy/arclinkproxy.py:497-499 | over every interleaving a request that was started and is not executing any more is ready |
| ProxyContainer.ReadyGiveBack | src/arclink/apps/proxy/arclinkproxy.py:497-499 | with whatever other threads do meanwhile: after the loop over the executing requests, those that were ready when it began have given their places back, and those that have given them back are ready |
| ProxyThread.RequestContainerThread.Put | src/arclink/apps/proxy/arclinkproxy.py:431-444 | refused if and only if the queue is full or the user has as many in it as the limit allows, and that is not 0; an accepted request is last in the queue |
| ProxyContainer.CountIsNumber | src/arclink/apps/proxy/arclinkproxy.py:436-438 | what is compared with the limit per user is the number of the user's requests in the queue |
| ProxyThread.RequestContainerThread.Purge | src/arclink/apps/proxy/arclinkproxy.py:450-459 | removes the request from queue and dictionary and purges it, or does nothing if it is unknown |
| ProxyThread.RequestContainerThread.Expire | src/arclink/apps/proxy/arclinkproxy.py:491-495 | exactly the requests that are ready and too old are purged and deleted |
| ProxyThread.RequestContainerThread.Reap | src/arclink/apps/proxy/arclinkproxy.py:497-499 | exactly the ready requests stop counting as executing |
| ProxyThread.RequestContainerThread.RunPass | src/arclink/apps/proxy/arclinkproxy.py:487-507 | the old requests are gone, what is executing is what was executing and not ready and what was started, nothing is queued while there is room, and those started are the first of the queue |
| Delays.ReadWithDelays | src/utils/apps/msrtsimul.py:37-59 | the output is a permutation of the input; each record read releases the earliest of those held, if it ends after that one's delayed time, and no other; the rest follows in order; sorted by delayed time if the input is sorted and no delay is negative |
| Delays.OnlyOvertaken | src/utils/apps/msrtsimul.py:44-56 | before the input has ended a record is handed on only after one was read that ends after its delayed time |
| Delays.TimesDetermined | src/utils/apps/msrtsimul.py:52-59 | the order of ties in the heap does not matter: any two such outputs have the same times |
| Delays.OwnDelayFirst | src/utils/apps/msrtsimul.py:37-49 | a record has the delay of its station if there is one, else the default, else none |
| Delays.OthersDoNotCount | src/utils/apps/msrtsimul.py:44-49 | no other entry of the delays matters, and the delayed time is the end time plus the delay |
| Instruments.ResponseStays | src/arclink/apps/syncarc/sync_arc.py:1256-1286 | a response stays if and only if a stream leads to it through the links that count for its kind |
| Instruments.CleanedTwice | src/arclink/apps/syncarc/sync_arc.py:1214-1291 | a second cleanup removes nothing |
| Instruments.SplitJoin | src/arclink/apps/syncarc/sync_arc.py:1246-1251 | the ids of a filter chain are what is between its spaces |
| Instruments.FiltersAreWords | src/arclink/apps/syncarc/sync_arc.py:1246-1251 | a decimation has exactly the filters that its two chains name, the first and the last included |
| Instruments.InstrumentStays | src/arclink/apps/syncarc/sync_arc.py:1225-1253 | a sensor or a datalogger stays, as it is, if and only if some stream names it |
| Instruments.Inventory.CleanInstruments | src/arclink/apps/syncarc/sync_arc.py:1214-1291 | the loops remove exactly the unused sensors, dataloggers and responses |

## Left out

- The parsing of commands and responses into words: `Requests.Response` is the parsed form, with one case for all that is rejected before anything is looked up.
- A STATUS response whose second word is neither LINE nor VOLUME: the code goes on with an empty handle, and the model has no such response.
- The limit on the number of queued requests in `new_request`, which only refuses; the limit per user is modelled.
- The names of states in the saved form and in the status document, and XML as such: a saved request is a sequence of records.
- The order in which restore_state() comes to the ids, which is that of strings, is any order in module Restart.
- Files: saving a request is taken to succeed; the start position of a download, which the code stores and does not use, is left out, too.
- The scheduler's handlers are records that say whether they are gone and what they answer; that `check()` returns true only after `shutdown()` is proved in module Handler and is a condition on the steps in module Server.
- In `Arclink.shutdown` the loop that waits for the processes to end.
- NUL bytes in a command stream: `CommandFifo.CFIFO.Check` keeps the bounds for them and says nothing of what is delivered.
- The contents of encrypted blocks and the writing of them in `do_deliver`, with the second END that a failing last block causes: only lengths are modelled, in module Encryption.
- An encrypted download of no bytes, which cannot be finished in the code: `Encryption.EncryptAll` starts from a non-empty sequence of updates.
- Downloads of one single volume, which use the same steps as whole-request downloads.
- Handler.Reqhandler.Shutdown: says what becomes of the process; that the request is killed if it is not ready is in module Server (`ShutDown`), where requests are shared.
- Delivery.FetchRequest: is about a reply whose request does not change any more once the reply is opened; a ready request that is still attached can be reset when its handler restarts (lines 1619-1623 of arclink.cc), and iterators into its volumes are then not part of this model.
- A new command while a reply is still being sent, which drops the rest of a download.
- ProxyThread.RequestContainerThread.Expire: is stated for a pass in which no request is inside its closing loop, for which the code would wait; the interleavings are covered by ProxyContainer.EveryRun.
- ProxyThread.RequestContainerThread.RunPass: is stated for a pass in which no other thread changes a request meanwhile; the interleavings are covered by ProxyContainer.EveryRun.
- Saving and restoring the proxy's container, sessions as such, and the data that the proxy sends.
- Delays.HeapPop: says which time is smallest and not which of several equal ones comes first, because the library's comparison of records is not part of this model.
- In the station groups the validation of fetched references, which the rebuild presumes, and logging.
- `overlaps`, `isInside`, `Node._add`, `_inventoryClean` and the timer: easy to prove by themselves and not needed here.
- Sockets, signals, locking, authentication, licences, mail, the graphical tools, and the other scripts.
