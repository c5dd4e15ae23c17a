# Verification of the multi-client pager and the network message server

A Dafny model of three parts of the repository, with proofs of what they keep.

* **The pager** (`libpager/pagemap.cc`, `libpager/pagemap.h`). One pager hands the pages of a memory object
  to any number of kernels. It is a directory-based coherence protocol: each page has a set of clients
  with access, a queue of clients that wait, and a few flags; handlers flush, supply, unlock, and write
  back. The author states goals and theorems without proof in `libpager/NOTES`; most are decided here.
* **The worker pool** (`libpager/demuxer.c`, `libpager/queue.h`), which keeps the requests for one object in
  order and lets the translator stop all workers.
* **netmsg** (`netmsg/netmsg.cc`, `machMessage.h`), which relays Mach messages between two nodes,
  translating port names and carrying out-of-line data.

Two smaller parts are the interned pagemap (`libpager/pagemap.h`) and the copying windows of
`libpager/pager-memcpy.c`.

`dafny verify dfyconfig.toml` checks everything.

## How the model is laid out

| file | what it holds |
|---|---|
| `PageSpec.dfy` | one page of the pager: what each critical section of each handler does to it |
| `PagerRun.dfy` | serialized runs on one page; revocation in progress; exclusive write access |
| `Batch.dfy` | what one call of service_WAITLIST does |
| `PagerLedger.dfy` | conservation of requests, and lock accounting, over runs |
| `Messages.dfy` | the pager as one client sees it: exactly the messages that each event sends to it |
| `PageErrors.dfy`, `LateErrors.dfy` | errors of the backing store: which are remembered, and who is told of them and when |
| `PagerLimits.dfy`, `Handover.dfy` | handing a page from a writer to whoever waits: exactly when two writers result, and exactly when the pager stops |
| `Starvation.dfy`, `LateFlush.dfy` | the theorems at `NOTES:947` and `NOTES:949`, and exactly which events make them fail |
| `ReadersWait.dfy`, `ReadersGuarded.dfy` | the same for `NOTES:940`, over all runs, and what is left of it when no dirty return is served twice over |
| `NotesTheorems.dfy`, `BothLists.dfy` | the theorem at `NOTES:945`: for clients that do not ask again, and exactly which events make it fail for others |
| `Coherence.dfy`, `CoherenceProof.dfy` | the pager with its kernels and message channels; only latest versions are ever seen |
| `Incoherence.dfy`, `AskingAgain.dfy` | runs to stale data, each with one hypothesis of that result given up |
| `Pager.dfy` | the pager object: the handlers' loops and updates, each method proved against `PageSpec` |
| `LockTable.dfy` | the table of unanswered lock requests |
| `WriteBack.dfy`, `WriteBackProof.dfy` | WRITEWAIT under every interleaving of threads |
| `Durability.dfy`, `DurabilityLimits.dfy` | what a synchronous lock_object may rely on |
| `Demuxer.dfy`, `DemuxerProof.dfy`, `Workers.dfy`, `Queue.dfy` | the worker pool, as a state machine and as an object |
| `Netmsg.dfy`, `NetmsgMaps.dfy`, `NetmsgPair.dfy`, `NetmsgNode.dfy` | port translation: functions, consistency, two nodes, the object |
| `NetmsgRights.dfy`, `NetmsgDoomed.dfy` | when relaying rights is safe, and what happens when it is not |
| `NetmsgMail.dfy`, `NetmsgMailProof.dfy`, `NetmsgMailSafe.dfy`, `NetmsgMailLimits.dfy` | whole messages between two nodes: where they go, that none is lost, that replies come back, and two ways to go wrong |
| `NetmsgTeardown.dfy` | ports that die |
| `Bytes.dfy`, `Wire.dfy`, `WireProof.dfy`, `WireIo.dfy` | the typed-message format and its network form |
| `WireItems.dfy` | messages as rows of typed items: encoding, sizes, and that all data arrive |
| `MemCopy.dfy` | pager_memcpy |
| `Intern.dfy` | the interned pagemap |

The handlers of the pager hold one lock and drop it around calls to the backing store. A critical section
is modelled as one step; the results of backing-store calls are arbitrary. A failed `assert` ends a run, so
safety is claimed of runs that have not stopped, and where an assertion can fail this is shown. After
`pagemap[n] = tmp` the temporary has an arbitrary value. In `PagerRun` and `Coherence` the handlers of one
pager do not overlap, which is what `DemuxerProof.OrderAndExclusion` gives; only lock requests of the
translator come between their critical sections. `WriteBack` and `Durability` do without that hypothesis.

## What was found

* **Coherence holds** (`CoherenceProof.OnlyLatestVersions`) for kernels that ask only for a page they do not
  have, with no request outstanding, and that give modified data up only in a dirty return; with writes that
  succeed, no discarding flush, and the second call of service_WAITLIST for one dirty return
  (`pagemap.cc:811-812`) entered only when nobody has access.
* **That second call is a defect**: with two batches waiting, a dirty return gives both access.
  `PagerLimits.DirtyReturnExact` says exactly for which queues it is harmless, and
  `PagerLimits.TwoWritersAreReached` reaches two writers. Kernels that keep to all their rules then hold two
  writable copies, one of them stale (`Incoherence.StaleCopyIsReached`).
* **The rule on requests is needed too.** A kernel that is flushed while its unlock request waits and asks for the
  page again (`NOTES:1013-1021`) can be sent the page twice over, and end up with a stale copy that the pager does
  not know of (`AskingAgain.StaleAfterAskingAgain`).
* **A writer that gives the page up as it is told can stop the pager** on the assertion at `pagemap.cc:594`. The
  completion of its flush meets a flag that is still set: because nobody waited, because the last client served was
  a writer, or because the writer had nothing to return and sends only the completion. From every idle state
  `Handover.HandoverExactly`, `Handover.CleanHandoverExactly` and `Handover.CompletionHalts` say when this happens,
  whoever waits and whoever else has the page; `Handover.HandoverIsReached` and `Handover.CompletionAloneHalts` are
  runs.
* **WRITE_ACCESS_GRANTED outlives its writer** (`pagemap.cc:884-887`), and the next request then waits for ever, so
  the theorem at `NOTES:947` is false as written; `PagerRun.RevocationInProgress` is the form that is true.
  `Starvation.StarvationBeginsExactly` says which events starve a page, `Starvation.StarvationEndsExactly` what
  ends it, and `Starvation.StarvationIsReached` is a run.
* **A failed write is remembered, and told**, until the page is written again or evicted
  (`PageErrors.InvalidExactly`, `PageErrors.FailedWriteIsTold`, `PageErrors.WaitersAreTold`). But if
  the page was given up and nobody waits, the end of the write evicts it, and the error is forgotten at once; and
  every page-in overwrites the code, even one that succeeds, so that a client may be sent an error with the code of
  success
  (`PageErrors.ErrorTurnsToSuccess`; `PageErrors.FailedCode` says which code it is).
* **An error that a client cannot be told of at once is told when it asks again**: until the page is evicted each
  client gets exactly the errors it is owed, in order, in answer to its next requests
  (`LateErrors.LateErrorsAreTold`, `LateErrors.NextRequestIsTold`), and nobody gets one if nothing fails
  (`LateErrors.NoErrorWithoutFailure`).
* **The theorem at `NOTES:940` fails.** `ReadersWait.ReadersStickExactly` says by which events, and
  `ReadersWait.StuckByWhat` says so over every run. As long as no dirty return is served twice over there are three
  ways (`ReadersGuarded.ThreeWaysRemain`), with the runs `ReadersWait.ReadersWaitForNothing` and
  `ReadersWait.FailedUnlockSticks`; after that defect a writer can also share the page with readers and leave it to
  them, as in the run `ReadersWait.WriterLeavesReaders`.
* **The theorem at `NOTES:949` fails** exactly when a flush is answered late or an error is behind it:
  `LateFlush.LateFlushExactly`, with the runs `LateFlush.FlushOutlivesWaiters` and `LateFlush.FailedUnlockFlushes`.
* **The theorem at `NOTES:945` holds** for clients that do not ask again while they wait
  (`NotesTheorems.AtMostOneOnBoth`), and not for others (`NotesTheorems.ImpoliteClients`). For all clients
  `BothLists.TwoOnBothExactly` says which events make it fail, and `BothLists.TwoByWhat` says so over every run.
* **A synchronous lock_object is durable only because the demuxer serializes.** With overlapping
  data_return calls it may return with data neither written nor superseded by something written
  (`DurabilityLimits.DurabilityFails`); `DurabilityLimits.GuaranteedExactly` gives the exact condition.
* **netmsg stops on send rights that do not follow the receive right.** Relaying is safe if send rights are sent
  from a port's home only while its receive right is there, and from a proxy unless the proxy's side has it
  (`NetmsgRights.RelayingIsSafe`); a send right sent against this rule stops the sender at once, or one of the
  nodes for good (`NetmsgDoomed.SendIsSafeExactly`, `NetmsgDoomed.DoomIsForGood`). `NetmsgPair.PeerIsStopped` and
  `NetmsgPair.SenderIsStopped` are runs.
* **netmsg delivers ordinary messages to the port they were sent to, and none is lost** (`NetmsgMailProof.MailArrives`,
  `NetmsgMailSafe.NoMailIsLost`), with one exception: a message handled after the receive right of its port has come
  home goes to the peer's port of the same number (`netmsg.cc:1240-1250`, `NetmsgMailLimits.StrayIsReached`). What is
  sent to a reply port goes back to where its sender meant (`NetmsgMailSafe.RepliesGoBack`), though a reply port is not
  translated when it is sent, so that a proxy comes home as a proxy of a proxy
  (`NetmsgMailLimits.ReplyComesHomeAsProxy`).
* **The size of an item is right if and only if it does not overflow** (`WireItems.SizeExactly`); then every message
  of typed items arrives with all its data (`WireItems.LettersArrive`).

Where code and comments differ, the model follows the code: a data_request that meets NEXTERROR sets ERROR only
in the temporary, which is not stored (`pagemap.cc:183-185`); an INVALID page gets an error and is then paged in
anyway, where `NOTES:432` has a return (`pagemap.cc:236-240`); data_unlock flushes the requester along with the
others, unlike `NOTES:496` (`pagemap.cc:709-711`); drop_client edits a copy of WAITLIST (`pagemap.cc:345-350`);
the case for receive rights in translateForTransmission runs on into the one for names
(`netmsg.cc:1055-1057`); a NO SENDERS notification looks a port up with an inserting operator
(`netmsg.cc:1269`).

## Model

| member | source | states |
|---|---|---|
| CoherenceProof.OnlyLatestVersions | libpager/pagemap.cc:165-261 | Over every run of pager, kernels and FIFO channels, every supply in flight and every copy a kernel holds is the latest version, a kernel with a writable copy is the only one with a copy, and no page is sent to a kernel that has it |
| CoherenceProof.RunKeepsInv | libpager/pagemap.cc:576-646 | The invariant behind it, kept by every move: one request and one page per kernel in one place, lock counts equal to what is in the channels, versions, and the backing store holding the latest version when nobody has unsaved data |
| Incoherence.StaleCopyIsReached | libpager/pagemap.cc:811-812 | A run of kernels that keep to all their rules, with a dirty return served twice over, to two writable copies one of which is not the latest version |
| AskingAgain.StaleAfterAskingAgain | libpager/NOTES:1013-1021 | A run, with no dirty return served twice over, in which a kernel flushed while its unlock request waits asks again, waits twice, is sent the page twice, and ends with a copy that is not the latest version while it is not on ACCESSLIST |
| PagerRun.RevocationInProgress | libpager/NOTES:947 | After every handler of every serialized run, if anyone waits then every client on ACCESSLIST has an unanswered internal flush; and service_WAITLIST and finalize_unlock never meet an empty WAITLIST |
| PagerRun.WriteAccessIsExclusive | libpager/pagemap.cc:85-124 | A client granted write access and not removed is the only one on ACCESSLIST, and the flag is set; with the flag set at most one client is on ACCESSLIST; for runs whose dirty returns are not served twice over |
| PagerRun.ServiceEffect | libpager/pagemap.cc:85-124 | What service_WAITLIST leaves of the entry, the writers and the internal locks |
| Batch.ServesOneBatch | libpager/pagemap.cc:85-124 | Exactly the first writer, or the first client and the longest run of readers behind it, is served, in order, with the deallocate flag on the last supply only; if anyone still waits everybody with access, and nobody else, is asked to flush |
| PagerLedger.RunKeepsBooks | libpager/pagemap.cc:89-117 | In every run the entries ever made on WAITLIST are those disposed of followed by those that wait, in order; each client was sent exactly what the disposals say; and for a client never dropped the lock count is requests sent less completions received |
| Messages.MessagesExactly | libpager/pagemap.cc:65-261 | For every event in every orderly state, exactly the messages, in order, that each client is sent: supplies with their data and deallocate flag, errors with their codes, grants and flushes |
| PageErrors.InvalidExactly | libpager/pagemap.cc:801-806 | In every run INVALID is set if and only if the last write of the page failed and the page has not been evicted since |
| PageErrors.ErrorExactly | libpager/pagemap.cc:253 | In every run ERROR is the code of the last failed write, ended page-in or eviction, whichever came last, and success before any |
| PageErrors.FailedCode | libpager/pagemap.cc:804-806 | In every run the code of an invalid page is that of the write that failed or, if a page-in has ended since, of the last one |
| PageErrors.FailedWriteIsTold | libpager/pagemap.cc:236-240 | In every run a request that leads to a page-in sends its client one error, with that code, if the last write failed and the page has not been evicted since, and sends nothing otherwise |
| PageErrors.WaitersAreTold | libpager/pagemap.cc:597-605 | In every run, when the last client that has the page completes its flush, every waiter is sent the error and nobody waits on, under the same condition; otherwise the page is paged in |
| PageErrors.ErrorTurnsToSuccess | libpager/pagemap.cc:236-253 | A run after which a client is told of a failed write with the code of success |
| LateErrors.LateErrorsAreTold | libpager/pagemap.cc:132-136 | In every run the errors that a client could not be told of when they came, since the page was last evicted, are those sent to it in answer to later requests, in order, followed by those still on NEXTERROR |
| LateErrors.NextRequestIsTold | libpager/pagemap.cc:180-187 | In every run a request of a client that is owed an error is answered with the first one untold, and changes nothing else of the page; any other is queued |
| LateErrors.NoErrorWithoutFailure | libpager/pagemap.cc:130-163 | In a run in which no call of the backing store fails nobody is ever sent an error |
| PagerLimits.DirtyReturnExact | libpager/pagemap.cc:808-813 | After a writer's dirty return and its write-back write access is still exclusive if and only if nobody is left after the first batch, or the next waiter wants to write and is the only one just served |
| PagerLimits.TwoWritersAreReached | libpager/pagemap.cc:811-812 | A run from the start after which two clients have write access |
| Handover.HandoverExactly | libpager/pagemap.cc:594 | In any idle state a client that owes a completion returns the page dirty, the page is written back, the completion comes: the pager stops if and only if it was the last completion owed, of an internal flush, the flag is set at the end, and the client was not itself served and flushed again, by a condition on WAITLIST and the flag for each case: the client had the page alone, or others keep it; and if the first waiter is left alone with the page and the flag is clear, it stops at once |
| Handover.CleanHandoverExactly | libpager/pagemap.cc:888-889 | The same for a clean return, which serves once, or unlocks the first waiter if that is left alone with the page: then the completion stops the pager if and only if it is the last, of an internal flush, and the unlock succeeds |
| Handover.CompletionHalts | libpager/pagemap.cc:594 | In any idle state a completion that is owed stops the pager if and only if it is the last, of an internal flush, while the flag is set |
| Handover.HandoverIsReached | libpager/pagemap.cc:594 | A run from the start that stops there |
| Handover.CompletionAloneHalts | libpager/pagemap.cc:594 | A run from the start that stops there by the completion of a writer that returns nothing |
| Starvation.StarvationBeginsExactly | libpager/pagemap.cc:218-225 | An event makes a page starved (somebody waits, nobody has access, nothing is in progress) if and only if it is a request that finds the flag set and both lists empty, or the end of a drop_client that takes away the only access just given while others wait |
| Starvation.StarvationEndsExactly | libpager/pagemap.cc:888-889 | A starved page stays so, short of a stop, unless a client returns the page although none has it |
| Starvation.StarvationIsPermanent | libpager/pagemap.cc:884-887 | From a starved state no run without such a return answers a waiter |
| Starvation.StarvedByWhat | libpager/NOTES:947 | In every run a starved page was starved by one of those events |
| Starvation.StarvationIsReached | libpager/pagemap.cc:218-225 | A run, within the rules, that reaches a starved state with no lock outstanding |
| PagerRun.UnlockIsNotForgotten | libpager/NOTES:1080 | After a data_unlock that does not stop, in any run, the client waits to write or has been asked to flush |
| NotesTheorems.AtMostOneOnBoth | libpager/NOTES:945 | At most one client is on ACCESSLIST and WAITLIST at once, in every run in which no client asks again while it waits |
| NotesTheorems.PoliteRunKeeps | libpager/pagemap.cc:683-714 | Its invariant: nobody waits twice, and a client on both lists waits to write |
| NotesTheorems.ImpoliteClients | libpager/NOTES:945 | A run in which clients do ask again and two are on both lists |
| BothLists.TwoOnBothExactly | libpager/NOTES:945 | For all clients, an event puts two of them on both lists if and only if it is a service of a WAITLIST on which two clients that have or get access wait again behind the batch, or an unlock request, while no writer waits, when another client is on both lists |
| BothLists.TwoByWhat | libpager/NOTES:945 | In every run the theorem fails only after one of those events |
| ReadersWait.ReadersStickExactly | libpager/NOTES:940 | In any orderly state an event leads to readers waiting, with only readers on either list and no page-in in progress, if and only if it is a read request that finds the flag set and nobody with write access; the departure of a writer that shares the page with readers, by a request, a completion, drop_client or a return, short of an unlock; an unlock that fails with only readers behind it and nobody with write access; or a page-in or an unlock for a writer that drop_client takes away with only readers behind it |
| ReadersWait.StuckByWhat | libpager/NOTES:940 | In every run, dirty returns served twice over included, the theorem fails only after one of those events |
| ReadersWait.WritersAlwaysHaveAccess | libpager/pagemap.cc:85-124 | In every run a client given write access and not removed is on ACCESSLIST |
| ReadersGuarded.ThreeWaysRemain | libpager/NOTES:940 | For runs whose dirty returns are not served twice over: the theorem fails by exactly three kinds of event, a read request that finds the flag set and both lists empty, an unlock that fails with only readers behind it, or the end of a drop_client that removes the writer just served with only readers behind it |
| ReadersGuarded.FlagIsTrue | libpager/pagemap.cc:85-124 | While anybody has access, WRITE_ACCESS_GRANTED means that a client on ACCESSLIST was given write access; for runs whose dirty returns are not served twice over |
| ReadersWait.ReadersWaitForNothing | libpager/NOTES:940 | A run after which a reader waits, nobody has access, and no page-in is in progress |
| ReadersWait.FailedUnlockSticks | libpager/pagemap.cc:159-162 | A run to such a state with the flag clear |
| ReadersWait.WriterLeavesReaders | libpager/pagemap.cc:811-812 | A run to such a state in which a dirty return is served twice over and the second writer then returns the page |
| LateFlush.LateFlushExactly | libpager/NOTES:949 | After an event that leaves the pager idle and WAITLIST empty a client has an unanswered internal flush if and only if it had one that the event does not close, or the event flushed it for an error |
| LateFlush.FlushOutlivesWaiters | libpager/NOTES:949 | A run after which WAITLIST is empty and an internal flush is unanswered |
| LateFlush.FailedUnlockFlushes | libpager/pagemap.cc:159-162 | A run to such a state in which the flushed client is still on ACCESSLIST |
| Pager.Pager.InternalFlushRequest | libpager/pagemap.cc:65-73 | One record more or one count more, and one flush message, for this client and page only |
| Pager.Pager.FlushClients | libpager/pagemap.cc:119-123 | Flushing clients one by one is flushing the set |
| Pager.Pager.SupplyReaders | libpager/pagemap.cc:98-115 | The do-while loop supplies the first client and the readers behind it, one after the other |
| Pager.Pager.ServiceWaitlist | libpager/pagemap.cc:85-124 | The loaded entry, the lock records and the messages become what Service says; other pages are untouched; nothing happens while terminating |
| Pager.Pager.SendErrorToWaitlist | libpager/pagemap.cc:130-141 | Every waiter gets the error, or a flush and a NEXTERROR entry, in order |
| Pager.Pager.FinishUnlock | libpager/pagemap.cc:147-163 | The first waiter is granted write access, and flushed at once if others wait; or flushed with the error left on NEXTERROR |
| Pager.Pager.TakeLateError | libpager/pagemap.cc:180-187 | The first NEXTERROR entry of the client for the page is sent and removed |
| Pager.Pager.BeginDataRequest | libpager/pagemap.cc:165-243 | data_request up to pager_read_page, in all its branches |
| Pager.Pager.CompleteOnePage | libpager/pagemap.cc:594-610 | The body of internal_lock_completed's first loop |
| Pager.Pager.BeginLockCompleted | libpager/pagemap.cc:576-612 | The first loop over a range: each page as for one page, or a stop if and only if some page has write access granted |
| Pager.Pager.EndLockCompleted | libpager/pagemap.cc:628-645 | The loop after the backing-store calls: each page served, sent errors, or unlocked, as its operation says |
| Pager.Pager.BeginLockReply | libpager/pagemap.cc:648-681 | lock_completed for one page: the count goes down, the record goes when it is empty, and an internal lock goes on |
| Pager.Pager.BeginDataUnlock | libpager/pagemap.cc:683-714 | data_unlock of one page up to pager_unlock_page |
| Pager.Pager.ReturnOnePage | libpager/pagemap.cc:880-914 | The body of data_return's loop |
| Pager.Pager.BeginDataReturn | libpager/pagemap.cc:862-920 | data_return over a range, and when its assertion holds |
| Pager.Pager.MatchingPageCount | libpager/pagemap.cc:751-762 | The number of blocks on WRITEWAIT that cover a page |
| Pager.Pager.ChoosePages | libpager/pagemap.cc:764-774 | A page of the first block is to be written exactly when no other block covers it |
| Pager.Pager.EndWriteAt | libpager/pagemap.cc:799-841 | One page after pager_write_page |
| Pager.Pager.EndWrites | libpager/pagemap.cc:794-842 | All pages after pager_write_page, and exactly when the assertion on KERNEL_COPY holds |
| Pager.Pager.DropFromPages | libpager/pagemap.cc:334-356 | drop_client takes the client off every ACCESSLIST and leaves WAITLIST as it is |
| Pager.Pager.ClientsToSignal | libpager/pagemap.cc:456-475 | lock_object signals exactly the clients with access to a page of the range, or only those with write access |
| LockTable.LockAccounting | libpager/pagemap.cc:648-681 | Over every history of requests, replies and dropped clients, each count is requests less replies, a record exists if and only if some count is positive, and internal records are for single pages |
| LockTable.NotifiedWhenAnswered | libpager/pagemap.cc:670-673 | Sleepers on a range are notified exactly by the event after which no client owes a completion for it |
| LockTable.InternalIsRemembered | libpager/pagemap.cc:65-73 | Over every history a client's record is marked internal if and only if one of the requests it was sent since it last owed nothing was the pager's own |
| WriteBackProof.WriteBackOrder | libpager/pagemap.cc:744-860 | Over every interleaving, calls of pager_write_page never overlap, the versions of a page are written in the order returned, PAGINGOUT is set exactly while an uncommitted version is queued, and otherwise the last version returned is the last one written |
| WriteBackProof.RunKeeps | libpager/pagemap.cc:946-954 | Blocks are queued exactly while one thread services them, and what the pass has written |
| WriteBackProof.MatchingMeans | libpager/pagemap.cc:751-768 | Counting matching blocks tells whether the first block is the last to cover the page |
| Durability.DurableUnlessOvertaken | libpager/pagemap.cc:447-508 | When a synchronous lock_object has returned, each version of its range returned before its last completion is written or superseded by one that is, or the page has a version returned after the search that is still queued |
| Durability.SerialIsDurable | libpager/pagemap.cc:492-506 | With data_return calls kept apart the last case does not arise, and the assertion on KERNEL_COPY never fails |
| DurabilityLimits.GuaranteedExactly | libpager/pagemap.cc:500-505 | While lock_object waits for a block, and unless the pass in progress is bound to stop on the assertion on KERNEL_COPY, its versions are safe whatever happens if and only if each is written, superseded, or to be written by the pass in progress |
| DurabilityLimits.DurabilityFails | libpager/pagemap.cc:764-768 | A run in which lock_object returns with a version neither written nor superseded |
| DemuxerProof.OrderAndExclusion | libpager/demuxer.c:187-227 | For any number of workers and any interleaving, requests for one object start in the order of arrival, at most one is in progress, and private queues hold only requests for their worker's object |
| DemuxerProof.NoLostWakeup | libpager/demuxer.c:124-132 | While requests are queued some worker is awake or signalled, and the inhibitor never waits unsignalled for what has happened |
| DemuxerProof.Quiescence | libpager/demuxer.c:379-412 | When pager_inhibit_workers returns, the requests that had arrived, and no others, have started and finished, and none starts until the workers are resumed |
| DemuxerProof.AssertionsHold | libpager/demuxer.c:414-433 | The assertions of pager_inhibit_workers and pager_resume_workers hold, with spurious wake-ups |
| DemuxerProof.RunKeeps | libpager/demuxer.c:195-227 | The invariant of the pool: what arrived for an object is what has finished, is in progress, is held by its worker, and is queued, in this order |
| Workers.Pool.Demux | libpager/demuxer.c:124-132 | Enqueues and signals as the state machine does |
| Workers.Pool.GetRequest | libpager/demuxer.c:202-224 | The loop that delegates, claims or sleeps |
| Workers.Pool.NextRequest | libpager/demuxer.c:190-224 | A worker's own queue first, then the common one |
| Workers.Pool.WakeUp | libpager/demuxer.c:204-224 | What a worker does when its wait ends |
| Workers.Pool.InhibitWorkers | libpager/demuxer.c:384-407 | The start of inhibiting |
| Workers.Pool.ResumeWorkers | libpager/demuxer.c:417-432 | The queues become one again and every sleeper is signalled |
| Queue.Queue.Enqueue | libpager/queue.h:41-47 | The item is added at the end |
| Queue.Queue.Dequeue | libpager/queue.h:49-63 | The first item is taken off, or null is returned |
| Queue.Queue.Empty | libpager/queue.h:65-69 | Whether there is no item |
| NetmsgPair.RightsKeepTheirMeaning | netmsg/netmsg.cc:1594-1782 | Over every run of two nodes, a delivered name means the port that its sender meant, a port that comes home has its original name, each port of the peer has at most one proxy, and no proxy stands for a proxy |
| NetmsgPair.RunKeeps | netmsg/netmsg.cc:897-1083 | The invariant behind it, of nodes, streams and deliveries |
| NetmsgRights.RelayingIsSafe | netmsg/netmsg.cc:897-1083 | If receive rights are sent by the side that has them, and send rights from home only while the receive right is there and from a proxy unless its side has it, then no transmission and no reception of any run meets a failing assertion |
| NetmsgRights.KeepsRights | netmsg/netmsg.cc:1602-1782 | Its invariant: what the streams and local_port_type say for each place the receive right can be in |
| NetmsgDoomed.SendIsSafeExactly | netmsg/netmsg.cc:929 | A send right may be sent by that rule if and only if the sender is not stopped and no node is doomed by it |
| NetmsgDoomed.DoomIsForGood | netmsg/netmsg.cc:1623 | A doomed pair stays doomed in every proper continuation: a packet is on its way that stops the node it comes to, and the streams are never drained |
| NetmsgPair.PeerIsStopped | netmsg/netmsg.cc:1671-1749 | A run in which a send right that follows the receive right stops the peer |
| NetmsgPair.SenderIsStopped | netmsg/netmsg.cc:914-929 | A run in which a send right for the proxy of a port received stops its own node |
| NetmsgMailProof.MailArrives | netmsg/netmsg.cc:1194-1251 | Over every run of two nodes with whole messages, for a proxy, a port sent away, a send-once right and netmsg's own ports: the destination handed to the kernel stands for the port that the message was sent to, unless the receive right had come home; so do the reply port and every right in the body |
| NetmsgMailProof.MailRunKeeps | netmsg/netmsg.cc:1903-1943 | The invariant behind it: every name stands for some port, and every letter on its way for what it was meant |
| NetmsgMailSafe.NoMailIsLost | netmsg/netmsg.cc:1916-1937 | In every run a message is passed on to the peer if and only if it came on a port that netmsg knows, and every message that comes from the peer is passed on |
| NetmsgMailSafe.RepliesGoBack | netmsg/netmsg.cc:2083-2091 | In every run, whatever happens after a message was delivered, what is sent to its reply port, with a send or a send-once right, goes to the port that its sender meant |
| NetmsgMailSafe.UsedOnce | netmsg/netmsg.cc:1206-1223 | A message for a send-once right goes to the right's name on the peer, and this mapping and no other is forgotten |
| NetmsgMailLimits.StrayIsReached | netmsg/netmsg.cc:1240-1250 | A run in which a message for a port of one node is delivered to the port of the same number of the other |
| NetmsgMailLimits.ReplyComesHomeAsProxy | netmsg/netmsg.cc:2083-2091 | A run in which a node makes a proxy that stands for its own port |
| NetmsgTeardown.BothForget | netmsg/netmsg.cc:1263-1271 | For any two nodes linked by a port, whichever side is the proxy: a NO SENDERS and a DEAD NAME notification, handled by one node and then by its peer, makes both forget their names for the port, and nothing else |
| NetmsgTeardown.CrossingIsHarmless | netmsg/netmsg.cc:1974-1982 | A notification for a port already forgotten is discarded and changes nothing |
| NetmsgMaps.MapsAreConsistent | netmsg/netmsg.cc:1718-1720 | In every state that sequential handlers reach the two pairs of maps are mutual inverses, their local sides are apart, and every proxy has an entry in local_port_type |
| NetmsgMaps.HandleIpcKeeps | netmsg/netmsg.cc:1085-1298 | ipcBufferHandler keeps the maps consistent, through dead names, NO SENDERS and send-once rights |
| NetmsgMaps.HandleNetKeeps | netmsg/netmsg.cc:1892-2140 | tcpBufferHandler does, if the names the kernel hands out are unused |
| NetmsgNode.Relay.TransmitSendRights | netmsg/netmsg.cc:904-960 | The in-place loop over send rights |
| NetmsgNode.Relay.TransmitReceiveRights | netmsg/netmsg.cc:962-1075 | The in-place loops over receive rights and, after them, names |
| NetmsgNode.Relay.TranslatePort | netmsg/netmsg.cc:1594-1834 | translatePort2 on the five maps |
| NetmsgNode.Relay.TranslatePorts | netmsg/netmsg.cc:2123-2131 | The in-place loop of translateMessage |
| NetmsgNode.Relay.EndReceiveRight | netmsg/netmsg.cc:1263-1271 | What NO SENDERS removes |
| NetmsgNode.NamesAfter | netmsg/netmsg.cc:1055-1075 | Renaming after the loop is renaming each port as it comes |
| WireItems.ReadsBack | machMessage.h:231-254 | For every descriptor that can be encoded, in short or long form, the iterator reads back its form, whether it is inline, its number and its element size |
| WireItems.EveryDescriptor | machMessage.h:231-254 | There is no other descriptor |
| WireItems.SizeExactly | machMessage.h:258-265 | data_size is the least number of long words that hold number times size bits, if and only if the computation does not overflow 32 bits |
| WireItems.LaidReads | machMessage.h:317-321 | In front of any row, the iterator passes exactly the bytes of an item, and finds its data size and its pointer |
| WireItems.LetterSent | netmsg/netmsg.cc:838-849 | A message of typed items is well-formed, and its bytes followed by all its out-of-line data are what is transmitted |
| WireItems.LettersArrive | netmsg/netmsg.cc:2226-2274 | For every list of messages of typed items, each arrives with the same header, items and data, at the new addresses, and the stream is read to its end |
| WireItems.OnlyWholeLetters | netmsg/netmsg.cc:2226-2274 | A stream that ends inside a message gives exactly the messages before it |
| WireProof.RoundTrip | netmsg/netmsg.cc:2226-2274 | For every list of well-formed messages of at most 4096 bytes, receiving the transmitted stream gives the same messages apart from addresses, with the same out-of-line data, and ends at the end of the stream |
| WireProof.FetchUndoes | netmsg/netmsg.cc:838-862 | receiveOOLdata undoes transmitOOLdata for one message, leaving the rest of the stream |
| WireIo.TransmitOutOfLine | netmsg/netmsg.cc:838-849 | The transmitting loop |
| WireIo.ReceiveOutOfLine | netmsg/netmsg.cc:851-862 | The receiving loop, which writes pointers into the buffer it walks |
| WireIo.PassItem | machMessage.h:317-321 | operator++ passes exactly one item |
| MemCopy.Copier.PagerMemcpy | libpager/pager-memcpy.c:182-219 | The result is the kernel's answer to the last call if that failed, and success if and only if every call succeeded, and if and only if everything is copied; *SIZE says how much is, by windows that tile it and each took its calls; vm_copy is used exactly when pages line up and there are eight, and then leaves less than eight pages beside the part before the first whole page |
| MemCopy.Copier.VmCopy | libpager/pager-memcpy.c:50-91 | vm_copy windows are of 8 to 32 whole pages, and fewer than 8 pages are left, unless a call fails, whose answer is the result |
| MemCopy.Copier.Memcpy | libpager/pager-memcpy.c:95-143 | The memcpy loop copies exactly what it is asked to, unless a call fails, whose answer is the result |
| MemCopy.Copier.Copy | libpager/pager-memcpy.c:145-170 | The choice of path, with its assertions, leaves nothing |
| MemCopy.TilingCopies | libpager/pager-memcpy.c:125-135 | Copying through windows that tile a range copies exactly the range, in either direction, and changes nothing else |
| Intern.Pagemap.Assign | libpager/pagemap.h:333-336 | Page n holds the data, other pages are unchanged, and pages have equal data exactly when they have equal pointers; the temporary's new value plays no part |
| Intern.Pagemap.Reach | libpager/pagemap.h:346-353 | Growing the vector changes no page; the default is empty |
| Intern.Pagemap.Insert | libpager/pagemap.h:333-336 | The node with the data, made only if there was none |
| Intern.LessIsTotal | libpager/pagemap.h:114-118 | operator< is total: of two entries one is less, or they are equal |
| Intern.LessIsTransitive | libpager/pagemap.h:114-118 | operator< is transitive |

## Left out

- Units: offsets and lengths of the pager are counted in pages; the assertions that they are page-aligned, and the page-size arithmetic of `libpager/pagemap.cc`, are not modelled.
- Lists of the whole pager: NEXTERROR, and the records of `outstanding_locks` for exactly one page, are kept with the page in `PageSpec` and `Pager`; `LockTable` has the table by range.
- PRECIOUS: the flag passed with memory_object_data_supply is not part of the messages; a kernel may return clean pages or not, as it likes.
- Pager.Pager.BeginDataUnlock: is for one page, because for several `libpager/pagemap.cc:710` flushes OFFSET instead of each page's own offset.
- Dropped clients in `Coherence`: a kernel leaves only when it does not have the page, has nothing on its channels, does not wait and owes no completion; `PagerRun`, `PagerLedger`, `LockTable` and `WriteBack` have drop_client at any time.
- Kernels in `Coherence`: a kernel that is flushed while its unlock request waits does not ask for the page again before that request is answered; `AskingAgain.StaleAfterAskingAgain` shows that without this rule coherence fails.
- Backing store in `Coherence`: writes succeed and reads return what was written last; `PagerRun` has arbitrary results.
- Pager.Pager.BeginLockReply: is for ranges of exactly one page; a range of several pages is in `LockTable`.
- Durability.DurableUnlessOvertaken: supposes no spurious wake-ups of lock_object, whose waits on condition variables are not in loops.
- Shutdown: the terminating flag is in the Pager class only; the runs of PagerRun and Coherence are of a pager that is not shutting down.
- get_error and the accessors of the pagemap entry: they return a field; `PageErrors.ErrorExactly` says what ERROR is.
- PagerRun.UnlockIsNotForgotten: does not say that the request is answered in the end, because a starved page answers nobody (`Starvation.StarvationIsPermanent`) and a client may never answer its flush.
- Progress: nothing is claimed about requests being answered in the end; `Starvation.StarvationIsPermanent` shows why.
- do_notify: the uninitialised flags of data_return (`libpager/pagemap.cc:882`, `libpager/pagemap.cc:897`) and calls of pager_notify_evict, which have no effect on the pager's state.
- change_attributes, object_init, object_terminate, shutdown and the destructor: Mach port calls whose effect is outside the repository.
- Demuxer: receiving messages, calling server routines and sending replies; a failed malloc in pager_inhibit_workers, which leaves everything as it was; requests are assumed to be for a port with a non-zero name.
- Workers.Pool.Demux: the sleeper that a signal reaches is a parameter.
- Netmsg: reference counts of rights, notification requests and their delivery; RunQueues and other threads; debug output; the check of the local type of a network message header; a notification with an unknown id.
- NetmsgPair: no teardown notifications and no message headers, which `NetmsgMail` has; names below 2^31, as the bit-flip encoding needs; ports travel one at a time, which is a message body taken apart.
- NetmsgMail: ordinary messages only; notifications are handled one at a time in `NetmsgTeardown`, and a name that the kernel hands out is none that the node still has a right for.
- Wire: byte order and sizes are those of the 32-bit x86 layout of *Mach 3 Kernel Interfaces*; machMessage::operator[] and element access are not modelled.
- WireProof.RoundTrip: is about messages made of whole items with backed out-of-line pointers, which is what the kernel delivers; a malformed network message is not followed into memory past the buffer.
- MemCopy: the fault handler and its non-local jump, overflow of addresses near the end of the address space, and a vm_copy that fails half way; *SIZE and the pointers are fields of an object.
- Intern: nodes of the shared set are numbered rather than addressed, and the set's tree is a sorted row searched by halving.
