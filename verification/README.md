# Spaces: verified models of the desktop integration

This project models the algorithms and state machines inside the desktop integration of Spaces and proves properties of
them with Dafny 4.11. `dafny verify dfyconfig.toml` checks all of it.

What the operating system, D-Bus, GLib, AT-SPI, KWin, libei and a peer do is an input: every message, reply, timeout,
clock reading, credential check and short read is arbitrary, and the theorems about runs hold for every sequence of such
inputs. Code that changes state in place is modelled in place, by classes and by methods over arrays; each such method is
proved to compute a function of the old state, and the theorems are about that function.

| module | models |
|---|---|
| `Text`, `EditScripts`, `Hunks`, `TreeDiff` | the tree diff: trimming, the LCS table, the walk, the printed hunks, and a reader and patch tool for them |
| `TextCover`, `TextCompaction`, `TextSurgery` | the pass that takes repeated and completed text out of an accessibility tree: the greedy matcher, what happens to each row, and the rewiring of first-child and next-sibling links in place |
| `ElementRing` | the ring of slots that element IDs index, with its hash table |
| `SlabTest` | does a drag cross a tile |
| `SystemBroker`, `SystemBrokerClient` | the forwarding of requests by the system bus broker, as the broker on the host and as the relay in the guest, with a high-priority event queue and low-priority completion callbacks |
| `SharedHost`, `SharedHostService` | the shared host's leases, clients, event queue, nested dispatch and reclamation |
| `Json`, `ToolSchema`, `ToolCompiler`, `ToolBatch`, `ToolTables`, `KeyChord` | argument tables compiled to JSON schemas, the validator that interprets them, and the batch runner, routing and fixed arrays that rely on it |
| `PortalTables`, `PortalService` | the portal's request and session tables, and the translation of object paths in values |
| `PortalRegistration` | the broker's registration with the owner of the host portal |
| `StreamRenderer` | incremental redraws on a terminal with a fixed number of rows |
| `AgentState`, `AgentReference` | the shared polkit agent's state file and its reference count across processes |
| `PathMerge`, `ReadyMatcher` | the merge of two search paths, and the search of a stream for one message |
| `RateLimiter` | the sliding window over authentication attempts |

Where a promise does not hold of the code for every input, the code is modelled as it is, a theorem says for all inputs
when it does hold, and a lemma names a case where it does not:

| promise | holds exactly when | a case |
|---|---|---|
| an accepted batch runs its first step | every step has two members (`ToolBatch.AcceptedBatchChecks`) | `ToolTables.NulKeyIsBad` with `ToolTables.ClickAtOrigin` |
| the portal's tables pair guest and host paths one-to-one | every registration was refused or came under a host path in neither table (`PortalTables.RunIsExact`) | `PortalTables.RepeatedHostPath` |
| a value survives translation to the host and back | each path in it is a guest path with a host path, or the host path of no entry, or both paths of one entry (`PortalTables.TranslateRoundTrip`) | `PortalTables.HostPathIsMistaken` |
| a snapshot is on the screen after a redraw | it has fewer lines than the screen has rows (`StreamRenderer.RenderShows`) | `StreamRenderer.OneRowAdds` |
| an agent runs only while some process holds it | the last holder of a running agent never dies, starting it or later, and never gives its reference back while the file does not name that agent with one reference (`AgentReference.AgentsAreAttended`) | `AgentReference.UnreadAgentIsLeft`, `AgentReference.StartedAgentIsLeft` |
| every running agent is on record, or its starter is there to record it | no process resets the file of a running agent, and no starter of one fails to read its start time or dies (`AgentReference.AgentsAreAccounted`) | the same two |
| relayed replies and signals leave in the order they came | no callback sends a reply that a later message has overtaken (`SystemBroker.OrderHoldsUnlessOvertaken`) | `SystemBroker.OverflowBreaksOrder`, `SystemBroker.GuestAnswersComeLate` |

No reply is overtaken while the client is open and no reply that a call waited for was lost to a full queue
(`SystemBroker.RelayedInOrder`), the answers of the guest's own bus in the relay apart, which queues no replies. No agent
is left if none is abandoned and no holder dies (`AgentReference.HoldersEndTheirAgents`). `tree_diff` takes texts whose
every row ends in a newline, which its callers give it and the comment in native/scu_diff.h:2-3 takes for granted; for
other texts `TreeDiff.DiffRoundTrips` says what is rebuilt.

## Model

| member | source | states |
|---|---|---|
| Text.Split | native/scu_diff.h:18-20 | no piece holds the separator, and there is at least one |
| Text.RowsOfUnrows | native/scu_diff.h:18-20 | printing rows and splitting the text gives the same rows |
| Text.UnrowsOfRows | native/scu_diff.h:18-20 | splitting and joining restores a text exactly when it is empty or ends in a newline |
| Text.ReadDecimalContinues | native/scu_diff.h:9-10 | a printed number, read digit by digit, is that number |
| EditScripts.Lcs | native/scu_diff.h:30-38 | a common subsequence is no longer than either side |
| EditScripts.LcsBoundsCost | native/scu_diff.h:30-38 | no edit script costs less than the rows outside a longest common subsequence |
| EditScripts.Optimal | native/scu_diff.h:30-38 | some edit script reaches that bound |
| EditScripts.LcsPrefix | native/scu_diff.h:22 | a common prefix adds its length to the LCS |
| EditScripts.LcsSuffix | native/scu_diff.h:23-24 | a common suffix adds its length to the LCS |
| Hunks.DescribedApplies | native/scu_diff.h:39-61 | hunks that relate two row lists, applied to the first with all coordinates and removed rows checked, give the second |
| Hunks.DescribedReversed | native/scu_diff.h:39-61 | reversed hunks relate the second list to the first |
| Hunks.ReadRangeOfRange | native/scu_diff.h:7-11 | a printed range reads back as its start and count, for counts 0, 1 and more |
| Hunks.ReadHeaderOfHeader | native/scu_diff.h:56-60 | a printed hunk header reads back |
| Hunks.PrintedHunk | native/scu_diff.h:7-60 | a hunk as it is printed: header, removed rows, added rows |
| Hunks.ReadHunksOfRows | native/scu_diff.h:56-61 | the rows of printed hunks read back as the same hunks |
| Hunks.ReadOfPrint | native/scu_diff.h:7-61 | the printed text determines the hunks |
| TreeDiff.CommonPrefix | native/scu_diff.h:22 | the rows before it agree and it cannot be longer |
| TreeDiff.CommonSuffix | native/scu_diff.h:23-24 | the rows behind it agree, it does not overlap the prefix, and it cannot be longer |
| TreeDiff.Trim | native/scu_diff.h:21-25 | both sides are the same prefix, their own middle and the same suffix |
| TreeDiff.TrimIsMaximal | native/scu_diff.h:21-25 | what is left of both sides neither begins nor ends with the same row |
| TreeDiff.TrimKeepsLcs | native/scu_diff.h:21-25 | trimming loses nothing: the LCS is that of the middles plus what was trimmed |
| TreeDiff.LcsRecurrence | native/scu_diff.h:31-37 | the exact LCS length of two suffixes follows the recurrence of the table |
| TreeDiff.Run | native/scu_diff.h:47-55 | a run of changes ends where both sides agree or end, makes progress, and stays on an optimal path |
| TreeDiff.RemovalsComeFirst | native/scu_diff.h:49-53 | a row is removed whenever the rows behind it have as long a common subsequence without it, and only otherwise a row is added |
| TreeDiff.WalkCost | native/scu_diff.h:39-61 | the walk's removed and added rows are exactly those outside the LCS |
| TreeDiff.WalkDescribes | native/scu_diff.h:39-61 | the walk's hunks relate the two texts at the rows where the middles stand |
| TreeDiff.DiffDescribes | native/scu_diff.h:21-61 | the hunks relate the whole old row list to the whole new one |
| TreeDiff.DiffIsMinimal | native/scu_diff.h:20-61 | no edit script between the whole lists has fewer changed lines, and an optimal one has as many |
| TreeDiff.DiffIsSeparated | native/scu_diff.h:39-61 | every hunk changes something, hunks ascend, and at least one unchanged row separates two |
| TreeDiff.DiffTextPatches | native/scu_diff.h:13-61 | the printed text patches the previous rows to the current ones and, reversed, the current rows to the previous ones |
| TreeDiff.DiffGivesScript | native/scu_diff.h:15-70 | for all texts: equal ones give the unchanged text; others a script exactly when the middles make at most six million pairs and the script is no longer than three fifths of the current text, and it is the text of the hunks |
| TreeDiff.DiffRoundTrips | native/scu_diff.h:13-74 | a returned script rebuilds `current` exactly when that ends in a newline or is empty, and `previous` likewise in reverse |
| TreeDiff.UnterminatedTextIsLost | native/scu_diff.h:13-74 | for a text that does not end in a newline, which no caller gives, the script to and from the same text with one is empty, and gives the latter in both directions |
| TreeDiff.PrefixLength | native/scu_diff.h:21-22 | the first loop finds the whole common prefix |
| TreeDiff.SuffixLength | native/scu_diff.h:23-24 | the second loop finds the whole common suffix behind the prefix |
| TreeDiff.FillRow | native/scu_diff.h:31-37 | one row of the flat array becomes the exact LCS lengths of its suffixes, within guint32, and no other cell changes |
| TreeDiff.FillTable | native/scu_diff.h:27-38 | every cell of the flat array is the exact LCS length of its two suffixes |
| TreeDiff.ReadTable | native/scu_diff.h:49 | the cell at `i * width + j` is the LCS length from `i` and `j` |
| TreeDiff.ChangeRun | native/scu_diff.h:45-55 | the inner loop stops where the run ends and has written the marked rows of both sides |
| TreeDiff.WriteHunks | native/scu_diff.h:39-61 | the outer loop writes the text of exactly the walk's hunks |
| TreeDiff.TreeDiff | native/scu_diff.h:13-74 | the whole procedure returns the unchanged text, the minimal script, or nothing, by the cell limit and the size test |
| TextCover.Widen | native/scu_host.c:803-807 | text in front of a match only widens its first gap |
| TextCover.FirstMatchSuffices | native/scu_host.c:803-807 | taking the first occurrence of a part loses no match unless the part must end the text |
| TextCover.Find | native/scu_host.c:804 | the first occurrence, or none at all |
| TextCover.ChildTextCovers | native/scu_host.c:789-810 | true exactly when the text is the parts in order with arbitrary gaps, anchored at the start, and at the end unless partial |
| TextCompaction.RepeatsSpells | native/scu_host.c:854-865 | a run is taken for a repetition only if its texts, joined with spaces only, spell the parent's text |
| TextCompaction.RepeatsExactly | native/scu_host.c:854-865 | and exactly if they do and no text but the first begins with a space |
| TextCompaction.ProseTextStripped | native/scu_host.c:771-785 | the text of a row whose name and value begin with no space begins with none |
| TextCompaction.OwnTells | native/scu_host.c:758-786 | the text a row's children are compared with, over its fields: the name alone for a row that is not prose; for prose the value alone if it is not empty and the row is a paragraph or its name begins the value, shortened or not; otherwise both |
| TextCompaction.CollapseRun | native/scu_host.c:846-873 | every maximal run of leaf prose is dropped whole if it repeats the parent, and stays whole if not |
| TextCompaction.SpliceHangs | native/scu_host.c:834-845 | splicing leaves, in order, exactly the kept rows whose nearest row not removed is the one visited |
| TextCompaction.CollapseSplits | native/scu_host.c:846-873 | what stays of a chain is in order and is exactly what no dropped run holds; every dropped run is leaf prose that repeats the parent |
| TextCompaction.RunsApart | native/scu_host.c:846-873 | dropped runs share no row |
| TextCompaction.StepInv | native/scu_host.c:831-893 | visiting a row keeps: every chain lists, in order, the kept rows that hang below its row |
| TextCompaction.VisitKeeps | native/scu_host.c:831-893 | that holds after any number of visits of any preorder forest, and every row gone so far is gone for a reason |
| TextCompaction.VisitRenders | native/scu_host.c:874-892 | the text kept for a row is its own beside the texts of the rows below it, or only theirs when it is covered |
| TextCompaction.ReachesNearest | native/scu_host.c:899-901 | a row hangs below a kept row exactly when that is its nearest kept ancestor |
| TextCompaction.ChainsAreChildren | native/scu_host.c:815-893 | the final chain of a kept row lists, in order, exactly the kept rows whose nearest kept ancestor it is |
| TextCompaction.RowsGoForAReason | native/scu_host.c:846-886 | a row goes only if its literal parts are covered by what its children say, or if its run spells the text of a row above; rows that are not prose never go |
| TextCompaction.RunGoesWhenSpelled | native/scu_host.c:771-873 | over names, values and roles: a maximal run of leaf prose below a row is gone at the end of the pass, as a repetition of that row, exactly when the row's own text is not empty and the run's texts, joined with spaces only, spell it and none but the first begins with a space; for a row that is not prose its own text is its name |
| TextCompaction.ChainAtIs | native/scu_host.c:834-845 | when a row is visited its chain lists, in order, exactly the rows not removed by then that hang below it |
| TextCompaction.RowSays | native/scu_host.c:874-892 | the text kept for a row is its own text and those of the rows that stay below it, the empty ones left out, separated by single spaces; a covered row says only the latter |
| TextCompaction.RowIsCovered | native/scu_host.c:881-886 | a row is covered exactly when it is prose, has literal parts, and the text below it is not empty and covers them |
| TextCompaction.RowIsTruncated | native/scu_host.c:866-870 | a row ends up truncated exactly when it was, or a truncated row went as a repetition of it |
| TextSurgery.LinkChildren | native/scu_host.c:821-828 | the first loop links every row's children, in order |
| TextSurgery.Hoist | native/scu_host.c:838-844 | a removed wrapper gives way in the chain to the rows below it, and no other link changes |
| TextSurgery.SpliceOmitted | native/scu_host.c:835-845 | the links below a row become the spliced chain, acyclic and in order, and no other chain changes |
| TextSurgery.MatchText | native/scu_host.c:857-861 | one text of a run is compared with what is left of the parent's |
| TextSurgery.ScanRun | native/scu_host.c:849-864 | the scan finds the whole maximal run, what follows it, and whether it repeats the parent |
| TextSurgery.DropRun | native/scu_host.c:866-870 | exactly the run's rows are marked, and the parent is truncated if it or one of them was |
| TextSurgery.CollapseRuns | native/scu_host.c:848-873 | the links, marks and truncation become those of the collapsed chain |
| TextSurgery.JoinTexts | native/scu_host.c:874-880 | the descendants' texts, separated by single spaces |
| TextSurgery.VisitRow | native/scu_host.c:831-893 | one visit in place is one step of the specification, on all five arrays |
| TextSurgery.KeptRowsAre | native/scu_host.c:897-911 | the rows placed are the kept ones, ascending |
| TextSurgery.Rebuild | native/scu_host.c:894-914 | every kept row, in its old order, stands below its nearest kept ancestor, one level deeper; roots at level 0 |
| TextSurgery.CompactTextRows | native/scu_host.c:815-923 | the whole pass in place yields that hierarchy for any preorder forest |
| TextSurgery.CompactKeepsRows | native/scu_host.c:815-923 | the compact rows keep their order, none appears twice, and every row that is not prose is among them |
| ElementRing.ObservationGivesId | native/scu_host.c:486-514 | a new object takes the slot of its insertion's number; a held, live one keeps its slot; no other entry changes |
| ElementRing.LookupUntilReplaced | native/scu_host.c:308-315 | an ID finds its object, as last observed, until 20000 later insertions or its removal as defunct |
| ElementRing.RunUnique | native/scu_host.c:488-514 | no run holds two entries for one object |
| ElementRing.RunKeeps | native/scu_host.c:488-514 | the log only grows, entries keep their keys, and one is gone exactly when an observation removed it |
| ElementRing.ElementTable.FoundPosition | native/scu_host.c:491 | the hash table and the occupied slots are inverse to each other |
| ElementRing.ElementTable.Occupy | native/scu_host.c:499-504 | the slot at `next` changes hands, in the array and in the hash table |
| ElementRing.ElementTable.CacheElement | native/scu_host.c:488-514 | the ring refines the log: the same ID and the same new log |
| ElementRing.ElementTable.LookupElement | native/scu_host.c:308-315 | a lookup by ID is a lookup in the log |
| SlabTest.Slab | native/scu_host.c:3756-3759 | a moving coordinate is between its bounds between the two moments computed, and only there |
| SlabTest.NarrowedInside | native/scu_host.c:3749-3760 | inside what is left of the span every coordinate so far is within its bounds |
| SlabTest.NarrowedKeeps | native/scu_host.c:3749-3760 | no piece within the bounds is lost by narrowing |
| SlabTest.DragCrossesTile | native/scu_host.c:3740-3762 | true exactly when some piece of positive length lies in the half-open tile, also for segments along an axis and for points |
| SlabTest.PointCrosses | native/scu_host.c:2705-2709 | a drag that does not move crosses exactly the tile that contains its point |
| SystemBroker.FindCall | native/spaces_system_broker.c:576-583 | the call found is pending, undelivered, and waits for this serial on this bus |
| SystemBroker.StepCore | native/spaces_system_broker.c:171-261 | every step keeps the count, unique serials, one completion path for each call, and one answer for each delivered call |
| SystemBroker.StepInOrder | native/spaces_system_broker.c:616-657 | every step keeps what was relayed and what is queued in the order of receipt, while no awaited reply was lost to a full queue and the client is open |
| SystemBroker.StepFaithful | native/spaces_system_broker.c:171-206 | every step keeps that what left is what arrived for it |
| SystemBroker.StepSettled | native/spaces_system_broker.c:564-657 | every step keeps account of each request: queued, pending, answered, or dropped by a closed client |
| SystemBroker.OutstandingIsPending | native/spaces_system_broker.c:228-261 | in every run `outstanding` is the length of `pending_calls` and at most 64 |
| SystemBroker.EventsDecide | native/spaces_system_broker.c:564-614 | in every run, of the messages whose events ran while the client was open: a signal was relayed exactly if it was within bounds and permitted; a request was forwarded exactly if it was within bounds, allowed, and found fewer than 64 calls pending; any other request got the broker's own answer |
| SystemBroker.QueuedRuns | native/spaces_system_broker.c:564-657 | of an open client, exactly the messages that were queued and are off the queue had their events run |
| SystemBroker.ClosedByClose | native/spaces_system_broker.c:90-97 | a client is closed from its Close on, and only then |
| SystemBroker.LostWhenFull | native/spaces_system_broker.c:616-641 | `lost` holds exactly if a reply that some call waited for found 1024 events in the queue |
| SystemBroker.ForwardedIsAnsweredOnce | native/spaces_system_broker.c:171-226 | in every run a forwarded request has at most one answer, exactly one once its call is off the list, and a call on the list still has a way to end |
| SystemBroker.OneReplyPerRequest | native/spaces_system_broker.c:228-261 | no request gets two answers, and at rest every request of an open client has one |
| SystemBroker.RelayedInOrder | native/spaces_system_broker.c:632-641 | replies and signals leave in the order received while the client is open and no awaited reply was lost to a full queue: all of them in the broker, and those of the connection to the broker in the relay |
| SystemBroker.OrderHoldsUnlessOvertaken | native/spaces_system_broker.c:208-226 | in every run of either process, whatever was lost or closed, they leave in the order received exactly when no callback sends a reply after a message received later has left; the same without the answers to the peer |
| SystemBroker.OverflowBreaksOrder | native/spaces_system_broker.c:616-625 | a run of the broker with a full queue in which a signal overtakes the reply before it |
| SystemBroker.GuestAnswersComeLate | native/spaces_system_broker.c:659-667 | a run of the relay in which the answer of the guest's own bus leaves behind a later signal, though nothing was lost |
| SystemBroker.SentIsRight | native/spaces_system_broker.c:171-206 | each answer goes to its request's origin with the reply that matches its serial on its target, or with an error after a timeout; every forwarded request and relayed signal was within bounds and passed the policy |
| SystemBroker.Drain | native/spaces_system_broker.c:208-226 | from every reachable state timeouts and the main loop alone empty the queue and the list |
| SystemBroker.EveryRequestCanBeAnswered | native/spaces_system_broker.c:171-261 | from every reachable state of an open client each request can come to exactly one answer |
| SystemBrokerClient.Client.DeliverReply | native/spaces_system_broker.c:171-206 | the call is marked delivered and its origin is sent the reply, or an error if there is none within bounds |
| SystemBrokerClient.Client.Forward | native/spaces_system_broker.c:228-261 | at the limit an error goes back; otherwise the call joins the list and the request is sent under a fresh serial |
| SystemBrokerClient.Client.DeliverToPending | native/spaces_system_broker.c:576-583 | the walk delivers to the first call that waits for this reply, or to none |
| SystemBrokerClient.Client.ProcessEvent | native/spaces_system_broker.c:564-614 | one event in place is one step of the specification |
| SystemBrokerClient.Client.RemovePending | native/spaces_system_broker.c:217 | exactly the first node of the call leaves the list |
| SystemBrokerClient.Client.ForwardFinished | native/spaces_system_broker.c:208-226 | one callback in place is one step of the specification |
| SystemBrokerClient.Client.QueueMessage | native/spaces_system_broker.c:616-641 | below 1024 events the message is queued last; otherwise it is dropped and a request is answered |
| SystemBrokerClient.Client.Filter | native/spaces_system_broker.c:643-667 | the filter of the connection queues the message, except a reply or signal of the guest's bus in the relay |
| SystemBrokerClient.Client.Receive | native/spaces_system_broker.c:619-667 | a message is queued before GDBus schedules the callback of the call it completes |
| SharedHost.StepKept | native/scu_service.h:87-341 | every step keeps the counts of queued and current calls, one REVOKE for each revoked lease, no REGISTER behind it, and nothing freed that is referred to |
| SharedHost.StepBounded | native/scu_service.h:155-313 | every step keeps the limits on clients, leases and queued calls |
| SharedHost.StepGood | native/scu_service.h:392-464 | every step keeps those and the properties of the history |
| SharedHost.ReleaseIsFinal | native/scu_service.h:430-437 | in every run no call runs when `released` is sent, and afterwards none of the lease's clients is handled, nor is the lease readied or released again |
| SharedHost.CallsDoNotNest | native/scu_service.h:395-407 | a call is handled only when none runs, and the one that returns is the one handled, under any nested callbacks |
| SharedHost.OpenCallsAreHandled | native/scu_service.h:393-407 | in every run exactly the calls whose clients were open when they were taken off the queue are handled, in the order of the queue, and each returns before the next |
| SharedHost.TestSocketServes | native/scu_service.h:366-379 | the first client of a test socket is served |
| SharedHost.ReachedIsAlive | native/scu_service.h:315-341 | no queued event, running call, installed callback or remaining client refers to a freed client or lease |
| SharedHost.OneRevokeAfterRegister | native/scu_service.h:227-242 | a revoked lease has one REVOKE, queued or acknowledged, behind any REGISTER |
| SharedHost.PendingIsQueued | native/scu_service.h:147-153 | `pending` is the client's queued calls plus the current one |
| SharedHost.LimitsHold | native/scu_service.h:155-242 | at most 32 open clients, 64 leases and 64 queued calls; a running call whose client closed is cancelled |
| SharedHost.EventsChange | native/scu_service.h:147-313 | what joins the queue at its end with each input, and that only the main loop takes its head off |
| SharedHost.ConnectionsBecomeClients | native/scu_service.h:196-225 | a connection becomes a client exactly if its lease listens and is not revoked, it is permitted, and fewer than 32 clients are open; owners never change |
| SharedHost.ClientsClose | native/scu_service.h:87-242 | a client closes exactly when its connection does, when it asks for more than the queue holds, or when its lease is revoked, and is given back exactly by a sweep once it is closed and has no calls |
| SharedHost.LeasesChange | native/scu_service.h:227-341 | when exactly a lease is revoked, has its sources, listens, is registered, acknowledged and given back |
| SharedHost.ControllersBecomeLeases | native/scu_service.h:295-313 | a controller's connection becomes a lease exactly if it is permitted and fewer than 64 are there |
| SharedHost.IdleSince | native/scu_service.h:447-460 | since when a lease is idle: since the first check that found it used and without clients |
| SharedHost.PhaseChanges | native/scu_service.h:393-428 | when exactly the thread is inside of a call or a bind |
| SharedHost.ControllersAreTold | native/scu_service.h:410-437 | a controller is told that its lease is ready exactly when it was bound and can be told, and that it is released exactly when its REVOKE is taken off the queue |
| SharedHost.CancelChanges | native/scu_service.h:87-94 | the current call is cancelled exactly when its client says so or closes |
| SharedHost.Drain | native/scu_service.h:392-439 | the main loop alone empties the queue, comes to rest, and handles every queued call of an open client |
| SharedHost.RevokedIsGivenBack | native/scu_service.h:315-341 | from every reachable state the main loop can release every revoked lease and give back it and its clients |
| SharedHostService.Host.ClientClose | native/scu_service.h:87-107 | the client is closed once, and a current call is cancelled |
| SharedHostService.Host.Queue | native/scu_service.h:147-153 | the event is queued last, and a call counts as pending |
| SharedHostService.Host.QueueCall | native/scu_service.h:155-173 | a call is queued below the limit; otherwise its client is closed |
| SharedHostService.Host.ClientCount | native/scu_service.h:196-202 | the loop counts the open clients, though closed ones may be gone from the array |
| SharedHostService.Host.Accept | native/scu_service.h:204-225 | a connection becomes a client of a lease that is not revoked, below the limit, with the right credentials |
| SharedHostService.Host.CloseClientsOf | native/scu_service.h:237-240 | exactly the lease's clients are closed, and the running call is cancelled if it is theirs |
| SharedHostService.Host.RevokeLease | native/scu_service.h:227-242 | the first revocation removes the sources, closes the clients and queues one REVOKE |
| SharedHostService.Host.ReadControl | native/scu_service.h:244-293 | a valid first message registers the lease once; anything else revokes it |
| SharedHostService.Host.AcceptControl | native/scu_service.h:295-313 | a controller's connection becomes a lease below the limit |
| SharedHostService.Host.TakeEvent | native/scu_service.h:393-437 | one event is taken from the queue and started, or a release is sent and acknowledged |
| SharedHostService.Host.BindReturned | native/scu_service.h:410-428 | after a bind the lease listens unless the bind or the reply failed or it was revoked meanwhile |
| SharedHostService.Host.CollectClients | native/scu_service.h:317-327 | removal by moving the last element frees exactly the closed clients with nothing pending |
| SharedHostService.Host.CollectLeases | native/scu_service.h:328-340 | removal by moving the last element frees exactly the acknowledged leases without clients |
| SharedHostService.Host.Collect | native/scu_service.h:315-341 | one collection in place is one step of the specification |
| SharedHostService.RemoveFast | native/scu_service.h:326 | the rest lists the other elements once each, and those before the index stay in place |
| Json.CString | native/scu_mcp.h:620-628 | what a C string function sees is what stands before the first NUL |
| Json.Found | native/scu_mcp.h:620-623 | a lookup finds the first member with the key |
| Json.Put | native/scu_mcp.h:651-654 | after a put a lookup finds the new value under its key and everything else as before |
| ToolSchema.FindAction | native/scu_mcp.h:710-724 | the action found has the name asked for |
| ToolSchema.FirstActionFound | native/scu_mcp.h:710-724 | the action found is the first of that name in the batch, for accessibility with its requirements there; there is none exactly when no action of the batch has the name |
| ToolSchema.TakenLine | native/scu_mcp.h:821-834 | besides its own lines a tool has those for a point and for an element where it takes these; without vision status has none |
| ToolSchema.ArgumentSchemaFits | native/scu_mcp.h:726-819 | the schema of one table line accepts exactly what the line describes |
| ToolSchema.PropertiesHold | native/scu_mcp.h:726-819 | the compiled properties hold, for each name, the schema of its line |
| ToolSchema.OrderingKeeps | native/scu_mcp.h:869-883 | putting the required properties first loses and changes none |
| ToolSchema.RequiredComeFirst | native/scu_mcp.h:869-883 | the required properties come first, as they are listed, and then the others, as they were |
| ToolSchema.ToolObjectValidated | native/scu_mcp.h:938-958 | the validator asks for an object with the required members and no unknown ones |
| ToolSchema.PlainToolSchemaFits | native/scu_mcp.h:821-973 | a tool's compiled schema accepts exactly the arguments its table describes |
| ToolCompiler.AddArguments | native/scu_mcp.h:726-819 | the loop over a table compiles every line, later lines replacing earlier ones of the same name |
| ToolCompiler.OrderProperties | native/scu_mcp.h:869-883 | the two loops build the ordered properties |
| ToolCompiler.SelectAction | native/scu_mcp.h:710-724 | the loop finds the first action of the batch with that name, with its target if the batch needs one |
| ToolCompiler.ListAlternatives | native/scu_mcp.h:838-863 | the loop lists one alternative for each action of the batch |
| ToolBatch.StepSchemaFits | native/scu_mcp.h:841-860 | an alternative accepts exactly the steps that name its action with arguments its table describes |
| ToolBatch.AlternativesFit | native/scu_mcp.h:838-866 | the alternatives accept exactly what some action of the batch describes |
| ToolBatch.BatchSchemaFits | native/scu_mcp.h:821-973 | a batch's compiled schema accepts exactly what its table, with the tables of its actions, describes |
| ToolBatch.Preflight | native/scu_host.c:4470-4482 | the loop over fixed arrays of 64 checks the steps in order and stops at the first bad one |
| ToolBatch.StepsChecked | native/scu_host.c:4470-4482 | for any steps: the check is ready with the actions and arguments as given exactly when all steps pass, and otherwise ends at the first that does not, as invalid when it is not well formed and as refused when its arguments are |
| ToolBatch.AcceptedBatchChecks | native/scu_host.c:4458-4482 | an accepted batch has at most the table's number of steps, is never refused before its first step, and is invalid exactly when some step has other than two members; otherwise each checked step is the action of the name given, with the arguments given |
| ToolBatch.DistinctKeysAreReady | native/scu_host.c:4470-4482 | with distinct keys an accepted batch always passes the check |
| ToolTables.ActionsAreSteps | native/scu_mcp.h:544-602 | the tables of the ten actions meet what the theorems about batches ask |
| ToolTables.VisionIsBatch | native/scu_mcp.h:500-532 | the vision table meets what the theorems about batches ask, with and without vision |
| ToolTables.AccessibilityIsBatch | native/scu_mcp.h:508-534 | the accessibility table does too |
| ToolTables.StepsAreRouted | native/scu_host.c:4661-4678 | a usable vision step goes to scu_visual and an accessibility step to scu_atspi, delays aside |
| ToolTables.AcceptedStepsAreRouted | native/scu_host.c:4645-4679 | so does every step of an accepted batch that passed the check, with its own arguments, and there are at most 64 |
| ToolTables.ToolsAreRouted | native/scu_host.c:4645-4679 | status, the two batches, search and launch each go their own way, whatever their arguments |
| ToolTables.SampleRoute | native/scu_host.c:3776-3795 | the samples run from one point to the other, both included, within the 626 of the array |
| ToolTables.RouteIsEven | native/scu_host.c:3776-3788 | the samples of a drag are evenly spaced, one for every whole 16 milliseconds and at least one |
| ToolTables.RouteEnds | native/scu_host.c:3784-3788 | the first sample is the start and the last one the end |
| ToolTables.AcceptedDragFits | native/scu_host.c:3776-3778 | an accepted drag's duration keeps its samples within the array |
| ToolTables.AcceptedChordFits | native/scu_host.c:4045-4051 | an accepted chord has one to five plain names for the array of six, and its codes fit the array of eight |
| ToolTables.NulKeyIsBad | native/scu_mcp.h:948-951 | an accepted step with two members is still accepted with a third whose key continues "args" behind a NUL, and then the check before the first step calls it invalid |
| ToolTables.ClickAtOrigin | native/scu_host.c:4470-4477 | there is such a step |
| KeyChord.ChordHolds | native/scu_host.c:4060-4088 | the codes are those of the keys and of Shift where needed, each once |
| KeyChord.ChordGoesOn | native/scu_host.c:4061-4087 | one more key adds Shift, if it needs that and no key before it did, and then its own code, unless that is pressed already |
| KeyChord.ChordKeepsOrder | native/scu_host.c:4051-4089 | the keys named first are pressed first |
| KeyChord.ShiftComesFirst | native/scu_host.c:4063-4073 | Shift is down before the first key that needs it |
| KeyChord.CollectCodes | native/scu_host.c:4051-4089 | the loop fills the array of eight with the chord's codes in order, or fails exactly when there are more |
| PortalTables.InsertKept | native/spaces_portal.c:782-817 | registration keeps the tables sound, and one-to-one if the host path is not in use |
| PortalTables.RemoveKept | native/spaces_portal.c:1965-1985 | ending a request or session leaves no entry that points at it |
| PortalTables.OwnerLeavesExactly | native/spaces_portal.c:3586-3608 | exactly the owner's entries leave, from both tables |
| PortalTables.StepSound | native/spaces_portal.c:782-932 | every step keeps the tables sound, and one-to-one when host paths are fresh |
| PortalTables.Run | native/spaces_portal.c:1962-1986 | in every run no table entry points at a freed object, fresh paths or not |
| PortalTables.LocalRequestStays | native/spaces_portal.c:1063-1090 | a request without host path is in the table, under the same path and for the same owner, exactly until its own answer or until its owner is gone |
| PortalTables.RegistrationsEnter | native/spaces_portal.c:782-817 | an accepted registration enters its table under both paths, and nothing else enters one |
| PortalTables.RequestStays | native/spaces_portal.c:1962-1982 | in runs with fresh host paths a request that has one is there, under the same paths and for the same owner, exactly until a Response when it is cancelled or not persistent, its own end, or the end of its owner; it is cancelled exactly by its own owner's Close |
| PortalTables.SessionStays | native/spaces_portal.c:1982-1986 | and a session exactly until its Closed or the end of its owner |
| PortalTables.RunIsExact | native/spaces_portal.c:782-1986 | in every run, requests and sessions pair guest and host paths one-to-one and share no host path throughout, exactly when every registration was refused or found its host path in neither table |
| PortalTables.StaysExact | native/spaces_portal.c:782-817 | a step keeps the pairing exactly when it is no registration, a refused one, or one under a fresh host path |
| PortalTables.RepeatedHostPath | native/spaces_portal.c:788-790 | two requests under one host path: only the later one is found under it |
| PortalTables.TranslateKeepsType | native/spaces_portal.c:528-564 | translation keeps every value's type, so containers stay well typed |
| PortalTables.PathsAreMapped | native/spaces_portal.c:531-544 | the guest's path of an entry stands for its host path and the other way round, requests first; every other path stands for itself |
| PortalTables.PathRoundTrip | native/spaces_portal.c:531-544 | a path translated to the host and back is itself exactly when an entry has it as guest path with a host path, or no entry has it as host path, or the entry found under it as host path has it as guest path too |
| PortalTables.HostPathIsMistaken | native/spaces_portal.c:531-544 | a guest's own path that is also the host path of another entry comes back as that entry's guest path |
| PortalTables.TranslateRoundTrip | native/spaces_portal.c:528-564 | a value translated to the host and back is itself exactly when every path in it comes back |
| PortalService.ObjectTable.Register | native/spaces_portal.c:782-817 | an exported object enters both tables; a failed export changes nothing |
| PortalService.ObjectTable.RemoveEntry | native/spaces_portal.c:1977-1986 | the entry leaves both tables with its object |
| PortalService.ObjectTable.OnResponse | native/spaces_portal.c:1962-1982 | a Response ends the request it is for if that is cancelled or not persistent |
| PortalService.ObjectTable.OnClosed | native/spaces_portal.c:1982-1986 | Closed ends the session it is for |
| PortalService.ObjectTable.OnClose | native/spaces_portal.c:758-766 | only its owner cancels a request |
| PortalService.ObjectTable.PathsOf | native/spaces_portal.c:3587-3592 | the guest paths of exactly the owner's entries, each once |
| PortalService.ObjectTable.OwnerGone | native/spaces_portal.c:3586-3608 | collecting the paths first and then removing each leaves what belongs to others |
| PortalService.TranslateValue | native/spaces_portal.c:528-564 | the rebuilt value is the translation |
| PortalRegistration.StepKept | native/spaces_broker.c:159-258 | every step keeps the broker's invariant |
| PortalRegistration.RunKept | native/spaces_broker.c:128-258 | so every reachable state has it |
| PortalRegistration.DestinationIsCertified | native/spaces_broker.c:128-149 | a destination given out is the present owner and has accepted a Register call sent to it since it appeared |
| PortalRegistration.DestinationIsGiven | native/spaces_broker.c:128-149 | the owner that the bus names is given out exactly when it is the present one and the newest call was accepted |
| PortalRegistration.NewestCallDecides | native/spaces_broker.c:159-258 | the owner is the one last reported; with one, the newest call went to its present appearance, and the broker waits for it, is to repeat it, or is registered exactly as that call is unanswered, failed or accepted |
| PortalRegistration.CallsAreSent | native/spaces_broker.c:206-249 | a call is sent exactly when an owner appears and when a retry fires |
| PortalRegistration.RepliesAreTaken | native/spaces_broker.c:159-204 | the reply to the call in flight registers the broker, makes it give up, or has it try again |
| PortalRegistration.FailuresAreCounted | native/spaces_broker.c:192-196 | the failures counted are the failed calls to the present appearance |
| PortalRegistration.OneOfThree | native/spaces_broker.c:159-258 | with an owner exactly one holds: a call in flight, a retry due, or registered |
| PortalRegistration.StaleReplyChangesNothing | native/spaces_broker.c:168-170 | of all Register calls ever sent, the reply changes nothing exactly for those sent to an earlier appearance of the owner, sent to an owner that is gone, or already answered |
| PortalRegistration.RetriesBackOff | native/spaces_broker.c:192-196 | the retry after the k-th failed call to an appearance is due after min(2^(k-1), 30) seconds |
| PortalRegistration.RegisterIsOneShot | native/spaces_broker.c:179-191 | Register is repeated to one appearance only after every earlier call failed for certain |
| PortalRegistration.GivesUpWhenUnknown | native/spaces_broker.c:179-191 | in every run the broker has given up exactly when some Register call ended with an unknown outcome, and that call is the newest |
| PortalRegistration.Broker.RegisterIdentity | native/spaces_broker.c:206-223 | a call to the present owner becomes the current attempt, and the retry is gone |
| PortalRegistration.Broker.ClearIdentity | native/spaces_broker.c:225-238 | attempt, timer, registration, delay and owner are reset |
| PortalRegistration.Broker.OnAppeared | native/spaces_broker.c:240-249 | a new owner starts over with a call to it |
| PortalRegistration.Broker.OnVanished | native/spaces_broker.c:251-258 | without an owner nothing is due, in flight or registered |
| PortalRegistration.Broker.RegistrationDone | native/spaces_broker.c:159-204 | the reply's handling in place is one step of the specification |
| PortalRegistration.Broker.OnRetry | native/spaces_broker.c:206-223 | a retry that fires sends another call to the present owner |
| PortalRegistration.Broker.PortalDestination | native/spaces_broker.c:128-149 | the queried owner is given out only if it is the registered one |
| StreamRenderer.RenderRedraws | src/spaces/logging.py:194-219 | a redraw that keeps the shared lines leaves the same terminal as clearing the display and writing every line |
| StreamRenderer.RenderStays | src/spaces/logging.py:202-214 | a redraw never moves the cursor above the display |
| StreamRenderer.RenderShows | src/spaces/logging.py:194-219 | after a redraw the earlier output is unchanged and followed by the new snapshot, with blank rows below; all of it is on the screen exactly when it has fewer lines than the screen has rows |
| StreamRenderer.ClearTranscript | src/spaces/logging.py:242-248 | clearing leaves exactly the output before the display |
| StreamRenderer.OneRowAdds | src/spaces/logging.py:183-219 | on a terminal of one row a redraw only adds: its new lines, and a blank one for each line it meant to erase; clearing changes nothing |
| StreamRenderer.Snapshot | src/spaces/logging.py:187-192 | all lines if they fit, otherwise the marker and the last ones |
| StreamRenderer.SnapshotFits | src/spaces/logging.py:183-192 | what fits a terminal: all lines if they are fewer than its rows, otherwise the marker and as many of the last lines as leave two rows |
| StreamRenderer.SpacesHandler.SharedPrefixLength | src/spaces/logging.py:234-240 | the longest common prefix |
| StreamRenderer.SpacesHandler.RenderStream | src/spaces/logging.py:194-219 | an unchanged snapshot writes nothing; another writes the redraw and is remembered |
| StreamRenderer.SpacesHandler.EmitStream | src/spaces/logging.py:168-175 | after a streamed record the terminal holds the output before it and the current snapshot; on one row a changed snapshot follows all earlier ones |
| StreamRenderer.SpacesHandler.ClearStreamDisplay | src/spaces/logging.py:242-248 | the display is gone and the output before it is unchanged; what scrolled away on a terminal of one row counts as that output |
| StreamRenderer.SpacesHandler.BakeStreamHistory | src/spaces/logging.py:250-257 | the display becomes ordinary output, cut to its last 15 lines, the marker included |
| StreamRenderer.SpacesHandler.EmitRecord | src/spaces/logging.py:126-136 | an ordinary record follows the baked history |
| AgentState.ParseUnsigned | native/spaces.c:164-188 | exactly the digit strings whose value is within the maximum are accepted, with that value |
| AgentState.WrittenFits | native/spaces.c:414-423 | a record's text fits the buffer |
| AgentState.ReadBackWritten | native/spaces.c:364-430 | what is written is read back |
| AgentState.WordsAreRead | native/spaces.c:364-406 | of any text the first three words are read as process ID, start time and count; the first that is no number within its range ends the reading, and of a start time before a bad count the start time stays |
| AgentState.RestIsIgnored | native/spaces.c:376-384 | only 127 bytes are read, and of these what stands before a NUL |
| AgentReference.StepKept | native/spaces.c:1019-1141 | every step keeps the count of holders |
| AgentReference.RunKept | native/spaces.c:1019-1141 | so every interleaving of processes does |
| AgentReference.CountIsHolders | native/spaces.c:1044-1055 | the stored count is the number of processes that hold the stored agent, plus references that were never given back |
| AgentReference.FormerHolderChangesNothing | native/spaces.c:1121-1134 | once an agent that ran is neither in the file nor being started, no release of a process that holds it changes the file or any agent, in any continuation of the run |
| AgentReference.LastReleaseEndsTheAgent | native/spaces.c:1112-1141 | a release ends an agent exactly when it is the stored one and no other reference to it is left |
| AgentReference.HeldIsKnown | native/spaces.c:1019-1110 | what a process holds is such a former agent unless it stands in the file or is being started |
| AgentReference.StaysAttended | native/spaces.c:1019-1141 | if every running agent has a holder, a step leaves one without exactly when the last holder of a running agent dies, perhaps while starting it, or gives its reference back while the file does not name that agent with one reference |
| AgentReference.AgentsAreAttended | native/spaces.c:1019-1141 | in every run an agent, one that is still being started included, runs only while some process holds it, throughout, exactly when no last holder goes so |
| AgentReference.StaysAccounted | native/spaces.c:1019-1141 | if every running agent is recorded or its starter is there to record it, a step takes one off the record exactly when it resets the file of a running agent, or the starter of one cannot read its start time or dies |
| AgentReference.AgentsAreAccounted | native/spaces.c:1019-1141 | in every run that holds throughout exactly when no step does so |
| AgentReference.AccountedIsEnded | native/spaces.c:1112-1141 | with every running agent recorded and no reference lost, the release of the last holder ends its agent |
| AgentReference.HoldersEndTheirAgents | native/spaces.c:1019-1141 | in a run in which no agent is taken off the record and no holder dies, no agent is left without a holder |
| AgentReference.UnreadAgentIsLeft | native/spaces.c:1085-1096 | an agent whose start time cannot be read is never recorded, and runs on after its only holder's release |
| AgentReference.StartedAgentIsLeft | native/spaces.c:962-999 | an agent whose starter dies before it is recorded runs on without a holder, and the lock stays taken |
| AgentReference.StartsEnd | native/spaces.c:962-1072 | while an agent is being started nobody else gets the lock, which is given back exactly when the start is finished or both the starter and the agent are gone |
| AgentReference.Reference.AcquireReference | native/spaces.c:1019-1072 | a live agent's count in the file goes up by one; otherwise the file is reset and an agent is started; file and process are then those of the step on all processes |
| AgentReference.Reference.FinishReference | native/spaces.c:1074-1110 | a started agent is recorded with one reference, an exited one is forgotten, and one without a start time stays unrecorded; file and process are then those of the step on all processes |
| AgentReference.Reference.ReleaseReference | native/spaces.c:1112-1141 | the count in the file goes down for the recorded agent only, and the agent ends with the last reference; file, process and agents are then those of the step on all processes |
| PathMerge.AddedAllSplit | native/spaces.c:654-671 | the merge starts with the preferred path, and its components are the preferred ones and then the fresh ones |
| PathMerge.FreshIs | native/spaces.c:660-661 | fresh are exactly the unknown non-empty components, once each, in the order of first occurrence |
| PathMerge.MergeIsUnion | native/spaces.c:639-673 | the preferred path verbatim in front, every missing component once in order, none omitted, none added |
| PathMerge.PathHasComponent | native/spaces.c:615-637 | true exactly when the component is one of the path's |
| PathMerge.MergePath | native/spaces.c:639-673 | every write stays within the two lengths and two bytes, and the buffer holds the merge and its NUL |
| PathMerge.AddComponent | native/spaces.c:660-667 | a fresh component is appended behind a colon, which the buffer has room for |
| PathMerge.BoundIsTight | native/spaces.c:646 | some merges need every byte of the buffer |
| ReadyMatcher.NextTracks | native/spaces.c:875-885 | for a pattern whose first character does not recur, the simple reset keeps the longest prefix that ends the text |
| ReadyMatcher.Scan | native/spaces.c:874-886 | the scan of a chunk completes the message exactly when the text so far contains it for the first time |
| ReadyMatcher.RelayAgentOutput | native/spaces.c:855-891 | readiness is reported once if the output contains the message, however it is chunked, and never otherwise |
| ReadyMatcher.OtherPatternsAreMissed | native/spaces.c:883-885 | the simple reset misses the pattern "aab" in "aaab", whose first character comes again |
| RateLimiter.RemembersRecent | src/spaces/auth.py:386-392 | pruning forgets no accepted attempt that is still recent, and what is remembered as recent was accepted |
| RateLimiter.RefusedWhenFiveAreRecent | src/spaces/auth.py:393-395 | an attempt is refused as not configured exactly for users that are not, refused as too many exactly when five accepted attempts of its user are less than 30 seconds old, and accepted otherwise |
| RateLimiter.AtMostFiveInAnyWindow | src/spaces/auth.py:382-395 | no half-open window of 30 seconds holds more than five accepted attempts of a user |
| RateLimiter.AuthenticationService.Prune | src/spaces/auth.py:388-392 | the attempts that are less than 30 seconds old, in order |
| RateLimiter.AuthenticationService.ConsumeAttempt | src/spaces/auth.py:382-395 | one attempt in place is one step of the specification |

## Left out

- Allocation failure and the ownership of C strings and GObjects, except that clients and leases are never referred to once freed, and that no table entry points at a freed portal object.
- Bytes: strings are sequences of Unicode characters. Byte offsets, UTF-8 and the prefix tests on bytes are characters here.
- Tree diff: a table that cannot be allocated also returns no diff.
- Tree compaction: rows are records, so JSON members without a part in the pass are not there, and the joining of neighbouring texts that follows it is not modelled.
- TextCompaction.RunGoesWhenSpelled: that names and values of prose begin with no space is a condition on the rows of the run, because `observation_text` (native/scu_host.c:1043-1064), which strips them, is not part of this model.
- SlabTest.DragCrossesTile: C doubles are reals, so rounding and NaN are not modelled, and tile sizes are not negative.
- ElementRing.ElementTable.LookupElement: IDs are integers, as the argument tables demand, and there is one table; the choice of the table by client is not modelled.
- System broker: permissions, bounds and destinations are decided by inputs, and the rewriting of `GetPermissions` replies and the `agent` flag are not modelled. Calls are entries of a table instead of heap objects. Events without a client only count towards the queue's limit. A signal that a peer sends to the broker takes the path of a call (native/spaces_system_broker.c:596), and is relayed or dropped here. In the relay a guest's call finds its client when its event runs, and gets an error if that client is gone, where the model of one client drops it.
- Shared host: the parsing of lines, output buffers, request IDs of cancellations, the stop of the service, and what a call does are inputs or left out. The lease of a test socket is only the start state.
- Descriptions and defaults in schemas, which the validator ignores.
- JSON numbers are integers or reals; rounding of large numbers to doubles is not modelled.
- ToolTables.SampleRoute: the device that each sample belongs to comes from libei and is left out, with the loop's early exit when a point has no device.
- ToolTables.NulKeyIsBad: that a step's third key holds a NUL is one way to other than two members; a repeated key is the other.
- KeyChord.CollectCodes: the keyboard map is an input; a key that it lacks ends the loop before anything is pressed.
- Portal: mirrors, file choosers, clipboards and other local flows appear only as insertions and removals. The call that a file chooser waits for keeps its request without a lookup (native/spaces_portal.c:1063-1090), and such pending calls are not part of the state; `PortalTables.LocalRequestStays` says how long their requests are there. A finished USB request is one with a host path; the source passes the missing path of any other to the hash table.
- Portal registration: whether an error leaves the outcome unknown is an input.
- PortalRegistration.GivesUpWhenUnknown: giving up ends the run, although sources that were ready in the same iteration of the main loop still run, so an owner may appear and be called once more after the unknown outcome.
- StreamRenderer.SpacesHandler.EmitRecord: prefixes, styles and the choice between standard output and standard error are left out; lines are taken as they are written and go to one terminal.
- StreamRenderer.SpacesHandler.constructor: the number of rows does not change, a line never wraps, because it is cropped, and at the start the cursor stands in the first column with blank rows below it.
- AgentReference.CountIsHolders: writes to the state file succeed, and no process identity (ID and start time) is used twice.
- ReadyMatcher.RelayAgentOutput: that the notification is written is a count of reports.
- RateLimiter.AtMostFiveInAnyWindow: clock readings do not decrease in the order of the lock; the source reads the clock before it takes the lock.
- Process spawning, PAM, pidfds, memfd, credentials, cryptography, KWallet, sessions, virtual monitors, application launch, response wording, the command line and the terminal interface.
