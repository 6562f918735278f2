# Models of the NFS client and of lockd

This project models the stateful core of a Linux NFS client and of its lock manager, and proves properties of
the models. Each component is a module of its own:

| module | what it models |
|---|---|
| `Readdir` | the directory page cache: page arrays filled from READDIR replies, searched by position or by cookie, and replayed into callers' buffers, with seeks between |
| `Delegation`, `DelegationInvariant`, `DelegationRuns`, `DelegationOutcomes` | the delegation state machine: flag bits, reference counts, inode pointers, server lists, the global counter, delayed returns, and the "delegated" tag of dentries, one critical section a step |
| `DelegationReturn` | the loop that returns marked delegations and resumes from a place holder, beside other threads |
| `LockdFiles`, `LockdHosts`, `LockdShares`, `LockdServing` | the lock server's files, shares and host table, the traversals over them, the mark-and-sweep collector of hosts, and whole runs of requests |
| `LockdClient`, `LockdRecovery` | lock attempts, reboot notifications and reclaimers in the lock client, in any interleaving, and what they get done |
| `RetryQueue` | the lock server's time-ordered queue of blocked locks and the loop that retries them |
| `BlockLifetime` | references on blocks and files, and the outcome of deferred requests, in any interleaving |
| `Credentials`, `AccessTree`, `AccessCache`, `AccessRuns` | the order of credentials, the tree of cached access rights, the two LRU lists and the bounded counter, and whole runs against a plain record of what was learned |
| `IoExclusion` | buffered against direct I/O on one inode, with asynchronous requests, for any number of threads |
| `DirectIo` | what completions in any order add up to |
| `Callback` | CB_COMPOUND on the NFSv4.1 back channel (section 20.9.3 of RFC 5661) |
| `Xdr`, `NlmCodec` | NLMv4 requests and holders on the wire (Appendix II of RFC 1813, RFC 4506) |
| `StringEscape`, `StringUnescape` | string escaping and unescaping |

Code that updates objects in loops is modelled by classes and methods with loops; protocols between threads are
modelled as state machines whose steps are the stretches of code between two points where another thread can get in.
RPC results, memory, the VFS and the server are nondeterministic.

Some properties one would expect do not hold of the code. They are stated with the case that breaks them and with the
exact condition under which they hold:

- `nfs_active_delegations` loses one for every duplicate grant that is discarded (`DelegationRuns.DuplicateGrantDrifts`);
  it is exact if and only if there was none (`DelegationRuns.CounterExactIff`).
- A recall is lost exactly by the steps `DelegationRuns.RecallLostIff` names. One is that the return it started is given
  up for an error other than "try again" (`DelegationRuns.RecallCanBeLost`).
- A traversal of the file table that another thread makes can drop a file on which a lock has just been granted
  (`LockdFiles.GrantBesideTraversalIsLost`), because it trusts `f_locks`. `LockdFiles.TrustBrokenIff` says which event
  makes `f_locks` misleading, a remote lock set while it stands at zero; without it the traversal is safe
  (`LockdFiles.QuietTraversalIsSafe`).
- A share that replaces its owner's earlier one is not compared with those behind it in the list, so that shares of two
  owners can deny each other (`LockdShares.ReplacementCanClash`); they stay compatible exactly when the new one agrees
  with all others (`LockdShares.CompatibleIff`).
- The reboot check of a lock attempt passes exactly when the number of reboots since is a multiple of 2^32
  (`LockdClient.CheckPassesIff`), so 2^32 reboots let a stale lock in (`LockdClient.WrapLetsStaleIn`).
- A reboot notified while a reclaimer leaves is missed: it clears the one bit of `h_reclaiming` and starts nobody
  (`LockdClient.LateRebootIsMissed`). The locks are those of the server as it is when the reclaimer leaves exactly when
  no reboot was notified since it read the server's state (`LockdClient.ExitCurrentIff`). Locks whose reclaim was
  refused are on neither list.
- `nlmsvc_remove_block` tests the list outside its lock: two removals that overlap drop the queue's reference twice
  (`BlockLifetime.OverlappingRemovalsDropTwice`). Without overlap the count is exact (`BlockLifetime.CalmRunIsExact`,
  `BlockLifetime.InexactStepIff`).
- A lookup that finds a file and fails to open it keeps its reference (`BlockLifetime.FailedOpenLeaks`); `f_count` is
  exact if and only if there was none (`BlockLifetime.FileCountExactIff`).
- Granted and timed-out exclude each other unless the filesystem answers twice and takes a grant back
  (`BlockLifetime.SecondAnswerBreaksIff`), or the block had been granted before it was deferred
  (`BlockLifetime.DeferralStartsClean`).
- The wait that the retry loop returns is right exactly when the clock has not passed the due time between its two
  readings (`RetryQueue.BlockQueue.RetryBlocked`); otherwise it wraps around (`RetryQueue.LateLookWraps`).
- The error of a direct request depends on completion order exactly when headers that end at the limit disagree on it
  (`DirectIo.ErrorOrderIrrelevantIff`).
- An NLM cookie survives the wire exactly when it has 1 to 32 bytes (`NlmCodec.RequestRoundTrip`, `NlmCodec.SameFieldsIff`).
- The client's own encoder of lock holders writes "shared" where its decoder reads "exclusive", so that every holder
  comes back turned (`NlmCodec.OwnHolderTurned`).
- Unescaping undoes escaping for every string exactly under the condition of `StringUnescape.RoundTripIff`.

## Model

| member | source | states |
|---|---|---|
| Readdir.CookieNamesPosition | bundle/fs/nfs/dir.c:447-498 | in a listing with distinct nonzero cookies a cookie names one position |
| Readdir.ExtendHolds | bundle/fs/nfs/dir.c:280-314 | storing the next entry with the cookie before it keeps the page a slice of the listing, and "ordered" true exactly of rising cookies |
| Readdir.ShortcutNeverSkips | bundle/fs/nfs/dir.c:434-445 | the ordered-cookie shortcut never rules out a page that holds the cookie, and rules out every ordered page that begins after it or ends at it |
| Readdir.PageFindsPosition | bundle/fs/nfs/dir.c:447-498 | an entry of a page bears the cookie of position k exactly when it is at position k |
| Readdir.SearchComplete | bundle/fs/nfs/dir.c:434-498 | a page that covers a position passes the shortcut and holds its cookie |
| Readdir.ChainAt | bundle/fs/nfs/dir.c:837-899 | every cached page continues the listing where the pages before it stop; only the last can be open or at the end |
| Readdir.Descriptor.SearchForPos | bundle/fs/nfs/dir.c:402-423 | search by position answers found, go on, or end of directory as the position lies in, after, or past the page |
| Readdir.Descriptor.SearchForCookie | bundle/fs/nfs/dir.c:447-498 | search by cookie gives the same answer as search by position, and finds the same index |
| Readdir.Descriptor.Hit | bundle/fs/nfs/dir.c:458-487 | when the loop detector reports a loop, and where the descriptor stands otherwise |
| Readdir.Descriptor.SearchArray | bundle/fs/nfs/dir.c:500-519 | a miss moves the descriptor behind the page, and only a miss does |
| Readdir.Descriptor.Emit | bundle/fs/nfs/dir.c:998-1033 | what is emitted from a page is exactly the slice of the listing between the positions before and after |
| Readdir.DirCache.AddToArray | bundle/fs/nfs/dir.c:280-314 | one entry more, or a full page closed, or an error that changes nothing |
| Readdir.DirCache.SetEof | bundle/fs/nfs/dir.c:354-361 | the last page is closed at the end of the listing and the chain stays one |
| Readdir.DirCache.PageFiller | bundle/fs/nfs/dir.c:727-803 | a reply is stored in order over as many pages as it takes; earlier pages are untouched; an open page has grown |
| Readdir.DirCache.XdrToArray | bundle/fs/nfs/dir.c:837-899 | terminates, and success leaves the page full |
| Readdir.DirCache.FindCachePage | bundle/fs/nfs/dir.c:926-960 | found means the entry at the position; end of directory means the position is past the last entry; "again" makes progress |
| Readdir.DirCache.SearchPagecache | bundle/fs/nfs/dir.c:977-993 | terminates with the entry found, the end of the directory, or an error |
| Readdir.DirCache.DoFilldir | bundle/fs/nfs/dir.c:998-1033 | emits the next slice; stops only for lack of room, at the end, or at the end of the page |
| Readdir.DirCache.Readdir | bundle/fs/nfs/dir.c:1090-1182 | a call that succeeds emits exactly the next entries, as many as there is room for; one that fails has lost and repeated none |
| Readdir.OpenDir.Seek | bundle/fs/nfs/dir.c:1184-1221 | the stream stands where it was sent, by the cookie of a place or by its number, which may be past the end; an impossible offset is refused and a seek to where it stands changes nothing |
| Readdir.Run | bundle/fs/nfs/dir.c:1090-1221 | any number of readers of one cache, any interleaving of calls with any buffer sizes and of seeks: each has received, since it was last moved, exactly the entries from there to where it stands, in order, and without errors, of which there are none while neither memory nor the server fails, as far as the room it offered goes |
| DelegationInvariant.StepKeepsInv | bundle/fs/nfs/delegation.c:40-1193 | every step of every operation keeps pointers, lists, references, counter, flags and tags consistent |
| DelegationInvariant.GrantKeeps | bundle/fs/nfs/delegation.c:427-526 | a grant, as new, in-place update, replacement, upgrade or discarded duplicate, keeps the invariant |
| DelegationInvariant.ReclaimKeeps | bundle/fs/nfs/delegation.c:230-260 | a reclaim keeps the invariant |
| DelegationInvariant.StartKeeps | bundle/fs/nfs/delegation.c:292-311 | starting a return takes one reference and withdraws the tag, keeping the invariant |
| DelegationInvariant.AbortKeeps | bundle/fs/nfs/delegation.c:324-335 | an abandoned return gives its reference back and leaves the delayed flag where needed |
| DelegationInvariant.FinishKeeps | bundle/fs/nfs/delegation.c:262-277 | a return sent to the server gives its reference back |
| DelegationInvariant.ReturnedKeeps | bundle/fs/nfs/delegation.c:962-996 | the server's answer to a return, which acts on whatever delegation the inode has by then, keeps the invariant |
| DelegationInvariant.ReturnedIsOwn | bundle/fs/nfs/delegation.c:962-996 | although the answer looks the delegation up through the inode, it changes no delegation but the one it answers for, given a server that gives no stateid to two delegations |
| DelegationInvariant.RevokeKeeps | bundle/fs/nfs/delegation.c:920-953 | a revocation keeps the invariant |
| DelegationInvariant.EvictKeeps | bundle/fs/nfs/delegation.c:727-738 | eviction of the inode keeps the invariant |
| DelegationInvariant.ReapKeeps | bundle/fs/nfs/delegation.c:1160-1193 | reaping of unclaimed delegations keeps the invariant |
| DelegationInvariant.PickKeeps | bundle/fs/nfs/delegation.c:567-640 | picking and starting a marked delegation keeps the invariant |
| DelegationInvariant.MarkKeeps | bundle/fs/nfs/delegation.c:834-844 | marking a delegation that a walk over a server's list meets keeps the invariant, wherever other threads get in between |
| DelegationInvariant.TakeDelayedKeeps | bundle/fs/nfs/delegation.c:680-697 | the client-wide flag may be cleared before the walk: every delayed return is ahead of it |
| DelegationInvariant.VisitKeeps | bundle/fs/nfs/delegation.c:665-678 | turning one delayed return into a due one keeps the invariant, wherever other threads get in between |
| DelegationInvariant.SetVerifierKeeps | bundle/fs/nfs/dir.c:1291-1325 | a dentry is tagged only under a valid READ delegation |
| DelegationInvariant.ClearVerifierKeeps | bundle/fs/nfs/dir.c:1333-1347 | clearing tags discharges the thread that owes it |
| DelegationRuns.FreshHolds | bundle/fs/nfs/delegation.c:427-526 | a client without delegations satisfies the invariant |
| DelegationRuns.Run | bundle/fs/nfs/delegation.c:40-1193 | the invariant holds after every interleaving of steps |
| DelegationRuns.BooksAtRest | bundle/fs/nfs/delegation.c:40-66 | with no operation under way every delegation still allocated is attached, pointed back at, on its list and has one reference; the counter is the number of attached non-revoked ones less the discarded duplicates |
| DelegationRuns.CounterExactIff | bundle/fs/nfs/delegation.c:477-511 | the counter is exact if and only if no duplicate grant was discarded |
| DelegationRuns.DuplicateGrantDrifts | bundle/fs/nfs/delegation.c:477-481 | a second read grant for one inode takes one off the counter |
| DelegationRuns.FreedOnce | bundle/fs/nfs/delegation.c:56-66 | what has been freed is never seen again by any thread in any run |
| DelegationRuns.ShortcutIsSafe | bundle/fs/nfs/dir.c:1605-1606 | in every reachable state a tagged dentry has a live, readable, unreturned, unrevoked delegation, or a thread is about to clear the tag |
| DelegationRuns.StepContinues | bundle/fs/nfs/delegation.c:78-83 | every step that does not forgive keeps a recall on record or detaches the delegation |
| DelegationRuns.NoRecallLost | bundle/fs/nfs/delegation.c:567-590 | over any run without a forgiving step, a delegation still attached has on record whatever recall, or wish to have it back once closed, was on record before |
| DelegationRuns.RecallLostIff | bundle/fs/nfs/delegation.c:962-996 | a step loses a recall, or the wish to have a delegation back once closed, exactly when it forgives it and no other bit records it |
| DelegationRuns.RecallCanBeLost | bundle/fs/nfs/delegation.c:324-335 | granted, recalled, picked, and given up with an error: the delegation stays attached with no mark |
| Delegation.NeedReturnMeans | bundle/fs/nfs/delegation.c:567-590 | the answer is yes exactly for a delegation that is marked, closed where that matters, and neither being returned, delayed nor revoked; the marks are taken, nothing else changes |
| DelegationOutcomes.NewIsReferenced | bundle/fs/nfs/delegation.c:442-450 | a new delegation is marked as used, and in no other way |
| DelegationOutcomes.GrantOutcome | bundle/fs/nfs/delegation.c:427-526 | what the inode points at after a grant, case by case: the new delegation exactly if there is none, or the old one bears another stateid and is revoked, or is for reading where the new one is for writing and is not being returned; otherwise the old one, renewed exactly by its own stateid with a newer number |
| DelegationOutcomes.GrantCounts | bundle/fs/nfs/delegation.c:427-526 | how each case is counted |
| DelegationOutcomes.ReclaimOutcome | bundle/fs/nfs/delegation.c:230-260 | the inode's delegation takes on stateid and type and is revoked no longer; without one it is a grant |
| DelegationOutcomes.StartOutcome | bundle/fs/nfs/delegation.c:292-311 | a return begins exactly if there is a delegation that is not being returned |
| DelegationOutcomes.OnCloseOutcome | bundle/fs/nfs/delegation.c:773-801 | a return begins exactly for a valid delegation of a closed file that is marked, or when there are too many |
| DelegationOutcomes.PickOutcome | bundle/fs/nfs/delegation.c:592-663 | the loop starts a return exactly of what is asked for, not barred, and whose inode can be grabbed |
| DelegationOutcomes.AbortOutcome | bundle/fs/nfs/delegation.c:324-335 | a return given up for "try again" is noted as delayed, with the delegation and with the client, and no other is |
| DelegationOutcomes.FinishOutcome | bundle/fs/nfs/delegation.c:262-277 | the call goes out exactly if the delegation is not revoked; its bits stay until the answer |
| DelegationOutcomes.ReturnedOutcome | bundle/fs/nfs/delegation.c:962-996 | the answer ends the return, and the delegation unless it was granted anew meanwhile |
| DelegationOutcomes.RevokeOutcome | bundle/fs/nfs/delegation.c:920-953 | revoked exactly if no stateid is given, or its own at no earlier number |
| DelegationOutcomes.EvictOutcome | bundle/fs/nfs/delegation.c:727-738 | the delegation is off inode and list, marked, and waits to be freed |
| DelegationOutcomes.ReapOutcome | bundle/fs/nfs/delegation.c:1160-1193 | so for one that is reaped |
| DelegationOutcomes.FreeOutcome | bundle/fs/nfs/delegation.c:56-66 | freed exactly with the last reference, and counted off unless revoked before |
| DelegationOutcomes.RecallOutcome | bundle/fs/nfs/delegation.c:1045-1078 | a valid delegation is marked and the state manager woken; any other is left alone |
| DelegationOutcomes.MarkOutcome | bundle/fs/nfs/delegation.c:827-844 | what the two marks set |
| DelegationOutcomes.VisitOutcome | bundle/fs/nfs/delegation.c:665-678 | exactly the delayed returns of attached delegations become due |
| DelegationOutcomes.TakeDelayedOutcome | bundle/fs/nfs/delegation.c:680-697 | the walk has every attached delegation ahead |
| DelegationOutcomes.SetVerifierOutcome | bundle/fs/nfs/dir.c:1291-1325 | a dentry is tagged exactly under a valid delegation |
| DelegationOutcomes.ClearVerifierOutcome | bundle/fs/nfs/dir.c:1333-1347 | exactly the dentries of the inode lose the tag |
| DelegationOutcomes.FullReturn | bundle/fs/nfs/delegation.c:427-663 | granted, recalled, picked, sent back and answered: the delegation is at its end, uncounted, and the next grant takes its place |
| Common.NewerIsLater | bundle/fs/nfs/nfs4_fs.h:611-614 | within half the range the comparison of sequence numbers is the true one |
| DelegationReturn.ServerDelegations.Scan | bundle/fs/nfs/delegation.c:619-630 | the scan stops at the first delegation to return of the whole list, although it starts in the middle |
| DelegationReturn.ServerDelegations.Resume | bundle/fs/nfs/delegation.c:611-618 | nothing before the place where the scan resumes is marked |
| DelegationReturn.ServerDelegations.Pick | bundle/fs/nfs/delegation.c:602-641 | one scan from the place holder equals a scan from the head, and the next place holder is good |
| DelegationReturn.ServerDelegations.ReturnMarked | bundle/fs/nfs/delegation.c:592-663 | terminates; goes on until a return fails, and tells so; without error no mark is left; each return is started once, of marked delegations whose inode can be grabbed; of exactly those a scan of the whole list would have picked at the beginning, but for the ones that another thread made due or no longer due meanwhile; undisturbed, each has ended as it was to end, and of the others marks were taken at most |
| DelegationReturn.PickAgrees | bundle/fs/nfs/delegation.c:592-663 | the flags the loop leaves are those of the delegation machine |
| DelegationReturn.AbortAgrees | bundle/fs/nfs/delegation.c:324-335 | so after a return that is given up |
| DelegationReturn.AnswerAgrees | bundle/fs/nfs/delegation.c:962-996 | and after the server's answer |
| LockdFiles.InspectedUnused | bundle/fs/lockd/svcsubs.c:207-240 | straight after an inspection a file that looks unused holds nothing |
| LockdFiles.MarkOnlyLooks | bundle/fs/lockd/svcsubs.c:376-385 | the marking callback changes nothing of a file but f_locks |
| LockdFiles.SameHostReleased | bundle/fs/lockd/svcsubs.c:387-393 | releasing a host takes all its shares, locks and queued blocks, and nothing of any other host |
| LockdFiles.OwnerGoneFirst | bundle/fs/lockd/svcsubs.c:207-240 | restarting after each unlocked owner ends with the same locks as one filter over the list |
| LockdFiles.TrustBrokenIff | bundle/fs/lockd/svcsubs.c:298-332 | the one event after which f_locks misleads |
| LockdFiles.RecountIsTrusted | bundle/fs/lockd/svcsubs.c:207-240 | a new count of the remote locks puts f_locks right, whatever it was |
| LockdFiles.QuietTraversalIsSafe | bundle/fs/lockd/svcsubs.c:298-332 | with anything going on beside it but the setting of a remote lock while f_locks is zero, a traversal drops only files without share, block, reference or remote lock |
| LockdFiles.GrantBesideTraversalIsLost | bundle/fs/lockd/svcsubs.c:298-332 | a lock granted between inspection and test is dropped with its file |
| LockdHosts.Admit | bundle/fs/lockd/svcshare.c:27-63 | the owner's first share is replaced in place; otherwise the new one is put in front and clashes with none; denied exactly when a share before the owner's own clashes, for lack of memory exactly when a new one is needed |
| LockdHosts.ClashMeans | bundle/fs/lockd/svcshare.c:37-40 | two shares clash exactly when one asks for reading or writing that the other denies |
| LockdShares.GrantedIsOnlyOne | bundle/fs/lockd/svcshare.c:27-63 | a granted share is the one share of its owner, and those of all other owners are as they were |
| LockdShares.CompatibleIff | bundle/fs/lockd/svcshare.c:35-41 | after a grant no owner is denied what another has exactly if the new share agrees with all others, as a newcomer's always does |
| LockdShares.ReplacementCanClash | bundle/fs/lockd/svcshare.c:35-41 | two compatible shares and a replacement that is granted and clashes |
| LockdShares.UnsharedStaysCompatible | bundle/fs/lockd/svcshare.c:68-87 | taking a share away leaves one share to an owner and compatible ones |
| LockdHosts.Server.ShareFile | bundle/fs/lockd/svcshare.c:27-63 | a refused share changes nothing, a granted one only that file's shares, and its host is live |
| LockdHosts.Server.UnshareFile | bundle/fs/lockd/svcshare.c:68-87 | exactly the owner's first share goes, or nothing when there is none |
| LockdHosts.Server.TraverseShares | bundle/fs/lockd/svcshare.c:93-107 | exactly the shares of matching hosts go, the others keep their order; every owner is visited |
| LockdHosts.Server.TraverseBlocks | bundle/fs/lockd/svclock.c:312-334 | terminates in spite of its restarts; exactly the queued blocks of matching hosts leave the queue, and the file unless a call holds them |
| LockdHosts.Server.TraverseLocks | bundle/fs/lockd/svcsubs.c:207-240 | terminates in spite of its restarts; f_locks is the number of remote locks; it fails exactly if the filesystem does not unlock some matching owner, and then leaves a lock and loses no other host's |
| LockdHosts.Server.InspectLists | bundle/fs/lockd/svcsubs.c:251-257 | the three walks together, and the marking of every owner |
| LockdHosts.Server.VisitFile | bundle/fs/lockd/svcsubs.c:308-330 | a file is dropped only if it holds nothing, and kept only if it does not look unused |
| LockdHosts.Server.TraverseFiles | bundle/fs/lockd/svcsubs.c:298-332 | every file is inspected once; a dropped one holds nothing; exactly the owners of anything in the net are marked |
| LockdHosts.Server.FreeHostResources | bundle/fs/lockd/svcsubs.c:428-439 | fails exactly if some lock of the host cannot be unlocked; otherwise no share and no lock of the host is left in any file, and no file is dropped that holds anything |
| LockdHosts.Server.LookupFile | bundle/fs/lockd/svcsubs.c:104-158 | one file for a handle, found or made, with one more reference; a failed open of a new file leaves the table alone |
| LockdHosts.Server.ReleaseFile | bundle/fs/lockd/svcsubs.c:343-357 | a file leaves the table exactly when it holds no reference, block, share or remote lock |
| LockdHosts.Server.ClearMarks | bundle/fs/lockd/host.c:665-669 | exactly the marks of the net are cleared |
| LockdHosts.Server.Sweep | bundle/fs/lockd/host.c:674-687 | exactly the unmarked idle hosts of the net go |
| LockdHosts.Server.GcHosts | bundle/fs/lockd/host.c:656-694 | a host goes if and only if it is in the net, owns nothing, has expired and only the table refers to it; no owner is ever left dangling; nothing owned is touched |
| LockdHosts.TimeBeforeIsEarlier | bundle/fs/lockd/host.c:677 | within half the clock's range the wrapped comparison is the true one |
| LockdHosts.Server.CollectAt | bundle/fs/lockd/host.c:656-694 | told by true times: a host goes if and only if it is in the net, owns nothing, only the table refers to it, and its time is over when it is looked at |
| LockdHosts.Server.LookupHost | bundle/fs/lockd/host.c:328-404 | found or, with memory, made, with one more reference and 300 seconds from now; the other hosts stay as they are |
| LockdHosts.Server.SetLock | bundle/fs/lockd/svclock.c:527-537 | a granted lock is one more of a live host on that file |
| LockdHosts.Server.Block | bundle/fs/lockd/svclock.c:217-262 | a block is one more of a live host on that file, with one reference on the file |
| LockdHosts.Server.Unlock | bundle/fs/lockd/svclock.c:652-676 | exactly the owner's locks on that file go |
| LockdServing.Serve | bundle/fs/lockd/svc4proc.c:22-76 | a request is served exactly if there is memory for its host and its file can be opened; what it makes of its file, and that a file left with nothing is dropped; the reference on its host is given back, and no other host or file is touched |
| LockdServing.Step | bundle/fs/lockd/host.c:656-694 | a host goes exactly by a collection of its net, when it owns nothing and 300 seconds have passed since its last request |
| LockdServing.Run | bundle/fs/lockd/svc4proc.c:22-76 | over any run of requests, collections and releases from an empty server, whoever owns a share, lock or block is a live host, no reference on a host is left behind, and h_expires stands for 300 seconds from the last request |
| LockdClient.StepKeepsInv | bundle/fs/lockd/clntlock.c:213-283 | every step of lock attempts, notifications and reclaimers keeps the semaphore, the epochs, the lists and the claims consistent |
| LockdClient.Run | bundle/fs/lockd/clntproc.c:545-588 | the invariant holds after every interleaving |
| LockdClient.NoStaleInstall | bundle/fs/lockd/clntproc.c:573-587 | no lock recorded before a reboot is installed after a reclaimer has held the write lock with that reboot notified, before it took the lock or while it held it, unless 2^32 reboots passed between recording and check |
| LockdClient.CheckPassesIff | bundle/fs/lockd/clntproc.c:575-580 | the check passes exactly when the number of reboots since the recording is a multiple of 2^32 |
| LockdClient.WrapLetsStaleIn | bundle/fs/lockd/clntproc.c:575-580 | after exactly 2^32 reboots a stale lock is installed |
| LockdClient.SnapshotSeesAll | bundle/fs/lockd/clntlock.c:249-260 | when a reclaimer snapshots, every installed lock is on one of the two lists, but for those an earlier reclaim lost |
| LockdClient.LostByRefusalOnly | bundle/fs/lockd/clntlock.c:261-273 | a lock gets lost only by a refused or abandoned reclaim of that lock |
| LockdClient.ExitComplete | bundle/fs/lockd/clntlock.c:245-281 | when a reclaimer leaves, every installed lock was lost or is on h_granted again, granted in the server's state the reclaimer read last |
| LockdClient.ExitCurrentIff | bundle/fs/lockd/clntlock.c:245-281 | that state is the present one if and only if no reboot was notified since, for a server that does not go back to a state number |
| LockdClient.LateRebootIsMissed | bundle/fs/lockd/clntlock.c:213-283 | a reboot notified before the reclaimer leaves starts nobody and leaves a lock of the server before it |
| LockdClient.NoneBetweenCheckAndInstall | bundle/fs/lockd/clntproc.c:573-586 | while a reclaimer holds the write lock no thread is between check and installation |
| LockdRecovery.RecoverStartsIff | bundle/fs/lockd/clntlock.c:213-227 | a notification starts a reclaimer, for the reboot there is, exactly if h_reclaiming was clear and the thread can be spawned |
| LockdRecovery.StartIsQuiet | bundle/fs/lockd/clntlock.c:213-227 | a host just looked up has no lock, no reclaimer and nothing to serve |
| LockdRecovery.RebootIsTakenUp | bundle/fs/lockd/clntlock.c:213-256 | at a quiet host the steps from the notification to the snapshot can be taken, and put every lock not lost on h_reclaim |
| LockdRecovery.RebootIsRecovered | bundle/fs/lockd/clntlock.c:213-283 | and then steps at whose end every such lock is held from the server as it is now, and the host is quiet again, ready for the next reboot |
| LockdRecovery.LockIsInstalled | bundle/fs/lockd/clntproc.c:545-588 | without a reboot meanwhile an attempt gets through, and the lock is installed for the state recorded |
| LockdRecovery.RefusedInstallsNothing | bundle/fs/lockd/clntproc.c:545-588 | an attempt that is refused or stopped at the check installs nothing and leaves the semaphore |
| LockdRecovery.UnlockedIsGone | bundle/fs/lockd/clntproc.c:660-700 | an unlocked lock is on no list any more |
| RetryQueue.TimeAfterIsLater | bundle/fs/lockd/svclock.c:107-110 | within half the clock's range the wrapped comparison is the true one |
| RetryQueue.WakeIsDue | bundle/fs/lockd/svclock.c:104-107 | b_when stands for the due time and never for NEVER by accident |
| RetryQueue.BlockQueue.Insert | bundle/fs/lockd/svclock.c:90-127 | the queue stays sorted with NEVER last; the block goes behind all that are due no later (first in, first out) and before all that are due later |
| RetryQueue.BlockQueue.Find | bundle/fs/lockd/svclock.c:107-111 | the walk stops at the one place that fits |
| RetryQueue.BlockQueue.Remove | bundle/fs/lockd/svclock.c:131-140 | the others stay queued, in their order |
| RetryQueue.HeadIsFirst | bundle/fs/lockd/svclock.c:1009 | the head of the queue is due no later than any other block |
| RetryQueue.BlockQueue.GrantBlocked | bundle/fs/lockd/svclock.c:819-891 | for every answer of the filesystem and of the call: which blocks are granted after, and whether the block is queued for ever or for ten seconds |
| RetryQueue.BlockQueue.RetryDeferred | bundle/fs/lockd/svclock.c:983-994 | the block is queued again for NLM_TIMEOUT |
| RetryQueue.BlockQueue.GrantCallback | bundle/fs/lockd/svclock.c:901-935 | a block still queued when its call ends is put off ten or sixty seconds; one taken off meanwhile is left alone |
| RetryQueue.BlockQueue.RetryOne | bundle/fs/lockd/svclock.c:1020-1026 | a deferred block waits again for NLM_TIMEOUT; for any other the lock is tried, granted exactly if the filesystem gives it, and the block waits for an answer or ten seconds; no other block changes |
| RetryQueue.BlockQueue.Notify | bundle/fs/lockd/svclock.c:733-790 | a block told of by the filesystem is due at once, granted if that is the verdict; the others keep their times |
| RetryQueue.BlockQueue.RetryBlocked | bundle/fs/lockd/svclock.c:1001-1032 | terminates, however long the pass takes, however often blocks come due again, and whatever calls end, blocks are taken off and notifications arrive meanwhile; unless the thread is to stop, for which it looks before each turn, every block that was due was retried or answered, taken off or put first by another thread, none is due any more, and the result is the time to the earliest, exactly unless the clock passed it between two readings; no block is lost, and what the filesystem gives to a block that is retried is granted |
| RetryQueue.LateLookWraps | bundle/fs/lockd/svclock.c:1012-1015 | if the clock passed the due time between the two readings the wait wraps around and exceeds MAX_SCHEDULE_TIMEOUT |
| BlockLifetime.StepKeepsInv | bundle/fs/lockd/svclock.c:145-334 | every step keeps the count of each block and of each file |
| BlockLifetime.Run | bundle/fs/lockd/svclock.c:443-994 | so does every interleaving |
| BlockLifetime.ActOutcome | bundle/fs/lockd/svclock.c:90-334 | what each act makes of a block's list, references, calls and holders, field by field |
| BlockLifetime.ActDecides | bundle/fs/lockd/svclock.c:442-462 | and of its outcome |
| BlockLifetime.DoOutcome | bundle/fs/lockd/svclock.c:273-306 | a block is freed exactly with its last reference, and with it one on its file |
| BlockLifetime.CreateOutcome | bundle/fs/lockd/svclock.c:217-262 | a new block is held by its maker, on no list, undecided, and holds its file |
| BlockLifetime.BlockWaits | bundle/fs/lockd/svclock.c:468-580 | the block of a request that has to wait is queued and then held by the queue alone |
| BlockLifetime.BlockIsGranted | bundle/fs/lockd/svclock.c:820-894 | found when its lock is free it can be granted, and is then held by the queue and the call |
| BlockLifetime.BlockIsAnswered | bundle/fs/lockd/svclock.c:957-990 | the client's answer can take it off the list and free it with the last reference |
| BlockLifetime.DeferralIsDecided | bundle/fs/lockd/svclock.c:442-462 | a deferred request is decided by the answer or by its expiry, whichever comes first |
| BlockLifetime.BlockCanBeMade | bundle/fs/lockd/svclock.c:217-262 | a block can be made for any file that can be opened |
| BlockLifetime.FileOutlivesBlocks | bundle/fs/lockd/svclock.c:246-250 | f_count is at least the number of the file's live blocks |
| BlockLifetime.FileCountExactIff | bundle/fs/lockd/svcsubs.c:104-158 | f_count is the number of live blocks and other references if and only if no lookup of the file failed to open it |
| BlockLifetime.FailedOpenLeaks | bundle/fs/lockd/svcsubs.c:104-158 | a lookup that finds the file and fails to open it leaves f_count above all references |
| BlockLifetime.FreedCleanIff | bundle/fs/lockd/svclock.c:285-306 | a block is freed with nothing left that refers to it exactly when no removal of it came too late |
| BlockLifetime.CalmRunIsExact | bundle/fs/lockd/svclock.c:131-140 | without overlapping removals b_count is exactly list membership plus calls in flight plus holders, in every state of every run |
| BlockLifetime.InexactStepIff | bundle/fs/lockd/svclock.c:131-140 | from an exact count a step makes a block's count inexact if and only if it takes the block off when it is no longer listed |
| BlockLifetime.OverlappingRemovalsDropTwice | bundle/fs/lockd/svclock.c:131-140 | two overlapping removals drop the queue's one reference twice: the block is left with one reference fewer than calls and holders have |
| BlockLifetime.OutcomeIsFinal | bundle/fs/lockd/svclock.c:724-763 | with at most one answer from the filesystem, granted and timed out exclude each other and are final over any run |
| BlockLifetime.DeferralStartsClean | bundle/fs/lockd/svclock.c:442-462 | a deferral starts undecided exactly when the block was not granted before |
| BlockLifetime.SecondAnswerBreaksIff | bundle/fs/lockd/svclock.c:724-763 | a second answer breaks the exclusion exactly when it refuses what the first granted |
| BlockLifetime.GoneForGood | bundle/fs/lockd/svclock.c:285-300 | a freed block does not come back |
| Credentials.FsCmp | bundle/kernel/cred.c:18-55 | the comparison is the lexicographic order of the key of fsuid, fsgid and groups |
| Credentials.GroupsCmp | bundle/kernel/cred.c:48-53 | the scan over two group lists of one length is their lexicographic order |
| Credentials.EqualIffSame | bundle/kernel/cred.c:18-55 | zero exactly for equal fsuid, fsgid and group list |
| Credentials.LexOpposite | bundle/kernel/cred.c:18-55 | swapping the arguments swaps the sign |
| Credentials.LexTransitive | bundle/kernel/cred.c:18-55 | the order is transitive |
| AccessTree.Search | bundle/fs/nfs/dir.c:2719-2736 | finds the entry of the credential if and only if the tree has one |
| AccessTree.OnePerCred | bundle/fs/nfs/dir.c:2719-2736 | an ordered tree has one entry for a credential at most |
| AccessTree.PutAdds | bundle/fs/nfs/dir.c:2823-2855 | adding replaces exactly the entry of the same credential and keeps the order |
| AccessTree.EraseRemoves | bundle/fs/nfs/dir.c:2629-2633 | erasing removes exactly the entry of the credential and keeps the order |
| AccessCache.Locked | bundle/fs/nfs/dir.c:2738-2778 | which answer the locked lookup gives in every case, and what it leaves of tree and list |
| AccessCache.Lockless | bundle/fs/nfs/dir.c:2780-2807 | answers exactly when the entry used last is valid and of the credential |
| AccessCache.LocklessRefinesLocked | bundle/fs/nfs/dir.c:2780-2807 | whenever the lockless path answers, the locked one gives the same mask and leaves tree and list unchanged |
| AccessCache.GetCached | bundle/fs/nfs/dir.c:2809-2821 | answer and state are those of the locked lookup |
| AccessCache.AddedGood | bundle/fs/nfs/dir.c:2823-2855 | tree and list keep the same entries when one is added or replaced |
| AccessCache.EvictedGood | bundle/fs/nfs/dir.c:2627-2643 | tree and list lose exactly the oldest entry |
| AccessCache.ScannedSound | bundle/fs/nfs/dir.c:2611-2649 | a scan keeps all invariants, takes no more than asked, and something if there is anything |
| AccessCache.EmptyList | bundle/fs/nfs/dir.c:2611-2649 | the list of inodes is empty exactly when nothing is cached |
| AccessCache.NewestIsNotFirst | bundle/fs/nfs/dir.c:2858-2889 | an entry added beside others is not the next to be evicted |
| AccessCache.Cache.Scan | bundle/fs/nfs/dir.c:2611-2649 | the scan evicts in turn the oldest entry of the first inode, and the counter goes down by as many |
| AccessCache.Cache.EnforceLimit | bundle/fs/nfs/dir.c:2669-2683 | one entry above the limit comes down to it; at most a hundred go at once |
| AccessCache.Cache.Add | bundle/fs/nfs/dir.c:2858-2889 | the counter never exceeds a constant limit; nothing is lost below it but the entry replaced; the new entry stays unless the limit is zero |
| AccessCache.Cache.Zap | bundle/fs/nfs/dir.c:2685-2717 | an inode loses all its entries, its place on the list and its share of the counter |
| AccessCache.Cache.Invalidate | bundle/fs/nfs/inode.c:206-234 | marking an inode's cached rights as invalid changes nothing else |
| AccessCache.Cache.Get | bundle/fs/nfs/dir.c:2738-2821 | a lookup keeps all invariants and changes no other inode |
| AccessRuns.Run | bundle/fs/nfs/dir.c:2611-2889 | over any run of additions, lookups, zaps, invalidations and scans, every mask given is the one on record, and the counter stays within its limit |
| AccessRuns.OnRecordIff | bundle/fs/nfs/dir.c:2738-2889 | a mask is on record if and only if it was the last one added for the inode and credential, with no zap or invalidation since |
| AccessRuns.AddThenAsk | bundle/fs/nfs/dir.c:2738-2889 | what has just been added is found, unless the limit is zero |
| IoExclusion.StepKeepsInv | bundle/fs/nfs/io.c:18-148 | every step of every thread keeps semaphore, flag and in-flight count consistent |
| IoExclusion.Run | bundle/fs/nfs/io.c:18-148 | so does every interleaving |
| IoExclusion.BufferedExcludesDirect | bundle/fs/nfs/direct.c:365-426 | while a thread is inside a buffered section no thread is in a direct one and no direct request is in flight, and a buffered writer is alone |
| IoExclusion.TestOutcome | bundle/fs/nfs/io.c:43-62 | the first test lets in exactly the kind of I/O that the flag is for |
| IoExclusion.ReaderGetsIn | bundle/fs/nfs/io.c:43-62 | a buffered reader gets in at once, or by the slow path exactly when no direct request is left |
| IoExclusion.WriterGetsIn | bundle/fs/nfs/io.c:78-83 | so a buffered writer |
| IoExclusion.DirectGetsIn | bundle/fs/nfs/io.c:123-142 | direct I/O gets in at once, or by the slow path, which sets the flag |
| IoExclusion.EndOutcome | bundle/fs/nfs/io.c:65-69 | whoever leaves leaves nothing behind |
| IoExclusion.RequestOutcome | bundle/fs/nfs/direct.c:262-280 | a request is counted until its last I/O ends, a write until it is finished |
| IoExclusion.SubmitOutcome | bundle/fs/nfs/direct.c:360-370 | a request counts from its submission |
| DirectIo.Request.HandleTruncated | bundle/fs/nfs/direct.c:116-135 | an error or end of file lowers the limit, cuts the count and sets or clears the error |
| DirectIo.Request.CountBytes | bundle/fs/nfs/direct.c:137-153 | the account is that of all headers completed so far |
| DirectIo.AccountMeans | bundle/fs/nfs/direct.c:116-153 | max_count is the least of the request's length and the flagged ends, count the smaller of max_count and the farthest end |
| DirectIo.OrderIrrelevant | bundle/fs/nfs/direct.c:137-153 | every permutation of the completions gives the same max_count and count |
| DirectIo.CountIsGoodPrefix | bundle/fs/nfs/direct.c:137-153 | when the headers tile the request, count is exactly the good contiguous prefix, in any completion order |
| DirectIo.ErrorMeans | bundle/fs/nfs/direct.c:124-134 | the error is that of the last header to complete among those that end at the limit |
| DirectIo.ErrorOrderIrrelevantIff | bundle/fs/nfs/direct.c:124-134 | the error does not depend on the order exactly when those headers agree on it |
| Callback.Preprocess | bundle/fs/nfs/callback_xdr.c:752-859 | under minor versions 1 and 2 CB_SEQUENCE is allowed first and only there, under 0 nowhere |
| Callback.PreprocessMeans | bundle/fs/nfs/callback_xdr.c:745-860 | which operations are let through in which minor version and place, and which error each other one gets |
| Callback.BackChannel.ValidateSeqid | bundle/fs/nfs/callback_proc.c:401-438 | accepts exactly the next number modulo 2^32; reports a replay exactly for the current number of an unlocked slot |
| Callback.BackChannel.LookupSlot | bundle/fs/nfs/nfs4session.c:120-177 | succeeds exactly up to the highest slot and while there is memory; existing slots keep their numbers, new ones start at 0 |
| Callback.BackChannel.Sequence | bundle/fs/nfs/callback_proc.c:467-575 | a slot's number moves exactly for the next number on a free slot that can be reached, without caching; the current number once more is a replay exactly on such a slot; every other case has its error; what is owed back |
| Callback.BackChannel.ProcessOp | bundle/fs/nfs/callback_xdr.c:861-916 | when a header is written and with which status; what moves, what is a replay, and what is executed |
| Callback.BackChannel.Compound | bundle/fs/nfs/callback_xdr.c:920-980 | on every path slots and clients are balanced; which requests get no reply; the reply counts the operations in it, answered in order up to the first failure, and its status is that of the last; a number moves exactly if the first operation is a CB_SEQUENCE that the channel accepts; without a move nothing is executed in a session, and otherwise each operation tried that can be |
| Callback.BackChannel.Serve | bundle/fs/nfs/callback_xdr.c:920-980 | over any run each slot's number has gone on by the number of CB_SEQUENCEs on it that the channel, as they found it, accepts, modulo 2^32; for every request whether it moved a number or was a replay fits its first operation and its answer |
| NlmCodec.RangeRoundTrip | bundle/fs/lockd/clnt4xdr.c:55-78 | for 0 <= start <= end <= OFFSET_MAX the server computes the range the client meant, and it passes the size check |
| NlmCodec.CheckedRange | bundle/fs/lockd/svc4proc.c:35-60 | exactly the ranges within OFFSET_MAX pass, and for them the decoder's range is the one set up afterwards, without wrap |
| NlmCodec.UncheckedRangeWraps | bundle/fs/lockd/xdr4.c:36-45 | a range that fails the check can end before it starts |
| NlmCodec.EncodeLock | bundle/fs/lockd/clnt4xdr.c:321-338 | the stream gains exactly the bytes of the lock |
| NlmCodec.Encode | bundle/fs/lockd/clnt4xdr.c:355-428 | the stream gains exactly the bytes of the request |
| NlmCodec.CookieRoundTrip | bundle/fs/lockd/svcxdr.h:72-98 | cookies of 1 to 32 bytes come back, an empty one as four zeros, longer ones are refused |
| NlmCodec.LockRoundTrip | bundle/fs/lockd/xdr4.c:73-96 | a lock comes back whole exactly when caller, handle and owner are within the limits |
| NlmCodec.RequestRoundTrip | bundle/fs/lockd/xdr4.c:149-227 | TEST, LOCK, CANCEL and UNLOCK come back in every field, with all bytes consumed, exactly within the limits, and are refused beyond them |
| NlmCodec.SameFieldsIff | bundle/fs/lockd/svcxdr.h:72-98 | the cookie is the one sent exactly when it was not empty; every other field is |
| NlmCodec.DecodeCookie | bundle/fs/lockd/svcxdr.h:72-98 | the stream decoder reads what the specification describes, for every input |
| NlmCodec.DecodeLock | bundle/fs/lockd/xdr4.c:73-96 | the same for the lock |
| NlmCodec.Decode | bundle/fs/lockd/xdr4.c:149-227 | the same for the four requests |
| NlmCodec.Transmit | bundle/fs/lockd/xdr4.c:149-227 | client encoder and server decoder back to back |
| NlmCodec.EncodeHolder | bundle/fs/lockd/xdr4.c:98-122 | the holder's bytes, refused exactly for an owner that is too long |
| NlmCodec.HolderRoundTrip | bundle/fs/lockd/clnt4xdr.c:259-296 | the client's decoder undoes the server's encoder |
| NlmCodec.EncodeOwnHolder | bundle/fs/lockd/clnt4xdr.c:242-259 | the client writes a holder with the flag turned |
| NlmCodec.OwnHolderTurned | bundle/fs/lockd/clnt4xdr.c:242-259 | the client's decoder reads every such holder with exclusive and shared exchanged, and so never gives it back |
| StringEscape.EscapeMem | compat/support/string_helpers.c:517-584 | for every buffer size the result is the length of the one full output, and exactly its first bytes that fit are written |
| StringEscape.EscapedBytes | compat/support/string_helpers.c:445-515 | which bytes are escaped under a dictionary, a class, or both with "append", as the documentation promises |
| StringEscape.ClassesMean | compat/support/string_helpers.c:487-500 | what is ASCII, printable in ISO 8859-1, or an octal digit |
| StringEscape.LettersMean | compat/support/string_helpers.c:315-379 | the letters of newline, return, tab, vertical tab, form feed, backslash, bell and escape |
| StringEscape.Emit | compat/support/string_helpers.c:305-439 | bytes are written while there is room, the pointer always advances |
| StringUnescape.UnescapedFits | compat/support/string_helpers.c:270-302 | the output is no longer than the input and with its NUL fits the size |
| StringUnescape.LettersUndone | compat/support/string_helpers.c:135-228 | a letter is turned back into the byte that is escaped with it, and a quotation mark into itself |
| StringUnescape.HexMeans | compat/support/string_helpers.c:182-204 | the hexadecimal digits of both cases and their values |
| StringUnescape.OctalAt | compat/support/string_helpers.c:163-180 | reads the octal code, three digits at most and no more than fit a byte |
| StringUnescape.HexAt | compat/support/string_helpers.c:182-204 | reads the hexadecimal code of one or two digits |
| StringUnescape.Unescape | compat/support/string_helpers.c:270-302 | in place or not, the same bytes and a NUL, within the size, and nothing behind them |
| StringUnescape.RoundTrip | compat/support/string_helpers.c:270-302 | an unambiguous escaping is undone, whatever the string |
| StringUnescape.RoundTripIff | compat/support/string_helpers.c:517-584 | every string comes back exactly when backslash and NUL are escaped and no short NUL code can stand before a bare octal digit |
| StringUnescape.Quotable | compat/support/string_helpers.c:586-611 | the copy is the full output and a NUL |
| StringUnescape.QuotableRoundTrip | compat/support/string_helpers.c:586-611 | unescaping with hexadecimal codes, and any others, gives back the string |

## Left out

- Build probes, tracing, procfs, sysctl, module setup, sockets and threads: no logic of their own.
- Memory barriers and RCU grace periods: steps are atomic at lock granularity.
- Readdir: invalidation of the page cache during a pass, the uncached path, and readdirplus; the listing is fixed. A stream with cookies is moved only to cookies of the listing, since any other is for the uncached path.
- Readdir.DirCache.AddToArray: the capacity of a page is a number, not PAGE_SIZE over the entry size.
- Delegation: the model is a state machine on values, one critical section a step, instead of objects updated in place; credentials, layouts, the stateid a recall names, and the claiming of opens and locks before a return are a nondeterministic outcome. A server is taken to give no stateid to two delegations.
- DelegationReturn: reuse of a freed delegation's address by a new one while it is remembered as place holder.
- DelegationReturn.ServerDelegations.ReturnMarked: other threads set no new marks during the call. Closing the last file of an inode whose delegation has RETURN_IF_CLOSED counts as one: before the place holder it would be missed until the next call.
- Expiry tests of delegations (TEST_STATEID and FREE_STATEID): their answers are unseen server behaviour.
- LockdServing: the reference that a block holds on its host through its call, and the granting of a blocked lock by the retry loop; a block's owner is marked by every collection in any case.
- LockdHosts: the hash chains of files and hosts are one list each, in walk order; failover traversals by superblock or address are not modelled.
- LockdHosts.Server.TraverseFiles: does not model that the mutex of the file table is dropped around each inspection; what other threads do to the file under inspection meanwhile is modelled in LockdFiles, what they do to other files of the table is not.
- LockdClient: byte ranges, merging and splitting of locks, and the lockowner list; a lock is one object.
- RetryQueue.BlockQueue.RetryBlocked: a pass lasts less than a sixteenth of the 64-bit clock's range, with any finite number of notifications in it; no new block is queued in it, since that is for the same thread to do.
- BlockLifetime: references on a file other than a block's are a number.
- AccessTree: colours and rotations of the red-black tree, and the descent by pointer to pointer in insertion, which is a recursive function.
- AccessCache: concurrent runs; operations follow one another, apart from the lockless lookup, which is compared with the locked one on the same state.
- IoExclusion: swap and the internal buffered write path of direct.c.
- DirectIo: resending and committing of direct writes beyond their effect on the in-flight count in IoExclusion.
- Callback: the delay for referring calls, whose test for a negative value never succeeds; compounds follow one another, as on a single-slot back channel.
- Callback: what the operations other than CB_SEQUENCE do.
- NlmCodec: the 32-bit codecs of NLM versions 1 and 3, NLM_SHARE and the reply statuses are not modelled.
- StringEscape: string_get_size and the other helpers of the file.
