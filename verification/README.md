# Verification of the workspace folder, its authority chain and its plumbing

This project models the parts of the workspace packages whose correctness rests on more than one function,
and proves what they promise together. `dafny verify dfyconfig.toml` checks all of it; nothing in it runs the
original program.

## What is modelled

**The transport form** (`Strings`, `SeqNames`, `Sealing`, `Replicas`, `Transport`, `FlushOrder`, `FlushRound`,
`FlushExact`, `TransportHistory`, `WorkspaceFolder`). A log is flushed into its folder by replicating it into a capture replica
and persisting every proof that replica takes as a numbered file; a cold replica is hydrated by replaying the
files. One flush round is a state machine: the writer may append, proofs are verified, each tapped invocation takes
a number, writes its temp file and renames it, in any interleaving, upgrades and blocks alike. Whole histories compose
completed rounds, appends, lost capture replicas and foreign files in the folder, and the sealed log, `write`,
`entries` and `flushStore` sit on top. A replica is a length and the blocks held; the hash tree and its signatures are
ideal, so a proof passes exactly when it agrees with the writer's log and fits the reader's state. Nothing is assumed
about the replicator's lock: exactness of a round has its exact condition, that no proof took its number before an
upgrade it needs, and a lock on upgrades is shown to be enough for it. The seal is ideal too.

**The authority chain** (`Numerals`, `Base58`, `DidKey`, `Delegation`, `Issuing`, `Membership`, `Gate`). From the
carry loops of base58btc through did:key, delegation chains of any length and the membership decision to the
connection gate, where a timer, proofs, verdicts and closes race. Signatures are a relation: which DID has signed
which link. The policy engine, the revocation list and the root of a resource are parameters.

**The signed manifest** (`CanonicalJson`, `CanonicalReading`, `Attestation`, `Bundle`). The hand-written canonical JSON is modelled down
to code units and UTF-8 bytes, with the string quoting of `JSON.stringify` (section 7 of RFC 8259, with lone
surrogates escaped), and read back by independent definitions of what those standards say.

**The blob store** (`Blobs`). Content is chunked over a log that others append to between and after the chunks, with
the content-hash cache of the session. The hash is a parameter.

**The plumbing** (`Framing`, `Rpc`, `Spawned`, `Watcher`, `WorkingTree`). Line framing under any cutting of the
stream, requests of many workspaces multiplexed over one child, the spawned runtime and its child's exit, the
watcher's timers, settles and digest filter, and the pruned listing of the working tree.

Code that updates fields or arrays in place is a class or a loop here, proved against a function of the old state;
the main results are lemmas about those functions over every run.

## What the proofs say about the code

Some promises of the repository's comments and documents do not hold as stated. In each case the code is kept as it
is, the exact condition is proved, and a concrete case or run is given.

- Capture order is said to be the contract, but numbers are taken when `verify` returns, not when the replica takes a
  proof. A round is exact if and only if no proof took its number before an upgrade it needs (`RoundIsExactIff`,
  `FlushKeepsExactIff`, over every interleaving); a block that overtakes the upgrade it needs is skipped on replay
  (`BlockBeforeItsUpgradeIsSkipped`). If no proof is taken beside a waiting upgrade it needs, the condition is met
  (`GuardedFlushMeetsNeeds`).
- A flush returns early when `cap.length >= main.length` (`packages/p2p-runtime/src/transport-form.ts:145`), although
  the capture replica's length says what it knows of, not what it holds. When the writer appends while a round runs,
  the replica may have learnt of a block it never fetched; the next flush then returns at once, reports that length
  as covered, and the folder lacks the block (`FlushCoversIff`, `EarlyReturnCanLeaveAGap`). With a quiet writer it
  cannot happen (`QuietFlushCoversAll`).
- Sequence numbers past 999999 have seven digits, are never listed, and are handed out again, so that later proofs
  replace earlier ones (`NumberingContinuesIff`, `PastTheLimitProofsAreReplaced`). A single file named `999999`, whatever
  it holds, is enough (`OneFileFillsTheFolder`).
- The tap writes a file also when `verify` resolves with false, and replay counts such a file as applied. A persisted
  proof leaves the capture replica as it was exactly when it is of another fork, or brings neither an upgrade nor a
  block the replica lacks (`TappedProofCostsAFile`, `OtherForkCostsAFile`).
- Base58 loses exactly the byte strings without a nonzero byte and the texts of nothing but `1`
  (`DecodeInvertsEncode`, `EncodeInvertsDecode`, `ZerosComeBackLonger`). No key is affected.
- `peers` is the open admitted connections if and only if no positive verdict came after the close of its connection
  and none made a peer listener throw (`PeersAreTheOpenOnesIff`). Otherwise the close hook is attached too late or
  never, and the connection is counted for ever, whatever happens next (`ClosedPeerCanStay`,
  `ThrowingListenerStrandsPeer`).
- The attestation signs the floor of `createdAt`: shifting the creation time of an accepted bundle, in manifest and
  payload alike, is accepted if and only if the floor stays (`FractionIsNotSigned`, `HalfASecondIsNotSigned`), and an
  accepted manifest is what the root stored exactly when its creation time is whole (`AcceptedIsSignedIffWhole`).
- `commandCovers` is a partial order on a set of commands exactly when the empty command and `/` are not both in it:
  those two cover each other (`PartialOrderIff`, `MutualCoverIff`, `TransitiveIff`).
- `RemoteWorkspace` does not listen for the child's exit: after it, a pending request stays pending in every
  continuation if and only if the child had not answered it (`StrandedIff`, `BootstrapIsStranded`). `SpawnedRuntime`
  rejects it, provided `ready` was called before the exit (`ExitEmptiesPendingIff`, `UnreadyRequestIsStranded`).
- After `stop` the watcher can still report a delete, exactly when a `stat` was under way for a path not last reported
  as gone (`LateDeleteIff`, `LateDeleteHappens`).
- The watcher drops an event whose timer elapses while a settle runs for its path, on the ground that the running
  settle will look at the file again. It does until it starts reading: an edit whose timer elapses during that read
  is never reported unless another event comes (`FireStartsIff`, `EditDuringReadIsMissed`, `QuietIsSilent`).
- The listing and the watcher are meant to share one path taxonomy, but among files that pass every other filter the
  listing drops exactly those whose path starts with `..` (`ListedPaths`); the watcher reports them
  (`DotDotNameIsWatchedButNotListed`).

## Model

| member | source | states |
|---|---|---|
| SeqNames.SeqNameValue | packages/p2p-runtime/src/transport-form.ts:57-59 | a name of any width carries its number, so distinct numbers have distinct names |
| SeqNames.ListedIffBelowLimit | packages/p2p-runtime/src/transport-form.ts:34-34 | the listing pattern matches a number's name exactly when the number is at most 999999 |
| SeqNames.ListedNameIsItsNumbers | packages/p2p-runtime/src/transport-form.ts:86-88 | every listed name is the name of its own number |
| SeqNames.NextSeq | packages/p2p-runtime/src/transport-form.ts:70-77 | for any names and any conversion of names to numbers, the loop returns the least number above every integer among them, whatever the gaps |
| SeqNames.NextOfSeqNames | packages/p2p-runtime/src/transport-form.ts:129-130 | on the listed names that is one above the highest |
| SeqNames.NextIsAboveAll | packages/p2p-runtime/src/transport-form.ts:61-77 | the next number is above every existing one and is reached from below: zero, or one more than an existing one |
| SeqNames.LexSortedIsNumberSorted | packages/p2p-runtime/src/transport-form.ts:31-32 | zero-padded names sorted as strings are sorted by number |
| SeqNames.ListingIsUnique | packages/p2p-runtime/src/transport-form.ts:79-89 | any number-sorted list of the right names is the list in allocation order |
| SeqNames.ListSeqFiles | packages/p2p-runtime/src/transport-form.ts:79-89 | filtering and sorting a directory read in any order gives its sequence files in allocation order |
| Strings.LexIsNumeric | packages/p2p-runtime/src/transport-form.ts:31-31 | on digit strings of one width lexicographic order is numeric order |
| Replicas.VerifyIsGenuine | packages/p2p-runtime/src/transport-form.ts:5-11 | a proof never gives a replica a foreign block, nor takes one away |
| Replicas.VerifyIsStable | packages/p2p-runtime/src/transport-form.ts:5-11 | a proof that passed once passes again, with the same effect, after the writer appended more |
| Replicas.BlocksCommute | packages/p2p-runtime/src/transport-form.ts:157-164 | block-only proofs that pass at one replica pass in either order and end in one state |
| Transport.Core.ReplayInto | packages/p2p-runtime/src/transport-form.ts:92-108 | the replay loop applies the listed files in order and counts applied and skipped ones |
| Transport.Core.HydrateLogFromDir | packages/p2p-runtime/src/transport-form.ts:200-215 | hydration replays the folder, with the early return for an empty one |
| Transport.HydrationIsSafe | packages/p2p-runtime/src/transport-form.ts:193-199 | for any files at all: only the writer's blocks, a contiguous prefix of its log, no block lost, and applied + skipped is the number of sequence files |
| Transport.ReplayCounts | packages/p2p-runtime/src/transport-form.ts:91-107 | exactly the files that decode and whose proof `verify` does not throw on count as applied, all others as skipped, and only those touch the replica |
| Transport.SkipsNothingIff | packages/p2p-runtime/src/transport-form.ts:91-107 | a replay skips nothing exactly when every file decodes and passes where it stands |
| Transport.TornFileIsSkipped | packages/p2p-runtime/src/transport-form.ts:99-106 | a file that does not decode, anywhere in the replay, costs one skip and changes neither the replica nor the applied count |
| Transport.NothingSkippedAllDecode | packages/p2p-runtime/src/transport-form.ts:91-107 | a hydration that skips nothing found every file whole |
| Transport.ClutterIsIgnored | packages/p2p-runtime/src/transport-form.ts:86-88 | temp files and conflicted copies change nothing |
| FlushRound.NoTwoCallsCollide | packages/p2p-runtime/src/transport-form.ts:157-169 | in every interleaving, upgrades and blocks overlapping in any way, no two invocations share a number, a temp name or a final name |
| FlushRound.NoFileIsReplaced | packages/p2p-runtime/src/transport-form.ts:61-77 | in every interleaving no step replaces a sequence file, old or written in this round |
| FlushRound.StepKeepsFiles | packages/p2p-runtime/src/transport-form.ts:154-172 | every step keeps the numbering, the files written so far and the old files |
| FlushExact.StepKeepsCap | packages/p2p-runtime/src/transport-form.ts:149-155 | every step keeps: the proofs taken so far, replayed as they were taken, all pass and give the capture replica |
| FlushOrder.CleanMeetsNeeds | packages/p2p-runtime/src/transport-form.ts:13-17 | any replay that skips nothing has every proof after the upgrades it needs |
| FlushOrder.NeedsMetIsClean | packages/p2p-runtime/src/transport-form.ts:13-17 | proofs a replica took one after another pass in any other order that puts needed upgrades first |
| FlushOrder.ReorderedReplayIff | packages/p2p-runtime/src/transport-form.ts:13-17 | a reordered replay passes whole and ends in the same replica exactly when every proof comes after the upgrades it needs |
| FlushExact.RoundIsExactIff | packages/p2p-runtime/src/transport-form.ts:119-190 | over every interleaving, after a completed round the folder replays into exactly the capture replica, skipping nothing, if and only if no proof took its number before an upgrade it needs |
| FlushExact.RoundListing | packages/p2p-runtime/src/transport-form.ts:129-172 | after a completed round the folder lists its old files and then the round's proofs in number order, cut off at 999999 |
| FlushExact.RoundIsExact | packages/p2p-runtime/src/transport-form.ts:157-165 | a completed round in which no proof is taken beside a waiting upgrade it needs is exact, however blocks overlap each other and the upgrades they do not need |
| FlushExact.GuardedIsInNeedOrder | packages/p2p-runtime/src/transport-form.ts:157-165 | that guard makes invocations take numbers after the upgrades they need |
| FlushExact.BlockBeforeItsUpgradeIsSkipped | packages/p2p-runtime/src/transport-form.ts:157-169 | the run in which a block takes its number before the upgrade that covers it: its file is skipped, and a cold replica lacks a block the capture replica has |
| FlushExact.TappedProofCostsAFile | packages/p2p-runtime/src/transport-form.ts:154-172 | every proof `verify` resolves on costs a file counted as applied; the replica stays as it was exactly for another fork or nothing new |
| FlushExact.OtherForkCostsAFile | packages/p2p-runtime/src/transport-form.ts:154-172 | the round with a proof of another fork |
| FlushExact.NumberingContinuesIff | packages/p2p-runtime/src/transport-form.ts:129-130 | the next round continues the numbering exactly when this one stayed within six digits |
| FlushExact.PastTheLimitProofsAreReplaced | packages/p2p-runtime/src/transport-form.ts:129-169 | from a full folder two rounds take the same number and the second replaces the first one's proof |
| FlushExact.OneFileFillsTheFolder | packages/p2p-runtime/src/transport-form.ts:70-89 | one file numbered 999999 makes a folder full, whatever it holds |
| TransportHistory.RebuildRecovers | packages/p2p-runtime/src/transport-form.ts:113-118 | a lost capture replica is rebuilt from the folder to exactly what it was |
| TransportHistory.FlushKeepsExactIff | packages/p2p-runtime/src/transport-form.ts:119-190 | a completed flush within six digits keeps the folder exact if and only if its round met every need, and loses nothing it covered |
| TransportHistory.GuardedFlushMeetsNeeds | packages/p2p-runtime/src/transport-form.ts:157-165 | a lock on upgrades meets every need |
| TransportHistory.FlushThenHydrateIsExact | packages/p2p-runtime/src/transport-form.ts:1-17 | over every history of appends, completed rounds that met every need, lost captures and foreign files, hydration ends in exactly the capture replica of the last flush and skips nothing |
| TransportHistory.FlushCoversIff | packages/p2p-runtime/src/transport-form.ts:145-147 | a returned flush covers the log it started with exactly when it replicated or its capture had no gap |
| TransportHistory.QuietFlushCoversAll | packages/p2p-runtime/src/transport-form.ts:113-118 | with a quiet writer no gap forms and every completed flush covers the whole log |
| TransportHistory.EarlyReturnCanLeaveAGap | packages/p2p-runtime/src/transport-form.ts:145-147 | a run in which the flush reports length two while the folder yields one block of two |
| TransportHistory.IntactPrefixIsRecovered | packages/p2p-runtime/src/transport-form.ts:193-199 | a copy intact up to some number yields at least what those files yield, whatever follows |
| TransportHistory.IntactCopyIsExact | packages/p2p-runtime/src/transport-form.ts:192-199 | an intact copy hydrates into exactly the replica the last flush left |
| TransportHistory.Flusher.FlushLogToDir | packages/p2p-runtime/src/transport-form.ts:119-190 | the method leaves the state the flush function gives, for every schedule, completed or not, and counts the files renamed by then |
| TransportHistory.Flusher.RunSchedule | packages/p2p-runtime/src/transport-form.ts:149-183 | the tap's updates step by step give the state the round's run gives |
| WorkspaceFolder.WrapLog | packages/p2p-runtime/src/encrypted-log.ts:34-39 | a key of the wrong size, and no other, is refused |
| WorkspaceFolder.EncryptedLog.Append | packages/p2p-runtime/src/encrypted-log.ts:58-60 | the underlying log gains the sealed block |
| WorkspaceFolder.EncryptedLog.Get | packages/p2p-runtime/src/encrypted-log.ts:61-63 | what is read is the opened block, a wait for a missing one, a failure for one that does not open |
| WorkspaceFolder.WrapperRefinesPlainLog | packages/p2p-runtime/src/encrypted-log.ts:23-33 | an append through the wrapper is an append to the plaintext view |
| WorkspaceFolder.ReadAll | packages/workspace/src/index.ts:628-651 | the reading loop returns the readable entries in order or stops where it waits or fails |
| WorkspaceFolder.ReadsIff | packages/workspace/src/index.ts:628-651 | a read returns a list exactly when entry by entry the block is held and is a seal of that plaintext under this key |
| WorkspaceFolder.WaitsAtIff | packages/workspace/src/index.ts:631-636 | a read waits exactly at the first block that is not held, every block before it opening |
| WorkspaceFolder.FailsAtIff | packages/p2p-runtime/src/encrypted-log.ts:61-63 | a read fails exactly at the first held block that is no seal under this key, every block before it opening |
| WorkspaceFolder.ReplicatingReadIff | packages/workspace/src/index.ts:629-650 | a replicating workspace reads to the end of its log: all of it, or a wait or a failure at exactly the block that calls for it |
| WorkspaceFolder.ReplicatingWaitsIff | packages/workspace/src/index.ts:631-636 | on a log that opens it waits, at the end of the contiguous prefix, exactly when some block is missing, and otherwise returns |
| WorkspaceFolder.LocalOnlyReadIff | packages/workspace/src/index.ts:637-645 | a local-only workspace reads exactly to the first gap, and fails exactly at the first block before it that does not open |
| WorkspaceFolder.WholeLogReads | packages/workspace/src/index.ts:628-651 | a replicating workspace that holds its log whole reads everything written to that length, in order |
| WorkspaceFolder.WaitsIff | packages/workspace/src/index.ts:629-641 | on a log it can open a read waits exactly when it goes past the contiguous prefix |
| WorkspaceFolder.LocalOnlyNeverWaits | packages/workspace/src/index.ts:637-645 | a local-only workspace never waits, whatever its log holds |
| WorkspaceFolder.AnyCopyYieldsAPrefix | packages/workspace/src/index.ts:637-651 | any copy of the folder, opened with an empty store, yields a prefix of what the writer wrote |
| WorkspaceFolder.IntactCopyYieldsTheFlushedPrefix | packages/workspace/src/index.ts:590-598 | an intact copy yields every entry the last completed flush held without a gap |
| WorkspaceFolder.CopiedFolderIsComplete | packages/workspace/src/index.ts:590-598 | after a flush with a quiet writer that replicated or found no gap, every intact copy yields every entry ever written |
| WorkspaceFolder.ActsWrite | packages/workspace/src/index.ts:584-588 | after any saves, flushes with saves in between, losses and foreign files the log is what `write` made of the plaintexts, in order |
| WorkspaceFolder.CopyYieldsWhatWasWritten | packages/workspace/src/index.ts:584-651 | from calls of `write` to `entries()` on a copy: always a prefix of the plaintexts written, and all of them for an intact copy after a covering flush |
| WorkspaceFolder.OneWriteIsCopied | packages/workspace/src/index.ts:590-598 | the shortest run of it: one write, one flush, and the folder yields the entry |
| WorkspaceFolder.Store.FlushStore | packages/workspace/src/index.ts:735-751 | each log of which this device holds every block is flushed, the others untouched, nothing for a folder that is gone, and the counts add up |
| WorkspaceFolder.FlushableIffHeld | packages/workspace/src/index.ts:743-746 | the test before each flush picks exactly the logs of which this device holds every block, the empty log included |
| WorkspaceFolder.WrittenIsGainedIff | packages/workspace/src/index.ts:747-748 | what one flush counts as written is the number of files its folder gained, exactly when the round stayed within six digits |
| WorkspaceFolder.TotalIsGained | packages/workspace/src/index.ts:735-751 | within six digits the reported total is the number of files all folders gained |
| WorkspaceFolder.FlushedStoreIsComplete | packages/workspace/src/index.ts:728-751 | after it, every log held whole hydrates whole from the folder |
| Numerals.CanonicalIsUnique | packages/p2p-runtime/src/did.ts:36-49 | two digit lists without leading zeros that denote one number are the same list |
| Base58.CarryPass | packages/p2p-runtime/src/did.ts:40-48 | one carry pass multiplies the number by the factor and adds the start, in place, with bounded carries |
| Base58.CarryBound | packages/p2p-runtime/src/did.ts:41-47 | carries stay below the factor and every sum fits the 32-bit integers the shifts work on |
| Base58.EncodeBytes | packages/p2p-runtime/src/did.ts:28-59 | the nested loops compute the base-58 numeral behind one `1` per leading zero byte |
| Base58.DecodeText | packages/p2p-runtime/src/did.ts:61-91 | the loops compute the bytes, or fail on the first character outside the alphabet after the ones |
| Base58.DecodeInvertsEncode | packages/p2p-runtime/src/did.ts:28-91 | every encoding decodes, and gives the bytes back exactly when some byte is not zero |
| Base58.EncodeInvertsDecode | packages/p2p-runtime/src/did.ts:28-91 | a text of the alphabet is the encoding of what it decodes to exactly when some character is not `1` |
| Base58.ZerosComeBackLonger | packages/p2p-runtime/src/did.ts:28-91 | a string of zero bytes comes back one byte longer |
| Base58.EncodeIsInjective | packages/p2p-runtime/src/did.ts:28-59 | distinct byte strings with a nonzero byte have distinct encodings |
| DidKey.KeyComesBack | packages/p2p-runtime/src/did.ts:139-170 | every 32-byte key comes back from its DID |
| DidKey.DidComesBack | packages/p2p-runtime/src/did.ts:149-170 | an accepted DID with a 32-byte payload is the DID of that payload |
| DidKey.SameDidSameKey | packages/portable-bootstrap/src/membership.ts:121-128 | DID equality is key equality |
| DidKey.DidShape | packages/p2p-runtime/src/did.ts:133-147 | every key's DID is `did:key:z6Mk` and exactly 44 more base58 characters |
| Delegation.CoversIsSegmentPrefix | packages/ucan-boundary/src/index.ts:155-162 | on rooted commands covering is list prefix, segment by segment, with `/` as the empty list |
| Delegation.SegmentsAreUnique | packages/ucan-boundary/src/index.ts:155-162 | rooted commands with the same segments are the same command |
| Delegation.PartialOrderIff | packages/ucan-boundary/src/index.ts:155-162 | on any set of commands covering is a partial order exactly when the empty command and `/` are not both in it |
| Delegation.MutualCoverIff | packages/ucan-boundary/src/index.ts:160-162 | two different commands cover each other exactly when they are the empty command and `/` |
| Delegation.TransitiveIff | packages/ucan-boundary/src/index.ts:160-162 | covering carries over but for one case: from the empty command over `/` to an unrooted one |
| Delegation.FindResource | packages/ucan-boundary/src/index.ts:145-153 | the loop finds the first statement that names a resource |
| Delegation.ResourceOfIff | packages/ucan-boundary/src/index.ts:145-153 | the resource is what the first statement that names one names; there is none exactly when no statement does |
| Delegation.ValidateDelegation | packages/ucan-boundary/src/index.ts:289-361 | the method makes exactly the decision of the validation function, refusals by kind and depth included |
| Delegation.ValidIffDerivable | packages/ucan-boundary/src/index.ts:276-288 | a chain is valid exactly when it is the links of an inductive derivation of the leaf's claim from the resource's root |
| Delegation.RefusedIff | packages/ucan-boundary/src/index.ts:298-354 | a chain is refused for a reason exactly if that is the first thing wrong with it: four checks on the whole, then six on each link from the leaf; it is valid exactly if nothing is wrong |
| Delegation.AcceptingTimes | packages/ucan-boundary/src/index.ts:298-353 | a sound chain is valid exactly at the times inside every link's window, any other never |
| Delegation.ValidChainAttenuates | packages/ucan-boundary/src/index.ts:322-347 | every command a valid leaf grants, every link grants, exactly but for an unrooted command under a leaf for `/` and a link for the empty command |
| Issuing.IssuedLinks | packages/ucan-boundary/src/index.ts:237-263 | the links of an issued chain say, in order, what each grant granted, under the root's subject |
| Issuing.IssueFailsIff | packages/ucan-boundary/src/index.ts:237-240 | issuing stops exactly at the first grant without exactly one capability and reports how many it had |
| Issuing.IssuedChainIsValid | packages/ucan-boundary/src/index.ts:237-361 | a chain issued step by step, each on top of the last, validates and grants what the last grant granted |
| Issuing.FromBytes | packages/ucan-boundary/src/index.ts:379-398 | the loop restores the links in order or reports the first error; never an empty chain |
| Issuing.BytesRoundTrip | packages/ucan-boundary/src/index.ts:371-398 | a chain survives its bytes, leaf first |
| Issuing.RestoreIff | packages/ucan-boundary/src/index.ts:379-398 | bytes restore to a chain exactly if they are the bytes of that chain and it has a link |
| Membership.MemberIffAuthorised | packages/portable-bootstrap/src/membership.ts:87-154 | a peer is a member exactly when its proof is a derivation from the root of a workspace capability on this workspace for its own key |
| Membership.IssuedMemberIsAdmitted | packages/portable-bootstrap/src/membership.ts:104-154 | a peer with a chain issued to its DID is a member |
| Gate.StepKeeps | packages/p2p-runtime/src/runtime.node.ts:224-292 | every event keeps the gate's invariant on every connection, the peers and the notices |
| Gate.GateIsSound | packages/p2p-runtime/src/runtime.node.ts:218-274 | in every run a connection replicates at most once, and it replicates or counts as a peer only when its first message, a recorded event before the timeout, carried a derivation from the root that authorised exactly its key at the time it arrived |
| Gate.DestroyedIff | packages/p2p-runtime/src/runtime.node.ts:229-270 | in every run a connection is destroyed if and only if some event of the run ended it: no channel, a failing setup, the timer before any proof, a refused proof, or an exception |
| Gate.RefusedIsDestroyed | packages/p2p-runtime/src/runtime.node.ts:229-268 | so in every run a decided proof that does not pass, a timeout, a taken channel and an exception leave the connection destroyed |
| Gate.HonestMemberGetsIn | packages/p2p-runtime/src/runtime.node.ts:249-270 | a waiting connection whose valid proof arrives is replicated and counted |
| Gate.PeersAreTheOpenOnesIff | packages/p2p-runtime/src/runtime.node.ts:276-301 | the peers are the open admitted connections if and only if no positive verdict of the run came after the close of its connection and none made a peer listener throw; the last notice is the count |
| Gate.StuckForEver | packages/p2p-runtime/src/runtime.node.ts:284-292 | a connection counted without a live close hook stays a peer in every continuation |
| Gate.ClosedPeerCanStay | packages/p2p-runtime/src/runtime.node.ts:284-292 | connect, prove, close, verdict: the closed connection is a peer, and after any continuation too |
| Gate.ThrowingListenerStrandsPeer | packages/p2p-runtime/src/runtime.node.ts:255-297 | a listener that throws on admission: the connection is destroyed, never replicated, and a peer after any continuation |
| Gate.GatedRuntime.OnMessage | packages/p2p-runtime/src/runtime.node.ts:251-255 | only the first proof before the timeout starts a verification, and it stops the timer |
| Gate.GatedRuntime.OnVerdict | packages/p2p-runtime/src/runtime.node.ts:256-268 | a positive verdict admits, then replicates, unless admitting threw; a negative one and any exception destroy |
| Gate.GatedRuntime.OnTimer | packages/p2p-runtime/src/runtime.node.ts:229-237 | the timer destroys an unsettled connection and no other |
| Gate.GatedRuntime.Admit | packages/p2p-runtime/src/runtime.node.ts:284-297 | a connection is counted once and the listeners told; the close hook is attached only if none of them threw |
| Gate.GatedRuntime.OnClose | packages/p2p-runtime/src/runtime.node.ts:288-291 | a hooked close uncounts the connection and notifies |
| CanonicalJson.BodyIsDetermined | packages/p2p-runtime/src/attestation.ts:119-124 | a quoted string ends at its first unescaped quote, so it and what follows it read back |
| CanonicalJson.IntTextIsInjective | packages/p2p-runtime/src/attestation.ts:122-122 | integers print injectively |
| CanonicalJson.Utf8IsInjective | packages/p2p-runtime/src/attestation.ts:125-126 | on well-formed text UTF-8 loses nothing |
| CanonicalJson.QuoteIsWellFormed | packages/p2p-runtime/src/attestation.ts:119-124 | quoted text is well formed, whatever surrogates the string has |
| CanonicalReading.QuotedReadsBack | packages/p2p-runtime/src/attestation.ts:119-124 | a quoted string, read as section 7 of RFC 8259 says, gives the string and what follows it |
| CanonicalReading.Utf8ReadsBack | packages/p2p-runtime/src/attestation.ts:125-126 | well-formed text is what its bytes decode to as section 3 of RFC 3629 says |
| CanonicalReading.CanonicalIsJson | packages/p2p-runtime/src/attestation.ts:108-124 | the canonical text is the payload printed as JSON with no white space, absent fields left out |
| CanonicalReading.KeysAreSorted | packages/p2p-runtime/src/attestation.ts:111-113 | the keys of every object of it are in strictly ascending order |
| CanonicalReading.SignedBytesAreJson | packages/p2p-runtime/src/attestation.ts:108-127 | the signed bytes decode to exactly that text |
| Attestation.SameBytesIffSamePayload | packages/p2p-runtime/src/attestation.ts:108-127 | the signed bytes agree exactly when every field does, up to the floor of `createdAt`, optional fields included |
| Attestation.SignedVerifies | packages/p2p-runtime/src/attestation.ts:135-199 | what a root signs verifies against that root's DID |
| Attestation.VerifiedPayloadIsTheSignedOne | packages/p2p-runtime/src/attestation.ts:172-199 | a payload that verifies is the one that was signed, by the key in the root DID |
| Bundle.AcceptedManifestIsTheSignedOne | packages/portable-bootstrap/src/index.ts:346-389 | an accepted bundle's manifest is the one its root signed, field by field, and its id is the root's key |
| Bundle.ManifestPassesIff | packages/portable-bootstrap/src/index.ts:358-389 | the manifest checks pass exactly when the root whose key is the id signed this very manifest |
| Bundle.EnvelopeOpensIff | packages/portable-bootstrap/src/index.ts:298-331 | an envelope yields a key, chain and capability exactly when the key was wrapped for this holder and the chain is the links of a derivation from the root for this audience, whose claim is that capability |
| Bundle.ConsumedIff | packages/portable-bootstrap/src/index.ts:346-416 | consuming a bundle returns a result exactly when its manifest is signed by its root and either no envelope names this peer and nothing is delivered, or the first one that does delivers as above |
| Bundle.FractionIsNotSigned | packages/portable-bootstrap/src/index.ts:372-381 | a shift of both creation times of an accepted bundle is accepted if and only if the floor stays, and is then consumed just the same |
| Bundle.HalfASecondIsNotSigned | packages/portable-bootstrap/src/index.ts:372-381 | half a second added to a whole creation time: another manifest, the same outcome |
| Bundle.AcceptedIsSignedIffWhole | packages/p2p-runtime/src/attestation.ts:149-156 | an accepted manifest is the payload as the root stored it exactly when its creation time is whole |
| Bundle.CreateBundleSucceedsIff | packages/portable-bootstrap/src/index.ts:210-250 | a bundle is made exactly for the secret key of the root DID and recipients whose DIDs name ed25519 keys |
| Bundle.CreatedBundleDelivers | packages/portable-bootstrap/src/index.ts:184-416 | a created bundle is accepted and its first envelope for a recipient delivers the key, chain and capability meant for it |
| Blobs.BlobStore.WriteBlob | packages/workspace/src/blobs.ts:115-145 | content over the cap is refused; a cached reference is returned as it is; otherwise ceil(size/64K) strictly increasing chunks are appended and the reference reads back |
| Blobs.BlobStore.WriteChunks | packages/workspace/src/blobs.ts:126-134 | the loop's chunks cover the content, interleaved with any appends of others |
| Blobs.BlobStore.ReadBlob | packages/workspace/src/blobs.ts:155-175 | the copying loop returns what the reference gathers, or the first disagreement |
| Blobs.ReadIsChecked | packages/workspace/src/blobs.ts:147-154 | for any log and reference only content of the declared size and hash is returned |
| Blobs.ReadIff | packages/workspace/src/blobs.ts:155-175 | a read returns some content exactly if every named block is in the log and joined they are that content, of the declared size and hash |
| Blobs.ReadFailsIff | packages/workspace/src/blobs.ts:155-175 | which error is reported: a wait or an overrun at exactly the first chunk that is missing or does not fit, a shortfall, or another hash |
| Blobs.ReadIsStable | packages/workspace/src/blobs.ts:155-175 | what reads today reads the same after any further appends |
| Blobs.CacheOutlivesAppends | packages/workspace/src/index.ts:220-221 | every cached reference keeps reading back to content of its own hash |
| Blobs.BlobComesBack | packages/workspace/src/index.ts:653-676 | a reference made or found in the cache gives the content back through all later appends, absent collisions |
| Blobs.StepKeepsSession | packages/workspace/src/blobs.ts:115-145 | every step of any number of writers on one cache keeps the cache, the drafts and the returned references in agreement with the log |
| Blobs.InterleavedWritersAgree | packages/workspace/src/index.ts:657-676 | in any interleaving of writers sharing the cache every cached reference reads back to content of its hash and every returned one, absent collisions, to what its call was given |
| Framing.ChunkingIsInvisible | packages/p2p-runtime/src/ipc/framing.ts:17-41 | outputs and buffer depend only on the text, for any text and any cuts |
| Framing.StreamRoundTrip | packages/p2p-runtime/src/ipc/framing.ts:13-41 | for every message list and every cutting of its text both readers give the messages back and end empty |
| Framing.TrimIff | packages/p2p-runtime/src/ipc/framing.ts:28-29 | trimming a line takes exactly the white space around it |
| Framing.LineDecoder.Feed | packages/p2p-runtime/src/ipc/framing.ts:21-41 | the loop returns the messages of the complete lines and keeps the rest |
| Framing.BareTransport.OnData | packages/p2p-runtime/src/ipc/transport.ios.ts:65-80 | the split/pop loop delivers the messages of the complete lines and keeps the rest |
| Framing.LineReadsAlikeIff | packages/p2p-runtime/src/ipc/transport.ios.ts:69-74 | a line is read alike by both readers exactly when it is empty, or blank and not parsable, or parses alike trimmed and untrimmed |
| Framing.ReadersAgree | packages/p2p-runtime/src/ipc/transport.ios.ts:65-80 | on any text, cut in any two ways, the two readers give the same messages and rest when every complete line is its own trim or such a line |
| Rpc.StepKeepsInv | packages/workspace/src/ipc/remote-base.ts:45-55 | every step conserves request ids across the wire, the child and the callers, and keeps each answer tied to its request |
| Rpc.SettledByOwnAnswer | packages/workspace/src/ipc/remote-base.ts:265-301 | in any run nobody is settled twice, and only with the child's answer to the caller's own request |
| Rpc.OutcomesComeFromEndings | packages/workspace/src/ipc/child.ts:75-83 | in any run every settled outcome comes from a step that refused an unknown handle or ended that very operation in the way the outcome says: a failure for an exception, a value or an opened workspace for a success |
| Rpc.AnsweredIff | packages/workspace/src/ipc/child.ts:75-83 | in any run a request has been answered with an outcome exactly if some step called for it |
| Rpc.FinishSays | packages/workspace/src/ipc/child.ts:75-83 | the answer to an operation is a failure exactly if it threw, and otherwise says what was opened or returned |
| Rpc.HostedIff | packages/workspace/src/ipc/child.ts:170-198 | in any run the child hosts exactly the handles it gave out and did not close; a close that throws keeps its handle |
| Rpc.OpenIffBootstrapped | packages/workspace/src/ipc/remote-base.ts:152-169 | in any run a client has a handle if and only if its own bootstrap was answered with that handle |
| Rpc.ChangeIsShown | packages/workspace/src/ipc/remote-base.ts:274-301 | a change event sets the length of the client of its handle, and of no other |
| Rpc.SentIsSettledPlusPending | packages/workspace/src/ipc/remote-base.ts:265-301 | in any run sent = settled + pending, and an unsettled request is pending at its own sender |
| Rpc.ServedByOwnWorkspace | packages/workspace/src/ipc/child.ts:184-210 | a value comes from the workspace the caller's own bootstrap opened, and so does the length it shows |
| Rpc.HandlesAreDistinct | packages/workspace/src/ipc/child.ts:184-186 | no two open clients share a handle |
| Rpc.StrandedIff | packages/workspace/src/ipc/remote-base.ts:87-99 | once the child is gone a pending request stays pending in every continuation if and only if the child had not answered it |
| Rpc.ExitStrandsRequests | packages/workspace/src/ipc/remote-base.ts:265-272 | one half: what the child had not answered is never settled |
| Rpc.DeliverySettles | packages/workspace/src/ipc/remote-base.ts:274-301 | the other half: delivering what is on its way settles an answered request |
| Rpc.BootstrapIsStranded | packages/workspace/src/ipc/remote-base.ts:152-169 | the run: a first request, and the child exits before reading it |
| Rpc.RemoteWorkspace.Rpc | packages/workspace/src/ipc/remote-base.ts:265-272 | a fresh id is taken, remembered and sent |
| Rpc.RemoteWorkspace.HandleMessage | packages/workspace/src/ipc/remote-base.ts:274-301 | an answer settles the caller of its id, once; anything else settles nobody |
| Rpc.WorkspaceChild.StartHandling | packages/workspace/src/ipc/child.ts:75-110 | a request on an unknown handle is refused at once, any other is dispatched to the workspace of its handle |
| Rpc.WorkspaceChild.Resume | packages/workspace/src/ipc/child.ts:75-83 | the answer carries the request's id; an open tracks a new handle, a successful close forgets it |
| Rpc.WorkspaceChild.Track | packages/workspace/src/ipc/child.ts:184-186 | a handle never used before is given out |
| Spawned.SettledStays | packages/p2p-runtime/src/ipc/parent.ts:225-230 | a request's end is final |
| Spawned.SentIsSettledPlusPending | packages/p2p-runtime/src/ipc/parent.ts:203-231 | whatever the child sends, sent = settled + pending, and ids number the requests in order |
| Spawned.EndedIff | packages/p2p-runtime/src/ipc/parent.ts:215-231 | in any run a request ended some way exactly if a step brought that end while it was outstanding and the handlers attached: its own answer with that reply, or the exit with that code |
| Spawned.SentIff | packages/p2p-runtime/src/ipc/parent.ts:203-213 | in any run a request was sent with some parameters exactly if a step asked for it before the exit |
| Spawned.ReadyIff | packages/p2p-runtime/src/ipc/parent.ts:149-155 | in any run the runtime is ready exactly if an outstanding `init` was answered with a value and no exit or end of a close followed |
| Spawned.PendingIff | packages/p2p-runtime/src/ipc/parent.ts:207-213 | what is pending is what was sent and has not ended |
| Spawned.FlagsIff | packages/p2p-runtime/src/ipc/parent.ts:137-147 | the handlers are attached exactly once `ready` was called, the transport closed exactly once the child exited |
| Spawned.ExitEmptiesPendingIff | packages/p2p-runtime/src/ipc/parent.ts:140-147 | the exit rejects everything outstanding exactly when the handlers were attached or nothing was |
| Spawned.ClosedRefusesEverything | packages/p2p-runtime/src/ipc/parent.ts:203-206 | after the exit nothing is sent and every request is refused |
| Spawned.NothingPendingAfterExit | packages/p2p-runtime/src/ipc/parent.ts:137-155 | a runtime made ready before the exit has nothing pending from then on |
| Spawned.UnreadyRequestIsStranded | packages/p2p-runtime/src/ipc/parent.ts:203-213 | without `ready` a request sent before the exit stays pending |
| Spawned.SpawnedRuntime.SendRpc | packages/p2p-runtime/src/ipc/parent.ts:203-213 | a request is numbered, remembered and sent, or refused unsent |
| Spawned.SpawnedRuntime.HandleExit | packages/p2p-runtime/src/ipc/parent.ts:142-147 | the loop rejects every pending request, and the runtime is not ready any more |
| Spawned.SpawnedRuntime.HandleMessage | packages/p2p-runtime/src/ipc/parent.ts:215-231 | an answer settles its request and no other; the answer to `init` makes the runtime ready |
| Watcher.OneTimerOneSettlePerPath | packages/workspace/src/watcher.ts:99-105 | in any run there is one live timer and one settle per path at most, `settling` is exact, and no timer survives `stop` |
| Watcher.OnlyNotifiedPaths | packages/workspace/src/watcher.ts:186-194 | in any run every path with a timer or a settle, and every path observed or reported, is watchable and was named by a host event |
| Watcher.ObservedIff | packages/workspace/src/watcher.ts:137-173 | in any run the observations are exactly what the events said, each of the path of its own settle: contents from a read before `stop`, gone from a `stat`, or from a read before `stop`, that found no file, and nothing from any other failure |
| Watcher.InFlightIff | packages/workspace/src/watcher.ts:119-173 | in any run a settle that started is in flight until exactly the event that ends it |
| Watcher.UndisturbedFileIsObserved | packages/workspace/src/watcher.ts:119-173 | from any state of any run: a watchable file that stands still after an event is settled, read and observed with its contents, and reported if they are news |
| Watcher.FireStartsIff | packages/workspace/src/watcher.ts:119-131 | a timer that elapses starts a settle for its path exactly if none is in flight for it, and otherwise its event is dropped |
| Watcher.EditDuringReadIsMissed | packages/workspace/src/watcher.ts:122-126 | the run, for any options: an event elapses while the old contents are read, they are reported, and nothing is scheduled |
| Watcher.QuietIsSilent | packages/workspace/src/watcher.ts:175-194 | with no timer and no settle left, nothing is reported before the next host event |
| Watcher.ContentIsSettledNews | packages/workspace/src/watcher.ts:112-164 | contents are reported only after exactly max(2, stableReads) equal sizes in a row, and only when their digest is new |
| Watcher.ConsecutiveReportsDiffer | packages/workspace/src/watcher.ts:106-117 | consecutive reports for a path differ in digest |
| Watcher.FilterLosesNothing | packages/workspace/src/watcher.ts:106-117 | folding the reports gives what folding every settled observation gives, absent collisions |
| Watcher.AfterStop | packages/workspace/src/watcher.ts:142-173 | after `stop` no contents are reported, and a delete only for a path whose `stat` was under way |
| Watcher.LateDeleteIff | packages/workspace/src/watcher.ts:142-154 | some run still reports after `stop` exactly when a `stat` is under way for a path not last reported as gone |
| Watcher.LateDeleteHappens | packages/workspace/src/watcher.ts:142-154 | the run: an event, its timer, `stop` while the `stat` is under way, and the delete is reported |
| Watcher.TreeWatcher.OnNotify | packages/workspace/src/watcher.ts:175-194 | an event on a watchable path starts its timer over |
| Watcher.TreeWatcher.OnFire | packages/workspace/src/watcher.ts:119-131 | a timer that elapses starts a settle unless one runs |
| Watcher.TreeWatcher.OnStat | packages/workspace/src/watcher.ts:137-164 | one size read moves the settle on, and a missing file is reported gone |
| Watcher.TreeWatcher.OnRead | packages/workspace/src/watcher.ts:165-173 | the contents, or their absence, are reported unless stopped, and the settle ends |
| Watcher.TreeWatcher.Report | packages/workspace/src/watcher.ts:112-117 | a change is passed on unless its digest is the last one reported for its path |
| Watcher.TreeWatcher.OnStop | packages/workspace/src/watcher.ts:196-205 | every timer is cancelled |
| WorkingTree.ProbeTestsTheDirectory | packages/workspace/src/watcher.ts:277-288 | the probe below a directory fails exactly when a segment of the directory's own path is excluded |
| WorkingTree.MachineryIsExcluded | packages/workspace/src/paths.ts:16-28 | a path with one of the seven machinery names among its segments is never watchable |
| WorkingTree.PruningLosesNothing | packages/workspace/src/watcher.ts:277-290 | skipping such a directory loses nothing, however deep the tree below it |
| WorkingTree.Listing.Walk | packages/workspace/src/watcher.ts:256-321 | the pruned recursion pushes exactly what the filter keeps of the unpruned traversal, in its order |
| WorkingTree.ListWorkingTree | packages/workspace/src/watcher.ts:246-325 | the listing is the filter of every file of the tree; a path is in it exactly when some file reportable by the watcher's rules has it and it does not start with `..` |
| WorkingTree.ListedPaths | packages/workspace/src/watcher.ts:328-332 | over any files: listed exactly when watchable, wanted, present, readable, whole and not starting with `..` |
| WorkingTree.ListedIffKept | packages/workspace/src/watcher.ts:292-320 | a file is listed exactly when it is watchable, wanted, present, readable and whole |
| WorkingTree.FilesAtIff | packages/workspace/src/watcher.ts:256-290 | the traversal finds a file exactly if a route of child numbers through readable directories leads to it, under the path of that route |
| WorkingTree.ListedIff | packages/workspace/src/watcher.ts:246-325 | from the tree alone: an entry is listed exactly if such a route leads to a file with these bytes, whole and with its data present, whose path is watchable, wanted and does not start with `..` |
| WorkingTree.ListsOnce | packages/workspace/src/watcher.ts:246-325 | in a tree whose directories hold no two alike names no path is listed twice |
| WorkingTree.DotDotNameIsWatchedButNotListed | packages/workspace/src/watcher.ts:328-332 | an example: `..a` is watchable and never listed, whatever the options and the file |

## Left out

- FlushThenHydrateIsExact: completed rounds only, one flush per log at a time; a proof taken but not renamed before a crash is not fetched again, and two flushes of one log at once would share numbers, so for those only `HydrationIsSafe` holds.
- FlushThenHydrateIsExact: numbers up to 999999, and rounds that met every need; past either it is false, as `PastTheLimitProofsAreReplaced` and `BlockBeforeItsUpgradeIsSkipped` show. Whether the replicator's lock rules the second out is not part of this model.
- CopiedFolderIsComplete: completeness needs a quiet writer during the last round and a capture replica without a gap; both conditions are needed, as `EarlyReturnCanLeaveAGap` shows.
- NextSeq: which integers `Number` makes of names that are not digit strings is a parameter.
- GateIsSound: the clock of a check is read when the proof arrives; the root, the revocation list and the set of signatures are those of one run; the `auth` of a runtime does not change while it is open.
- CreateBundleSucceedsIff: issuing a delegation does not fail by itself; what the UCAN library refuses is not modelled.
- BytesRoundTrip: a link travels as a whole value; DAG-CBOR and base64 are not modelled.
- WriteBlob: the log is one this device may append to; another `writeBlob` finishing in between is the matter of `InterleavedWritersAgree`.
- SameBytesIffSamePayload: `createdAt` is a real number and `formatVersion` an integer; the exponent notation, NaN and negative zero of JavaScript numbers are not modelled.
- StreamRoundTrip: the stream is text already cut at characters; what the byte decoder of the worklet does at a split multi-byte character is not modelled.
- SettledByOwnAnswer: the child answers each request it reads at most once, as its `handle` does; a faulty child that invents ids is covered for `SpawnedRuntime` only.
- HandlesAreDistinct: handles are the numbers after `ws`.
- NothingPendingAfterExit: the promise of `init` settles in the turn its answer arrives, before an exit can be reported.
- FilterLosesNothing: a settle dropped while another one runs for the path is not an observation; that every edit is eventually reported is false, as `EditDuringReadIsMissed` shows; `onChange` is assumed not to throw.
- ListWorkingTree: the tree stands still between `stat` and `readFile` except that a file may be unreadable or torn; a cycle of symbolic links, host separators other than `/` and Unicode lower-casing are not modelled (lower-casing is a parameter).
- DidShape: DIDs and base58 texts are ASCII strings.
- Cryptography: ed25519, the sealed boxes, the secretbox and SHA-256 are ideal (opening inverts sealing, signatures are a relation, hashes a parameter).
- Hypercore's hash tree, its replicator, Protomux, Hyperswarm and the DHT: only the abstract replica and the gate's events.
- The debounce of `scheduleFlush` and `close`: a flush is an event that may happen at any time.
- `workingTree` and `status` events of a workspace: they are routed by handle like `change`, whose route is modelled.
- The log proxies of `SpawnedRuntime`: a table from key to last length.
- Process spawning, platform stubs, the envelope files, `scanDeliveries`, hex helpers and the conformance tooling: short maps and filters.
