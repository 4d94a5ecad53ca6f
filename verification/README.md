# A verified model of the A2A adapter's stateful core

The adapter lets agents on several nodes hand tasks to each other. This project models the
parts of it that keep state or parse text, as Dafny classes and state machines, and proves what
they keep over every run, every input or every interleaving. Calls that leave the process (the
file system, the dispatcher, a peer, the random source) are parameters that may answer anything.

| file | models |
|---|---|
| `Options.dfy` | an optional value |
| `Text.dfy` | stripping, splitting and joining of text |
| `EnvFile.dfy` | the `.env` parser, the rewriter that stores a signing key, one whole uninterrupted call (`Profile`) |
| `EnvValues.dfy` | what the lines of a `.env` text assign, and which lines a rewrite keeps |
| `KeyBootstrap.dfy` | the same call as steps of any number of processes that race, die and restart |
| `KeyOutcomes.dfy` | the same machine: which key each call returns |
| `KeyExclusion.dfy` | the same machine: when its lock excludes callers from each other |
| `KeyDurability.dfy` | the same machine: what races and crashes do to the rest of the file |
| `AuditLog.dfy` | the audit log and its rotation (`AuditLogger`), with system calls that fail |
| `AuditEvents.dfy` | what one event does to every file of the log, and what a whole run leaves in it |
| `RateLimit.dfy` | the per-peer rate limiter (`RateLimiter`) |
| `RateAnswers.dfy` | which requests are counted, and how each is decided |
| `Fleet.dfy` | the registry, routing and discovery (`FleetController`), and the registration of peer cards |
| `RouteAnswers.dfy` | what routing, discovery and a registered card answer, in terms of the registry's entries |
| `Tasks.dfy` | statuses, results and replies |
| `Executor.dfy` | concurrent task executions, cut where they wait (`HermesExecutor`) |
| `CallOutcomes.dfy` | what each call emits and audits, by the dispatcher's reply |
| `PeerRetry.dfy` | background reconnection of peers and its backoff (`MeshPeerClient`) |
| `PeerRuns.dfy` | what becomes of every peer over whole runs |
| `Conversation.dfy` | task records, the conversation graph and its tree (`TaskRecord`, `ConversationGraph`) |
| `Orchestrator.dfy` | registration, status changes, specialists and resumption (`OrchestratorImpl`) |
| `StatusChanges.dfy` | what a registration and a status change do, field by field |
| `Wiring.dfy` | executor and orchestrator over one fleet controller, as the plugin wires them |

Each class has the fields of the original object. Its methods are proved against a function on
plain values (`View()` gives the value of an object), and the theorems are about that function.
Python's insertion-ordered dictionaries are sequences with an update that keeps places wherever
the order is observable. Those functions are in turn specified by what a caller can see: the
modules whose names end in `Values`, `Outcomes`, `Events`, `Answers`, `Runs` and `Changes` say,
without naming them, what comes out of every operation.

## What the proofs turned up

- A key appended to a `.env` text whose last line is not blank merges with that line and is
  lost, and then later callers generate other keys. `EnvFile.RewriteReadsBack` and
  `KeyBootstrap.AgreementExactlyWhenSafe` give the exact condition: no file, or the text
  contains `A2A_SIGNING_KEY=`, or its last line is blank. `EnvFile.UnsafeText` is a text that
  meets none of these.
- A line without a name before its equals sign, or with a NUL character, makes loading raise in
  the middle; the assignments before it stay. `EnvFile.LoadsExactly` says which texts load.
- The lock does not always exclude callers from each other, because leaving unlinks it: any three
  callers that find no key at first can end up with two holding locks on different inodes
  (`KeyExclusion.TwoInodesLockedAtOnce`), and any two if the first stores a key that is lost,
  crashes and calls again (`KeyExclusion.TwoCallersShare`). `KeyExclusion.ExclusionExactly` says
  exactly when it does exclude them, for every file. Agreement holds all the same where it can,
  because from a file that is safe to rewrite sharing only happens once the key is in it
  (`KeyBootstrap.SharedOnlyAfterPublication`).
- A text with the key's prefix is truncated before it is written again, and a crash in between
  loses everything else in it (`KeyDurability.CrashLosesFile`). If the file is safe to rewrite,
  no race without crashes loses a binding (`KeyDurability.CleanRunsKeepOthers`), and with crashes
  the other bindings survive exactly when the file needs no such rewriting, or binds nothing
  else, or every caller has a key to begin with (`KeyDurability.OthersSurviveExactly`).
- With `max_backups` of zero or less the log still keeps the backup `.1`; the theorems therefore
  speak of `Kept`, the larger of `max_backups` and one.
- With a size limit of zero or less, appends that open the file but fail to write push the newest
  line out; with a positive limit nothing does (`AuditLog.NewestRetainedExactly`).
- A wall clock that steps back, by however little, breaks the rate bound for every limit above
  one; under a limit of one the bound holds whatever the clock does (`RateLimit.BoundedExactly`).
- Two peers can claim a common profile name exactly when one of their names is the other or
  continues it after a slash (`Fleet.NamespacesMeetExactly`).
- Only the first match is tested for being busy, so a free capable profile behind a busy first
  match is not used (`Fleet.BusyFirstMatchHidesFreeOnes`).
- A remote profile chosen for an intent without a target node is never reached: the call contacts
  nobody and fails (`Executor.NobodyContactedFails`).
- A profile whose call ends in `input_required` stays busy for good (`Executor.ParkedForever`).
- A retry loop ends by itself at attempt 1024, where the delay no longer fits a double, and stays
  stored; the documentation of `connect_all` promises retries until reconnection or closing
  (`PeerRetry.FailedAttemptGoesOnExactly`).
- A failed specialist triggers the resumption as well, although the comment there speaks of
  success (`Orchestrator.IntentsInOrder`), and a task whose resumption completes is left
  `working` (`Orchestrator.MatchingChange`).
- Registering a task as its own parent makes building the tree run forever
  (`Orchestrator.SelfParentNeverEnds`).

## Model

| member | source | states |
|---|---|---|
| Text.SplitJoin | src/adapter/agent_card_signer.py:108-111 | Joining lines without newlines and splitting the result gives the lines back. |
| Text.JoinSplit | src/adapter/agent_card_signer.py:108-111 | Splitting any text and joining the lines gives the text back. |
| EnvFile.Profile.LoadEnvFile | src/adapter/agent_card_signer.py:236-248 | The line loop assigns exactly what loading the text in order assigns, up to the first refused assignment. |
| EnvFile.Profile.StoreKey | src/adapter/agent_card_signer.py:100-121 | The new text and the new environment of the branch that is taken: rewrite, append or create. |
| EnvFile.Profile.EnsureKeys | src/adapter/agent_card_signer.py:51-133 | One uninterrupted call: a present key is returned if it decodes, and otherwise the call raises, with the file untouched; a missing key is generated, returned and stored, and can be read back exactly when the text was safe to rewrite; a refused line ends the call. |
| EnvFile.LoadMerges | src/adapter/agent_card_signer.py:218-248 | Loading a file overlays the bindings the file makes on its own on the environment. |
| EnvFile.LoadTwice | src/adapter/agent_card_signer.py:51-76 | Loading the same file again, as the second check does, changes nothing. |
| EnvFile.LineRefusedExactly | src/adapter/agent_card_signer.py:236-248 | Which lines raise: those that are no comment and have an equals sign, and that start with it or hold a NUL character. |
| EnvFile.LoadsExactly | src/adapter/agent_card_signer.py:218-248 | Loading a text succeeds, in whatever environment, if and only if it has no such line. |
| EnvFile.StopsAtFirstRefused | src/adapter/agent_card_signer.py:236-248 | The assignments before the first such line are made and none after it. |
| EnvFile.RefusedTexts | src/adapter/agent_card_signer.py:242-248 | Two texts that raise: one without a name, and one with a NUL character in the value. |
| EnvFile.KeyLineBindsKey | src/adapter/agent_card_signer.py:236-248 | Every line that starts with the key's prefix is parsed as an assignment to the key. |
| EnvFile.KeyLineBinds | src/adapter/agent_card_signer.py:101-114 | The line the rewriter writes, after any blank text, is parsed as exactly this key. |
| EnvFile.OtherLinesKeepOthers | src/adapter/agent_card_signer.py:107-109 | Dropping the lines that start with the key's prefix leaves every other binding as it was. |
| EnvFile.SafeRewriteKeepsBindings | src/adapter/agent_card_signer.py:100-116 | A safe rewrite parses to the old bindings with only the key replaced. |
| EnvFile.MergedLineLosesKey | src/adapter/agent_card_signer.py:112-114 | A line merged with a visible last line never binds the key to the new value. |
| EnvFile.RewriteReadsBack | src/adapter/agent_card_signer.py:100-116 | The rewritten text parses to the old bindings with the key replaced, and the key is read back, if and only if the text contains the prefix or its last line is blank. |
| EnvFile.UnsafeText | src/adapter/agent_card_signer.py:112-114 | A text that loads, binds no key and is not safe to rewrite. |
| EnvFile.RewriteHasOneKeyLine | src/adapter/agent_card_signer.py:100-116 | The rewritten text has exactly one line that starts with the prefix if the prefix was found or the text ended at a line break, and none otherwise. |
| EnvValues.QuotedValue | src/adapter/agent_card_signer.py:236-248 | A value between two quotes of one kind is assigned without them, whatever white space is around name and value. |
| EnvValues.PlainValue | src/adapter/agent_card_signer.py:236-248 | Any other value is assigned as it stands, less the white space around it. |
| EnvValues.SpacesExactly | src/adapter/agent_card_signer.py:237-243 | The characters that stripping removes. |
| EnvValues.SkippedExactly | src/adapter/agent_card_signer.py:237-241 | A line assigns nothing exactly if it has no equals sign or is a comment. |
| EnvValues.QuotedValueLoads | src/adapter/agent_card_signer.py:236-248 | In a file that loads, the last line that assigns a name decides what the environment binds it to: a quoted value without its quotes. |
| EnvValues.PlainValueLoads | src/adapter/agent_card_signer.py:236-248 | So for a plain value. |
| EnvValues.UnassignedStays | src/adapter/agent_card_signer.py:236-248 | A name that no line assigns keeps its binding, or stays unbound. |
| EnvValues.EditedLine | src/adapter/agent_card_signer.py:236-248 | An indented line with a quoted value and a carriage return, in any environment. |
| EnvValues.RewriteKeepsLines | src/adapter/agent_card_signer.py:106-111 | A rewrite keeps exactly the lines without the prefix, every one as it was and in its order, comments included, and then the key's line. |
| EnvValues.RewriteAppends | src/adapter/agent_card_signer.py:112-116 | Any other text is kept as it is, with the key's line at its end. |
| KeyBootstrap.StepKeeps | src/adapter/agent_card_signer.py:51-133 | Every step of every caller, and every crash, keeps the invariant about inodes, lock owners, file and environments. |
| KeyBootstrap.RunKeeps | src/adapter/agent_card_signer.py:51-133 | So does every interleaving of any number of callers. |
| KeyBootstrap.Alone | src/adapter/agent_card_signer.py:66-71 | Before a key is in the file, at most one caller is past the lock. |
| KeyBootstrap.KeyAgreement | src/adapter/agent_card_signer.py:51-133 | In every interleaving all callers that start without a key return the same key; without crashes at most one key is generated, and with crashes at most one more than there were crashes. |
| KeyBootstrap.PublishedIsFinal | src/adapter/agent_card_signer.py:73-82 | Once the file binds a key, no run changes the file or generates another key, whatever inode is locked. |
| KeyBootstrap.SharedOnlyAfterPublication | src/adapter/agent_card_signer.py:66-82 | Two callers are past the lock at once only on different inodes, only once the file binds a key, and then neither generates or writes. |
| KeyBootstrap.ExclusionOverRuns | src/adapter/agent_card_signer.py:66-131 | So in every run from a file that binds the key or is safe to rewrite, sharing does no harm. When it happens at all is `KeyExclusion.ExclusionExactly`. |
| KeyBootstrap.AgreementExactlyWhenSafe | src/adapter/agent_card_signer.py:51-133 | For every file: all callers agree in every reachable state if and only if the file loads and binds the key or is safe to rewrite. |
| KeyOutcomes.FreshCallReturns | src/adapter/agent_card_signer.py:52-64 | From every file, a process in its first environment returns the file's key if there is one, or else its own if the file does not name the key, or raises if the file is refused, and otherwise goes on to the lock. |
| KeyOutcomes.LockedCallReturns | src/adapter/agent_card_signer.py:69-82 | From every file, a caller that checks under the lock goes on to generate a key exactly if it finds none, and otherwise unlocks, unlinks and returns or raises by what it found. |
| KeyOutcomes.CallReturns | src/adapter/agent_card_signer.py:51-133 | In every reachable state, crashes included, every call that ends, of callers with and without a key of their own, returns the key that the file binds then or, if it binds none, the one its caller was started with. |
| KeyOutcomes.FileKeyIsReturned | src/adapter/agent_card_signer.py:52-64 | If the file loads and binds a key, every call of every run returns it. |
| KeyOutcomes.RefusedFileRaises | src/adapter/agent_card_signer.py:52-64 | If the file is refused, every call of every run raises, and the file stays. |
| KeyOutcomes.PublishedWasGenerated | src/adapter/agent_card_signer.py:84-119 | A key that comes into the file during a run was generated in it. |
| KeyOutcomes.AloneIsUninterrupted | src/adapter/agent_card_signer.py:51-133 | A caller that runs alone ends with the outcome, file and environment of one uninterrupted call, and no lock is left. |
| KeyExclusion.KeyedStayIdle | src/adapter/agent_card_signer.py:55-64 | Callers that do not lack a key at first never get as far as the lock, over every step of any caller, from whatever file. |
| KeyExclusion.StepExcludes | src/adapter/agent_card_signer.py:66-131 | With no three keyless callers every step keeps: while the file binds no key, all inodes opened are the one the path names; afterwards that, or at most one caller is busy. |
| KeyExclusion.ExcludingIsExclusive | src/adapter/agent_card_signer.py:66-67 | In such a state no two callers are past the lock. |
| KeyExclusion.TwoInodesLockedAtOnce | src/adapter/agent_card_signer.py:123-131 | From every file that loads, any three keyless callers can reach a state in which two of them hold locks on different inodes. |
| KeyExclusion.TwoCallersShare | src/adapter/agent_card_signer.py:112-131 | So can any two, from every file that storing a key leaves loading and binding none. |
| KeyExclusion.ExclusionExactly | src/adapter/agent_card_signer.py:51-133 | For every file and all callers: no interleaving or crash ever has two callers past the lock, if and only if the file is refused or binds a key, or there are no three keyless callers, or no two if storing a key leaves a file that loads and binds none. |
| KeyExclusion.SafeTakesThree | src/adapter/agent_card_signer.py:51-133 | For a file that loads and binds the key or is safe to rewrite the condition is that no three callers are keyless. |
| EnvFile.SettlesForEveryKey | src/adapter/agent_card_signer.py:112-114 | Whether storing a key makes a file bind one, or be refused, does not depend on the key. |
| KeyDurability.StepTracks | src/adapter/agent_card_signer.py:51-133 | Every step keeps the file the original, or empty in the middle of a rewriting or after a crash in the middle of one, or a rewrite with a key in it. |
| KeyDurability.CleanRunsRewriteOnce | src/adapter/agent_card_signer.py:51-133 | In every run without crashes the file is the original, or in the middle of being rewritten, or the one rewrite of the original for some key. |
| KeyDurability.CleanRunsKeepOthers | src/adapter/agent_card_signer.py:100-116 | So no race loses another binding of the file. |
| KeyDurability.CrashLosesFile | src/adapter/agent_card_signer.py:106-111 | From every file that loads and contains the prefix, any keyless caller can crash after truncating and leave the file empty. |
| KeyDurability.OthersSurviveExactly | src/adapter/agent_card_signer.py:51-133 | The other bindings survive every interleaving and crash, if and only if every caller brings a key, or the file is refused, binds the key, binds nothing else or does not contain the prefix; for files that are refused, bind the key or are safe to rewrite. |
| AuditLog.AuditLogger.RotateIfNeeded | src/adapter/audit_logger.py:129-178 | The loop of renames does to the directory what the rotation function says, for every set of failing calls. |
| AuditLog.AuditLogger.LogEvent | src/adapter/audit_logger.py:99-106 | One event rotates if due and appends. A line that is stored is the last of the current file, also when forcing it to the disk raises; an append that stores nothing raises and leaves the file as it was, or new and empty; the directory is that of the whole run. |
| AuditLog.RotateKeepsOrder | src/adapter/audit_logger.py:156-178 | Whatever subset of the calls fails, the files still hold ordered, disjoint stretches of the history. |
| AuditLog.RotateAges | src/adapter/audit_logger.py:156-178 | Without failures a rotation makes every file one older and drops the oldest. |
| AuditLog.RunIsOrdered | src/adapter/audit_logger.py:99-178 | After any run with any failures every file holds one stretch of the history, older files earlier ones. |
| AuditLog.RetainedInOrder | src/adapter/audit_logger.py:99-178 | Under any failures the files, oldest first, are lines of the history at strictly increasing positions. |
| AuditLog.NewestIsRetained | src/adapter/audit_logger.py:99-178 | Under any failures the last retained line is the newest one written, if the limit is positive or no opened file was left unwritten. |
| AuditLog.NewestRetainedExactly | src/adapter/audit_logger.py:145-178 | No failures can push the newest line out if and only if the limit is positive. |
| AuditLog.CleanRunIsGreedy | src/adapter/audit_logger.py:99-178 | Without failures the directory is, file by file, the last pieces of the greedy split of the whole history. |
| AuditLog.PiecesAreGreedy | src/adapter/audit_logger.py:145-154 | The split has every piece but the last at the limit, none of them there before its last line, and loses no line. |
| AuditLog.GreedyIsUnique | src/adapter/audit_logger.py:145-154 | Only one split of a history has these properties. |
| AuditLog.CleanRunKeepsSuffix | src/adapter/audit_logger.py:99-178 | Without failures the retained files, oldest first, are the end of the history without a gap. |
| AuditLog.DiskBound | src/adapter/audit_logger.py:99-178 | Every backup has reached the limit, no file exceeds it by a whole line, and all files together stay below the number of files times that. |
| AuditLog.JoinedConcat | src/adapter/audit_logger.py:148-154 | The size of a file is that of its lines' bytes, one after the other. |
| AuditLog.JoinedOne | src/adapter/audit_logger.py:103-104 | The bytes of a file with one line are that line. |
| AuditEvents.RotatesTo | src/adapter/audit_logger.py:156-178 | A rotation with any calls failing, file by file: what arrives, what stays because its call failed, and what is gone. |
| AuditEvents.EventExactly | src/adapter/audit_logger.py:101-178 | One event with any calls failing, file by file: it rotates exactly if the bytes of the current file have reached the limit and their number can be queried; the line goes after what remains in the current file. |
| AuditEvents.CleanRunFiles | src/adapter/audit_logger.py:101-178 | After every run without failures the files are the last pieces of what was written, split where the bytes reach the limit, and there are no others. |
| RateLimit.RateLimiter.Dispatch | src/adapter/rate_limit_middleware.py:41-78 | The decision on the pruned bucket; nobody else's bucket changes, and a request that is not accepted changes none; the buckets are those of the whole run. |
| RateLimit.BucketIsRecentHistory | src/adapter/rate_limit_middleware.py:58-76 | Pruning only drops stamps that a request with the latest stamp of its peer does not count, whichever way the clock went before. |
| RateLimit.DecidesAsFullHistory | src/adapter/rate_limit_middleware.py:57-76 | A tracked request with the latest stamp of its peer is accepted if and only if fewer than the limit of the peer's accepted stamps, over the full history, lie in the last minute. |
| RateLimit.NeverMoreThanLimit | src/adapter/rate_limit_middleware.py:57-76 | Over every run with a non-decreasing clock and for every instant, the minute up to it holds at most the limit of accepted requests of a peer. |
| RateLimit.ClockMustNotStepBack | src/adapter/rate_limit_middleware.py:56-61 | For every limit above one and every step back there is a run in which a minute holds more than the limit. |
| RateLimit.LimitOneSpaces | src/adapter/rate_limit_middleware.py:57-76 | Under a limit of one, accepted stamps are a minute apart under any clock. |
| RateLimit.BoundedExactly | src/adapter/rate_limit_middleware.py:56-76 | The bound holds over every run whose clock steps back by at most d if and only if d is zero or the limit is one. |
| RateLimit.DecidedAsIfAlone | src/adapter/rate_limit_middleware.py:45-76 | A peer's requests are decided, in any interleaving with other peers, as if the peer were alone, if no other header is digested to its bucket. |
| RateAnswers.TrackedExactly | src/adapter/rate_limit_middleware.py:42-47 | Requests are counted exactly if there is a limit and the path is that of the RPC endpoint with any number of slashes after it. |
| RateAnswers.DecidesExactly | src/adapter/rate_limit_middleware.py:49-78 | A counted request is rejected exactly if the stamps kept under its name from the last 60 seconds are as many as the limit; an accepted one leaves those and its own under that name. |
| RateAnswers.RunsExactly | src/adapter/rate_limit_middleware.py:57-76 | Every request is decided by the buckets that the ones before it left, starting from none. |
| Fleet.FleetController.Route | src/core/fleet_controller.py:48-164 | The dispatch is that of the routing function; exactly a dispatched profile, which was free, becomes busy. |
| Fleet.FleetController.Release | src/core/fleet_controller.py:166-168 | The profile is free and no other one changes. |
| Fleet.FleetController.RegisterProfile | src/core/fleet_controller.py:170-172 | The registry maps the name to the new capability, in its old place if it had one, and names stay distinct. |
| Fleet.FleetController.Discover | src/core/fleet_controller.py:174-184 | The loop collects in registration order the capabilities that can handle the intent. |
| Fleet.FirstDeclaringIsFirst | src/core/fleet_controller.py:238-241 | The exact match is the first candidate that declares the intent, and there is none exactly when none does. |
| Fleet.FirstTaggedIsFirst | src/core/fleet_controller.py:242-247 | The fallback is the first candidate that shares a tag, and there is none exactly when none does. |
| Fleet.BestMatchFacts | src/core/fleet_controller.py:228-249 | There is no match exactly when no candidate can handle the intent; a match can, and falls back to tags only if nobody declares the intent. |
| Fleet.UnavailableExactlyWhenUndiscovered | src/core/fleet_controller.py:112-131 | Without an explicit profile a route is unavailable exactly when discovery finds nobody, on the target node if one is given. |
| Fleet.ExplicitUnavailableExactly | src/core/fleet_controller.py:52-90 | An explicit profile is unavailable exactly when no registered capability has the name, the node and the intent. |
| Fleet.DispatchedIsSound | src/core/fleet_controller.py:48-164 | A dispatched profile is registered, was free, respects the requested profile and node, can handle the intent, and has a remote endpoint exactly when its node is remote. |
| Fleet.UntargetedChoice | src/core/fleet_controller.py:117-164 | Which profile an untargeted intent goes to; a remote choice means that no local profile declares the intent or that the first one that does is busy. |
| Fleet.NodeChoice | src/core/fleet_controller.py:113-164 | An intent for a node goes to the first profile there that declares it or, if none there does, the first that shares a tag, and fails for lack of capacity exactly when that profile is busy. |
| Fleet.BusyFirstMatchHidesFreeOnes | src/core/fleet_controller.py:147-155 | A registry in which a free local profile that declares the intent is not used. |
| RouteAnswers.ExplicitRoute | src/core/fleet_controller.py:48-110 | The whole answer for an intent that names a profile, by the one entry of that name: status, reason, node and endpoint. |
| RouteAnswers.OpenRoute | src/core/fleet_controller.py:112-164 | The whole answer for an intent that names none: nobody offers it on the requested node, or the chosen entry, its node and its endpoint, and whether it is busy. |
| RouteAnswers.DiscoversExactly | src/core/fleet_controller.py:174-184 | Discovery returns exactly the entries that declare the intent or have one of the tags, each once and in order. |
| Fleet.PutFacts | src/core/fleet_controller.py:170-172 | Registering keeps names distinct and in order and changes what one name maps to. |
| Fleet.RegisterPeerCapabilities | src/adapter/mesh_peer_client.py:333-346 | The loop registers one capability for each skill of the card, in order. |
| RouteAnswers.SkillIsRegistered | src/adapter/mesh_peer_client.py:333-346 | Every field of the entry that the last skill of an id is registered as: on the peer's node, declaring its tags or, without any, consultations. |
| RouteAnswers.OtherNamesStay | src/adapter/mesh_peer_client.py:333-346 | A name that is none of the card's stays what it was. |
| Fleet.RegisteringAgainChangesNothing | src/adapter/mesh_peer_client.py:333-346 | Registering a card a second time, after any registrations of other names in between, leaves the ordered registry unchanged. |
| Fleet.CardKeepsToItsNamespace | src/adapter/mesh_peer_client.py:336-345 | A slash-free peer's card leaves every slash-free local name and every name of another slash-free peer as it was. |
| Fleet.NamespacesAreDisjoint | src/adapter/mesh_peer_client.py:337 | Names made of different slash-free peer names never collide, and never with slash-free names. |
| Fleet.SlashedPeersCollide | src/adapter/mesh_peer_client.py:337 | Every skill of a peer whose name continues another one after a slash has the name of a skill of that other peer. |
| Fleet.OwnedExactly | src/adapter/mesh_peer_client.py:337 | A peer can claim a name exactly when the name starts with its own and a slash. |
| Fleet.NamespacesMeetExactly | src/adapter/mesh_peer_client.py:337 | Two peers can claim a common name exactly when one is the other or continues it after a slash. |
| Fleet.CardKeepsNameExactly | src/adapter/mesh_peer_client.py:333-346 | Cards of a peer never change what a name, local or remote, is mapped to, exactly when the peer cannot claim it. |
| Fleet.PeersKeepApartExactly | src/adapter/mesh_peer_client.py:333-346 | Cards of one peer never change the names of another, exactly when the two cannot claim a common name. |
| Executor.HermesExecutor.BeginCall | src/adapter/hermes_executor.py:130-186 | From the request to the dispatch: the slot taken, the two audit calls, the peer contacted. |
| Executor.HermesExecutor.ReturnCall | src/adapter/hermes_executor.py:137-149 | The outcome of the dispatch and the one event it puts on the queue; a failing queue ends the call with its slot held. |
| Executor.HermesExecutor.CloseCall | src/adapter/hermes_executor.py:187-280 | The closing audit calls, and the release of the slot unless the result asks for input. |
| Executor.StepKeepsSlots | src/adapter/hermes_executor.py:130-280 | Every step of every call keeps the busy set equal to the profiles held by calls, and these distinct. |
| Executor.SlotSafety | src/adapter/hermes_executor.py:130-280 | So over every interleaving of any number of calls, registrations and peer connections. |
| Executor.SlotChanges | src/core/fleet_controller.py:166-168 | Routing adds the chosen profile, closing a call that does not park removes exactly its own, and no other step of a call changes the busy set. |
| Executor.StrayReleaseExactly | src/core/orchestrator.py:121-123 | A release on behalf of an orchestrator record keeps slot safety if and only if no call holds the profile it names. |
| Executor.ParkedForever | src/adapter/hermes_executor.py:206-225 | A call that ended in input_required keeps its profile in every continuation, and nothing is dispatched to that profile again. |
| Executor.NoMisdelivery | src/adapter/hermes_executor.py:160-182 | On the remote branch a peer is contacted exactly when the target node is connected and configured, and it is the node that owns the chosen profile. |
| Executor.StepKeepsContacts | src/adapter/hermes_executor.py:160-182 | Every step keeps, for every call, the peers it contacted fitting its phase: none before routing, at most the node it was routed to afterwards, and none left unanswered without a failure. |
| Executor.ContactsOverRuns | src/adapter/hermes_executor.py:160-182 | So over every interleaving; and once a call is routed, later steps add no contact to it. |
| Executor.NobodyContactedFails | src/adapter/mesh_peer_client.py:241-249 | A remote dispatch that contacts nobody contacts nobody in any continuation, never parks, ends raised or failed, and holds no slot once it is closed. |
| Executor.StepKeepsTrace | src/adapter/hermes_executor.py:130-280 | Every step keeps, for every call, its events and audit calls equal to what its phase says. |
| Executor.TracesOverRuns | src/adapter/hermes_executor.py:130-280 | So over every interleaving; a call parks exactly on an input-required result. |
| Executor.FinishedCalls | src/adapter/hermes_executor.py:130-280 | A finished call has emitted one event, none if its queue failed, and holds no slot exactly when it made no audit call or ended them with a completion or a failure. |
| Executor.StartIsSafe | src/adapter/hermes_executor.py:130-280 | The start of every run satisfies the invariants of slots, traces and contacts. |
| Executor.SafeFromStart | src/adapter/hermes_executor.py:130-280 | So every interleaving from the start keeps all three. |
| Executor.NamelessReleasesAreWired | src/core/fleet_controller.py:166-168 | With named profiles, releases of the empty name harm no call. |
| CallOutcomes.BeginExactly | src/adapter/hermes_executor.py:130-174 | A call that is not dispatched leaves only its refusal; a dispatched one runs where routing sent it, is submitted and in progress, and makes its profile busy. |
| CallOutcomes.OtherStepsExactly | src/core/fleet_controller.py:166-172 | Registrations, connections and releases that are no call's own change the registry, the connected peers and the busy set, each its own. |
| CallOutcomes.ReplyReachesCall | src/adapter/hermes_executor.py:175-185 | The dispatcher's reply is the reply of a local call, and of a remote one that has a mesh client and a peer. |
| CallOutcomes.UnreachedIsTold | src/adapter/mesh_peer_client.py:241-249 | A remote call without a mesh client raises and one without a peer fails, with these texts. |
| CallOutcomes.UnqueuedIsLost | src/adapter/hermes_executor.py:137-149 | A call whose event cannot be queued emits nothing and keeps its profile. |
| CallOutcomes.TracedIsReported | src/adapter/hermes_executor.py:175-280 | What a call has emitted and audited, by its reply: the answer, the data, the error or the question, and whether it is parked. |
| CallOutcomes.ReplyIsReported | src/adapter/hermes_executor.py:175-280 | Over every interleaving after the dispatcher has replied, the call reports exactly that reply. |
| CallOutcomes.RefusalIsReported | src/adapter/hermes_executor.py:137-158 | A call that was not routed says why, and is audited as a failure for that reason. |
| CallOutcomes.RefusalSteps | src/adapter/hermes_executor.py:137-158 | The reason of a refusal stays the same from routing to the end. |
| CallOutcomes.CloseFrees | src/adapter/hermes_executor.py:206-280 | Closing frees the profile exactly if the reply does not ask for input. |
| PeerRetry.CapFacts | src/adapter/mesh_peer_client.py:180-183 | The cap of a wait never exceeds a minute or the power of two, does not decrease, and is a minute from the sixth attempt on. |
| PeerRetry.TotalCapIs | src/adapter/mesh_peer_client.py:176-185 | Five attempts or more wait at most 62 seconds and a minute for each after the fifth. |
| PeerRetry.RetryAlone | src/adapter/mesh_peer_client.py:176-201 | One loop: it ends at the first success, or when the delay overflows, and has waited the drawn fractions of the caps, no longer than these allow. |
| PeerRetry.MeshPeerClient.StartConnectAll | src/adapter/mesh_peer_client.py:149-150 | The start of connecting to all peers. |
| PeerRetry.MeshPeerClient.PeerAnswered | src/adapter/mesh_peer_client.py:150-153 | The next peer is connected, or is noted as failed. |
| PeerRetry.MeshPeerClient.SchedulePeerRetry | src/adapter/mesh_peer_client.py:158-164 | The stored loop of the peer is cancelled and a new one stored in its place. |
| PeerRetry.MeshPeerClient.FinishConnectAll | src/adapter/mesh_peer_client.py:154-156 | One loop is scheduled for every peer that failed, in order. |
| PeerRetry.MeshPeerClient.LoopAttempted | src/adapter/mesh_peer_client.py:187-201 | A success adds the client and forgets the loop; a failure goes back to sleep with the next attempt. |
| PeerRetry.MeshPeerClient.StartClose | src/adapter/mesh_peer_client.py:203-208 | Every stored loop is cancelled and forgotten. |
| PeerRetry.MeshPeerClient.FinishClose | src/adapter/mesh_peer_client.py:210-218 | The clients are dropped, or, only if they changed since this closing started, the iteration over them raises; other closings may be under way. |
| PeerRetry.StepKeepsTidy | src/adapter/mesh_peer_client.py:141-219 | Every step keeps the live loops equal to the stored ones that did not overflow, one for each peer. |
| PeerRetry.OneLoopPerPeer | src/adapter/mesh_peer_client.py:141-219 | Over every interleaving a peer has at most one uncancelled, unfinished loop, and it is the stored one. |
| PeerRetry.OneLoopFromStart | src/adapter/mesh_peer_client.py:141-219 | In particular in every run from a new client. |
| PeerRetry.CancelledIsInert | src/adapter/mesh_peer_client.py:158-164 | A cancelled loop stays cancelled, and its own turn changes nothing but its own end. |
| PeerRetry.CloseStops | src/adapter/mesh_peer_client.py:203-219 | After closing with nobody connecting, in every run without a new connect_all and with any other closings, no loop lives and no client is added, and none is left once this closing is over. |
| PeerRetry.FailedAttemptGoesOnExactly | src/adapter/mesh_peer_client.py:176-201 | A loop goes on after a failure exactly when the next delay can be computed; a loop that ends there stays stored. |
| PeerRetry.OverflowsExactly | src/adapter/mesh_peer_client.py:180-183 | The power of two of an attempt fits a double exactly before attempt 1024. |
| PeerRetry.ShareWaits | src/adapter/mesh_peer_client.py:180-185 | The waits are the drawn fractions of the caps: with the same fraction each time, that fraction of all of them. |
| PeerRuns.RefusingPeersAreRetried | src/adapter/mesh_peer_client.py:141-164 | Over every interleaving, connecting to all peers asks each in order, and then exactly those that refused get a new loop that has not tried yet; the others' loops stay. |
| PeerRuns.AnswerConnects | src/adapter/mesh_peer_client.py:150-153 | A peer that answers is connected, and one that refuses is not. |
| PeerRuns.TurnsExactly | src/adapter/mesh_peer_client.py:176-201 | What a turn of a loop does, field by field: a success adds the client and forgets the loop, a failure sleeps before the next attempt unless its delay overflows. |
| PeerRuns.ClosingRaisesExactly | src/adapter/mesh_peer_client.py:203-219 | Over every interleaving, the rest of a closing can raise exactly if the clients have changed since it started. |
| Conversation.ConversationGraph.AddTask | src/core/domain/models/persistence.py:93-105 | A record of another context is refused; otherwise it takes its id's place or the last one, and all else stays. |
| Conversation.ConversationGraph.GetTask | src/core/domain/models/persistence.py:107-109 | The record of the id, or none. |
| Conversation.ConversationGraph.GetChildren | src/core/domain/models/persistence.py:111-119 | The loop collects, in insertion order, the records that refer to the id. |
| Conversation.ConversationGraph.BuildNode | src/core/domain/models/persistence.py:126-136 | The recursion returns the tree of the specification, given levels that suffice. |
| Conversation.ConversationGraph.GetTree | src/core/domain/models/persistence.py:121-146 | The tree of the root, or none when the root is missing. |
| Conversation.TreeEndsExactly | src/core/domain/models/persistence.py:126-136 | Building a node ends if and only if no task reachable from it is its own descendant. |
| Conversation.MoreFuel | src/core/domain/models/persistence.py:126-136 | There is only one tree: more levels than needed change nothing. |
| Conversation.DisciplinedHasNoCycle | src/core/domain/models/persistence.py:111-136 | With fresh ids and parents registered before, no task is its own descendant. |
| Conversation.TreeListsDescendants | src/core/domain/models/persistence.py:111-146 | Then the tree is built and lists exactly the tasks whose chain of parents reaches the root, each once. |
| Conversation.ThroughChildren | src/core/domain/models/persistence.py:111-119 | The chain of a descendant passes through exactly one child, which is why no task is listed twice. |
| Conversation.ChildrenAreReferences | src/core/domain/models/persistence.py:126-136 | Every built node shows the id, status, type and flag of its record, and its children are exactly the records that refer to it, in order and each once. |
| Orchestrator.OrchestratorImpl.RegisterTask | src/core/orchestrator.py:51-84 | The new state of graphs and depth table, for every registration, fresh or not. |
| Orchestrator.OrchestratorImpl.OnStatusChange | src/core/orchestrator.py:86-123 | The new state, the intents sent, the profile freed and whether the call raises, for every state reported and every reply of the dispatcher. |
| Orchestrator.OrchestratorImpl.RecruitSpecialist | src/core/orchestrator.py:125-182 | Escalation at the depth limit or when nobody is found; otherwise one intent to the first profile found. |
| Orchestrator.OrchestratorImpl.HandleInputRequired | src/core/orchestrator.py:198-250 | What the record becomes, what is sent, and whether an exception of the dispatcher ends it. |
| Orchestrator.OrchestratorImpl.FindGraphForTask | src/core/orchestrator.py:252-257 | The loop finds the first graph that holds the task. |
| Orchestrator.OrchestratorImpl.GetConversationGraph | src/core/orchestrator.py:184-192 | The tree of the context, a missing root, or an unknown context. |
| Orchestrator.RegisterForm | src/core/orchestrator.py:51-84 | A disciplined registration appends one record to the graph of its context and notes its depth. |
| StatusChanges.RegistersExactly | src/core/orchestrator.py:51-84 | Any registration, disciplined or not: the conversation is opened if it is new, no other changes, and the task is one deeper than its parent. |
| StatusChanges.RegisteredRecord | src/core/orchestrator.py:66-80 | Every field of the record: what it is not given it inherits from its parent in the same conversation. |
| Orchestrator.RunKeepsSound | src/core/orchestrator.py:51-123 | Over every disciplined run the depth of every task equals the number of its ancestors, every graph is disciplined with its root first, and no task is in two graphs. |
| Orchestrator.ConversationTree | src/core/orchestrator.py:184-192 | After every disciplined run of registrations and status changes, every conversation's tree is built and lists exactly the tasks whose chain of parents reaches the root, each once. |
| Orchestrator.DisciplinedTreesCanBeBuilt | src/core/orchestrator.py:184-192 | So asking for a conversation never hangs after a disciplined run. |
| Orchestrator.SelfParentNeverEnds | src/core/orchestrator.py:66-80 | A task registered as its own parent, for which building the tree does not end. |
| Orchestrator.SpecialistExactly | src/core/orchestrator.py:138-164 | A specialist is asked exactly when a task with fewer than three ancestors asks and some profile can handle a consultation or an action request. |
| Orchestrator.DeepTaskEscalates | src/core/orchestrator.py:138-149 | A task with three or more ancestors that asks is sent nowhere and ends in input_required with an escalation. |
| Orchestrator.IntentsInOrder | src/core/orchestrator.py:198-250 | A status event sends none, one or two intents, specialist before resumption; to whom, about what, and exactly when there is a second one. |
| Orchestrator.RaisesExactly | src/core/orchestrator.py:101-250 | A status change raises exactly when the dispatcher raises for the specialist, or for the resumption after it; the record is then as it was reported, and nothing is freed. |
| Orchestrator.SpecialistsFacts | src/core/orchestrator.py:151-167 | The specialist is the first profile that can handle a consultation, or failing that the first for an action request. |
| StatusChanges.SpecialistAsked | src/core/orchestrator.py:125-215 | Exactly when a specialist is asked, who it is, the text of the question by the result's data, and the result's tags. |
| StatusChanges.UnaskedBecomes | src/core/orchestrator.py:101-164 | The status, result and escalation of a record whose change asks nobody. |
| StatusChanges.AskedBecomes | src/core/orchestrator.py:198-250 | The status, result and escalation of a record whose change asks a specialist, by the replies to both intents. |
| StatusChanges.ResumesExactly | src/core/orchestrator.py:113-250 | The second intent in full, when the call raises, and what it frees. |
| StatusChanges.UnknownTaskIsIgnored | src/core/orchestrator.py:94-99 | A status change of a task that no conversation holds does nothing. |
| Orchestrator.OnlyOwnRecord | src/core/orchestrator.py:101-123 | A status change touches no other record and only appends to the messages and artifacts of its own. |
| Orchestrator.MatchingChange | src/core/orchestrator.py:101-123 | With matching states the record's flag implies a terminal status; the converse fails exactly after a resumption that ends terminal but not completed. |
| Orchestrator.StatusListedExactly | src/core/orchestrator.py:101-109 | The status stays in the lifecycle if and only if the reported state is in it. |
| Orchestrator.RecordsStayOrderly | src/core/orchestrator.py:51-123 | Over every run with matching states, every record's status is in the lifecycle and its flag implies a terminal status. |
| Orchestrator.UnflaggedOnlyByResumption | src/core/orchestrator.py:101-250 | Over every run with matching states, a record with a terminal status and no flag is as a resumption that ended terminal but not completed left it. |
| Orchestrator.ReleasesOwnProfile | src/core/orchestrator.py:117-123 | With matching states a terminal result frees exactly the record's own profile, and an event that sends intents frees none. |
| Orchestrator.UnassignedReleaseNobody | src/a2a_plugin/__init__.py:502-520 | When tasks are registered without a profile, as the plugin does, no record ever names one, and a status change frees nothing or the empty name. |
| Wiring.OrchActExactly | src/core/orchestrator.py:151-154 | Specialists are looked up in the shared registry, and an event changes nothing of the calls but the profile it frees. |
| Wiring.WiredSlotSafety | src/core/orchestrator.py:121-123 | With executor and orchestrator over one fleet controller, named profiles and tasks registered without one, every interleaving of calls and status changes keeps the busy set equal to the profiles held by calls, and these distinct. |
| Wiring.WiredFromStart | src/a2a_plugin/__init__.py:502-520 | So in every run from the start. |

## Left out

- HTTP, the A2A SDK, JSON-RPC, protobuf, the version header, tokens, SSRF checks, configuration, the peer registry and agent cards: library behaviour or short branches.
- Key material: a key is a non-empty string over the base64 alphabet; generating and encoding it, PEM and signatures are not modelled. Whether a stored value decodes is a parameter of one uninterrupted call; in the races a returned key stands for whatever decoding it gives, a key pair or the same exception for every caller.
- Reading `.env`: the text is taken after decoding and newline translation; the fallback encoding and unreadable files are not modelled.
- The bootstrap's I/O errors, partial writes, the second closing of a descriptor, file modes, and an environment shared by threads of one process: every caller is a process of its own, and crashes between steps stand in for failures.
- KeyDurability.OthersSurviveExactly: a file that loads, binds no key and is not safe to rewrite is not covered; there appending itself changes the last line (`EnvFile.MergedLineLosesKey`).
- JSON and time stamps of audit records: a line is a byte string, written as a whole or not at all. A directory in the place of a log file is not modelled.
- The rate limiter's time is a real number, so rounding of clock readings is not modelled.
- Fleet.FleetController.Route: generated task ids and the prose of the messages are reduced to a reason, and `_max_concurrent`, which nothing reads, is absent.
- Executor.HermesExecutor.BeginCall: the goal text handed to the dispatcher, and the ids and source fields of the audit calls, are not modelled.
- Executor.HermesExecutor.CloseCall: the audit trace holds the calls to the audit log, whose errors are swallowed, not the lines it writes; and the orchestrator's status change after an input-required result is not a part of this step but one that may come at any time. The two events of `cancel` and the translation of requests are not modelled.
- PeerRetry.MeshPeerClient.FinishClose: the closing of a single client is not modelled. The waits are real numbers; only the overflow of the power of two is kept from doubles.
- Conversation.TaskRecord.constructor: the refusal of an unknown status is not modelled, because the only caller passes `submitted`. Time stamps are absent.
- Conversation.ConversationGraph.GetTree: Python's recursion limit is not modelled; a tree that does not end is excluded by the precondition that `TreeEndsExactly` characterises.
- Orchestrator.OrchestratorImpl.OnStatusChange: a dispatcher that calls back into the orchestrator or the fleet's busy set before it replies is not modelled; the one the plugin wires (`src/adapter/hermes_adapter.py:59-97`) does neither. The payload of a result is a map from text to text.
