# yaci, modelled in Dafny

yaci reads blocks and transactions from a Cosmos SDK node over gRPC and stores them in PostgreSQL.
This project models the parts of it that decide whether that is done completely and correctly, and
proves what they guarantee. `dafny verify dfyconfig.toml` checks everything.

## How the modules follow the program

**Descriptors.** At start-up the client asks the server's reflection service for every protobuf file
its services need, sorts the files by imports and registers them.

- `Graphs` holds import graphs, walks, cycles, reach sets and topological orders.
- `Descriptors` holds file descriptors as values and as objects, and the ABCI patch. `Registry` is the
  file registry: creating a file needs all its imports registered, registering it needs a free path.
- `Reflection` is the connection: requests, replies, retries, and what a well-behaved server answers.
  It may fail at any time, but a descriptor answer that can be decoded holds the requested file and
  otherwise only files it transitively imports. It is responsive if whatever exists can also be had,
  at any time, within the retries. The connection keeps a log of the requests made, of what their maker
  had at the time, and of the exchanges they took; every error of the fetch and of the resolver is
  traced to a request in it, and a file is asked for by name only while it is missing.
  `FetchDescriptors` is the recursive fetch over the shared `seen` map.
- `TopologicalSort` is the depth-first sort, `DescriptorSet` the registration, `Client` the composition.
- `Resolver` is the lazily growing resolver as a class run by one goroutine, its lock a ghost state.
  `ResolverInterleaving` is the same code run by any number of goroutines, as steps that interleave
  whenever the lock is free. `ResolverCalls` says what each call in progress is for, `ResolverOverlap`
  and `ResolverMeet` when calls cannot fail on each other's registrations, and `ResolverRuns` which
  runs exist. `ResolverRace` and `ResolverCycle` use these to say exactly when a duplicate is possible and
  when the recursion is bounded.

**Extraction.** `Store` is the two raw tables and the four database operations, `Transactions` the
extraction of records from a block, `WorkerPool` the steps of `processBlocks` with all their
interleavings, `Refinement` what those steps leave in the tables, `Recovery` what sequences of runs
leave behind, `Environment` the world around the extractor and what in it can make a step fail, `Runs`
what one process does to the store in every mode, and `Extraction` the methods that put these
together, up to one whole process and its restarts.

**Smaller cores.** `Rpc` (retry with back-off), `Decimals` and `PruningHeight` (the earliest height of
a pruned node), `NestedFields` (dotted paths through messages), `Vesting` (locked tokens).

Outside answers are parameters: a server, a node or a database is a function from the number of the
call to its outcome, so each theorem holds for every sequence of answers and failures, and an error
is always traced to such an outcome: a request without a usable answer, a failed call or statement, a
block that cannot be stored, a context that is done. Where Go iterates over a map, the model picks the
next key arbitrarily.

## What the code does that one might not expect

Each of these is proved, most with the exact condition.

- `GetMissingBlockIds` never asks for the row error after its loop (`postgresql.go:105-113`). A result
  stream that breaks off is taken for a complete one. A successful call has every gap if and only if
  the stream was not cut short, and contiguity after a successful run holds under the same condition.
- The first run decides. Gap filling starts at the lowest stored block, so when the first run on an
  empty store fails, later successful runs reach the intended start if and only if that very block
  was stored by it (`Recovery.FirstBlockDecides`).
- Without a new block the run ends with "start block is greater than stop block" before it looks at
  any gap (`Recovery.GapsWaitForNewHeights`).
- With `maxRetries = 0` a call makes no attempt and succeeds with the zero value, since a nil error is
  wrapped (`Rpc.CallSucceedsIff`). The back-off total is what it is meant to be exactly up to attempt
  4,611,686,018, whose successor's sleep overflows and is skipped.
- `processBlocks` can return while a worker is still running and yet to commit: after a cancellation
  exactly if the range has a second height, after a worker's own error exactly if it has a third. A
  single token is enough for the latter, since a token is given back before the error is reported. A
  range that ends at 2^64-1 never finishes, and with no tokens nothing is ever dispatched. These are
  the reasons for the preconditions `maxConcurrency >= 1` and `stop < 2^64-1`.
- A database that holds height 0 is not re-indexed: its lowest height is read as "no start", and the run
  resumes after the highest one (`Runs.StartChosen`).
- A service whose name equals the path of a file already fetched is skipped, because services and files
  share one lookup. The fetch is exactly what the services reach if and only if every skipped service's
  own file is fetched for another reason.
- The resolver marks a symbol as seen before its request, so a failed request makes the symbol
  unresolvable until its file arrives for another reason. Its recursion is bounded if and only if the
  file reaches no import cycle.
- Goroutines that resolve files at the same time can fail on a path that is already taken, if and only
  if the call for one of them can come to release the lock over a file that the call for another needs.
  For calls that are all for one unregistered file this means that one of its imports is not registered
  either. For different files it is not enough that both need an unregistered file with an unregistered
  import: when that import comes first in both, neither call ever releases the lock over the shared
  file (`ResolverRace.SharingIsNotMeeting`).
- A path that goes on behind a list of messages or behind a map, whatever the map's values are, panics,
  and no other path does.
- An unlock time beyond 64 bits wraps. The amount is too small exactly if the wrapped time of some
  period that pays is not in the future; it is never too large.

## Model

| member | source | states |
|---|---|---|
| `TopologicalSort.Sort` | internal/reflection/build_descriptor.go:61-102 | for every order in which the map is iterated: fails if and only if the import graph restricted to the map's keys has a cycle or an entry is nil; otherwise lists every descriptor once, each import in the map strictly earlier; the error names a cycle or a nil entry |
| `TopologicalSort.Sorter.Visit` | internal/reflection/build_descriptor.go:67-91 | keeps the marks equal to the names on the stack and the names sorted, only extends the order, reports a cycle only when there is one, and ends because unmarked names shrink |
| `TopologicalSort.Sorter.VisitNew` | internal/reflection/build_descriptor.go:71-89 | a name without marks ends up sorted after its imports with the marks restored, or the error has a cause; "not found" only for a name outside the map or a nil entry |
| `TopologicalSort.Sorter.VisitImports` | internal/reflection/build_descriptor.go:79-85 | after the loop every import that is in the map is sorted; each call is an edge from the top of the stack |
| `Graphs.OrderedGraphIsAcyclic` | internal/reflection/build_descriptor.go:60-102 | a topological order of all names rules out every cycle: the converse that makes the sort's error complete |
| `Graphs.CutKeepsCycles` | internal/reflection/build_descriptor.go:79-85 | a graph cut down to a closed set of names keeps exactly the cycles through that set |
| `DescriptorSet.ByName` | internal/reflection/build_descriptor.go:16-19 | every descriptor's name is a key, and every entry is a listed descriptor of that name |
| `DescriptorSet.ByNameKeepsLast` | internal/reflection/build_descriptor.go:16-19 | of the descriptors with the same name the last one is kept |
| `DescriptorSet.RegisterNext` | internal/reflection/build_descriptor.go:28-39 | one turn of the loop: appends the patched file, or fails because of this file alone |
| `DescriptorSet.RegisterSorted` | internal/reflection/build_descriptor.go:27-39 | in topological order every path is fresh and every listed import is registered already, so only an unlisted import or a refusal of the library can fail |
| `DescriptorSet.PlannedFileFits` | internal/reflection/build_descriptor.go:27-39 | before a file of the order is registered its path is free and its listed imports are taken |
| `DescriptorSet.AllRegistered` | internal/reflection/build_descriptor.go:27-41 | an import-closed registry of the whole order holds exactly the keys, and the map was self-contained |
| `DescriptorSet.BuildFileDescriptorSet` | internal/reflection/build_descriptor.go:12-42 | if the library accepts all files: succeeds if and only if no entry is nil, the imports are acyclic and self-contained; never fails on a repeated path; a refusal is of a file that was ready, over files registered before it; the result is import-closed and holds exactly the listed names, patched |
| `Descriptors.PatchABCIDescriptor` | internal/reflection/build_descriptor.go:45-58 | the in-place patch has the effect of the patch function on the contents |
| `Descriptors.PatchIsIdempotent` | internal/reflection/build_descriptor.go:45-58 | patching twice is patching once; names, imports and symbols stay |
| `Descriptors.PatchRemovesTextRawLog` | internal/reflection/build_descriptor.go:49-57 | in the ABCI file every text field named `raw_log` becomes bytes; every other field, and every other file, is as it was |
| `Registry.ImportClosedMeaning` | internal/reflection/build_descriptor.go:28-39 | an import-closed registry has no repeated path, no dangling import and no import cycle |
| `Registry.Files.NewFile` | internal/reflection/build_descriptor.go:31-34 | succeeds only with every import registered, and says which import is missing otherwise, or that the library refuses the file |
| `Registry.Files.RegisterFile` | internal/reflection/build_descriptor.go:36-38 | fails exactly on a taken path; otherwise appends the file and keeps the registry import-closed |
| `Reflection.Connection.SendReflectionRequestWithRetry` | internal/reflection/fetch_descriptor.go:153-164 | the first attempt that does not fail, none after it, at most the limit, an error exactly if there is none; the time slept, overflow included |
| `Reflection.Connection.SendReflectionRequest` | internal/reflection/fetch_descriptor.go:167-198 | one exchange; an error reply is a failure |
| `Reflection.UsableIff` | internal/reflection/fetch_descriptor.go:153-198 | a request has a usable answer if and only if, within the limit, the first exchange that neither fails nor brings an error reply brings an answer in kind with nothing corrupt |
| `Reflection.ServicesAreFound` | internal/reflection/fetch_descriptor.go:153-188 | a list of services is found however many failures and error replies come before it, within the limit |
| `Reflection.InquiryGoesOn` | internal/reflection/fetch_descriptor.go:88-105 | one more request in order, taking the exchanges it has to, continues an inquiry, which goes on well exactly if that request has a usable answer |
| `Reflection.KnownIsNotAsked` | internal/reflection/resolver.go:196-201 | if all that may be asked for by name was there from the start, only symbols are asked for |
| `Reflection.ResponsiveMeansUsable` | internal/reflection/fetch_descriptor.go:153-164 | with a responsive server an inquiry for things that exist goes well |
| `Reflection.Connection.ListServiceNames` | internal/reflection/fetch_descriptor.go:42-65 | succeeds exactly if the first successful attempt within the limit lists services; the names are those of that answer |
| `Reflection.Connection.FetchFileDescriptors` | internal/reflection/fetch_descriptor.go:108-129 | succeeds exactly if the first successful attempt within the limit holds descriptors, none corrupt; the result are new objects whose contents are a genuine batch containing the requested file |
| `FetchDescriptors.Fetcher.FetchFileByName` | internal/reflection/fetch_descriptor.go:88-105 | a file that is there costs no request; otherwise it is asked for, fails exactly if one of the requests has no usable answer, and on success the file is fetched and only files still open lack an import; everything gained is reachable from it |
| `FetchDescriptors.Fetcher.FetchFileDescriptors` | internal/reflection/fetch_descriptor.go:68-85 | a name already among the keys is skipped without a request; otherwise it is asked for once, fails exactly if one of the requests has no usable answer, and the owner's file and only files it reaches are gained, closed under imports |
| `FetchDescriptors.Fetcher.ProcessFileDescriptors` | internal/reflection/fetch_descriptor.go:132-151 | the whole batch is fetched; only files on the call stack may lack an import; files are asked for by name only while they are missing; recursion ends on cyclic graphs too, because unseen names shrink |
| `FetchDescriptors.Fetcher.ProcessFile` | internal/reflection/fetch_descriptor.go:134-148 | a file is marked before its imports are fetched, and is closed when the turn ends |
| `FetchDescriptors.Fetcher.FetchImports` | internal/reflection/fetch_descriptor.go:140-148 | every import of the file is fetched, gaining only what the root reaches, and asked for only if it is missing |
| `FetchDescriptors.FetchServices` | internal/reflection/fetch_descriptor.go:24-30 | the keys are exactly what the services call for, in order, with the skipping rule; the symbols asked for are the services that are not skipped, each once and in order; fails exactly if a request has no usable answer |
| `FetchDescriptors.GrowthIsReach` | internal/reflection/fetch_descriptor.go:132-151 | closed growth within a root's reach that contains the root is exactly that reach |
| `FetchDescriptors.FetchAllDescriptors` | internal/reflection/fetch_descriptor.go:15-39 | lists the services once, then asks for those that are not skipped and by name for missing files they need, and nothing else; succeeds exactly if all these requests have usable answers, as with every responsive server; each fetched file once, as the server holds it, and the set is closed under imports |
| `FetchDescriptors.CollectValues` | internal/reflection/fetch_descriptor.go:32-36 | every value of the map exactly once, in any order |
| `FetchDescriptors.FetchedMeans` | internal/reflection/fetch_descriptor.go:68-85 | a file is fetched exactly if some service that is not skipped calls for it |
| `FetchDescriptors.FetchedIsReachableIff` | internal/reflection/fetch_descriptor.go:24-30 | what is fetched is exactly what the services' files reach if and only if no skipped service's own file is lost |
| `FetchDescriptors.FetchedIsReachable` | internal/reflection/fetch_descriptor.go:24-30 | in particular if no service is named like a file |
| `FetchDescriptors.ServiceNamedLikeFileIsSkipped` | internal/reflection/fetch_descriptor.go:69-71 | the condition can fail: a concrete server |
| `Client.NewGRPCClient` | internal/client/client.go:28-51 | three attempts a request; succeeds only if every request has a usable answer and no fetched file is on a cycle, and then, unless the library refuses one that is ready; with a responsive server every request has one; the resolver starts from exactly the files that the services listed in its first request call for, patched |
| `Client.FetchedGraph` | internal/client/client.go:33-39 | the fetched descriptors' import graph is the server's, cut down to the fetched names |
| `Client.RegisteredAsFetched` | internal/client/client.go:39-44 | every registered file is the server's file of that name, patched |
| `Resolver.CustomResolver.FetchDescriptorByName` | internal/reflection/resolver.go:155-169 | run sequentially: ends; fails if one of its requests has no usable answer, and otherwise only if the library refuses a file that is ready; asks by name for missing files below the name only; on success the registry gained exactly what the name reaches; lock free before and after |
| `Resolver.CustomResolver.ProcessFileDescriptors` | internal/reflection/resolver.go:172-194 | every file of the batch is registered once, after its imports; entered and left without the lock on all paths; an error has a request without a usable answer or a refusal as its cause |
| `Resolver.CustomResolver.ProcessFile` | internal/reflection/resolver.go:176-191 | a file of the batch is skipped or registered after its imports, under the lock |
| `Resolver.CustomResolver.FetchDependencies` | internal/reflection/resolver.go:196-213 | an import that is registered is not asked for, and if all are, nothing is done; entered and left holding the lock, on success and error alike, and free during each fetch; every import ends up registered, the importer itself never does in between |
| `Resolver.CustomResolver.RegisterFileDescriptor` | internal/reflection/resolver.go:215-228 | only under the lock; appends the file, failing exactly on a path already registered or a refusal of the library |
| `Resolver.CustomResolver.FetchDescriptorBySymbol` | internal/reflection/resolver.go:127-153 | one request per symbol, and by name only for missing files its owner needs; the mark stays when the request fails |
| `Resolver.CustomResolver.FindMessageByName` | internal/reflection/resolver.go:72-110 | finds exactly what a registered file declares, under its own name; asks for the symbol once, unless it is found or marked, and by name only for missing files its owner needs; with a responsive server, or with all of these registered and the symbol answered, no request fails, and then only a refusal of a file that is ready can; not found after a fetch exactly if the symbol was marked earlier and is not declared; a failed request marks the symbol |
| `Resolver.CustomResolver.FindDescriptorByName` | internal/reflection/resolver.go:74-76 | under the read lock, found exactly if some registered file declares the symbol |
| `Resolver.CustomResolver.ImportReachesLess` | internal/reflection/resolver.go:196-213 | the measure: off the cycles, an import reaches strictly less than its importer |
| `Resolver.RegisteredMeansNoCycle` | internal/reflection/resolver.go:184-190 | nothing below a registered file is on an import cycle, so the absence of a reachable cycle is needed for success as well as enough |
| `Resolver.DeclaresIffOwnerRegistered` | internal/reflection/resolver.go:74-80 | a symbol can be found exactly if the file that owns it is registered |
| `ResolverInterleaving.StepIsSafe` | internal/reflection/resolver.go:172-228 | every step of every goroutine keeps the registry import-closed and duplicate-free and the lock held by exactly the goroutine under it; files are only added, and only by the holder |
| `ResolverInterleaving.InitialIsSound` | internal/reflection/resolver.go:30-38 | with an import-closed registry and no goroutine started, the state is safe and sound, so the theorems below hold from start-up on |
| `ResolverInterleaving.RunIsSafe` | internal/reflection/resolver.go:172-228 | the same in every reachable state of every interleaving, whatever the server answers |
| `ResolverInterleaving.SomeCallCanStep` | internal/reflection/resolver.go:196-213 | no deadlock: while a call is in progress, some call in progress can step |
| `ResolverInterleaving.StepIsSound` | internal/reflection/resolver.go:196-213 | imports found before an unlock window are still registered after it |
| `ResolverInterleaving.ImportsAreNeverMissing` | internal/reflection/resolver.go:184-190 | if every successful by-name answer holds the requested file, no interleaving ends a call for want of an import |
| `ResolverCalls.EndedCallIsRegistered` | internal/reflection/resolver.go:172-194 | in every interleaving, a call that ended without fault has all its files registered, with everything they reach |
| `ResolverOverlap.StepKeepsApart` | internal/reflection/resolver.go:184-190 | each step keeps open files unregistered and shared files harmless |
| `ResolverOverlap.NoCallEndsInDuplicate` | internal/reflection/resolver.go:196-228 | for every interleaving: if each goroutine, when it starts, shares with the calls in progress only files that are registered, or have their imports registered and are not suspended there, no call ends in a duplicate |
| `ResolverOverlap.InitialIsApart` | internal/reflection/resolver.go:30-38 | the state at start-up meets that condition |
| `ResolverOverlap.AloneIsApart` | internal/reflection/resolver.go:172-194 | in particular when one goroutine at a time is busy, whatever the imports |
| `ResolverMeet.GoodStepIsWatched` | internal/reflection/resolver.go:176-213 | each step keeps the files over which a call has released the lock among those that its file and the order of its imports allow, when no two calls may meet |
| `ResolverMeet.NoMeetingNoDuplicate` | internal/reflection/resolver.go:184-190 | for every interleaving of calls of which no two may meet: none ends in a duplicate |
| `ResolverRuns.FileCompletes` | internal/reflection/resolver.go:172-213 | from any state with the lock free, a call for a file that reaches no cycle can be run to its end, with exactly what it reaches registered and the other goroutines where they were |
| `ResolverRace.MeetingMeansClash` | internal/reflection/resolver.go:203-206 | if the call for one file can come to release the lock over a file that the call for another needs, there is a run that ends in a duplicate |
| `ResolverRace.ClashIffMeeting` | internal/reflection/resolver.go:172-228 | goroutines that each resolve a file of their own, off the import cycles and as often as they like, can end in a duplicate if and only if two of the calls can meet in that way |
| `ResolverRace.SharingIsNotMeeting` | internal/reflection/resolver.go:196-213 | sharing an unregistered file that lacks an import is not enough: a concrete server and two calls that do so and cannot clash |
| `ResolverRace.ClashIffImportMissing` | internal/reflection/resolver.go:196-228 | in particular calls that are all for one unregistered file: if and only if one of its imports is not registered either |
| `ResolverCycle.RecursionIsUnbounded` | internal/reflection/resolver.go:196-213 | for every file that reaches an import cycle: with true and complete answers one goroutine's call stack can have any depth |
| `ResolverCycle.DepthIsBounded` | internal/reflection/resolver.go:196-213 | a call that needs no file on a cycle never nests deeper than there are files, by more than two |
| `ResolverCycle.BoundedIffNoCycle` | internal/reflection/resolver.go:196-213 | calls for a file nest boundedly if and only if it reaches no import cycle |
| `Rpc.Channel.RetryGRPCCall` | internal/utils/grpc.go:75-106 | the outcome, number of attempts and time slept as functions of the attempts' outcomes, which `Rpc.CallIs` spells out |
| `Rpc.CallIs` | internal/utils/grpc.go:75-106 | these are: the error of a missing method as it is; otherwise the first success as it is, or after the limit the last error with its message after the prefix; each attempt counted |
| `Rpc.CallIsUnique` | internal/utils/grpc.go:75-106 | and nothing else is such an outcome |
| `Rpc.RetriedIsFirstSuccess` | internal/utils/grpc.go:94-105 | for a limit of at least one: the result of the last attempt made, all before it failed, and it failed only at the limit |
| `Rpc.CallSucceedsIff` | internal/utils/grpc.go:94-105 | a call succeeds if and only if the method is found and either some attempt within the limit succeeds or the limit is 0 |
| `Rpc.TotalBackoffIsQuadratic` | internal/utils/grpc.go:101 | k failures sleep exactly k(k+1) seconds, for every k within the Duration range |
| `Rpc.TotalBackoffIsExactIff` | internal/utils/grpc.go:101 | the total is k(k+1) seconds if and only if k is at most 4,611,686,018 |
| `PruningHeight.ParseLowestHeight` | internal/utils/block.go:62-74 | whatever the message, the result fits in 64 bits |
| `PruningHeight.HeightRoundTrip` | internal/utils/block.go:62-74 | the marker followed by any number in decimal, then by no digit, parses to that number, or to 0 beyond 64 bits, if no match begins earlier |
| `PruningHeight.NoMarkerNoHeight` | internal/utils/block.go:62-74 | a message without a match gives 0 |
| `PruningHeight.EarliestHeightIsPositive` | internal/utils/block.go:37-58 | height 0 is never found; an archive node starts at 1, a pruned one at the height its message names; 1 is found only if a probe succeeded or the message names it; nothing is found only if every probe failed |
| `PruningHeight.EarliestHeightMeans` | internal/utils/block.go:40-57 | 1 for an archive node; the height that the wrapped error of the first probe names; otherwise 1 if and only if a later probe within the limit succeeds, or the limit is 0 |
| `PruningHeight.PrunedNodeIsFound` | internal/utils/block.go:47-48 | for every height of 64 bits: a node whose first error says "lowest height is" followed by it, and no other height before, is found to start there, after a single probe |
| `PruningHeight.NoMethodNoProbe` | internal/utils/grpc.go:81-91 | without the method nothing is probed, and only the error itself can name a height |
| `PruningHeight.GetEarliestBlockHeight` | internal/utils/block.go:37-58 | returns that height, or an error if there is none, after as many calls as it takes |
| `Environment.EarliestByBlock` | internal/utils/block.go:12-45 | the extractor looks for it by asking for a block by height |
| `PruningHeight.LatestHeightIsReported` | internal/utils/block.go:17-31 | a height obtained was reported by some attempt and fits in 64 bits; it is 0 if no attempt is allowed |
| `Environment.LatestAtIff` | internal/utils/block.go:17-31 | the latest height is h if and only if the status method is found and, within the retries, the first answer that is a 64-bit number is h |
| `PruningHeight.GetLatestBlockHeightWithRetry` | internal/utils/block.go:17-31 | the retried status call, with the conversion inside the retried attempt |
| `Decimals.ParseOfDecimal` | internal/utils/block.go:67-70 | 64-bit parsing inverts decimal printing and rejects every larger number |
| `Decimals.ParseUint64Iff` | internal/utils/block.go:67-70 | what parses is decimal text with any number of leading zeros, within 64 bits, and nothing else |
| `Decimals.AppendedDigit` | internal/utils/block.go:67-70 | the base is ten: a digit more means ten times the number and the digit |
| `NestedFields.GetNestedField` | internal/utils/grpc.go:116-142 | the loop agrees with resolving the split path recursively |
| `NestedFields.ResolveFollowsChain` | internal/utils/grpc.go:121-139 | the path is followed from message to message as far as it goes, and the outcome is that of the field where it ends: its value, no such field, no value, not a message, or the panic |
| `NestedFields.ChainDetermines` | internal/utils/grpc.go:121-139 | such a chain determines the outcome |
| `NestedFields.SplitThenJoin` | internal/utils/grpc.go:117 | joining the parts gives the path back, and no part holds a dot |
| `NestedFields.SplitOfConcat` | internal/utils/grpc.go:117 | a path joined by a dot splits into the parts of both |
| `NestedFields.ResolveSplits` | internal/utils/grpc.go:121-139 | a longer path goes on from what its beginning resolves to |
| `NestedFields.PathsCompose` | internal/utils/grpc.go:116-142 | resolving p.q is resolving q in the message p leads to |
| `NestedFields.FailuresStand` | internal/utils/grpc.go:122-136 | the error is that of the first failing part, however the path goes on |
| `NestedFields.PanicsIffRepeated` | internal/utils/grpc.go:133-138 | the panic happens exactly when a proper beginning of the path leads to a list of messages or any map |
| `Vesting.CalculateLockedTokens` | internal/metrics/collectors/locked_tokens.go:154-190 | fails exactly on a length, or an amount of the denom, that does not parse, unlocked or not; otherwise the locked amount |
| `Vesting.PaidOfConcat` | internal/metrics/collectors/locked_tokens.go:170-186 | what a period pays is the sum over its amounts |
| `Vesting.PaidOfOne` | internal/metrics/collectors/locked_tokens.go:171-173 | an amount in the denom counts in full, another not at all, whether it parses or not |
| `Vesting.LockedOfOne` | internal/metrics/collectors/locked_tokens.go:168-185 | one period's pay is locked until its length has passed since the start |
| `Vesting.LockedIsSuffixSum` | internal/metrics/collectors/locked_tokens.go:162-187 | without overflow the full scan equals dropping the unlocked prefix and adding up the rest |
| `Vesting.LockedPlusUnlocked` | internal/metrics/collectors/locked_tokens.go:162-187 | locked and unlocked add up to the total of the denom |
| `Vesting.LockedIsPartOfTotal` | internal/metrics/collectors/locked_tokens.go:182-185 | between 0 and the total; 0 once the last unlock time is reached; the total before the start |
| `Vesting.LockedNeverGrows` | internal/metrics/collectors/locked_tokens.go:182-185 | never increases with the current time, whatever the lengths and with wrap-around included, as long as no amount is negative |
| `Vesting.LockedSplits` | internal/metrics/collectors/locked_tokens.go:162-187 | splits over concatenated schedules, the second starting when the first ends, wrap-around included |
| `Vesting.LockedIsTrueIff` | internal/metrics/collectors/locked_tokens.go:160-187 | compared with unbounded unlock times the amount is never too large, and equal if and only if no period that pays has its unlock time wrapped to a time not after the current one |
| `Vesting.OneWrapUnlocks` | internal/metrics/collectors/locked_tokens.go:160-187 | while times wrap once at most: equal if and only if no period that pays unlocks past the 64-bit range |
| `Vesting.OverflowUnlocks` | internal/metrics/collectors/locked_tokens.go:168-185 | the condition can fail, with one period |
| `Store.PostgresOutputHandler.GetLatestBlock` | internal/output/postgresql/postgresql.go:55-70 | the highest stored height, none exactly on an empty table |
| `Store.PostgresOutputHandler.GetEarliestBlock` | internal/output/postgresql/postgresql.go:72-87 | the lowest stored height, none exactly on an empty table |
| `Store.PostgresOutputHandler.GetMissingBlockIds` | internal/output/postgresql/postgresql.go:89-114 | only gaps between the lowest and highest height; all of them if and only if the row stream was not cut short; fails exactly on the query or a scan |
| `Store.PostgresOutputHandler.QueryGaps` | internal/output/postgresql/postgresql.go:91-97 | each gap once |
| `Store.PostgresOutputHandler.WriteBlockWithTransactions` | internal/output/postgresql/postgresql.go:116-149 | all or nothing: after an error the rows are there exactly if the commit's acknowledgement was lost; succeeds exactly if every statement does |
| `Store.UpsertKeys` | internal/output/postgresql/postgresql.go:133-141 | upserts keep every row's key and add exactly the records' keys |
| `Store.WrittenRows` | internal/output/postgresql/postgresql.go:124-141 | a committed write replaces the block's row; of the records with the same hash the last gives the row; all other rows stay |
| `Transactions.ExtractTransactions` | internal/extractor/transaction.go:15-82 | fails exactly on an entry that does not decode; otherwise one record per string entry, in order, under its hash, holding the details or the error's description that its own call gave; the calls made are exactly those |
| `Transactions.FetchedInOrder` | internal/extractor/transaction.go:48-79 | the details of each entry are asked for when the call for the one before has been answered |
| `Transactions.RecordsAreFetched` | internal/extractor/transaction.go:36-79 | each record is under the hash of its own entry and holds the text of the first call for that hash that succeeds, or else the description of the last error; the calls for one record begin where those for the one before end |
| `Transactions.TxListAtPath` | internal/extractor/transaction.go:16-29 | the list is what stands at block.data.txs, if that is a list, and empty otherwise |
| `Transactions.StringEntriesOfConcat` | internal/extractor/transaction.go:31-35 | its strings, in order, and nothing else |
| `WorkerPool.StepKeepsInv` | internal/extractor/block.go:81-130 | every step keeps the invariant on heights, tokens, stored heights, errors and cancellation |
| `WorkerPool.DispatchedExactlyOnce` | internal/extractor/block.go:85-129 | in every reachable state the dispatched heights are exactly those below the next one, each once; token holders never exceed the limit; a nil return means the whole range is stored and no worker is left |
| `WorkerPool.FailureHasCause` | internal/extractor/block.go:86-89 | an error is returned only if the caller cancelled or a worker failed |
| `WorkerPool.ReturnsWhen` | internal/extractor/block.go:86-129 | the call returns at the loop head, with an error, only if cancelled; otherwise when all workers are reported, and then with an error if and only if one of them failed, cancelled or not |
| `WorkerPool.NeverStuck` | internal/extractor/block.go:92-126 | with at least one token, a call that has not returned can always take a step of its own |
| `WorkerPool.StepDecreasesMeasure` | internal/extractor/block.go:85-129 | each step lowers a measure over undispatched heights, unfinished workers and the dispatcher's place |
| `WorkerPool.RunsAreBounded` | internal/extractor/block.go:85-129 | so no schedule is longer than the measure of its first state |
| `WorkerPool.LastHeightNeverFinishes` | internal/extractor/block.go:85 | a range ending at 2^64-1 never gets past its loop without an error |
| `WorkerPool.NoTokensNoProgress` | internal/extractor/block.go:83-92 | with no tokens nothing is ever dispatched and only a cancellation is possible, which changes nothing |
| `WorkerPool.ConcurrencyIff` | internal/extractor/block.go:83-98 | a state with so many workers at work at once can be reached if and only if there are as many tokens and as many heights |
| `WorkerPool.AnyOrderOfCommits` | internal/extractor/block.go:98-125 | workers at work can commit in any order |
| `Refinement.SuccessIsSequential` | internal/extractor/block.go:81-130 | any schedule that returns nil leaves the two tables that processing start..stop in order leaves |
| `Refinement.RunIsOverlay` | internal/output/postgresql/postgresql.go:124-141 | in every reachable state, of failing runs too, the tables are the stored heights' rows laid over the old ones, in no order |
| `Refinement.SequentialIsOverlay` | internal/extractor/block.go:85-129 | so is processing in order: upserts commute |
| `Refinement.RerunChangesNothing` | internal/output/postgresql/postgresql.go:124-141 | running a range again under any schedule changes neither table |
| `Refinement.WriteKeepsWhole` | internal/extractor/block.go:159-168 | after a write every stored block still has a row for each string entry of its list |
| `Refinement.RunKeepsWhole` | internal/extractor/block.go:81-130 | the same in every state reachable through interleavings, failures, lost acknowledgements and cancellations |
| `Refinement.SuccessIffStopIsNotLast` | internal/extractor/block.go:85 | a nil return is possible if and only if the range stops short of the last 64-bit height |
| `Refinement.LeftOverIffLoopHeadExit` | internal/extractor/block.go:86-89 | a return leaves workers over if and only if it is the exit at the loop head, in a cancelled state, with some worker unreported |
| `Refinement.ReturnsAfterFailure` | internal/extractor/block.go:86-112 | with no cancellation, and one token or more: the first worker fails and the second is left running |
| `Refinement.EarlyReturnLeavesWorkersIff` | internal/extractor/block.go:85-129 | the call can return before a worker's commit if and only if there is a token and a second height; by workers' errors alone, a token and a third |
| `Recovery.SuccessRestoresContiguity` | internal/extractor/extractor.go:19-48 | after any number of automatic runs, batch or live, each failing with any subset of its blocks committed, a run that succeeds leaves exactly the heights from the unchanged minimum to the highest it aimed at, if and only if it was told of all gaps |
| `Recovery.HistoryKeepsMin` | internal/extractor/extractor.go:75-105 | no automatic run changes the lowest stored height |
| `Recovery.GapsWaitForNewHeights` | internal/extractor/extractor.go:101-103 | however many automatic runs are made while the node reports nothing above what is stored: all fail, and every gap is still there after the last |
| `Recovery.FirstBlockDecides` | internal/extractor/block.go:63-78 | the intended first height is ever reached if and only if the first run stored that very block |
| `Runs.RestartStep` | internal/extractor/extractor.go:19-48 | one more process after failures extends the history of processes |
| `Runs.RestartsAreHistory` | internal/extractor/extractor.go:19-48 | processes that took place one after the other, with neither start nor stop configured, are a history of the recovery theorems |
| `Runs.FirstSuccessRestores` | internal/extractor/extractor.go:19-48 | the first success after failures leaves exactly the heights from the unchanged minimum to the highest it aimed at, if and only if the database did not cut its gap query short |
| `Extraction.Extractor.ProcessSingleBlockWithRetry` | internal/extractor/block.go:134-171 | makes a statement exactly if the block can be fetched, parsed and decoded, and succeeds exactly if it makes one and the last is fine; writes that block as the node gave it at those calls, or nothing; against a settled node, the chain's rows |
| `Environment.StorableIff` | internal/extractor/block.go:134-159 | a height can be stored if and only if the node gives a text for it within the retries, and the first it gives is an object or null whose listed strings all decode |
| `Environment.WriteIsGiven` | internal/extractor/block.go:134-166 | what is written is that text under that height, with a record for each listed string, fetched after it |
| `Extraction.Extractor.ProcessMissingBlocks` | internal/extractor/block.go:63-78 | touches only gaps; without error fills all of them, if and only if the query was not cut short; errs only for a failed statement or a gap that cannot be stored |
| `Extraction.Extractor.FillAll` | internal/extractor/block.go:71-75 | stores the listed heights in order; without error all of them; with one it stopped at the height that caused it, with everything listed before stored and nothing listed after |
| `Extraction.Extractor.ProcessBlocks` | internal/extractor/block.go:81-130 | the range is logged as dispatched; ends; follows a schedule of the pool, which is cancelled from the first look on that finds the context done, and returns nil as it does; then all of start..stop is stored, with a settled node as by sequential processing; otherwise only heights of the range can have been added, and the context was done, a statement failed, or a block of the range could not be stored |
| `Extraction.Extractor.LeaveBehind` | internal/extractor/block.go:86-89 | workers left by an early return may commit any of their heights later, whole blocks within the range |
| `Extraction.Extractor.SetStart` | internal/extractor/extractor.go:56-91 | start is the configured one, the height after the highest stored, the lowest stored when re-indexing, or the node's earliest; fails only for a statement, or on an empty store for want of an earliest height |
| `Extraction.Extractor.SetBlockRange` | internal/extractor/extractor.go:55-106 | 1 <= start <= stop on success; stop is the configured one or what the node reported at a known call; fails only if no start or no report can be had, or start > stop; with both configured exactly if start > stop |
| `Extraction.Extractor.ExtractLive` | internal/extractor/live.go:13-38 | for any reported heights, including regressions: current is the highest report so far; the ranges handed to the worker pool end at reports, partition start..current and are stored; at most one more follows, the one that failed, up to the report then aimed at, and nothing beyond it is stored; each poll comes after a look of its own at the context that found it not done; ends only after all polls, when its last look found the context done, or because a report or a height up to one failed |
| `Extraction.Extractor.LiveTurn` | internal/extractor/live.go:20-33 | one poll, after a look at the context, added to what is known of the run: the dispatched ranges grow by what the report asks for, and keep partitioning what is processed |
| `Extraction.Extractor.Poll` | internal/extractor/live.go:20-33 | one turn: afterwards current is the maximum of itself and the height the node reports, caught up with in full by one dispatched range; on error nothing counts as processed, and the report or a height up to it failed |
| `Runs.PartitionIsExact` | internal/extractor/live.go:26-32 | each height from start to current lies in exactly one range of a partition, and no other height does; on success this is the list of ranges that a process dispatched |
| `Runs.LiveStep` | internal/extractor/live.go:26-32 | a report extends the ranges up to the highest report and keeps all that is said of them; the ranges are the dispatched ones in `ExtractLive` |
| `Extraction.Extractor.StoreRange` | internal/extractor/extractor.go:33-45 | a batch run stores start..stop, a live run start..current with current the highest report, in dispatched ranges that partition it; errors as for each |
| `Extraction.Extractor.RunRange` | internal/extractor/extractor.go:27-45 | gap filling, in every mode but re-indexing and with both ends configured, adds only gaps, and all of them unless the query was cut short; the range adds only heights of the range; success means all of it; an error comes from one or the other |
| `Runs.RunIsAccounted` | internal/extractor/extractor.go:19-48 | what the stages did, in every mode and on failure too: only gaps and heights of the range were added; with neither start nor stop configured, live or not, on a non-empty store it is an automatic run of the recovery theorems; a first run leaves heights from the node's earliest on, on success an interval |
| `Runs.ChosenThenDone` | internal/extractor/extractor.go:19-48 | success in all stages is success of the process, and an error in one has its cause in the process |
| `Runs.NothingNewMeansNoRange` | internal/extractor/extractor.go:75-103 | with nothing configured and nothing reported above what is stored, no range can be chosen |
| `Extraction.Extractor.Extract` | internal/extractor/extractor.go:19-48 | one process, in every mode: on success all of the range it chose is stored, up to stop or up to the highest report, dispatched in ranges that partition it, and every gap is filled, if start or stop is left open and the gap query was not cut short; an error has its cause in the world; failing or not it adds only gaps and heights of its range, when re-indexing or with both ends configured the latter only; an automatic one, live or batch, is an automatic run; if nothing new is reported it fails with the tables unchanged and the gap query never made; every stored block keeps its transaction rows |
| `Extraction.Extractor.StartOnce` | internal/extractor/extractor.go:19-48 | a process as the history records it: it took place between the two states of the world and made a statement |
| `Extraction.Extractor.Restart` | internal/extractor/extractor.go:19-48 | processes, live or batch, started again after each failure: each took place, where the one before ended, and every failed one has its cause; the first success leaves exactly the heights from the unchanged minimum to the highest it aimed at, if and only if the database did not cut its gap query short |

## Left out

- gRPC dialling, streams, deadlines, keepalive, protobuf encoding, `protodesc` and `dynamicpb`: answers are functions of the call number, and a predicate `accepts` stands for everything the library checks beyond imports and paths. A refusal is one of the causes for which start-up and the resolver can fail.
- Registry.Files.NewFile: does not model name conflicts between symbols of different files, because they are the library's; they are among the refusals.
- Descriptors.PatchABCIDescriptor: only top-level messages and their fields are represented, which is what the code walks over.
- PostgreSQL, pools and migrations: only the effect of the four operations on the two raw tables. The gap query states no order, and the model promises none.
- SHA-256, hexadecimal, base64 and JSON: functions `parse`, `decode`, `digest` and `errorText` about which nothing is assumed.
- A retry limit of 2^64-1, with which the loop counter would wrap, is excluded by a precondition. So are a stored height of 2^64-1 and a node that reports it.
- Extraction.Extractor.Restart: is not a function of the program, which is started again from outside; it states what such restarts amount to.
- Extraction.Extractor.ExtractLive: does not model the endless loop or its sleep; it holds for any finite number of polls.
- Extraction.Extractor.ProcessBlocks: a worker's requests happen in one piece where it ends; only commits, tokens, error reports and cancellation interleave. Answers of the node are arbitrary, so no order of requests is lost except their numbering.
- Extraction.Extractor.LeaveBehind: workers of an early return are run to their end, or dropped, before the caller goes on.
- A process that is killed: as a run it is one of the failing runs of `Recovery`, which may have committed any subset; the state it leaves is one of the reachable states of `Refinement.RunKeepsWhole`.
- ResolverInterleaving.RunIsSafe: the read-locked lookups and the `seenSymbols` map are not among the interleaved steps; a goroutine starts with the files its symbol's request returned. At most one request per symbol is not promised under concurrency, since the check and the mark use separate locks.
- Resolver.CustomResolver.FindMessageByName: does not distinguish the two kinds of missing descriptor in `createMessageType`, because a nil descriptor without an error cannot occur.
- NestedFields.GetNestedField: group-encoded fields count as fields that are not messages, as the code's test of the kind has it.
- Vesting.CalculateLockedTokens: lengths and amounts arrive parsed, or as not parsable. The queries and the summation in `Collect` are left out: a plain sum over rows whose meaning lies in SQL functions outside the repository.
- `ParseMethodFullName`, `BuildFullMethodName`, `FindMethodDescriptor` and `ExtractConfig.Validate`: one reading settles them; the outcome of looking up a method is a parameter.
- Progress bar, logging, commands, signals, the metrics server and the other collectors.
- Real time: only ghost counters of time slept.
