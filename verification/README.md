# TempestMiku: models and proofs of its core protocols

This project models, in Dafny, the parts of TempestMiku that decide whether an outside effect happens,
what a script reads and writes, what a session may store, and what a model is shown; and it proves what
those parts are there to guarantee.

**Egress (`tm-egress`).** `EgressPolicy` validates a configuration and authorizes a URL. `EgressRuntime`
replaces and revokes policy and hands out secret handles. `EgressBudget` is the book of reservations,
`EgressLedger` its conservation laws and caps. `EgressPrepare` takes the snapshot a mutation is approved
on; `EgressEffects` is the store of effect records. `EgressProtocol` is the step relation of any number of
callers that prepare, seek approval, prepare again, claim, send hops, persist, replay, race and crash while
an operator changes policy; `EgressSafety` holds its invariants, `EgressTheorems` what follows for every
behavior, `EgressApproval` that nothing is done unapproved, `EgressHonesty` that records say what their
claimant saw, and `EgressReplay` what the callers that lose the race get. `EgressHops` and `EgressExecution`
are the redirect loop and the execution of a claimed mutation as code.

**Language (`tm-lang`).** `LangSyntax`, `LangBindings`, `LangScopes` and `LangAnalyzer` are the binding
analysis and the recursive meaning it computes. `LangValue` and `LangEquality` are values, their JSON forms
and the iterative, node-bounded equality. `LangTokens` says what text each token stands for, and `LangLexer`
is the bounded lexer.

**Artifacts (`tm-artifacts`).** `ArtifactMeta`, `ArtifactCodec`, `ArtifactQuota`, `ArtifactStore`, `ArtifactHandles`
and `ArtifactRuns` are the metadata files, how they read back, the scanners, the writers, the handles and every
run of them. `ArtifactPaging` and `ArtifactText` are the pager. `Encoding` is the text encoding both crates measure
by.

**Agent loop and supervision.** `AgentFence`, `AgentConversation` and `Supervision`.

Code that updates things in place is modelled by classes and loops proved against functions of the old
state; the properties are then proved about those functions, over all inputs and all runs. A clock, a
network, a file system's listing order, a buffer's size, random tokens and other callers' interference are
parameters or choices left open, so the properties hold for every one of them.

Five expectations do not hold of the code as it is. Each has a witness and the exact condition beside it:

- A caller that finds an effect already begun is not always given a replay. If the executor's own ending
  lands between the claim and the interruption, it gets an error although the effect may have succeeded
  (`ReplayCanBeRefused`, `SomeReplayIsRefused`). In every behavior it gets the replay exactly when the record
  is still open or already interrupted (`InterruptReplaysIff`).
- `settle` does not clamp response bytes, so the book alone does not keep the response caps
  (`OverSettlementBreaksCap`). A settlement keeps them exactly when its bytes fit under the session's and the
  destination's (`SettleKeepsCapsIff`). The streaming limit of a hop sees to that: any interleaving of the
  calls of any runs under one policy keeps every cap (`HopsKeepCaps`, `RunKeepsCaps`).
- A session cap at the u64 maximum is not kept either, because the check saturates (`MaxCapBreaks`). A
  reservation keeps every cap, and the counters exact, exactly when it fits the u64 range
  (`ReserveKeepsCapsIff`), which any lower cap ensures.
- A page of an artifact can exceed its byte cap by its separators (`SeparatorsExceedCap`): exactly when some
  line that it gets to has lines before it that already fill the cap (`PageWithinCapIff`). It never exceeds
  the cap by more than the separators (`ContentWithinCap`).
- The policy generation can miss a replacement (`GenerationCanMiss`), exactly when it has saturated
  (`GenerationMissesReplacementIff`), which is why approval binding is stated below the maximum.

## Model

| member | source | states |
|---|---|---|
| `EgressBudget.BudgetBook.ReserveBudget` | crates/tm-egress/src/budget.rs:27-93 | the book after a reservation, and its answer, by the pure step that the laws below are about: accepted, repeated, collided or refused by the session or the destination caps |
| `EgressBudget.BudgetBook.SettleBudget` | crates/tm-egress/src/budget.rs:95-146 | the same for a settlement, with each of its refusals |
| `EgressBudget.BudgetBook.ClearSession` | crates/tm-egress/src/budget.rs:148-154 | exactly the one session is forgotten |
| `EgressLedger.ReserveSoundIff` | crates/tm-egress/src/budget.rs:60-92 | an accepted reservation keeps total, destinations and records in balance, in all six counters, if and only if it fits the u64 range |
| `EgressLedger.SettleSoundIff` | crates/tm-egress/src/budget.rs:124-145 | a settlement keeps the balance if and only if its bytes fit the u64 range |
| `EgressLedger.Conservation` | crates/tm-egress/src/budget.rs:27-181 | after every run of reserves, settles and clears each session total is the sum of its destinations and the fold of its records, and nothing ever saturated |
| `EgressLedger.CapsHold` | crates/tm-egress/src/state.rs:95-125 | after every run under fixed limits, with session caps below the u64 maximum and no settlement above its reservation, used plus reserved is within every cap of every session and destination; hops meet the premise (see `HopsKeepCaps`) |
| `EgressLedger.SettleKeepsCapsIff` | crates/tm-egress/src/budget.rs:124-181 | a settlement keeps every cap of the session and its destinations, and the counters exact, if and only if its bytes fit under the session response cap and under that of its destination, beside all else used and reserved |
| `EgressLedger.ReserveKeepsCapsIff` | crates/tm-egress/src/budget.rs:60-92 | an accepted reservation keeps every cap and the counters exact if and only if it fits the u64 range |
| `EgressLedger.MaxCapBreaks` | crates/tm-egress/src/state.rs:95-125 | a run, with every settlement within its reservation, that passes a cap at the u64 maximum |
| `EgressLedger.OverSettlementBreaksCap` | crates/tm-egress/src/budget.rs:168-181 | a run that breaks the response cap by settling more than was reserved |
| `EgressLedger.ReserveAcceptsIffFits` | crates/tm-egress/src/state.rs:95-125 | a first request is accepted if and only if it fits both sets of caps in unbounded arithmetic, although the code saturates |
| `EgressLedger.RecordsStayFiled` | crates/tm-egress/src/budget.rs:82-91 | every record of every run is filed under its own session with a destination usage beside it |
| `EgressLedger.NeverHalfSettled` | crates/tm-egress/src/budget.rs:131-134 | no run reaches the path that has updated the session total and then misses the destination |
| `EgressLedger.RecordPersists` | crates/tm-egress/src/budget.rs:95-154 | a record outlives everything but a clear of its session, and never changes once settled |
| `EgressLedger.ReserveRepeats` | crates/tm-egress/src/budget.rs:30-42 | repeating an accepted reservation after any later calls answers the same and changes nothing |
| `EgressLedger.RepeatsIff` | crates/tm-egress/src/budget.rs:30-42 | a reservation id is answered again, and nothing changes, if and only if the request is the same in all its parts; another is a collision |
| `EgressLedger.SettleRepeats` | crates/tm-egress/src/budget.rs:116-123 | repeating a successful settlement after any later calls succeeds and changes nothing |
| `EgressPolicy.ValidateConfig` | crates/tm-egress/src/policy.rs:42-236 | succeeds if and only if the configuration is acceptable, and then yields a policy whose redirect edges, ids, versions and limits are those asked for, iterated in ascending order of ids |
| `EgressPolicy.CheckRedirects` | crates/tm-egress/src/policy.rs:165-174 | passes exactly when every redirect edge leads to a configured destination |
| `EgressPolicy.Authorize` | crates/tm-egress/src/policy.rs:239-281 | of the configured destinations that serve this origin, method and path, the one with the lowest id |
| `EgressPolicy.PrefixCoversSubtree` | crates/tm-egress/src/policy.rs:436-444 | a prefix admits exactly the paths of its subtree: those whose segments begin with its own, or that continue it if it ends in a slash |
| `EgressPolicy.AuthorizeIff` | crates/tm-egress/src/policy.rs:239-281 | a URL is granted to a destination if and only if it is well shaped and that destination is the lowest that serves it, its path in the subtree of a configured prefix; it is granted at all if and only if some destination serves it |
| `EgressPolicy.NormalizedIgnoresCase` | crates/tm-egress/src/policy.rs:42-163 | a normalized entry serves a request, and allows a header, if and only if the entry as configured does, whatever the case of hosts, methods and header names |
| `EgressPolicy.GrantsAsConfigured` | crates/tm-egress/src/policy.rs:42-281 | an accepted configuration grants a request if and only if it is enabled, the URL is well shaped and one of its entries, as configured, serves it |
| `EgressRuntime.Runtime.ReplacePolicy` | crates/tm-egress/src/runtime.rs:238-266 | succeeds exactly on acceptable configurations; revocations that the new policy keeps survive, others lapse; a failure changes nothing |
| `EgressRuntime.Runtime.RevokeOneDestination` | crates/tm-egress/src/runtime.rs:268-281 | the current version of a known destination becomes revoked, as one step of the runs below |
| `EgressRuntime.Runtime.RevokeOneSecret` | crates/tm-egress/src/runtime.rs:283-296 | the current version of a known secret becomes revoked, as one step of the runs below |
| `EgressRuntime.Runtime.IssueSecretHandle` | crates/tm-egress/src/runtime.rs:302-371 | a handle is given if and only if the session is identified and granted, the policy enabled, the secret known and unrevoked, and a live handle serves or there is room under both limits; else the error says which; a live handle for the same use is given again |
| `EgressRuntime.Runtime.ClearHandles` | crates/tm-egress/src/runtime.rs:933-944 | a session's handles are gone and no others |
| `EgressRuntime.HandlesStayBounded` | crates/tm-egress/src/runtime.rs:302-371 | in every broker state of every run: one live handle per session, actor, secret and version, 64 per session, 4096 in all |
| `EgressRuntime.RevokedDestinationStaysRefused` | crates/tm-egress/src/runtime.rs:1459-1475 | a revoked destination version stays refused through every run whose replacements keep it |
| `EgressRuntime.RevokedSecretStaysRefused` | crates/tm-egress/src/runtime.rs:302-321 | a revoked secret version stays revoked through every run whose replacements keep it, and a caller whose snapshot is of the end of such a run is issued no handle for it |
| `EgressPrepare.HandlesWereIssued` | crates/tm-egress/src/runtime.rs:302-371 | over every run, every handle held is one that was issued, with the session, actor, secret, version and expiry of that issue |
| `EgressPrepare.ResolvesForItsOwner` | crates/tm-egress/src/runtime.rs:1231-1267 | over every run, a handle resolves only for the session and actor it was issued to, before it expires, with their grant for the secret, to a destination of the secret's, at the version issued and unrevoked |
| `EgressPrepare.SweepingChangesNothing` | crates/tm-egress/src/runtime.rs:1231-1267 | sweeping removes exactly the expired handles, and no handle resolves differently for it |
| `EgressPrepare.RevokedSecretNeverResolves` | crates/tm-egress/src/runtime.rs:1231-1267 | no handle, held from before or issued meanwhile from an older snapshot, resolves to a revoked secret version under the state at the end of a run whose replacements keep it, and no mutation is prepared with it |
| `EgressPrepare.HeadersIff` | crates/tm-egress/src/policy.rs:284-328 | headers pass if and only if they are at most 32 and 16 KiB, allowlisted, no credential or hop-by-hop header, and without line breaks |
| `EgressRuntime.ReplacementLiftsIff` | crates/tm-egress/src/runtime.rs:238-266 | over any run that does not revoke it again, the revocation of a destination or secret version is lifted if and only if some replacement drops or re-versions it |
| `EgressRuntime.StaleHandlesGo` | crates/tm-egress/src/runtime.rs:250-264 | a replacement leaves exactly the handles that are live and whose secret the new policy keeps at their version |
| `EgressRuntime.GenerationCountsReplacements` | crates/tm-egress/src/runtime.rs:238-266 | the generation is the number of replacements, up to saturation |
| `EgressPrepare.CanonicalKeepsBytes` | crates/tm-egress/src/runtime.rs:1354-1386 | canonical headers take as many bytes as the caller's |
| `EgressPrepare.EffectIdFixesIntent` | crates/tm-egress/src/runtime.rs:486-531 | the effect id fixes the whole intent, the byte count and session included |
| `EgressPrepare.SameEffectIff` | crates/tm-egress/src/runtime.rs:415-531 | two callers contend for one effect if and only if they have the same scope, session and actor and ask for the same method, URL, headers, body, timeout, secret and destination entry; names in headers and methods whatever their case, no actor being the actor `root`, no body an empty one |
| `EgressPrepare.EqualSnapshotsSameTarget` | crates/tm-egress/src/runtime.rs:124-136 | snapshots that compare equal hold the identical destination entry, and the second has it and its secret unrevoked |
| `EgressEffects.EffectStore.BeginMutation` | crates/tm-egress/src/state.rs:187-206 | a claim is created exactly for an id without a record; a different intent under the id collides |
| `EgressEffects.EffectStore.FinishMutation` | crates/tm-egress/src/state.rs:208-244 | an open record takes the requested ending, a terminal record never changes, whatever the answer |
| `EgressTheorems.InvHolds` | crates/tm-egress/src/host.rs:88-129 | the protocol invariant holds in every world of every behavior of any number of callers and an operator |
| `EgressTheorems.AtMostOnce` | crates/tm-egress/src/runtime.rs:486-547 | in every behavior each effect is claimed at most once, all its hops belong to the claimant, and they are at most one, or six when redirects are followed |
| `EgressTheorems.RecordsFinal` | crates/tm-egress/src/state.rs:208-244 | a terminal record is the same in every later world |
| `EgressHonesty.EndingIsHonest` | crates/tm-egress/src/runtime.rs:723-733 | the record an outcome is closed with says success for a status below 400, failure for another or for a certain error, and uncertain for a doubtful error, each with the bytes seen |
| `EgressHonesty.EndingsTellOutcomes` | crates/tm-egress/src/runtime.rs:674-751 | two outcomes close a record alike if and only if they are the same response, in all its parts, or errors of one kind |
| `EgressHonesty.EndingsAreHonest` | crates/tm-egress/src/runtime.rs:674-751 | in every behavior a record says Succeeded only if its one claimant saw a status below 400, with the bytes it saw; Failed only if the claimant saw a status of 400 or more or failed with an error that leaves no doubt; Uncertain only if it was interrupted or the claimant failed in transport, by timeout, in the audit or in the store |
| `EgressHonesty.OutcomesAreRecorded` | crates/tm-egress/src/runtime.rs:674-751 | conversely, a closed record nobody interrupted says what its claimant's one outcome tells, case by case |
| `EgressTheorems.ReturnedIsTerminal` | crates/tm-egress/src/runtime.rs:549-751 | whenever an execution has returned, on any path, its record is terminal |
| `EgressTheorems.OthersOnlyInterrupt` | crates/tm-egress/src/runtime.rs:532-545 | anyone but the claimant changes a record only from Started to the interruption |
| `EgressTheorems.LaterClaimsReplay` | crates/tm-egress/src/runtime.rs:513-547 | claiming an effect that has a record never executes and never collides: it replays or interrupts |
| `EgressReplay.InterruptReplaysIff` | crates/tm-egress/src/runtime.rs:532-545 | in every behavior an interrupting caller finds a record and returns it interrupted if and only if it is open or already interrupted, else an error |
| `EgressReplay.ReplayCanBeRefused` | crates/tm-egress/src/runtime.rs:513-547 | for every mutation that can be prepared and every response, a behavior of two callers in which the effect ends with that response and the one that interrupts too late gets the error |
| `EgressReplay.SomeReplayIsRefused` | crates/tm-egress/src/runtime.rs:513-547 | a policy, caller and request for which there is such a behavior, with a success on record |
| `EgressTheorems.ApprovalBinds` | crates/tm-egress/src/host.rs:94-110 | a claimant's two snapshots compare equal; below the maximal generation no replacement came between them and both hold the same policy, and nothing it uses was revoked at the second |
| `EgressApproval.NothingUnapproved` | crates/tm-egress/src/host.rs:94-110 | in every behavior, before a caller claims, sends or sees anything it was approved, on the snapshot it took first, and it read the policy again only after that |
| `EgressTheorems.HopsGoWhereApproved` | crates/tm-egress/src/runtime.rs:415-484 | in every behavior every hop sent, redirects included, goes to the destination entry that its caller's approved snapshot and its later one both hold, and the first to the URL both name; its caller is an identified session with the exact grant, and its headers are allowed there |
| `EgressTheorems.GenerationMissesReplacementIff` | crates/tm-egress/src/runtime.rs:238-266 | two moments of a run have the same generation if and only if no policy was replaced between them or the generation had saturated; in the first case they have the same policy |
| `EgressTheorems.GenerationCanMiss` | crates/tm-egress/src/runtime.rs:238-266 | a run from generation 1, of as many replacements as it can count and one more, after which another policy is active under the same generation |
| `EgressHops.StreamBody` | crates/tm-egress/src/runtime.rs:1121-1130 | a streamed body is accepted if and only if all its chunks together are within the cap, and then is counted exactly |
| `EgressHops.PerformHop` | crates/tm-egress/src/runtime.rs:1066-1150 | what each reply yields; a final response never has more bytes than the destination allows |
| `EgressHops.OneHop` | crates/tm-egress/src/runtime.rs:959-1062 | a hop stops with the error of the check it fails or of the book that refuses it, and then has reserved nothing; or is reserved, performed and settled by exactly two calls of the book, and answers the book's error if settling fails and else what its reply yields, whatever others do to the book before and during it |
| `EgressHops.NextHopIff` | crates/tm-egress/src/runtime.rs:999-1029 | a redirect is followed if and only if the method is GET or HEAD, the cap is not reached, the policy grants the URL to the destination, and that is in scope and the same or on a redirect edge |
| `EgressHops.ExecuteHops` | crates/tm-egress/src/runtime.rs:946-1064 | the book and the result after a run: every hop is granted its URL and method, unrevoked and joined by redirect edges in one snapshot, and goes where the reply before it led; every reservation made is settled once unless the session is cleared; the run ends with the book's error at the first failed settlement, or else with its last reply or at a hop that may not be made; at most the redirect cap plus one hops, at most six, one for other methods |
| `EgressHops.RunBounds` | crates/tm-egress/src/runtime.rs:955-1064 | a run starts at the authorized destination; a result counts the redirects and has the status, content and bytes of the last hop's reply |
| `EgressHops.HopsKeepCaps` | crates/tm-egress/src/runtime.rs:1423-1457 | after any interleaving of reservations and settlements of hops under one policy, and of clears, every session is within each configured session limit and, per destination, within each of that destination's, and the counters are exact |
| `EgressHops.RunKeepsCaps` | crates/tm-egress/src/runtime.rs:946-1064 | so every run leaves the book within every configured limit, its refused reservation included, whatever runs under the policy went before and beside it |
| `EgressExecution.FinishWith` | crates/tm-egress/src/runtime.rs:674-751 | finishing leaves the record terminal whoever ended it, and answers whether the ending is one's own, which then is honest about the outcome |
| `EgressExecution.ExecutePreparedMutation` | crates/tm-egress/src/runtime.rs:549-751 | the store, the book and the answer on every path, whatever others begin, end or interrupt meanwhile: hops start at the prepared destination and never leave its entry; a response below 400 is recorded as success with its bytes, another as failure, an error as failure or, if the request may have taken effect, as uncertain; the answer is that outcome, or the failed audit; an interrupted record stays interrupted and the answer is an error; no other record is touched |
| `LangScopes.ScopedBoundSet.BeginScope` | crates/tm-lang/src/batch.rs:54-58 | the checkpoint is the length of the log |
| `LangScopes.ScopedBoundSet.RollbackScope` | crates/tm-lang/src/batch.rs:60-66 | exactly the logged names are taken back, whether or not the pop inside the assertion is compiled in |
| `LangScopes.ScopedBoundSet.Insert` | crates/tm-lang/src/batch.rs:68-72 | a name is added, and logged when it is new and a scope has been opened |
| `LangScopes.ScopedBoundSet.BindPattern` | crates/tm-lang/src/batch.rs:333-350 | the worklist adds the names the pattern binds by recursion, all of them logged |
| `LangScopes.RecordPatternNames` | crates/tm-lang/src/batch.rs:352-371 | the same names, added to the writes |
| `LangAnalyzer.Analyzer.Expr` | crates/tm-lang/src/batch.rs:154-167 | succeeds if and only if the expression's demand fits what is left of bytes, tokens, fragment width and nesting; adds exactly its free names that are not bound; restores names, log, scopes and depth on success and on error |
| `LangAnalyzer.Analyzer.Inside` | crates/tm-lang/src/batch.rs:169-245 | the same for each kind of expression |
| `LangAnalyzer.Analyzer.Form` | crates/tm-lang/src/batch.rs:126-152 | the same for a form, which leaves its own names bound and, at top level, written |
| `LangAnalyzer.Analyzer.Scoped` | crates/tm-lang/src/batch.rs:112-117 | a body analysed in a scope of its own leaves the outer names as they were |
| `LangAnalyzer.Analyzer.Cell` | crates/tm-lang/src/batch.rs:119-124 | under initial names B the reads are the free names minus B, and the writes the names the forms bind |
| `LangAnalyzer.Analyzer.Interpolations` | crates/tm-lang/src/batch.rs:247-297 | the scanning loop finds the names and fragments of the literal and no others |
| `LangAnalyzer.Analyzer.FindClose` | crates/tm-lang/src/batch.rs:261-276 | the brace loop ends where the recursive definition does |
| `LangAnalyzer.Analyzer.InterpolationExpression` | crates/tm-lang/src/batch.rs:299-330 | a fragment is analysed exactly when it fits; budgets pay its exact bytes and tokens and never underflow |
| `LangAnalyzer.BindingUsage` | crates/tm-lang/src/batch.rs:34-44 | succeeds if and only if the cell parses within the limits and its demand fits, with fragments of at most the source limit in bytes and twice it in tokens; reports exactly its free names and the names its top-level forms bind |
| `LangAnalyzer.ParsesIff` | crates/tm-lang/src/batch.rs:34-44 | a cell parses within the limits if and only if its UTF-8 bytes, tokens and nesting are within them and it parses |
| `LangBindings.CloseMatches` | crates/tm-lang/src/batch.rs:261-276 | the closing brace found is the first position where the nesting would fall to zero |
| `LangBindings.BackslashesPair` | crates/tm-lang/src/batch.rs:250-254 | backslashes stand for themselves in pairs, and a mark after an odd number of them interpolates nothing |
| `LangBindings.NoMarkNoParts` | crates/tm-lang/src/batch.rs:247-258 | text without a mark interpolates nothing |
| `LangBindings.EnoughLevels` | crates/tm-lang/src/batch.rs:34-44 | the nesting limit decides the same, with the same free names, as any number of levels that reads the cell whole |
| `LangEquality.EqualBounded` | crates/tm-lang/src/value.rs:140-241 | the worklist answers exactly when the recursive walk stays within the node budget, with its verdict and its count |
| `LangEquality.WalkIsJsonEq` | crates/tm-lang/src/value.rs:140-241 | the walk says equal if and only if the JSON forms are equal |
| `LangEquality.WalkNodes` | crates/tm-lang/src/value.rs:140-241 | the walk never visits more nodes than the smaller JSON form has |
| `LangEquality.AnswerRefinesJson` | crates/tm-lang/src/value.rs:132-241 | an answer is equality of the JSON forms, a larger budget never changes it, and the smaller form's nodes suffice |
| `LangEquality.ValueEqIsEquivalence` | crates/tm-lang/src/value.rs:132-138 | with enough budget `==` is reflexive, symmetric and transitive, on non-finite decimals too |
| `LangEquality.JsonRoundTrip` | crates/tm-lang/src/value.rs:67-114 | converting back and forth gives the same JSON form |
| `LangEquality.RoundTripEqual` | crates/tm-lang/src/value.rs:67-114 | every value equals what its JSON form converts back to |
| `LangEquality.ComesBackIff` | crates/tm-lang/src/value.rs:67-114 | a value comes back from its JSON form as itself if and only if it holds no URI, constructor, function or non-finite decimal |
| `LangEquality.JsonComesBackIff` | crates/tm-lang/src/value.rs:67-114 | JSON comes back from the value it is read as if and only if its integers are machine integers and its other numbers finite |
| `LangEquality.NumbersKeepTheirWorth` | crates/tm-lang/src/value.rs:99-102 | a number keeps its worth, as an integer exactly when a machine integer holds it |
| `LangLexer.Lexer.String` | crates/tm-lang/src/lexer.rs:158-183 | the quote loop finds the closing quote of the recursive definition, and the two string faults |
| `LangLexer.Lexer.Number` | crates/tm-lang/src/lexer.rs:185-219 | integers within i64 and decimals as written |
| `LangLexer.Lexer.Name` | crates/tm-lang/src/lexer.rs:221-269 | a URI when a colon follows directly or after a hyphenated scheme, outside record fields; else a name |
| `LangLexer.Lexer.Next` | crates/tm-lang/src/lexer.rs:42-115 | the one token that the text there stands for in full, and the position after it; an error exactly when there is none |
| `LangLexer.SymbolIff` | crates/tm-lang/src/lexer.rs:52-107 | the symbol taken is the longest of the language's symbols that stands there, and one is taken if and only if one stands there |
| `LangLexer.LexemeIff` | crates/tm-lang/src/lexer.rs:42-269 | a token is taken if and only if the text stands for it and for no longer one: symbols, digits, names, schemes, URIs and strings each to their full extent |
| `LangLexer.SeparatorIff` | crates/tm-lang/src/lexer.rs:271-286 | the legacy separator is recognised exactly where three dashes are alone on their line but for space and a comment |
| `LangLexer.Lexer.Run` | crates/tm-lang/src/lexer.rs:23-156 | the loop yields the tokens of the unbounded recursive lexer, or none when they exceed the limit |
| `LangLexer.LexBounded` | crates/tm-lang/src/lexer.rs:7-14 | succeeds with t if and only if t covers the text, each token the longest there is after nothing but space and comments, and is within the limit |
| `LangLexer.TokensIff` | crates/tm-lang/src/lexer.rs:23-156 | the unbounded lexer gives exactly that cover, and an error when there is none |
| `LangLexer.BalancedKeepsOpen` | crates/tm-lang/src/lexer.rs:116-131 | balanced tokens leave the open delimiters as they were, so only what encloses a token decides how it is read |
| `LangLexer.TokensInOrder` | crates/tm-lang/src/lexer.rs:23-156 | spans are ordered, disjoint and nonempty but for the final end mark, so there is at most one token more than bytes |
| `LangLexer.TokensSpellTheSource` | crates/tm-lang/src/lexer.rs:23-156 | the source is the spellings of its tokens in order, at their spans, with nothing between them but space and comments |
| `LangLexer.UnboundedLexerNeverRefuses` | crates/tm-lang/src/lexer.rs:3-5 | the largest limit refuses no text a machine can hold |
| `ArtifactMeta.FloorBoundary` | crates/tm-artifacts/src/preview.rs:128-133 | the last character boundary at or before a position |
| `ArtifactMeta.PreviewFits` | crates/tm-artifacts/src/preview.rs:6-12 | a preview is within the bound the loader checks |
| `ArtifactMeta.PreviewKeepsCharacters` | crates/tm-artifacts/src/preview.rs:128-133 | the prefix a preview keeps of a text is itself well-formed UTF-8 |
| `ArtifactMeta.WrittenRefLoads` | crates/tm-artifacts/src/quota.rs:284-305 | every reference a writer can make passes the loader and encodes within the limit on a metadata file |
| `ArtifactCodec.EncodedRefDecodes` | crates/tm-artifacts/src/store.rs:172-172 | the metadata file of a reference, read as JSON, is that reference, whatever bytes its title, type and preview hold |
| `ArtifactCodec.WrittenRefDecodes` | crates/tm-artifacts/src/quota.rs:99-99 | so every metadata file a writer writes is read as the reference it made |
| `ArtifactQuota.NamespaceUsage` | crates/tm-artifacts/src/quota.rs:31-136 | in whatever order the directory lists, the scan succeeds if and only if the directory is acceptable, with exact count, sums and largest id |
| `ArtifactQuota.ValidateBlobReference` | crates/tm-artifacts/src/quota.rs:226-261 | passes if and only if the reference is canonical, within the limit and its blob has that size |
| `ArtifactQuota.BlobReferenceUsage` | crates/tm-artifacts/src/quota.rs:145-224 | the same for the blob references |
| `ArtifactHandles.Open` | crates/tm-artifacts/src/store.rs:7-68 | opens if and only if the disk is openable, with the id after the largest published one, or zero, next, and the exact total |
| `ArtifactHandles.Handle.TakeId` | crates/tm-artifacts/src/store.rs:132-170 | the id loop locks the first id that is neither locked nor published; the last id is never taken |
| `ArtifactHandles.Handle.TakeFreshId` | crates/tm-artifacts/src/store.rs:122-170 | on a tidy directory that is the one after the largest published id, or the handle's own counter |
| `ArtifactHandles.Handle.Publish` | crates/tm-artifacts/src/store.rs:172-208 | the text given, byte for byte, and metadata with its title, type and size are stored and the lock released, unless the metadata quota is spent or another text is in the way |
| `ArtifactHandles.Handle.PutText` | crates/tm-artifacts/src/store.rs:70-209 | on any disk, success means the text given is stored under the answered id with its title and type; what a text write does to a good disk and to the handle, refusal by refusal; an unacceptable disk is left alone |
| `ArtifactHandles.Handle.PutBlob` | crates/tm-artifacts/src/store.rs:211-292 | what a blob write does to a good disk; a blob already referenced costs nothing |
| `ArtifactStore.PutTextOutcomeGood` | crates/tm-artifacts/src/store.rs:70-209 | a text write keeps the disk good and publishes at most one id, above all before it |
| `ArtifactStore.PutBlobGood` | crates/tm-artifacts/src/store.rs:211-292 | a blob write keeps the disk good |
| `ArtifactStore.ForeignBlobGood` | crates/tm-artifacts/src/store.rs:278-285 | blobs that other sessions write keep it good |
| `ArtifactRuns.RunsStayGood` | crates/tm-artifacts/src/store.rs:7-292 | after every run of opens and writes from any number of handles all quotas hold, a handle can be opened, and the ids published are strictly increasing and exactly those on disk |
| `ArtifactRuns.TextKept` | crates/tm-artifacts/src/store.rs:70-370 | after whatever is written later by any handle, a text once stored is there byte for byte with its title, type and size, and every page read of it by its URI is that page of the text given |
| `ArtifactRuns.TextStoredIff` | crates/tm-artifacts/src/store.rs:70-209 | a text is stored if and only if it and its title and type are within their limits, the session has room for it and its metadata, and an id is left |
| `ArtifactRuns.BlobChargedOnce` | crates/tm-artifacts/src/store.rs:211-292 | after whatever is written later by any handle, a blob once stored is there whole, and storing it again succeeds and changes nothing |
| `ArtifactRuns.BlobStoredIff` | crates/tm-artifacts/src/store.rs:211-292 | a blob is stored if and only if it is within its limit and is referenced already or the session has room for it and its reference |
| `ArtifactPaging.BufReader.ReadBoundedLine` | crates/tm-artifacts/src/preview.rs:87-126 | the line, the truncation and the bytes left depend on the bytes and the limit alone, however the buffer is filled |
| `ArtifactPaging.UntruncatedPage` | crates/tm-artifacts/src/preview.rs:34-50 | an untruncated page is the requested lines joined by newlines, and leaves the other lines |
| `ArtifactPaging.TruncatedIff` | crates/tm-artifacts/src/preview.rs:36-50 | a page is truncated if and only if some requested line is longer than the earlier ones leave of the cap |
| `ArtifactPaging.HasMoreIff` | crates/tm-artifacts/src/preview.rs:52-52 | more is announced if and only if the page is truncated or lines follow it |
| `ArtifactPaging.PagesReassemble` | crates/tm-artifacts/src/preview.rs:14-59 | untruncated pages of consecutive requests, joined, are those of the requested lines that are there, joined, and one newline for each request after the first that begins past the last line; so they reassemble if and only if none does, and a last page may ask for more than is left |
| `ArtifactPaging.PagingGivesAll` | crates/tm-artifacts/src/preview.rs:14-59 | paging until nothing more is announced gives all the lines; and with its final newline the text itself, if and only if no newline in it follows a carriage return |
| `ArtifactPaging.ContentWithinCap` | crates/tm-artifacts/src/preview.rs:36-50 | line contents stay within the cap; a page exceeds it by at most its separators |
| `ArtifactPaging.SeparatorsExceedCap` | crates/tm-artifacts/src/preview.rs:37-44 | a page of three bytes under a cap of one |
| `ArtifactPaging.PageWithinCapIff` | crates/tm-artifacts/src/preview.rs:37-44 | a page exceeds the cap if and only if some requested line after the first exists, follows no line that overflows, and follows lines that already fill the cap |
| `ArtifactText.PageOfText` | crates/tm-artifacts/src/preview.rs:53-58 | the cut to whole characters takes nothing from an untruncated page of a text and at most three bytes from any other |
| `ArtifactText.Utf8Iff` | crates/tm-artifacts/src/preview.rs:53-58 | bytes pass as a text if and only if they are the UTF-8 encoding of some characters |
| `ArtifactText.ParsePrintedRange` | crates/tm-artifacts/src/preview.rs:61-85 | a printed range is accepted if and only if it is a nonempty range of lines within the limit |
| `ArtifactText.SelectText` | crates/tm-artifacts/src/preview.rs:14-59 | the page a selector names, within the page byte limit, or nothing exactly when the selector is invalid; without a selector the default number of lines and bytes from the start |
| `AgentFence.ParseFenced` | crates/tm-core/src/agent.rs:457-497 | code if and only if there is one complete block, labelled `run`; nothing if there is no fence line or one complete block under another label; an error otherwise |
| `AgentFence.ScanReflects` | crates/tm-core/src/agent.rs:460-484 | what the scanner holds after any lines is determined by their fence lines |
| `AgentFence.CodeIff` | crates/tm-core/src/agent.rs:457-497 | lines yield code if and only if they are fence-free prose, a `run` fence, that code but for white space around it, a bare fence, and fence-free prose |
| `AgentFence.PrintedFenceParses` | crates/tm-core/src/agent.rs:457-497 | a text of such lines parses back to the code, whatever white space is around the fences and whether lines end with carriage returns or not |
| `AgentConversation.ValidateNativeTurn` | crates/tm-core/src/agent.rs:386-452 | a turn is final, executes its calls in order, or is an error, if and only if its calls are few, well formed and have distinct ids |
| `AgentConversation.NativeActionIff` | crates/tm-core/src/agent.rs:364-452 | a turn is final if and only if it was not cut off, is not empty and neither makes nor announces calls; it executes, each call with its own id and code, if and only if it was not cut off and makes one to sixteen good calls |
| `AgentConversation.Run` | crates/tm-core/src/agent.rs:217-333 | the run makes a request in each turn it gets to, each carrying exactly the messages of its turn with every tool call answered, and ends as the turn it stops at says: with the final text, the failure of that turn, or the turn budget exactly when no turn stopped it |
| `AgentConversation.StopsOnce` | crates/tm-core/src/agent.rs:226-333 | a run stops at exactly one turn |
| `AgentConversation.RequestsAnswered` | crates/tm-core/src/agent.rs:226-333 | in every request of every run each tool call of the run is answered once, in order and by id, before any later user or assistant message, with distinct ids and at most sixteen calls in a turn |
| `AgentConversation.RequestFrames` | crates/tm-core/src/agent.rs:217-245 | every request begins with the system text, the prior messages and the user's, and ends with the inbox, word for word |
| `AgentConversation.OutputsDelivered` | crates/tm-core/src/agent.rs:290-333 | the last messages a turn leaves are its shaped outputs, each under the id of its call or as an execution result |
| `AgentConversation.ReplyRecorded` | crates/tm-core/src/agent.rs:245-333 | the model's reply stands before them as it was given |
| `Supervision.Supervisor.Track` | crates/tm-agents/src/supervise.rs:103-107 | a new child goes last, a known one changes nothing |
| `Supervision.Supervisor.RecordSuccess` | crates/tm-agents/src/supervise.rs:113-115 | the actor's attempts are forgotten |
| `Supervision.Supervisor.RecordFailure` | crates/tm-agents/src/supervise.rs:117-183 | the decision and the state it leaves, for each reason and strategy |
| `Supervision.RestartsIff` | crates/tm-agents/src/supervise.rs:103-183 | after any history a restart is decided if and only if the actor was tracked, crashed or timed out, and was restarted fewer times than the limit since its last success; it is numbered one more than those |
| `Supervision.RestartDecision` | crates/tm-agents/src/supervise.rs:185-205 | cancels precede restarts, neither repeats an actor, both keep spawn order, and the restarted are the cancelled and the failed actor, under all three strategies |
| `Supervision.CancelsIff` | crates/tm-agents/src/supervise.rs:117-205 | after any history a failure cancels an actor if and only if a tracked actor crashed or timed out and the strategy has the other go along: none, all others, or those spawned later |
| `Supervision.EscalatesIff` | crates/tm-agents/src/supervise.rs:117-183 | after any history a failure escalates, itself only, if and only if the actor was never tracked, or was not cancelled and cannot be restarted for its reason or for want of attempts |
| `Supervision.AttemptsBounded` | crates/tm-agents/src/supervise.rs:103-183 | in every history no actor's attempts exceed the limit |
| `Supervision.RestartsBounded` | crates/tm-agents/src/supervise.rs:103-183 | a history makes at most the limit of restarts for each child and as many more for each success |
| `Supervision.RestartsAreAttempts` | crates/tm-agents/src/supervise.rs:164-169 | without a success each restart is one recorded attempt |

## Left out

- DNS, the HTTP transport, response decoding, response headers and secret injection: a hop is a reply chosen by the surroundings.
- Digests and random tokens: symbolic values, distinct for distinct inputs.
- URL parsing, and the checks of a configuration entry by itself, given as one flag: the spelling of ids, hosts, header names, header prefixes and environment names, the https-only scheme, the syntax of methods and path prefixes, and the headers that may not be allowed or injected.
- The durable egress store behind `install_state_store`: one store for all callers, with the behavior of the volatile one.
- The redaction of approval previews.
- The parser, the checker and the evaluator of the language: the parser is a function from text to forms with a token count and a nesting depth, under which bounded parsing is a filter.
- The decoding of string literals and Unicode character classes in the lexer: parameters.
- EgressHops.HopsKeepCaps: stated under one policy; a replacement that lowers a cap leaves earlier use as it is, and the book then only refuses more.
- LangAnalyzer.BindingUsage: faults are told apart by kind only; spans and messages of diagnostics are not modelled.
- File-system calls, links, temporary files and their races: a session's files are maps, and a write under the session lock is one step. Files other than the writers' own appear in the scans only.
- ArtifactHandles.Handle.PutText: the outcome is stated for good disks, which are all that runs of the writers reach, and for disks the scans refuse; not for other disks that the scans happen to accept.
- ArtifactHandles.Handle.PutBlob: likewise stated for good disks.
- The general JSON reader: a metadata file in a scan holds a given reference or none, and what a writer writes is read by a reader of that layout only.
- `list`, `list_page`, `read_all_text`, `read_blob` and the cached references of a handle; `read` appears as the page of the stored text its URI names.
- Streaming of a model turn into its parts, sinks, and cancellation points inside a turn: a turn's inbox, reply, outputs and delivery each come whole or not at all.
- The mailbox, the batch scheduler, the worker, the drive store, MCP, the command line and the end-to-end flows.
