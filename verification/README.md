# LedgerLens: verified models of the protocol and arithmetic kernels

A Dafny project that models the parts of LedgerLens whose correctness spans many
steps, threads, processes or restarts, and proves what each of them keeps.  One
module per source component:

| file | component |
|---|---|
| `ScoreStream.dfy`, `SlowClients.dfy`, `StreamEnds.dfy` | bounded-buffer streaming between a producer thread and an RPC thread, the batch generator feeding it, when a client is given up as slow, and why every stream can end |
| `TokenFamilies.dfy`, `Jwt.dfy`, `Base64Url.dfy`, `Base64Decode.dfy` | refresh-token rotation and access checks under interleaving; token encoding, its standard, and what decoding does with any string |
| `EventChain.dfy`, `EventRecords.dfy` | the hash-chained scoring-event store and its verifier; what it holds and answers in terms of its events |
| `GraphqlSyntax.dfy`, `GraphqlCost.dfy`, `GraphqlWeights.dfy`, `GraphqlInlining.dfy`, `GraphqlWhole.dfy`, `GraphqlExecution.dfy`, `GraphqlBound.dfy`, `GraphqlAttained.dfy`, `GraphqlExact.dfy`, `GraphqlExceeds.dfy`, `GraphqlLimiter.dfy` | static query cost, what it counts, the inlined document it is compared with and when they agree, an execution semantics, the bound between them, results that attain it, when it holds and results that exceed it, and the limiter |
| `AdversarialAttack.dfy`, `AttackNearest.dfy` | FGSM and PGD, which way they move, and that clamping and projection change as little as they can |
| `WalkForward.dfy`, `FoldContents.dfy` | the walk-forward splitter and its aggregation; what folds contain and what the look-ahead check accepts |
| `ScoreCache.dfy`, `CacheHits.dfy` | the generation-token cache with concurrent writers, and when it answers |
| `SlidingWindow.dfy`, `RateLimit.dfy`, `WindowCounts.dfy` | the sliding window, the list and deque forms of the limiter, and what limiters and detector count |
| `IpRange.dfy`, `KeyCycling.dfy` | address ranges and the key-cycling detector |
| `BatchJobs.dfy`, `BatchRequests.dfy`, `BatchLeaks.dfy` | idempotent batch jobs across processes, what a request is answered, and the slots that errors leak |
| `CursorStream.dfy`, `CursorSource.dfy`, `CursorFlushes.dfy`, `CursorLosses.dfy` | cursor streaming across crashes, what its source yields, when it flushes, and exactly when it loses trades |
| `Text.dfy`, `Wrappers.dfy` | splitting and joining strings; Option and Result |

Protocols with several threads, processes or restarts are state machines whose
`Step` is one atomic piece of the source and whose theorems quantify over every
sequence of steps.  Fields named as history in a `State` exist for the
statements only and are never read by a step's guard, except that fresh
identifiers are required not to be among those already issued.  Objects used by
one caller at a time are classes.  Hashes, MACs, JSON and model probabilities
are arbitrary functions, with injectivity or inversion assumed only where a
contract says so.  Clocks are parameters.

Where the code does not do what its documentation or its name suggests, the
code is modelled as it is, and a lemma gives the failing family and the exact
condition:

- a client can be disconnected as slow although the buffer had room before the
  deadline (`ScoreStream.MarksJustifiedIff`; the docstring speaks of a buffer
  kept full past the timeout);
- an event with a naive timestamp is stored, and then reported as tampered
  (`EventChain.NaiveTimestampFails`, `EventChain.VerifyAfterAppends`);
- a fragment spread again after it was visited is costed as nothing, and a field
  of interface or union type is costed flat, so executions can exceed the cost
  (`GraphqlExact.BoundsIffWhole`, `GraphqlExceeds.RepeatedSpreadExceeds`,
  `GraphqlExceeds.AbstractBoundIff`; the deployed schema, `api/graphql_schema.py`
  lines 32-106, has neither recursive nor abstract types, so the last two
  families do not arise in it);
- clamping to bounds can undo the direction for an original outside its bounds
  (`AdversarialAttack.ClampDirectionExact`);
- of the two attacks only PGD lowers the probability; FGSM steps up its slope
  (`AdversarialAttack.SignedStepRaises`, `AdversarialAttack.DescentLowers`);
- `max_age` does not bound staleness by itself, as the module documentation says:
  the time a computation takes comes on top (`ScoreCache.StalenessIsBounded`,
  `ScoreCache.StalenessIsAttained`);
- an IPv6 range is a spelling, not a /48 (`IpRange.CompressionKeepsRangeIff`,
  `IpRange.CompressionMergesNetworks`);
- a dedup window longer than the job TTL turns retries into 409 answers
  (`BatchJobs.PromiseExact`; the endpoint promises the original job), and a
  database error after a slot was reserved keeps the slot
  (`BatchLeaks.IdleHoldsLeaks`);
- stopping before the first flush skips trades (`CursorLosses.LossIffNoCursor`),
  and so do a rejected cursor (`CursorLosses.RejectionLoses`), a replay window and
  a dedup store shared through Redis (`CursorLosses.AtLeastOnceExact`).

## Model

| member | source | states |
|---|---|---|
| `ScoreStream.RunKeepsInv` | api/grpc_scoring_service.py:108-168 | Every interleaving of producer, RPC thread, clock and client close keeps conservation of items, the producer and consumer control invariants and the timing invariant of pending puts. |
| `ScoreStream.NothingLostOrReordered` | api/grpc_scoring_service.py:108-157 | At every moment of every run, items yielded, the item held by the consumer and the buffer form, in that order, a prefix of the produced sequence; the buffer never exceeds its capacity. |
| `ScoreStream.OutcomeIsExact` | api/grpc_scoring_service.py:147-168 | A stream that was not closed by the client ends only when every accepted item was yielded; it completes only if the source was exhausted, errors only if the source raised that error, and aborts as slow exactly when the slow flag was set. |
| `ScoreStream.AtMostOneLatePut` | api/grpc_scoring_service.py:114-131 | After `stop` is set at most the one put that had already passed its loop test still lands. |
| `ScoreStream.RefusedHistory` | api/grpc_scoring_service.py:114-125 | At every earlier moment of the run between the start of a refused put and its refusal the buffer was full. |
| `ScoreStream.SlowIsJustified` | api/grpc_scoring_service.py:114-125 | With a timeout of at most one poll (0.05 s), a client marked slow had kept the buffer full at every moment from the put's start to its deadline. |
| `ScoreStream.PrematureSlowMark` | api/grpc_scoring_service.py:114-125 | For every longer timeout and every capacity, if the source has one item more than the capacity, there is a run that marks the client slow although the buffer had room before the deadline: the clock is read again after `queue.Full` was raised. |
| `ScoreStream.MarksJustifiedIff` | api/grpc_scoring_service.py:114-125 | Over configurations: in every run every slow mark is justified if and only if the timeout is at most one poll or the source ends within capacity plus one calls. |
| `SlowClients.RefusedPutDecides` | api/grpc_scoring_service.py:122-125 | The converse, in every reachable state: the next step of a refused put marks the client slow and ends the producer if the clock is at or past the put's deadline, and tries the same put again if not. |
| `SlowClients.OverduePutGivesUp` | api/grpc_scoring_service.py:114-125 | Over every run and whatever the other thread does in between: a refused put whose deadline has passed by its next step is never seen putting again. |
| `SlowClients.PollStopsAtDeadline` | api/grpc_scoring_service.py:118-118 | A poll is armed for 0.05 s or until the deadline, whichever is shorter, and for nothing once the deadline has passed. |
| `SlowClients.PollRefusesLate` | api/grpc_scoring_service.py:118-121 | A waiting put is refused exactly on a full buffer and not before its poll ends; with room it lands. |
| `SlowClients.StoppedReaderIsMarked` | api/grpc_scoring_service.py:114-125 | In every schedule, a client that neither reads nor leaves while a put on a full buffer is past its deadline is marked slow by the fifth producer step. |
| `SlowClients.CancelledIffSlow` | api/grpc_scoring_service.py:134-145 | Once the producer has ended the call is cancelled if and only if the client was slow, and never before. |
| `StreamEnds.EveryStreamCanEnd` | api/grpc_scoring_service.py:108-168 | From every reachable state some continuation ends the stream, and if the source ends, one in which the client does not leave: no interleaving gets stuck. |
| `StreamEnds.WorkIsBounded` | api/grpc_scoring_service.py:114-157 | However threads and client are scheduled, a run over a source that ends after n items takes at most 5n + 7 steps other than polling. |
| `ScoreStream.BatchSourceIsAvailable` | api/grpc_scoring_service.py:189-202 | The batch generator hands out exactly the available scores of the first `max_batch` requests, then ends, or raises RESOURCE_EXHAUSTED when there are more requests. |
| `ScoreStream.BatchDeliversAvailableScores` | api/grpc_scoring_service.py:181-204 | Absent slowness and client close, a batch call yields exactly those scores in every interleaving, and aborts exactly when the batch is too long. |
| `TokenFamilies.RunKeepsInv` | api/auth.py:188-247 | Over every interleaving of issue, refresh, emission, verification and revocation: used jtis plus the current one are the installed ones, families share no jti, a call that has not emitted yet still owns its family's current jti, and emitted and rotated tokens are accounted for. |
| `TokenFamilies.EmitsOwnJti` | api/auth.py:203-230 | The refresh token built after the lock was released carries exactly the jti that the same call installed, and building it cannot fail. |
| `TokenFamilies.EmittedJtisDistinct` | api/auth.py:181-230 | No two calls of a run ever emit the same jti. |
| `TokenFamilies.RotatedAtMostOnce` | api/auth.py:207-220 | Each jti is rotated at most once; `used_jtis` is exactly the rotated ones and, with the current jti, which is not among them, exactly the installed ones. |
| `TokenFamilies.ReuseIffRotatedOut` | api/auth.py:203-225 | Reuse is detected if and only if an unexpired token of a live family carries a jti that was rotated out; the alert then reports a known jti and the family is revoked. |
| `TokenFamilies.RotationCondition` | api/auth.py:203-220 | A refresh rotates if and only if the token is unexpired, its family live, its jti current and the audience permitted. |
| `TokenFamilies.IssueCondition` | api/auth.py:188-195 | A family is started exactly for an audience among permitted ones that all exist; it is live and holds the subject, scopes, audiences and expiry it was issued with. |
| `TokenFamilies.GrantIsForGood` | api/auth.py:188-220 | At every later point of every run the family has that same subject, scopes, audiences and expiry. |
| `TokenFamilies.CallIsRemembered` | api/auth.py:203-230 | Until it builds its tokens a call keeps the family and audience it was asked for, whatever other calls do. |
| `TokenFamilies.VerifiedIff` | api/auth.py:232-240 | In every reachable state an access check succeeds if and only if the token is unexpired, its audience is the one asked for and its family lives; it changes nothing. |
| `TokenFamilies.AccessTokenServesItsCall` | api/auth.py:171-240 | End to end over every interleaving: the access token names the family, subject and scopes of the grant and the audience its call asked for, the refresh token the jti its call installed; at every later point it verifies for that audience and no other, until the access lifetime after the whole second it was built in, as long as the family lives. |
| `TokenFamilies.ClientCanBeServed` | api/auth.py:188-201 | From every reachable state a client with permitted audiences can be issued an access token that verifies. |
| `TokenFamilies.ClientCanRotate` | api/auth.py:203-230 | From every reachable state the holder of a live family's current token can rotate it and gets the new current token and a working access token. |
| `TokenFamilies.DeadStaysDead` | api/auth.py:207-247 | A revoked family stays revoked at every later point of every run. |
| `TokenFamilies.NothingSucceedsAfterReuse` | api/auth.py:203-247 | After reuse was detected or the family revoked, every later refresh and access check on that family is denied. |
| `TokenFamilies.UnemittedPresentationBreaksOwnership` | api/auth.py:207-228 | Why emission must come before presentation: if a jti were presented before it was emitted, two calls would emit the same jti. |
| `Jwt.B64RoundTrip` | api/auth.py:94-99 | Decoding an encoded byte string returns it, for every byte string (section 5 of RFC 4648, unpadded). |
| `Jwt.B64Alphabet` | api/auth.py:94-95 | Encoded segments are ASCII and contain no dot. |
| `Base64Url.EncodesByStandard` | api/auth.py:94-95 | The encoding is that of section 5 of RFC 4648 without padding: as many characters as six-bit groups, each the character of Table 2 for its six bits of the input, zero bits behind the end. |
| `Base64Decode.DecodesAny` | api/auth.py:98-99 | What `_unb64` does with every string: it gives the bytes of all its alphabet characters up to the first pad that ends it, skipping other characters and dropping the bits that fill no byte; it raises if and only if a character is not ASCII, or no pad ends it and the data do not fill their last quad. |
| `Base64Decode.TableIs` | api/auth.py:98-99 | The decoder accepts the URL-safe alphabet, and `+` and `/` for its last two characters, and nothing else. |
| `Base64Url.SextetsAreBits` | api/auth.py:94-95 | The six-bit groups, in number and value, are the bits of the byte string from the left. |
| `Jwt.EncodeSplits` | api/auth.py:142-151 | An encoded token splits on dots into exactly the three segments it was built from (section 7.1 of RFC 7515). |
| `Jwt.DecodeInvertsEncode` | api/auth.py:142-167 | Decoding an encoded token returns its claims if and only if the type, issuer and expiry checks pass, and otherwise that check's error. |
| `Jwt.AcceptedIsSigned` | api/auth.py:148-167 | Whatever token is accepted has three segments, a header naming HS256, a third segment decoding to the MAC of the other two, and claims that pass every check. |
| `EventChain.ScoringEventStore.constructor` | audit/scoring_events.py:337-339 | A new store is empty. |
| `EventChain.ScoringEventStore.Append` | audit/scoring_events.py:396-452 | The new table is the old one, extended exactly when the event is accepted and meets the table's constraints by one row that holds the event's own fields and the first `max_feature_keys` entries of its snapshot, chained to the wallet's latest row; the event comes back with only its features and chain hash changed; every refusal leaves the table and names its reason. |
| `EventChain.RowRecordsEvent` | audit/scoring_events.py:362-388 | The inserted row has the event's id, wallet, namespace, score, previous score, model, trigger, actor and time, and exactly the first `max_feature_keys` entries of its snapshot. |
| `EventRecords.TableIsAcceptedEvents` | audit/scoring_events.py:396-452 | For every run of appends over any wallets the table is exactly the accepted events in order, and an event is accepted if and only if its trigger, actor and score are permitted and no earlier accepted event has its id: the unique chain hash refuses nothing more. |
| `EventRecords.CurrentScoreIsNewest` | audit/scoring_events.py:486-489 | After every run of appends `current_score` is the score of the wallet's accepted event with the latest time, the last appended among equal times, and none for a wallet without accepted events. |
| `EventRecords.LatestIsNewest` | audit/scoring_events.py:349-360 | The descending limit-one query returns that event's row. |
| `EventRecords.ReplayedScores` | audit/scoring_events.py:454-489 | Within the cap, the replayed events of a wallet whose events came in time order are its accepted events in order, with their ids, times and scores, and `current_score` is the last of those scores. |
| `EventRecords.ReplayIsTail` | audit/scoring_events.py:471-484 | `replay` since a time is the part of the history that is not older, cut to the limit. |
| `EventChain.ScoringEventStore.Verify` | audit/scoring_events.py:576-626 | The loop returns the verdict on the replayed history: no events, all linked, or the first event whose link is broken. |
| `EventChain.VerdictUnique` | audit/scoring_events.py:576-626 | A history has exactly one verdict. |
| `EventChain.HistoryIsSortedWallet` | audit/scoring_events.py:454-484 | The replayed history is sorted by time and is, as a multiset, all rows of the wallet. |
| `EventChain.HistoryMembers` | audit/scoring_events.py:454-484 | A row is in a wallet's history if and only if it is in the table under that wallet. |
| `EventChain.LatestIsLast` | audit/scoring_events.py:349-360 | The descending limit-one query returns the last row of the ascending query. |
| `EventChain.CurrentScoreIsLastReplayed` | audit/scoring_events.py:454-489 | Within the replay cap `current_score` is the score of the last event of `replay`, and none if there is none. |
| `EventChain.WalletsAreIndependent` | audit/scoring_events.py:349-452 | An append for one wallet changes no other wallet's history or latest event. |
| `EventChain.AppendAllWellChained` | audit/scoring_events.py:396-452 | After any run of appends over any wallets, every row is chained to the row that was its wallet's latest when it was inserted, and chain hashes are unique. |
| `EventChain.InOrderIsLinked` | audit/scoring_events.py:349-452 | Rows appended in time order with zoned timestamps form a linked history, whatever other wallets do in between. |
| `EventChain.LinkedIsInOrder` | audit/scoring_events.py:349-452 | A linked history can only come from rows appended in that order. |
| `EventChain.VerifyAfterAppends` | audit/scoring_events.py:396-626 | For every interleaving of appends: the verdict is valid for a wallet with events whose rows were appended in order with zoned timestamps and, within the replay cap, for no other. |
| `EventChain.NaiveTimestampFails` | audit/scoring_events.py:253-260 | An event whose timestamp has no offset is reported as tampered by its own verification, because reading it back adds UTC. |
| `EventChain.SameHeadSameHistory` | audit/scoring_events.py:184-225 | Two histories that verify and end in the same chain hash have the same length and agree on every hashed field and every stored hash. |
| `EventChain.EditIsReportedWithinCap` | audit/scoring_events.py:576-626 | When hashed fields of a verified history of any length are edited while stored hashes and order are kept, the first edited event is reported if it lies within the replay cap of 1000, and the history is reported valid otherwise. |
| `EventChain.FirstEditIsReported` | audit/scoring_events.py:597-626 | The same for the history as it was replayed: exactly the first edited event is reported. |
| `EventChain.RehashedEditIsReported` | audit/scoring_events.py:576-626 | An edit that also recomputes its own hash is reported at the successor; only the last event can be rewritten unnoticed. |
| `GraphqlCost.SelectionCostLoop` | api/graphql_cost.py:77-117 | The loop with its accumulators and its rebound `visiting` computes the recursive cost and depth, and terminates on every document, cyclic fragments included, by (fragments not visited, selection size). |
| `GraphqlCost.CostSelection` | api/graphql_cost.py:88-116 | One iteration contributes the cost of its selection and hands on `visiting` as line 111 rebinds it. |
| `GraphqlCost.CostField` | api/graphql_cost.py:96-104 | A field costs one plus its sub-selection's cost times the list multiplier, and lies as deep as its sub-selection. |
| `GraphqlWeights.CostWeighs` | api/graphql_cost.py:87-117 | For every document, schema and selection set: the cost is the number of its fields, fragments entered as the analysis enters them, each counted once for every multiple of the lists above it if all names on its path are known to their types and not introspection, and not at all otherwise. |
| `GraphqlWeights.DepthReaches` | api/graphql_cost.py:87-117 | The depth is one more than the number of fields on the longest path that leads through known fields of object type to a selection set. |
| `GraphqlWeights.OperationCounts` | api/graphql_cost.py:52-74 | The same of what `calculate_query_cost` returns for a name that one operation bears, or for a document with one operation. |
| `GraphqlWeights.NamedTypeIsWrapped` | api/graphql_cost.py:96-96 | The named type of a field is what is left when lists and non-null marks are taken off. |
| `GraphqlInlining.SpreadOnceIsExact` | api/graphql_cost.py:77-117 | A condition that can be read off the text and suffices: if each fragment is spread at most once in the operation and the definitions together, the document is acyclic and its cost and depth are those of the document with all spreads inlined (sections 2.8 and 5.5.2.2 of the GraphQL October 2021 specification). |
| `GraphqlWhole.ExactIffWhole` | api/graphql_cost.py:77-117 | The exact condition, for every acyclic document: cost and depth are those of the inlined document if and only if no spread the analysis skips has a costed field or reaches deeper than everything it counted. |
| `GraphqlWhole.CostExactIffWhole` | api/graphql_cost.py:88-116 | The cost part, for every set of visited fragments. |
| `GraphqlWhole.DepthWithinIffShallow` | api/graphql_cost.py:88-116 | The depth part, for every limit that the static depth meets. |
| `GraphqlWhole.BarrenIsFree` | api/graphql_cost.py:89-104 | A selection set costs nothing if and only if no field in it is costed. |
| `GraphqlWhole.SpreadOnceIsWhole` | api/graphql_cost.py:105-116 | Spreading each fragment at most once implies the exact condition. |
| `GraphqlWhole.SiblingSpreadsAreWhole` | api/graphql_cost.py:99-114 | So does spreading a whole fragment below two sibling fields, which is not spreading it once. |
| `GraphqlInlining.LinearIsAcyclic` | api/graphql_cost.py:105-116 | A document that spreads each fragment at most once has no reachable cycle. |
| `GraphqlInlining.LinearExact` | api/graphql_cost.py:88-116 | Generalised over what was already visited: the traversal meets no spread a second time, so nothing is dropped. |
| `GraphqlInlining.SeenConserves` | api/graphql_cost.py:105-116 | Conservation of spreads: each fragment newly visited used up one spread of its name, counted over the selection set and the definitions not yet visited. |
| `GraphqlInlining.NeverOverestimates` | api/graphql_cost.py:77-117 | On every acyclic document cost and depth are at most those of the inlined document. |
| `GraphqlBound.CollectBound` | api/graphql_cost.py:77-117 | The fields collected for execution from a selection set cost no more than the selection set inlined (section 6.3.2 of the GraphQL October 2021 specification). |
| `GraphqlBound.GroupsPartition` | api/graphql_cost.py:77-117 | Splitting collected fields by response key conserves their cost. |
| `GraphqlBound.GroupCost` | api/graphql_cost.py:96-104 | Fields merged under one response key cost one each plus the fan-out of their merged sub-selection. |
| `GraphqlBound.ExecuteBound` | api/graphql_cost.py:77-117 | Executing an acyclic document over object types resolves at most as many fields, nested at most as deep, as the inlined document's cost and depth, for every value with bounded fan-out and every choice of directives and type conditions. |
| `GraphqlBound.StaticCostBoundsExecution` | api/graphql_cost.py:77-117 | The sufficient half, for every acyclic document over object types: the fields any execution resolves are within the static cost if the document is whole, and their nesting within the static depth if nothing skipped is deeper (section 6.3 of the GraphQL October 2021 specification). |
| `GraphqlExact.BoundsIffWhole` | api/graphql_cost.py:77-117 | The exact condition, for every acyclic document over object types whose written-out form has known fields with distinct response keys: the static cost bounds every execution if and only if the document is whole, and, where every selection set has a field, the static depth bounds every nesting if and only if nothing skipped is deeper. |
| `GraphqlExact.ExecuteWritten` | api/graphql_cost.py:77-117 | Such a document executes, on every value, like the document with all fragments written out. |
| `GraphqlExact.CollectWrites` | api/graphql_cost.py:105-116 | With distinct response keys collecting fields drops nothing, although each fragment is entered once per selection set. |
| `GraphqlExact.FlatCost` | api/graphql_cost.py:112-116 | Replacing inline fragments by their fields keeps the cost, and the depth if every selection set has a field. |
| `GraphqlBound.ShortFlatListsFanOut` | api/graphql_cost.py:97-103 | Single-level lists of at most `list_multiplier` elements have the bounded fan-out the bound needs. |
| `GraphqlLimiter.CalculateQueryCost` | api/graphql_cost.py:52-74 | The driver loop returns the cost of the operations selected from the document over its fragment map. |
| `GraphqlLimiter.SelectedArePicked` | api/graphql_cost.py:62-64 | The selected operations are those at exactly the positions whose operation bears the name asked for (all positions, without a name), each once and in document order. |
| `GraphqlLimiter.SelectedMembers` | api/graphql_cost.py:62-64 | An operation is selected if and only if it is in the document and bears the name asked for, if there is one. |
| `GraphqlLimiter.FragmentIsLastDefinition` | api/graphql_cost.py:59-61 | A fragment name stands for its last definition in the document. |
| `GraphqlLimiter.FragmentsAreDefined` | api/graphql_cost.py:59-61 | A fragment is known if and only if the document defines it. |
| `GraphqlLimiter.TotalIsSumAndMaximum` | api/graphql_cost.py:66-74 | The total cost is the sum of the operations' costs, the total depth the largest of their depths, and zero if none is analysed. |
| `GraphqlLimiter.CostOfNamedOperation` | api/graphql_cost.py:52-74 | If exactly one operation is asked for, the result is its own cost and depth whatever else the document defines; if none is, the result is nothing. |
| `GraphqlLimiter.OperationWithinTotal` | api/graphql_cost.py:66-74 | Each selected operation's cost and depth are within the totals. |
| `GraphqlLimiter.LimiterIsSound` | api/graphql_cost.py:148-167 | Whichever of the operations asked for is executed, if it is acyclic and whole and the limiter lets the document through, it resolves at most the budget of fields (if there is a budget) and nests at most the maximum depth. |
| `GraphqlLimiter.CheckCost` | api/graphql_cost.py:144-167 | A document is let through if and only if its depth and, under a positive budget, its cost are within the limits; depth is decided first, and the refusal names the figure and its limit; without a document nothing is refused. |
| `GraphqlLimiter.CostIsLargest` | api/graphql_cost.py:77-117 | For a whole document of known fields with distinct response keys, all executions stay within a depth or a number of fields if and only if the static depth or cost does. |
| `GraphqlLimiter.LimiterIsExact` | api/graphql_cost.py:144-167 | For such a document the limiter refuses as too deep if and only if some execution of the operation asked for nests deeper than the limit, as too costly if and only if none does but some exceeds a positive budget, and nothing else. |
| `GraphqlExceeds.RepeatedSpreadExceeds` | api/graphql_cost.py:105-116 | A spread that is skipped without being free does exceed the bound: for every non-empty plain fragment on a recursive type, spreading it beside and inside the recursive field has a result with permitted fan-out whose execution exceeds the static cost by exactly the fragment's cost for every object below. |
| `GraphqlExceeds.AbstractBoundIff` | api/graphql_cost.py:98-103 | For a field of interface or union type the static cost bounds every execution if and only if no possible type has a costed field in its sub-selection. |
| `GraphqlExceeds.AbstractExceeds` | api/graphql_cost.py:98-103 | Otherwise one object of such a type makes an execution with permitted fan-out exceed the cost. |
| `GraphqlAttained.BoundIsAttained` | api/graphql_cost.py:77-117 | The bound is attained: for every document of known, plain fields with distinct response keys there is a result within the permitted fan-out whose execution resolves exactly the static cost of fields, nested exactly the static depth. |
| `GraphqlAttained.ExecuteAttains` | api/graphql_cost.py:88-104 | The same at every nesting level, for the result that fills every outermost list with `list_multiplier` copies. |
| `AdversarialAttack.ClampIsNearest` | detection/adversarial_attack.py:89-95 | For an original value within its bounds, clamping gives the allowed value nearest to the candidate. |
| `AdversarialAttack.ClampDirectionExact` | detection/adversarial_attack.py:89-95 | For any original: the direction survives the bounds for every candidate if and only if the original is on the right side of the bound it moves towards. |
| `AdversarialAttack.ClampKeeps` | detection/adversarial_attack.py:89-95 | For any original, clamping keeps each bound the original meets, and the direction under that one-sided condition. |
| `AdversarialAttack.ClampedRespects` | detection/adversarial_attack.py:83-97 | For any original, clamping leaves immutable features alone and keeps every other feature within direction and bounds in that sense. |
| `AdversarialAttack.RespectsWithinBounds` | detection/adversarial_attack.py:83-97 | For an original within its bounds that is direction and both bounds, for every mutable feature. |
| `AdversarialAttack.ShrunkRespects` | detection/adversarial_attack.py:113-117 | Scaling the perturbation by a factor in [0, 1] keeps every constraint. |
| `AdversarialAttack.ProjectionKeepsConstraints` | detection/adversarial_attack.py:100-117 | Projecting onto the ball after clamping undoes no constraint and lands in the ball of radius epsilon. |
| `AttackNearest.ProjectionIsNearest` | detection/adversarial_attack.py:100-117 | No vector of the ball is nearer to the input than its projection, over the mutable features; from outside the projection lands on the sphere, from inside it stays. |
| `AttackNearest.ClampedIsNearest` | detection/adversarial_attack.py:83-97 | For an original within its bounds every mutable candidate feature is taken to the nearest allowed value, and features the candidate lacks are left alone. |
| `AttackNearest.ManifestIsApplied` | detection/adversarial_attack.py:83-97 | Entry by entry of the constraint manifest, a missing feature counting as zero: an unlisted feature may become anything, an immutable one stays, any other keeps its bounds and direction for an original within the bounds. |
| `AttackNearest.ResultMeans` | detection/adversarial_attack.py:83-117 | What every result and iterate is, feature by feature, for an original within its bounds: immutable features as they were, all others within bounds and direction, and all moves together no longer than epsilon. |
| `AttackNearest.MissingCountsAsZero` | detection/adversarial_attack.py:76-78 | A feature the vector lacks is probed and moved from zero. |
| `AdversarialAttack.ApplyConstraints` | detection/adversarial_attack.py:83-97 | The loop computes the clamped vector, whatever the order of the candidate's items. |
| `AdversarialAttack.CollectDeltas` | detection/adversarial_attack.py:102-108 | The loop collects the mutable features and their displacements, in feature order. |
| `AdversarialAttack.ProjectL2` | detection/adversarial_attack.py:100-117 | Returns the vector itself when it is in the ball, and otherwise the point on the segment to the original at fraction epsilon over norm. |
| `AdversarialAttack.WriteScaled` | detection/adversarial_attack.py:113-117 | The write-back loop changes exactly the listed features, each to its point at the given fraction. |
| `AdversarialAttack.SteppedMeaning` | detection/adversarial_attack.py:146-148 | A step moves each mutable feature by its own coordinate of the normalised direction and leaves every other entry. |
| `AdversarialAttack.TakeStep` | detection/adversarial_attack.py:141-148 | The loop computes that step. |
| `AdversarialAttack.DirectionsUsable` | detection/adversarial_attack.py:137-145 | Whenever the gradient's norm is not zero, neither is that of its signs or of its opposite, so the divisions are defined. |
| `AdversarialAttack.NegatedDescends` | detection/adversarial_attack.py:168-178 | A PGD step moves each mutable feature by minus its forward difference (step 0.001) over the length of all of them, times alpha, and nothing else. |
| `AdversarialAttack.DescentLowers` | detection/adversarial_attack.py:173-178 | To first order a PGD step changes the probability by exactly minus alpha times the length of its slope. |
| `AdversarialAttack.SignsStep` | detection/adversarial_attack.py:132-148 | An FGSM step moves every mutable feature by one common amount, up exactly where its forward difference is positive and down exactly where it is negative, and by epsilon altogether. |
| `AdversarialAttack.SignedStepRaises` | detection/adversarial_attack.py:140-148 | To first order an FGSM step of positive budget raises the probability: it goes the opposite way of PGD. |
| `AdversarialAttack.FlatIffZeroNorm` | detection/adversarial_attack.py:136-137 | The gradient has norm zero if and only if every forward difference over a mutable feature is zero. |
| `AdversarialAttack.Constrain` | detection/adversarial_attack.py:149-150 | Clamp then project: immutability, direction, bounds and the ball hold at once, for any original. |
| `AdversarialAttack.FgsmAttack` | detection/adversarial_attack.py:120-152 | Fails exactly on unknown features; the result is the input if the probability is flat in every mutable feature, and otherwise one signed step, clamped and projected; it leaves immutable features alone, lies in the ball, keeps every bound the original meets and the direction unless the original is beyond the bound it moves towards; the returned probability is that of the result. |
| `AdversarialAttack.PgdStep` | detection/adversarial_attack.py:168-181 | One iteration is a steepest-descent step from the current iterate, clamped and projected; none is taken exactly where the probability is flat in every mutable feature. |
| `AdversarialAttack.PgdAttack` | detection/adversarial_attack.py:155-183 | Every iterate keeps all four constraints and comes from its predecessor by one such step; the loop stops early only where the probability is flat; it fails exactly for non-positive steps or unknown features. |
| `WalkForward.OnlySharedLabelsRaise` | backtesting/backtest_runner.py:380-403 | On the splitter's own folds `assert_no_lookahead` raises if and only if train and test share an index label. |
| `FoldContents.LookaheadIff` | backtesting/backtest_runner.py:380-403 | For any training and test rows: `assert_no_lookahead` passes if and only if no index label is shared, every training row and every known training label lies more than the gap before the boundary, and no test row before it; otherwise it raises the first of these that fails. |
| `WalkForward.UniqueLabelsNeverShare` | backtesting/backtest_runner.py:362-375 | With unique labels no fold's train and test rows share one. |
| `WalkForward.WalkForwardSplits` | backtesting/backtest_runner.py:343-377 | The loop terminates, returns the folds of all boundaries in order, and raises the shared-rows error if and only if some fold shares an index label; never with unique labels. |
| `WalkForward.CheckedFold` | backtesting/backtest_runner.py:363-375 | The body of the loop builds the fold at one boundary, skips it when a side is empty, and raises if and only if its sides share a label. |
| `WalkForward.UniqueLabelsAreClean` | backtesting/backtest_runner.py:362-375 | With unique labels no fold of any boundary shares a label. |
| `WalkForward.SplitsComeFromBoundaries` | backtesting/backtest_runner.py:362-377 | Every returned split is the non-empty fold of a boundary between the first and the last time. |
| `FoldContents.SplitIff` | backtesting/backtest_runner.py:358-377 | The splits are exactly the folds with rows on both sides at the boundaries first, first plus step, and so on up to the last row. |
| `FoldContents.FirstBoundaryIs` | backtesting/backtest_runner.py:358-359 | The first boundary is one training window, or one step without one, after the earliest row. |
| `FoldContents.FoldHolds` | backtesting/backtest_runner.py:363-372 | Row by row, with multiplicity: a fold trains on all rows observed before the cutoff, within the training window if there is one and labelled before the cutoff if label times are used, and tests on all rows of its test window. |
| `WalkForward.NoLookahead` | backtesting/backtest_runner.py:364-370 | Every training time, and every training label time if configured, plus the gap is strictly before every test time of the same fold. |
| `WalkForward.TestedExactlyOnce` | backtesting/backtest_runner.py:362-376 | When step equals test window, a row is tested once if it is at or after the boundary and its window's fold has training rows, and otherwise never. |
| `WalkForward.EveryRowTestedOnce` | backtesting/backtest_runner.py:358-377 | The same from the first boundary, for every row of the frame. |
| `WalkForward.CoverageIffTiling` | backtesting/backtest_runner.py:362-376 | On spans of at least a step and a window, every time from the first boundary on lies in exactly one candidate test window if and only if step equals test window. |
| `WalkForward.ConfusionAppend` | backtesting/backtest_runner.py:96-101 | Confusion counts of concatenated folds are the sums of the folds' counts. |
| `WalkForward.ConfusionCounts` | backtesting/backtest_runner.py:96-101 | The four counts are the numbers of rows that score at or above the threshold, or below it, with target 1, or 0. |
| `WalkForward.ConfusionTotal` | backtesting/backtest_runner.py:96-101 | Every row with a 0/1 label is counted in exactly one cell. |
| `WalkForward.RunWalkForward` | backtesting/backtest_runner.py:406-455 | One fold per split, each counted with the model fitted on its own training rows; the aggregate counts are the fold sums and, for 0/1 labels, total the tested rows; it fails if and only if there are no folds or some fold shares a label. |
| `ScoreCache.RunKeepsInv` | api/score_cache.py:59-74 | Over every interleaving of lookups, score writers and maintenance writers, every entry and every lookup in progress is backed by a committed database state at least as new as its token. |
| `ScoreCache.EntryTokensAreConservative` | api/score_cache.py:70-73 | Every stored entry's token is at most the generation of the snapshot its value was computed from. |
| `ScoreCache.AnswersAreFresh` | api/score_cache.py:59-74 | Every answer is the query's value on a committed state whose generation is at least the one the lookup read: a state committed during the lookup, or one separated from its start by token-neutral maintenance only. |
| `CacheHits.ProbeDecides` | api/score_cache.py:61-68 | In every reachable state a lookup is answered from the cache, with the entry's value and age, if and only if the key has an entry of the token's generation that is at most the maximum age old; otherwise it goes on to compute. |
| `CacheHits.LaterLookupHitsIff` | api/score_cache.py:59-74 | Over every run: after one lookup stored a value, another lookup of the key that probes before the entry is replaced or cleared gets that value if and only if the two read the same token and its clock reading is within the maximum age of the store. |
| `CacheHits.StoreReplaces` | api/score_cache.py:70-74 | A computed value is stored under the token read before the computation, replaces that key's entry only, and is returned as a miss of age zero. |
| `CacheHits.StepsComeInOrder` | api/score_cache.py:59-74 | In every state the steps of a lookup come one after the other: token, clock, entry, computation or its failure, store. |
| `CacheHits.RaiseLeavesNothing` | api/score_cache.py:70-70 | A computation that raises stores nothing and answers nothing. |
| `CacheHits.ClearedKeyIsComputed` | api/score_cache.py:76-78 | Over every run: after `clear`, a lookup that probes before anything is stored for its key goes on to compute. |
| `ScoreCache.StalenessIsBounded` | api/score_cache.py:60-74 | How long before the hit's clock reading its state can have been superseded, whatever the change: the maximum age plus the time its computation took from reading the database to storing. |
| `ScoreCache.StalenessIsAttained` | api/score_cache.py:60-74 | That bound is attained for every change the token does not see and every duration of the computation: a hit still answers from the old state, superseded for the maximum age and that duration; so the maximum age alone is not a bound. |
| `ScoreCache.OnlyWritesGrowStrictly` | api/score_cache.py:59-61 | If only score writes commit, the token identifies the database state. |
| `ScoreCache.LinearizableWithoutMaintenance` | api/score_cache.py:59-74 | Then each answer is the query on a state that was committed no earlier than the one current when the lookup began and no later than its end. |
| `RateLimit.ListLimiter.constructor` | api/main.py:96-102 | A new limiter knows no requests. |
| `RateLimit.ListLimiter.Check` | api/main.py:96-116 | For every request sequence with a non-decreasing clock a request is admitted if and only if the trailing half-open window holds fewer than the cap of all earlier admissions, although only the pruned bucket is stored. |
| `RateLimit.DequeLimiter.constructor` | api/export_router.py:40-49 | A new limiter knows no requests. |
| `RateLimit.DequeLimiter.Check` | api/export_router.py:40-49 | The same for the deque form and the closed window. |
| `SlidingWindow.PopOld` | api/export_router.py:45-46 | On a deque sorted by time the `popleft` loop is the filter by the closed window (also `api/policy.py` line 300). |
| `SlidingWindow.RecentTwice` | api/main.py:110-110 | Evicting early makes no difference to what counts later, for either edge convention. |
| `RateLimit.RequestKeepsClient` | api/main.py:108-116 | Pruning and appending keep the bucket equivalent to the full admission history at every later time, for either edge convention. |
| `RateLimit.RequestKeepsAll` | api/main.py:108-116 | A request by one client keeps that equivalence for every client. |
| `RateLimit.AdmissionsArePaced` | api/main.py:110-116 | Every admission found fewer than the cap of earlier ones in its window. |
| `RateLimit.AnyWindowHoldsAtMostCap` | api/main.py:96-116 | For every request sequence, any interval of one window length holds at most the cap of admissions. |
| `WindowCounts.AdmittedIff` | api/main.py:108-116 | From times alone, for either edge convention: a request is admitted if and only if fewer than the cap of all earlier admissions are less than (no more than) a window older. |
| `WindowCounts.NoIntervalHoldsMore` | api/main.py:96-116 | For every request sequence and every start, the number of admissions in the interval of one window length is at most the cap. |
| `WindowCounts.CapIsReached` | api/main.py:111-116 | Of any burst exactly the cap is admitted: the bound is attained. |
| `RateLimit.LimitersAgree` | api/export_router.py:40-49 | Up to the edge convention the deque form refines the list form: with no two requests exactly one window apart both take every decision alike. |
| `RateLimit.LimitersDifferAtTheEdge` | api/export_router.py:45-46 | At exactly one window's distance only the list form admits again. |
| `IpRange.SameRangeIffSameSpelling` | api/policy.py:266-273 | Two addresses share a range if and only if they spell the first three groups of the same notation alike (or are the same other text, the empty one counting as unknown). |
| `IpRange.WrittenOutIpv6` | api/policy.py:268-269 | Two IPv6 addresses written out in full, lower case and without leading zeros share a range if and only if they share their /48. |
| `IpRange.WrittenOutIpv4` | api/policy.py:270-272 | Two dotted quads without leading zeros share a range if and only if they share their /24. |
| `IpRange.CompressionKeepsRangeIff` | api/policy.py:268-269 | An IPv6 address and its form with "::" for a run of groups, leading, inner or trailing, share a range if and only if the run begins behind the third group. |
| `IpRange.CompressionMergesNetworks` | api/policy.py:268-269 | With "::" behind the first group, addresses that agree on that group and on the first one after the "::" share a range; if one of them compresses a single group and the other more, they share their /48 if and only if that next group is zero. |
| `IpRange.ColonRange` | api/policy.py:268-269 | A colon range splits back into the leading groups of its address. |
| `IpRange.QuadRange` | api/policy.py:270-272 | A dotted range splits back into the three leading parts of its address. |
| `KeyCycling.KeyCyclingDetector.constructor` | api/policy.py:283-288 | A new detector has seen nothing. |
| `KeyCycling.KeyCyclingDetector.Observe` | api/policy.py:290-313 | Abusive if and only if the full history of the range, filtered to the window, has at least `threshold` distinct fingerprints; an alert is emitted exactly when none was within the last window, alerts of a range are more than a window apart, and an abusive range never goes a window without one; an empty key changes nothing. |
| `KeyCycling.KeyCyclingDetector.Reset` | api/policy.py:315-318 | Clears histories and alerts. |
| `KeyCycling.ObservationKeepsRange` | api/policy.py:298-301 | Appending to and pruning the stored deque gives exactly the fingerprints of the whole history filtered to the window. |
| `KeyCycling.Observed` | api/policy.py:297-301 | That equality holds for all ranges after an observation of one. |
| `KeyCycling.AlertExtends` | api/policy.py:305-307 | An alert that is due leaves all alerts of its range, not just neighbours, more than a window apart. |
| `KeyCycling.Alerted` | api/policy.py:305-307 | Due alerts keep the spacing of every range, and when none is due one was sent within the window. |
| `KeyCycling.DistinctKeys` | api/policy.py:296-304 | An abusive verdict always rests on that many distinct keys; it is missed only if two keys of the window collide. |
| `WindowCounts.AbusiveIff` | api/policy.py:297-304 | From the presentations alone: the verdict is abusive if and only if some `threshold` presentations of the range in the last window have pairwise different fingerprints. |
| `WindowCounts.CountedPrints` | api/policy.py:298-303 | A fingerprint is counted if and only if it was presented within the last window. |
| `BatchJobs.RunKeepsInv` | api/batch_router.py:79-229 | Over every run of any number of processes with crashes and database errors: rows are kept until they are too old, keys are reused only after their window, no process exceeds five slots, slots belong exactly to reserved or stored requests, unfinished tasks and the errors that leaked them, and every committed job is scheduled once, about to be, or orphaned by a crash. |
| `BatchJobs.CapHolds` | api/batch_router.py:186-199 | Each process's active set never exceeds five. |
| `BatchLeaks.IdleHoldsLeaks` | api/batch_router.py:137-229 | An idle process holds precisely the slots leaked by a raising insertion or a raising first task update, one for each since its last crash: none if and only if there was none. |
| `BatchLeaks.LeaksAreFailures` | api/batch_router.py:199-207 | Each such error leaks exactly one slot, in every run. |
| `BatchLeaks.FiveFailuresExhaust` | api/batch_router.py:186-190 | After five of them every later request of the process that needs a slot is answered 429, in every continuation without a crash. |
| `BatchLeaks.LeaksHappen` | api/batch_router.py:199-207 | For every number up to five there is a run with that many leaked slots and nothing else held. |
| `BatchJobs.RetryReturnsOriginal` | api/batch_router.py:175-184 | A request that consults a key whose mapping and job are unexpired is answered with the original job, before or after losing a race. |
| `BatchJobs.RacerIsBeaten` | api/batch_router.py:208-218 | While a key is unexpired no second insertion under it commits: the racer is rolled back, its slot returned, the tables unchanged. |
| `BatchJobs.LoserLeavesNothing` | api/batch_router.py:214-218 | For all of the future the loser's job id has no row, no key mapping, no slot and no task. |
| `BatchJobs.OneLiveJobPerKey` | api/batch_router.py:201-213 | Of two jobs ever committed under one key, the earlier one's mapping has expired. |
| `BatchJobs.ExistingIsHonest` | api/batch_router.py:90-97 | A job returned in place of a new one was committed under the caller's key and still exists. |
| `BatchJobs.QueuedIsNew` | api/batch_router.py:228-229 | A job is announced as queued and scheduled once, after it was committed. |
| `BatchJobs.ExpiredKeyIsReused` | api/batch_router.py:79-88 | From every reachable state, a request whose key has only expired uses, and for which a slot is free, purges the key and commits a new job under it. |
| `BatchJobs.PromiseExact` | api/batch_router.py:79-97 | Every retry inside the dedup window finds the original job, in all runs, if and only if the window is not longer than the job TTL of 24 hours. |
| `BatchJobs.OutlivedKeyConflicts` | api/batch_router.py:214-221 | Once a key row has outlived its job row, a retry with a free slot is answered 409 and changes no table. |
| `BatchRequests.ServedAlone` | api/batch_router.py:163-229 | Any request in any reachable state that nothing disturbs is answered: with the unexpired job of its unexpired key if there is one, else 429 if five jobs are active in its process, else 409 if its key is unexpired, else with a new job; and it leaves exactly the unexpired rows plus the rows and the slot of a new job. |
| `BatchRequests.PurgedIff` | api/batch_router.py:79-87 | For any two clock readings in order, the purge deletes exactly the jobs older than 24 hours by the first and the keys older than the window by the second. |
| `BatchRequests.KeylessIsNeverShared` | api/batch_router.py:177-229 | In every run, a request without a key is never answered with another job or a conflict. |
| `BatchRequests.FailsIffAtDatabase` | api/batch_router.py:175-219 | A request can fail exactly where it uses the database, and then leaves both tables as they were. |
| `BatchRequests.CrashLosesMemoryOnly` | api/batch_router.py:19-32 | A crash empties the slots, requests and tasks of its process and leaves the tables and the other processes as they were. |
| `BatchRequests.FinishReturnsSlot` | api/batch_router.py:155-156 | In every reachable state a task that ends gives back exactly one slot, its own. |
| `BatchRequests.ErrorKeepsSlot` | api/batch_router.py:137-139 | In every reachable state a task whose first update raises keeps its slot, and no task is left to give it back. |
| `CursorStream.RunKeepsInv` | run_pipeline.py:716-742 | Every sequence of trades, flushes, crashes, interrupts, reconnects, rejected cursors and restarts keeps file cursor <= last cursor <= source cursor <= position where they are real, and everything before each of them saved, buffered, in hand or on record as passed over. |
| `CursorStream.PersistedCursorIsCovered` | run_pipeline.py:833-840 | In every run, of the trades from the origin up to the persisted cursor exactly those on record as passed over are unsaved; none are if the source withholds nothing and only the first connection was at "now". |
| `CursorStream.NothingUnrecorded` | run_pipeline.py:727-737 | In a running session every trade between the origin and the position is saved, buffered, being handed over, or on record as passed over and unsaved. |
| `CursorStream.BufferIsBounded` | run_pipeline.py:728-737 | The buffer never exceeds the batch size (one trade, for batch sizes below one). |
| `CursorFlushes.FlushedIffDue` | run_pipeline.py:733-737 | After every trade of every run the buffer is flushed if and only if it has reached the batch size or the clock reads at least one interval more than when the session began or last completed a flush. |
| `CursorFlushes.FlushCompletes` | run_pipeline.py:735-737 | A flush that is not cut short saves the whole buffer before the cursor is put on file, and then empties the buffer. |
| `CursorFlushes.InterruptFlushes` | run_pipeline.py:738-742 | A keyboard interrupt with nothing buffered, or during the handler, ends the session and writes nothing; otherwise the handler saves the whole buffer, puts the cursor on file and then ends it. |
| `CursorSource.YieldedIff` | ingestion/horizon_streamer.py:177-182 | An event is yielded if and only if dedup is off, or it is neither older than a positive replay window nor marked; it is passed either way, and only a yielded one is marked. |
| `CursorSource.ResumesBehindLastId` | ingestion/horizon_streamer.py:158-167 | In every run, a reconnect resumes right behind the last event that had an id: the events without ids since then come again. |
| `CursorSource.ResumesAtFile` | run_pipeline.py:716-728 | A session starts at the token on file, or at the head without one, and reconnects there until an event with an id comes. |
| `CursorSource.RejectedTokenIsForgotten` | ingestion/horizon_streamer.py:195-204 | After a rejection, that connection and every further one until an event with an id begin at the head, and there is no second rejection. |
| `CursorSource.NoTradeTwice` | ingestion/horizon_streamer.py:177-179 | Over every run in which no mark expires and no process-local store is started anew: no trade is yielded twice, whatever reconnects and rejections happen. |
| `CursorSource.ExpiredMarkYieldsAgain` | ingestion/dedup.py:110-119 | Expiry is what that needs: after the mark of a trade that is not too old has expired, a reconnect that meets it yields it again. |
| `CursorLosses.CursorNeverMovesBack` | run_pipeline.py:716-731 | Once a real cursor is on file and as long as the source rejects none, it stays and only moves forward, no connection jumps over trades, and a source that withholds nothing loses nothing. |
| `CursorLosses.RejectionLoses` | ingestion/horizon_streamer.py:195-204 | Otherwise: from every state a rejected cursor (HTTP 404 or 410) has a continuation that loses any given unread trade for good. |
| `CursorLosses.StopBeforeFirstCursorLoses` | run_pipeline.py:716-728 | Stopping before the first real cursor is on file loses every unsaved trade the session had passed. |
| `CursorLosses.LossIffNoCursor` | run_pipeline.py:716-742 | In every reachable state of a run without rejections, with a source that withholds nothing, an unsaved trade already passed can still be lost if and only if no real cursor is on file. |
| `CursorLosses.LostForever` | run_pipeline.py:716-742 | A trade every cursor has passed unsaved is never saved in any continuation. |
| `CursorLosses.ReplayWindowLoses` | ingestion/dedup.py:311-340 | With any dedup store and a positive replay window there is a run whose persisted cursor has passed a trade that was too old when it was fetched, and was never saved. |
| `CursorLosses.SharedMarksLose` | ingestion/horizon_streamer.py:177-188 | With a shared dedup store there is such a run whatever the replay window. |
| `CursorLosses.AtLeastOnceExact` | run_pipeline.py:833-840 | At-least-once up to the persisted cursor holds over all runs whose only connection at "now" is the first if and only if dedup is off, or its marks die with the process and there is no replay window. |

## Left out

- TokenFamilies.RunKeepsInv: assumes that a refresh token is presented only after it was emitted, as for any bearer of a signed token; the last row on token families shows what breaks otherwise.
- TokenFamilies.NothingSucceedsAfterReuse: a call whose locked section preceded the revocation may still emit its tokens; they are refused when used.
- Jwt.DecodeInvertsEncode: JSON is an invertible function of a claims dictionary; payloads that are JSON but not objects are not modelled.
- EventChain.ScoringEventStore.Append: one append at a time, although the source reads the predecessor and inserts on separate connections; equal timestamps are ordered by insertion, and the text order of timestamps is taken as their time order, which holds when all carry the same offset.
- EventChain.VerifyAfterAppends: custody signatures, the `summary` query and negative replay limits are not modelled.
- ScoreStream.OutcomeIsExact: a request iterator that raises on its own is any other raising source; the consumer's `get` may time out whenever the queue is empty, which covers every timing.
- GraphqlBound.StaticCostBoundsExecution: for documents whose written-out form repeats a response key, being whole is sufficient only: execution merges the repeated fields, so some of them are bounded without being whole. Introspection fields are free in the analysis and in the execution alike; field errors and null propagation only remove fields and are covered by choosing null values.
- AdversarialAttack.FgsmAttack: arithmetic over the reals, and the 2-norm an arbitrary function whose square is the sum of squares; negative epsilon and non-numeric features are not modelled.
- AdversarialAttack.PgdAttack: the same; the ensemble probability is an arbitrary function of the vector.
- WalkForward.WalkForwardSplits: rows always have a feature time; missing ones (NaT) are not modelled, missing label times are.
- WalkForward.RunWalkForward: precision, recall, F1, AUC and average precision are not modelled; the counts they rest on are.
- ScoreCache.AnswersAreFresh: assumes that the token never shrinks, so deleting the newest score row is not modelled; the age guard is the subject of the two staleness rows.
- RateLimit.ListLimiter.Check: the cap and the window of a limiter are fixed; the source passes the cap on each call.
- KeyCycling.KeyCyclingDetector.Observe: the lock makes calls atomic; time readings that go backwards are not modelled.
- BatchJobs.RunKeepsInv: the status and result columns are not modelled; an error while rolling back or while re-reading the winner is a failed request.
- CursorStream.RunKeepsInv: the cursor file is written atomically, and the `mark_seen` call after each yield, which the dedup class does not define, has no effect beyond a reconnect.
- Scoring, Benford, graph, GNN, SHAP, drift, contract, governance and federated logic, HTTP, WebSocket and SSE plumbing, WAF patterns, retention tiers, webhooks, metrics and logging: outside these kernels.
