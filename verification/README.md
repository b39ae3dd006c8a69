# Verified model of the RM copilot

A Dafny model of the logic that a banking relationship-manager copilot depends
on: the token vault that keeps personal data out of prompts, the knowledge-base
chunker, the outreach protocol with its daily limits and delivery funnel, the
gateway's rate limiter, the browser's streaming readers, the scoring graph,
retrieval fusion, event detection and the opportunity store.
`dafny verify dfyconfig.toml` checks everything.

Loops and objects of the program are methods and classes, each proved equal to
a function of its inputs or its old state; the properties are lemmas about those
functions, over every input and every run. Concurrent parts are state machines
whose steps are the single database and Redis accesses. Money, confidences,
scores and times are exact reals or integers.

| file | about |
|---|---|
| `Text.dfy`, `OrderedDict.dfy`, `Rounding.dfy`, `Options.dfy` | Python strings, insertion-ordered dictionaries, rounding, options |
| `PiiVault.dfy`, `PiiMasker.dfy`, `VaultSession.dfy` | masking, unmasking, the vault of a session |
| `OverlappingSpans.dfy`, `UnmaskedText.dfy`, `VaultRaces.dfy` | detections that overlap, text no masking call produced, calls of one session at once |
| `Chunker.dfy` | greedy packing of paragraphs and sentences |
| `Compliance.dfy`, `Tracking.dfy`, `Outreach.dfy`, `OutreachRuns.dfy`, `LateApproval.dfy`, `OutreachMessages.dfy`, `OutreachTasks.dfy` | daily counters, receipts, the whole outreach protocol, messages against counts, its handlers |
| `RateLimiter.dfy` | per-minute request limits |
| `StreamingOption.dfy`, `PrintedObject.dfy`, `EventStream.dfy` | incremental JSON field reader, the same on objects with several members, line buffer |
| `ScoringGraph.dfy` | agents, retries, routing |
| `Retrieval.dfy`, `Reranker.dfy` | rank fusion, score cut and its cache |
| `Sanitiser.dfy` | removal of vault markers from messages |
| `TransactionIntel.dfy`, `EventDetection.dfy`, `EventScan.dfy`, `OpportunityStore.dfy` | summaries, rules, scans, opportunities |

## What turned out false, and exactly when the code is right

- Masking is undone for disjoint detections. The detector may report overlapping
  ones. Whatever it reports, the masked text is a run of plain characters and
  whole tokens (`MaskHides`), and a text without `[` comes back exactly when the
  plain reading of that run is the text (`RestoredIffReadingIsText`). That gives
  length conditions for two overlapping detections (`DoubleDetection`) and for
  any number that end at one point (`NestedDetections`), among any others: a
  number with country code and separator, found as phone and as account, never
  comes back (`CountryCodeIsLost`); a plain mobile number comes back only at the
  end of the text and with the phone masked first (`MobileNumberRestored`), one
  with country code and no separator, found three times, only at the end
  (`UnseparatedNumberRestored`), both among the first nine of their kinds.
- Text that already contains tokens the detector did not report is rewritten:
  unmasking replaces all tokens of the vault at once, in whatever text it is
  given (`UnmaskReplacesAll`), so a masked text comes back exactly when every
  token it shows, reported or not, stands for what it covers
  (`RestoredWithUnreported`), with a proviso on lengths as below.
- Counters restart at every masking call, so an older masked text of a session
  can read back as a newer one (`EarlierMaskReadsAsLater`). With any later vault
  it reads as the text with each stretch replaced by what its token now stands
  for (`UnmaskReads`); it is restored exactly when every token still stands for
  its stretch (`OlderMaskRestored`), unless lengths changed in opposite
  directions, when it can come out right by accident (`OppositeChangesRestore`).
- A dispatch numbers the token it invents by the size of the vault it has read.
  No token is invented twice, while the session's key lasts, exactly when the
  session's dispatches and masking calls come one at a time
  (`InventedOnceIffSerial`); two dispatches at once can send one customer's
  message to another (`MessageReachesOther`).
- The daily send limit holds in every run exactly if dispatches never overlap
  between check and increment (`DailyLimitIffSerial`). It limits increments:
  messages whose dispatch fails after the send are never counted, and with W
  workers and L such losses a contact gets up to limit + W - 1 + L messages a
  day, and no more (`MessagesLimitExactly`).
- The limiter is described as a sliding window but counts fixed minutes. A window
  of k minutes keeps k times the limit exactly when it starts on a minute
  (`WindowLimitIffAligned`); others admit (k + 1) times the limit. The two-minute
  expiry is enough exactly when no increment comes over a minute after its clock
  read (`LimitIffPunctual`).
- An approval checks that the campaign is unsent and commits later; it can
  commit after the campaign is marked sent (`ApprovalAfterMark`), exactly when
  the mark falls between its check and its commit (`ApprovalFollowsMarkExactly`).
- The incremental reader looks for the quoted key anywhere, and an escaped quote
  inside a value can spell it. It reads the wanted member exactly when no member
  before it is named by the key and no value mentions the key, save the value
  right before it (`ReadsWanted`, `MemberReadsBack`).
- The sanitiser looks for `<PII_...>`; the masker issues `[PREFIX_n]`, which
  passes through as safe (`MaskerTokensPass`).
- The rerank cache key leaves out the number of results asked for; a hit is
  right exactly when both cuts have the same length (`CacheAgrees`).
- The medical rule's threshold of 50,000 is in effect 80,000, because of the
  minimum confidence (`DetectedExactly`). Retirement and promotion detections
  can be lost by adding transactions; promotion depends on the order of months.
- Of eight event kinds a scan can store three, home purchase only through a
  stored merchant category that mentions furniture or interiors
  (`ScanSeesExactly`); overlapping scans can store one event twice
  (`UniqueIffSerial`).
- A read that queried before a dismissal can put the dismissed opportunity back
  into the cache; no cached list holds one exactly when requests are handled
  one at a time (`CleanIffSerial`), if no deletion from the cache fails: a failure
  is swallowed and leaves the row where it was listed (`FailedDeleteIsStale`).
- Scoring looks a customer's NEW row up and inserts one later, with no constraint
  in the table. A customer has one NEW row at most, and is listed at most once in
  the digest, in every run exactly when scorings do not overlap (`OneNewIffSerial`,
  `TopListedOnceIffSerial`); the nightly scoring and the event scan can.

The graph builder's documentation speaks of a parallel fan-out; its edges are
sequential, and the model follows the edges. With `reraise` set the branch of
`run` for an exhausted retry is never taken; the model has no such failure.

## Model

| member | source | states |
|---|---|---|
| PiiMasker.MaskText | services/gateway/middleware/pii_mask.py:186-215 | The masking loop, for any detections in any order, produces the specified text and vault. |
| PiiMasker.Masker.StoreVault | services/gateway/middleware/pii_mask.py:217-231 | Storing merges into the session's vault, newer bindings winning, and leaves other sessions alone. |
| PiiMasker.Masker.MaskPrompt | services/gateway/middleware/pii_mask.py:241-249 | Masking returns the masked text and advances exactly the session's vault by a mask step. |
| PiiMasker.Masker.Unmask | services/gateway/middleware/pii_mask.py:251-264 | The replacement loop is the composition of one full replacement per vault entry, in vault order. |
| PiiMasker.Masker.TargetToken | services/workers/tasks/outreach_dispatch.py:100-120 | The dispatch reuses the first entry holding the contact, else stores a new token, and nothing else changes. |
| PiiVault.MaskHides | services/gateway/middleware/pii_mask.py:200-215 | For any detections in range, overlapping or not, the masked text is a run of plain characters and whole tokens, which the call's own vault binds to the stretches they stand for. |
| PiiVault.PrefixTellsKind | services/gateway/middleware/pii_mask.py:138-148 | Two kinds of detection share a token prefix exactly if they are the same, both persons, or both unlisted. |
| PiiVault.DisjointHides | services/gateway/middleware/pii_mask.py:200-215 | For disjoint detections that run hides the text itself and shows exactly the vault's tokens. |
| PiiVault.AnyMaskRead | services/gateway/middleware/pii_mask.py:186-264 | For any detections and any vault that still binds the call's tokens, unmasking in any order gives the plain reading of the run, provided no vault token occurs in it. |
| PiiVault.MaskIndexBound | services/gateway/middleware/pii_mask.py:200-213 | Every index in the vault of a call is between 1 and the number of its entries, for any spans. |
| PiiVault.UnmaskRestores | services/gateway/middleware/pii_mask.py:260-264 | Replacing tokens one after another in any covering order restores the text, if no token occurs in it. |
| PiiVault.UnmaskReads | services/gateway/middleware/pii_mask.py:251-264 | With any vault at all, older, newer or emptied, and for any detections, unmasking gives the run with each token read as what it stands for there, if none of the vault's tokens occurs in that. |
| PiiVault.RestoredExactly | services/gateway/middleware/pii_mask.py:251-264 | With any vault a masked text is restored exactly when each token still stands for its stretch, for lengths that did not change in opposite directions and a reading free of tokens. |
| PiiVault.UnmaskInvertsMask | services/gateway/middleware/pii_mask.py:186-264 | Unmask inverts mask with any merged vault in any order, provided no vault token occurs in the text. |
| VaultSession.InventedTokenIsFresh | services/workers/tasks/outreach_dispatch.py:104-120 | In every session run the vault's indices stay within its size, so an invented contact token is new. |
| VaultSession.ProviderReachesContact | services/workers/tasks/outreach_dispatch.py:100-155 | In every session run the provider's unmask of the chosen token is exactly the customer's contact; for a contact found in the vault, provided no vault token occurs in it. |
| VaultSession.LatestMaskRoundTrips | services/gateway/middleware/pii_mask.py:217-264 | Whatever came before and whatever dispatches follow, the latest masked text of a session is restored, provided no token of the vault occurs in the text. |
| VaultSession.StepsBetweenChoiceAndSend | services/workers/tasks/outreach_dispatch.py:100-129 | Whatever the session does between choice and send, expiry included, the contact is reached exactly when the vault still turns the token into it, with the same proviso. |
| VaultSession.MaskBetweenChoiceAndSend | services/workers/tasks/outreach_dispatch.py:100-129 | With a masking call in between, the contact is reached exactly when that call does not issue the token for something else, provided no vault token occurs in what the token stands for. |
| OverlappingSpans.RestoredIffReadingIsText | services/gateway/middleware/pii_mask.py:186-264 | A text without opening brackets, whatever was detected in it: unmasking gives the plain reading of its cells, and the text exactly when that reading is the text. |
| OverlappingSpans.PairReads | services/gateway/middleware/pii_mask.py:203-213 | In any text, among any disjoint detections: what an overlapping pair reads as, up to the second span's end the text and then what that span left of the first token and of what is shown behind it. |
| OverlappingSpans.DoubleDetection | services/gateway/middleware/pii_mask.py:203-213 | Such a pair, in a text without opening brackets, and without closing ones if something is detected behind the pair, is restored exactly when, at the end of the text, the first token fits its stretch, or elsewhere it is as long as it and what the second span leaves of it reads like the text. |
| OverlappingSpans.NestedDetections | services/gateway/middleware/pii_mask.py:203-213 | Any number of detections that end at one point, in a text without brackets, are restored exactly when no token is left over and nothing behind is swallowed, or nothing stands behind. |
| OverlappingSpans.CountryCodeIsLost | services/gateway/middleware/pii_mask.py:94-122 | A number written with country code and separator, found as phone and as account, is never restored, whatever disjoint detections stand around it. |
| OverlappingSpans.MobileNumberRestored | services/gateway/middleware/pii_mask.py:94-122 | A plain mobile number, found as phone and as account, is restored exactly at the end of the text with the phone masked first, among the first nine phones. |
| OverlappingSpans.UnseparatedNumberRestored | services/gateway/middleware/pii_mask.py:71-122 | A number with country code and no separator, found as phone, account and Aadhaar, is restored exactly at the end of the text, among the first nine of each kind. |
| UnmaskedText.UnmaskReplacesAll | services/gateway/middleware/pii_mask.py:251-274 | Unmasking any text, model output included, with the vault in any order replaces all its tokens at once, if no token that stands for something else occurs in the result. |
| UnmaskedText.MaskedTextReads | services/gateway/middleware/pii_mask.py:196-264 | Any masked text, with overlaps and unreported tokens, is unmasked to its cells, each token read as what it stands for, with the same proviso. |
| UnmaskedText.RestoredWithUnreported | services/gateway/middleware/pii_mask.py:196-264 | For disjoint detections it is restored exactly when every token it shows, reported or not, stands for what it covers, if the lengths did not change both ways. |
| VaultRaces.InventedOnceIffSerial | services/workers/tasks/outreach_dispatch.py:100-120 | With the vault's reads and writes as separate accesses, no token is invented and stored twice in every run exactly when the session's dispatches and masking calls do not overlap. |
| VaultRaces.MessageReachesOther | services/workers/tasks/outreach_dispatch.py:100-129 | A run in which two customers get one token and the first one's message goes to the second. |
| VaultSession.EarlierMaskReadsAsLater | services/gateway/middleware/pii_mask.py:200-213 | Two masking calls of a session, each one whole text of one kind: the first masked text is unmasked to the second text. |
| VaultSession.OlderMaskRestored | services/gateway/middleware/pii_mask.py:200-231 | Over every session run, with anything before and after, a masked text is restored exactly when the vault turns each of its tokens into the stretch it stood for, with the provisos of `RestoredExactly`. |
| VaultSession.OlderSingleMaskRestored | services/gateway/middleware/pii_mask.py:200-231 | For one detection the same without the proviso on lengths. |
| VaultSession.OppositeChangesRestore | services/gateway/middleware/pii_mask.py:200-213 | An input where two tokens stand for something else and the older text is restored nevertheless. |
| Chunker.SplitAtSentences | services/rag/ingestion/chunker.py:167-186 | The sentence loop cuts the sentences in order into groups that are single or within the hard maximum, none with room for the next sentence, and each chunk is its group, every character of it, a blank apart. |
| Chunker.ChunkDocument | services/rag/ingestion/chunker.py:88-126 | The paragraph loop does the same with the target and two line breaks; an oversized paragraph stands alone and is replaced, in place, by the chunks of its sentences. |
| Chunker.ParagraphsExactly | services/rag/ingestion/chunker.py:96-126 | The paragraph groups are the only ones that meet those conditions, stated over paragraphs and token counts. |
| Chunker.SentencesExactly | services/rag/ingestion/chunker.py:167-186 | The same for the sentences of an oversized paragraph. |
| Chunker.JoinHolds | services/rag/ingestion/chunker.py:107-126 | Each piece stands unchanged in its chunk behind the pieces and separators before it, consecutive ones exactly a separator apart, and nothing else is in it. |
| Chunker.DocumentIsKept | services/rag/ingestion/chunker.py:88-126 | No character of a document is lost, moved or added but separators: its chunks hold its paragraphs, the oversized ones as their sentences. |
| Chunker.Rule.PackConserves | services/rag/ingestion/chunker.py:96-126 | The groups concatenate to the input in order, and each is a single piece or fits the limit. |
| Chunker.Rule.GreedyStaysAhead | services/rag/ingestion/chunker.py:115-122 | From any point on, greedy needs no more groups than a rival partition still has. |
| Chunker.Rule.PackIsOptimal | services/rag/ingestion/chunker.py:167-186 | No order-preserving partition into legal groups has fewer groups. |
| Chunker.Rule.PackExactly | services/rag/ingestion/chunker.py:96-126 | Greedy packing is the only partition in order into legal groups none of which could take one more piece. |
| Chunker.DocumentIsOptimal | services/rag/ingestion/chunker.py:88-126 | For a whole document no other merging and sentence splitting yields fewer chunks. |
| Compliance.Registry.CheckRateLimit | services/notifications/compliance.py:43-56 | Passes exactly when Redis is missing or the live counter of the current UTC day is below 1000, 500 or 2000 for WhatsApp, SMS and email. |
| Compliance.Registry.IncrementRateLimit | services/notifications/compliance.py:59-72 | Adds one to that counter, restarting an expired one, and renews its day-long expiry. |
| Compliance.Registry.CanSend | services/notifications/compliance.py:75-88 | True exactly when the contact is not opted out and the counter, if there is Redis, is below the limit. |
| Compliance.CounterBound | services/notifications/compliance.py:43-72 | With W dispatches in flight no counter exceeds limit + W - 1, and expiry never loses a count of the day. |
| Compliance.BoundIsReached | services/workers/tasks/outreach_dispatch.py:96-165 | For every W some run reaches limit + W - 1. |
| Compliance.DailyLimitIffSerial | services/workers/tasks/outreach_dispatch.py:96-165 | The limit itself is kept in every run exactly when dispatches do not overlap. |
| Tracking.Campaign.ProcessReceipt | services/notifications/tracker.py:67-98 | Which statuses count as delivered, opened and converted, which columns each sets, overwrites or fills in, and that others change nothing; a sent row keeps the funnel. |
| Tracking.ReceiptSets | services/notifications/tracker.py:67-98 | On a row that changed since the handler read it a receipt sets its own column anew and an earlier one exactly if the handler saw it unset. |
| Tracking.ReceiptReachesOnlyMatch | services/notifications/tracker.py:57-98 | A receipt is written to the one campaign that carries its message id; if none or several do, nothing changes. |
| Tracking.Campaign.MarkSent | services/workers/tasks/outreach_dispatch.py:159-162 | Records time and provider id, touches nothing else, keeps the funnel. |
| Tracking.StepAdvances | services/notifications/tracker.py:70-89 | Each interleaved step keeps the funnel on every row and moves no status backwards. |
| Tracking.FunnelHolds | services/gateway/routers/outreach.py:537-546 | Over every run converted implies opened implies delivered implies sent, and statuses only advance. |
| Tracking.DigestIsFunnel | services/workers/tasks/report_gen.py:145-174 | The digest's counts are the manager's live campaigns sent in the interval that reached each status, so each is at most the one before. |
| Outreach.RowAfter | services/gateway/routers/outreach.py:470-477 | A protocol step changes a campaign's body and session or its sent mark exactly when an approval or a mark of it is due. |
| OutreachRuns.EverySendIsJustified | services/workers/tasks/outreach_dispatch.py:60-155 | In every run each send follows an approval by the owner that found it unsent, a load of the current body and session and a DND check of the same dispatch, and goes to the campaign's own contact. |
| OutreachRuns.OptedOutGetsNothing | services/notifications/compliance.py:26-40 | In every run, when the dispatch behind a send passed its check, the email address or the number it goes to was not on the opt-out list of its kind. |
| OutreachRuns.ApprovedBodyIsSent | services/workers/tasks/outreach_dispatch.py:60-155 | In every run the body sent is the last non-empty edit approved before the dispatch loaded the campaign, else the generated one, in the session chosen last. |
| OutreachRuns.ApprovalCheckExactly | services/gateway/routers/outreach.py:445-468 | In every run an approval passes its check exactly for the owner of a campaign not marked sent. |
| LateApproval.ApprovalAfterMark | services/gateway/routers/outreach.py:464-477 | A run in which an approval commits after its campaign was marked sent. |
| OutreachRuns.ApprovalFollowsMarkExactly | services/gateway/routers/outreach.py:464-477 | In every run an approval follows a mark of its campaign exactly when the mark lies between its check and its commit. |
| OutreachRuns.NoLateApprovalExactly | services/gateway/routers/outreach.py:464-477 | A run accepts no approval of a sent campaign exactly when no mark of it falls between an approval's check and commit. |
| OutreachRuns.InFlightExactly | services/workers/tasks/outreach_dispatch.py:96-165 | A dispatch is counted in flight exactly from its passed rate check to its increment. |
| OutreachRuns.Components | services/workers/tasks/outreach_dispatch.py:60-165 | Every protocol run projects to a run of the counters and to a run of the receipt tracker. |
| OutreachRuns.ProtocolCounterBound | services/notifications/compliance.py:43-72 | The bound on counted messages holds over every run of the whole protocol. |
| OutreachMessages.SendsAccounted | services/workers/tasks/outreach_dispatch.py:122-165 | In every run the sends to a contact are those counted, those lost by a failure after the send, and those on their way to the count. |
| OutreachMessages.MessagesBound | services/workers/tasks/outreach_dispatch.py:96-165 | With W workers a contact gets at most limit + W - 1 messages a day, plus those lost after their send that day, in every run. |
| OutreachMessages.MessagesBoundIsReached | services/workers/tasks/outreach_dispatch.py:96-181 | For every contact, day, number of workers and of losses a run that sends limit + W - 1 messages and those lost. |
| OutreachMessages.MessagesLimitExactly | services/workers/tasks/outreach_dispatch.py:96-181 | With at most L losses a number bounds the messages of a day in every run exactly when it is at least limit + W - 1 + L. |
| OutreachRuns.ProtocolDigest | services/workers/tasks/report_gen.py:150-174 | The digest of every protocol run is a funnel, for every manager and day. |
| OutreachRuns.ProtocolStatusForward | services/gateway/routers/outreach.py:537-546 | A campaign's derived status never moves backwards as a protocol run goes on. |
| OutreachTasks.ApproveRuns | services/gateway/routers/outreach.py:438-502 | The three approval steps in a row change body and session, log and enqueue, or do nothing when refused. |
| OutreachTasks.DispatchRuns | services/workers/tasks/outreach_dispatch.py:61-177 | The six dispatch steps in a row end in one of five outcomes with the stated state. |
| OutreachTasks.OptedOutIsBlocked | services/workers/tasks/outreach_dispatch.py:96-98 | From any state, the six dispatch steps for a contact on the opt-out list of its kind only take the task and load the campaign. |
| OutreachTasks.Desk.Approve | services/gateway/routers/outreach.py:438-502 | The handler answers 404, 409 or 202 as promised; accepted, a non-empty edit becomes the body, a given session the session, and one task is enqueued, by exactly the protocol's approval steps. |
| OutreachTasks.Desk.Dispatch | services/workers/tasks/outreach_dispatch.py:42-177 | The task performs exactly the protocol's dispatch steps through every early exit. An opted-out contact ends in a block with nothing sent, counted or marked; a message sent is logged with content and contact, marked and counted once; a failure leaves both alone. The token is chosen in the campaign's session vault exactly when the checks pass. |
| RateLimiter.Middleware.Dispatch | services/gateway/middleware/rate_limiter.py:92-157 | Verdict, stored counter and expiry of one request, with the excluded paths, the two expensive ones and their limit of 10 against 100; anonymous and Redis-less requests pass untouched, and so does one whose increment or expiry fails. |
| RateLimiter.RetryAfterIsExact | services/gateway/middleware/rate_limiter.py:73-81 | Waiting Retry-After seconds lands in the next bucket, and no smaller whole number does. |
| RateLimiter.BucketBound | services/gateway/middleware/rate_limiter.py:109-125 | Under any interleaving a bucket admits at most its limit, if increments come within a minute. |
| RateLimiter.SlidingWindowBound | services/gateway/middleware/rate_limiter.py:109-125 | Any 60k seconds, both ends included, admit at most (k + 1) times the limit per manager and category. |
| RateLimiter.WindowBoundIsReached | services/gateway/middleware/rate_limiter.py:73-75 | For every start and every k some run admits that many. |
| RateLimiter.WindowLimitIffAligned | services/gateway/middleware/rate_limiter.py:73-125 | A window of k minutes, its end excluded, keeps k times the limit in every run exactly when it starts on a minute. |
| RateLimiter.LimitIffPunctual | services/gateway/middleware/rate_limiter.py:111-118 | The expiry protects the limit in every run exactly when no increment is over 60 seconds late. |
| StreamingOption.ParseStreamingOption | frontend/src/App.jsx:96-137 | The reader computes the specified extraction of what has arrived. |
| StreamingOption.ReadValue | frontend/src/App.jsx:115-136 | The scanning loop decodes up to the first unescaped quote or the end. |
| StreamingOption.ExtractMonotone | frontend/src/App.jsx:96-137 | More input only extends the extracted value, through trims, fences and half-seen escapes. |
| StreamingOption.ExtractReadsPrinted | frontend/src/App.jsx:105-136 | A printed object reads back exactly when the value has no control character but newline and tab. |
| StreamingOption.PartialIsPrefix | frontend/src/App.jsx:717-724 | What is shown while a readable object arrives is a prefix of its value. |
| PrintedObject.ObjectReadsBack | frontend/src/App.jsx:105-136 | On a printed object of string members, with any white space and whatever follows, the reader returns the value of the first member named by the key or of the one after the first whose value mentions it. |
| PrintedObject.ReadsWanted | frontend/src/App.jsx:105-111 | That is the wanted member exactly when no earlier one has the key as its name and no earlier value mentions it, save the one right before. |
| PrintedObject.MemberReadsBack | frontend/src/App.jsx:105-136 | The wanted value is returned exactly when the member read spells it, and then exactly when it has no control character but newline and tab. |
| EventStream.SplitAppend | frontend/src/App.jsx:707-709 | Splitting buffered text piece by piece agrees with splitting it whole. |
| EventStream.SplitExactly | frontend/src/App.jsx:707-709 | The lines are the only ones without newlines that give the text when joined with newlines. |
| EventStream.ReadDraftStream | frontend/src/App.jsx:699-711 | However the stream is cut, the loop handles the stream's complete lines and buffers its last partial one. |
| EventStream.HandleLines | frontend/src/App.jsx:909-933 | Handles lines up to and including the first that ends the stream, and says whether there was one. |
| EventStream.ReadChatStream | frontend/src/App.jsx:896-934 | However the stream is cut, the lines handled are those of the whole stream up to its first closing event. |
| ScoringGraph.RunWithRetry | services/orchestrator/agents/base_agent.py:173-197 | At most three attempts, each but the last a transient failure, and the last one's result stands. |
| ScoringGraph.Invoke | services/orchestrator/graph/builder.py:152-194 | The graph loop ends, and each field of its result is the agent's answer exactly if that agent was reached, did not fail and had what it works from. |
| ScoringGraph.EveryRun | services/orchestrator/graph/router.py:28-67 | For every failure pattern: one of three paths, chosen by events and risk, errors naming the failed agents in order, and outreach only with profile, event and opportunity and never for HIGH risk with weak events. |
| ScoringGraph.FinalStateIsAnswers | services/orchestrator/graph/router.py:32-65 | Over every environment: the trace is the short path, manual review (HIGH risk answered, events all below 0.60) or the full path, and every field is what the agents answered, or empty. |
| ScoringGraph.FailsExactly | services/orchestrator/agents/base_agent.py:173-197 | An agent fails exactly if its third attempt, or the first that does not fail transiently, raises; risk assessment also without a profile. |
| ScoringGraph.ErrorsAreExplained | services/orchestrator/agents/base_agent.py:121-171 | Every captured error names the failure of that agent's last attempt. |
| ScoringGraph.ErrorsCountFailures | services/orchestrator/agents/base_agent.py:121-171 | The trace is one of the three paths and the number of errors is the number of failed agents. |
| Retrieval.ReciprocalRankFusion | services/rag/retrieval/retriever.py:202-245 | The two merge loops and the sort compute the specified fusion. |
| Retrieval.SortSorts | services/rag/retrieval/retriever.py:236 | The stable sort returns the same entries, best score first, without new duplicates. |
| Retrieval.CutIsBest | services/rag/retrieval/retriever.py:79-81 | What is left after the cut comes best first, nothing cut off has a higher score, and equal scores come in, and survive, in the order they had. |
| Retrieval.FusionIsExact | services/rag/retrieval/retriever.py:211-245 | Each chunk of either list once, scored by its exact sum of inverse ranks, the dense entry kept and given the sparse rank, best first. |
| Retrieval.FusionTies | services/rag/retrieval/retriever.py:214-236 | Fused chunks of equal score come in the order in which the searches found them, the dense search's first. |
| Reranker.SeparationExactly | services/rag/retrieval/retriever.py:31-33 | Two worst ranks beat one best rank exactly for lists of at most 61. |
| Reranker.BothBeforeOne | services/rag/retrieval/retriever.py:214-236 | Every chunk found by both searches precedes every chunk found by one. |
| Reranker.CutKeepsBoth | services/rag/retrieval/retriever.py:79-81 | With lists of at most 20 the cut to 30 keeps every chunk that both searches found. |
| Reranker.KeyIsInjective | services/rag/retrieval/reranker.py:107-111 | Two queries share a cache entry exactly if query and filter agree, an absent, empty or "all" filter being the same, for filters without a bar. |
| Reranker.RerankCache.Rerank | services/rag/retrieval/reranker.py:60-130 | On a miss the best of the candidates, best first, ties in candidate order, with their ids stored if Redis accepts them; on a hit the listed candidates that are present, in cached order, each the last of its id. Missing Redis and failing accesses included. |
| Reranker.LookupInverts | services/rag/retrieval/reranker.py:97-104 | Looking the ids of some candidates up again gives those candidates in that order. |
| Reranker.SelectionIsExact | services/rag/retrieval/reranker.py:97-104 | For other candidates a hit is the duplicate-free selection of those listed, in cached order. |
| Reranker.CacheAgrees | services/rag/retrieval/reranker.py:63-89 | A call that reads the entry, with the same candidates, gets the best of the filling call's number; those are the best of its own exactly when both cuts have one length. |
| Sanitiser.SanitiseIsExact | services/orchestrator/agents/outreach_gen.py:164-181 | No token is left or newly formed, sanitising twice is sanitising once, the flag is true exactly for unchanged messages. |
| Sanitiser.MatchIsToken | services/orchestrator/agents/outreach_gen.py:37-38 | What is recognised is `<PII_`, one or more capitals, digits and underscores, and `>`, and nothing else. |
| Sanitiser.TokenIsReplaced | services/orchestrator/agents/outreach_gen.py:164-181 | A token is replaced by `[Customer]`, the text around it kept or sanitised by itself. |
| Sanitiser.MaskerTokensPass | services/orchestrator/agents/outreach_gen.py:37-38 | In any text the masker's own tokens are neither replaced nor reported, and the text around them is sanitised as by itself. |
| TransactionIntel.Analyse | services/orchestrator/agents/transaction_intel.py:120-264 | The passes over the transactions compute the specified summary. |
| TransactionIntel.CategoryTotals | services/orchestrator/agents/transaction_intel.py:154-186 | The category loop computes amounts and counts by category. |
| TransactionIntel.BookedExactly | services/orchestrator/agents/transaction_intel.py:167-195 | A debit counts as international if its name or note says so, else under its listed code, else under the keyword found in its name, and nowhere else. |
| TransactionIntel.SummaryIsSums | services/orchestrator/agents/transaction_intel.py:128-186 | Totals and category amounts and counts are sums over the transactions booked there, booking being stated over flag, code and keyword. |
| TransactionIntel.CategoriesPartition | services/orchestrator/agents/transaction_intel.py:154-186 | Category amounts add up to the total debits and category counts to the number of debits. |
| TransactionIntel.LargestCreditIs | services/orchestrator/agents/transaction_intel.py:146-152 | The large credit reaches an amount exactly when some credit above 50,000 does. |
| TransactionIntel.HospitalMaxIs | services/orchestrator/agents/transaction_intel.py:227-232 | The hospital maximum reaches an amount exactly when some hospital debit does. |
| EventDetection.Execute | services/orchestrator/agents/event_detection.py:272-317 | The rule loop reports exactly the registered detections; nothing without a summary. |
| EventDetection.DetectionsAre | services/orchestrator/agents/event_detection.py:280-304 | An event is reported exactly when its rule fires with at least the minimum confidence. |
| EventDetection.DetectionIsMonotone | services/orchestrator/agents/event_detection.py:53-249 | Adding non-negative transactions anywhere never removes or lowers a detection of the six monotone kinds, rounding included. |
| EventDetection.DetectionIsOrderFree | services/orchestrator/agents/event_detection.py:53-249 | Every detection but promotion depends only on the multiset of transactions. |
| EventDetection.DetectedExactly | services/orchestrator/agents/event_detection.py:254-263 | For each kind the exact totals or amounts of the transactions at which it is detected; for promotion a credit over 100,000 and a rise between the best credits of the last two months. |
| EventDetection.ConfidenceExactly | services/orchestrator/agents/event_detection.py:53-249 | With which confidence each kind is detected, in terms of the transactions. |
| EventDetection.RetirementCanBeLost | services/orchestrator/agents/event_detection.py:216-231 | One more debit ends a retirement detection. |
| EventDetection.PromotionDependsOnOrder | services/orchestrator/agents/event_detection.py:151-174 | Swapping two months, or a later lower credit, ends a promotion detection. |
| EventScan.BuildMinimalSummary | services/workers/tasks/event_scan.py:224-324 | The scan's loop computes its own summary from codes, names and totals by stored category. |
| EventScan.SignalsAre | services/workers/tasks/event_scan.py:224-324 | Which stored codes and which words in a name, in whatever case, count towards which signal. |
| EventScan.ExtrasAre | services/orchestrator/agents/event_detection.py:101-109 | What the rules read off stored categories: spend on furniture and interiors, and whether one mentions visas. |
| EventScan.FurnitureIs | services/orchestrator/agents/event_detection.py:101-109 | The rule's sum over category names is the spend in such categories. |
| EventScan.ScanSeesExactly | services/workers/tasks/event_scan.py:156-158 | A scan can store a wedding with both spending signals, a home purchase with over 5,000 in categories named after furniture or interiors, and a wealth migration, and no other kind. |
| EventScan.StoredConfidence | services/workers/tasks/event_scan.py:156-158 | Each is stored with confidence 1.0, 0.9, and 0.8 or from a million on 1.0. |
| EventScan.Scanner.StoreDetected | services/workers/tasks/event_scan.py:153-186 | The loop stores each confident event not yet stored for the customer and counts the new ones. |
| EventScan.Scanner.Scan | services/workers/tasks/event_scan.py:84-97 | A scan stores what its customers' visits store one after another, going on after a visit that raises, and counts the events of the others. |
| EventScan.HandledIs | services/workers/tasks/event_scan.py:84-97 | A visit that raises has dealt with the first events it detected, any other with all. |
| EventScan.StoredExactly | services/workers/tasks/event_scan.py:160-186 | Over any sequential scans at most one event per customer and kind is stored, exactly those some visit came to deal with. |
| EventScan.RescanStoresNothing | services/workers/tasks/event_scan.py:160-170 | Looking again at transactions that show no more than in an earlier completed visit stores nothing, whatever was scanned in between. |
| EventScan.UniqueIffSerial | services/workers/tasks/event_scan.py:160-186 | With lookup and insert as separate accesses, events stay unique in every run exactly when scans do not overlap. |
| EventScan.CoverageIffFits | services/workers/tasks/event_scan.py:62-63 | Every transaction is picked up by some scan, for all schedules and rows, exactly when longest gap plus longest delay is at most 20 minutes. |
| OpportunityStore.Store.Upsert | services/workers/tasks/daily_scoring.py:223-268 | Score, conversion, revenue and churn risk, rounded, each land in their own column of the customer's NEW row, all else kept, or of one new row, an unknown product as a personal loan; returns which. |
| OpportunityStore.Store.Dismiss | services/gateway/routers/customers.py:285-331 | When each of the three answers is given, and its state change: row dismissed and cached list dropped, unless Redis is missing or fails, or nothing. |
| OpportunityStore.Store.GetOpportunities | services/gateway/routers/customers.py:206-274 | Serves and fills the cache for the default view only, as far as Redis reads and writes; from the database exactly the customer's live rows, dismissed ones only on request, best first; with a clean cache no listed row is dismissed and the cache stays clean. |
| OpportunityStore.CleanIffSerial | services/gateway/routers/customers.py:217-331 | Between requests no cached list holds a dismissed row, in every run in which no deletion fails, exactly when requests do not overlap. |
| OpportunityStore.FailedDeleteIsStale | services/gateway/routers/customers.py:314-321 | After a dismissal whose deletion fails the cache is clean exactly when the dismissed row was not listed in it. |
| OpportunityStore.StaleFill | services/gateway/routers/customers.py:263-272 | A run in which a late cache fill brings a dismissed row back. |
| OpportunityStore.OneNewIffSerial | services/workers/tasks/daily_scoring.py:241-268 | With lookup and commit as separate accesses, and reads and dismissals in between, a customer has at most one NEW row in every run exactly when scorings do not overlap. |
| OpportunityStore.FoundRowIsWritten | services/workers/tasks/daily_scoring.py:241-268 | Whatever happens between lookup and commit, a dismissal included, the figures go to the row found and nothing else of it changes. |
| OpportunityStore.TopCustomers | services/workers/tasks/report_gen.py:103-129 | At most ten of the manager's customers' live NEW opportunities with all their columns, a missing profile and a zero balance empty, best first, none twice and none better left out; each customer once if no customer has two NEW rows. |
| OpportunityStore.TopListedOnceIffSerial | services/workers/tasks/report_gen.py:103-129 | The digest lists no customer twice, in every run and for every manager, exactly when scorings do not overlap. |

## Left out

- Detection of personal data, its patterns and its re-scan of model output: spans are arbitrary inputs.
- The vault's time-to-live is an expiry step that may happen at any time. In the runs of `VaultSession` each masking call and each choice of a token is one step; `VaultRaces` takes their reads and writes apart, without expiry.
- Token counting is an arbitrary function; splitting text into paragraphs and sentences, and the metadata of a chunk, are inputs or left out. The section hint of every chunk is the last heading of the document.
- Chunker.ChunkDocument: does not include the final stripping of chunks, because paragraphs arrive stripped and not empty.
- Queries, transactions, queues and HTTP are reduced to the accesses they make; a missing Redis is modelled where the limiter and the send counters let everything through; in the runs of the counters Redis is up.
- Parsing of provider payloads into a message id and a status.
- Sending at most once, which the dispatch task does not provide: it does not look at the sent mark.
- OutreachTasks.DispatchRuns: the choice of the token is outside the protocol's state; `OutreachTasks.Desk.Dispatch` adds it.
- Campaign owners and contacts are fixed at creation; moving a customer to another manager is not modelled.
- EventStream.ReadChatStream: decoding of bytes to characters across reads is not modelled; reads are pieces of text.
- ScoringGraph.Invoke: what the agents answer is arbitrary; checkpoints and resumption of a run are not modelled.
- Ranking and filtering of opportunities inside the scoring agent, the priority formula and the per-manager queue cache would add only single-body facts.
- Retrieval.ReciprocalRankFusion: works on values, so that the entry of the dense list is itself updated is not captured.
- Reranker.RerankCache.Rerank: the hash of the key is taken to be injective, and the fallback for a failing sort cannot occur on values.
- The summary agent's merchant codes, keyword lists and name tests are folded into fields of its transactions.
- EventDetection.Execute: evidence, time stamps and expiry of an event are left out; rounding is exact where the program rounds floats.
- EventDetection.DetectedExactly: bonuses for furniture, visas and growing GST payments are in the rules but the summary agent never raises them, because no category of its table is named after the first two and the growth is never computed.
- TransactionIntel.Analyse: the salary average, the list of bonuses, the ranked spend list and the tags other than investor are left out, because no detection rule reads them.
- EventScan.Scanner.Scan: re-scoring and notifications are not modelled, nor the flag for GST payments, whose growth the scan never computes.
- PrintedObject.MemberReadsBack: members whose values are not strings, nested objects and keys that are no identifiers are not modelled.
- OpportunityStore.Store.GetOpportunities: the database's answer is any list that satisfies the query, so ties may come in any order.
- Prompts, language models, trained models, settings, authentication, user interface and migrations.
