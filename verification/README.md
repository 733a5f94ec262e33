# onWatch: verified models of the polling core

onWatch polls AI-quota providers. This project models the parts of it that hold
hard state or parse foreign bytes, and proves what they guarantee over every
input, every run and every interleaving. `dafny verify dfyconfig.toml` checks it.

Loops and objects of the source are methods and classes; each is proved equal to a
specification function, or against a declarative predicate, and the laws are then
proved about that function or predicate.

| modules | what they model |
|---|---|
| `Varint`, `WireScan`, `WireScanLaws`, `WireTree` | the protobuf wire scanner on arbitrary bytes, and message trees with their encoding (Protocol Buffers Encoding, "Base 128 Varints", "Message Structure", "Submessages") |
| `GrpcWebFrames`, `GrokBilling`, `GrokReply` | gRPC-web framing ("Length-Prefixed-Message" of gRPC over HTTP2, with the gRPC-Web trailer flag), the choice of percentage and reset time, and the layers put together |
| `AnthropicAuth`, `AnthropicReplay`, `AnthropicRefinement`, `AnthropicRuns`, `AnthropicLaws`, `AnthropicPause`, `AnthropicPausedPolls`, `AnthropicExamples`, `AnthropicPolling` | one poll of the Anthropic agent as a step driven by everything the agent cannot decide; an independent account of what happens in a poll and of what each event means, which the step refines; the invariant of every run; the laws; the paused state; runs that show where the guards end; the object whose methods make the step |
| `LineSplit`, `JsonlIngest`, `JsonlLaws`, `JsonlLimits`, `JsonlProgress`, `FileRotation` | the JSONL tailer over a store that may fail at any point, and its rotating cursor |
| `StarterCap` | the ring of five fire times and the full history it stands for |
| `UsageSessions`, `SessionLaws` | online sessionisation, and what the stream of polls says by itself |
| `MiniMaxManager`, `MiniMaxLoads`, `AgentManager` | goroutine lifecycles as interleaved atomic steps |
| `AgyRunner` | the ownership of the warm `agy` process |
| `EnvFile` | the `.env` printer and parser |

## What turned out to be limited

Each of these is a property one might expect of the code that it does not have in
full. The model keeps the code as it is; one lemma gives the exact condition, over
the state and the inputs, and another an input or a run that meets it.

- The scanner panics on some inputs: exactly those whose walk meets a declared
  length of 2^63 or more, since the length is compared after its conversion to a
  signed int (`WireScanLaws.PanicsIffOverlong`, concrete bytes in `OverlongPanics`).
- The reported percentage can be a NaN, which passes both range tests. It lies in
  0..100 exactly when the leaf chosen does not carry NaN bits
  (`GrokBilling.PercentInRangeIffNotNaN`, `GrokReply.NaNIsReported`).
- A body made of trailer frames alone can be scanned as a message, framing bytes and
  all: exactly when the flag byte of its first frame ends in a wire type that the
  scanner knows (`GrokReply.TrailersAloneAreScannedIff`, the usual flag byte in
  `TrailersAloneAreScanned`).
- A refresh token already exchanged can be presented again: exactly when the stored
  access token is the one recorded as superseded, or the reply to an earlier exchange
  of that token was lost, or the agent started over a token already spent. The
  proactive refresh looks at the record and so avoids the first, the 429 bypass and
  both recovery sites do not; nothing guards against the other two
  (`AnthropicLaws.SpentTokensArePresentedIff`, runs in
  `AnthropicExamples.BypassMayPresentASpentToken`,
  `LostReplyLetsProactivePresentASpentToken` and
  `RestartLetsProactivePresentASpentToken`).
- An OAuth lockout can be lifted by unchanged credentials. The re-read before a poll
  compares what it finds with the last token it knows, and knows none before the first
  token is installed or after a forced re-read that found nothing; with the backoff on
  it lifts it exactly when what it finds is not superseded and differs from the token
  in use, or there is none to compare with (`AnthropicLaws.LockoutIsHonoured`,
  `RereadLiftsBackoffIff`, runs in `AnthropicExamples.FailedReadLiftsLockout` and
  `FirstPollLiftsLockout`).
- "Paused iff three failures are counted" survives a poll exactly when the poll is
  not cancelled between the recovery refresh that a third failure triggers and the
  fetch after it (`AnthropicPause.PollKeepsPauseIff`, a run of three polls in
  `AnthropicExamples.LateCancellationLeavesThePauseUndone`).
- A poll that begins paused may refresh elsewhere than at the bounded retry: exactly
  when it lifts the pause before its fetch, the fetch is answered 429, and the gate of
  the bypass is open (`AnthropicPausedPolls.OtherRefreshWhilePausedIff`, a run in
  `AnthropicExamples.PausedPollMayBypass`).
- A partial line over 512 KiB is dropped. A persisted scan keeps the splitting of
  the file exactly when the unfinished line fits (`JsonlLaws.PersistedScanTailsIffFits`,
  a run in `JsonlLimits.LongLineIsLost`).
- A session row stays open exactly when its session is current or the store failed
  to close it, so two rows can be open (`SessionLaws.OpenRowsAreCurrentOrLeaked`,
  four polls in `FailedCloseLeavesTwoOpen`).
- A Reload can start an account twice, exactly when it is called while Run's initial
  load still has an account to start (`MiniMaxManager.ReloadIsSafeIffLoaded`, which
  builds the interleaving).
- AgentManager can run a key twice: from a state in step with its goroutines, Starts
  can get there exactly while a goroutine that was stopped has not ended
  (`AgentManager.StartsAreSafeIffNoLeftover`, a run in `LateEndAllowsASecondRunner`);
  the step that goes wrong is a goroutine's end that deletes, by key, an entry that is
  not its own (`StepTracksIffNoForeignDelete`).
- A token written to `.env` comes back unchanged exactly when it does not end in
  white space (`EnvFile.TokenSurvivesIffNoTrailingSpace`, one key in
  `TrailingSpaceIsLost`).

## Model

| member | source | states |
|---|---|---|
| Varint.ReadVarint | server/internal/api/grok_client.go:660-673 | The reader returns the base-128 value modulo 2^64 of the first complete varint within ten bytes and stops right behind it, or fails having consumed ten bytes or everything; its index never leaves the input |
| Varint.ReadInvertsEncode | server/internal/api/grok_client.go:660-673 | Round trip: reading the canonical encoding of any uint64, whatever follows it, gives back the number and the length of its encoding |
| Varint.ReadIgnoresSuffix | server/internal/api/grok_client.go:660-673 | A varint complete in a buffer reads the same when more bytes arrive behind it |
| Varint.OrIsSum | server/internal/api/grok_client.go:668 | On 64-bit words, OR-ing the next seven bits above those already read adds them, for each of the nine non-zero shifts, so the model's sums are the source's ORs |
| WireScan.ReadField | server/internal/api/grok_client.go:601-652 | One pass of the switch decodes the field at the start offset: its kind, number, value or body and width, junk, or a length whose slice panics |
| WireScan.ScanProtobuf | server/internal/api/grok_client.go:593-658 | On arbitrary bytes, at any depth, path and starting order, the loop with its in-place appends and merges yields the scan, the next order, or the panic of the recursive specification the laws below are about |
| WireScanLaws.LeavesFitTheInput | server/internal/api/grok_client.go:599-657 | Each varint leaf is paid for by two input bytes of its own and each fixed32 leaf by five, through all nesting and resynchronisation |
| WireScanLaws.OrdersAreConsecutive | server/internal/api/grok_client.go:638-649 | Fixed32 leaves are numbered consecutively from the starting order, nested messages included, and the next order is returned |
| WireScanLaws.PathsStayShallow | server/internal/api/grok_client.go:614-640 | Every leaf path extends the path of the message scanned and has at most five field numbers from the top |
| WireScanLaws.PanicsIffOverlong | server/internal/api/grok_client.go:626-640 | The scanner panics if and only if its walk, here or in a message it descends into, reaches a declared length of 2^63 or more |
| WireScanLaws.SmallVarintsScan | server/internal/api/grok_client.go:593-658 | When no offset of the input holds a varint of 2^63 or more, the scan completes at every depth |
| WireScanLaws.OverlongPanics | server/internal/api/grok_client.go:626-633 | Eleven bytes, field 1 with declared length 2^64 - 1, on which the scan panics |
| WireTree.ScanOfEncode | server/internal/api/grok_client.go:593-658 | Scanning the encoding of any well-formed message tree, from any path it can be reached by, returns exactly the tree's varint and fixed32 leaves in document order with their full paths, cut at five field numbers, and numbered without gaps |
| WireTree.FieldAtNode | server/internal/api/grok_client.go:601-652 | Each encoded node, followed by anything, is read back as that node's field with its exact width |
| WireTree.ScanKeepsLeavesOfFive | server/internal/api/grok_client.go:633-640 | Of any encoded message tree, exactly the varint and fixed32 leaves whose path has at most five field numbers are scanned |
| WireTree.ScanResynchronises | server/internal/api/grok_client.go:601-657 | Stray bytes between two runs of encoded fields, zeros or keys of unknown wire types, are skipped one by one, and no leaf before or behind them is lost |
| WireTree.EncodingsByExample | server/internal/api/grok_client.go:660-673 | The encodings the standard spells out, so that the byte order is pinned |
| GrpcWebFrames.FramingOfEncode | server/internal/api/grok_client.go:559-574 | Framing inverts the encoding of any list of frames with payloads below 2^32, up to a tail that holds no whole frame |
| GrpcWebFrames.EncodeOfFraming | server/internal/api/grok_client.go:559-574 | On arbitrary bytes, the frames found, encoded again and followed by the leftover, are the input |
| GrpcWebFrames.FrameRoundTrip | server/internal/api/grok_client.go:416-441 | Encoded frames with a tail shorter than a header give exactly the data payloads in order; a tail cut inside a frame loses every data payload yet keeps every trailer |
| GrpcWebFrames.DataFrames | server/internal/api/grok_client.go:559-574 | The data walker is all or nothing: the payloads of the whole data frames, or none when a frame is cut short |
| GrpcWebFrames.TrailerFields | server/internal/api/grok_client.go:416-441 | The trailer walker merges the fields of every trailer frame before a truncated one |
| GrpcWebFrames.LastTrailerWins | server/internal/api/grok_client.go:416-441 | A field is there iff some trailer names it, with the value of the last trailer that does |
| GrpcWebFrames.FramesByExample | server/internal/api/grok_client.go:559-574 | The bytes of a frame with a payload below 64 KiB: flag, length most significant byte first, payload |
| GrokBilling.PickPercent | server/internal/api/grok_client.go:460-487 | The percentage chosen is the first among the candidates of least path length, and there is none exactly when no leaf qualifies |
| GrokBilling.PickReset | server/internal/api/grok_client.go:489-521 | The reset time is the first plausible future time at path 1.5.1, else the earliest future one, and absent exactly when none lies in the future |
| GrokBilling.SelectBilling | server/internal/api/grok_client.go:458-547 | The reading satisfies its declarative meaning, and fails exactly when no percentage qualifies and the response does not show a period without usage |
| GrokBilling.ParseResponse | server/internal/api/grok_client.go:443-547 | Of the data payloads, or else of a body that could be a bare message, the merged scan is read as declared; with no payload the parse fails; a panicking scan surfaces |
| GrokBilling.ReadingIsUnique | server/internal/api/grok_client.go:458-547 | The declarative meaning decides: one scan at one time has one reading |
| GrokBilling.PercentInRangeIffNotNaN | server/internal/api/grok_client.go:469-474 | The reported percentage lies in 0..100 if and only if the chosen leaf does not carry NaN bits |
| GrokBilling.PercentBits | server/internal/api/grok_client.go:469-474 | The range tests in terms of the 32 bits: what passes is a pattern up to that of a hundred, minus zero, or a NaN |
| GrokBilling.MergedScanOfMore | server/internal/api/grok_client.go:452-457 | Every payload counts, in order: one more adds its leaves behind those before, and panics iff either does |
| GrokReply.ReplyReadsItsTree | server/internal/api/grok_client.go:443-458 | For every well-formed message framed with any trailer, the bytes the parse scans give the leaves of the message tree, and the trailer reaches the trailer walker only |
| GrokReply.UsageReplyIsRead | server/internal/api/grok_client.go:443-547 | From the bytes: a framed reply with a percentage at 1.1 and a time at 1.5.1 that lies ahead, between 1.7 and 2.1 billion seconds, is read as exactly these two |
| GrokReply.UnusedReplyIsRead | server/internal/api/grok_client.go:522-546 | A framed reply with a time at 1.5.1 and no percentage is read as nothing used if anything is at 1.6.1 or a one or two at 1.8.1, and not at all otherwise |
| GrokReply.EarliestTimeIsRead | server/internal/api/grok_client.go:489-521 | Without a time at 1.5.1 the earlier of two times ahead is the reset |
| GrokReply.FirstShallowestIsRead | server/internal/api/grok_client.go:460-487 | Of percentages at 1.1 and twice at 1 the first at 1 is read, and a number at 2 is not looked at |
| GrokReply.NaNIsReported | server/internal/api/grok_client.go:469-474 | A message with a quiet NaN in field 1 reads as a NaN percentage |
| GrokReply.TrailersAloneAreScannedIff | server/internal/api/grok_client.go:443-447 | A body without data payloads, of trailer frames or cut off inside a frame, is itself scanned as a message if and only if its first byte has a field number above zero and wire type 0, 1, 2 or 5 |
| GrokReply.TrailersAloneAreScanned | server/internal/api/grok_client.go:549-557 | The flag byte 0x80 that servers send is such a byte |
| AnthropicRefinement.PollIsReplayed | server/internal/agent/anthropic_agent.go:530-877 | One poll, from any state and for all inputs: exactly the events that guards stated apart from the code call for happen, in this order, refreshes, adoptions, usage calls, pauses and successes included; each is allowed then; and every field of the agent afterwards is the replay of these events |
| AnthropicRefinement.RunIsReplayed | server/internal/agent/anthropic_agent.go:202-233 | The same over every run: the agent is a function of what happened |
| AnthropicRefinement.LatestTokenIsInUse | server/internal/agent/anthropic_agent.go:318-327 | In every run the client holds the token that the latest grant, adoption or forced re-read named, and every request to the usage API presents it |
| AnthropicRuns.PollKeeps | server/internal/agent/anthropic_agent.go:530-877 | Whatever the environment does, one poll keeps the coupling of the agent's fields with its history: lawful events, token bookkeeping, lockout, retry schedule |
| AnthropicRuns.RunKeeps | server/internal/agent/anthropic_agent.go:202-233 | The same over every run of polls |
| AnthropicLaws.EveryRefreshIsGuarded | server/internal/agent/anthropic_agent.go:371-388 | In every run, every refresh at every call site happens with auto-refresh on, Claude Code not running, and outside the OAuth backoff |
| AnthropicLaws.SpentTokensArePresentedIff | server/internal/agent/anthropic_agent.go:450-476 | In every run from any store, a refresh presents a spent one-time token if and only if the stored pair is the superseded one, or the reply to an earlier exchange of that token was lost, or it was spent before the agent started; the proactive refresh never presents a superseded one |
| AnthropicLaws.WithoutLossOnlySupersededIsSpent | server/internal/agent/anthropic_agent.go:371-401 | While no reply has been lost and from a start over an unspent token, a refresh presents a spent token if and only if the stored pair is the superseded one, and the proactive refresh never does |
| AnthropicLaws.RestartIsInitial | server/internal/agent/anthropic_agent.go:131-145 | Whatever a run leaves behind is a start these laws cover, so they hold of every life of the agent |
| AnthropicLaws.StoredTokenSpentIff | server/internal/agent/anthropic_agent.go:318-327 | In every reachable state, the stored refresh token is spent if and only if its access token is the one recorded as superseded, or the reply to its exchange was lost, or it was spent before the start |
| AnthropicLaws.GrantReplacesTheTokenInUse | server/internal/agent/anthropic_agent.go:318-327 | In every run, a grant answers the refresh just before it, its access token is neither the replaced one nor any replaced earlier, and it is the token in use from then on |
| AnthropicLaws.GrantInstallsTheAnswer | server/internal/agent/anthropic_agent.go:318-327 | The pair the endpoint answered is what gets installed, saved or not, and stored if the write works |
| AnthropicLaws.ReadsFindTheStore | server/internal/api/anthropic_token.go:78-92 | What a read of the stored credentials finds and leaves, unchanged, rotated, cleared or unreadable |
| AnthropicLaws.RereadNeverDowngrades | server/internal/agent/anthropic_agent.go:599-628 | The re-read before a poll never installs an access token that an earlier refresh replaced, saved or not |
| AnthropicLaws.LockoutIsHonoured | server/internal/agent/anthropic_agent.go:331-366 | After the OAuth endpoint answers 429, any refresh before the end of the lockout is preceded by a re-read that found a token other than the one in use, or that had no token to compare with, none having been installed since the start or since a forced re-read that found nothing |
| AnthropicLaws.RereadLiftsBackoffIff | server/internal/agent/anthropic_agent.go:599-628 | With the backoff on, the re-read lifts it if and only if it finds a token that is not superseded and is other than the one in use, or has none to compare it with |
| AnthropicLaws.PausedAttemptsAreSpaced | server/internal/agent/anthropic_agent.go:420-443 | In every run, the n-th attempt of a schedule is counted n and comes no sooner after the first than the sum of the backoffs in between |
| AnthropicLaws.PausedRefreshesAreSpaced | server/internal/agent/anthropic_agent.go:420-443 | In every run, each refresh call made in the paused state directly follows the record of its attempt, comes no sooner than it, and so keeps the distance the backoffs demand from the first attempt |
| AnthropicLaws.FirstAttemptWaitsAfterPause | server/internal/agent/anthropic_agent.go:276-283 | The first attempt of a schedule comes at least fifteen minutes after the pause that started it |
| AnthropicLaws.BackoffIsMonotone | server/internal/agent/anthropic_agent.go:294-307 | The retry delays start at fifteen minutes, never shrink, and stay at six hours from the sixth attempt on |
| AnthropicLaws.BackoffSchedules | server/internal/agent/anthropic_agent.go:242-256 | Both schedules in full, in nanoseconds: 15, 30, 60, 120, 240, 360 minutes, and 5, 10, 20, 40, 80, 160, 320, 360 minutes |
| AnthropicExamples.BypassMayPresentASpentToken | server/internal/agent/anthropic_agent.go:687-758 | A run of two polls, a refresh whose write fails and then a 429, in which the bypass presents a spent token |
| AnthropicExamples.LostReplyLetsProactivePresentASpentToken | server/internal/api/anthropic_oauth.go:146-178 | A run of two polls, a refresh whose reply cannot be read and another, in which the proactive refresh presents a spent token |
| AnthropicExamples.RestartLetsProactivePresentASpentToken | server/internal/agent/anthropic_agent.go:450-476 | A refresh whose write fails, a restart, and a proactive refresh that presents the spent token |
| AnthropicExamples.FailedReadLiftsLockout | server/internal/agent/anthropic_agent.go:785-797 | A run of three polls over an unchanged pair: a lockout, a forced re-read that fails, and a refresh at the bypass within the lockout |
| AnthropicExamples.FirstPollLiftsLockout | server/internal/agent/anthropic_agent.go:599-628 | A first poll that is locked out, re-reads the token it started with and refreshes within the lockout |
| AnthropicExamples.LateCancellationLeavesThePauseUndone | server/internal/agent/anthropic_agent.go:818-828 | A run of three polls from a first start that ends with three failures counted, nothing paused and no retry scheduled |
| AnthropicExamples.PausedPollMayBypass | server/internal/agent/anthropic_agent.go:607-626 | A run of three polls from a first start whose last poll begins paused and refreshes at the 429 bypass |
| AnthropicPause.PollKeepsPauseIff | server/internal/agent/anthropic_agent.go:805-848 | "Paused iff three failures are counted, never more than three, and a paused agent has a retry time" is kept by a poll if and only if it does not meet this guard: two failures counted at the first fetch, authentication errors at it and after the re-read, a recovery gate that is open and granted, and a cancelled fetch after it |
| AnthropicPause.RunKeepsPause | server/internal/agent/anthropic_agent.go:276-291 | The same at the boundaries of every run none of whose polls meets that guard |
| AnthropicPause.UncancelledRunKeepsPause | server/internal/agent/anthropic_agent.go:820-828 | In particular in every run in which no fetch after a recovery refresh is cancelled |
| AnthropicPausedPolls.PausedPollRefreshes | server/internal/agent/anthropic_agent.go:420-443 | The refreshes of any poll that begins paused, in order: the bounded retry, if it is due and its gate is open, then the 429 bypass, if the pause was lifted, the fetch limited and its gate is open; never the proactive refresh, never the one after authentication failures |
| AnthropicPausedPolls.OtherRefreshWhilePausedIff | server/internal/agent/anthropic_agent.go:630-634 | Such a poll refreshes elsewhere than at the bounded retry if and only if it uses the APIs, lifts the pause by new credentials or a granted retry, is answered 429 and has the bypass gate open; that refresh is the bypass, after the event that lifted the pause |
| AnthropicPolling.AnthropicAgent.PollOnce | server/internal/agent/anthropic_agent.go:530-877 | The object's poll, updating its fields in place, is the step the laws are about, its way of ending included |
| AnthropicPolling.AnthropicAgent.ProactiveRefresh | server/internal/agent/anthropic_agent.go:450-525 | The proactive refresh with its guards in the source's order |
| AnthropicPolling.AnthropicAgent.TryOAuthRecovery | server/internal/agent/anthropic_agent.go:371-415 | The recovery at the authentication-failure and paused sites |
| AnthropicPolling.AnthropicAgent.TryPausedAuthRecovery | server/internal/agent/anthropic_agent.go:420-443 | The bounded attempt to leave the paused state, whose escalated schedule survives its success |
| AnthropicPolling.AnthropicAgent.BypassRateLimit | server/internal/agent/anthropic_agent.go:652-775 | The refresh after a 429 of the usage API, with its own failure counting |
| LineSplit.SplitCompleteLinesSplits | server/internal/agent/api_integrations_ingest_agent.go:233-246 | The lines returned, each with its newline, followed by the remainder, are the data, and hold no other newline |
| LineSplit.SplitsUnique | server/internal/agent/api_integrations_ingest_agent.go:233-246 | That decomposition of a text is unique |
| LineSplit.TailThenMore | server/internal/agent/api_integrations_ingest_agent.go:163-198 | Carrying the remainder over to the next chunk continues the splitting of the whole, wherever the cut falls |
| JsonlIngest.IngestAgent.ScanFile | server/internal/agent/api_integrations_ingest_agent.go:123-231 | The scan of a file, failing at any insert or at the cursor write, leaves the store its specification says |
| JsonlIngest.IngestAgent.SelectPaths | server/internal/agent/api_integrations_ingest_agent.go:92-110 | The paths of one scan and the cursor after it |
| JsonlLaws.RunIsGood | server/internal/agent/api_integrations_ingest_agent.go:123-231 | Over every run of appends and faulty scans whose persisted scans keep within the partial-line limit: lines handed on and partial line are the splitting of the bytes behind the persisted cursor; their events are stored; each stored event comes from a complete line of a file; no fingerprint is stored twice |
| JsonlLaws.NothingIsStoredTwice | server/internal/agent/api_integrations_ingest_agent.go:198-230 | In every run, whatever fails and however long the lines, no fingerprint is stored twice |
| JsonlLaws.ConsumedIsIngested | server/internal/agent/api_integrations_ingest_agent.go:163-198 | Tailing equals splitting once: the lines handed on so far are the complete lines of the consumed prefix, and all their events are stored |
| JsonlLaws.PersistedScanTailsIffFits | server/internal/agent/api_integrations_ingest_agent.go:182-193 | A persisted scan that read something keeps the splitting of the file if and only if the unfinished line is within the limit |
| JsonlProgress.PersistedScanAdvances | server/internal/agent/api_integrations_ingest_agent.go:163-180 | A scan that persists its cursor moves it by 262144 bytes or to the end of the file |
| JsonlProgress.EnoughScansIngestAll | server/internal/agent/api_integrations_ingest_agent.go:163-230 | Once a file stops growing, enough fault-free scans bring the cursor to its end, hand on exactly its complete lines, and store the event of each |
| JsonlProgress.FreshFileIsIngested | server/internal/agent/api_integrations_ingest_agent.go:123-231 | A fresh file with short lines is ingested whole by one scan per 256 KiB of it |
| JsonlProgress.ShrunkFileIsReadAfresh | server/internal/agent/api_integrations_ingest_agent.go:152-155 | A file that shrank below the cursor is read from its first byte, and what was kept of it is forgotten |
| JsonlLimits.ShortStretchesAlwaysFit | server/internal/agent/api_integrations_ingest_agent.go:182-193 | When no file, as it is in the end, has a stretch of more than 512 KiB without a newline, every scan of every run was within the limit |
| JsonlLimits.LongLineIsLost | server/internal/agent/api_integrations_ingest_agent.go:182-193 | A line of 512 KiB and one byte, read in three scans: the cursor is at the end of the file, no line was handed on, and nothing of it is kept |
| FileRotation.EveryFileIsVisited | server/internal/agent/api_integrations_ingest_agent.go:92-110 | Over a stable listing of more than 100 files, any scans that together look at n files look at every one of the n, from any cursor |
| FileRotation.EveryPathIsSelected | server/internal/agent/api_integrations_ingest_agent.go:92-110 | For a stable listing of any length, every path is in one of the selections of any scans that together look at that many files, the cursor carried from scan to scan |
| FileRotation.SelectionIsDistinct | server/internal/agent/api_integrations_ingest_agent.go:92-110 | One scan looks at 100 different files, exactly those it is due to visit, and leaves the cursor in range |
| StarterCap.RingDecidesAsHistory | server/internal/agent/codex_agent.go:168-190 | The ring fires if and only if the whole history has fewer than five fires within the window, and is again the end of that history afterwards |
| StarterCap.AtMostFiveFires | server/internal/agent/codex_agent.go:25-28 | For every sequence of calls under a clock that does not go back, any closed interval of four hours, wherever it starts, holds at most five fires of a quota |
| StarterCap.CallFiresIff | server/internal/agent/codex_agent.go:168-190 | In every such sequence, a call fires if and only if fewer than five fires of its own quota are recent among all that went before |
| StarterCap.LimiterIsCapped | server/internal/agent/codex_agent.go:158-190 | The cap holds of the limiter's own history in every state it can be in |
| StarterCap.DecisionKeepsAll | server/internal/agent/codex_agent.go:168-190 | A decision about one quota window leaves all windows in step with their own histories |
| StarterCap.StarterLimiter.AllowStarterPing | server/internal/agent/codex_agent.go:168-190 | Fires iff fewer than five fires of that quota are recent in the unbounded history, records the fire, and touches no other quota |
| UsageSessions.SessionManager.ReportPoll | server/internal/agent/session_manager.go:42-101 | Updates the object and the table to the state the laws are about, and reports activity iff the values differ from the poll before |
| UsageSessions.SessionManager.HasChanged | server/internal/agent/session_manager.go:112-125 | True iff there was a poll before with other values |
| UsageSessions.SessionManager.Close | server/internal/agent/session_manager.go:104-109 | Shutdown closes the current session and touches nothing else |
| SessionLaws.RunMirrorsStream | server/internal/agent/session_manager.go:42-135 | After every poll stream, whatever store calls fail, each poll has the role the stream's own rules give it and each row has the start, start values (of the poll before), end, count and maxima the stream says |
| SessionLaws.RowValues | server/internal/agent/session_manager.go:137-158 | In each of the three columns, the recorded maximum is at least the value of every poll of the session whose update reached the table, and zero or one of them; the start value is that of the poll before the session |
| SessionLaws.ExplanationIsUnique | server/internal/agent/session_manager.go:42-101 | Those rules leave no choice: a stream has one division into sessions |
| SessionLaws.OpenRowsAreCurrentOrLeaked | server/internal/agent/session_manager.go:128-135 | A row is open if and only if its session is current or the store failed when asked to close it |
| SessionLaws.FailedCloseLeavesTwoOpen | server/internal/agent/session_manager.go:128-135 | Four polls, one with a failed close, after which two rows are open |
| SessionLaws.AtMostOneOpen | server/internal/agent/session_manager.go:128-135 | When the store closes what it is asked to, only the current session is open |
| SessionLaws.SessionsAreDisjoint | server/internal/agent/session_manager.go:42-135 | Under a clock that does not go back, an earlier session ends before a later one starts |
| SessionLaws.PollsAreConserved | server/internal/agent/session_manager.go:138-158 | The counts in the table add up to the polls in sessions whose count the store did not lose |
| MiniMaxManager.ApplyKeeps | server/internal/agent/minimax_agent_manager.go:103-243 | Every atomic step of Run, Reload, a goroutine or the context, unless it is an early Reload, keeps the lifecycle invariant |
| MiniMaxManager.AtMostOneGoroutinePerAccount | server/internal/agent/minimax_agent_manager.go:163-225 | In every interleaving without an early Reload, no account has two polling goroutines |
| MiniMaxManager.ReloadWaitsOnlyForCancelled | server/internal/agent/minimax_agent_manager.go:228-243 | While a Reload waits for the goroutines, each one alive has been cancelled or the shutdown is about to cancel it |
| MiniMaxManager.ReloadIsSafeIffLoaded | server/internal/agent/minimax_agent_manager.go:122-134 | From any state satisfying the invariant, a Reload can never be followed by two goroutines for one account if and only if the initial load has nothing left to start |
| MiniMaxLoads.LoadStartsItsAccounts | server/internal/agent/minimax_agent_manager.go:137-161 | In every interleaving without an early Reload, once no load is under way, the registered accounts are exactly those of the query read last, each polled by the goroutine it is registered with unless that has ended, and nobody else is polled |
| MiniMaxLoads.InitialLoadEnds | server/internal/agent/minimax_agent_manager.go:137-161 | Whatever the initial query reads, Run's own moves bring the load to its end |
| MiniMaxLoads.ShutdownWaits | server/internal/agent/minimax_agent_manager.go:228-243 | Run finishes only when no goroutine is alive |
| AgentManager.StartsAreSafeIffNoLeftover | server/internal/agent/manager.go:60-99 | From any state in step with its goroutines, Starts and goroutine ends can lead to two unstopped goroutines of one key if and only if a stopped goroutine is still alive |
| AgentManager.StepTracksIffNoForeignDelete | server/internal/agent/manager.go:79-97 | A step keeps "the unstopped goroutine of a key is the registered one" if and only if it does not delete another goroutine's entry |
| AgentManager.RunTracks | server/internal/agent/manager.go:60-132 | Over every interleaving without such a delete, each key has at most one unstopped goroutine, and it is the registered one |
| AgentManager.ConcurrentStartsStartOnce | server/internal/agent/manager.go:60-99 | Any interleaving of concurrent Starts, failures and goroutine ends without Stop is of that kind |
| AgentManager.StartRegisters | server/internal/agent/manager.go:60-99 | A Start leaves its key registered to a live, unstopped goroutine: a new one, or the one that was there |
| AgentManager.StopUnregisters | server/internal/agent/manager.go:105-116 | A Stop takes the registration away and cancels whatever runs under the key |
| AgentManager.LateEndAllowsASecondRunner | server/internal/agent/manager.go:88-93 | Start, Stop, Start and a late end: a further Start runs beside a live, unstopped goroutine of the same key |
| AgyRunner.ApplyConserves | server/internal/api/antigravity_cli.go:182-207 | Every operation keeps: launched processes are exactly the killed ones and the current session, the session is not killed, failures are 0 or 1 |
| AgyRunner.ProcessesAreConserved | server/internal/api/antigravity_cli.go:128-207 | The same over every run of fetches, ticks and stops: no process leaks, at most one lives, nothing foreign is killed |
| AgyRunner.FetchSucceedsIff | server/internal/api/antigravity_cli.go:128-207 | A fetch succeeds exactly when a process serves it, a healthy one or a new one that gets ready, and the quota request does; it keeps a healthy process, launches at most one, and notes its use only then |
| AgyRunner.IdleAndStopLeaveNothing | server/internal/api/antigravity_cli.go:296-325 | Stop leaves no process; a watchdog tick does exactly when the process has not been used for more than five minutes, and changes nothing otherwise |
| AgyRunner.FailureFlipsTheCount | server/internal/api/antigravity_cli.go:286-294 | A failed fetch from a count of one leaves no process alive and a clean count; from a clean count it is counted, and leaves a process exactly when one was ready |
| AgyRunner.TwoFailuresTearDown | server/internal/api/antigravity_cli.go:286-294 | Of two fetches failing in a row exactly one leaves no process and a clean count: the second if the count was clean before, else the first; a process is left after both exactly when the count was not clean and the second got a new one ready |
| AgyRunner.AntigravityCLIRunner.FetchSnapshot | server/internal/api/antigravity_cli.go:128-178 | The object's fetch makes the step the laws are about and says whether it succeeded |
| AgyRunner.AntigravityCLIRunner.EnsureLocked | server/internal/api/antigravity_cli.go:182-207 | A healthy session is kept; otherwise the old one is torn down first, and a launch that never gets ready is killed |
| EnvFile.LoadExistingEnv | server/setup.go:524-576 | The parser's loop computes the settings the round trip is about, with the credential-file fallback, and nothing at all for an unreadable file |
| EnvFile.FlagLineMeans | server/setup.go:549-556 | A flag line switches the flag on exactly when its trimmed value is the word true, and off otherwise |
| EnvFile.GrokTokenMeans | server/setup.go:557-560 | A Grok token switches Grok on unless it is empty, and never off |
| EnvFile.NoAssignmentMeansNothing | server/setup.go:535-538 | A line without an equal sign changes nothing |
| EnvFile.IndentMeansNothing | server/setup.go:531 | White space in front of a line changes nothing |
| EnvFile.UnreadableFileLoadsNothing | server/setup.go:525-528 | An unreadable file gives nothing, whatever credential files there are |
| EnvFile.RenderedRead | server/setup.go:530-564 | Reading printed lines is the sum of their effects: comments and blanks none, an assignment its key's, whatever equal signs or hashes its value holds |
| EnvFile.DashboardIsPrinted | server/setup.go:440-448 | User, password, interval and port are printed under their keys, a line each |
| EnvFile.SourcesArePrinted | server/setup.go:401-427 | So are the Z.ai base URL and the Antigravity source, "both" when none is chosen |
| EnvFile.DecimalRoundTrip | server/setup.go:444-448 | Interval and port are printed as decimals that read back as the same numbers |
| EnvFile.LoadedRecoversConfig | server/setup.go:384-456 | For all one-line values, loading the printed file finds every flag and every token, a token without its trailing white space, up to the two flags the credential files also turn on |
| EnvFile.TokenSurvivesIffNoTrailingSpace | server/setup.go:384-456 | Each of the four tokens comes back unchanged if and only if it does not end in white space |
| EnvFile.TrailingSpaceIsLost | server/setup.go:394-397 | A key written with a space at its end comes back without it |

## Left out

Weaker than one might want:

- AnthropicLaws.RereadNeverDowngrades: speaks of the re-read before a poll only; the forced re-read after a 401 or 403 installs what the store holds, a superseded token included.
- AnthropicLaws.LockoutIsHonoured: like the other laws, speaks of one life of the agent; a restart forgets the backoff and which token was superseded, and is a new start.
- JsonlLaws.RunIsGood: is about append-only files; what happens to a file that shrank is `JsonlProgress.ShrunkFileIsReadAfresh`. Unfinished lines stay within the limit, which `JsonlLimits.ShortStretchesAlwaysFit` gives from the files.
- MiniMaxManager.ApplyKeeps: takes the account identifiers of one query to be distinct, as database keys are; the query stands for the accounts that have an API key, a failing query for an empty one.
- WireScan.ScanProtobuf: adds where the source ORs, which `Varint.OrIsSum` justifies word by word.
- AgyRunner.ProcessesAreConserved: speaks of processes the runner has not killed; a process that dies by itself shows up only as an unhealthy session.

Assumptions about the surroundings:

- Anthropic: the clock does not go back, the OAuth endpoint exchanges a refresh token once, tokens it or Claude Code issue are new strings, the two credential readers see one store (a read may fail, and nobody writes an old pair back), nothing changes that store between the agent's read and its write, an exchange reported as failed has spent nothing unless its reply was lost on the way (which is an outcome of its own), and a write updates the store or fails. A write that reports success without saving is not part of this model.
- Sessions: values are decoded JSON numbers, hence never NaN; session identifiers are table positions.
- Lines: in the JSONL tailer a char stands for a byte, in the `.env` file for a code point; trimming and parsing a line is a parameter, and so is the text parser of a trailer frame.
- Percentages: widening a single to a double is exact, so finite floats are reals.
- The managers are modelled on values, as steps that interleave at lock boundaries, instead of as objects: what matters in them is the interleaving, and the two fields of MiniMax's map and WaitGroup are plain maps of the state.

Not modelled:

- HTTP, JSON, SQL, the keychain, cookies, log lines, notifications and display code.
- The status check of the gRPC trailer and of the HTTP response before the parse.
- Reading the statusline file and storing a snapshot; their outcomes are inputs of a poll.
- `isUnstartedCodexWindow`, `maybeAutoStartWindows` and `SendStarterPing`: single conditions around the rate cap.
- `GroupByPool` and `IsSharedQuota`: a grouping by key with no state.
- Alerts for invalid lines and the pruning of old events.
- The wording of the `.env` comments, which is a parameter; the prompts that produce the values.
