# Orphic: a verified model of its stateful core

Orphic is a chat agent that keeps a conversation in a checkpointed history, calls tools of
connected providers, limits how often it does so, and holds OAuth tokens for its users. This
project models the parts of it that hold state and proves what they keep true over every run.
`dafny verify dfyconfig.toml` checks everything.

**Conversation history.** `Messages`, `Sanitizer` and `History` model the four kinds of message,
the sanitizer that decides what the language model sees, summarization, and the life of a
conversation as a state machine. The main results: pruning never changes what the model sees
beyond dropping a prefix; one sanitizing pass leaves no unanswered call, and leaves no orphan
response exactly when no answer is stranded; two passes always reach a fixed point; all text is
conserved; and over every run of complete tool rounds every view is closed.

**Tool rounds.** `Routing`, `ToolNode`, `McpNode` and `ToolRound` model the routing of an AI
message's calls over two nodes, one pass of each node, and the merge of their answers. Prompts,
tokens, limiter replies and tool outputs are arbitrary inputs of a pass (`ToolNode.World`).

**Rate limiting.** `Windows`, `RateLimiter` and `ChatLimiter` model the sorted sets and counters
as classes over a store with lazy pruning and key expiry, and prove that every decision of every
serial run on the store equals the one read off a full log of accepted calls. `ConcurrentLimiter` models the same three
pipelines as interleaved worker steps.

**Tool retrieval.** `StableSort`, `Selection`, `Servers` and `Retrieval` model the capped greedy
selection of search hits, longest-prefix server resolution, ranked retrieval with a provider
guarantee, and the index memoised by version.

**OAuth.** `OAuthCallback` models authorization and callback (`state` of section 4.1.1 of
RFC 6749, PKCE of sections 4.1 to 4.6 of RFC 7636) and `TokenProtocol` models token resolution
with a cache and a refresh lock (section 6 of RFC 6749), both as interleaved steps of any number
of workers. `Cache` models the store functions themselves.

Times are real numbers of seconds. Members of a sorted set are taken to be distinct, as their
random suffix makes them. Identifiers generated by the framework or the model provider are taken
to be fresh where a contract says so.

## Where the code differs from its own comments

The model follows the code.

- One sanitizing pass can leave an orphan response, because orphans are judged against the first
  pass and not against the output (`orchestrators/graph.py:216-220`): `Sanitizer.OnePassMayLeaveOrphan`
  gives such a history and `Sanitizer.OnePassClosure` says exactly when it happens.
- Two exits of `tool_node` answer one provider's calls only (`orchestrators/graph.py:521-533`,
  `orchestrators/graph.py:578-590`): `ToolRound.PartialExitClosedIff` says exactly when that is harmless, and
  `ToolRound.PartialExitMayBreak` gives a round where it is not.
- After a rate-limit prompt the code reads the previous prompt's answer (`orchestrators/graph.py:563`).
  What the user answers there never matters (`ToolNode.WaitAnswerIgnored`), and when no prompt was
  answered before, the pass fails: `ToolNode.CrashIff` says exactly when, `ToolNode.CrashReached` gives a pass.
- The MCP node reads server urls before its error handling (`protocols/mcp/user_mcp_tool_node.py:124-131`), so a
  server without a url makes it fail: `McpNode.McpToolNode` says exactly when, `McpNode.MissingUrlReached` gives a call.
- The limiter is described as atomic, but counts and record are separate pipelines
  (`services/rate_limiter.py:205-208`, `services/rate_limiter.py:250-255`). With k workers the limit
  can be exceeded by k - 1 and no more: `ConcurrentLimiter.OverAdmissionBounded` and
  `ConcurrentLimiter.OverAdmissionAttained`.
- The provider guarantee takes the first unselected candidate, not the best one
  (`services/tool_retriever.py:336-343`): `Retrieval.BetterToolLeftOut` gives a query where a better tool is left
  out, and `Retrieval.AddedIsBestIff` says exactly when the tool added is the best.
- The refresh reads the connection before it takes the lock and does not read it again
  (`services/connections/oauth_engine.py:399`, `services/connections/oauth_engine.py:420-433`), so a rotated refresh
  token can be sent once more: `TokenProtocol.StaleTokenPosted` gives such a run, and
  `TokenProtocol.PostedTokenCurrentIff` says that, where writes rotate the token, the one sent is the stored one
  exactly when nothing wrote the row since it was read.
- A cached token is said to be deleted on a disconnect (`services/cache.py:93-99`), but a worker that has read the row
  puts it back: `TokenProtocol.RemovedTokenLingers` gives such a run, and `TokenProtocol.RemovedTokenBounded` says how
  long it can last.
- A stored state is not bound to a provider (`services/connections/oauth_engine.py:257-258`,
  `services/connections/oauth_engine.py:308-322`), so a challenge that went out may stay unanswered:
  `OAuthCallback.ChallengeUnanswered` gives such a run, and `OAuthCallback.ChallengeAnsweredIff` says exactly when.
- A reset empties both windows (`services/rate_limiter.py:294-304`), so a window may hold more accepted calls than its
  limit: `RateLimiter.ResetRefillsWindow` gives such a run, and `RateLimiter.AcceptedBounded` the bound that holds.
- The verifier pop is called atomic but is a read and a delete
  (`services/connections/oauth_engine.py:143-149`): `OAuthCallback.VerifierPopIsExclusive` shows why that is safe.
- The branch for unroutable calls (`orchestrators/graph.py:756-763`) cannot be taken: every call goes to
  one of the two nodes (`Routing.RouteAfterAgent`).

## Model

| member | source | states |
|---|---|---|
| Messages.ExtractToolCallIds | orchestrators/graph.py:141-156 | the loops collect exactly the ids found in tool_calls and in additional_kwargs |
| Messages.LastHuman | orchestrators/graph.py:170-174 | the index is the last human message, or -1 when there is none |
| Sanitizer.PrunePast | orchestrators/graph.py:176-195 | the first pass turns each completed turn into its past view and keeps the current turn as it is |
| Sanitizer.SanitizeMessages | orchestrators/graph.py:159-223 | the two imperative passes compute the specification Sanitize, about which the lemmas below speak |
| Sanitizer.SanitizeExact | orchestrators/graph.py:176-223 | message by message, the view holds exactly the messages that are kept whole and, of other messages with calls, the text if it is not blank, in order and once each; calls are kept where they belong to the current turn and are all answered there, responses where their call is in the turn |
| Sanitizer.NothingMadeUp | orchestrators/graph.py:188-213 | every message of the view is one of the history, or an AI message without calls that holds the text, not blank, of one |
| Sanitizer.PrunePreservesView | orchestrators/graph.py:170-223 | for any cut at or before the last human message, sanitizing the kept suffix gives exactly the tail of sanitizing the whole history |
| Sanitizer.OnePassClosure | orchestrators/graph.py:197-221 | one pass leaves no unanswered call, and no orphan response if and only if every answered id of a partly answered group is shared with a fully answered one |
| Sanitizer.WholeGroupsClosure | orchestrators/graph.py:197-221 | groups answered in full or not at all give a closed view; where groups share no id, only they do |
| Sanitizer.OnePassMayLeaveOrphan | orchestrators/graph.py:216-220 | a history of three messages, a human message, an AI message with two calls and an answer to one, whose sanitized form has a response without a call |
| Sanitizer.TwoPassesSuffice | orchestrators/graph.py:178-223 | for any history two passes give a closed, tidy view, and a third changes nothing |
| Sanitizer.FixedPointIff | orchestrators/graph.py:178-223 | one pass changes nothing if and only if the history is closed and nothing but plain messages precedes its last human message |
| Sanitizer.TextConserved | orchestrators/graph.py:180-195 | every human and system message and every non-blank AI text survives, in order; no call or response remains before the last human message |
| History.EstimateMessageTokens | orchestrators/graph.py:778-794 | the loop computes a quarter of all countable characters, at least 1 |
| History.SummarizeIff | orchestrators/graph.py:778-813 | a history is summarized exactly when it has more than 16 messages or its text has 16004 characters or more; the estimate is a quarter of the length of all its text, at least 1 |
| History.Cutoff | orchestrators/graph.py:823-827 | the cut is the greatest index, ten or more from the end, that is 0 or holds no tool response |
| History.CutoffIff | orchestrators/graph.py:823-827 | the cut is the one index that leaves ten or more messages, is 0 or holds no response, and has only responses between it and the tenth from the end |
| History.SummarizeConversation | orchestrators/graph.py:797-900 | when it triggers, exactly the ids before the cut are removed; on every other path nothing changes |
| History.RemovalLeavesSuffix | orchestrators/graph.py:888-900 | removing those ids, being distinct, leaves exactly the kept suffix |
| History.PrefixIdsAre | orchestrators/graph.py:888-889 | the ids removed are the non-empty ids of the messages before the cut |
| History.UserTurnPrunes | orchestrators/graph.py:797-900 | a new human message is kept, and the messages before the cut are dropped exactly when the trigger holds and a summary was made |
| History.CutIsBeforeTurn | orchestrators/graph.py:824-827 | with a human message just appended, the cut never reaches into the turn it opens |
| History.RunIsSuffix | orchestrators/graph.py:959-965 | over every run of turns, replies, rounds and prunes, what was dropped plus what is kept is the unpruned history, and all of the current turn is kept |
| History.ViewIsTailOfUnpruned | orchestrators/graph.py:396 | over every run, the model sees exactly the tail of what it would see had nothing ever been pruned |
| History.ViewAlwaysClosed | orchestrators/graph.py:396 | over every run whose tool rounds are complete, with turns abandoned at any point, every view has every call answered and every answer called |
| History.RoundSurvivesSanitize | orchestrators/graph.py:204-223 | after a complete round the next view ends with the AI message and every response, unchanged |
| History.RoundClosedIff | orchestrators/graph.py:197-223 | a round that answers some pending calls leaves a closed view if and only if it answers none or all of them |
| Routing.RouteAfterAgent | orchestrators/graph.py:728-765 | a message with calls is always sent on; a call goes to the fixed part if its name is a provider's tool or an executable one, else to the MCP part |
| Routing.SelectSplits | orchestrators/graph.py:736-741 | the two parts together are all the calls, none lost and none repeated |
| Routing.SelectIsSubsequence | orchestrators/graph.py:736-741 | each part keeps the order of the calls and holds exactly those of its kind, so the parts are disjoint |
| ToolNode.ConfirmDestructive | orchestrators/graph.py:453-477 | goes on exactly when every destructive call is confirmed; else the first that is not ends the pass, suspended or cancelled as its prompt was left open or refused |
| ToolNode.ObtainToken | orchestrators/graph.py:490-536 | goes on exactly when a token can be had; else the pass suspends on an open prompt, cancels on a refusal, or answers that provider's calls when connecting gave no token |
| ToolNode.TakeSlot | orchestrators/graph.py:538-595 | goes on exactly when the limiter allows, fails, or does so again after an answered prompt; else suspends on an open prompt, fails when no earlier prompt was answered, or answers that provider's calls after a second denial |
| ToolNode.ValidateProviders | orchestrators/graph.py:479-595 | goes on exactly when every provider passes, with every call cleared; else the first provider that does not pass ends the pass for its cause; each provider is charged at most once |
| ToolNode.ExecuteCalls | orchestrators/graph.py:597-721 | each tool that can be reached runs once, in call order, and each call gets its own output |
| ToolNode.ToolNode | orchestrators/graph.py:430-721 | every outcome has exactly its cause: a refused confirmation or connection, a missing token, a second denial, an open prompt, an unset answer, or all checks passed; no tool runs before every destructive call is confirmed and every provider has a token and a slot or a failed limiter; exactly the reachable tools run, once each and in order, until one interrupts; at most one slot a provider |
| ToolNode.OutcomeDetermined | orchestrators/graph.py:430-721 | the causes leave one outcome for each pass |
| ToolNode.WaitAnswerIgnored | orchestrators/graph.py:548-567 | passes that differ only in what the user answers to rate-limit prompts end the same way, so cancelling there never cancels |
| ToolNode.CrashIff | orchestrators/graph.py:563 | the pass crashes exactly when no call is destructive and the first provider to need a prompt has a token, is over its limit and has that prompt answered |
| ToolNode.CrashReached | orchestrators/graph.py:563 | a pass of one call that crashes |
| ToolNode.DestructiveIff | orchestrators/graph.py:415-423 | a tool is destructive exactly when some part of its name spells, in any case, one of the eleven words |
| ToolNode.UnconfirmedRunsNothing | orchestrators/graph.py:453-477 | where the prompt for a tool with such a name is open or refused, the pass runs no tool; it is left, or cancelled, and left where no earlier prompt was refused |
| ToolNode.AcceptsIff | utils/interrupts.py:4-15 | which answers refuse: cancel, reject, skip, a dictionary without a decision, any other value, and for a confirmation also no |
| ToolNode.RunnableIff | orchestrators/graph.py:601-690 | a call of a provider reaches its tool exactly when a token checked or resolved late is not empty, any other call when its tool is known |
| ToolNode.ExecutedReplies | orchestrators/graph.py:601-721 | an executed pass answers each call, in order, with the output of its own tool, or with what went wrong |
| McpNode.RunSession | protocols/mcp/user_mcp_tool_node.py:135-171 | one response per call with its own output, or, after a timeout part-way, the timeout answer for every call |
| McpNode.McpToolNode | protocols/mcp/user_mcp_tool_node.py:68-183 | by every exit that returns, each call is answered exactly once in call order, with the text of that exit or the output of its own tool; the node fails exactly when a server it needs has no url |
| McpNode.MissingUrlReached | protocols/mcp/user_mcp_tool_node.py:124-131 | one call of a server without a url makes the node fail |
| ToolRound.MergedRoundComplete | orchestrators/graph.py:743-765 | when both nodes answer all they were sent, every call of the AI message is answered exactly once, in either order of arrival |
| ToolRound.FinishedRoundIsSeen | orchestrators/graph.py:396 | such a round is in the next view unchanged, the AI message and every response |
| ToolRound.PartialExitClosedIff | orchestrators/graph.py:578-590 | an exit that answers one provider's calls leaves a closed view if and only if no other fixed call was pending |
| ToolRound.PartialExitMayBreak | orchestrators/graph.py:578-590 | a round of two fixed calls of two providers where such an exit leaves the view open |
| RateLimiter.Limiter.PruneAndCount | services/rate_limiter.py:205-210 | prune and count on the lazily pruned, expiring key equal the count over the full log |
| RateLimiter.Limiter.CheckAndIncrement | services/rate_limiter.py:186-266 | the decision, counts and retry time equal those of the full log of accepted calls; an accepted call is appended to it |
| RateLimiter.DecideMeans | services/rate_limiter.py:205-266 | a call is accepted exactly when fewer calls than each limit are later than 60 and 3600 seconds ago; the result counts them, in their own fields, and itself when accepted |
| RateLimiter.Limiter.GetUsage | services/rate_limiter.py:269-291 | usage equals the log's counts and leaves the log alone |
| RateLimiter.Limiter.Reset | services/rate_limiter.py:294-304 | clears one pair's log and no other's |
| RateLimiter.Serve | services/rate_limiter.py:186-304 | one request on the store does to the log of its pair what the run below says, and nothing to another pair |
| RateLimiter.RunRequests | services/rate_limiter.py:186-304 | over every serial run on the store, of checks, usage reads and resets of many users and providers, each pair's decisions and log are those of its own operations |
| RateLimiter.WindowsBounded | services/rate_limiter.py:186-266 | over every serial run no 60 s and no 3600 s window, wherever it ends, holds more calls accepted since the last reset than its limit |
| RateLimiter.AcceptedBounded | services/rate_limiter.py:186-304 | of all calls accepted, a window holds at most the limit once and once more for each reset inside it; without a reset, at most the limit |
| RateLimiter.ResetRefillsWindow | services/rate_limiter.py:294-304 | a run with one reset in which a minute holds twice its limit |
| RateLimiter.UsageChangesNothing | services/rate_limiter.py:269-291 | the decisions and the log of a run, which RunRequests shows the store to give, are those of the run without its usage reads |
| RateLimiter.RetryTimeExact | services/rate_limiter.py:212-223 | the oldest entry leaves after r seconds with r < retry_after <= r + 1, a retry passes the window exactly from r on, and the empty-set fallback is unreachable |
| RateLimiter.DenialReportsExactRetry | services/rate_limiter.py:212-247 | every denial of a serial run reports such a time for the window that denied |
| ConcurrentLimiter.OverAdmissionBounded | services/rate_limiter.py:196-255 | with k interleaved workers every reachable state has at most limit + k - 1 recorded calls in its current minute and hour |
| ConcurrentLimiter.OverAdmissionAttained | services/rate_limiter.py:205-255 | k workers do reach limit + k - 1 in a minute and, where sixty times the minute limit is at least the hour limit, in an hour, so neither bound can be lowered |
| ConcurrentLimiter.PruneOk | services/rate_limiter.py:205-210 | a prune with an older clock reading removes nothing still in the current window and counts at least all of it |
| ChatLimiter.UntilNextReachesNextBucket | services/rate_limiter.py:379-385 | the seconds computed lead into the first second of the very next hour or day |
| ChatLimiter.DailyPruneKeepsDay | services/rate_limiter.py:340-342 | the daily prune removes no entry of its own day |
| ChatLimiter.WrittenKeyOk | services/rate_limiter.py:496-497 | the day key does not expire within its own day |
| ChatLimiter.WrittenCounterOk | services/rate_limiter.py:499-504 | token counters equal the bucket's sum and do not expire within their own bucket |
| ChatLimiter.Limiter.CheckChatRate | services/rate_limiter.py:311-457 | the result read off the store equals the one computed from the log of completed turns |
| ChatLimiter.ChatDecideMeans | services/rate_limiter.py:359-457 | each of the four limits denies exactly when it is reached and none before it is, where requests are counted over the last 3600 seconds and over the UTC day |
| ChatLimiter.TokensAdds | services/rate_limiter.py:498-504 | token counts add up the turns of the hour, or the day, that the time falls into |
| ChatLimiter.Limiter.LogTokenUsage | services/rate_limiter.py:460-506 | logging a turn appends it to the log that the store represents |
| ChatLimiter.RunTurns | services/rate_limiter.py:311-506 | over every serial run of turns on the store, the results and the log are those computed from the log of completed turns |
| ChatLimiter.ChatBounds | services/rate_limiter.py:326-506 | over serial turns no hour window and no day exceeds its request limit, and no token bucket its limit - 1 plus the largest turn, even when a turn crosses a boundary |
| ChatLimiter.HourlyRetryExact | services/rate_limiter.py:359-375 | an hourly request denial of a serial run reports a time in (r, r + 1], where the window passes exactly from r on |
| ChatLimiter.CalendarRetryExact | services/rate_limiter.py:377-440 | with nothing logged, a calendar limit that denies stays reached to the end of its bucket; the retry time falls into the first second of the next, where its count is 0 |
| StableSort.SortIsStable | services/vector_tool_retriever.py:562 | sorted by falling key, the same elements, equal keys in their original order |
| Selection.SelectHits | services/vector_tool_retriever.py:541-562 | the loops keep the first hits of each provider, fill up in order, sort and truncate |
| Selection.SelectedSize | services/vector_tool_retriever.py:541-562 | exactly min(top_k, number of hits) come back, each a different input hit, best first |
| Selection.SelectionIsOptimal | services/vector_tool_retriever.py:541-562 | at every rank the returned score is at least that of any choice with at most two hits a provider and at most top_k in all |
| Selection.FillIsOptimal | services/vector_tool_retriever.py:553-562 | at every rank the returned score is at least that of any choice of at most top_k hits that holds the first two of every provider |
| Selection.SelectedExactly | services/vector_tool_retriever.py:541-562 | position by position: of more than top_k hits the first two of each provider come back, up to top_k of them, and where they leave room the first of the others |
| Selection.SelectionIsFair | services/vector_tool_retriever.py:541-562 | when the providers' shares of at most two fit into top_k, every provider keeps its share |
| Selection.DemandIsMaximal | services/vector_tool_retriever.py:546-553 | no choice within the cap is larger than the sum of the providers' capped counts |
| Selection.DiverseSize | services/vector_tool_retriever.py:546-553 | the capped pass attains that sum |
| Servers.FirstOwner | services/tool_retriever.py:46-49 | the first match in length order is the unique longest matching server |
| Servers.OwnerIgnoresOrder | services/tool_retriever.py:46-50 | the owner does not depend on the order of the list |
| Servers.ResolveMcpServerName | services/tool_retriever.py:35-50 | the owner, or user_mcp when no server matches |
| Servers.OwnedByIff | services/tool_retriever.py:46-50 | the server resolved is the longest whose name and an underscore start the tool's, or user_mcp when there is none |
| Servers.MatchInAgentNode | orchestrators/graph.py:297-307 | the same owner whenever some server matches, else the name before the first underscore or mcp |
| Servers.RequestedServers | protocols/mcp/user_mcp_tool_node.py:101-108 | the loop collects the set Requested, whose members the next row gives |
| Servers.RequestedMember | protocols/mcp/user_mcp_tool_node.py:101-108 | a server is requested exactly when it owns the tool of some call |
| Retrieval.MemoIsTransparent | services/tool_retriever.py:183-216 | if a version determines tools and servers, then after any sequence of requests and invalidations a request returns what a fresh build would |
| Retrieval.MemoHit | services/tool_retriever.py:183-216 | a second request of the same version is answered from the cache, without a build; after an invalidation it builds; no other user's entry changes |
| Retrieval.BuildMeaning | services/tool_retriever.py:187-204 | a build lists each tool with its owner, in order, and maps each name to its owner |
| Retrieval.ToolRetrieverService.GetOrBuildUserMcpIndex | services/tool_retriever.py:163-206 | answers from the cache on equal versions, else builds and stores |
| Retrieval.ToolRetrieverService.InvalidateUserMcpCache | services/tool_retriever.py:208-216 | forgets one user's entry only |
| Retrieval.ToolRetrieverService.RetrieveTopMcpTools | services/tool_retriever.py:222-360 | every tool returned is the user's own or a fixed tool of a connected provider; the candidates are exactly those fixed tools and the user's, in order, each with its own score, ranked as below; both fallbacks list the same tools without scores |
| Retrieval.TopRankedFacts | services/tool_retriever.py:316-320 | the ranked part has min(top_k, relevant) candidates, all at or above min_score and best first, leaves out none that scores higher than one it has, and among equal scores holds the earliest, in order |
| Retrieval.RetrievalGuarantee | services/tool_retriever.py:316-343 | the ranked part comes first, every named connected provider with a candidate gets a tool, and the total is at most top_k plus the connected providers |
| Retrieval.RetrievedAreAllowed | services/tool_retriever.py:292-307 | every tool of the ranked path is the user's own or a fixed tool of a connected provider, by the candidates the method builds |
| Retrieval.FirstUnselectedFinds | services/tool_retriever.py:337-343 | the loop finds the provider's first unselected candidate, whatever its score, and nothing only when there is none |
| Retrieval.GuaranteeTurn | services/tool_retriever.py:331-343 | at its turn a named provider without a ranked tool gets the first of its candidates that nobody before has taken |
| Retrieval.GuaranteeAddsFirst | services/tool_retriever.py:331-343 | over the whole loop such a provider gets the tool of its first candidate and no other, exactly when it is connected and named |
| Retrieval.AddedIsBestIff | services/tool_retriever.py:336-343 | the tool added scores at least as high as each one left out if and only if the provider's first candidate does so among its candidates |
| Retrieval.BetterToolLeftOut | services/tool_retriever.py:336-343 | two candidates of one provider of which the lower-scoring one is returned |
| Retrieval.CandidatesOwnTools | services/tool_retriever.py:292-307 | no tool is a candidate of two providers unless it is both fixed and the user's own |
| Cache.TokenWriteIsLocal | services/cache.py:79-90 | writing one token disturbs no other token, connection set or OAuth state in the shared key space |
| Cache.Store.CacheToken | services/cache.py:79-90 | the token can be read for exactly 300 seconds |
| Cache.Store.PopOauthState | services/cache.py:176-201 | returns the live entry and leaves none, whatever was found |
| OAuthCallback.StateAcceptedOnce | services/cache.py:176-201 | over every interleaving each state is accepted at most once, within 600 seconds, and for the user who asked for it |
| OAuthCallback.PostedVerifierMatchesChallenge | services/connections/oauth_engine.py:281-343 | each state is posted at most once, and a verifier that is posted hashes to the challenge that went out with that state |
| OAuthCallback.ChallengeAnsweredIff | services/connections/oauth_engine.py:308-343 | a post answers the challenge that went out with its state if and only if the state was accepted at the callback of a provider that uses PKCE; a state whose URL carried none is not posted from such a callback |
| OAuthCallback.ChallengeUnanswered | services/connections/oauth_engine.py:308-343 | five steps after which a state whose URL carried a challenge is posted without its verifier |
| OAuthCallback.VerifierFound | services/connections/oauth_engine.py:327-333 | over every interleaving, a callback with PKCE that reads the store within 600 s of the authorization finds the verifier of the challenge that went out |
| OAuthCallback.FoundIsPosted | services/connections/oauth_engine.py:327-367 | a verifier found is posted, after its key is deleted |
| OAuthCallback.ChallengeAnswered | services/connections/oauth_engine.py:257-367 | a whole authorization with PKCE, to the post that answers its challenge |
| OAuthCallback.VerifierPopIsExclusive | services/connections/oauth_engine.py:143-149 | no two workers ever handle one state between its pop and its post |
| TokenProtocol.RefreshIsExclusive | services/connections/oauth_engine.py:418-482 | if every refresh section ends within 30 s, at most one worker is inside and each release deletes its own lock |
| TokenProtocol.LongSectionsOverlap | services/connections/oauth_engine.py:158-171 | if sections may last longer, two workers can be inside: the condition is exact |
| TokenProtocol.GoodTokenReturned | services/connections/oauth_engine.py:407-426 | over every run, a worker that meets in the row a token without expiry, or with one more than 60 s ahead, returns that token whatever the others do, and caches it for 300 s |
| TokenProtocol.ReadTakes | services/connections/oauth_engine.py:407-416 | of any other token, the row goes on to the lock where it has a refresh token and the provider a refresh url, else the call gives up |
| TokenProtocol.WaitTakes | services/connections/oauth_engine.py:418-430 | a free lock is held for 30 s; at a taken one the worker sleeps 2 s and then takes the token of the row only if it is good |
| TokenProtocol.ReplyRecorded | services/connections/oauth_engine.py:446-460 | the expiry recorded is the clock plus expires_in, or none for an absent or 0 one; the refresh token stays unless a new one, not empty, came |
| TokenProtocol.UpdateWrites | services/connections/oauth_engine.py:462-479 | the row is updated if there is one, and its token returned either way |
| TokenProtocol.RefreshedTokenReturned | services/connections/oauth_engine.py:478-482 | after the lock is given back the refreshed token is returned |
| TokenProtocol.CacheTakes | utils/agent_helpers.py:52-58 | a live cached token is returned at once |
| TokenProtocol.TokensInHandAreFresh | services/connections/oauth_engine.py:399-459 | a token in hand was either read from the table during this call, with more than 60 s left then, or received in answer to this call's own refresh |
| TokenProtocol.RefreshKeepsRefreshToken | services/connections/oauth_engine.py:454-475 | a refresh never empties the stored refresh token |
| TokenProtocol.PostedTokenCurrentIff | services/connections/oauth_engine.py:399-433 | a refresh works with the row as it was read before the lock; where every write of the row leaves another refresh token, the one posted is the stored one if and only if no step since the read wrote the row |
| TokenProtocol.StaleTokenPosted | services/connections/oauth_engine.py:420-433 | two workers whose sections do not overlap, where the second posts the token the first has rotated |
| TokenProtocol.LatenessBounded | utils/agent_helpers.py:52-68 | over every interleaving no token is returned as much past its expiry as the 300 s cache life less the least life of a token (60 s for one read from the table, any given life for a refreshed one), plus the delay of caching it; 240 s where refreshed tokens live 60 s |
| TokenProtocol.LatenessApproached | services/cache.py:79-89 | for every least life of a refreshed token the bound is approached as closely as one likes |
| TokenProtocol.RemovedTokenBounded | services/connections/oauth_engine.py:399-482 | once the row is removed, and until the user connects again, a token returned more than the cache life and the delay later comes from a refresh since then |
| TokenProtocol.RemovedTokenLingers | utils/agent_helpers.py:52-68 | that bound is approached even when the cached token is deleted with the row |

## Left out

- OAuthCallback and TokenProtocol: modelled on values, as steps over a shared state; updates in place appear only in `Cache`.
- ConcurrentLimiter: modelled on values for one user and provider; the class over the store of all pairs is `RateLimiter.Limiter`.
- ToolNode.ToolNode: one pass of the node; replay after an interrupt is the framework's. The re-authentication interrupt during execution leaves the pass without a result.
- ToolNode.IsDestructiveTool: lower-casing covers ASCII letters only.
- ChatLimiter.Limiter.CheckChatRate: one clock reading serves a whole call, while the code reads the clock again for the key suffixes and the retry times (`services/rate_limiter.py:323-328`, `services/rate_limiter.py:377-385`); a call that crosses a bucket boundary between two readings is not modelled.
- ChatLimiter.Limiter.LogTokenUsage: likewise (`services/rate_limiter.py:473-489`).
- Labels, authorization URLs, prompts to the user and log lines do not appear; reply texts are abridged where they name a label or a waiting time.
- Language model calls, embeddings, BM25 scoring, vector search and MCP network calls: their results are arbitrary inputs. Vector hits are taken to arrive best first.
- Retrieval.GuaranteeAddsFirst: stated for a provider none of whose tools is also a candidate of another provider. `Retrieval.CandidatesOwnTools` shows that of every provider unless a tool is both fixed and the user's own; for such tools `Retrieval.GuaranteeTurn` says what is added.
- Retrieval.AddedIsBestIff: as the line above.
- Retrieval: the alias table and the substring test on the query are an arbitrary predicate on providers; the order in which a set of providers is visited is an arbitrary list.
- Summaries: the text of a summary and the prompt that makes it; only whether one was made matters.
- Messages: human and system messages are taken to carry no tool calls.
- Usage reads and resets of the chat layer: `get_chat_usage` prunes like `check_chat_rate`, and a reset empties four keys.
- Token exchange after the callback: extraction, validation and storing of tokens, and the format of the POST.
- Store and database failures (except a failing limiter in `tool_node`), memory eviction, and clock skew between workers.
- A worker that dies inside a refresh section: its lock expires, which the model covers only for sections that end in time.
- The version and schema keys of the MCP configuration cache: plain reads and writes.
- SHA-256 and randomness: an abstract hash function, and freshness of states.
- HTTP routers, streaming, authentication of users, ORM models, migrations, document parsing and memory extraction.
