# A verified model of the gateway's request engine

The repository is an OpenAI-compatible gateway in front of the Gemini web application.  This project models the
parts of it whose correctness is hard to see from any one function, and proves what they guarantee for every input,
every interleaving and every upstream behaviour.

- **Streaming text.**  Upstream sends cumulative frames; they become deltas (`Deltas`), pass a gate that hides
  tool-call blocks as they arrive (`ToolGate`), and are reconciled with the batch parser at the end (`ToolBlocks`,
  `ToolCalls`, `ChatStream`, `ChatAgreement`).  `ToolPattern` says what the regular expression matches, and
  `ToolDecoding` what a block is read as.  `Json` is the part of `encoding/json` that this rests on; `JsonStrings`,
  `JsonNumbers` and `JsonGrammar` prove it to accept exactly the grammar of RFC 8259 (sections 2 to 7), `JsonFields` and
  `JsonLaws` have what else is needed of it.  `ToolRoundTrip` and `ToolRoundTripLimits` say which calls survive being
  printed and parsed.
- **Retries and failover.**  `Client` is the retry loop with its one repetition for a fresh XSRF token, `Gateway` the
  account loop around it.  Upstream is an oracle that answers round by round; other requests and administrators
  are a function on the tables applied before every store statement.  `ClientRounds` and `GatewayFailover` say how
  every run ends, from the rounds and tries alone; `ClientLaws`, `GatewayLaws`, `GatewayAccounts`, `GatewayReports`,
  `GatewayEgress`, `GatewayCookies` and `GatewayBound` are about all runs in all such worlds; `Affinity` is about how
  long an account keeps its proxy when many requests overlap; `EndToEnd` joins the requests with the streaming side.
- **Tables.**  `Store` has the account and proxy tables as maps, every statement or transaction as one step, and the
  operations in place on an object.  `Rotation` is the least-recently-used order with its one-second clock,
  `Breaker` the circuit breaker and `AccountHistory` the rows of accounts over all histories.
- **Smaller machines.**  `Tokens` (the page-token cache, with fetches that overlap), `Cookies`, `CookieLaws`,
  `CookieMerging` and `CookieNormalizing` (merging and storing cookie headers), `Responses` and `ResponseReader` (the
  event stream of the Responses API and a reader that checks it), `LoginLimiter` and `LoginBound` (the limit on wrong
  passwords, and how many it lets through).

Methods follow the source's loops and updates and are proved equal to functions on values; the lemmas are about those
functions.  Strings are sequences of characters; where the source compares lengths it compares bytes of UTF-8, and so
does the model (`ByteLen`).

## Where the code falls short of what one might expect

These are results of the model; each is stated exactly, with the inputs for which it happens.

- A 400 reply that carries output and asks for a fresh XSRF token is followed by another post
  (`ClientLaws.FreshXsrfResends`); it is the only way to post after output (`GatewayLaws.RequestResendsExactly`).
- The gate closes a block at any closing fence, the expression only at one that starts a line; what follows such a
  fence inside a call is shown, unless another open marker follows at once
  (`ToolBlocks.SameCuts`, `ChatAgreement.FenceInPayloadLeaks`).
- A visible text that starts with white space loses what the gate held back at the end (`ChatAgreement.SeenExactly`).
- Accounts that vanish during a request make it anonymous although the fallback is off
  (`GatewayAccounts.VanishedAccountsGoAnonymous`).
- Two requests that overlap and both pick an account unbound bind it one after the other: the second rebinds it to
  another proxy although the first proxy could be used (`Affinity.OverlappingRequestsRebind`; exactly when a binding
  lasts: `Affinity.BindingLastsExactly`).
- A proxy that is deleted between the choice and the bind leaves an account bound to nothing, which no request
  repairs (`Affinity.DeletedProxyIsBound`; exactly when bindings are sound: `Affinity.BindingsAreSoundExactly`).
- Edits of a proxy that overlap can leave a URL with the failures of another one, or clear failures of a URL that
  stays (`Breaker.StaleEditKeepsFailures`, `Breaker.StaleEditForgetsFailures`; exactly when:
  `Breaker.CountBelongsToUrlExactly`).
- A failure report stamped before an earlier one ends a cool-down early (`Breaker.BackdatedFailureEndsCooldown`).
- Within one second the rotation starves every account used in it but the one with the smallest id
  (`Rotation.SameSecondExactly`).
- A cookie stored while a request runs is overwritten by what that request merges (`GatewayCookies.ServedCookieIsStored`).
- A page fetch that began before an invalidation can store after it (`Tokens.LateFetchOutlivesInvalidation`).
- Arguments nested to the very limit of the JSON decoder, or padded with white space that JSON does not know, are lost
  on the way (`ToolRoundTripLimits.RoundTripExactly`).
- A merged cookie header that starts with a brace is not stored as it is (`CookieLaws.NormalizingKeepsMerged`).
- Logins that overlap get more than eight wrong passwords into five minutes: 2c + 6 when c overlap, and no more
  (`LoginBound.BoundIsMet`, `LoginBound.AtMostInFiveMinutes`).
- A failed Responses stream without tools leaves its message item open (`ResponseReader.FailureLeavesItemOpen`).

## Model

| member | source | states |
|---|---|---|
| `ToolGate.PartialPrefixLength` | internal/openai/tools.go:104-112 | the result is the longest suffix of the text that is a proper prefix of the marker; no longer one exists |
| `ToolGate.ToolFenceGate.constructor` | internal/openai/tools.go:65-67 | a new gate is empty, outside a block, and has let nothing through |
| `ToolGate.ToolFenceGate.Send` | internal/openai/tools.go:96-102 | text is appended to what was sent and emitted as one non-empty piece; empty text is not emitted |
| `ToolGate.ToolFenceGate.Push` | internal/openai/tools.go:69-92 | one push leaves output, buffer and block flag as the loop on buffer plus delta would, for any state; pieces already emitted stay |
| `ToolGate.IndexStable` | internal/openai/tools.go:80-84 | appending text does not move the first occurrence of a marker |
| `ToolGate.TailDecidesMarker` | internal/openai/tools.go:87-89 | whatever arrives next, where the next open marker is found depends only on the held tail: a partial marker that the gate let go can never complete |
| `ToolGate.TailSuffices` | internal/openai/tools.go:87-90 | what the gate does from now on depends only on the tail it holds, and what it has let through is final |
| `ToolGate.DrainAppend` | internal/openai/tools.go:69-92 | the loop on a text followed by more is the loop on the first part followed by the loop on its remainder plus the rest |
| `ToolGate.PushSettles` | internal/openai/tools.go:69-92 | after any push the gate holds no complete marker that it still had to act on |
| `ToolGate.ChunkingInvariance` | internal/openai/tools.go:69-112 | for every way of cutting a text into pieces, also inside either marker, the gate ends with the same output, buffer and flag as after one push of the whole text |
| `ToolBlocks.GoodBlockIsMatched` | internal/openai/tools.go:27-27 | the expression matches a block up to the fence at which the gate closes it if and only if its header and body have the stated shape (greedy white space and reluctant body included) |
| `ToolBlocks.FirstMatch` | internal/openai/tools.go:27-31 | the leftmost match of the expression is at the first open marker that matches at all, and none exists without a later closing fence |
| `ToolPattern.MatchExactly` | internal/openai/tools.go:27-31 | the first match is, of all stretches that the expression could match, the leftmost, then the one with the longest header, then the one with the shortest body; there is none only if no stretch fits |
| `ToolBlocks.SameCuts` | internal/openai/tools.go:27-92 | the gate and the expression cut the same list of stretches out of a text if and only if every fence the gate closes encloses a good block; two adjacent cuts of the gate count as different from one match over both |
| `ToolBlocks.StreamingIsBatch` | internal/openai/tools.go:54-92 | on such a text the gate's output plus what it still withholds is the text with all tool blocks removed; for the texts, as opposed to the lists of cuts, well-formed blocks are sufficient and not necessary (ChatAgreement.AdjacentCutsHideAll) |
| `ToolCalls.ParseToolCalls` | internal/openai/tools.go:29-56 | the calls are those of the blocks that stand for one and the leftover text is trimmed; which blocks these are, and for what, is ToolDecoding.CallExactly |
| `ToolDecoding.CallExactly` | internal/openai/tools.go:35-48 | for every block body: it stands for a call if and only if it is a JSON object whose members called "name", in any case, are all strings or null and the last string among them is not empty; that is the name, and the arguments are the text of the last member called "arguments", or "{}" if there is none or it is null, in whatever order members stand and whatever others there are |
| `ToolDecoding.AssignedExactly` | internal/openai/tools.go:35-41 | the same for the members of any object text: when decoding fails, and what name and arguments are otherwise |
| `ToolDecoding.CallsAreListed` | internal/openai/tools.go:31-53 | every block that stands for a call gives it, in the order of the blocks, and one that does not hides no other |
| `JsonFields.NamesIgnoresCase` | internal/openai/tools.go:35-38 | a member lands in a field exactly if its key is the field name in upper or lower case letters, with the two characters outside ASCII that fold to s and k |
| `JsonStrings.UnquoteSpelled` | internal/openai/tools.go:39-39 | a string literal is read as what its characters, short escapes and code units stand for, however they are mixed, surrogate pairs included |
| `JsonStrings.UnquoteOnlySpelled` | internal/openai/tools.go:39-39 | every literal that is read is written so |
| `JsonNumbers.NumberRead` | internal/openai/tools.go:46-46 | a number of the grammar is read as a whole when it does not go on |
| `JsonNumbers.NumberOnlyRead` | internal/openai/tools.go:46-46 | every number that is read is one of the grammar |
| `JsonGrammar.ValidExactly` | internal/openai/tools.go:46-48 | a text is valid if and only if it is a value of the RFC 8259 grammar nested at most 10000 deep, written with any white space and any escapes |
| `JsonGrammar.MembersExactly` | internal/openai/tools.go:39-39 | the members of a valid object are those that were written: the keys by what they stand for, the values by their extent |
| `ToolCalls.AssistantBlock` | internal/openai/prompt.go:40-52 | the block is the head, the content if any, and one line group for every call that has a name |
| `JsonLaws.ShiftValue` | internal/openai/tools.go:38-51 | a JSON value is scanned in any surrounding text as it is on its own, up to the same end |
| `JsonLaws.ValueCalm` | internal/openai/prompt.go:216-221 | no JSON value contains a newline followed by a backtick, nor starts or ends with white space |
| `JsonLaws.UnquoteEscaped` | internal/openai/prompt.go:228-231 | reading back any string as the encoder writes it, HTML and line-separator escapes included, gives the string |
| `JsonLaws.EscapedIsSafe` | internal/openai/prompt.go:228-231 | a string is written unchanged exactly if all its characters are harmless, and no control character, angle bracket, ampersand or line separator ever occurs in what is written |
| `JsonLaws.DeeperValue` | internal/openai/tools.go:38-51 | what is valid within some nesting depth is valid, and read alike, within any greater one |
| `ToolRoundTrip.BlockIsMatched` | internal/openai/tools.go:27-27 | a written block is matched as a whole whatever follows it |
| `ToolRoundTrip.PayloadDecodes` | internal/openai/prompt.go:206-221 | a written payload decodes to the same name and the trimmed arguments, and holds nothing that could end its block |
| `ToolRoundTrip.ChainReadsBack` | internal/openai/prompt.go:206-221 | after any text without an open marker, calls written one to a line are read back in order and only that text and line breaks are left over |
| `ToolRoundTrip.RoundTrip` | internal/openai/prompt.go:206-221 | for every sequence of calls with a name and JSON arguments one level short of the nesting limit: printing and parsing returns the same names and trimmed arguments in order and an empty leftover text |
| `ToolRoundTrip.AssistantBlockReadsBack` | internal/openai/prompt.go:40-52 | the calls of a whole assistant message survive, and what is left over is its trimmed text, if that has no open marker of its own |
| `ToolRoundTripLimits.RoundTripExactly` | internal/openai/prompt.go:206-221 | a call survives printing and parsing if and only if its arguments are absent or valid JSON with room for one more level of nesting |
| `Deltas.DeltaTracker.Push` | internal/gemini/parser.go:29-37 | the delta is what was added to the emitted text, which becomes the cleaned cumulative text if that extends it and stays as it is otherwise |
| `Deltas.EmittedIsFinalOrDiverged` | internal/gemini/parser.go:109-143 | for any frames and anything emitted before: the emitted text is never a proper prefix of the final text |
| `Deltas.PlainStreamShowsFinal` | internal/openai/tools.go:114-119 | without tools nothing is ever added after the last delta, so what was streamed stays, and the streamed text is the final one if and only if it is a prefix of it |
| `Deltas.CumulativeStreamIsFinal` | internal/gemini/parser.go:109-143 | for one reply whose frames are cumulative as received and after cleaning, on a tracker that may have emitted before: the emitted text ends as the final text if and only if what was emitted before is a prefix of that; over retries and failover see EndToEnd.CumulativeAnswerIsStreamed |
| `Deltas.RewrittenAnswerDiverges` | internal/gemini/parser.go:29-37 | when upstream rewrites its answer the streaming client keeps the first version and the waiting one gets the second |
| `ChatStream.Feed` | internal/openai/chat.go:106-110 | the chunks of one delta show exactly what the gate lets through |
| `ChatStream.CloseStream` | internal/openai/chat.go:117-164 | the chunks that follow the deltas, for either ending |
| `ChatStream.StreamChat` | internal/openai/chat.go:70-166 | for every sequence of callbacks and either ending: the role once and first, non-empty deltas that show the visible text and all the reasoning; after an answer the missing rest, then exactly one finish, which is "tool_calls" directly after the parsed calls if there are any and "stop" otherwise, usage after it if asked for, and the end once and last; after a failure only the error before the end |
| `ChatStream.StreamClosesWell` | internal/openai/chat.go:117-164 | the same as a lemma about the closing: where the calls, the finish, usage, the error and the end stand, and that nothing is shown after the finish |
| `ChatAgreement.SeenExactly` | internal/openai/chat.go:127-136 | exactly when the streaming client sees the trimmed text of the waiting one: always up to outer white space, unless it was shown leading white space and something is held back |
| `ChatAgreement.StreamedIsCleaned` | internal/openai/chat.go:96-136 | end to end for any deltas of a text whose closed fences enclose good blocks: what the gate, the held tail and remainingText show is the cleaned text, with the exact exceptions |
| `ChatAgreement.FenceInPayloadLeaks` | internal/openai/tools.go:69-92 | for every JSON payload that contains a closing fence: the expression removes the whole block, the gate goes on after that fence; with a one-line open marker what follows is shown to the client, unless it starts with an open marker, in which case the gate enters a block again; in any case the lists of cuts differ |
| `ChatAgreement.AdjacentCutsHideAll` | internal/openai/tools.go:69-92 | for a family of texts that are not well formed, the gate makes two adjacent cuts where the expression makes one, and the output plus what is withheld still is the stripped text |
| `Client.OnFrame` | internal/gemini/client.go:75-86 | a frame hands on its reasoning delta before its text delta, each only if there is a callback and something new |
| `Client.ScanFrames` | internal/gemini/parser.go:109-143 | keeps the longest text and reasoning, the later one of equals, hands every frame with content on in order, and cleans at the end |
| `Client.Attempt` | internal/gemini/client.go:48-131 | one pass through the loop body takes the branch that the reply calls for, with its effect on result, error, XSRF flag and trace |
| `Client.Generate` | internal/gemini/client.go:27-140 | for every upstream behaviour the loop ends with the outcome of the recursive definition, and it terminates although an attempt may be given back |
| `ClientRounds.GenerateRounds` | internal/gemini/client.go:46-140 | for every upstream behaviour, told by its rounds alone: the loop ends with the first round whose tokens are refused, that answers, or that fails when something was handed on, the caller has left or no attempt remains, where a 400 reply that asks for a fresh token uses up none the first time; it has posted once a round, kept the cookies of all replies, and ends with the text or the error of that round |
| `ClientRounds.RetriesUntilAnswered` | internal/gemini/client.go:59-131 | after fewer silent failures of any kind than there are attempts, a complete reply with content is the answer, with one post for each of these rounds |
| `ClientRounds.FailsAfterAllAttempts` | internal/gemini/client.go:59-140 | if all attempts fail silently all of them are made, and the error is that of the last |
| `ClientRounds.NothingToSend` | internal/gemini/client.go:28-33 | a blank prompt or an incomplete model is an error without a post |
| `ClientRounds.LongestTextIsKept` | internal/gemini/parser.go:109-143 | the text that a scan keeps is, of all frames with content, one with the most bytes, and the last of those |
| `ClientLaws.HearAllAdds` | internal/gemini/client.go:74-93 | the callbacks of a reply add up to exactly what it added to the emitted texts |
| `ClientLaws.ReasoningFirst` | internal/gemini/client.go:75-86 | a frame is handed on as at most one reasoning delta and then at most one text delta, neither empty |
| `ClientLaws.GenerateReportsCallbacks` | internal/gemini/client.go:74-93 | across retries, the concatenation of all callbacks is the emitted text that the result reports, and nothing was handed on exactly when that is empty |
| `ClientLaws.GenerateSendBound` | internal/gemini/client.go:46-134 | at most max(1,R) posts, plus one if there is a cookie |
| `ClientLaws.StaleTokensMeetBound` | internal/gemini/client.go:101-106 | that bound is met, with a cookie and without, whenever every reply is a 400 that asks for a fresh token and has no output; the run ends with the error of such a reply |
| `ClientLaws.GenerateResendsExactly` | internal/gemini/client.go:48-131 | nothing is posted after output if and only if no 400 reply with output asks for a fresh XSRF token and is followed by another post |
| `ClientLaws.FreshXsrfResends` | internal/gemini/client.go:101-106 | that exception is real: a first reply of that kind makes the client post again after output, whatever follows |
| `ClientLaws.RunSucceeds` | internal/gemini/client.go:122-133 | the loop ends without an error only on a complete 200 reply with content, whose longest text, cleaned and non-empty, is the result; with a content callback nothing remains to be shown after it |
| `ClientLaws.GenerateStreams` | internal/gemini/client.go:46-140 | across retries: an answered run that re-sent nothing after output, and whose last reply is cumulative, has emitted exactly its final text |
| `Tokens.TokenCache.Resolve` | internal/gemini/tokens.go:39-94 | a usable entry is answered without a fetch or a change; otherwise the answer and the entry come from the page, stored after whatever others did meanwhile, and a cookie without an XSRF token is an error that stores nothing |
| `Tokens.TokenCache.Invalidate` | internal/gemini/tokens.go:96-100 | the entry is gone and no other is touched |
| `Tokens.EntriesAreLastStored` | internal/gemini/tokens.go:39-100 | over every interleaving of lookups, fetches and invalidations: a key has an entry if and only if a store under it was followed by no invalidation, and the entry is the last page stored |
| `Tokens.HitsAreFresh` | internal/gemini/tokens.go:43-49 | tokens answered from the cache were fetched less than 20 minutes ago for the same cookie and proxy, with no invalidation since |
| `Tokens.InvalidatedIsRefetched` | internal/gemini/tokens.go:96-100 | after an invalidation a lookup misses unless some fetch has stored since |
| `Tokens.LateFetchOutlivesInvalidation` | internal/gemini/tokens.go:51-93 | that store can come from a fetch begun before the invalidation, whose tokens are then served |
| `Tokens.CachedTokensAreSound` | internal/gemini/tokens.go:87-92 | at every moment of every run an entry for a non-empty cookie has a non-empty XSRF token |
| `Tokens.ResolvedHasXsrf` | internal/gemini/tokens.go:39-94 | a resolve for a cookie that succeeds never returns an empty XSRF token |
| `Tokens.AnswersExactly` | internal/gemini/tokens.go:39-94 | what every request of every run is answered: nothing needed, nothing fetched; a page stored under its key under 20 minutes ago and not invalidated answers at once; all others wait for a page, whose failure only requests without a cookie survive; the build label is the page's if wanted and known, and otherwise the pinned one |
| `Cookies.MergeSetCookies` | internal/gemini/client.go:190-219 | the header is the printed ordered map: each name where it first occurred, with the value it got last |
| `Cookies.NormalizeCookie` | internal/store/accounts.go:230-250 | the tidied header, taken out of its JSON wrapper if the text starts with a brace |
| `CookieNormalizing.TidyKeepsMeaning` | internal/store/accounts.go:240-249 | tidying a header keeps every cookie it stands for, leaves only trimmed parts with an equals sign, and does nothing a second time |
| `CookieNormalizing.NormalizedExactly` | internal/store/accounts.go:230-250 | a text with a leading brace is stored only if it is valid JSON whose members called "cookie" are strings or null, and then as the tidied last of these strings; any other text is tidied; the cookies it stands for stay the same |
| `Cookies.MergedIsConsistent` | internal/gemini/client.go:190-219 | every listed name has a value, every value a listed name, and no name is listed twice |
| `CookieLaws.MergedReadsBack` | internal/gemini/client.go:190-219 | parsing a merged header gives exactly the ordered map it was printed from |
| `CookieLaws.MergingComposes` | internal/gemini/client.go:190-219 | merging two batches one after the other is merging their concatenation |
| `CookieLaws.MergingTwice` | internal/gemini/client.go:190-219 | merging the same batch again changes nothing |
| `CookieMerging.MergeExactly` | internal/gemini/client.go:203-213 | after a merge every name has the value of the last line that sets it, or else keeps the one it had, and new names follow the old ones in the order of the first lines that set them |
| `CookieMerging.AttributesAreIgnored` | internal/gemini/client.go:204-205 | a line sets what the text before its first semicolon sets, whatever attributes follow |
| `CookieMerging.ParseExactly` | internal/gemini/client.go:193-202 | a header is read by the same rules, part by part |
| `CookieMerging.SplitExactly` | internal/gemini/client.go:193-193 | the parts are the stretches between semicolons |
| `CookieLaws.NormalizingKeepsMerged` | internal/store/accounts.go:186-193 | storing a merged header keeps it as it is if and only if it does not start with a brace |
| `Rotation.SelectFirst` | internal/store/accounts.go:141-156 | the row with the earliest last use, the smallest id among equals, or none if no row qualifies |
| `Rotation.BoundedOvertaking` | internal/store/accounts.go:136-178 | a row last used before the current second, or used in it with the smallest id, is picked as soon as the rows ahead of it have been, for any exclusions of others and a clock that never goes back |
| `Rotation.PickedWithinN` | internal/store/accounts.go:136-178 | so it is picked within the next n of n enabled rows |
| `Rotation.SameSecondStarves` | internal/store/accounts.go:155-155 | within one second a row can wait for any number of picks behind one with a smaller id |
| `Rotation.SameSecondExactly` | internal/store/accounts.go:136-178 | within one second, over any run of at least n picks among n rows none of which was used later, a row is picked if and only if it was last used in an earlier second or has the smallest id |
| `Rotation.ConsecutivePicksAreDistinct` | internal/store/accounts.go:136-178 | with a strictly increasing clock any n consecutive picks are n different rows |
| `Store.Store.PickAccountExcluding` | internal/store/accounts.go:136-178 | returns the first of the rotation outside the excluded ones and stamps only its time of use |
| `Store.Store.ReportAccountHealth` | internal/store/accounts.go:195-210 | success clears the failure count, failure adds one; id 0 and unknown ids change nothing |
| `Store.Store.Bind` | internal/store/accounts.go:212-215 | sets the proxy of one account, whatever it was |
| `Store.Store.SetCookie` | internal/store/accounts.go:186-193 | sets the cookie of one account |
| `Store.Store.PickProxyPreferring` | internal/store/proxies.go:139-172 | returns the preferred proxy if it is usable, else the least recently used usable one, and stamps only its time of use |
| `Store.Store.ReportProxyHealth` | internal/store/proxies.go:180-199 | success closes the breaker; a failure counts, and from the fifth on sets the cool-down to five minutes from now |
| `Store.Store.Reset` | internal/store/proxies.go:201-212 | clears status, count and cool-down, and reports an unknown id |
| `Store.Store.Update` | internal/store/proxies.go:83-118 | an edit without interference clears the breaker exactly when it changes the URL |
| `Store.Store.Delete` | internal/store/proxies.go:120-137 | in one step the proxy is gone and the accounts bound to it at that moment are unbound; a bind that was still under way can bind one to it afterwards (Affinity.DeletedProxyIsBound) |
| `Store.PickedAccount` | internal/store/accounts.go:136-178 | the picked account is enabled, not excluded and least recently used, ties by id; none is picked only if all enabled ones are excluded |
| `Store.PickedProxy` | internal/store/proxies.go:139-172 | the picked proxy is enabled and not cooling down; it is the preferred one if that is usable, and otherwise the least recently used usable one, ties by id; none is picked only if all enabled ones cool down |
| `Store.NoneIsReported` | internal/store/proxies.go:174-200 | reports for the id 0, which stands for none, change nothing |
| `Store.AccountPickRotates` | internal/store/accounts.go:136-178 | an account pick is a pick of the rotation |
| `Store.OthersKeepRotation` | internal/store/accounts.go:186-215 | reports, bindings, stored cookies and deleted proxies do not touch the rotation |
| `AccountHistory.AccountReflectsHistory` | internal/store/accounts.go:13-215 | after any interleaving of requests and administrators the row of an account says when it was last picked, which cookie was written last, whether it is enabled, and how many failures were reported since its last success, change of cookie or creation |
| `Breaker.BreakerReflectsHistory` | internal/store/proxies.go:83-212 | over every interleaving of creations, the two halves of edits, resets, deletions, reports and picks: the stored count is the number of failures since the last success, reset, creation, or edit that wrote another URL than its editor had read; the status is cooldown exactly from five on, and the cool-down ends five minutes after the last failure |
| `Breaker.CountBelongsToUrlExactly` | internal/store/proxies.go:83-118 | throughout a history the count is the number of failures since the stored URL last changed (or a success, reset or creation), if and only if every edit, when it is written, compares its URL with the one it read as with the one now stored, or finds a count of zero |
| `Breaker.StaleEditKeepsFailures` | internal/store/proxies.go:83-118 | the first way to fail, as a history from the empty tables: of two overlapping edits the second writes back the URL both had read, which keeps all failures of the other one, out of rotation from five on |
| `Breaker.StaleEditForgetsFailures` | internal/store/proxies.go:83-118 | the second way: both write the same new URL, and the later one clears the failures of a URL that it does not change |
| `Breaker.CooldownIsSetWhenOpen` | internal/store/proxies.go:180-199 | the cool-down time is non-zero exactly while the count is at least five |
| `Breaker.PickRespectsBreaker` | internal/store/proxies.go:139-172 | after any history a picked proxy is enabled, and if its count is five or more its last failure is five minutes old |
| `Breaker.OpenCircuitStaysOut` | internal/store/proxies.go:139-199 | after a failure at t that leaves the count at five or more no pick before t+300 returns the proxy, unless a success, reset, deletion or edit with another URL intervenes; later failures must not be stamped before t |
| `Breaker.OneFailureReopens` | internal/store/proxies.go:180-199 | on a count of five or more a single failure at t sets the cool-down to t+300, so after the five minutes it opens the breaker for another five |
| `Breaker.BackdatedFailureEndsCooldown` | internal/store/proxies.go:180-199 | a failure stamped at u before the last one at t brings the proxy back at u+300, before t+300 |
| `Gateway.ChooseEgress` | internal/gateway/service.go:254-277 | direct if no proxy is enabled, else the picked one, which an unbound account is bound to; none usable means direct or refused by the setting |
| `Gateway.SendReports` | internal/gateway/service.go:131-136 | the reports owed for a run reach the tables in order |
| `Gateway.StoreCookie` | internal/gateway/service.go:137-142 | after a success with fresh cookies the merged header is stored, normalised, if it differs |
| `Gateway.AttemptAccount` | internal/gateway/service.go:112-153 | one pass through the account loop after the pick: egress, run, reports, cookie, and whether to finish, go on or give up |
| `Gateway.Generate` | internal/gateway/service.go:74-191 | for every world (upstream, clock, and what others do to the tables between any two statements) the request ends with the execution and the tables of the recursive definition |
| `GatewayLaws.RequestIsComplete` | internal/gateway/service.go:94-190 | every request leaves a log in which each use of the client but the last was refused for its credentials before any output, uses consecutive upstream rounds, and has at most three account attempts and one last resort |
| `GatewayLaws.RequestResendsExactly` | internal/gateway/service.go:97-190 | over failover, retries and fallback together nothing is posted after output, if and only if no single client run re-sends after a 400 reply with output |
| `GatewayLaws.RequestReportsCallbacks` | internal/gateway/service.go:97-190 | everything handed to the client comes from the last client run and concatenates to the emitted text of the execution |
| `GatewayLaws.RequestSendBound` | internal/gateway/service.go:97-188 | at most 3(R+1)+R posts, 19 under the largest setting |
| `GatewayBound.RequestMeetsSendBound` | internal/gateway/service.go:97-188 | the bound is met, exactly 3(R+1)+R posts, in every world where nobody else is at work, no proxy is enabled, at least three accounts are enabled and all of those have a cookie, the model is known and needs no account, the anonymous fallback is on, the prompt is not blank and not limited, and every reply is a 400 without output whose body holds the mark of a stale token and names the token |
| `GatewayBound.RefusalsExist` | internal/gemini/client.go:100-108 | there are such replies: a body with the quoted mark and the words that the gateway takes for refused credentials |
| `GatewayAccounts.AccountsAreDistinct` | internal/gateway/service.go:94-110 | no account is used twice in a request, whatever others do meanwhile |
| `GatewayAccounts.EachAttemptFollowsRotation` | internal/gateway/service.go:97-112 | each attempt uses the least recently used enabled account not yet used, and goes without one exactly when none is left and the model allows it |
| `GatewayAccounts.FailoverIsComplete` | internal/gateway/service.go:94-190 | over a stable set of n enabled accounts: only they are used; giving up, or falling back, happens exactly when min(3,n) of them were refused before output; anonymous use needs the setting and a model that allows it |
| `GatewayFailover.BlamesIsCredentialError` | internal/gateway/service.go:279-289 | an account is blamed for exactly these errors: status 401 or 403, or a message that contains one of the two phrases in any mixture of upper and lower case |
| `GatewayFailover.RequestEnds` | internal/gateway/service.go:94-190 | over a stable set of n enabled accounts every request ends in one of four ways, by its last try alone: that was not refused and its outcome is the request's; all min(3,n) were refused and the error counts them and carries the last one's; the last resort ran; or no proxy could be used for the next account |
| `GatewayFailover.RefusalTakesNextAccount` | internal/gateway/service.go:152-160 | a try whose account is blamed, with nothing handed on, is followed by a try with another account while one is left; any other failed try is the last and its error is the request's |
| `GatewayFailover.TurnedAway` | internal/gateway/service.go:82-92 | a request ends before any account is picked exactly if its prompt is too long in bytes, or its model is unknown or needs an account and none is enabled |
| `GatewayAccounts.VanishedAccountsGoAnonymous` | internal/gateway/service.go:97-111 | without that stability the setting is not honoured: if accounts were counted but are all gone when the first is picked, the request goes out anonymously |
| `GatewayAccounts.AccountsInRotationOrder` | internal/gateway/service.go:94-110 | while nobody else touches the rotation the accounts used are its first ones, in its order |
| `GatewayAccounts.StaleCookieIsCredentialError` | internal/gemini/tokens.go:87-89 | the error for a page without an XSRF token is one that makes the gateway fail over |
| `GatewayReports.ReportsAreExact` | internal/gateway/service.go:131-186 | each report is made exactly as often as the tries owe it: a proxied try reports its proxy once unless the credentials were refused, the last resort always |
| `GatewayReports.AccountReportsAreExact` | internal/gateway/service.go:134-151 | an account is reported failed once if it was refused before output and never otherwise; the only one reported healthy, once, is the one that served |
| `GatewayEgress.EgressExactly` | internal/gateway/service.go:254-277 | a request leaves through a proxy exactly if one was enabled when they were counted and one can be used when it is picked, is refused exactly if none of the enabled can be used and going direct is not allowed, and goes direct otherwise |
| `GatewayEgress.EgressIsAllowed` | internal/gateway/service.go:254-277 | every send without a proxy traces back to an attempt at which no proxy was enabled, or none was usable and going direct is allowed; a usable proxy of the account itself is always taken |
| `GatewayEgress.BoundAccountKeepsProxy` | internal/gateway/service.go:264-276 | while others leave the binding alone, a request does not unbind a bound account, and all sent with it leaves through its proxy while that is enabled and not cooling down |
| `GatewayEgress.UnboundAccountIsBound` | internal/gateway/service.go:273-275 | an account that a try picked unbound and used through a proxy is bound to that proxy when the request ends, whatever others bound it to between that pick and that bind; the premise is that others do not end that binding after it is made and do not remove the account |
| `GatewayEgress.AffinityLasts` | internal/gateway/service.go:254-277 | over any number of requests, everything sent with a bound account leaves through its proxy while that is usable, as long as what runs between the statements of these requests leaves the binding alone; when it is left alone is what Affinity.BindingLastsExactly says |
| `GatewayEgress.PickIsRemembered` | internal/store/accounts.go:136-178 | the pick of an account is the move of the history machine by which a request remembers the account and the proxy it was bound to |
| `GatewayEgress.EgressMakesMoves` | internal/gateway/service.go:254-277 | in every world, choosing the egress is the move that chooses a proxy followed, for an account seen unbound, by the move that binds it, with others in between: the bind does not look again |
| `Affinity.OnlyEarlierPicksForget` | internal/gateway/service.go:254-277 | over every interleaving of requests and administrators: while an account stays bound, a request remembers it as unbound only if it picked it before |
| `Affinity.BindingLastsExactly` | internal/gateway/service.go:264-276 | a bound account stays bound to its proxy throughout a history if and only if no request that had picked it unbound before binds it to another proxy afterwards, and no administrator deletes the proxy or the account or assigns another proxy |
| `Affinity.LaterRequestsLeaveThrough` | internal/store/proxies.go:139-172 | while it stays bound every request that picks the account chooses its proxy whenever that is usable |
| `Affinity.OverlappingRequestsRebind` | internal/gateway/service.go:264-276 | from concrete tables: two requests pick an unbound account, the first binds it to one proxy and the second to another, though the first is enabled, usable and touched by nobody |
| `Affinity.BindingsAreSoundExactly` | internal/store/proxies.go:120-137 | throughout a history every bound account has its proxy if and only if no bind runs for a proxy that is missing by then, deleted since it was chosen, and no administrator assigns a missing one |
| `Affinity.DeletedProxyIsBound` | internal/store/proxies.go:120-137 | from concrete tables: a proxy deleted between choice and bind leaves the account bound to nothing, and a request that picks it afterwards does not bind it again |
| `GatewayCookies.CookieOfAccount` | internal/gateway/service.go:134-145 | while others leave an account with the cookie it has, a request changes that cookie only if the account served it, and then by merging what upstream set |
| `GatewayCookies.MergedIsStored` | internal/gateway/service.go:137-142 | in every world: the account that served a request with fresh cookies, if it still exists, holds exactly the header merged from the cookie it was picked with, unless that header is unchanged or starts with a brace |
| `GatewayCookies.ServedCookieIsStored` | internal/gateway/service.go:137-142 | in every world, also when others store cookies meanwhile: the account that served, if it still exists, ends with the fresh cookies merged into the cookie it was picked with, so what others stored since is lost |
| `GatewayCookies.CookiesAccumulate` | internal/gateway/service.go:137-142 | in all worlds: when an account that serves two requests is picked for the second with what the first stored, it ends with what a single merge of both batches of cookies gives |
| `Responses.ResponseEventWriter.Send` | internal/openai/responses.go:75-84 | events are written in order with the numbers 0, 1, 2 and so on |
| `Responses.BuildResponseOutput` | internal/openai/responses.go:213-225 | an item for every call, then a message if there is text or no call |
| `Responses.EmitBufferedMessage` | internal/openai/responses.go:180-203 | writes the events of one message and returns the item they announce |
| `Responses.StreamResponses` | internal/openai/responses.go:86-178 | the events written for any deltas, either ending, with and without tools |
| `ResponseReader.StreamIsAccepted` | internal/openai/responses.go:75-211 | a reader that checks numbers, order, indices, ids, phases and the completed output against everything before accepts every stream to its end and has received exactly the expected items with what was heard of them |
| `ResponseReader.ExactlyOneEnd` | internal/openai/responses.go:86-211 | the last event completes or fails the response and no other event does |
| `ResponseReader.FailureIsTold` | internal/openai/responses.go:97-162 | a failure ends the stream, with tools or without, with the message of its error |
| `ResponseReader.FailureLeavesItemOpen` | internal/openai/responses.go:136-162 | a failure without tools ends the stream while its message is open, with the deltas heard and no item done |
| `ResponseReader.HearsCompletedText` | internal/openai/responses.go:143-178 | without tools the deltas of the message add up to its completed text if and only if they are a prefix of it |
| `ResponseReader.StreamedToolsAreComplete` | internal/openai/responses.go:97-132 | with tools the completed output is that of a request that does not stream, and every item is heard in full |
| `EndToEnd.CumulativeAnswerIsStreamed` | internal/gateway/service.go:97-190 | across failover, retries and fallback: if the reply that the answer comes from is cumulative, as received and cleaned, and its client run re-sent nothing after output, the deltas of the whole request add up to the answer |
| `EndToEnd.PlainChatShowsAnswer` | internal/openai/chat.go:96-136 | for an answered request, across failover and retries, a streaming client without tools is shown nothing after the last delta, so its text is the answer if and only if it is a prefix of it |
| `EndToEnd.ToolChatShowsAnswer` | internal/openai/chat.go:96-136 | the same with tools, up to outer white space and with the exact exception, when closed fences enclose good blocks |
| `EndToEnd.ResponsesShowAnswer` | internal/openai/responses.go:143-178 | for an answered request the stream is complete, carries the answer as its one message, and is heard in full if and only if the deltas concatenate to it |
| `LoginLimiter.Limiter.Allow` | internal/admin/handler.go:164-177 | refuses exactly while blocked and names a wait after which the address is admitted; an expired window is forgotten |
| `LoginLimiter.Limiter.Fail` | internal/admin/handler.go:179-192 | counts in the current window or opens one, and blocks for five minutes from the fifth on |
| `LoginLimiter.Limiter.Success` | internal/admin/handler.go:194-198 | forgets the address |
| `LoginLimiter.HandleLogin` | internal/admin/handler.go:59-89 | a refused login changes nothing; an admitted one is counted, forgotten or ignored by its outcome, after whatever other logins did to the limiter meanwhile |
| `LoginBound.EntryShowsLastMark` | internal/admin/handler.go:151-192 | after any overlapping logins from any addresses the entry is the one of the last failure's window, or gone because that is over and does not block |
| `LoginBound.RefusedExactly` | internal/admin/handler.go:164-198 | after any overlapping logins from any addresses, also successful ones, an address is refused if and only if its last failure was at least the fifth in its window and less than five minutes ago, where the windows are worked out from the times of its failures since its last success alone |
| `LoginBound.AskingForgets` | internal/admin/handler.go:164-177 | after a question what is left of an address is blocked or belongs to a window that is not over |
| `LoginBound.FifthFailureIsFollowedByFiveMinutes` | internal/admin/handler.go:164-192 | for logins that come one after another, a failure with at least the number five is followed by none for five minutes |
| `LoginBound.BlockedOnlyDrains` | internal/admin/handler.go:164-192 | while an address is blocked and no window opens nobody is admitted, and every failure is of a login already under way |
| `LoginBound.FailuresAreSpread` | internal/admin/handler.go:164-192 | if at most c logins of an address overlap, any 2c+7 admitted failures of it in a row take at least five minutes; nine, for one after another |
| `LoginBound.AtMostInFiveMinutes` | internal/admin/handler.go:164-192 | every half-open five minutes hold at most 2c+6 of them; eight, for one after another |
| `LoginBound.BoundIsMet` | internal/admin/handler.go:164-192 | for every c from one on there is a run with exactly 2c+6 of them in five minutes, in which a login that fails late opens a new window and so lifts the block |

## Left out

- HTTP, TLS, headers, SAPISID hashing, payload building and `ParseFrame`: a reply is a status, a list of parsed frames, a scan error and its cookies.
- `CleanText` and its patterns: the cleaner is a parameter of everything, with the one assumption, where needed, that it leaves the empty text empty.
- The regular-expression engine: the tool pattern is written out as greedy and reluctant search, for which ToolPattern.MatchExactly says what it finds; the token patterns are part of what a fetched page is.
- Encryption, password hashing, sessions, API keys and random ids: the cookie is stored as it is, item ids are a parameter, and calls are compared without their ids.
- The SQLite engine and its errors: every statement or transaction is one atomic step that succeeds; last-error texts, labels, notes and time stamps other than the last use are not stored.
- The hash of token-cache keys: it is taken to be injective.
- The clients' disconnection: it shows as the error of a send, of a scan, or of the wait before a retry.
- `Probe`, overview statistics, pagination, configuration, settings validation, the model catalogue and token estimates: they would add easy members only.
- The other roles of `messagesToPrompt` and the tool section of a prompt: only the assistant block is modelled.
- The admin interface, routing, static files and middleware.
- Client.Generate: does not model the token cache inside the loop; resolving tokens is part of each oracle round, and the cache has its own module.
- Client.ScanFrames: does not model the raw body or the upstream model name found in it; the message of an error is part of the round.
- Store.Store.Update: states the edit without interference; Breaker.CountBelongsToUrlExactly has it with interference.
- Tokens.TokenCache.Resolve: does not model the text of an HTTP status or a network error beyond its prefix.
- LoginBound.AtMostInFiveMinutes: requires that nobody logs in from the address with the right password, because that clears the count.
- GatewayEgress.BoundAccountKeepsProxy: requires that what others do between the statements leaves the binding alone; Affinity.OverlappingRequestsRebind shows why, and Affinity.BindingLastsExactly when that is so.
- GatewayEgress.UnboundAccountIsBound: requires that others do not end the binding once it is made, and do not remove the account, for the same reason.
- GatewayEgress.AffinityLasts: requires the same of every request's world as GatewayEgress.BoundAccountKeepsProxy.
- GatewayCookies.CookieOfAccount: requires that others leave the cookie alone; GatewayCookies.ServedCookieIsStored has every world.
- GatewayAccounts.FailoverIsComplete: requires that nobody adds, removes, enables or disables accounts meanwhile; GatewayAccounts.VanishedAccountsGoAnonymous shows why.
- GatewayFailover.RequestEnds: requires the same stability, and GatewayFailover.RefusalTakesNextAccount with it.
- ToolRoundTrip.RoundTrip: characters are Unicode scalar values, so a name that is not valid UTF-8 does not occur.
