# plurnk, verified

This project models the self-contained algorithms and protocols of the plurnk daemon and its adapters in Dafny 4.11 and
proves what they promise. `dafny verify dfyconfig.toml` checks all of it.

| modules | what they model |
|---|---|
| `TextLines`, `Lcs`, `EditScript`, `Decimal`, `UnifiedDiff`, `DiffPath` | the line diff: trimming, the LCS table, the walk, context hunks, the printed diff, a reader that applies it, and paths that spoil it |
| `CredentialAuthority`, `OAuthServer`, `OAuthRuns`, `OAuthSafety`, `OAuthScopes`, `OAuthAnswers`, `OAuthReasons` | the credential authority and the OAuth 2.0 authorization server over it, request by request, what holds in every run, when each answer is given, and the request behind every entry of the history |
| `Gates`, `GateTracker`, `GateSafety`, `GateEffects` | first-responder-wins gates as steps of a concurrent protocol, the tracker in place, its runs, and what each step does to every gate and request |
| `CapabilityAdmission` | capability policies and their intersection into one |
| `JsonText`, `JsonResult` | JSON values, their text and a reader; the scanner that puts each array item on its line |
| `Excerpt` | the bounded UTF-16 window behind a list excerpt |
| `Sessions`, `DepsAudit` | walks over parent tables and advisory graphs that may hold cycles; session identifiers |
| `EventQueue`, `EventContent`, `EventArrivals`, `Overview` | the serial queue of a session's events with the read offsets of its streams, what the chunks show and what arrives; the coalesced overview refresh |
| `EditCensus` | the digest's ledger of edits, refusals and revisits |
| `Translator`, `TranslatorPlans`, `TranslatorLoops`, `TranslatorStreams`, `TranslatorShapes`, `Paging`, `Replay`, `ReplayLive`, `ReplayStreams` | the stateful translator of log rows, its independence of other loops and of arrival order, paged history, replays after live traffic, and what a page last shows of each call |
| `Optional`, `Sequences`, `Utf16` | values that may be missing, lists without repeats, characters as UTF-16 units |

What the sources update in place is a class or a loop here, proved against a specification on values: the method's
contract ties the new state to the step function, and the lemmas are about runs of steps. The requests, responses,
timers and awaits of the originals are explicit steps, so a theorem about every run covers every interleaving.

## Where code and documentation differ, and where a promise fails

- A spent authorization code. plurnk-auth's own written description of refresh rotation promises that presenting one
  revokes its family. The code only refuses it (plurnk-auth/src/OAuthServer.ts:458-462). The model follows
  the code: `OAuthSafety.SpentCodeChangesNothing`, a run in `OAuthSafety.SpentCodeCanStayLive`, and the
  exact condition under which presenting a code revokes anything in `OAuthSafety.CodeRevokesExactly`.
- A diff without context. With `contextLines` 0 a hunk that lacks one side is announced at line 0, so it can be applied
  only where that side is still empty: `UnifiedDiff.NoContextMisplaces`; `UnifiedDiff.PrintedMeaning` says exactly
  when it can.
- Gates. A rejection or settlement handled late acts by peer and by key and can drop a newer request or a newer gate:
  `GateSafety.RequestCanBeLost` and `GateSafety.GateCanBeLost`. `GateSafety.TrackedExactly` and
  `GateSafety.ReachableExactly` say for every step when it happens, and `GateSafety.OrderlyRunsLoseNothing` that it
  happens in no orderly run.
- A concluded call. A row that names a concluded call as its invocation while streaming itself shows the call in
  progress again: `TranslatorStreams.DischargeCanReopen`, exactly then by `TranslatorStreams.ReopenedExactly`.
- A conclusion's id. The id of a `stream/concluded` belongs to a stored entry, a row's id to the log, and they are
  counted apart (plurnk-acp/src/Module.test.ts:2189), yet a call is looked up by id before its stream's address
  (plurnk-acp/src/SessionTranslator.ts:719-721) and the status is kept under that id (:700). When the id happens to be
  another call's, the call that ended stays in progress or one that runs is shown done: `TranslatorStreams.ConclusionCanMiss`,
  `TranslatorStreams.ConclusionCanStray`. `TranslatorStreams.ConclusionReachesExactly` and
  `TranslatorStreams.ForeignConclusionExactly` say exactly when.
- A replay after live traffic. A session's own translator is published before its history is replayed through it
  (plurnk-acp/src/sessions.ts:955, plurnk-acp/src/agent.ts:434), so rows translated in between change what the replay
  shows: `ReplayLive.ThoughtIsLost`, and `ReplayLive.PlanIsKept` for a plan already begun. `ReplayLive.LiveReplayExactly`
  says for every loop and any traffic exactly when, and `ReplayLive.PlansMeetWithoutKills` what its condition on the
  plan comes to in a loop without kills.
- A replayed conclusion. A replay reports the end of a stream with the status of its row
  (plurnk-acp/src/replay.ts:78-90), whatever its stream's failure was: `TranslatorStreams.FailureCanBeOverwritten`.
  `TranslatorStreams.ShownExactly` says for every run what each call is last shown with.
- A streamed channel. A read that starts after the channel has grown past the length it was started for returns
  characters the next read returns again: `EventContent.ChunksCanRepeat`, exactly then by `EventContent.ShownOnceExactly`.
- A path with a newline prints a diff whose text cannot be read back, whatever else the path holds: `DiffPath.TextMeaning`;
  with context exactly then by `DiffPath.TextYieldsExactly`.
- The revisit count equals its definition over sets with rows in turn order, which is how they are read
  (plurnk-core/src/evidence/digest.sql:153), by `EditCensus.RevisitsCountPairs`; out of that order it can fail to:
  `EditCensus.OrderMatters`.

## Model

| member | source | states |
|---|---|---|
| `TextLines.JoinOfSplit` | plurnk-acp/src/diff.ts:11-16 | Joining the pieces between the newlines of a text gives the text back. |
| `TextLines.SplitOfJoin` | plurnk-acp/src/diff.ts:149 | Splitting joined lines gives the lines back, for any non-empty list of lines without newlines. |
| `TextLines.SplitLinesKeepsText` | plurnk-acp/src/diff.ts:11-16 | The line list forgets one final newline and nothing else of the text. |
| `TextLines.SplitLinesExactly` | plurnk-acp/src/diff.ts:11-16 | An empty text has no lines, and a newline at the end begins no further one. |
| `Lcs.LengthBounds` | plurnk-acp/src/diff.ts:25-38 | No common subsequence of two files is longer than the recursive length. |
| `Lcs.LengthSteps` | plurnk-acp/src/diff.ts:33-36 | Dropping the first line of either file lowers that length by at most one. |
| `Lcs.LengthFits` | plurnk-acp/src/diff.ts:27 | The length is at most the shorter file, so a table cell never exceeds the number of lines. |
| `Lcs.TrimBoth` | plurnk-acp/src/diff.ts:68-78 | A common subsequence of two files with equal beginnings and ends is no longer than those plus the best of the middles: trimming loses nothing. |
| `EditScript.FillTable` | plurnk-acp/src/diff.ts:26-38 | The backward table holds, in every cell, the exact length for that pair of suffixes. |
| `EditScript.ComputeMiddleOps` | plurnk-acp/src/diff.ts:18-65 | The greedy walk turns the old middle into the new one and keeps as many lines as the table promises. |
| `EditScript.Trim` | plurnk-acp/src/diff.ts:68-78 | The trimmed bounds leave equal beginnings and equal ends, and could go no further. |
| `EditScript.ComputeEditOps` | plurnk-acp/src/diff.ts:67-89 | The script turns the old lines into the new ones, keeps as many lines as any common subsequence has, and puts the deletions of a change before its additions. |
| `EditScript.KeptIsCommon` | plurnk-acp/src/diff.ts:67-89 | What any script keeps is a common subsequence of the two files. |
| `EditScript.OptimalIsShortest` | plurnk-acp/src/diff.ts:67-89 | No script between the same files makes fewer changes than an optimal one. |
| `UnifiedDiff.Annotate` | plurnk-acp/src/diff.ts:101-113 | Each op carries the old and new line numbers at which it stands. |
| `UnifiedDiff.StripsSlashes` | plurnk-acp/src/diff.ts:130 | The file lines name the given path without all the slashes it begins with, and without anything else. |
| `UnifiedDiff.GroupChanges` | plurnk-acp/src/diff.ts:115-128 | The ranges cover exactly the ops within the context of a change, in order, with at least one kept line between them. |
| `UnifiedDiff.CountHunk` | plurnk-acp/src/diff.ts:137-142 | The header of a range counts the old and new lines of its body and starts at them, or at 0 when it has none of a side. |
| `UnifiedDiff.PrintHunk` | plurnk-acp/src/diff.ts:137-146 | A range prints as its header followed by its marked lines. |
| `UnifiedDiff.BuildUnifiedDiff` | plurnk-acp/src/diff.ts:91-150 | The whole diff: for every context of at least one line, applying the printed lines to the old lines yields the new ones; the text is those lines joined, reads back as them when the path holds no newline, and prints an optimal script grouped with that context. |
| `UnifiedDiff.PrintedMeaning` | plurnk-acp/src/diff.ts:91-150 | For every context and path, the printed lines mean the new file exactly when all their hunks are well placed, and cannot be applied otherwise. |
| `DiffPath.TextMeaning` | plurnk-acp/src/diff.ts:91-150 | What the printed text means, for every context and path: the new file exactly when the path holds no newline and all hunks are well placed; otherwise it cannot be read and applied. |
| `DiffPath.TextYieldsExactly` | plurnk-acp/src/diff.ts:95-150 | With context the text yields the new file exactly when the path holds no newline. |
| `DiffPath.PathUnreadable` | plurnk-acp/src/diff.ts:134-135 | The two file lines of a path with a newline spoil the text, whatever the rest of the path looks like, header and diff lines included. |
| `UnifiedDiff.ReadHunks` | plurnk-acp/src/diff.ts:136-147 | Parsing the printed hunks gives back the hunks: ranges, counts and bodies. |
| `UnifiedDiff.ApplyPrinted` | plurnk-acp/src/diff.ts:136-147 | Applying the hunks of separated ranges yields the new lines exactly when each is placed where its header says, and is refused otherwise. |
| `UnifiedDiff.ContextPlaces` | plurnk-acp/src/diff.ts:95-128 | With at least one line of context every hunk is well placed. |
| `UnifiedDiff.PatchOfDiff` | plurnk-acp/src/diff.ts:91-150 | For every context, the printed lines mean the new file exactly when all hunks are well placed, and are refused otherwise. |
| `UnifiedDiff.NoContextMisplaces` | plurnk-acp/src/diff.ts:140 | Without context a line inserted mid-file is announced at line 0: a concrete optimal script whose diff cannot be applied. |
| `CredentialAuthority.RevocationIsExact` | plurnk-core/src/server/Credentials.ts:113-118 | Revoking a family removes all of it and nothing else; a second revocation changes nothing. |
| `CredentialAuthority.SweepIsUnseen` | plurnk-core/src/server/Credentials.ts:201-207 | A sweep leaves exactly what is in time and the standings something live holds, and no verification or consumption then or later answers differently for it. |
| `CredentialAuthority.LookupForgets` | plurnk-core/src/server/Credentials.ts:89-97 | A token in time is verified without a trace, any other is live no more, and nothing else is touched. |
| `CredentialAuthority.StandingBegins` | plurnk-core/src/server/Credentials.ts:76-87 | A family's creation time is that of the issue which found nothing of it live. |
| `CredentialAuthority.SecondConsumptionRevokes` | plurnk-core/src/server/Credentials.ts:99-111 | A refresh token is exchanged once; a second presentation ends its family exactly when the token would still be valid. |
| `CredentialAuthority.StandingsKept` | plurnk-core/src/server/Credentials.ts:201-207 | Every operation keeps a creation time for each family that holds a live credential. |
| `CredentialAuthority.Credentials.SweepExpired` | plurnk-core/src/server/Credentials.ts:201-207 | In place: exactly what is out of time, and standings nothing holds, are forgotten. |
| `CredentialAuthority.Credentials.IssueCredential` | plurnk-core/src/server/Credentials.ts:76-87 | In place: a lifetime that is not positive or an empty name is a TypeError that changes nothing; otherwise, after a sweep, the new token is live with its claims and everything else as before. |
| `CredentialAuthority.Credentials.Verify` | plurnk-core/src/server/Credentials.ts:89-97 | In place: answers the claims of a live token in time and forgets one out of time. |
| `CredentialAuthority.Credentials.Consume` | plurnk-core/src/server/Credentials.ts:99-111 | In place: retires a live refresh token, or revokes the family of a retired one still in time. |
| `CredentialAuthority.Credentials.Revoke` | plurnk-core/src/server/Credentials.ts:113-117 | In place: drops the live, retired and standing entries of the family. |
| `Sequences.Distinct` | plurnk-auth/src/OAuthServer.ts:401 | A list without its repetitions: the same members, each once. |
| `OAuthServer.GrantedScopes` | plurnk-auth/src/OAuthServer.ts:399-404 | Granted scopes lie within the allowed ones; nothing is granted exactly when a requested scope lies outside them. |
| `OAuthServer.AuthorizationServer.OnRevoked` | plurnk-auth/src/OAuthServer.ts:151-153 | In place: exactly the pending codes of the revoked family go. |
| `OAuthServer.AuthorizationServer.RevokeAndTell` | plurnk-core/src/server/Credentials.ts:113-118 | In place: revocation reaches the server's listener before anything else happens. |
| `OAuthServer.AuthorizationServer.SweepCodes` | plurnk-auth/src/OAuthServer.ts:406-409 | In place: exactly the codes out of time go. |
| `OAuthServer.AuthorizationServer.HandleAuthorize` | plurnk-auth/src/OAuthServer.ts:311-397 | In place: an authorization request takes the same branch, issues the same code and session and answers the same as its specification. |
| `OAuthServer.AuthorizationServer.HandleCode` | plurnk-auth/src/OAuthServer.ts:457-473 | In place: redeeming a code, with the code spent before any check and another client's code ending its family. |
| `OAuthServer.AuthorizationServer.HandleRefresh` | plurnk-auth/src/OAuthServer.ts:474-492 | In place: redeeming a refresh token, with the scope checked before the token is consumed. |
| `OAuthServer.AuthorizationServer.HandleToken` | plurnk-auth/src/OAuthServer.ts:452-518 | In place: a token request as its specification, the resource checked only after the grant was consumed. |
| `OAuthServer.AuthorizationServer.HandleRevoke` | plurnk-auth/src/OAuthServer.ts:522-532 | In place: revokes the family of the client's own live token and of no other. |
| `OAuthServer.AuthorizationServer.HandleEndSession` | plurnk-auth/src/OAuthServer.ts:239-243 | In place: ends the family of the presented session. |
| `OAuthServer.AuthorizationServer.HandleRegister` | plurnk-auth/src/OAuthServer.ts:536-571 | In place: the metadata checks in order, then a public client with allowed scopes, up to the limit. |
| `OAuthAnswers.AuthenticatesExactly` | plurnk-auth/src/OAuthServer.ts:420-450 | A request authenticates as a client exactly when it names that client of the tables and sends its secret, or none for a public one. |
| `OAuthAnswers.NobodyIsRefused` | plurnk-auth/src/OAuthServer.ts:420-456 | A token request that proves to be nobody's is refused before anything else and changes nothing. |
| `OAuthAnswers.CodeSentExactly` | plurnk-auth/src/OAuthServer.ts:311-397 | A code is sent exactly when the client is known, the request is in order, and it either carries no live session and posts the configured, non-empty password, or carries one and is a module's or posts the consent "allow". |
| `OAuthAnswers.CodeSentLeaves` | plurnk-auth/src/OAuthServer.ts:346-396 | The code sent is pending for the client with the redirect, challenge and scopes asked for, in the sign-in's family for a module; a sign-in leaves the operator's session live; without a code nothing becomes pending or live. |
| `OAuthAnswers.OtherAnswers` | plurnk-auth/src/OAuthServer.ts:373-394 | Without a code an orderly request gets 503 exactly without a configured password, 401 exactly on a wrong one, access_denied exactly on a posted refusal, and the page otherwise. |
| `OAuthAnswers.DisorderRefused` | plurnk-auth/src/OAuthServer.ts:311-345 | A request not in order, or of no known client, changes nothing and is refused with something that is wrong with it. |
| `OAuthAnswers.TokensSentExactly` | plurnk-auth/src/OAuthServer.ts:452-518 | Tokens are sent exactly when the request proves to be a client's, presents what entitles that client to them (a code with its verifier and redirect, its own refresh token with scopes enough, or itself if declared), and names a known resource. |
| `OAuthAnswers.CodeRedeemedExactly` | plurnk-auth/src/OAuthServer.ts:457-473 | A code yields tokens exactly when it is pending, in time, the client's, and the request shows the verifier of its challenge and its redirect; its presentation spends it whatever comes of it. |
| `OAuthAnswers.RegisteredExactly` | plurnk-auth/src/OAuthServer.ts:536-571 | A client is registered exactly on metadata that asks for nothing the server lacks, up to the limit: public, with the scopes asked for, and without touching any other. |
| `OAuthAnswers.RevocationAnswers` | plurnk-auth/src/OAuthServer.ts:522-532 | A revocation is answered alike whatever the token, but only to a client that proves itself and names one. |
| `OAuthRuns.RevokeKeeps` | plurnk-auth/src/OAuthServer.ts:151-153 | Revocation keeps the invariant: no pending code and no credential of a revoked family remains. |
| `OAuthRuns.AuthorizeKeeps` | plurnk-auth/src/OAuthServer.ts:311-397 | Every authorization request keeps the invariant of the tables and the history. |
| `OAuthRuns.ExchangeKeeps` | plurnk-auth/src/OAuthServer.ts:452-518 | Every token request keeps it: nothing is issued without a live family and a reason that allows it. |
| `OAuthRuns.LookupKeeps` | plurnk-auth/src/OAuthServer.ts:224-229 | Looking up a token keeps it. |
| `OAuthRuns.ConsumeKeeps` | plurnk-core/src/server/Credentials.ts:99-111 | Consuming a refresh token keeps it. |
| `OAuthSafety.StepKeeps` | plurnk-auth/src/OAuthServer.ts:209-219 | Each request, whichever it is, keeps the invariant. |
| `OAuthSafety.ReachedIsSound` | plurnk-auth/src/OAuthServer.ts:209-219 | Every state of every run satisfies the invariant. |
| `OAuthSafety.NothingEntersARevokedFamily` | plurnk-auth/src/OAuthServer.ts:349-359 | In every run no credential is issued and no code granted into a family revoked earlier. |
| `OAuthSafety.RevokedFamilyIsEmpty` | plurnk-auth/src/OAuthServer.ts:149-153 | In every run a revoked family holds no live or retired token and no pending code. |
| `OAuthSafety.OneResponseEach` | plurnk-auth/src/OAuthServer.ts:457-492 | A code, and a refresh token, yields at most one access and one refresh token. |
| `OAuthSafety.OneLiveRefreshToken` | plurnk-auth/src/OAuthServer.ts:474-492 | At any time at most one live refresh token descends from a code, and none while the code is pending. |
| `OAuthSafety.ChainStaysInGrant` | plurnk-auth/src/OAuthServer.ts:484-492 | Along a refresh chain client, subject and family stay those of the code and the scopes only shrink, within those the client had when the code was granted. |
| `OAuthScopes.ReachedIsKnown` | plurnk-auth/src/OAuthServer.ts:248-255 | In every run the scopes each grant was made from are those its client is registered with now. |
| `OAuthScopes.EveryTokenWithinRegistration` | plurnk-auth/src/OAuthServer.ts:399-404 | In every run each access and refresh token ever issued belongs to a client of the client tables, with scopes within its registered ones. |
| `OAuthReasons.StepGives` | plurnk-auth/src/OAuthServer.ts:311-518 | Nothing enters the history that the request does not ask for and entitle to, with exactly its client, subject, scopes, family and lifetime. |
| `OAuthReasons.RevokedExactly` | plurnk-auth/src/OAuthServer.ts:457-532 | A family is revoked exactly by a revocation from outside, its client's own revocation, its session's sign-out, another client's code or refresh token, or a refresh token exchanged before. |
| `OAuthReasons.EveryEntryHasItsRequest` | plurnk-auth/src/OAuthServer.ts:209-219 | In every run each grant, issue and revocation has such an event of that run behind it. |
| `OAuthReasons.SignInsKnewThePassword` | plurnk-auth/src/OAuthServer.ts:391-396 | In every run a session was established only by a posted request with the operator's configured password. |
| `OAuthReasons.GrantsWereAllowed` | plurnk-auth/src/OAuthServer.ts:346-397 | In every run a code was granted only in a session such a sign-in established, and to a request that posted consent, was a module's, or signed in itself. |
| `OAuthReasons.CodesWereRedeemed` | plurnk-auth/src/OAuthServer.ts:457-473 | In every run a token descends from a code only by a request, in time, that proved to be the code's client and showed the verifier of its challenge and its redirect. |
| `OAuthReasons.LiveUntilEnded` | plurnk-auth/src/OAuthServer.ts:209-219 | No request takes a live credential away before its time, unless it ends its family or exchanges it. |
| `OAuthReasons.PendingUntilPresented` | plurnk-auth/src/OAuthServer.ts:406-409 | No request takes a pending code away before its time, unless it ends its family or presents it. |
| `OAuthReasons.ExpiredIsForgotten` | plurnk-auth/src/OAuthServer.ts:224-243 | A token looked up after its time, by whichever request, is live no more. |
| `OAuthSafety.RetiredPresentation` | plurnk-auth/src/OAuthServer.ts:477-483 | Presenting a retired token ends its family exactly when the token would still be valid, and changes nothing afterwards. |
| `OAuthSafety.ReuseEndsFamily` | plurnk-auth/src/OAuthServer.ts:477-483 | A refresh token exchanged anywhere earlier in the run leaves nothing live in its family when presented again in time. |
| `OAuthSafety.SpentCodeChangesNothing` | plurnk-auth/src/OAuthServer.ts:458-462 | Presenting a spent code is refused and changes nothing, unlike what the package's written description of refresh rotation promises. |
| `OAuthSafety.SpentCodeKeepsTokens` | plurnk-auth/src/OAuthServer.ts:457-473 | Presented again after it yielded tokens, a code is refused and the access token it yielded stays live. |
| `OAuthSafety.SpentCodeCanStayLive` | plurnk-auth/src/OAuthServer.ts:458-462 | A run from the initial state reaches a redeemed code whose second presentation leaves what it yielded live. |
| `OAuthSafety.CodeRevokesExactly` | plurnk-auth/src/OAuthServer.ts:458-467 | Presenting a code revokes a family exactly when the code is pending, in time and another client's. |
| `OAuthSafety.RefusedScopeOrResource` | plurnk-auth/src/OAuthServer.ts:488-506 | A refused scope leaves the refresh token as it was, a refused resource has already spent it, and nothing else refuses it. |
| `OAuthSafety.RefusedResourceThenReuse` | plurnk-auth/src/OAuthServer.ts:491-506 | After a refused resource the token's next presentation in time ends its family. |
| `OAuthSafety.TokensGoToTheirClient` | plurnk-auth/src/OAuthServer.ts:507-513 | An access token is sent only to the client that authenticated, live, in its name and with the announced scopes. |
| `OAuthSafety.RefreshTokenGoesAlong` | plurnk-auth/src/OAuthServer.ts:514-516 | A refresh token sent along has the same client and family; public and module clients always get one. |
| `OAuthSafety.ModuleCodeFallsWithSession` | plurnk-auth/src/OAuthServer.ts:346-372 | A module client's code joins the family of the browser's sign-in, and ending the sign-in leaves nothing of that family. |
| `Gates.StepKeeps` | plurnk-acp/src/gates.ts:356-638 | Every step keeps: one resolution in flight per settling gate, active gates unsettled under their own key, settled gates without controllers, and no going back. |
| `GateSafety.RunKeeps` | plurnk-acp/src/gates.ts:356-638 | Every interleaving of steps keeps them. |
| `GateSafety.Arbitration` | plurnk-acp/src/gates.ts:549-638 | In every run nothing begins or resolves at a gate after the core resolved it, and at most one resolution per gate is in flight. |
| `GateSafety.BeginsOnlyFree` | plurnk-acp/src/gates.ts:470-476 | A resolution begins only by a response whose request was not aborted, at an unsettled gate with none in flight. |
| `GateSafety.OpenReturnsTheActiveGate` | plurnk-acp/src/gates.ts:366-383 | Opening a key that has an active gate returns that gate and changes nothing. |
| `GateSafety.TrackedExactly` | plurnk-acp/src/gates.ts:494-496 | A step keeps every open request known to its gate exactly when no handler acting by peer drops a newer request of that peer. |
| `GateSafety.ReachableExactly` | plurnk-acp/src/gates.ts:628-630 | A step keeps every unsettled gate reachable by its key exactly when no late settlement removes a newer gate of the key. |
| `GateSafety.OrderlyRunsLoseNothing` | plurnk-acp/src/gates.ts:356-638 | Neither happens in a run that asks a peer anew only after its earlier request was handled and opens a key again only when no older gate of it is settling; dispatches that ask nobody are free. |
| `GateSafety.SettledGatesLeaveNothingOpen` | plurnk-acp/src/gates.ts:628-637 | In such a run a settled gate leaves no request un-aborted and every unsettled gate is found by its key. |
| `GateSafety.RequestCanBeLost` | plurnk-acp/src/gates.ts:494-496 | Some run ends with an open request at a settled gate that was never aborted: a late rejection forgot it. |
| `GateSafety.GateCanBeLost` | plurnk-acp/src/gates.ts:628-630 | Some run ends with an unsettled gate that no key leads to: a late success removed it. |
| `GateEffects.CancellationExactly` | plurnk-acp/src/gates.ts:386-438 | A cancellation settles exactly the current gates it is for (a proposal no longer proposed, a session's, or all), frees their keys, and aborts and forgets every request they hold; every other gate, key and request is as it was. |
| `GateEffects.RemovalExactly` | plurnk-acp/src/gates.ts:409-429 | Removing a peer aborts and forgets exactly its requests at the current gates concerned. |
| `GateEffects.OpenExactly` | plurnk-acp/src/gates.ts:359-384 | Opening a key without a gate makes an unsettled current one that holds nothing; a key with one keeps it. |
| `GateEffects.DispatchExactly` | plurnk-acp/src/gates.ts:440-469 | A peer is asked exactly when it is connected and the gate is unsettled and holds no request of it. |
| `GateEffects.ResponseExactly` | plurnk-acp/src/gates.ts:470-476 | A response begins a resolution exactly when it is valid, its request was not aborted, and the gate is unsettled with none in flight. |
| `GateEffects.RejectionExactly` | plurnk-acp/src/gates.ts:494-496 | A rejection forgets what the gate holds of the peer and changes nothing else. |
| `GateEffects.SettlementExactly` | plurnk-acp/src/gates.ts:579-637 | A landed resolution forgets the winner's request; exactly when the core resolved the gate, or it was settled elsewhere, the gate is settled, its key freed and every other request it held aborted. |
| `GateEffects.NothingBeginsAfterCancellation` | plurnk-acp/src/gates.ts:398-407 | In every run nothing begins at a gate after it was cancelled, and the requests it held stay aborted. |
| `GateTracker.Tracker.OpenOrGet` | plurnk-acp/src/gates.ts:359-384 | In place: the step of opening a gate. |
| `GateTracker.Tracker.DispatchToPeer` | plurnk-acp/src/gates.ts:440-469 | In place: the step of asking a peer; nothing for a settled gate, a disconnected peer or one already asked. |
| `GateTracker.Tracker.OnResponse` | plurnk-acp/src/gates.ts:470-476 | In place: the step of a response; the first valid one begins the resolution. |
| `GateTracker.Tracker.OnRejection` | plurnk-acp/src/gates.ts:494-496 | In place: the step of a rejected request. |
| `GateTracker.Tracker.OnCoreSuccess` | plurnk-acp/src/gates.ts:628-637 | In place: the step after the core resolved; the other peers' requests are aborted. |
| `GateTracker.Tracker.OnCoreFailure` | plurnk-acp/src/gates.ts:579-626 | In place: the step after the core failed, with and without the gate being settled elsewhere. |
| `GateTracker.Tracker.CancelProposalIfSettled` | plurnk-acp/src/gates.ts:386-396 | In place: the step of a proposal that is no longer proposed. |
| `GateTracker.Tracker.CancelSessionGates` | plurnk-acp/src/gates.ts:398-407 | In place: the step that cancels a session's gates. |
| `GateTracker.Tracker.ClearAll` | plurnk-acp/src/gates.ts:431-438 | In place: the step that cancels every active gate. |
| `GateTracker.Tracker.RemovePeerEverywhere` | plurnk-acp/src/gates.ts:409-417 | In place: the step that drops a peer from every active gate. |
| `GateTracker.Tracker.RemovePeerFromSessions` | plurnk-acp/src/gates.ts:419-429 | In place: the step that drops a peer from the gates of some sessions. |
| `CapabilityAdmission.MergeIsConjunction` | plurnk-contracts/src/CapabilityAdmission.ts:66-78 | A merged selector matches exactly what both parts match, and incompatible parts match nothing together. |
| `CapabilityAdmission.MatchesExactly` | plurnk-contracts/src/CapabilityAdmission.ts:11-20 | A selector matches exactly what agrees with every field it gives and has every trait it names. |
| `CapabilityAdmission.ListsDecide` | plurnk-contracts/src/CapabilityAdmission.ts:22-40 | No lists allow everything; one more denial refuses exactly what it matches, one more admission admits what it matches unless denied, one more preapproval preapproves what it matches of what is allowed. |
| `CapabilityAdmission.SortedIsUnique` | plurnk-contracts/src/CapabilityAdmission.ts:75 | A sorted list of traits is determined by its traits. |
| `CapabilityAdmission.RankIsUnitOrder` | plurnk-contracts/src/CapabilityAdmission.ts:75 | Traits are sorted by the UTF-16 units of their characters. |
| `CapabilityAdmission.SameKey` | plurnk-contracts/src/CapabilityAdmission.ts:83-90 | Two selectors are written the same exactly when they differ in the order of their traits at most. |
| `CapabilityAdmission.SameKeySameMeaning` | plurnk-contracts/src/CapabilityAdmission.ts:80-94 | Selectors written the same match the same descriptors. |
| `CapabilityAdmission.Unique` | plurnk-contracts/src/CapabilityAdmission.ts:80-94 | Removing duplicates and sorting by any collation keeps one selector of each key and changes nothing that is matched. |
| `CapabilityAdmission.ProductIsConjunction` | plurnk-contracts/src/CapabilityAdmission.ts:53-56 | The compatible product of two lists matches exactly what both lists match. |
| `CapabilityAdmission.Intersect` | plurnk-contracts/src/CapabilityAdmission.ts:45-64 | One policy for a list: for every descriptor it allows what all allow and preapproves what the list preapproves. |
| `CapabilityAdmission.MergeIsWellFormed` | plurnk-contracts/src/CapabilityAdmission.ts:66-78 | Merging selectors of the shape the schema asks for gives one of that shape. |
| `JsonText.ParseOfStringify` | plurnk-contracts/src/JsonResult.ts:7 | The compact text of a value parses back to the value. |
| `JsonText.ParseOfSpaced` | plurnk-contracts/src/JsonResult.ts:28 | Whitespace after the commas of the outermost array changes nothing of what the text says. |
| `JsonResult.ValueScans` | plurnk-contracts/src/JsonResult.ts:17-29 | Over any nested value inside an array, brackets, commas, quotes and backslashes in strings included, the scanner copies the text and returns to where it was. |
| `JsonResult.ItemsScan` | plurnk-contracts/src/JsonResult.ts:25-28 | Commas gain a newline exactly between the items of the outermost array. |
| `JsonResult.ShortcutExact` | plurnk-contracts/src/JsonResult.ts:11 | The shortcut is taken exactly by values that are no array and by the empty array. |
| `JsonResult.RenderJsonResult` | plurnk-contracts/src/JsonResult.ts:6-31 | The loop renders "[", the items' compact texts joined by a comma and a newline, and "]"; other values unchanged; nothing serialized is a TypeError. |
| `JsonResult.LayoutKeepsValue` | plurnk-contracts/src/JsonResult.ts:3-5 | The rendered text parses to the value that was given. |
| `JsonResult.OneLinePerItem` | plurnk-contracts/src/JsonResult.ts:3-5 | The rendered text of a non-empty array has one physical line for each item and no other. |
| `Excerpt.WindowSuffices` | plurnk-contracts/src/Excerpt.ts:11-12 | A window of at least twice as many units as characters asked for holds those characters whole. |
| `Excerpt.SurrogatesExactly` | plurnk-contracts/src/Excerpt.ts:12 | The units that may begin and end a pair are exactly those of the characters beyond 16 bits. |
| `Excerpt.CharactersOfText` | plurnk-contracts/src/Excerpt.ts:12 | The characters an encoded text is split into are the encodings of its characters. |
| `Excerpt.ExcerptOf` | plurnk-contracts/src/Excerpt.ts:6-14 | The bounded window gives the unbounded definition, and `continued` holds exactly when a non-blank follows. |
| `Excerpt.ExcerptIsAPiece` | plurnk-contracts/src/Excerpt.ts:7-12 | An excerpt starts at the first non-blank, stays on that line and ends without a blank. |
| `Excerpt.PairsStayWhole` | plurnk-contracts/src/Excerpt.ts:11-12 | Neither end of the excerpt splits a surrogate pair that is whole in the text. |
| `Excerpt.ExcerptIsShort` | plurnk-contracts/src/Excerpt.ts:12 | It holds at most the characters asked for. |
| `Excerpt.EmptyExcerpt` | plurnk-contracts/src/Excerpt.ts:7-12 | It is empty exactly when the text is blank or no character was asked for. |
| `Excerpt.NotContinuedExactly` | plurnk-contracts/src/Excerpt.ts:13 | Nothing but blanks follows exactly when the text is the excerpt with blanks around it. |
| `Sessions.ParentTable` | plurnk-acp/src/sessions.ts:146-149 | The map built row by row gives every id the parent of its last row. |
| `Sessions.ParentIsLast` | plurnk-acp/src/sessions.ts:146-149 | The parent of a session is the one its last row gives. |
| `Sessions.NoRowNoParent` | plurnk-acp/src/sessions.ts:146-155 | A session without a row has none. |
| `Sessions.CycleCloses` | plurnk-acp/src/sessions.ts:150-156 | Once a walk meets a session it has seen, it meets no new one ever after. |
| `Sessions.WalkSawAll` | plurnk-acp/src/sessions.ts:150-156 | A walk that stops has seen every session above its start. |
| `Sessions.IsDescendantSession` | plurnk-acp/src/sessions.ts:140-158 | On any table, cyclic or dangling: true exactly when a different ancestor is reached by one or more parent steps. |
| `Sessions.BoundTable` | plurnk-acp/src/sessions.ts:186-193 | One pass finds the target's own binding, or else the first binding of each session of the workspace. |
| `Sessions.SelectBoundSessionForTarget` | plurnk-acp/src/sessions.ts:180-208 | The direct binding, or else that of the nearest bound ancestor; nothing exactly when there is none. |
| `Sessions.ParseIsInverse` | plurnk-acp/src/sessions.ts:127-138 | Parsing accepts exactly the texts that formatting writes for a safe positive workspace id and a non-empty name, and inverts it. |
| `DepsAudit.Walk.constructor` | plurnk-core/scripts/deps-audit.ts:69-70 | A walk starts with nothing seen and no root. |
| `DepsAudit.Walk.Visit` | plurnk-core/scripts/deps-audit.ts:71-76 | Adds only packages reachable from the one visited and leaves no edge open from what it added. |
| `DepsAudit.RootsFor` | plurnk-core/scripts/deps-audit.ts:68-79 | On any graph: exactly the direct dependencies reachable over effects edges, each once. |
| `DepsAudit.EffectsExactly` | plurnk-core/scripts/deps-audit.ts:75 | An edge is there exactly when the package has an advisory that affects the other. |
| `DepsAudit.ClosedHolds` | plurnk-core/scripts/deps-audit.ts:71-77 | A set no edge leaves holds everything reachable from its members. |
| `DepsAudit.OwnRoot` | plurnk-core/scripts/deps-audit.ts:75 | A package without an advisory of its own reaches itself alone. |
| `EditCensus.Ordinals` | plurnk-digest/src/DigestLedgers.ts:97-109 | Model turns are numbered by how many their session has had up to them, or a turn without a loop in scope is found. |
| `EditCensus.OrdinalDistance` | plurnk-digest/src/DigestLedgers.ts:98-109 | The difference of two ordinals is the number of the session's model turns after the one up to the other. |
| `EditCensus.SessionCensus` | plurnk-digest/src/DigestLedgers.ts:112-130 | The loop counts edits, forms, refusals and revisits of a session, or finds an edit on a turn no model produced. |
| `EditCensus.RevisitsCountPairs` | plurnk-digest/src/DigestLedgers.ts:123-127 | With rows in turn order the revisits are as many as the distinct path and turn pairs whose path was also edited one or two model turns earlier. |
| `EditCensus.OrderMatters` | plurnk-digest/src/DigestLedgers.ts:123-127 | Out of turn order the two counts can differ: a concrete pair of rows. |
| `EditCensus.FormsAddUp` | plurnk-digest/src/DigestLedgers.ts:116-119 | The form counts sum to the number of edits. |
| `EditCensus.RefusedExactly` | plurnk-digest/src/DigestLedgers.ts:118 | The refusals counted are the edits with a status of 400 or more. |
| `EditCensus.FormExactly` | plurnk-digest/src/DigestLedgers.ts:73-88 | What each form of authorship means, in terms of the marks of the edit. |
| `EditCensus.CountsStayWithin` | plurnk-digest/src/DigestLedgers.ts:118-125 | Refusals and revisits never exceed the edits. |
| `EditCensus.MarkedExactly` | plurnk-digest/src/DigestLedgers.ts:125 | The marked ids are those of the rows that revisit. |
| `EditCensus.AsManyMarkedAsCounted` | plurnk-digest/src/DigestLedgers.ts:125 | With distinct row ids as many are marked as are counted. |
| `EditCensus.LedgerOf` | plurnk-digest/src/DigestLedgers.ts:109-131 | All sessions: each census and the revisits of them all. |
| `EditCensus.CensusOf` | plurnk-digest/src/DigestLedgers.ts:94-134 | The whole ledger, refused exactly when a model turn's loop is out of scope or an edit sits on a turn no model produced. |
| `Overview.Module.ScheduleOverviewRefresh` | plurnk-acp/src/Module.ts:414-426 | In place: the step of a request. |
| `Overview.Module.BeginFlush` | plurnk-acp/src/Module.ts:423-425 | In place: the step in which a scheduled flush begins. |
| `Overview.Module.PassSettled` | plurnk-acp/src/Module.ts:428-451 | In place: the step in which a pass has settled. |
| `Overview.Module.Continue` | plurnk-acp/src/Module.ts:430-453 | In place: the flush loop from its test to its next await or its end. |
| `Overview.Module.StopRefreshing` | plurnk-acp/src/Module.ts:121-123 | In place: the step of stopping. |
| `Overview.RunKeeps` | plurnk-acp/src/Module.ts:414-454 | At every step a raised flag on a running module has a flush to serve it, at most one flush exists, and a request no pass or stop has followed still has the flag up. |
| `Overview.NoRequestIsLost` | plurnk-acp/src/Module.ts:414-454 | In every run at rest, each request made while someone listened is followed by a pass or a stop. |
| `Overview.ComesToRest` | plurnk-acp/src/Module.ts:428-454 | Left alone, every run comes to rest within two steps. |
| `Overview.StayingSubscriberIsServed` | plurnk-acp/src/Module.ts:430-449 | A subscriber that stays is served by a pass that starts after the request, whatever happens in between, unless the module is stopped. |
| `Overview.RequestsCoalesce` | plurnk-acp/src/Module.ts:420-422 | Any number of requests during a pass are answered by one more pass. |
| `Overview.RequestCounts` | plurnk-acp/src/Module.ts:414-426 | A request counts exactly while the module runs and somebody listens, and there is one flush for it. |
| `Overview.PassBegins` | plurnk-acp/src/Module.ts:430-453 | A pass begins exactly when a flush goes on with the flag up and the module running, over the subscribers of that moment; otherwise the flush is over. |
| `Overview.StopIsFinal` | plurnk-acp/src/Module.ts:415-430 | After a stop no request is taken and no pass begins. |
| `Overview.LeaverIsNotServed` | plurnk-acp/src/Module.ts:432-434 | A peer that left is in no pass begun afterwards, until it subscribes again. |
| `Overview.SubscribersAre` | plurnk-acp/src/Module.ts:432-434 | The peers a pass is for are those that subscribed and have not left since. |
| `EventQueue.Dispatcher.EnqueueOrRun` | plurnk-acp/src/events.ts:54-90 | In place: a handler runs at once when nothing of its session is pending, and behind the others otherwise. |
| `EventQueue.Dispatcher.OnStreamEvent` | plurnk-acp/src/events.ts:360-382 | In place: a longer announced length starts one read where the one before ended. |
| `EventQueue.Dispatcher.OnStreamConcluded` | plurnk-acp/src/events.ts:385-412 | In place: a conclusion is queued like any handler. |
| `EventQueue.Dispatcher.OnSessionEvent` | plurnk-acp/src/events.ts:204-240 | In place: log rows, packets (422-425), terminations (434-460) and notices (666-668) join the same queue. |
| `EventQueue.Dispatcher.OnSettled` | plurnk-acp/src/events.ts:70-72 | In place: the running handler resolves or rejects, a read with what it returned. |
| `EventQueue.Dispatcher.OnFinally` | plurnk-acp/src/events.ts:84-88 | In place: a settled handler gives up its place, and the last one takes the queue with it. |
| `EventQueue.Dispatcher.OnTurn` | plurnk-acp/src/events.ts:81-82 | In place: the next handler begins. |
| `EventQueue.StepKeepsSerial` | plurnk-acp/src/events.ts:54-90 | Every step keeps a session's handlers in line: those past ran in turn, of those pending only the first has begun. |
| `EventQueue.OneAtATime` | plurnk-acp/src/events.ts:54-90 | In every run a session's handlers begin in order of arrival, none before the one ahead of it ended. |
| `EventQueue.ConclusionFollowsChunks` | plurnk-acp/src/events.ts:365-412 | In every run a conclusion begins only after every chunk read of its session that arrived before it has ended. |
| `EventQueue.IdleMeansDone` | plurnk-acp/src/events.ts:72-76 | A session with nothing pending has run everything that arrived. |
| `EventQueue.NothingIsStuck` | plurnk-acp/src/events.ts:81-89 | While anything is pending its front has a step, and each step brings the end nearer. |
| `EventQueue.OffsetsIncrease` | plurnk-acp/src/events.ts:361-364 | In every run the reads of a channel start at strictly increasing offsets. |
| `EventQueue.NoGap` | plurnk-acp/src/events.ts:360-372 | Once a length is announced, every position below it lies in some read issued for the channel. |
| `EventArrivals.ArrivedExactly` | plurnk-acp/src/events.ts:204-425 | In every run exactly this has arrived at a session, in order: its conclusions, its other events, and a read for each length longer than all announced before, from there on. |
| `EventArrivals.NothingIsSwallowed` | plurnk-acp/src/events.ts:385-411 | In every run a session's conclusions arrive as they came, with their entries and statuses, and its other events with their kinds: none is lost, made up, changed or overtaken. |
| `EventArrivals.EachHandledOnce` | plurnk-acp/src/events.ts:54-90 | Once nothing of a session is pending, everything brought to it has begun once and ended once. |
| `EventContent.GrowingChannelIsTruthful` | plurnk-acp/src/events.ts:366-375 | A read of a channel that only grows returns, when it succeeds, its piece of the final content, at least as far as was announced to it. |
| `EventContent.AllReturned` | plurnk-acp/src/events.ts:365-380 | In every run whose reads succeed, every read issued for a channel has returned its piece once nothing is pending. |
| `EventContent.EveryCharacterIsShown` | plurnk-acp/src/events.ts:360-380 | In such a run each announced character of a channel is shown by the piece of some read. |
| `EventContent.AnnouncedIsShown` | plurnk-acp/src/events.ts:360-364 | A length once announced is among those shown. |
| `EventContent.ShownOnceExactly` | plurnk-acp/src/events.ts:365-380 | The pieces joined are the announced content exactly when each read found no more than was announced to it. |
| `EventContent.ChunksCanRepeat` | plurnk-acp/src/events.ts:366-375 | A run in which a read that starts late returns more than was announced to it and the next one returns the rest again. |
| `Translator.PlanListsEverything` | plurnk-acp/src/SessionTranslator.ts:570-577 | A plan goes on listing everything its loop ever named, each item once. |
| `Translator.SessionTranslator.OnLogEntry` | plurnk-acp/src/SessionTranslator.ts:123-645 | In place: one row, branch by branch as its specification. |
| `Translator.SessionTranslator.OnCall` | plurnk-acp/src/SessionTranslator.ts:385-556 | In place: a tool call row names its call, and reports the status of an already concluded stream. |
| `Translator.SessionTranslator.OnTodo` | plurnk-acp/src/SessionTranslator.ts:569-594 | In place: a todo row merges its items into the plan of the loop. |
| `Translator.SessionTranslator.OnKill` | plurnk-acp/src/SessionTranslator.ts:595-624 | In place: a kill row removes the plans its coordinate covers. |
| `Translator.SessionTranslator.OnReasoning` | plurnk-acp/src/SessionTranslator.ts:647-651 | In place: streamed reasoning marks its turn. |
| `Translator.SessionTranslator.OnTerminalConcluded` | plurnk-acp/src/SessionTranslator.ts:694-740 | In place: a conclusion is remembered by id and address and reported to the call it names. |
| `TranslatorShapes.RowShowsExactly` | plurnk-acp/src/SessionTranslator.ts:123-645 | Which updates a row shows besides its plan, each exactly when: reasoning, messages, notices, the call it is or completes with its status, and its terminal. |
| `TranslatorShapes.PlanShownExactly` | plurnk-acp/src/SessionTranslator.ts:570-624 | A plan is shown exactly by a completed todo with something listed, and removed exactly by a completed kill that covers one. |
| `TranslatorShapes.ReasoningExactly` | plurnk-acp/src/SessionTranslator.ts:647-651 | Streamed reasoning is shown and remembered exactly when it is the session's and says something. |
| `TranslatorShapes.ConclusionShowsExactly` | plurnk-acp/src/SessionTranslator.ts:694-740 | A conclusion shows how its terminal ended, and that end of the call it names; nothing else. |
| `TranslatorShapes.StatusExactly` | plurnk-acp/src/SessionTranslator.ts:110-121 | What each status of a row means: its state first, then its status, then whether it streams. |
| `TranslatorShapes.CoversExactly` | plurnk-acp/src/SessionTranslator.ts:592-606 | A log coordinate covers exactly the plans of its loop, turn or row. |
| `TranslatorShapes.PlanOfItsLoop` | plurnk-acp/src/SessionTranslator.ts:125-129 | A row of another loop than the last begins a blank plan. |
| `TranslatorShapes.EmptyAddressNamesNothing` | plurnk-acp/src/SessionTranslator.ts:387-403 | An empty stream address names nothing: such calls and conclusions are known by id alone. |
| `TranslatorLoops.DeliversAlike` | plurnk-acp/src/SessionTranslator.ts:123-645 | A row shows the same in two states that agree on its turn and the end of its stream and whose plans it cannot tell apart. |
| `TranslatorLoops.DeliveryPasses` | plurnk-acp/src/SessionTranslator.ts:123-129 | A row leaves nothing behind that another row could meet, but its turn. |
| `TranslatorPlans.MergeFresh` | plurnk-acp/src/SessionTranslator.ts:570-577 | A todo merged into a history shows no trace of that history exactly when it names all of its items. |
| `TranslatorPlans.MeetsShows` | plurnk-acp/src/SessionTranslator.ts:570-624 | A todo or kill that cannot tell a kept plan from one begun blank shows the same to both, and leaves them standing to each other as before. |
| `TranslatorPlans.NotMetShows` | plurnk-acp/src/SessionTranslator.ts:570-624 | Otherwise some update about the row is shown to one and not to the other. |
| `ReplayLive.LoopStandsAlone` | plurnk-acp/src/replay.ts:68-93 | A new translator shows a loop as if it were alone, whichever others it replays. |
| `TranslatorStreams.ShownExactly` | plurnk-acp/src/SessionTranslator.ts:123-740 | In every run, whatever its rows, deliveries and conclusions, each call is last shown with what the history of the events says of it. |
| `TranslatorStreams.ConclusionReachesExactly` | plurnk-acp/src/SessionTranslator.ts:719-721 | A conclusion that names a delivered row's stream updates its call, with the conclusion's end, exactly when it carries the row's id or an id that names no call yet. |
| `TranslatorStreams.ForeignConclusionExactly` | plurnk-acp/src/SessionTranslator.ts:694-721 | A conclusion of another stream is taken for the row's exactly when it carries the row's id, and decides what later deliveries show exactly while no conclusion was kept under the row's address. |
| `TranslatorStreams.SameStatusInAnyOrder` | plurnk-acp/src/SessionTranslator.ts:387-403 | Whatever the order of a row's deliveries, in whatever states, its conclusions of any statuses and ids and other traffic: once some event reports an end of the row's own and nothing else is reported after, the call is last shown with the last such end. |
| `TranslatorStreams.EndExactly` | plurnk-acp/src/SessionTranslator.ts:387-403 | When the row's conclusions agree on a status and foreign ones under its id do not, the call is last shown with it exactly then. |
| `TranslatorStreams.SettlesInAnyOrder` | plurnk-acp/src/SessionTranslator.ts:387-403 | Without other streams' conclusions under the row's id the events come to report its own end exactly when a conclusion of the row precedes a delivery, or follows one with an id that is the row's or no call's. |
| `TranslatorStreams.NeverInProgressAgain` | plurnk-acp/src/SessionTranslator.ts:387-403 | After any conclusion of the row, whatever its id, the call is never reported in progress again, unless another row discharges it. |
| `TranslatorStreams.ReopenedExactly` | plurnk-acp/src/SessionTranslator.ts:265-295 | After the conclusion an event reports the call in progress exactly when it is another row that names the call and is itself still streaming. |
| `TranslatorStreams.DischargeCanReopen` | plurnk-acp/src/SessionTranslator.ts:265-295 | A run whose conclusion reached the call and that ends with it shown in progress. |
| `TranslatorStreams.ConclusionCanMiss` | plurnk-acp/src/SessionTranslator.ts:719-721 | A run in which a conclusion's entry id is also another call's log id: the call that ended stays in progress and the other is shown completed. |
| `TranslatorStreams.ConclusionCanStray` | plurnk-acp/src/SessionTranslator.ts:694-721 | A run in which another stream's conclusion carries the row's log id: the running call is shown failed, and again when delivered anew. |
| `TranslatorStreams.FailureCanBeOverwritten` | plurnk-acp/src/replay.ts:78-90 | A run whose call was shown failed with its stream and is shown completed by the conclusion a replay makes up from the row. |
| `TranslatorStreams.ThoughtOnce` | plurnk-acp/src/SessionTranslator.ts:173-179 | Once a turn's reasoning was shown, no row of the turn shows it again. |
| `Paging.PageBefore` | plurnk-acp/src/replay.ts:47-66 | A page before a cursor, or the newest one: a run of at most `historyLoops` admitted loops ending at the newest of them, the longest that fits the budget or else one loop. |
| `Paging.PageAfter` | plurnk-acp/src/replay.ts:47-66 | The same after a cursor, beginning at the oldest admitted loop. |
| `Paging.PageExact` | plurnk-acp/src/replay.ts:48-49 | A page bound to one loop is that loop or nothing, whatever the limits. |
| `Paging.EndThatFits` | plurnk-acp/src/replay.ts:117-122 | Dropping the oldest leaves the longest end that fits, or one loop. |
| `Paging.StartThatFits` | plurnk-acp/src/replay.ts:109-115 | Dropping the newest leaves the longest beginning that fits, or one loop. |
| `Paging.LinksExactly` | plurnk-acp/src/replay.ts:131-135 | An older link is there exactly when loops come before the page, a newer one exactly when some come after. |
| `Paging.OlderVisitsEveryLoopOnce` | plurnk-acp/src/replay.ts:202-207 | Following the older links from the newest page visits every loop of the first request exactly once, in order, and stops, even while loops are added and sizes change. |
| `Paging.NewerVisitsEveryLoopOnce` | plurnk-acp/src/replay.ts:202-207 | Following the newer links from a loop visits every later loop exactly once, in order, up to the newest found, and stops once there are enough requests. |
| `Replay.ActiveKeeps` | plurnk-acp/src/replay.ts:36-44 | The active rows are the session's own ones in order. |
| `Replay.ActiveCounts` | plurnk-acp/src/replay.ts:36-44 | Sorting loses no row and repeats none. |
| `Replay.PrecedesExactly` | plurnk-acp/src/replay.ts:36-44 | Rows are ordered by loop, turn, sequence and id, and any two rows with different ids are ordered. |
| `Replay.LoopsInOrder` | plurnk-acp/src/replay.ts:45 | The loops of the rows come in increasing order, each once. |
| `Replay.TranslateLoops` | plurnk-acp/src/replay.ts:68-93 | In place: each selected loop's bucket holds what its rows show when the translator, from wherever it stands, takes the selected rows in order. |
| `Replay.FitPage` | plurnk-acp/src/replay.ts:95-124 | The dropping loops leave the fitted page. |
| `Replay.JoinPage` | plurnk-acp/src/replay.ts:126-129 | The buckets are joined in the order of the loops. |
| `Replay.ReplaySessionHistory` | plurnk-acp/src/replay.ts:23-135 | In place, from any state of the translator: the page of the loops, each with its share of the selected rows' updates, and the links of that page. |
| `Replay.ShareOfPage` | plurnk-acp/src/replay.ts:126-129 | A loop's updates are one piece of the page. |
| `ReplayStreams.CallsEndExactly` | plurnk-acp/src/replay.ts:68-93 | Through a new translator a page last shows each call of its loops with the row's own status while its stream is open, and with the outcome of that status otherwise; other pages do not show the call. |
| `ReplayStreams.InProgressExactly` | plurnk-acp/src/replay.ts:75-89 | A streaming call is replayed in progress exactly when its stream is in the set of open ones, or no set was given, no later row has its address, and no row is of a later turn or loop; otherwise completed. |
| `ReplayLive.ShareExactly` | plurnk-acp/src/replay.ts:68-93 | For any state of the translator, the share of any loop is what a new translator shows of the loop by itself exactly when no row of it is marked by what the translator kept and no todo or kill of it tells the kept plan from a blank one. |
| `ReplayLive.PlansMeetWithoutKills` | plurnk-acp/src/SessionTranslator.ts:570-577 | In a loop without kills none does exactly when its first todo names everything the kept plan lists. |
| `ReplayLive.MarkedByRun` | plurnk-acp/src/SessionTranslator.ts:123-740 | Live traffic marks a row exactly when some event of it showed the row's turn thinking, ended its stream, or named a call by the id or stream of a row that is no call. |
| `ReplayLive.LiveReplayExactly` | plurnk-acp/src/agent.ts:430-440 | A replay through the translator of a live session shows a loop as a new one would exactly when no live event marked one of its rows and no todo or kill of it tells the plan the traffic left from a blank one. |
| `ReplayLive.PageIsAlone` | plurnk-acp/src/replay.ts:23-135 | When that holds for the loops a request may show, the page is that of a new translator showing each loop by itself. |
| `ReplayLive.FreshPage` | plurnk-acp/src/replay.ts:23-135 | Through a new translator it always is. |
| `ReplayLive.ThoughtIsLost` | plurnk-acp/src/SessionTranslator.ts:173-179 | A row with reasoning, translated live and then replayed by the same translator, is not shown as a new one shows it. |
| `ReplayLive.PlanIsKept` | plurnk-acp/src/SessionTranslator.ts:570-577 | Two todos of the translator's present loop, translated live and replayed: no row is marked, yet the first plan differs from a new translator's, because its todo does not name all the kept plan lists. |
| `Replay.PagesMakeTheHistory` | plurnk-acp/src/replay.ts:95-135 | Reading page by page, newest first, shows what one replay without limits shows. |

## Left out

- Diff: `buildDiffChanges` and the ACP payload around the text; the early returns for an empty middle, which give what
  the walk gives; 32-bit overflow of a table cell, which cannot occur for
  files of fewer than 2^31 lines (`Lcs.LengthFits`).
- OAuth: Basic header parsing, form and JSON decoding, PKCE hashing and redirect and resource matching are inputs of a
  request (their outcome); HTML pages, cookies and HTTP headers are not modelled. Secrets and
  tokens are compared, not hashed, and random values are new ones supplied to each step.
- OAuth: module clients are a fixed table; `registerClient` and `sessions` of the authority are not modelled. A step
  reads the clock once, where the code reads it several times within one request. The listener is one direct call.
- OAuth: the server's own calls of `issue` pass names and lifetimes that hold, so they take `Enter`, the part after the
  checks; a daemon configured with lifetimes that are not positive is not modelled.
- Gates: requests, controllers and settlements are named by their index where the program holds references; the
  resolution payloads, notifications and state updates sent around a settlement are not modelled.
- CapabilityAdmission.Unique: does not model `localeCompare`, because it is any collation here; the result matches the
  same descriptors whichever it is.
- JSON: a number is its text, and a member order is given; lone surrogates and their escapes are outside Dafny's `char`.
  The replacer and the values JSON.stringify drops are folded into the value given.
- Excerpt: the character count is a natural number.
- Sessions: configuration and overview builders; ids are integers.
- Dependency audit: reading `npm audit` and routing by advisory source.
- Events: broadcasts themselves, terminal updates and the events that take no place in a session's queue, those of the
  workspace's own queue among them. A rejected read ends like a resolved one and returns nothing. The theorems about the
  content take the reads to succeed and a channel only to grow.
- Overview: the payload and what a peer that left during a pass does not get.
- EditCensus.CensusOf: does not model the per-row list of forms and the cache, because they only repeat `EditForm`.
- Translator: payloads, titles, URLs and contents; a row's special shapes, its todo items and the coordinate it kills are
  inputs read off the row. Rows with coordinates that are no safe integers, which throw, are outside the model.
- TranslatorStreams.SameStatusInAnyOrder: assumes that the other rows of the session have ids, coordinates and streams of
  their own, as the log keeps them; `ShownExactly` assumes nothing.
- ReplayLive.LoopStandsAlone: assumes row ids and stream addresses of one row and turn ids of one loop, as the log keeps
  them; so do the other lemmas of `ReplayLive`.
- ReplayStreams.InProgressExactly: assumes that too, and that no other row of the session shares the call's coordinate or
  completes the call.
- Replay.ReplaySessionHistory: does not model the inbox messages appended to the newest page, or a request with two
  cursors.
- Paging: a loop's serialized length is any natural number.
- HTTP, WebSocket and event-stream transport, action dispatch, schema validation, SQLite, file access and environment
  loading.
