# Verified model of the Tasca protocols

Tasca runs coding agents for organizations: users sign in through GitHub or Google, connect their GitHub
accounts to an org, and dispatch jobs to runners that open pull requests with tokens scoped to one repository,
while a proxy meters what the agents spend. This project models the parts of it whose correctness is hardest to
see by reading, and proves what they promise: two incremental stream parsers, and the concurrent protocols around
organizations, logins, sessions, GitHub connections, dispatch jobs and tokens.

`dafny verify dfyconfig.toml` checks everything. Values are datatypes and functions; code that changes things step
by step is a class or a method with its loops, proved against a specification function; calls that interleave at
the database are a state machine with one step for each SQL statement, and the lemmas speak of every list of
actions, that is, of every interleaving. The repository classes are proved to do, call by call, what the state
machine does when that call runs alone.

| file | models |
|---|---|
| `Search`, `Text` | first occurrence, split, join; trimming and case mapping |
| `RequestStamp`, `RequestStampStream`, `RequestReframing`, `RequestHeaders` | the HTTP/1.1 request stamper (message framing of sections 6.2 and 6.3 of RFC 9112) |
| `UsageTee` | the side parser that meters a response stream |
| `Membership`, `MembershipSafety`, `MembershipLogins`, `MembershipTenant`, `LoginFailures`, `OrgRepo` | org membership under its per-org lock |
| `Dispatch`, `Runner` | the cancel/publish protocol of dispatch jobs; the claim loop and its resources |
| `Accounts`, `AuthRepo`, `Sessions`, `LoginFlow`, `LoginReplay` | users, login states, sessions |
| `GithubConnect`, `GithubReconnect`, `ConnectHandler` | binding GitHub accounts to orgs |
| `Broker` | the token broker and its minter |
| `PercentCoding`, `Cookies` | cookies |
| `Tokens` | `var()` chains of design tokens |

## What is false, and exactly when

Several properties that the code or its comments suggest do not hold without a condition. In each case a lemma
shows the failure and another says exactly when the property holds.

- The stamper's output depends on the chunking when a complete head of more than `MAX_HEAD - 3` bytes is framable:
  the cap is tested only while no blank line has been seen (`RequestStampStream.ChunkInvariance`).
- A context value that writes CR LF breaks the framing of everything after it
  (`RequestReframing.Reframing`). Written as Latin-1, the code units U+010D U+010A are CR LF too.
- The usage extractor promises never to throw, but a `data: null` line throws inside `feed` and leaves the rest of
  the buffer for the next call: a message behind it is reported or lost depending on the chunking
  (`UsageTee.NullEventSplitsOutcome`; exactly when: `UsageTee.SseChunkInvariance`).
- A job that ends `cancelled` may have a pull request: the lease of a publisher expires after `openPr`, the sweep
  requeues the row, and the cancel then removes it from the queue (`Dispatch.CancelledWithPr`). From the row alone
  the operator can exclude this exactly for a job never claimed or on its first claim (`Dispatch.CleanByRow`).
- Concurrent first logins of one account leave an orphan user when the provider states two e-mails for it
  (`Accounts.TwoEmailsOrphan`; exactly when: `Accounts.OrphanFreeExactly`).
- `touchSession` has no liveness test, and the handlers read and touch in two statements: a call of `me` that reads
  just before the expiry and touches after it revives the session, unless a sweep came between
  (`Sessions.LateTouchRevives`). The sweep is invisible if no touch revives (`Sessions.SweepInvisible`), one
  reviving touch is visible (`Sessions.RevivalIsVisible`), and the handlers' traffic has none if and only if no
  touch comes at or after the expiry its call has read - or the later one that another call has set since - and
  before the cap, of a session still logged in (`Sessions.CarefulExactly`).
- Six days is the longest gap between calls that keeps a user signed in, because the refresh may be skipped on the
  last call (`Sessions.SixDaysExactly`).
- A GitHub account that was uninstalled and is connected again by its own org does not resolve
  (`GithubReconnect.ReconnectDoesNotResolve`). A bound account resolves if and only if no uninstall has happened since
  its row came to be or was last confirmed by the webhook (`GithubConnect.ResolvesExactly`).
- A membership removed in the middle of a first login ends that login in a foreign key violation
  (`MembershipTenant.RemovalBreaksLogin`). That happens if and only if the login saw a membership at first, none at its
  insert, and the personal org does not exist (`LoginFailures.LoginFailsExactly`); so never when the org exists or
  nobody removes the user (`LoginFailures.LoginSucceeds`).
- A runner whose `setUsageContext(null)` throws skips the revoke of its token; in a run of the claim loop, every
  minted token is revoked if and only if that happens to no minted one (`RunnerLoop.RunLoop`).
- `readCookie` and `parseCookies` differ on a name given twice (`Cookies.TwiceDiffers`) and on a malformed value
  (`Cookies.MalformedDiffers`). On a header without repeated names they agree on every name if and only if every value
  is well formed (`Cookies.ReadersAgreeExactly`); on a repeated name, if and only if its first value is well formed
  and has the text of its last (`Cookies.RepeatedName`).
- A short request line followed by so much that the total exceeds 4096 characters is served or refused depending on
  the chunking (`Broker.LineIsChunkIndependent`).

## Model

| member | source | states |
|---|---|---|
| `RequestStamp.FrameAndStamp` | packages/anthropic-proxy/src/request-stamp.ts:34-68 | The loop computes the framing of the header lines (last Content-Length, none when malformed, chunked or missing on a body method) and the head with attribution lines dropped and the runner's own added last |
| `RequestStamp.RequestStamper.constructor` | packages/anthropic-proxy/src/request-stamp.ts:74-77 | A connection starts at an empty head with nothing pushed |
| `RequestStamp.RequestStamper.Fallback` | packages/anthropic-proxy/src/request-stamp.ts:78-83 | Flushes the buffered head unmodified, turns raw, and reports once |
| `RequestStamp.RequestStamper.TakeBody` | packages/anthropic-proxy/src/request-stamp.ts:93-108 | One body turn of the loop pushes exactly the bytes the whole-stream specification puts first, and leaves the connection where that specification stands |
| `RequestStamp.RequestStamper.TakeHead` | packages/anthropic-proxy/src/request-stamp.ts:109-127 | One head turn of the loop: buffer, find the blank line, stamp or fall back, as the whole-stream specification asks |
| `RequestStamp.RequestStamper.Transform` | packages/anthropic-proxy/src/request-stamp.ts:85-131 | For any chunk in any state the bytes pushed and the state reached are those of the specification; the buffered head is at most MAX_HEAD bytes and the callback has fired at most once |
| `RequestStampStream.Pipe` | packages/anthropic-proxy/src/request-stamp.ts:74-132 | A whole connection is the fold of the specification over its chunks; the fallback fires at most once, exactly when the connection ends raw |
| `RequestStampStream.CutChunk` | packages/anthropic-proxy/src/request-stamp.ts:88-128 | Where the heads fit, two chunks from any state give what their concatenation gives |
| `RequestStampStream.ChunkInvariance` | packages/anthropic-proxy/src/request-stamp.ts:109-116 | On every prefix of a stream and every way of cutting it, output and buffered head are those of the recursive whole-stream specification, if and only if every complete framable head has length + 3 <= MAX_HEAD |
| `RequestStampStream.FailSafe` | packages/anthropic-proxy/src/request-stamp.ts:78-92 | For every chunking, a connection that goes raw has been stamped up to the first byte of some head and is byte-identical to its input from there on |
| `RequestStampStream.RawTail` | packages/anthropic-proxy/src/request-stamp.ts:117-121 | The head given up on is one with no blank line or with no framing |
| `RequestReframing.ParseIsLossless` | packages/anthropic-proxy/src/request-stamp.ts:34-61 | An independent reading of a stream as requests (head lines, declared length, body) is well formed and prints back to the same bytes |
| `RequestReframing.ParseOfPrint` | packages/anthropic-proxy/src/request-stamp.ts:34-61 | Printing well-formed requests and reading them again gives the same requests: CRLF occurs in a joined head only at separators and no header line is empty |
| `RequestReframing.EmitsTheStampedRequests` | packages/anthropic-proxy/src/request-stamp.ts:109-127 | The stamper emits the print of the stamped requests, then the tail it gave up on, if any |
| `RequestReframing.StampedHead` | packages/anthropic-proxy/src/request-stamp.ts:40-67 | Stamping keeps the request line, the framing, and the bytes and order of every other header, leaves exactly the runner's attribution lines, and is idempotent |
| `RequestReframing.Reframing` | packages/anthropic-proxy/src/request-stamp.ts:34-68 | Reading the stamped stream gives the stamped requests, one for one and with the same bodies, if and only if no context value stamped on it writes CR LF |
| `RequestReframing.ReadBack` | packages/anthropic-proxy/src/request-stamp.ts:34-68 | Under that condition the tail is read back as well |
| `RequestReframing.Idempotence` | packages/anthropic-proxy/src/request-stamp.ts:34-68 | Under that condition stamping a stamped stream changes nothing |
| `RequestReframing.StampingTwice` | packages/anthropic-proxy/src/request-stamp.ts:74-132 | Two stampers in a row, for every chunking of both streams: where the heads fit and the context is safe, the second changes nothing |
| `RequestHeaders.StampSays` | packages/anthropic-proxy/src/request-stamp.ts:40-67 | Read line by line, a stamped head has the task id of the context under X-Tasca-Task-Id and the org id under X-Tasca-Org-Id, each once and as the last two lines, and neither name without a context; under any other name it has the lines of the request in order |
| `RequestHeaders.ReadBackSays` | packages/anthropic-proxy/src/request-stamp.ts:34-68 | What the proxy reads at the other end: each request in its place, with its request line, length and body, attributed to the task and org of the context its own head found, and to no other |
| `RequestHeaders.FramingMeans` | packages/anthropic-proxy/src/request-stamp.ts:38-61 | A head is framed with length n if and only if every Content-Length line declares a length, no Transfer-Encoding line mentions chunked, and n is that of the last Content-Length line - or 0 when there is none and the method is one of six |
| `RequestHeaders.LengthMeans` | packages/anthropic-proxy/src/request-stamp.ts:48-51 | The length a text declares is its leading numeral, behind any leading zeros and plus sign and whatever follows; none when negative or beyond what JavaScript counts as finite |
| `RequestHeaders.NoLength` | packages/anthropic-proxy/src/request-stamp.ts:49-50 | Without a digit after the optional sign there is no length |
| `RequestHeaders.HeaderReads` | packages/anthropic-proxy/src/request-stamp.ts:43-46 | The name before the first colon counts in any case and with any white space around it |
| `RequestHeaders.NoColonReads` | packages/anthropic-proxy/src/request-stamp.ts:43-46 | A line without a colon is all name, and its value is the line |
| `RequestHeaders.MethodReads` | packages/anthropic-proxy/src/request-stamp.ts:36 | The method is the text before the first space, in capitals |
| `RequestHeaders.HeadCap` | packages/anthropic-proxy/src/request-stamp.ts:113-116 | A head that has not ended is kept up to 256 KiB and passed on raw beyond |
| `UsageTee.UsageExtractor.TryAbsorb` | packages/anthropic-proxy/src/usage-tee.ts:60-82 | One payload updates the usage by the three kinds of event; it throws exactly on JSON null |
| `UsageTee.UsageExtractor.AbsorbOne` | packages/anthropic-proxy/src/usage-tee.ts:50-53 | One event is the fold over its data lines up to a throwing one |
| `UsageTee.UsageExtractor.Feed` | packages/anthropic-proxy/src/usage-tee.ts:42-58 | A chunk drains all complete events (SSE) or is collected under the cap (JSON) |
| `UsageTee.UsageExtractor.Result` | packages/anthropic-proxy/src/usage-tee.ts:84-90 | The usage, exactly when both id and model are known, after a JSON body is absorbed |
| `UsageTee.Tee` | packages/anthropic-proxy/src/usage-tee.ts:99-121 | The output is the input, always; at most one usage is reported, and it is that of the fold over the chunks |
| `UsageTee.WholeInTwo` | packages/anthropic-proxy/src/usage-tee.ts:42-58 | The meaning of a text may be taken in two steps at any cut, the second from the leftover of the first |
| `UsageTee.LeftoverHasNoGap` | packages/anthropic-proxy/src/usage-tee.ts:45-49 | The leftover buffer never contains a blank-line delimiter |
| `UsageTee.SseChunkInvariance` | packages/anthropic-proxy/src/usage-tee.ts:42-58 | Every way of cutting an SSE text gives the fold over its complete events and their leftover, if and only if no event before the last complete one has a null payload |
| `UsageTee.NullEventSplitsOutcome` | packages/anthropic-proxy/src/usage-tee.ts:60-67 | A text of a null event and a complete message: in one chunk nothing is reported, in two chunks the message is |
| `UsageTee.JsonChunkInvariance` | packages/anthropic-proxy/src/usage-tee.ts:55-57 | A JSON body is collected whole for every chunking if and only if it has at most MAX_JSON characters |
| `UsageTee.StreamedMessage` | packages/anthropic-proxy/src/usage-tee.ts:42-90 | What is metered for a streamed message, however it is cut: id, model and input tokens of its opening event, and the last total of output tokens that any later event states - that of the opening if none does |
| `UsageTee.PlainMessage` | packages/anthropic-proxy/src/usage-tee.ts:54-90 | What is metered for a JSON message within the cap, however it is cut: its id, model and counts, missing counts being 0, and nothing without a model |
| `OrgRepo.PgOrgMembershipRepo.GetActiveOrg` | packages/coordination/src/membership.ts:183-198 | The active org if it is a membership; else the membership with the earliest creation time, and of those created together the one whose id comes first as text; none exactly without a membership |
| `Membership.FirstOrgMeans` | packages/coordination/src/membership.ts:193 | The first membership, on the rows: none is older, and none as old has an earlier id |
| `Membership.LexMeans` | packages/coordination/src/membership.ts:193 | The order of ids: one is a prefix of the other, or they first differ in a smaller character |
| `OrgRepo.PgOrgMembershipRepo.EnsurePersonalOrg` | packages/coordination/src/membership.ts:220-255 | Alone, the call is a run of the concurrent system; a user without membership becomes owner of `org_u_` and the user id, any other keeps what it has; a missing selection becomes the earliest membership, a present one stays; what is returned is the active org |
| `OrgRepo.PgOrgMembershipRepo.EnsureInstanceMembership` | packages/coordination/src/membership.ts:257-283 | Likewise; a returning member is left as it is, the first member of an org becomes owner, later ones members; a missing selection becomes this org |
| `OrgRepo.PgOrgMembershipRepo.CreateOrg` | packages/coordination/src/membership.ts:285-294 | Likewise, outside any transaction: the creator is owner of the new org and acts in it, or no membership and no selection has changed while the org row may stay |
| `OrgRepo.PgOrgMembershipRepo.SetActiveOrg` | packages/coordination/src/membership.ts:296-302 | Likewise; done exactly under the foreign keys, and then a member acts in that org |
| `OrgRepo.PgOrgMembershipRepo.AddMemberByEmail` | packages/coordination/src/membership.ts:339-352 | Likewise, for the user with that e-mail in any case; not_found, already_member and ok exactly when they should be, with the row each leaves |
| `OrgRepo.PgOrgMembershipRepo.FindUser` | packages/coordination/src/membership.ts:340-345 | The one user with that e-mail in any case, or none if there is none |
| `OrgRepo.PgOrgMembershipRepo.SetMemberRole` | packages/coordination/src/membership.ts:354-373 | Likewise; refused as last_owner exactly when the target is the only owner and the new role is lower; the resulting rows; an org with an owner keeps one |
| `OrgRepo.PgOrgMembershipRepo.RemoveMember` | packages/coordination/src/membership.ts:375-391 | Likewise; refused as last_owner exactly when the target is the only owner; the resulting rows and selection; an org with an owner keeps one |
| `MembershipSafety.InvKept` | packages/coordination/src/membership.ts:354-400 | Every step of every interleaving keeps: rows linked, locks held by those inside them, and the live owner count at least the count a lock holder has read |
| `MembershipSafety.LastOwnerNeverLost` | packages/coordination/src/membership.ts:354-400 | From any reachable state, an org that has an owner has one for ever, in every interleaving of all membership calls, with crashes |
| `MembershipLogins.FirstLoginConverges` | packages/coordination/src/membership.ts:220-255 | Any number of concurrent first logins of a user without memberships: no error, every call returns the one personal org, owned and active, whatever others do |
| `MembershipLogins.InstanceHasOneOwner` | packages/coordination/src/membership.ts:257-283 | Any interleaving of enrolments of any users into an empty org leaves, once it has a member, one owner and otherwise plain members |
| `MembershipTenant.TenantAgreement` | app/src/lib/api.ts:335-340 | In every state with linked rows, stale selections included, the client's org is the server's, is a current membership, is missing exactly when there is none, and the client's admin gate is the server's |
| `MembershipTenant.TenantAgreementReachable` | app/src/lib/api.ts:488-493 | The same for every reachable state of the membership system |
| `MembershipTenant.ListedInOrder` | packages/coordination/src/membership.ts:208-218 | The listing has every membership of an existing org once, ordered by creation time and then by id |
| `MembershipTenant.RemovalBreaksLogin` | packages/coordination/src/membership.ts:220-255 | A run in which removing the user in mid-login makes the login violate the org foreign key |
| `LoginFailures.LoginFailsExactly` | packages/coordination/src/membership.ts:220-255 | In every run, with any calls about anybody and crashes anywhere: a first login of an existing user ends in a foreign key violation if and only if its first snapshot saw a membership, its second none, and the personal org did not exist at its insert |
| `LoginFailures.LoginSucceeds` | packages/coordination/src/membership.ts:220-255 | No such violation when the personal org exists beforehand or nobody removes the user from an org, whatever else is called about that user |
| `Dispatch.InvKept` | packages/db/src/dispatch-queue.ts:203-398 | Every event of runners, operator and sweeper keeps: fences are unique to one runner, a lost claim never comes back, publishing means the fence won, done means its pull request was opened |
| `Dispatch.PublishIsFenced` | packages/agent-runner/src/execute.ts:84-105 | Pull requests are opened only under fences that won claimed to publishing; a runner that reports cancelled holds nothing |
| `Dispatch.CancelXorPublish` | packages/db/src/dispatch-queue.ts:264-288 | If the cancel finds the job claimed, that claim never publishes, whatever follows; if it finds it publishing, it changes nothing |
| `Dispatch.CleanCancel` | packages/agent-runner/src/execute.ts:84-105 | A cancelled job is free of pull requests for good exactly when none has been opened and no runner is opening one |
| `Dispatch.CancelBeforeRequeueIsClean` | packages/agent-runner/src/runner.ts:194-210 | A cancelled job that never went from publishing back to queued has no pull request, then or ever |
| `Dispatch.CleanByRow` | packages/db/src/dispatch-queue.ts:273-288 | What status and claim epoch tell the operator: cancelling leaves no pull request, in any reachable state with that row and ever after, if and only if the job was never claimed or is on its first claim |
| `Dispatch.CancelledWithPr` | packages/db/src/dispatch-queue.ts:374-398 | The run that ends in a cancelled job with an open pull request |
| `Dispatch.RowAfter` | packages/db/src/dispatch-queue.ts:203-398 | What each statement makes of the row: a write counts only under the fence that holds it, and completes, fails or requeues; a sweep fails a job that has had its attempts and requeues any other |
| `Dispatch.EndedStays` | packages/db/src/dispatch-queue.ts:322-398 | A done, failed or cancelled row never changes again before it is reaped, in any continuation |
| `Dispatch.AttemptsAreClaims` | packages/db/src/dispatch-queue.ts:203-232 | In every run the attempts compared with the cap are the fences given out |
| `Dispatch.StaleWritesAreFenced` | packages/db/src/dispatch-queue.ts:322-360 | Once a claim is superseded, its write changes nothing, however much later it comes |
| `Dispatch.RunnerAfter` | packages/agent-runner/src/runner.ts:193-210 | What a runner goes on to write after each event: complete behind an opened pull request, fail when there is nothing to publish, release when the job should be tried again, nothing when cancelled |
| `RunnerLoop.Runner.SpawnAndAwait` | packages/agent-runner/src/execute.ts:124-176 | The first event alone settles the agent run: it is clean exactly for exit code 0 and for a benign transport error; the agent is killed at most once, for an abort or timeout that came first |
| `RunnerLoop.Runner.Work` | packages/agent-runner/src/execute.ts:60-111 | The outcome for every combination of answers; the row is won and a pull request opened only behind a clean agent run, a commit and a won point of no return |
| `RunnerLoop.Runner.Execute` | packages/agent-runner/src/execute.ts:42-117 | Once a worktree exists it is torn down exactly once, on every path |
| `RunnerLoop.Runner.Report` | packages/agent-runner/src/runner.ts:193-210 | Which write an outcome calls for, and when the catch takes over |
| `RunnerLoop.Runner.RunJob` | packages/agent-runner/src/runner.ts:177-232 | From rest to rest under the resource discipline, with exactly the writes the answers call for, thrown or not; only a throw of the clearing call leaves the token behind, and is thrown on; which of mint, attribution, worktree, agent, clearing and revoke happen, and in which order |
| `RunnerLoop.Runner.RunOnce` | packages/agent-runner/src/runner.ts:119-233 | One turn: throws only for a failed claim, a failed write of an unworkable payload, or a failed clearing of the attribution |
| `RunnerLoop.Runner.Loop` | packages/agent-runner/src/runner.ts:235-245 | Every turn over any sequence of claims adds its own disciplined trace with its own writes |
| `RunnerLoop.RunLoop` | packages/agent-runner/src/runner.ts:119-245 | Over every run of the loop the tokens minted are those revoked, one revoke each, plus those that a throw of the clearing call leaves behind - the same list if and only if there are none, and then nothing is live at the end; every worktree is torn down exactly once, in order, whatever throws |
| `RunnerLoop.TokenDiscipline` | packages/agent-runner/src/runner.ts:211-231 | What a log accepted by the discipline says of tokens |
| `RunnerLoop.WorktreeDiscipline` | packages/agent-runner/src/execute.ts:57-116 | What it says of worktrees |
| `RunnerLoop.OneWritePerJob` | packages/agent-runner/src/runner.ts:193-210 | When no queue call throws, one terminal or release write for each job, none for a cancelled outcome, and complete only after an opened pull request |
| `RunnerLoop.WritesMean` | packages/agent-runner/src/runner.ts:193-210 | Which answers lead to which write: complete, fail, nothing or release, in terms of the exit code, the commit, the point of no return and the pull request |
| `RunnerLoop.FailedAgentIsReleased` | packages/agent-runner/src/execute.ts:66-72 | A ready job whose agent exits with a code other than 0, breaks or times out is released, without a pull request |
| `Accounts.InvKept` | packages/auth/src/auth-repo.ts:89-160 | In every interleaving of logins, e-mail keys are unique, identities point at users, and a pending insert holds its e-mail alone |
| `Accounts.FirstLoginsConverge` | packages/auth/src/auth-repo.ts:76-160 | With one e-mail for each account, in every interleaving with crashes: no user without an identity, all successful logins of an account return the one user that owns the e-mail, no unique violation, and a refusal only when another account holds the e-mail |
| `Accounts.DistinctEmailsAllSucceed` | packages/auth/src/auth-repo.ts:76-160 | If no two accounts share an e-mail, every login that is not killed succeeds |
| `Accounts.NoDeadlock` | packages/auth/src/auth-repo.ts:114-120 | A login that waits for a reserved e-mail waits for one that finishes at its next step |
| `Accounts.OrphansExactly` | packages/auth/src/auth-repo.ts:121-130 | A step leaves a user without an identity if and only if it commits a new user for an account linked in the meantime |
| `Accounts.OrphanFreeExactly` | packages/auth/src/auth-repo.ts:104-130 | A run, with any e-mails and crashes, ends with an identity for every user if and only if no step of it commits a new user for an account already linked |
| `Accounts.TwoEmailsOrphan` | packages/auth/src/auth-repo.ts:104-130 | The run that leaves an orphan: one account, two e-mails |
| `AuthRepo.UpsertKeeps` | packages/auth/src/auth-repo.ts:89-185 | A serial login keeps the tables intact and every identity in place; it is refused, with nothing written, exactly when the e-mail is somebody else's |
| `AuthRepo.UpsertWrites` | packages/auth/src/auth-repo.ts:89-185 | The same on the rows: whose e-mail it is in any case, and which user row and link are written |
| `AuthRepo.RefusedInAnyCase` | packages/auth/src/auth-repo.ts:110-117 | A login is refused, with nothing written, exactly when a user other than its own has an e-mail that differs from its own at most in the case of letters, for ASCII e-mails |
| `AuthRepo.SerialLogins` | packages/auth/src/auth-repo.ts:89-185 | Over every serial run, with any e-mails, an account stays with the user it got first |
| `AuthRepo.SoloLogin` | packages/auth/src/auth-repo.ts:89-160 | The interleaved login run alone is the serial one |
| `AuthRepo.PgAuthRepository.UpsertUserFromProvider` | packages/auth/src/auth-repo.ts:89-160 | Find-or-create as the serial login: the row and the link it writes, and refused exactly when another user has the e-mail in any case |
| `AuthRepo.PgAuthRepository.RefreshUser` | packages/auth/src/auth-repo.ts:168-185 | Writes the profile unless another user owns the e-mail |
| `AuthRepo.PgAuthRepository.CreateOAuthState` | packages/auth/src/auth-repo.ts:188-196 | One new state row with its expiry |
| `AuthRepo.PgAuthRepository.ConsumeOAuthState` | packages/auth/src/auth-repo.ts:205-232 | Returns and deletes a live state; an expired or unknown one yields nothing |
| `AuthRepo.PgAuthRepository.CreateSession` | packages/auth/src/auth-repo.ts:235-243 | One new session row, if the user exists |
| `AuthRepo.PgAuthRepository.GetSession` | packages/auth/src/auth-repo.ts:250-274 | The session, its user and the provider of that user's one identity, exactly while neither expiry nor the absolute cap has passed |
| `AuthRepo.PgAuthRepository.TouchSession` | packages/auth/src/auth-repo.ts:282-293 | Slides the expiry, never past thirty days after creation; user and creation stay |
| `AuthRepo.PgAuthRepository.DeleteSession` | packages/auth/src/auth-repo.ts:296-298 | Deletes the row |
| `AuthRepo.PgAuthRepository.DeleteExpired` | packages/auth/src/auth-repo.ts:301-305 | Removes exactly the expired rows of both tables and counts them |
| `Sessions.AuthHandler.HandleMe` | packages/auth/src/handler.ts:141-191 | Who is signed in and through which provider; the session slides, and its cookie is issued anew, exactly when more than a day has passed since it was last seen; a moment each for the read, the look at the clock and the touch |
| `Sessions.AuthHandler.HandleLogout` | packages/auth/src/handler.ts:108-116 | Afterwards that session is never visible, and every other one is as before |
| `Sessions.SixDaysExactly` | packages/auth/src/handler.ts:165-172 | Calls less than d apart keep every user signed in until 30 days after login, for all call times and durations, if and only if d is at most six days |
| `Sessions.SlidingRun` | packages/auth/src/auth-repo.ts:282-293 | In every run expires_at = min(last_seen + 7 days, created + 30 days) |
| `Sessions.CapIsAbsolute` | packages/auth/src/auth-repo.ts:250-293 | No sequence of operations, with any touches at any times, shows a session at or past its cap |
| `Sessions.SweepInvisible` | packages/auth/src/auth-repo.ts:301-305 | Wherever deleteExpired runs, and however often, no answer of the repository changes, if no touch of the run revives a session |
| `Sessions.RevivalIsVisible` | packages/auth/src/auth-repo.ts:282-293 | A sweep before a touch is seen by some later read if and only if the touch revives a dead session |
| `Sessions.CarefulExactly` | packages/auth/src/handler.ts:141-172 | For any interleaving of the handlers' statements and sweeps, also between the read and the touch of one call: no touch revives a session if and only if none is late, that is at or after the expiry its call has read (or another call has set since) and before the cap, of a session not logged out since |
| `Sessions.SweepUnseenByHandlers` | packages/auth/src/auth-repo.ts:301-305 | Then sweeps at any moments change no answer of the handlers' statements |
| `Sessions.LateTouchRevives` | packages/auth/src/handler.ts:152-171 | The run of the handlers in which a late touch revives a session, and what a sweep between read and touch makes of it |
| `LoginFlow.AuthFlow.BeginAuth` | packages/auth/src/flow.ts:83-108 | Issues one state, which is the cookie, for ten minutes |
| `LoginFlow.AuthFlow.CompleteAuth` | packages/auth/src/flow.ts:133-247 | A callback with matching state and cookie burns its live state whatever follows; a session of seven days is minted, for the user of the identity, exactly when the state is of this provider, the e-mail is present, verified and nobody else's, and the login hook succeeds; and exactly which condition each refusal means |
| `LoginReplay.LoginIsReplaySafe` | packages/auth/src/flow.ts:133-247 | In every interleaving of begins, callbacks, replays and sweeps, each session stems from its own state, which was issued for the same provider, was consumed before it expired and equalled query and cookie; never more sessions than states |
| `GithubConnect.InvKept` | packages/coordination/src/github-connect.ts:169-240 | Every step keeps: one org for each account, and each nonce held by at most one callback, of its own user and org |
| `GithubConnect.AccountBinding` | packages/coordination/src/github-connect.ts:48-91 | Over every interleaving with replays, webhooks, sweeps, org switches and role changes: at most one org for each account; every binding by the user of its nonce to the org of its nonce; the very begin that issued the nonce had read that org as the user's active org and then the user's role in it as owner or admin; no nonce used twice |
| `GithubConnect.BoundForever` | packages/coordination/src/github-connect.ts:48-50 | Once bound, an account has that org and no other for the rest of the run |
| `GithubConnect.RaceHasOneWinner` | packages/coordination/src/github-connect.ts:216-238 | However many callbacks for one account have passed the read guard, in every continuation: each that runs to its end is connected, or turned away by the org that has the account, and all connected ones are of one org |
| `GithubConnect.ResolvesExactly` | packages/coordination/src/store.ts:2143-2192 | In every run, an account resolves to an org if and only if no uninstall has happened since its row came to be or was last confirmed |
| `GithubConnect.RowStep` | packages/coordination/src/store.ts:2143-2192 | What each event does to a row: health changes by uninstall and confirmation alone, the installation by confirmation and reconnection alone |
| `GithubReconnect.ReconnectDoesNotResolve` | packages/coordination/src/store.ts:2143-2161 | From empty tables: connect, uninstall, connect again; both connects complete and the account does not resolve until it is confirmed |
| `ConnectHandler.GithubConnectHandler.Issue` | packages/coordination/src/github-connect.ts:73-81 | One new nonce |
| `ConnectHandler.GithubConnectHandler.Consume` | packages/coordination/src/github-connect.ts:83-91 | Returns and deletes a live nonce, once |
| `ConnectHandler.GithubConnectHandler.DeleteExpired` | packages/coordination/src/github-connect.ts:93-96 | Removes exactly the expired nonces, counts them, and is the sweep of the concurrent system |
| `ConnectHandler.GithubConnectHandler.GetOrgForConnection` | packages/coordination/src/store.ts:2269-2282 | An org with a live row, or none if there is none |
| `ConnectHandler.GithubConnectHandler.UpsertGitHubInstallation` | packages/coordination/src/store.ts:2143-2161 | Insert, same-org update that leaves the health alone, or refusal by the partial unique index |
| `ConnectHandler.GithubConnectHandler.HandleBegin` | packages/coordination/src/github-connect.ts:170-190 | One begin is a run of the concurrent system with that request alone; a nonce for the active org when the role in it is owner or admin, refused for a plain member or none, and no org without an active one |
| `ConnectHandler.GithubConnectHandler.HandleCallback` | packages/coordination/src/github-connect.ts:191-240 | One callback is a run of the concurrent system with that request alone; exactly which reply each nonce, session, lookup and row of another org leads to, and the row it leaves |
| `Broker.ValidRefDivides` | packages/broker/src/contract.ts:42-47 | What the test accepts divides into owner and repo in one way only, and every such pair without ".." is accepted |
| `Broker.ValidRefShape` | packages/broker/src/contract.ts:42-47 | An accepted ref is owner/repo with legal characters, no second slash and no ".." |
| `Broker.MakeScope` | packages/coordination/src/broker-minter.ts:26-44 | The scope of a mint, which exists exactly for owner/repo with legal names, no ".." and an installation of the owner |
| `Broker.ScopeIsOneRepo` | packages/coordination/src/broker-minter.ts:26-44 | Any scope is one repository that recomposes with the owner of its installation to the ref |
| `Broker.BrokerConnection.OnData` | packages/broker/src/server.ts:75-92 | A data event moves the connection as the state machine does |
| `Broker.BrokerConnection.Dispatch` | packages/broker/src/server.ts:96-109 | The line is parsed and checked, and minted for at most here |
| `Broker.BrokerConnection.OnIdle` | packages/broker/src/server.ts:61-64 | The timeout answers unless something has |
| `Broker.BrokerConnection.OnMintDone` | packages/broker/src/server.ts:109-117 | The answer of a mint - token, rejection or nothing usable - sent unless something has been |
| `Broker.OneMint` | packages/broker/src/server.ts:47-118 | For every sequence of data, idle and mint events: at most one mint and one response; a mint only for the valid ref of the first line of all the text; a token only after a mint, and then the one the mint gave |
| `Broker.LineIsChunkIndependent` | packages/broker/src/server.ts:75-92 | How a text is cut makes no difference to anything done about it if and only if it has at most 4096 characters or no line that ends within the first 4096 |
| `Broker.Answered` | packages/broker/src/server.ts:47-118 | The one answer to a text that chunking cannot change, in any chunks: which error for which text, and for a valid ref a mint whose result decides, unless the timeout comes first |
| `Broker.NameCharacters` | packages/broker/src/contract.ts:42 | The characters of a name: letters, digits, dot, underscore, hyphen |
| `Broker.TokenIsScoped` | packages/broker/src/server.ts:96-118 | With the minter behind the connection, whatever arrives: GitHub is asked for at most one token, and a token that goes out is one GitHub answered, asked for with the installation of an owner and one repository of it, which together are the ref on the wire |
| `PercentCoding.DecodeOfEncode` | packages/auth/src/cookies.ts:27-37 | Percent-encoding of UTF-8 (section 2.1 of RFC 3986) is undone by decoding, for every string |
| `PercentCoding.EncodedIsPlain` | packages/auth/src/cookies.ts:36 | An encoded value has no separator and nothing to trim |
| `PercentCoding.UnreservedCharacters` | packages/auth/src/cookies.ts:36 | Which characters stay as they are |
| `PercentCoding.EscapeIs` | packages/auth/src/cookies.ts:36 | A byte is escaped as its two hexadecimal digits, capitals |
| `PercentCoding.Utf8Bounds` | packages/auth/src/cookies.ts:36 | The bytes of the least and greatest character of each length and around the surrogates |
| `Cookies.ParseCookies` | packages/auth/src/cookies.ts:14-32 | The map gives each name its last value, decoded if it can be; noise is skipped |
| `Cookies.ReadCookie` | packages/coordination/src/http-util.ts:17-26 | The first value of the name, decoded; a malformed one throws |
| `Cookies.SerializeCookie` | packages/auth/src/cookies.ts:35-43 | The segments of a Set-Cookie in order |
| `Cookies.AttributesReadBack` | packages/auth/src/cookies.ts:35-43 | Between the semicolons a browser finds the pair and then exactly the attributes asked for, once each, with their values, and no other, for any path without a semicolon |
| `Cookies.ClearCookie` | packages/auth/src/cookies.ts:46-48 | What the browser is left with is the empty value |
| `Cookies.BrowserKeepsThePair` | packages/auth/src/cookies.ts:35-43 | Whatever the attributes, the text before the first semicolon (section 5.2 of RFC 6265) is name=value |
| `Cookies.CookieRoundTrip` | packages/auth/src/cookies.ts:14-43 | For any distinct legal names, any values and attributes, the Cookie header made of what was set (section 4.2.1 of RFC 6265) parses to exactly that map, and readCookie agrees on every name |
| `Cookies.ReadersAgreeExactly` | packages/coordination/src/http-util.ts:17-26 | On a header that gives no name twice the two readers agree on every name if and only if every value is a well-formed percent-encoding |
| `Cookies.RepeatedName` | packages/coordination/src/http-util.ts:20-24 | On a name given first and last at two places they agree if and only if the first value is well formed and has the text of the last |
| `Cookies.TwiceDiffers` | packages/auth/src/cookies.ts:19-31 | On `a=1; a=2` one reader answers 1 and the other 2 |
| `Cookies.MalformedDiffers` | packages/auth/src/cookies.ts:26-30 | On `a=%` one reader throws and the other answers % |
| `Tokens.ResolveMeans` | scripts/check-contrast.ts:164-183 | Resolution gives the text at the end of the chain of distinct tokens, else the fallback nearest to the end, else nothing |
| `Tokens.ResolveIsMeaning` | scripts/check-contrast.ts:164-183 | Every token of every token map has such a chain, cyclic references included, and resolution is its meaning; light reads light then root at every hop |
| `Tokens.LightIsOverlay` | scripts/check-contrast.ts:168-170 | Light resolves every token as dark would if the light declarations were laid over the root scope |
| `Tokens.DarkIgnoresLight` | scripts/check-contrast.ts:168-170 | No light declaration changes what dark resolves to |

## Left out

- Sockets, servers, TLS, git, the PTY and pull request tooling, files and real timers: they appear as events and as answers that may fail. Tokens and ids are random, hence unique, and are parameters.
- JSON, the provider adapters and the `var()` pattern are parameters; `parse` may be any function.
- The remaining HTTP handlers (credentials, agents, projects, invites, managers), the reaper, routing and orchestration: gate sequences or code outside these cores, which would only add easy members.
- Provider REST calls, e-mail, contrast arithmetic and the other lint scripts.
- RequestStamp.FrameAndStamp: does not model the rounding of Content-Length values of 2^53 and more, and takes lower case of Latin-1 letters as the letter 32 positions on.
- UsageTee.UsageExtractor.Feed: does not model a chunk boundary inside a multi-byte character, because text is taken after decoding.
- UsageTee.UsageExtractor.Result: does not model token counts that JSON.parse rounds or reads as Infinity.
- Membership: the lock is keyed by the org itself, not by its 32-bit hash, so two orgs never share a lock; users and orgs are never deleted.
- Membership.LexMeans: ids are ordered by code point; the collation of the database is not modelled.
- MembershipLogins.FirstLoginConverges: convergence to one org is stated for runs without other calls about the same user; `LoginFailures.LoginFailsExactly` covers every run.
- Dispatch: one job row; the order in which claims pick jobs, delays and lease times are not modelled, and a lease may be found expired at any moment. `openPr` opens nothing when it throws.
- RunnerLoop.Runner.RunJob: heartbeats appear only as the abort they cause, and the start and stop flags and the polling delay do not appear.
- Accounts.FirstLoginsConverge: assumes one e-mail for each account, since two break it (`Accounts.TwoEmailsOrphan`); an UPDATE or the identity insert is one step with its commit.
- AuthRepo.PgAuthRepository.UpsertUserFromProvider: lower() folds the ASCII and Latin-1 letters only; link times and provider e-mails are not kept.
- Sessions.CarefulExactly: one clock orders the statements at the database; a handler's own clock may show anything.
- LoginFlow.AuthFlow.BeginAuth: the authorize URL, PKCE challenge and code exchange are not modelled.
- GithubConnect.AccountBinding: rows of other platforms and deletion of orgs and users are not modelled; the session of a request is its user.
- PercentCoding.DecodeOfEncode: a string has no lone surrogates; on those encodeURIComponent throws.
- Cookies.SerializeCookie: an age of 10^21 seconds and more, which JavaScript prints with an exponent, is not modelled.
- Tokens.ResolveIsMeaning: null and the empty text are the same answer, as for every caller; `seen` is passed along rather than shared, since each call uses it last in its one recursive call.
