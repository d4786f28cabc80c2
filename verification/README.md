# Verification of https_proxy

A Dafny model of the parts of `https_proxy` that must keep their promises in every interleaving and over every
run, with proofs of those promises. `dafny verify dfyconfig.toml` checks the whole project.

How the system is modelled:

- Time is integer nanoseconds; Go's zero `time.Time` is `None`. Every region under a mutex is one step.
- Concurrent protocols (tunnels and shutdown, relay, idle timer, upstream setup) are transition systems. A run is
  any list of enabled steps, so a lemma about `Exec` of a run speaks about every interleaving of any length, and
  the tunnel model has any number of handlers.
- Objects that Go updates in place are classes whose methods are proved equal to functions on their state; loops
  are loops. What the network, the resolver, the dialer, the disk and the peers do is arbitrary.
- Strings that carry bytes are sequences of bytes, and white space, header names and Base64 follow the Go library.

What the modules are about:

| module | subject |
|---|---|
| `FailureLimiter`, `FailureBudget` | the failed-authentication limiter, and what it guarantees over whole runs |
| `ClockSkew` | the same guarantee when clock values may go back |
| `GoBytes` | the string functions of the Go library that the proxy relies on |
| `Base64`, `BasicAuth` | credentials written for an upstream proxy and read back by `Authenticate` |
| `SlotLimiter`, `ConfigLimits` | the concurrency limiter, the listener, the validated limits |
| `TunnelLifecycle` | CONNECT handlers, registry, limiter and shutdown together |
| `IdleTimer`, `Relay` | the two copy loops, their result channel and the idle timer |
| `ConnectResponse`, `UpstreamRequest`, `UpstreamSetup` | the CONNECT exchange with an upstream proxy and its setup race |
| `DestinationPolicy` | which addresses may be dialed |
| `Headers`, `Trailers` | header filtering, the Via chain, trailers |
| `CertificateCache` | the certificate reloader |

Results that differ from what one might expect:

- With at most k Authenticate calls of a key under way at a time, the most failures one window length can hold is
  `maxFailures + k - 1` when `maxFailures` or the window (in nanoseconds) is 1, and `2 * (maxFailures + k - 2)`
  otherwise. For k = 1, calls that do not overlap, that is one below the obvious `2 * maxFailures - 1`: the first
  failure of the older record never lies in the same window length as a newer record. The bound holds in every run
  exactly when the block lasts at least one window (`BudgetIffBlockCoversWindow`), and every valid setting has a run
  that reaches it (`BudgetReached`). It grows without limit with k, because the check and the recording are separate
  locked regions (`OverlappingCallsAreUnbounded`).
- Tries made while blocked never extend the block, and it stands still in every run exactly if no call of the key was
  let through before and is still under way (`BlockStandsIff`). The success of such a call lifts it; its failure
  extends it inside the record's window, and lifts it after that window (`LateResultsMoveBlock`).
- Clock values may go back, since `now` is read before the lock. Cleanup then shows (`CleanupShowsWhenTimesGoBack`) and
  the budget is exceeded (`SkewBreaksBudget`); if they go back by less than half a window, what one window length holds
  stays within a number of full records that grows with the distance (`SkewedBudgetHolds`).
- CloseAll, an idle timeout and an error end an HTTP/1 relay whatever the peers do. `RelayStream` and `CloseAll` close
  the request body and the destination of an HTTP/2 tunnel, but nothing cuts a write to its client. Such a relay ends
  without the peers exactly if it owes its client no data, in hand or buffered behind the upstream proxy's response:
  then in every run, otherwise in none (`RelayNeverStuck`, `SomeStreamsWait`). In the same way Wait succeeds without
  the peers exactly if no relay owes its client data (`ShutdownNeverStuck`, `SomeShutdownWaits`); otherwise it is left
  to the shutdown timeout.
- An account whose configured username contains a colon can never be used (`AccountUsableIff`).
- `copyTrailers` compares only the number of names, so the trailers arrive completely exactly when the numbers
  differ or every trailer with values was announced (`TrailersArriveIff`, `SwappedTrailerIsLost`).
- The repository's README.md speaks of a block after "exceeding" `auth_max_failures`; the code blocks on reaching
  it, and the model follows the code.

## Model

| member | source | states |
|---|---|---|
| `FailureLimiter.Limiter.Cleanup` | internal/auth/limiter.go:88-102 | the loop removes exactly the records that are past both their window and their block, at most once per window |
| `FailureLimiter.Limiter.RetryAfter` | internal/auth/limiter.go:37-56 | state and answer are those of a `Check` step: remaining block, or zero with a finished block forgotten |
| `FailureLimiter.Limiter.RecordFailure` | internal/auth/limiter.go:58-77 | state is that of a `Fail` step: a new record past the window, a block on reaching the maximum |
| `FailureLimiter.Limiter.Forget` | internal/auth/limiter.go:79-86 | a success removes the record of its key only |
| `FailureLimiter.CleanupUnobservable` | internal/auth/limiter.go:37-102 | for every sequence of calls on any keys with a clock that never goes back, the cleaning limiter gives the same answers as one that never cleans |
| `FailureLimiter.CleanupShowsWhenTimesGoBack` | internal/auth/limiter.go:42-45 | with an older time presented after a cleanup the answers differ, so the ordering hypothesis is needed |
| `FailureBudget.FailureBudgetHolds` | internal/auth/limiter.go:58-77 | when the block covers the window, every half-open interval of window length holds at most `Budget` recorded failures of a key that never succeeds and has at most k calls under way |
| `FailureBudget.BudgetIffBlockCoversWindow` | internal/auth/limiter.go:68-76 | for every k, the budget holds in all runs if and only if block >= window |
| `FailureBudget.ShortBlockBreaksBudget` | internal/auth/limiter.go:51-54 | with a shorter block some run fills two records, 2 * (maxFailures + k - 1) failures, in one window |
| `FailureBudget.BudgetReached` | internal/auth/limiter.go:69-75 | for every valid setting and every k some run records exactly `Budget` failures in one window, so the bound cannot be lowered |
| `FailureBudget.Budget` | internal/auth/limiter.go:69-76 | the budget lies between maxFailures + k - 1 and 2 * (maxFailures + k) - 3, so for k = 1 between maxFailures and 2 * maxFailures - 1 |
| `FailureBudget.AuthenticateMeetsBudget` | internal/auth/basic.go:48-104 | the budget holds for whole Authenticate calls made one after the other by any clients |
| `FailureBudget.OverlappingCallsAreUnbounded` | internal/auth/basic.go:53-101 | k calls that all check before any of them records are all let through and all recorded |
| `FailureBudget.BlockNeverExtends` | internal/auth/basic.go:53-57 | a blocked key that keeps calling Authenticate, with any credentials and several calls at a time, gets nothing recorded: every check is refused for the rest of the original block, and a later check sees exactly the rest of it |
| `FailureBudget.LateResultsMoveBlock` | internal/auth/limiter.go:67-86 | in every reachable state, a call that was let through before the block lifts it by a success; its failure extends the block inside the record's window, and after it lifts the block unless maxFailures is 1 |
| `FailureBudget.BlockStandsIff` | internal/auth/basic.go:53-101 | in every reachable state a block stands still in all runs, with or without successes of the key, if and only if none of its calls was let through before and is still under way |
| `FailureBudget.RetryAfterIsExact` | internal/auth/basic.go:119-126 | however often the key tries in between, after the announced whole seconds it is let through to the credential check, and one second earlier it is still blocked |
| `FailureBudget.WaitNeverExceedsBlock` | internal/auth/limiter.go:51-55 | in every run no caller is told to wait longer than the block duration |
| `ClockSkew.SkewedBudgetHolds` | internal/auth/limiter.go:62-76 | if clock values go back by at most d, less than half a window, every window length holds at most (2 * window - 2 + d) / (window - 2 * d) + 1 full records of maxFailures + k - 1 failures, three as long as 7 * d < window + 2 |
| `ClockSkew.SkewBreaksBudget` | internal/auth/limiter.go:62-65 | with times that go back by one nanosecond a cleanup started by another client lets a key exceed the budget for ordered times |
| `Base64.RoundTrip` | internal/proxy/upstream.go:240-241 | decoding what was encoded gives the bytes back, for all byte sequences |
| `Base64.SymbolsAreAlphabet` | internal/proxy/upstream.go:240-241 | the symbols are those of the standard alphabet in its order |
| `Base64.BreaksAreSkipped` | internal/auth/basic.go:71-75 | line breaks in the text are skipped wherever they stand, and nothing else is |
| `GoBytes.SpaceFormIff` | internal/auth/basic.go:71-75 | what counts as white space are exactly the UTF-8 forms of the Unicode white-space characters |
| `GoBytes.TrimSpaceMeans` | internal/auth/basic.go:71-75 | trimming takes white space off both ends and nothing else |
| `GoBytes.AtoiReads` | internal/proxy/upstream.go:70-73 | a number is an optional sign and digits, and its value that of the digits by their place |
| `BasicAuth.CredentialsParse` | internal/auth/basic.go:66-81 | from the value written for (user, pass) the pair is read back, split at the first colon |
| `BasicAuth.CredentialRoundTrip` | internal/proxy/upstream.go:237-242 | for a username without a colon the written value matches the account exactly for the configured pair |
| `BasicAuth.AccountUsableIff` | internal/auth/basic.go:77-87 | some header is accepted for an account if and only if its username has no colon |
| `BasicAuth.SchemeInAnyCase` | internal/auth/basic.go:66-70 | an ASCII scheme is accepted iff it is Basic up to letter case |
| `BasicAuth.DisabledAllowsAll` | internal/auth/basic.go:38-51 | without a configured username and password every request passes and the limiter is untouched; otherwise only matching credentials pass |
| `BasicAuth.Basic.Authenticate` | internal/auth/basic.go:48-104 | limiter state and reply are those of `Serve`: disabled, blocked, missing, wrong and right credentials |
| `BasicAuth.ServeMakesCalls` | internal/auth/basic.go:48-104 | Authenticate makes exactly the limiter calls of its attempt, lets a request through iff the key is unblocked and the credentials are right, and rate-limits it iff the key is blocked, announcing the rounded remaining time |
| `BasicAuth.ServedRunMeetsBudget` | internal/auth/basic.go:48-104 | in every run of requests the limiter goes through exactly the calls of the judged attempts, and a key that never shows the right credentials stays within the budget |
| `BasicAuth.BlockedClientIsRefused` | internal/auth/basic.go:53-57 | in every run of requests, each request of a blocked client gets 429 with the rest of the original block, whatever its credentials; a later one gets it exactly while that block lasts |
| `BasicAuth.RetryAfterHonored` | internal/auth/basic.go:119-126 | a refused client that keeps trying and comes back after the announced seconds is not refused again, and one second earlier it is |
| `BasicAuth.AuthenticateRoundTrip` | internal/auth/basic.go:59-98 | an unblocked client of an enabled authenticator gets through with the written value iff the pairs are equal |
| `SlotLimiter.ConcurrentLimiter.TryAcquire` | internal/proxy/limits.go:25-37 | refused without effect iff a limit is full, otherwise one more in total and for the key |
| `SlotLimiter.ConcurrentLimiter.Release` | internal/proxy/limits.go:39-51 | the first call gives the slot back, later calls do nothing |
| `SlotLimiter.ConcurrentLimiter.Accept` | internal/proxy/limits.go:65-82 | whatever others take or give back while it waits, it hands out the first connection that gets a slot at its time, with a fresh unused release for its key, and closes exactly the refused ones before it |
| `SlotLimiter.SlotsConserved` | internal/proxy/limits.go:25-51 | in every run of acquires and repeated releases: total, sum of the map and open tickets agree, no zero is stored, both limits hold |
| `SlotLimiter.RefusedOnlyWhenFull` | internal/proxy/limits.go:30-34 | a refusal happens iff as many tickets are open as a limit allows |
| `SlotLimiter.ReleasingAllRestores` | internal/proxy/limits.go:39-51 | after any run, releasing everything restores the empty limiter |
| `ConfigLimits.ValidateLimits` | internal/config/config.go:335-366 | the checks accept exactly the valid numeric limits |
| `ConfigLimits.ValidatePorts` | internal/config/config.go:379-388 | accepted iff all ports are in range and distinct |
| `ConfigLimits.StreamsWithinLimitAreGranted` | internal/proxy/run.go:110-115 | the effective stream limit of a valid configuration is within 1 and both tunnel limits, so a stream within it is never refused a tunnel |
| `ConfigLimits.EffectiveStreamsMeans` | internal/proxy/run.go:110-115 | a configured stream limit is used as it is, otherwise the largest one within both tunnel limits |
| `TunnelLifecycle.TunnelRegistry.Track` | internal/tunnel/tunnel.go:42-52 | refused iff closing, otherwise the new pair is active and counted |
| `TunnelLifecycle.TunnelRegistry.Untrack` | internal/tunnel/tunnel.go:54-61 | removes and counts down once, and only an active pair |
| `TunnelLifecycle.TunnelRegistry.CloseAll` | internal/tunnel/tunnel.go:64-77 | closing is set and every active pair is closed on both sides |
| `TunnelLifecycle.HandlerFollowsItsPath` | internal/proxy/server.go:284-423 | in every run a handler has taken exactly the actions of the source in their order: it hijacks an HTTP/1 connection and then tracks it, drops it only after a failed hijack or when Track was refused by a shutdown, and leaves its relay only when that is over or the destination is closed |
| `TunnelLifecycle.TunnelCanOpen` | internal/proxy/server.go:349-389 | while the proxy serves and has a free slot, a new request of either protocol has a run that ends tracked and relaying |
| `TunnelLifecycle.IdleTunnelFinishes` | internal/proxy/server.go:366-389 | at any time an idle timeout or an error can end a tunnel that owes its client nothing, and the deferred calls take its handler to the end |
| `TunnelLifecycle.UntrackOnce` | internal/tunnel/tunnel.go:40-61 | calling the release function again changes nothing, and releasing a tracked pair restores the registry |
| `TunnelLifecycle.ShutdownClosesEverything` | internal/tunnel/tunnel.go:42-77 | in every interleaving, once CloseAll has returned every pair ever tracked is closed on both sides and nothing is tracked any more |
| `TunnelLifecycle.WaitCounterExact` | internal/tunnel/tunnel.go:42-61 | the wait counter always equals the number of active pairs, which are the handlers that tracked and did not untrack |
| `TunnelLifecycle.WaitMeansDrained` | internal/proxy/run.go:81-86 | Wait succeeding after CloseAll means for good that no tunnel is active and every tracked handler closed both sides and untracked |
| `TunnelLifecycle.ShutdownNeverStuck` | internal/proxy/server.go:366-376 | from every reachable state after CloseAll the handlers' deferred calls alone bring Wait to return in every run if and only if no relay owes an HTTP/2 client data, and in some run only then, too |
| `TunnelLifecycle.ShutdownTerminates` | internal/tunnel/tunnel.go:64-93 | every run after CloseAll takes at most three deferred calls per active tunnel and one return of Wait, and wherever it stops short of that another such step is possible unless a relay owes its client data, which it did already when CloseAll returned |
| `TunnelLifecycle.SomeShutdownWaits` | internal/proxy/server.go:392-423 | a shutdown exists in which a relay owes its HTTP/2 client data when CloseAll returns |
| `TunnelLifecycle.ClientsLetWaitReturn` | internal/proxy/run.go:81-86 | from every state after CloseAll, if the clients that are owed data take it, the handlers' own steps bring Wait to return |
| `TunnelLifecycle.TunnelsNestInLimits` | internal/proxy/server.go:284-302 | active tunnels <= slots taken <= limit, in total and per client key, in every reachable state |
| `TunnelLifecycle.FinishedHandlersLeakNothing` | internal/proxy/server.go:349-408 | a finished handler gave its slot back exactly once and closed every connection it opened or took over |
| `IdleTimer.IdleController.Touch` | internal/tunnel/tunnel.go:228-235 | activity is noted and the timer re-armed unless stopped |
| `IdleTimer.IdleController.Stop` | internal/tunnel/tunnel.go:237-244 | stopping disarms the timer once |
| `IdleTimer.IdleController.Expire` | internal/tunnel/tunnel.go:246-262 | the callback decides a timeout, re-arms for the rest, or does nothing when stopped |
| `IdleTimer.IdleTimeoutSound` | internal/tunnel/tunnel.go:218-262 | in every interleaving at most one timeout is decided, never earlier than the timeout after the recorded activity; while running, a callback is pending or the timer is due for it (up to the lag, exactly without lag) |
| `IdleTimer.TouchPutsOffTimeout` | internal/tunnel/tunnel.go:228-262 | after every touch step of a run, read off the steps and their times alone, no timeout is decided before a whole timeout has passed, unless the controller was stopped before |
| `IdleTimer.TimerFollowsTouches` | internal/tunnel/tunnel.go:228-258 | while the controller runs, the timer is armed for the time of the last touch step plus the timeout, or a callback is pending |
| `IdleTimer.RunsUntilStopped` | internal/tunnel/tunnel.go:237-251 | the controller is stopped exactly if stop was called or a timeout decided, a stop disarms the timer, and every firing has one callback |
| `IdleTimer.NoTimeoutAfterStop` | internal/tunnel/tunnel.go:237-251 | after stop has taken effect no pending callback decides a timeout |
| `IdleTimer.ExpiryNeverLost` | internal/tunnel/tunnel.go:252-261 | in every reachable running state that was idle long enough, firing and the callback lead to the decision |
| `Relay.RelayPreservesStreams` | internal/tunnel/tunnel.go:264-285 | each output is a prefix of its input, and a side is half-closed only after all bytes up to the end were written |
| `Relay.CleanCopyHalfCloses` | internal/tunnel/tunnel.go:264-281 | in every run a direction that ended cleanly made exactly one half-close, which was not refused; its target is half-closed iff it can be and was not closed already; a refused half-close makes the result an error, and after another error there is none |
| `Relay.RelayCanComplete` | internal/tunnel/tunnel.go:122-140 | whatever two streams the peers send, some run delivers both and returns without a cut |
| `Relay.ActivityPutsOffTimeout` | internal/tunnel/tunnel.go:206-216 | in every run each read that brings data is noted as activity before the data is written, and no idle timeout is decided within the timeout of such a note |
| `Relay.InterruptsOnlyOnError` | internal/tunnel/tunnel.go:135-139 | the connections are interrupted iff the first result is an error, before waiting for the second; onTimeout acts only after expiry |
| `Relay.ResultSendNeverBlocks` | internal/tunnel/tunnel.go:131-133 | a finished copy can always post its result |
| `Relay.ReturnedRelayIsComplete` | internal/tunnel/tunnel.go:122-178 | a returned relay has both results, decides no timeout later, and without errors delivered both streams completely, uninterrupted, and half-closed every side that can be |
| `Relay.RelayNeverStuck` | internal/tunnel/tunnel.go:122-178 | in no reachable state is the relay deadlocked; after an error, an idle timeout or a shutdown it returns without any peer, in every run and within 17 steps, if and only if it is not a stream that owes its client data in hand or buffered, and otherwise in no run |
| `Relay.SomeStreamsWait` | internal/tunnel/tunnel.go:146-178 | streams exist that owe their client a byte in hand, or buffered behind the upstream proxy's response, when a shutdown closes them |
| `Relay.DoomedRelayIsCut` | internal/tunnel/tunnel.go:123-139 | after a first result that is an error, or an expired timer, both connections get cut in at most five steps of the main goroutine and onTimeout, one of which is possible until then |
| `Relay.CutRelayTerminates` | internal/tunnel/tunnel.go:124-140 | once both connections are cut, every run has at most 15 steps of the relay (for a stream plus three per buffered byte), wherever it stops the relay has returned, can continue without a peer, or waits for the client of a stream, and nothing new is owed to that client |
| `Relay.CutStopsFlow` | internal/tunnel/tunnel.go:123-139 | once a side is cut nothing new is read from it, and a direction towards it either fails or had everything written before |
| `Relay.UncutStillFlows` | internal/tunnel/tunnel.go:123-139 | a connection that is not cut yet can still deliver what is unread and take what is written |
| `ConnectResponse.Reader.ReadLimitedLine` | internal/proxy/upstream.go:86-106 | a terminated line is returned whole, for any buffer size and arrival, iff its length + 2 fits the budget |
| `ConnectResponse.Reader.ReadConnectResponse` | internal/proxy/upstream.go:58-84 | success, code and the unread rest depend on the bytes alone, and so does the reason of a failure unless a line is unterminated |
| `ConnectResponse.Reader.Read` | internal/tunnel/tunnel.go:95-109 | hands out the pending bytes in order, none lost |
| `ConnectResponse.Reader.ConnectThenReadAll` | internal/proxy/upstream.go:191-216 | whatever the read sizes, the tunnel receives exactly the bytes after the blank line |
| `ConnectResponse.ParseIff` | internal/proxy/upstream.go:58-84 | accepted iff the status line is valid, a newline-terminated blank line follows, and the lines are charged at most 65536 |
| `ConnectResponse.ParseResult` | internal/proxy/upstream.go:93-98 | then the code is that of the status line, the rest starts after the blank line, and no more was consumed than charged |
| `ConnectResponse.StatusCodeIff` | internal/proxy/upstream.go:66-73 | a code is found in exactly the lines with a first word that starts with HTTP/ and a second word whose number lies between 100 and 999, and it is that number |
| `ConnectResponse.StatusLineOfCode` | internal/proxy/upstream.go:66-73 | every regular status line, a version, a space, three digits and a reason, gives the code that was printed |
| `ConnectResponse.TooLargeIff` | internal/proxy/upstream.go:86-100 | the response is found too large iff some terminated line takes the charge beyond 65536 before a blank line ends the headers, and the status line is that line or is valid |
| `UpstreamRequest.ConnectRequestReadsBack` | internal/proxy/upstream.go:231-245 | the request reads back as its start line, Host, Via and credentials lines and a blank line, whatever bytes the credentials hold |
| `UpstreamRequest.ConnectRequestMeans` | internal/proxy/upstream.go:231-245 | from the bytes the next proxy reads the target in the start line and Host, the Via value if there is one, and the credentials, if there are any, as user and password; the only blank line is the last |
| `UpstreamRequest.WriteAll` | internal/proxy/upstream.go:247-259 | success means all data was written in order, failure a prefix of it |
| `UpstreamSetup.SetupRaceSafe` | internal/proxy/upstream.go:146-216 | in every interleaving a returned connection is open, answered 200, has no deadline and can never be interrupted later, and a failed setup closed its connection |
| `UpstreamSetup.SetupFollowsScript` | internal/proxy/upstream.go:151-216 | a setup that returns a connection took exactly the steps of the source, each once and in order, with the TLS handshake before anything is sent iff the upstream is https; one that fails went that way up to a failing step and then closed the connection |
| `UpstreamSetup.SetupHasDeadline` | internal/proxy/upstream.go:151-163 | from the first step to the check of the code the connection has a deadline, the interrupt moves it into the past at most once, and a returned setup has released its context |
| `UpstreamSetup.SetupNeedsItsContext` | internal/proxy/upstream.go:160-207 | a setup whose context is over, or ends before the interrupt was stopped, returns no connection |
| `UpstreamSetup.ContextCutsIn` | internal/proxy/upstream.go:160-163 | while the interrupt is registered, the end of the context can always move the deadline into the past |
| `UpstreamSetup.EndedContextFails` | internal/proxy/upstream.go:200-207 | once the interrupt has started before it was stopped, the setup cannot succeed |
| `UpstreamSetup.OnTrackCanSucceed` | internal/proxy/upstream.go:151-216 | from every state in which nothing went wrong yet the setup can still succeed |
| `DestinationPolicy.CheckDestinationIP` | internal/proxy/acl.go:174-185 | the classification and the loop over reserved prefixes compute `Allowed` |
| `DestinationPolicy.AllowedIff` | internal/proxy/acl.go:18-28 | an address is refused iff it, unmapped, lies in one of the listed address ranges |
| `DestinationPolicy.UnmapMeans` | internal/proxy/acl.go:174-176 | an IPv4 address in its IPv6 form counts as that IPv4 address, any other is left as it is |
| `DestinationPolicy.ApproveAnswers` | internal/proxy/acl.go:114-127 | one refused answer denies the destination, otherwise the distinct unmapped answers are approved |
| `DestinationPolicy.DistinctOrder` | internal/proxy/acl.go:115-126 | the approved list holds every answer once, in the order of first occurrence |
| `DestinationPolicy.DialApproved` | internal/proxy/acl.go:154-172 | addresses are tried in order, the connection is the first that answers, and only a context that is over ends the loop early |
| `DestinationPolicy.ApprovedIsSafe` | internal/proxy/acl.go:77-128 | with private destinations disallowed an approval is a nonempty list of allowed IP literals for the requested, unblocked port |
| `DestinationPolicy.ApprovedIff` | internal/proxy/acl.go:77-128 | a destination is approved iff it is well formed, its port is not blocked and, unless private ones are allowed, it is not localhost and stands for at least one address and no refused one; it is then dialed as written, or at each of its distinct addresses |
| `DestinationPolicy.LocalhostInAnyForm` | internal/proxy/acl.go:93-96 | localhost and every name under it are refused in any letter case, with or without a final dot |
| `DestinationPolicy.LocalhostInAnyCase` | internal/proxy/acl.go:93-96 | any letter case of localhost is normalised to it |
| `DestinationPolicy.OnlySafeAddressesDialed` | internal/proxy/server.go:98-103 | whatever the resolver answers on each call, no path hands the dialer anything but an allowed IP literal with an unblocked port |
| `DestinationPolicy.TransportUsesApproval` | internal/proxy/acl.go:43-52 | a transport that dials the approved host and port uses the addresses approved then, whatever the resolver answers now; another host or port is approved anew; a refused request dials nothing |
| `Headers.RemoveHopByHopHeaders` | internal/proxy/server.go:163-174 | leaves exactly the fields that are neither in the static list nor named by an original Connection value, with their values |
| `Headers.HopByHopIff` | internal/proxy/server.go:21-31 | a name is filtered as hop-by-hop iff it is, in any letter case, one of the nine listed ones |
| `Headers.ListedIff` | internal/proxy/server.go:164-170 | the Connection values list a field iff one of their trimmed, nonblank entries is its name |
| `Headers.CanonForm` | internal/proxy/server.go:164-173 | names are compared in canonical form: each part of a token starts with a capital and goes on in lower case, other names are left alone |
| `Headers.AddedValues` | internal/proxy/headers.go:60-62 | adding a value extends the field of that name, in any letter case, and no other |
| `Headers.EndToEndIdempotent` | internal/proxy/server.go:163-174 | filtering twice is filtering once, also when Connection names itself |
| `Headers.RemovePrivacyHeaders` | internal/proxy/headers.go:37-45 | leaves exactly the fields without a private name |
| `Headers.PrivateIff` | internal/proxy/headers.go:13-45 | a name is filtered as private iff it is, in any letter case, one of the listed ones or starts with x-forwarded- |
| `Headers.FiltersCommute` | internal/proxy/headers.go:13-45 | hop-by-hop and privacy filtering commute |
| `Headers.JoinKeepsEntries` | internal/proxy/headers.go:71-71 | joining the values of a field keeps its list entries and their order |
| `Headers.ForwardedVia` | internal/proxy/headers.go:60-72 | the header is unchanged and the result lists the surviving Via entries followed by the proxy's own, of the request's protocol version |
| `Headers.SurvivingViaIs` | internal/proxy/headers.go:64-71 | the surviving chain is what the hop-by-hop filter leaves of the Via field |
| `Headers.ViaEntryReadsBack` | internal/proxy/headers.go:60-62 | the proxy's entry is one list entry from which the version numbers and the pseudonym are read back |
| `Trailers.CopyFields` | internal/proxy/headers.go:85-91 | every value is appended under its (prefixed) name, nothing else changes |
| `Trailers.AnnounceTrailers` | internal/proxy/headers.go:93-105 | all names are listed once each and counted |
| `Trailers.CopyTrailers` | internal/proxy/headers.go:107-118 | values go under their own names when the counts agree and under the trailer prefix otherwise |
| `Trailers.TrailersArriveIff` | internal/proxy/headers.go:107-118 | the trailers arrive completely iff the counts differ or every trailer with values was announced |
| `Trailers.TrailersConserved` | internal/proxy/server.go:236-267 | if reading the body only adds names, the delivered trailers are exactly the final ones, also with privacy filtering |
| `Trailers.SwappedTrailerIsLost` | internal/proxy/headers.go:108-111 | a trailer that takes the place of an announced one is not delivered |
| `CertificateCache.CertificateReloader.GetCertificate` | internal/proxy/certificate.go:43-66 | cache state and served pair are those of one `Get` |
| `CertificateCache.ServesLastValid` | internal/proxy/certificate.go:28-66 | the served pair is the most recent valid one among the snapshots taken by the loads |
| `CertificateCache.LastLoadIsRecent` | internal/proxy/certificate.go:47-51 | at every handshake the last look at the disk is less than one interval old |
| `CertificateCache.LoadsAreSpaced` | internal/proxy/certificate.go:47-53 | n loads after the first one span at least n intervals |
| `CertificateCache.NewPairWithinInterval` | internal/proxy/certificate.go:43-66 | a pair that stays on disk is served at the latest one interval after it was put there |

## Left out

- YAML decoding, environment overrides, listen address and URL checks of the configuration: they fill the fields; the results start from the validated numeric limits, and the other fields are parameters of the modules that use them.
- TLS handshakes, X.509 parsing, SHA-256 and constant-time comparison: hashes and fingerprints are injective functions, loading a certificate gives an arbitrary pair or an error.
- `http.Transport`, `http.Server`, HTTP/2 framing, DNS: they appear only as arbitrary steps or answers. `server.Close` after a failed `Shutdown` is one way in which the relay of an HTTP/2 client that takes no data ends (`RelayEnds`).
- Logging, redaction, status texts and error messages: no result speaks about them.
- `net.SplitHostPort`, `netip` text parsing and zones: destinations are given split and parsed, addresses without zone.
- The request half of `handleHTTP` (URL rewriting, TE, request trailers) and `upstreamErrorStatus`: the response trailers, the header filters and the dialing paths are stated for any request headers and any URL, so they do not depend on how the forwarded request was built.
- The nil failure limiter of non-positive settings: a validated configuration never builds it.
- 64-bit range of durations and counters: integers are unbounded.
- `io.CopyBuffer` and the buffer pools: a copy is a sequence of reads and writes of arbitrary sizes.
- ConnectResponse.Reader.ReadConnectResponse: in front of an unterminated line the reason of the failure is not stated, because whether the code reports the early end or too many bytes depends on the buffer size.
- DestinationPolicy.Approve: lower-casing is ASCII only, where Go folds all of Unicode.
- Headers.RemovePrivacyHeaders: lower-casing is ASCII only; header names are ASCII tokens in net/http.
- Trailers.TrailersConserved: net/http's own refusal of certain trailer names is not modelled.
