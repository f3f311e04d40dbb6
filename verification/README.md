# traefik-cert, modelled in Dafny

traefik-cert hands out TLS certificates that Traefik obtained from an ACME
provider to the services that need them. The project models its four
cooperating parts:

- **The server's HTTP handlers** (`server/server.go`). `/cert/<domain>`
  hands the certificate and key of a domain from Traefik's ACME state file
  to a caller. The caller must present a bearer token that verifies and
  lists that domain. `/` greets only the root path. `/healthz` is meant to
  report the health flag, but as the server is wired it never answers
  (see below).
- **The client** (`client/client.go`). It fills in missing arguments from
  the environment, applies the scheme rules to the server URL, asks for
  `<base>/cert/<domain>` and turns a non-200 answer into an error whose
  text is the body.
- **The `getcert` command** (`cmd/getcert.go`). It checks its settings and
  fetches the material. It writes each piece to its file, or prints it
  when no file is named. Then it hands both files to the owner named by
  the `user[:group]` flag.
- **The `exec` supervisor** (`cmd/exec.go`). It has three parts:
  - the acquisition policy `getValidCert`: fetch once, then parse and check
    the validity window, with a bounded number of retries;
  - the watcher, which sleeps until expiry or for at most a day,
    re-acquires the certificate, and asks for a restart when its signature
    changed;
  - the restart loop, which runs the child command with the `JWT=` entries
    filtered out of its environment, and starts it again after each
    requested restart.

Every foreign call becomes a parameter of the function that makes it:

| foreign call | parameter |
|---|---|
| token verification | `verify` |
| reading and decoding the ACME file | `acme` |
| base64 decoding | `decode` |
| the HTTP round trip | `send` |
| JSON decoding on the client | `decode` |
| file writes and chowns | `io` |
| user and group lookups | `users`, `groups` |
| fetching the certificate file | `fetch` |
| parsing the certificate file on attempt *k* | `parse(k)` |
| the clock on attempt *k* | `clock(k)` |

Time is an integer number of nanoseconds. Go's `Duration` is modelled as a
signed 64-bit range, and `Sub` saturates to that range as Go's does. The
restart loop is a state machine driven by a trace of events: a restart
requested by the watcher, or a child exit. Go's `strconv.ParseInt` is
modelled with the value it returns alongside an error (`Strconv`). The
code relies on that value, as described below.

Files:

- `base.dfy`: wrappers, bytes, `strings` helpers and durations.
- `strconv.dfy`: `ParseInt` and a decimal printer.
- `types.dfy`: the shared records.
- `retry.dfy`, `watcher.dfy`, `supervisor.dfy`: `cmd/exec.go`.
- `server.dfy`, `client.dfy`, `getcert.dfy`: the files of the same names.
- `protocol.dfy`: how the client and server fit together.

### Behaviour of the code as written

Where a description of the program and its code disagree, the model
follows the code.

- **Ids are signed 10-bit.** `getcert` parses owner and group ids with
  `strconv.ParseInt(…, 10, 10)`, so only ids in -512..511 parse.
  - A user found by name whose uid is 1000 is refused with a range error
    (`Getcert.LookedUpUidAbove511Refused`).
  - The default group's parse error is never checked
    (`cmd/getcert.go:175`). A default gid of 1000 therefore becomes 511, the
    value `ParseInt` returns beside its range error
    (`Getcert.DefaultGidAbove511Clamped`).
- **A numeric owner with an empty group panics.** Take `owner` of the form
  `<number>:`. The user is never looked up, so reading the default group
  dereferences a nil pointer. The model reports that as the error
  `NilOwner`, after the uid changes (`Getcert.NumericOwnerEmptyGroupPanics`).
- **base64 decoding errors are ignored by the server.** `DecodeString`
  returns a non-nil slice even for bad input. So "Domain not found" is
  answered exactly when no entry names the domain, and a bad entry is
  served as whatever decoding produced.
- **`cmd/getcert.go:112` does not type-check as written.** It compares
  `cert`, a byte slice, with the string constant `""`, and Go rejects that
  as mismatched types. The model reads the line as "the certificate is
  empty".
- **A child that fails to start is not fatal.** Its error is the run's
  error like any exit status. The loop restarts it if a restart was
  requested, and otherwise returns that error.
- **The token reaches the child when it is the only entry.** The filter
  loop (`cmd/exec.go:141-146`) appends to `child.Env`, which starts nil.
  When every entry of the environment starts with `JWT=`, nothing is
  appended and `Env` stays nil. `os/exec` then gives the child the
  supervisor's own environment, token included.
  - `Supervisor.TokenReachesChildWhenAlone` proves this.
  - `Supervisor.Spawn` therefore promises that the token is withheld only
    while some other entry exists.
  - `Supervisor.SpawnIsolated` is the evidently intended spawn: `Env`
    starts as an empty, non-nil list. For it, no `JWT=` entry ever reaches
    the child, and every other name still does.
  - `Supervisor.SpawnsAgreeWithOtherEntries` shows the two spawns differ
    only in the all-token case.
  - The restart loop uses `Spawn`, as written.
- **The environment the child receives has no duplicate names.** `os/exec`
  keeps, for every name, the last entry that sets it (`Supervisor.Dedup`).
- **`/healthz` never answers.** `Serve` registers `healthz(s.healthy)`
  (`server/server.go:51`) before it allocates the flag (`:81`). The
  handler therefore holds a nil pointer, and `atomic.LoadInt32` panics on
  every request. The HTTP server recovers and drops the connection.
  `Server.Healthz` takes the pointer as an option: it answers 204 or 503
  for a real flag and nothing for nil.
- **`exec` with no command panics.** The command declares no argument
  check. With an empty command line it acquires the certificate, starts
  the watcher, and then panics on `args[0]` (`cmd/exec.go:140`). The model
  ends in the `Crashed` state.
- **Only attempt 0 re-fetches.** `getValidCert` fetches on attempt 0 only.
  Attempts 1 and 2 re-parse the same file.

## Model

| member | source | states |
|---|---|---|
| Retry.GetValidCert | cmd/exec.go:163-188 | Past attempt 2 the result is "Too many tries", with nothing fetched or parsed. The fetch happens on attempt 0 only, and its failure is returned at once. From attempt 0 there are at most four invocations, each of which parses except one that stopped at the ceiling or the fetch. A returned certificate was parsed on some attempt within the budget and was inside its validity window at that attempt's clock. "Cert too new" is returned only when some attempt saw a certificate not yet valid. |
| Retry.FirstSettledDecides | cmd/exec.go:174-187 | The first attempt that reads a certificate that is either too new or not expired decides the result. A too-new certificate fails with "Cert too new" and any other is returned. |
| Retry.NothingSettlesExhaustsTries | cmd/exec.go:165-185 | When every attempt up to the ceiling is unreadable or expired, the result is "Too many tries". An expired certificate is never handed out. |
| Retry.ValidFirstTry | cmd/exec.go:167-187 | A certificate that is valid on attempt 0 is returned after exactly one fetch and one parse. |
| Retry.TooNewIsFatal | cmd/exec.go:179-181 | A certificate that is not yet valid fails the acquisition immediately, whatever retry budget is left. |
| Retry.AcquireLoop | cmd/exec.go:163-188 | The policy written as a bounded loop returns the recursive policy's result after the same number of parses, at most three. |
| Watcher.WatchCycle | cmd/exec.go:112-134 | The sleep is the smaller of the time left and 24 hours. The watcher stops exactly when re-acquisition fails. It requests a restart exactly when the sleep was not clamped and the new certificate's signature differs from the old one. |
| Watcher.Watch | cmd/exec.go:111-136 | One cycle per observation, at most. No cycle follows a stop, and the loop ends before the observations run out only on a stop. |
| Watcher.WatchFollowsCycles | cmd/exec.go:114-134 | Each cycle of the loop decides with the certificate that the previous cycle acquired. |
| Watcher.SameSignatureNeverRestarts | cmd/exec.go:128-130 | Renewals that keep the signature never restart the child, however many there are. |
| Watcher.ClampedCycleKeepsChild | cmd/exec.go:117-120 | When more than a day is left, the watcher sleeps exactly one day and does not restart the child. |
| Watcher.ExactlyOneDayIsNotClamped | cmd/exec.go:117 | With exactly 24 hours left the sleep is not clamped, so a changed signature restarts the child. |
| Watcher.OneRestartPerChange | cmd/exec.go:112-135 | The number of restart requests equals the number of cycles that reached real expiry and saw a new signature. |
| Supervisor.Sanitise | cmd/exec.go:141-146 | The loop appends exactly the supervisor's entries that do not start with `JWT=`, and no more entries than the original has. |
| Supervisor.SanitiseAppend | cmd/exec.go:141-146 | Filtering commutes with concatenation, so the kept entries stay in their original order. |
| Supervisor.SanitiseKeepsClean | cmd/exec.go:141-146 | An environment with no `JWT=` entry is passed on unchanged, so filtering is idempotent. |
| Supervisor.EnvField | cmd/exec.go:140-146 | The `Env` field stays nil exactly when every entry is a `JWT=` entry. Otherwise it holds the filtered, non-empty list. |
| Supervisor.ChildEnv | cmd/exec.go:140-146 | The append loop, starting from a nil field, leaves exactly that field, and no entry of a set field starts with `JWT=`. |
| Supervisor.Dedup | cmd/exec.go:151 | The environment a started process receives holds only entries of the list it was given, and never more of them. |
| Supervisor.DedupKeysUnique | cmd/exec.go:151 | After duplicate removal no name is set twice. |
| Supervisor.DedupKeepsEveryName | cmd/exec.go:151 | Every name the list sets is still set after duplicate removal. |
| Supervisor.Spawn | cmd/exec.go:140-146 | The child runs `args[0]` with the remaining arguments, in order. `Env` is the field the loop leaves. No `JWT=` entry reaches the process as long as the supervisor's environment has some other entry. |
| Supervisor.TokenReachesChildWhenAlone | cmd/exec.go:140-151 | When every entry starts with `JWT=`, `Env` stays nil and the child inherits a `JWT=` entry. |
| Supervisor.SpawnIsolated | cmd/exec.go:140-146 | With the field started as an empty list, no `JWT=` entry ever reaches the child, and every other name still does. |
| Supervisor.SpawnsAgreeWithOtherEntries | cmd/exec.go:140-146 | As written and as intended, the spawn is the same whenever the environment has an entry other than a `JWT=` entry. |
| Supervisor.Start | cmd/exec.go:102-140 | A failed initial acquisition aborts with that error and starts nothing. After a successful one, an empty command line panics. Any other command line starts the first child, running that command line, with the restart flag clear. |
| Supervisor.Step | cmd/exec.go:131-157 | A restart request sets the flag. A child exit ends the loop exactly when the flag is clear, with that child's error. Otherwise the exit starts exactly one new child and clears the flag. Finished and aborted states never change. |
| Supervisor.AbortedSpawnsNothing | cmd/exec.go:102-105 | After an aborted start no event starts a child. |
| Supervisor.InitialFailureSpawnsNothing | cmd/exec.go:100-105 | When `getValidCert(0)` fails, the command returns that error and never starts a child. |
| Supervisor.SpawnsCountExits | cmd/exec.go:138-157 | While the loop runs, it has started one more child for each exit in the trace. |
| Supervisor.ResultIsLastRun | cmd/exec.go:151-159 | A finished loop returns the error of the exit that found the flag clear, and started no child after it. |
| Supervisor.RestartOncePerExit | cmd/exec.go:131-156 | Any number of restart requests during one child's run, followed by its exit, start exactly one new child, with the flag clear. |
| Server.Index | server/server.go:92-103 | The answer is 404 exactly for a path other than `/` and 200 exactly for `/`, always as plain text. |
| Server.Healthz | server/server.go:190-198 | A nil flag pointer gives no answer. A real flag gives 204 exactly when it is 1 and 503 otherwise, with no body. |
| Server.RegisteredHealthzNeverAnswers | server/server.go:51-82 | The handler is built before the flag is allocated, so as the server is wired `/healthz` never answers, while a handler holding a real flag would. |
| Server.IfExists | server/server.go:105-112 | The scan finds the needle exactly when it is an element of the haystack. |
| Server.FirstEntry | server/server.go:163-169 | The scan picks the first ACME entry whose main domain matches, and finds none exactly when no entry matches. |
| Server.GetCert | server/server.go:114-188 | The answer is 200 exactly when every check passes, the ACME file loads and an entry names the domain. It is then the JSON of the first such entry, decoded. A request that fails a check gets 400 or 401, and one that passes every check gets neither. |
| Server.CheckOrder | server/server.go:117-174 | The checks run in the order path, header present, `Bearer ` form, token verifies, domain listed, domain in the file. Each failure gives its own message and status, whatever comes later. |
| Server.VerifiesBearerToken | server/server.go:131-138 | Verification sees exactly the header without its `Bearer ` prefix: two verifiers that agree on that token give the same response. |
| Server.FirstMatchServed | server/server.go:162-186 | When several entries name the domain, the earliest one is served. |
| Client.Fallback | client/client.go:36-57 | An empty argument is replaced by its environment variable, and a non-empty one is kept. |
| Client.BaseUrl | client/client.go:58-72 | Outside development mode an `http://` URL is refused, and every accepted URL starts with `https://`. In development mode every URL is accepted and starts with `http://`. The scheme is only ever prepended, and only when absent. |
| Client.BaseUrlIdempotent | client/client.go:58-72 | Applying the scheme rules to their own result changes nothing. |
| Client.PrepareRequest | client/client.go:36-82 | The arguments are checked in the order url, domain, jwt, after the fallback. With all three present the scheme rule is the only possible refusal. The request goes to `<base>/cert/<domain>` with `Authorization: Bearer <jwt>`. |
| Client.GetCert | client/client.go:33-110 | A refused argument fails before anything is sent. Any status other than 200 is an error whose text is the body. A result is only ever the decoding of a 200 body. |
| Protocol.ServerReadsClientRequest | client/client.go:78-82 | The server's path and header parsing recovers exactly the domain and token the client used, both non-empty. |
| Protocol.ClientRequestServed | server/server.go:114-174 | A request the client builds succeeds at the server exactly when its token verifies, lists the domain, and the ACME file names it. |
| Getcert.MissingSetting | cmd/getcert.go:88-101 | The settings are checked in the order domain, jwt, url, and the first missing one is reported. |
| Getcert.Deliver | cmd/getcert.go:116-132 | Material is printed exactly when no file path is set, and is otherwise written to that path. |
| Getcert.Perform | cmd/getcert.go:116-132 | The effects are attempted in order and stop at the first that fails, whose reason becomes the command's error. Without a failure every effect is attempted. |
| Getcert.ResolveUid | cmd/getcert.go:146-156 | An owner that parses as a 10-bit id is the uid, and nothing is looked up. Otherwise the uid comes from the looked-up account and must itself parse. |
| Getcert.ResolveGid | cmd/getcert.go:172-188 | An empty group means the looked-up user's default group, taken unchecked, or a nil dereference when no user was looked up. A group that parses is the gid. Otherwise the gid comes from the group lookup and must parse. |
| Getcert.Ownership | cmd/getcert.go:139-199 | More than one colon is refused before anything is changed. Only the certificate and key files change hands. The group is changed only when the flag has a group part. |
| Getcert.Getcert | cmd/getcert.go:87-200 | A missing setting, a fetch error or an empty certificate fails before anything is written. Anything done starts with delivering the certificate, then the key. Ownership changes only when an owner is named. |
| Getcert.NoOwnerNoChown | cmd/getcert.go:134-137 | With no owner flag, delivering both pieces is the whole run, and it succeeds. |
| Getcert.TwoColonsRefused | cmd/getcert.go:141-144 | An owner flag with two colons is refused after delivery and before any lookup or ownership change. |
| Getcert.NumericOwnerSkipsLookup | cmd/getcert.go:146-156 | A numeric owner within range is used as the uid, whatever the user database says. |
| Getcert.OwnerOnlyKeepsGroup | cmd/getcert.go:158-170 | An owner flag without a colon changes only the two uids and leaves the group alone. |
| Getcert.NumericOwnerEmptyGroupPanics | cmd/getcert.go:172-175 | A numeric owner followed by an empty group dereferences the owner that was never looked up. |
| Getcert.LookedUpUidAbove511Refused | cmd/getcert.go:148-155 | A user found by name whose uid is 1000 is refused with a range error, because ids are 10-bit. |
| Getcert.DefaultGidAbove511Clamped | cmd/getcert.go:174-175 | A default gid of 1000 becomes 511, because the parse error beside it is not checked. |
| Strconv.ScanUint | cmd/getcert.go:146 | An unsigned decimal parses without error exactly when it is all digits and within the limit, and then to its value. The value returned beside an error is 0 for bad syntax and the limit when out of range. |
| Strconv.ParseInt | cmd/getcert.go:146 | A signed decimal parses without error exactly when it is well formed and within the signed range, and then to its value. The value returned beside an error is 0 for bad syntax, and the nearest bound when out of range. |
| Strconv.ParseFormatRoundTrip | cmd/getcert.go:146 | Every id within the signed range, printed in decimal, parses back to itself without error. |
| Base.Split | cmd/getcert.go:141 | Splitting on one character gives one more part than there are separators, and no part contains the separator. |
| Base.JoinSplit | cmd/getcert.go:141 | Joining the parts of a split with the same separator gives the original flag back. |

## Left out

- Concurrency is not modelled. The watcher goroutine and the restart loop
  share `cert`, `err`, `child` and `restartChild` without synchronisation.
  The model interleaves them as a trace of events, so data races are not
  represented.
- Sleeping, logging and the one-second pause before the first child starts
  (`cmd/exec.go:137`) have no observable effect on the modelled state, and
  are left out.
- Sending SIGTERM, starting the process and the child's stdio are not
  modelled. A spawn is the `Command` value. How the run ends is an event
  carrying `Clean`, an exit status, or a start failure.
- `os.Environ()` is read again on each spawn. The model takes one
  environment for the whole run.
- Reading and parsing the PEM file (`parseCertFile`) and X.509 are not
  modelled: `parse(k)` gives what attempt *k* read. `mkCert` is commented
  out in the source.
- Each attempt of `getValidCert` reads the clock twice, for "too new" and
  "expired". The model reads `clock(k)` once per attempt.
- In the server, `jwt.Verify`, reading the ACME file, JSON decoding and
  base64 decoding are oracles.
- The `json.Marshal` failure branch (`server/server.go:176-181`) is not
  modelled. Marshalling two byte slices cannot fail.
- Response headers other than the content type (`X-Content-Type-Options`)
  are not modelled.
- The server's lifecycle is not modelled: listener, routing, graceful
  shutdown, the logging middleware and the health flag's atomic updates.
  The same goes for `cmd/serve.go` and the cobra/viper flag wiring of
  every command.
- In the client, building the request, `Do` and reading the body are
  collapsed into one `send` oracle. Their three error paths become
  `Transport`.
- `Protocol.ServerReadsClientRequest` assumes the server URL has no path
  of its own, so that the server sees `/cert/<domain>`. URL parsing is not
  modelled.
- File writes, chowns and account lookups are oracles. Printing is taken
  never to fail.
- The fetch in `getValidCert` is `getcertFunc`. The retry model takes only
  whether it failed (`fetch`) rather than composing with `Getcert.Getcert`.
- Supervisor.Dedup: the Windows rules of `os/exec` are not modelled. Those
  are case-insensitive names and names that start with `=`. A name is
  taken to be the text before the first `=`.
- Supervisor.Spawn: requires a non-empty command line. `Supervisor.Start`
  models the empty case as the `args[0]` panic, the `Crashed` state.
- Strconv.ParseInt: base 10 only, and bit sizes 2 to 64. A bit size of 1
  behaves specially in Go, and the program never uses it.
- The fields of the ACME file that the server never reads are not
  modelled: the account, and challenge data.
