# slip: the Caddy reconciler, certificate renewal and the app lifecycle

slip deploys applications behind a Caddy server that other administrators may
edit too. This project models the parts of slip whose correctness depends on the
order in which things happen, or on an encoding, and proves what they promise.

- **TLS policies** (`CaddyServer`, `TlsUpsert`, `ForeignPolicies`,
  `Convergence`). The admin endpoint is an object that answers one request at a
  time; each request is delivered, refused or lost. An upsert is a program counter
  with a stale reading. The imperative methods are proved equal to that machine,
  and the machine is interleaved with other clients and other administrators.
- **Renewal** (`Renewal`, `Restoration`, `RenewalOutcome`, `SharedCaddy`, `Settling`, `Reachable`,
  `ReloadWindows`, `UpsertAndRenewal`, `Neighbours`). The cycle bumps `renewal_window_ratio`,
  reloads, polls, restores and verifies, under every schedule of failures; then
  many cycles and upserts, of the renewed hosts' own policies too, run against one
  server under per-host locks, with and without writes inside the window of a
  reload, and beside other administrators.
- **Routes, identifiers, bootstrap** (`Names`, `Sublists`, `Routes`,
  `Bootstrap`).
- **Application lifecycle** (`AppLifecycle`, `AppResults`, `AppHandlers`): create, update,
  delete, secrets writes, deploys and rollbacks under one lock per application.
- **Pure functions and client loops** (`Clocks`, `CertTime`, `Redaction`, `Durations`,
  `DeployWait`).

`dafny verify dfyconfig.toml` checks the whole project.

## What the model takes as given

- `PATCH /id/<id>` with a whole policy replaces the element; with only
  `renewal_window_ratio` in it, it merges that field. These are two requests.
- A refused or lost request has no effect. Every unsuccessful status of a read of
  the policies counts as "no policies", as in the code.
- Deleting a ratio that is absent succeeds; an unknown identifier or index fails.
- `reload` is two requests, a read and a load of what was read. A run has clear
  windows when every load delivers what is still current. The results over whole
  runs are stated for such runs and for all runs, with the exact condition for
  each (`ReloadWindows`, `UpsertAndRenewal`, `Neighbours`).
- A run starts with no renewal under way, and each host that may be renewed has a
  first covering policy of its own that its identifier names, if it names any; what
  happens to a host without that is `Restoration.HonestExactlyWhen`.
- Handlers run to their end; only the renewal task and the deploy task are
  detached. A configuration file is replaced atomically, by a rename
  (`crates/slip-core/src/config.rs:1412-1440`).
- Clocks are monotone and otherwise arbitrary. Answers, probes, the restart and the
  file system are arbitrary inputs.

## Where the code does not do what one would expect

Each is a proved lemma; the code is modelled as it is.

- An upsert whose *read* is refused takes the array for empty and may append a
  second policy with its own identifier (`Convergence.RefusedReadAppends`,
  `Convergence.DuplicatesOnlyAfterRefusedRead`).
- `set_routes` answers any refused `PATCH` with a `POST`, so a route whose `PATCH` is
  refused while it is there ends up twice, and removing the routes once leaves one
  behind (`Routes.SetRoutesMeaning`, `Routes.RouteTableRoundTrip`).
- A bootstrap whose read is refused loads a configuration that holds nothing but
  the slip server (`Bootstrap.RefusedReadLoadsOnlySlip`); and a non-empty array on
  the way to the server block is lost (`Bootstrap.BootstrapFrame`).
  `Bootstrap.BootstrapFrameExactlyWhen` has both.
- The ratio writes address the policy that carries the host's identifier, the
  capture and the verification the first one that covers the host. When these are
  different policies the cycle can report success and leave a policy changed;
  `Restoration.HonestExactlyWhen` gives the exact condition. Slip gets there by
  itself, by upserting `*.r` and then a host under it
  (`UpsertAndRenewal.MisalignedByItself`).
- A reload can undo another host's verified restoration
  (`ReloadWindows.StaleReloadUndoesARestore`), and an upsert can append a policy
  with the host's identifier under a running renewal, whose restore then goes there
  (`ReloadWindows.StrayRun`). `ReloadWindows.SettledExactlyWhen` and
  `ReloadWindows.RestoredExactlyWhen` give the exact conditions. A certificate
  manager does not help, because a refused check counts as "not managed"
  (`ReloadWindows.ManagersAreNoProtection`).
- An upsert of a policy that is being renewed, which every reconcile tick may send,
  need not take hold. The renewal's own reload can undo all of it, although both
  report success (`UpsertAndRenewal.UpsertLostInWindow`), and with clear windows the
  restore still overwrites its ratio (`UpsertAndRenewal.UpsertWhileRenewing`). It
  can be relied on exactly when it had nothing to change and the policy is always
  restored (`UpsertAndRenewal.TakesHoldExactlyWhen`); for one host with its own
  upsert that is, exactly when it had nothing to change
  (`UpsertAndRenewal.OwnUpsertTakesHoldExactlyWhen`).
- A reload can drop a policy that another upsert appended and reported
  (`UpsertAndRenewal.ThereExactlyWhen`), or what another administrator wrote in its
  window (`Neighbours.StaleReloadDropsForeign`).
- A renewal never ends in `NotProven`: a polling loop that proves nothing has timed
  out (`Renewal.RunRenewalCycle`).
- `*.r` and `star.r` share a TLS identifier (`Names.TlsIdCollisions`), and the route
  `slip-tls-0` is the TLS identifier of the dotless subject `0`
  (`Names.DotlessSubjectCollides`).
- Trailing digits without a unit are accepted when they are worth zero
  (`Durations.ZeroNeedsNoUnit`), although a unit is documented as required.
- An empty first deploy status is not printed as a change
  (`DeployWait.EmittedExactlyWhen`).

## Model

| member | source | states |
|---|---|---|
| Names.DecimalRoundTrip | crates/slip-core/src/caddy.rs:914 | a printed index reads back as itself |
| Names.RouteIdDecodes | crates/slip-core/src/caddy.rs:914 | splitting `slip-{app}-{i}` at its last hyphen gives back app and index, for every app name and natural index |
| Names.DecodeInverts | crates/slip-core/src/caddy.rs:974 | whatever decodes to (app, i) is the identifier of (app, i) |
| Names.RouteIdInjective | crates/slip-core/src/caddy.rs:914 | two route identifiers are equal exactly when app and index are |
| Names.RouteIdIsNotTheWebhook | crates/slip-core/src/caddy.rs:622 | no route identifier is the deploy webhook's |
| Names.TlsIdCollisions | crates/slip-core/src/caddy.rs:1512-1525 | two distinct host subjects share a TLS identifier if and only if they are `*.r` and `star.r` |
| Names.RouteIdMeetsTlsId | crates/slip-core/src/caddy.rs:1512-1525 | a route identifier is a TLS identifier if and only if the app is `tls` and the subject sanitizes to the index, or the app is `tls-x` and it sanitizes to `x-` and the index |
| Names.RouteIdIsNoDottedTlsId | crates/slip-core/src/api.rs:999-1022 | for a valid app name no route identifier is the TLS identifier of a subject with a dot |
| Names.DotlessSubjectCollides | crates/slip-core/src/caddy.rs:1512-1525 | without the dot the two families do meet |
| Names.PreviewScanIsExact | crates/slip-core/src/api.rs:3380-3386 | the prefix scan of a preview teardown finds the app's own keys and no other app's |
| Names.ValidAppNameMeaning | crates/slip-core/src/api.rs:999-1022 | the rule for names in numbers: length 1 to 63, the ASCII codes allowed, no hyphen at either end |
| Names.SanitizeCharwise | crates/slip-core/src/caddy.rs:1512-1525 | a subject without an asterisk keeps its letters, digits, hyphens and dots, by ASCII code, and every other character becomes a hyphen |
| Names.TlsIdMeaning | crates/slip-core/src/caddy.rs:1512-1525 | the identifiers of a host name and of a wildcard, written out |
| CaddyServer.WildcardMatchMeaning | crates/slip-core/src/caddy.rs:1541-1553 | `*.s` matches exactly the domains that are something, a dot and `s` |
| CaddyServer.CoversMeaning | crates/slip-core/src/caddy.rs:1287-1295 | a policy covers a host if and only if it lists it, or lists a wildcard under which the host has at least one label more |
| CaddyServer.FirstCoverMeaning | crates/slip-core/src/caddy.rs:1280-1299 | a host goes by policy `i` if and only if that one lists it, so understood, and no earlier one does; and by none if and only if none does |
| CaddyServer.RatioWriteMeaning | crates/slip-core/src/caddy.rs:1320-1333 | the one-field write by identifier succeeds exactly when delivered and the identifier is there; only the first policy that carries it changes, only in its ratio, and writing the old ratio back undoes it; a failure changes nothing |
| TlsUpsert.StepTouchesOnlyItsOwn | crates/slip-core/src/caddy.rs:704-893 | any request of an upsert leaves the array alone, replaces one element that carries its own identifier, or appends one that does |
| TlsUpsert.UpsertTlsPolicy | crates/slip-core/src/caddy.rs:704-816 | the method, its scanning loop included, has the outcome, the final array and the number of requests of the step machine, under every schedule of failures |
| TlsUpsert.PatchTlsPolicyInPlace | crates/slip-core/src/caddy.rs:831-869 | the same for the replacement with its fall-back to appending on 404 |
| TlsUpsert.AppendTlsPolicy | crates/slip-core/src/caddy.rs:873-893 | the same for the append |
| ForeignPolicies.MeddlingCommutes | crates/slip-core/src/caddy.rs:704-816 | an edit by others, among slip's policies, does to their own policies what it would do alone |
| ForeignPolicies.StepKeepsForeign | crates/slip-core/src/caddy.rs:704-893 | no request of an upsert changes the sequence of foreign policies |
| ForeignPolicies.NonInterference | crates/slip-core/src/caddy.rs:704-893 | after any interleaving of any number of upserts with arbitrary foreign edits, the foreign policies are, in order, what the foreign edits alone would have made |
| ForeignPolicies.RecoversFromVanishing | crates/slip-core/src/caddy.rs:853-860 | an entry that vanished before its replacement is appended again, exactly when the array is still there |
| Convergence.UpsertAlone | crates/slip-core/src/caddy.rs:704-816 | an undisturbed upsert: conflict exactly when it owns nothing and a policy overlaps, else its body in place or at the end |
| Convergence.OwnIdMeaning | crates/slip-core/src/caddy.rs:709-711 | an upsert goes by the identifier of its first subject, or `slip-tls-unknown`, and writes its body with it |
| Convergence.ConflictsExactlyWhen | crates/slip-core/src/caddy.rs:739-796 | a conflict is reported if and only if no policy carries the identifier and some policy has a subject in common |
| Convergence.UpsertUnderAnyAnswers | crates/slip-core/src/caddy.rs:704-893 | under every schedule: exactly when an undisturbed upsert reports success and a conflict, what success leaves, and that nothing else changes a policy |
| Convergence.PassConverges | crates/slip-core/src/caddy.rs:704-893 | a pass over singleton policies with distinct identifiers leaves exactly one policy per identifier with the desired body; every earlier policy keeps its index, and the unwanted ones their content |
| Convergence.SecondPassWritesNothing | crates/slip-core/src/caddy.rs:764-768 | on the result of a pass, every upsert ends after its read, having written nothing |
| Convergence.RefusedReadAppends | crates/slip-core/src/caddy.rs:716-722 | with the read refused and the rest delivered the upsert reports success and has appended its policy, whether or not it was there |
| Convergence.DuplicatesOnlyAfterRefusedRead | crates/slip-core/src/caddy.rs:716-722 | how many policies carry the identifier after a successful upsert under any answers: one more than before exactly when there was none or the read was refused |
| CertTime.DaysBeforeYearClosedForm | crates/slip-core/src/caddy.rs:260-262 | the day count of a year summed year by year agrees with the closed Gregorian formula |
| CertTime.MonthsAre | crates/slip-core/src/caddy.rs:260-262 | the lengths of the months, written out, with the rule for February |
| CertTime.CivilOrder | crates/slip-core/src/caddy.rs:260-262 | calendar order is the order of the seconds, and equal seconds mean equal dates, leap years included |
| CertTime.CivilOf | crates/slip-core/src/caddy.rs:261 | every second of the years 0000 to 9999 has a valid civil date with that second count |
| CertTime.Rfc3339Order | crates/slip-core/src/caddy.rs:262 | the printed dates compare as strings as the dates do |
| CertTime.Rfc3339Reads | crates/slip-core/src/caddy.rs:262 | the text has the separators in their places, and its fields read back as year, month, day, hour, minute and second |
| CertTime.EpochIs | crates/slip-core/src/caddy.rs:261 | second 0 is the beginning of 1970, and the range of the years 0000 to 9999 in seconds |
| CertTime.NotAfterOrder | crates/slip-core/src/caddy.rs:256-263 | the `notAfter` texts compare as strings exactly as the epoch seconds do |
| CertTime.CertRenewedMeaning | crates/slip-core/src/caddy.rs:270-283 | a renewal is seen if and only if a certificate is served, and there was none, or another, or one whose expiry is earlier or could not be read |
| Renewal.PollForProof | crates/slip-core/src/api.rs:3004-3032 | under any monotone clock at most 24 probes; it stops at the first that proves the renewal, and otherwise two minutes have passed and it has timed out; all time but the lag of the clock is spent waiting five seconds before each probe |
| Renewal.PollTwice | crates/slip-core/src/api.rs:3004-3068 | the second loop runs only after an unproven first and a restart that worked; renewed exactly when some probe proved it |
| Renewal.WriteTlsPolicyRatio | crates/slip-core/src/caddy.rs:1320-1440 | the write by identifier with its fall-back by index takes the step machine from the one state to the other |
| Renewal.Reload | crates/slip-core/src/caddy.rs:1473-1505 | the same for a read followed by a load of what was read |
| Renewal.RestoreRatio | crates/slip-core/src/api.rs:3127-3147 | the same for the restore with its reload, whose failure is ignored |
| Renewal.VerifyRatioRestored | crates/slip-core/src/caddy.rs:1450-1466 | the same for the verification; an unreachable endpoint is not held against the restore |
| Renewal.RestoreAndVerify | crates/slip-core/src/api.rs:3070-3108 | the end of the cycle takes the machine to its conclusion or to a failed restoration |
| Renewal.RunRenewalCycle | crates/slip-core/src/api.rs:2970-3122 | the cycle's outcome and final configuration are the machine's under a verdict that says renewed exactly when some poll probe satisfied `cert_renewed` against the first probe; without such a probe the full polling time has passed; at most 49 probes, 25 without a restart; never `NotProven` |
| RenewalOutcome.CycleOutcomeExactly | crates/slip-core/src/api.rs:2970-3122 | under every schedule, for a host with an aligned policy: a failed bump, reload or restoration is reported exactly when those requests failed or the verification was refused; otherwise success exactly when the renewal was proved, and a time-out exactly when it was not and the time was up |
| RenewalOutcome.DeliveredCycleEnds | crates/slip-core/src/api.rs:2970-3122 | everything delivered, the cycle ends in success or, unproved, in a time-out, with the configuration as it was |
| RenewalOutcome.RequestOutcomeExactly | crates/slip-core/src/api.rs:2824-2865 | what precedes the cycle: managed exactly if the check was answered and the first covering policy lists a manager; else a failed query, no policy, or the cycle with the ratio of that policy |
| Renewal.StepDescends | crates/slip-core/src/api.rs:2970-3122 | every move brings a task nearer to its end |
| Restoration.StepInPhase | crates/slip-core/src/api.rs:2970-3147 | the invariant of a renewal: at each program counter the target's ratio is the original or 1 as the counter says, nothing else changes, and the target stays the first covering policy |
| Restoration.RestoredUnderEveryFailure | crates/slip-core/src/api.rs:2867-3147 | where the identifier names nothing or the first covering policy: for every schedule of failures the configuration ends exactly as it was, unless the outcome is a failed restoration or reload; then it differs at most in a ratio of 1 on the host's policy |
| Restoration.OverwritesById | crates/slip-core/src/caddy.rs:1320-1333 | with identifier and first cover apart, a cycle that meets no failure at all reports success and leaves a policy changed |
| Restoration.RestoresTheOther | crates/slip-core/src/caddy.rs:1334-1376 | the same when the restoring write falls back to the index |
| Restoration.HonestExactlyWhen | crates/slip-core/src/caddy.rs:1320-1466 | success, time-out and not-proven mean a restored configuration under every schedule if and only if the identifier names nothing or the first covering policy, or both policies already had ratio 1 |
| SharedCaddy.TidyStep | crates/slip-core/src/caddy.rs:704-893 | under the same conditions a step of an upsert or renewal keeps each policy's index, identifier and subjects |
| SharedCaddy.IndexStability | crates/slip-core/src/caddy.rs:1334-1376 | over any run with clear reload windows and collision-free identifiers, the array is never shortened or reordered and a host's first covering index never changes |
| SharedCaddy.DistinctSubjectsAreTidy | crates/slip-core/src/caddy.rs:1512-1525 | single host names without a literal `star.` in front, in the upserts and in the policies that carry an identifier of slip's form, give the tidiness the run theorems ask for |
| SharedCaddy.OneTaskPerHost | crates/slip-core/src/api.rs:2806-2824 | in every run, clear or not, a host has at most one task under way, and lock entries are never removed |
| Settling.OwnStep | crates/slip-core/src/api.rs:2970-3147 | a step of a renewal, whatever upserts of its policy did before: before its bump and after its restore the policy shows what somebody wants, in between at most the temporary ratio besides, and what it will restore is a wanted ratio |
| Settling.GroundedStep | crates/slip-core/src/api.rs:2806-3147 | every step, stale reloads and upserts of anything included, keeps the locks, the places of the targets, and what reloads in progress have read within what the array has been |
| Settling.SettlingStep | crates/slip-core/src/api.rs:2806-3147 | a step whose reload is fresh, or the host's own, or cannot bring an unwanted ratio, keeps a host's policy settling |
| ReloadWindows.ConcurrentRenewals | crates/slip-core/src/api.rs:2806-2895 | with clear windows, renewals of hosts with distinct policies among upserts of anything, their own policies included: whenever a host is at rest (lock free, no failed restoration or reload reported) its policy has a body and a ratio of the start or of an upsert, if and only if no upsert could still give the host's identifier its first policy, or the temporary ratio is wanted; and the lock is free exactly when no task of the host is running |
| SharedCaddy.EveryTaskEnds | crates/slip-core/src/api.rs:2867-2895 | a task ends after boundedly many moves whatever is interleaved |
| ReloadWindows.StaleReloadUndoesARestore | crates/slip-core/src/caddy.rs:1473-1505 | from a start with no task: a run in which a host restores its policy, verifies it and reports success, after which another host's reload brings the temporary ratio back |
| ReloadWindows.StrayRun | crates/slip-core/src/caddy.rs:1320-1440 | from a start with no task: a run in which a policy with the host's identifier is appended between bump and restore and the temporary ratio stays on the covering policy, the cycle reporting success |
| ReloadWindows.SettledExactlyWhen | crates/slip-core/src/api.rs:2806-3147 | the same over clear runs or over all runs: a host at rest always shows what somebody wants, if and only if no such upsert is left and windows are clear or no other host can be renewed; or the temporary ratio is wanted |
| ReloadWindows.RestoredExactlyWhen | crates/slip-core/src/api.rs:2806-3147 | over clear runs or over all runs, upserts of the policy included: a host at rest always shows the policy of the start, if and only if every upsert of it desires it so, and either its ratio was 1, or no upsert could still give the host's identifier its first policy and windows are clear or no other host can be renewed |
| ReloadWindows.ManagersAreNoProtection | crates/slip-core/src/api.rs:2824-2828 | with both policies managed by Tailscale the restoration can still be undone, because a refused check counts as not managed |
| UpsertAndRenewal.UpsertsMisalign | crates/slip-core/src/caddy.rs:741-757 | upserting `*.r` and then a host under it gives two policies of which the first covers the host and the second carries its identifier |
| UpsertAndRenewal.MisalignedByItself | crates/slip-core/src/caddy.rs:741-757 | in that configuration some renewal is not honest, unless both ratios are 1 |
| UpsertAndRenewal.UpsertLostInWindow | crates/slip-core/src/reconcile.rs:472 | from a start with no task, for every upsert of a renewed host's policy: a run in which it reports success, the renewal reports success, and the configuration is that of the start |
| UpsertAndRenewal.UpsertWhileRenewing | crates/slip-core/src/api.rs:3004-3122 | the same with clear windows: all of the upsert takes hold but its ratio, which the restore overwrites |
| UpsertAndRenewal.TakesHoldExactlyWhen | crates/slip-core/src/caddy.rs:704-816 | over clear runs or over all runs: once an upsert of a renewed host's policy has reported success and the host is at rest, the policy is the desired one, if and only if it was at the start and is always restored |
| UpsertAndRenewal.OwnUpsertTakesHoldExactlyWhen | crates/slip-core/src/reconcile.rs:472 | for one host and the upsert of its own policy: if and only if the policy had the desired body at the start |
| UpsertAndRenewal.ThereExactlyWhen | crates/slip-core/src/caddy.rs:873-893 | over all runs, an upsert that has reported success finds its identifier still there if and only if it was there at the start or no host can be renewed |
| Neighbours.ForeignKept | crates/slip-core/src/caddy.rs:704-893 | upserts, renewals and arbitrary foreign edits with clear windows: ratios aside, the foreign policies are what the foreign edits alone would have made |
| Neighbours.StaleReloadDropsForeign | crates/slip-core/src/caddy.rs:1473-1505 | from a start with no task: a run in which a reload drops a policy another administrator appended in its window |
| Neighbours.ForeignKeptExactlyWhen | crates/slip-core/src/caddy.rs:1473-1505 | over all runs that holds if and only if no host can be renewed |
| Routes.SetEntry | crates/slip-core/src/caddy.rs:933-953 | one route: which answers make it succeed, how many are used, and the table that results |
| Routes.EntryMeaning | crates/slip-core/src/caddy.rs:915-930 | an entry carries its identifier and hostname, and dials `localhost:` and digits that read back as the port |
| Routes.TurnFailsExactlyWhen | crates/slip-core/src/caddy.rs:933-953 | setting one route fails if and only if the `PATCH` is lost, or finds nothing or is refused and the `POST` does not come through |
| Routes.SetRoutes | crates/slip-core/src/caddy.rs:912-955 | result, number of routes set, final table and answers used are those of the routes taken one after the other up to the first that fails |
| Routes.DeliveredSets | crates/slip-core/src/caddy.rs:912-955 | delivered requests make it succeed |
| Routes.RemoveRoutes | crates/slip-core/src/caddy.rs:968-988 | the same for removal, a missing identifier counting as removed |
| Routes.DeliveredRemoves | crates/slip-core/src/caddy.rs:968-988 | delivered requests make it succeed |
| Routes.RemovalStopsAt | crates/slip-core/src/caddy.rs:968-988 | removal uses one answer for each identifier and stops at the first that does not come through |
| Routes.Reconcile | crates/slip-core/src/caddy.rs:993-1002 | the same for one route per application, stopping at the first error |
| Routes.SetRoutesMeaning | crates/slip-core/src/caddy.rs:912-955 | where no policy carries the identifiers, under any answers: for each route dealt with there is an entry with its identifier, its hostname and a dial that reads back as its port, and the identifier occurs once more exactly when it was absent or the `PATCH` was refused; no policy and no other identifier is touched, and all keep their place |
| Routes.RouteTableRoundTrip | crates/slip-core/src/caddy.rs:912-988 | setting and then removing the routes gives the original table with just those identifiers erased if and only if each was absent, or was there once and its `PATCH` was not refused |
| Routes.ReconcileMeaning | crates/slip-core/src/caddy.rs:993-1002 | the same as for `set_routes`, over distinct applications: none undoes another's route |
| Routes.OthersAreOutside | crates/slip-core/src/caddy.rs:601-604 | routes of other applications and the webhook's are never addressed |
| Routes.PoliciesKeepClear | crates/slip-core/src/caddy.rs:912-988 | no policy carries a route identifier when slip's own policies are for dotted subjects and the others keep off the `slip-` prefix |
| Bootstrap.Bootstrap | crates/slip-core/src/caddy.rs:494-581 | every outcome with its configuration and number of loads: nothing is loaded if slip is there or a listener is taken, and `ListenerConflict` names such a server; after success the slip server is there |
| Bootstrap.HoldsMeaning | crates/slip-core/src/caddy.rs:510-528 | a server holds the listener if and only if it is another than `slip` and lists `:443` |
| Bootstrap.PlantsTheServer | crates/slip-core/src/caddy.rs:557-567 | what is loaded has, at the slip path, a server that listens on `:443` and has no routes |
| Bootstrap.PlantedFrame | crates/slip-core/src/caddy.rs:533-567 | the merge changes the resolution of no unrelated pointer when no non-empty array is in the way |
| Bootstrap.BootstrapFrame | crates/slip-core/src/caddy.rs:533-567 | all unrelated JSON pointers (section 4 of RFC 6901) resolve as before if and only if no node on the way was a non-empty array |
| Bootstrap.RefusedReadLoadsOnlySlip | crates/slip-core/src/caddy.rs:496-502 | what a bootstrap loads after a refused read resolves nothing outside the slip path |
| Bootstrap.BootstrapFrameExactlyWhen | crates/slip-core/src/caddy.rs:496-567 | over both outcomes of the read, what would be loaded resolves every unrelated pointer as before if and only if no non-empty array is on the way, or, the read refused, there was nothing unrelated |
| AppLifecycle.LocksStep | crates/slip-core/src/api.rs:1025-1036 | each step keeps the lock invariant, and lock entries only grow |
| AppLifecycle.MutualExclusion | crates/slip-core/src/api.rs:1279-1280 | in any run at most one task of an application is in its critical section, across deletion and registration anew, and an application keeps its lock object |
| AppLifecycle.PersistThenPublish | crates/slip-core/src/api.rs:1056-1070 | at every moment a visible configuration is the one on disk unless the lock holder has persisted its successor; with the lock free they agree |
| AppLifecycle.AppStaysUnderItsLock | crates/slip-core/src/api.rs:1458-1479 | the app a secrets writer found is still registered whenever it looks again under the lock |
| AppLifecycle.NoLostUpdates | crates/slip-core/src/api.rs:1149-1229 | memory after any run is that of the registrations, updates and deletions applied one after the other to what the previous one left |
| AppLifecycle.WritesUnderLock | crates/slip-core/src/api.rs:1025-1036 | memory and disk change only by a step of the task that has the application's lock |
| AppResults.EveryResultHasAReason | crates/slip-core/src/api.rs:1072-1308 | in every run, at the step that ended it, a task reports not-found only for a missing app, a conflict only for an app that is there or another task in its critical section, a failure only if something did not cooperate, each with nothing changed; and done with exactly its change to memory and the file to match |
| AppResults.DoneExactlyWhenCommitted | crates/slip-core/src/api.rs:1072-1308 | in every run a create, update or delete that has ended reports done if and only if its commit is one of the run's |
| AppResults.TakesEffect | crates/slip-core/src/api.rs:1072-1308 | with the lock free and everything cooperating, a create of an app that is not there and any other operation on one that is ends done, with exactly its effect on memory and disk and the lock given back |
| AppHandlers.ChainIsARun | crates/slip-core/src/api.rs:1072-1308 | the worlds the object has been in are those of a run of the interleaved machine |
| AppHandlers.SavedAtEveryMoment | crates/slip-core/src/api.rs:1056-1070 | at every moment of the object's life a visible configuration is the one on disk, unless the lock holder has saved its successor |
| AppHandlers.WrittenUnderTheLock | crates/slip-core/src/api.rs:1025-1036 | at every moment what is visible or saved changes only by the holder of the application's lock |
| AppHandlers.AppState.TryLock | crates/slip-core/src/api.rs:1031-1035 | one step of the machine: the lock is taken exactly if no other task has it |
| AppHandlers.AppState.Pause | crates/slip-core/src/api.rs:1072-1308 | between two steps of a handler other tasks take any steps of the machine, and leave the handler's task where it is |
| AppHandlers.AppState.LockApp | crates/slip-core/src/api.rs:1025-1036 | the machine's steps of looking the lock up and trying it, others moving in between |
| AppHandlers.AppState.PersistAndPublish | crates/slip-core/src/api.rs:1058-1070 | under the lock, the machine's steps in order, others moving in between: first the file, then, if it was written, memory and the release |
| AppHandlers.AppState.HandleCreateApp | crates/slip-core/src/api.rs:1072-1122 | among any steps of other tasks, this task takes the machine's steps from arrival to result, error cases included, and at the moment it ended there was the reason for the result |
| AppHandlers.AppState.HandleUpdateApp | crates/slip-core/src/api.rs:1149-1229 | the same for an update |
| AppHandlers.AppState.HandleDeleteApp | crates/slip-core/src/api.rs:1232-1308 | the same for a delete |
| Redaction.FirstMatchMeaning | crates/slip-core/src/caddy.rs:1534 | the match taken is the leftmost and among those the longest, and there is none only if nothing matches |
| Redaction.RedactedIsShort | crates/slip-core/src/caddy.rs:1530-1536 | no 35 consecutive token characters are left |
| Redaction.RedactIdempotent | crates/slip-core/src/caddy.rs:1530-1536 | redacting twice is redacting once, and a text is unchanged exactly when it has no 35 consecutive token characters |
| Redaction.RedactAtSeparator | crates/slip-core/src/caddy.rs:1530-1536 | a character that is no token splits the work: it is kept, and both sides are redacted on their own, in order |
| Redaction.RedactRun | crates/slip-core/src/caddy.rs:1530-1536 | what a run of token characters of any length becomes: how many marks, and which rest |
| Redaction.TokensAre | crates/slip-core/src/caddy.rs:1534 | the characters of the pattern, by ASCII code |
| Redaction.RedactionIs | crates/slip-core/src/caddy.rs:1530-1536 | in numbers: one `<redacted>` for every 50 of a run, one more for a rest of 35 or more, a shorter rest stays; and nowhere are 35 consecutive token characters left |
| Durations.ParseDuration | crates/slip-cli/src/main.rs:711-762 | accepts exactly the non-empty strings of digits and units whose trailing digits are worth zero and whose total fits, and returns the true total |
| Durations.ParseSinceDuration | crates/slip-core/src/api.rs:2422-2474 | the same with the signed bound, returning now less the total, which cannot wrap for a non-negative clock |
| Durations.VerdictExact | crates/slip-cli/src/main.rs:711-762 | no intermediate checked operation refuses a string whose total fits |
| Durations.ParsersAgree | crates/slip-core/src/api.rs:2422-2474 | the command line accepts what the server accepts with the same number, and the server what the command line accepts and it can hold |
| Durations.PrintedReadsBack | crates/slip-cli/src/main.rs:711-762 | printed hours, minutes and seconds parse to their number of seconds if it fits, and are refused if not |
| Durations.RefusedBecause | crates/slip-cli/src/main.rs:711-762 | why a string is refused: empty, a character that is neither digit nor unit, a beginning that is too large, or digits left without a unit |
| Durations.ZeroNeedsNoUnit | crates/slip-cli/src/main.rs:758-760 | a trailing zero without a unit changes nothing, a trailing one is refused |
| DeployWait.Poll | crates/slip-cli/src/main.rs:915-954 | a request is repeated at most three times, only while the connection fails |
| DeployWait.Wait | crates/slip-cli/src/main.rs:893-1024 | the changes printed are those of the statuses observed; none but the last is `completed` or `failed`; the exit code is 0 exactly if the last is `completed`, 5 exactly if it is `failed`, 1 exactly after four lost requests, otherwise 6, and then only at or past the deadline; all time but lag goes into the sleeps due after each answer; the number of requests is bounded by the time-out |
| DeployWait.ExitCodesAre | crates/slip-cli/src/main.rs:767-778 | the codes 0, 5 and -1, and that exactly the first two end the waiting |
| DeployWait.EmittedExactlyWhen | crates/slip-cli/src/main.rs:968-986 | the printed changes are the statuses without consecutive repeats if and only if the first is not empty; otherwise just that one is missing |
| DeployWait.CollapsedMeaning | crates/slip-cli/src/main.rs:968-986 | removing consecutive repeats: none is left, both ends stay, and a sequence without repeats is unchanged |

## Left out

- HTTP, TLS handshakes, X.509 parsing and systemctl: requests are atomic steps, probes and the restart arbitrary inputs.
- A request that takes effect and whose answer is lost: a failed request is taken to have had no effect.
- `execute_deploy`, preview deploys, the service controller, the database and the secrets store: a deploy or rollback is the holder of its application's lock until it ends.
- `AppState`: one handler at a time is run as a method, with the steps of all others between its own; a deploy's, rollback's or secrets writer's handler exists only as a task.
- Renewal locks are part of the interleaved model on values; the cycle's own methods work on an object that stands for the endpoint.
- `build_tls_policy`, `classify_host_tls`, `resolve_route_tls`: single branches. A policy is an identifier, subjects, a ratio, whether a Tailscale manager is listed, and the rest.
- A policy whose `subjects` or `renewal_window_ratio` has another JSON type than expected.
- `run_renewal_cycle`'s readiness wait and `wait_caddy_ready`: they only let time pass.
- Convergence of two overlapping upserts of one identifier: the code does not serialize them and they may both append. The results about indices, renewals and foreign policies allow for it.
- `notAfter` outside the years 0000 to 9999, which section 4.1.2.5 of RFC 5280 does not allow.
- ListenerConflict: when several servers list the listener, which of them is named is left open.
- Status pages, log streaming, registry listing, messages and JSON events of the command line beyond the order of status changes.
- `crates/slip-cli/src/doctor_cmd.rs`, `crates/slip-cli/src/server_init.rs`, `crates/slip-core/src/auth.rs`: shell-outs, file writes and a library call.
- Cancellation of handlers: it would release a lock in mid-operation.
