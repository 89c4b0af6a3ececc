# Verified model of Frame's stateful cores

Frame is a Kubernetes operator that installs machines, watches their disks and links,
relays alerts to subscribers and reads a Ceph cluster. This project models in Dafny the
parts of it that carry invariants over whole runs, and proves those invariants.

Check it with `dafny verify dfyconfig.toml`.

| files | what they model |
|---|---|
| `GateCodec`, `GateProtocol`, `GateOutcomes`, `GateManager` | the ceph-mgr login gate: a write-ahead record in a Secret, under crashes and writes that conflict, come late or land while answering an error |
| `Relay`, `RelayRuns`, `RelayLossy` | the alert relay: one record per alert and subscription, with the log of acknowledged sends; `RelayLossy` lets status patches fail |
| `Health`, `HealthReference`, `HealthAlerts`, `HealthPasses`, `HealthRaising`, `HealthLeaving`, `HealthRuns`, `HealthComplete`, `HealthVerdict`, `HealthAssessment` | the machine health assessment of disks, pools and links: which alerts fire after a pass, and what the conditions say |
| `Traffic` | the agent's sliding windows over kernel counters |
| `Install` | the installation driver, over everything its collaborators may answer |
| `Beacons` | the bounded beacon store |
| `RedfishSession` | the session token shared by concurrent requests |
| `DiskJoin` | the join of the BMC's drives with the node's disks |
| `Text` | trimming and line splitting |

## How it is built

Code that computes is a function; code that works step by step is a method or a class with
loops, proved equal to a specification function or stated outright. Protocols are state
machines: `Enabled` says when a step may happen, `Apply` what it does, `Inv` what every
step keeps, and the main theorems quantify over every run. The classes `Manager` and
`Sender` carry a ghost run, so whatever they do is a run of the state machine and the
theorems about runs hold of it; what the rest of the world does in between is chosen
arbitrarily.

What a main theorem says is written in terms of the inputs and of what was done, with the
figures in place, and not through the functions it is about: the health theorems go by
`HealthReference`, which tells from a machine's status what was read, what is well and what
says nothing; the relay's go by the record before a turn; the installation's by the order of
the trace; the traffic figures by the samples they are measured between.

The assumptions are these. One manager is active at a time. HMAC-SHA256 does not collide
on the finite set of accounts in use and gives 64 hexadecimal characters. An operator's
edit of the gate's Secret ends a run; the next begins with whatever it left. The relay's
reads are current and, outside `RelayLossy`, its status patches land. A time the relay
stores keeps whole seconds, its clock does not (`internal/alerting/receiver.go:145-149`,
`cmd/main.go:759`). Sample times strictly increase, and a known link capacity is positive
(`internal/agent/network.go:210`, `internal/agent/traffic.go:72`). The name of a port or
bond holds no slash (`internal/agent/network.go:238`), so it is never that of a member
(`internal/storage/network_health.go:99`). The saturation threshold is at least 1
(`internal/storage/network_health.go:85-87`). A disk the agent publishes has a serial
(`api/frame/v1beta1/framemachine_types.go:286-288`), so no wear alert resting on SMART is
about an empty one. Names are unique where a lemma says so (`UniquePools`, `UniqueLinks`,
`UniqueNames`, `UniqueDrives`, `UniqueDisks`). New session tokens are fresh. Arithmetic on
rates is exact, with integer floor.

## Where the code says something else

Each point is a lemma with a concrete witness, next to one that states what does hold.

- The purge precondition is described as covering every change since the alert was read
  (`internal/alerting/relay_controller.go:134-136`). The status patch made in between
  refreshes the version, so a write that arrives during the sends of a pass that records a
  delivery is not covered: `RelayRuns.PurgeMayDiscardAWrite`. Exactly when a pass purges,
  and what it then deletes: `RelayRuns.PurgedExactlyWhen`.
- The Joining connection is described as pinned to the captured host key
  (`internal/provision/install.go:224-228`). It is exactly if the captured key is not
  blank: `Install.PinHoldsIffKeyCaptured`, `Install.BlankKeyTrustsAnyone`. The client of
  this repository sets the key before a session exists (`internal/provision/ssh.go:99`), so
  only another implementation of `Session` can give a blank one.
- A retry may be asked for up to a second after the record says it is due, because the
  stored time of the attempt lost its fraction: `Relay.RetryMayBeLate`. By how much, and
  when not: `Relay.RetryableIsDue`, `RelayRuns.RetriesAreRequeued`.
- A Redfish session whose creation was answered but whose answer was lost or unusable is a
  session too, so the bound on sessions needs one more term:
  `RedfishSession.LostAnswersAreSessionsToo`. The exact account, and when the bound holds
  without it: `RedfishSession.SessionsAreAccountedFor`.
- A subscription that is deleted and made again under the same name before the next pass
  inherits an open record and is sent Resolved first:
  `RelayRuns.LeftoverRecordBreaksTheLog`. `RelayRuns.AcknowledgedSendsAlternate` covers
  those runs too and names them as the only exception.
- `LinkSpeedLow` may leave with no speed read, exactly when its name is listed as a bond or
  a member and no longer as a port: `HealthPasses.SlowLinkMayLeaveUnmeasured`,
  `HealthPasses.LinkAlertLeavesIff`.
- `internal/storage/health.go:32-40` says only a read that mentions a device clears its
  alert. A wear alert resting on a disk's own figure leaves, while the disk reads worn, if
  an inventory that was not read again still has a figure for it:
  `HealthLeaving.StaleFigureClosesWear`. Exactly when: `HealthLeaving.WearLeavesIff`,
  `HealthLeaving.WearLeavesOnEvidenceIff`.
- `internal/storage/health.go:501-503` says False is never claimed without a read.
  `StorageCapacityHigh` is False for a pool that gave no percentage, when nothing is open
  for it: `HealthVerdict.UnsizedPoolReadsFalse`, and exactly then:
  `HealthVerdict.UnsizedPoolIsHiddenIff`. For `StorageDegraded` the claim holds:
  `HealthVerdict.FalseIffHealthyStorage`.

## Model

| member | source | states |
|---|---|---|
| `GateCodec.ParseList` | internal/cephmgr/refusal.go:142-155 | the accumulating loop returns every non-blank line, trimmed and in order, or an error as soon as one is not 64 hexadecimal characters |
| `GateCodec.Entries` | internal/cephmgr/refusal.go:142-155 | a list that is read holds MACs only |
| `GateCodec.EntriesAre` | internal/cephmgr/refusal.go:142-155 | a list is refused exactly if some line is, white space aside, neither empty nor 64 hexadecimal digits, and otherwise holds exactly what its lines hold |
| `GateCodec.ListRoundTrip` | internal/cephmgr/refusal.go:250-251 | every list of MACs, the empty one too, is read back as it was written |
| `GateCodec.RereadIsStable` | internal/cephmgr/refusal.go:142-155 | whatever text a list held, writing what was read from it gives the same entries again |
| `GateCodec.ParseState` | internal/cephmgr/refusal.go:159-179 | a Secret that passes validation is a well-formed state: a key of 32 bytes and lists of MACs |
| `GateCodec.TrustedIff` | internal/cephmgr/refusal.go:159-179 | exactly which Secrets are trusted (a key of 32 bytes, its own fingerprint, two lists of MACs), which count as empty, and that everything else is corrupt; and what is read from a trusted one |
| `GateCodec.StateRoundTrip` | internal/cephmgr/refusal.go:245-251 | for every well-formed state, reading the Secret that was written gives that state, with `refused` cut to the 64 newest |
| `GateCodec.Bounded` | internal/cephmgr/refusal.go:192-197 | keeps a suffix of at most 64, and everything when there are no more |
| `GateCodec.MacIdentifiesAccount` | internal/cephmgr/refusal.go:115-119 | two accounts without NUL share a MAC under a key exactly when they are the same username and password |
| `GateCodec.SplitAtNul` | internal/cephmgr/refusal.go:117 | the encoding of username and password is injective as long as the username holds no NUL |
| `GateCodec.NulWouldCollide` | internal/cephmgr/secret.go:51-56 | without the loader's refusal two different accounts would have one MAC under every key |
| `Text.TrimSpaceIs` | internal/cephmgr/refusal.go:145 | trimming takes all white space off both ends and nothing else |
| `Text.JoinOfLines` | internal/cephmgr/refusal.go:144 | for every text, joining the lines it splits into gives it back, and no line holds a newline |
| `GateProtocol.Without` | internal/cephmgr/refusal.go:281 | removes exactly the entries equal to the MAC and keeps a list free of duplicates so |
| `GateProtocol.BaseState` | internal/cephmgr/refusal.go:230-241 | a change starts from a well-formed state, read or made new on an empty Secret |
| `GateProtocol.ChangeEffect` | internal/cephmgr/refusal.go:260-303 | what Begin, Succeeded, NotSent and Refused each do to the membership of every account in both lists, from any state that parses, the key untouched |
| `GateProtocol.RecordMeans` | internal/cephmgr/refusal.go:223-303 | after a landed write an account is pending exactly if the write was its intention or it was pending and the write was another's; no write but its own refusal puts it in `refused`, and unless the list was too long that does; it stays there at least until the list is full |
| `GateProtocol.LandingKeepsCore` | internal/cephmgr/refusal.go:223-303 | a write that lands on the version it was made for keeps the Secret in agreement with the history of logins, and the key |
| `GateProtocol.LandingIsNeat` | internal/cephmgr/refusal.go:245-252 | whatever the gate writes over any Secret is valid, read back exactly as written, keeps the key, and is tidy if what it read was |
| `GateProtocol.KnownMeansWritten` | internal/cephmgr/refusal.go:252-257 | an update that returns no error has its change in the Secret: the intention pending, the success cleared, or the refusal listed; a login is let go exactly after such a Begin |
| `GateProtocol.ArmedMeansPushedOut` | internal/cephmgr/refusal.go:260-275 | when an account's intention is recorded, each earlier refused or unknown login of it has been pushed out by 64 refusals |
| `GateProtocol.NewestAreKept` | internal/cephmgr/refusal.go:192-197 | an entry with fewer than 64 after it is in `refused`, however long the list an operator left |
| `GateProtocol.StepKeepsInv` | internal/cephmgr/refusal.go:223-303 | every step of the manager, the API server and the dashboard, crash and late arrival included, keeps the invariant and the key |
| `GateProtocol.DecideKeepsInv` | internal/cephmgr/refusal.go:225-256 | so does one read-change-write round whatever becomes of its write: landed, landed with an error, delayed, conflicted, lost |
| `GateProtocol.LateArrivalKeepsInv` | internal/cephmgr/refusal.go:252-256 | so does a write that arrives after the manager gave up on it |
| `GateProtocol.RunKeepsInv` | internal/cephmgr/refusal.go:223-303 | the invariant holds in every state of every run, begun from any Secret whatever |
| `GateProtocol.NoLoginIsForgotten` | internal/cephmgr/client.go:207-232 | in every run a login is on its way only while the durable Secret lists its account in `pending`, and the entry stays until that login's own outcome is recorded, a refusal in `refused` and anything else only if it did no harm |
| `GateProtocol.AtMostOneBadLogin` | internal/cephmgr/client.go:207-294 | in every run an account with a refused or unknown login is sent again only after at least 64 later refusals |
| `GateProtocol.SecretStaysTidy` | internal/cephmgr/refusal.go:159-257 | over every run from any Secret: valid stays valid and invalid stays as it is, the key stays from the first write on, what the gate wrote is read back exactly as written, and lists that were free of duplicates, disjoint and at most 64 long stay so |
| `GateOutcomes.BeginStopsIff` | internal/cephmgr/refusal.go:260-275 | Begin stops exactly for an account in `refused`, else for one in `pending`, else for 64 entries in `pending`, on any Secret that can be read |
| `GateOutcomes.AnswerIsRecorded` | internal/cephmgr/client.go:207-232 | in every run, once a login was answered and the manager is idle again, a success or an unsent login is cleared and a refusal recorded, unless since the answer the manager crashed, could not read the Secret or was not told of a write; and until the next login the account is then pending exactly if the outcome is unknown, and listed as refused if it was |
| `GateOutcomes.StepKeepsTracked` | internal/cephmgr/refusal.go:223-303 | every undisturbed step keeps an answered login on its way into the Secret, or settled there |
| `GateOutcomes.OnlyUnknownStaysPending` | internal/cephmgr/client.go:207-232 | in every undisturbed run an idle manager finds an account pending exactly if it was so at first or one of its logins has an unknown outcome |
| `GateOutcomes.StepKeepsExact` | internal/cephmgr/refusal.go:260-303 | every undisturbed step keeps `pending` exactly what it was at first, the intention just written and the logins not recorded |
| `GateManager.RoundComesTo` | internal/cephmgr/refusal.go:225-256 | one round ends written, corrupt, stopped for what the Secret it read says, given up after the third, or in another round, and is written only with its change in the Secret |
| `GateManager.Manager.constructor` | internal/cephmgr/refusal.go:202-206 | a manager starts a run in an initial state |
| `GateManager.Manager.Step` | internal/cephmgr/refusal.go:223-257 | one enabled step extends the run by exactly its effect |
| `GateManager.Manager.Interleave` | internal/cephmgr/refusal.go:252-256 | writes given up on may arrive between any two steps, which changes no login and no phase |
| `GateManager.Manager.Update` | internal/cephmgr/refusal.go:223-257 | the retry loop ends as a run and sends nothing; it returns no error only with its change in the durable Secret, and a Begin lets the login go exactly then; it stops only for what a Secret it read says, fails to read only if a read fails, and gives up only after three rounds that read it; with no rival write about and a first round that goes well a record is written |
| `GateManager.Manager.TryWrite` | internal/cephmgr/refusal.go:230-255 | one round after the read ends in an ending the Secret it read justifies, or in another round before the third; it says it succeeded only if written |
| `GateManager.Manager.Record` | internal/cephmgr/client.go:214-231 | a login that is out is answered and recorded: certainly if the first round goes well; a recorded success or unsent login leaves the account not pending, a recorded refusal leaves it in `refused`, an unknown outcome leaves it pending |
| `GateManager.Manager.Login` | internal/cephmgr/client.go:207-232 | a login is a run of the protocol that begins with the intention and sends at most once, for its own account, while the Secret lists it in `pending`, and never while a refused or unknown login of that account has not been pushed out by 64 refusals; its outcome is then recorded as `Record` says |
| `Relay.BackoffNanoseconds` | internal/alerting/sender.go:87-96 | for every 32-bit attempt count the doubling loop over 64-bit nanoseconds equals min(5·2^(n-1), 600) seconds and does not overflow |
| `Relay.Backoff` | internal/alerting/sender.go:87-96 | from the first attempt on the wait is between 5 and 600 seconds |
| `Relay.BackoffSchedule` | internal/alerting/sender.go:87-96 | the waits are 5 seconds, then each twice the one before, 600 at most |
| `Relay.DeliverLoop` | internal/alerting/relay_controller.go:187-225 | the early returns, the token and the loop together give the specified record, wait and acknowledged sends, for every outcome |
| `Relay.SendLoop` | internal/alerting/relay_controller.go:211-224 | the loop over the states to send gives the specified record, wait and acknowledged sends |
| `Relay.SendsExactlyWhen` | internal/alerting/relay_controller.go:84-225 | what a turn sends, told from the record before it: nothing if the subscription is paused, has no stake in the alert, was told, failed for good in this state and generation, is backing off, or came after the incident was over; else the state, after Firing if the tenant never heard of the incident, as far as the endpoint takes them |
| `Relay.RecordsExactly` | internal/alerting/relay_controller.go:100-241 | every field of the record after a turn and the wait it asks for, told from the record before it and the answers |
| `Relay.LeavesOutExactly` | internal/alerting/relay_controller.go:157-183 | a subscription with no stake in the alert has no record while it fires, and one marked as left out once it is over, unless it has one that says as much |
| `Relay.SendKeepsAgreement` | internal/alerting/relay_controller.go:205-224 | from any point of the sequence to send, what was acknowledged keeps the log alternating and the record in step |
| `Relay.FailKeepsAgreement` | internal/alerting/relay_controller.go:227-241 | a failed send acknowledges nothing and leaves log and record in agreement |
| `Relay.HandleKeepsAgreement` | internal/alerting/relay_controller.go:84-119 | one turn for one subscription keeps its acknowledged sends alternating from Firing and its record true to the log, whatever the filter, the pause, the clock and the endpoint do |
| `Relay.RetryableIsDue` | internal/alerting/relay_controller.go:187-241 | a record left undelivered and retryable says when it is due; the turn's wait ends exactly then if it made no attempt, else later by exactly the fraction of a second its stored time lost |
| `Relay.RetryMayBeLate` | internal/alerting/relay_controller.go:227-241 | a first send that fails at 100.9 seconds is due at 105 and asked for at 105.9 |
| `Relay.AttemptChangesRecord` | internal/alerting/relay_controller.go:122-129 | an attempt always changes the record besides its time, so the lost fraction never decides whether a patch is made |
| `Relay.PermanentFailureIsCurrent` | internal/alerting/relay_controller.go:100-106 | a permanent failure outlives neither the state it answered nor the subscription's generation |
| `Relay.MissedIsNeverReplayed` | internal/alerting/relay_controller.go:157-183 | a resolved incident a subscription never had open is not sent to it and is recorded as told |
| `Relay.ToldIsNotToldAgain` | internal/alerting/relay_controller.go:187-192 | while the alert is resolved a record that says Resolved is left so and nothing is sent, whatever the filter and the pause |
| `RelayRuns.ReconcileLoop` | internal/alerting/relay_controller.go:77-119 | the loop yields exactly the next records of all subscriptions and the earliest positive wait among their turns |
| `RelayRuns.SameVersionMeansUnwritten` | internal/alerting/relay_controller.go:122-138 | the version precondition holds exactly if nobody wrote before the delete, and during the sends only if the pass then patched |
| `RelayRuns.PurgedExactlyWhen` | internal/alerting/relay_controller.go:131-142 | the exact condition of a purge, and that the alert deleted is the one in hand; it is the one read exactly if nobody changed it during the sends |
| `RelayRuns.PassLeavesAlert` | internal/alerting/relay_controller.go:122-147 | after a pass the alert is gone exactly under that condition, and otherwise as the receiver last wrote it |
| `RelayRuns.PurgeLeavesNothingOpen` | internal/alerting/relay_controller.go:131-142 | after a purge no present subscription's log ends in Firing |
| `RelayRuns.PurgeMayDiscardAWrite` | internal/alerting/relay_controller.go:122-138 | a run from the start, under a retention of 14 days, whose pass deletes an alert that has been set firing again |
| `RelayRuns.ResolvedLeavesRecords` | internal/alerting/relay_controller.go:157-183 | a resolved alert's pass leaves every subscription with a record |
| `RelayRuns.ReconcileKeepsInv` | internal/alerting/relay_controller.go:63-148 | a whole pass, purge included, keeps every log alternating and in step with its record |
| `RelayRuns.StepKeepsInv` | internal/alerting/relay_controller.go:63-148 | so does every other event: state changes, filter edits, pauses, deletions, and creations over any record left behind |
| `RelayRuns.RunKeepsInv` | internal/alerting/relay_controller.go:63-148 | the invariant holds in every state of every run |
| `RelayRuns.AcknowledgedSendsAlternate` | internal/alerting/relay_controller.go:84-119 | over every run a present subscription's acknowledged sends alternate Firing, Resolved from Firing on, and end in Firing exactly when its record says delivered Firing and not excluded; both hold exactly unless it was made over an open record, whose sends go on from there |
| `RelayRuns.InheritedIffMadeOverOpenRecord` | internal/alerting/relay_controller.go:77-92 | over every run those exceptions are exactly the subscriptions whose latest creation found an open record under their name |
| `RelayRuns.CreationKeepsAgreementIff` | internal/alerting/relay_controller.go:77-92 | making a subscription keeps every log in agreement with its record exactly when no open record is left under its name |
| `RelayRuns.ToldStaysTold` | internal/alerting/relay_controller.go:157-192 | over every stretch of a run in which the alert stays resolved and the subscription present, one whose record says Resolved is sent nothing, through any edits of it |
| `RelayRuns.LogGrowsExactly` | internal/alerting/relay_controller.go:84-119 | a pass extends each present log by what was due and taken, and by nothing else |
| `RelayRuns.RecordsFollowTurns` | internal/alerting/relay_controller.go:77-129 | a pass that does not purge leaves exactly the records of its turns, and none of subscriptions that are gone |
| `RelayRuns.PausedHearsNothing` | internal/alerting/relay_controller.go:189-191 | over every stretch of a run in which a subscription stays present and paused nothing is sent to it |
| `RelayRuns.WakesInTime` | internal/alerting/relay_controller.go:107-147 | a pass that did not purge asks to run again after a second if the delete met a conflict, else at the earliest of its turns' waits and the end of the retention, and not at all exactly if there is none |
| `RelayRuns.RetriesAreRequeued` | internal/alerting/relay_controller.go:107-147 | a pass that does not purge asks to run again less than a second after the due time of any record it left to retry, and no later than it if it made no attempt there or runs on a whole second; where that record decides the wait, exactly then |
| `RelayRuns.TallyPending` | internal/alerting/subscription_status_controller.go:136-162 | the pending count is the number of alerts pending for the subscription |
| `RelayRuns.PendingIffSendable` | internal/alerting/subscription_status_controller.go:136-162 | an alert counts as pending exactly if an unhindered turn would send something, or the incident was over before the subscription |
| `RelayRuns.OpenStaysOpenUntilResolved` | internal/alerting/relay_controller.go:84-92 | a record open for a resolved incident stays open until its resolution is delivered |
| `RelayRuns.DeliveredIffNothingPending` | internal/alerting/relay_controller.go:259-266 | after a resolved alert's pass, all delivered holds exactly when the tally counts the alert as pending for no subscription |
| `RelayRuns.LeftoverRecordBreaksTheLog` | internal/alerting/relay_controller.go:77-92 | a run from the start in which a subscription made again over an open record is first sent Resolved |
| `RelayLossy.HandleKeepsBegun` | internal/alerting/relay_controller.go:84-119 | one turn for one subscription sends no Resolved unless Firing was acknowledged before, whether or not its record survives |
| `RelayLossy.StepKeepsInv` | internal/alerting/relay_controller.go:63-148 | every event keeps that, passes whose patch fails included, landed or not |
| `RelayLossy.FiringComesFirst` | internal/alerting/relay_controller.go:187-225 | over every run in which any status patch may fail, no present subscription acknowledges Resolved before Firing, but for one made over an open record |
| `RelayLossy.LostPatchRepeatsTheSend` | internal/alerting/relay_controller.go:122-129 | a run from the start in which a lost patch makes Firing be sent twice |
| `HealthAlerts.PoolTouches` | internal/storage/health.go:276-312 | exactly which alerts a pool finds or holds, for any reading, thresholds and open alerts |
| `HealthAlerts.DriveTouches` | internal/storage/health.go:356-378 | exactly which alerts a BMC drive finds or holds |
| `HealthAlerts.DiskTouches` | internal/storage/health.go:441-475 | exactly which alerts an observed disk finds or holds, the BMC's figure first |
| `HealthAlerts.TrafficTouches` | internal/storage/network_health.go:208-257 | exactly which saturation and error alerts a link's load finds or holds |
| `HealthAlerts.PortTouches` | internal/storage/network_health.go:163-201 | exactly which alerts a port finds or holds |
| `HealthAlerts.BondTouches` | internal/storage/network_health.go:259-311 | exactly which alerts a bond finds or holds: of its load, its state and its members |
| `HealthAlerts.MemberTouches` | internal/storage/network_health.go:290-310 | exactly which alerts a bond's member finds or holds |
| `HealthAlerts.LinksTouch` | internal/storage/network_health.go:101-152 | exactly which alerts the ports, bonds, members and missing links together find or hold |
| `HealthReference.ReadOrUnread` | internal/storage/health.go:187-212 | a pass reads exactly the scopes it does not mark unread: stacks present or absent and disks under a report at most 600 seconds old, a fresh inventory with a drive, links reported without error at most 600 seconds ago under a policy that was read |
| `HealthReference.BmcDriveIsFirst` | internal/storage/health.go:413-423 | the drive that speaks for a serial is the first one listed with it |
| `HealthPasses.ReadingIsSound` | internal/storage/health.go:174-181 | a pass holds only open alerts and finds only under scopes that were read and belong to the check |
| `HealthPasses.FiresExactlyWhen` | internal/storage/health.go:494-499 | an alert fires after the pass exactly when its scope went unread while it was open, or the reading finds or holds it |
| `HealthPasses.AfterIsNext` | internal/controller/frame/framemachine_storagehealth.go:199-240 | from every set of open alerts every pass leads to exactly the keys it finds and the open keys it keeps |
| `HealthPasses.UnreadScopeIsInert` | internal/storage/health.go:187-200 | a scope the pass cannot read yields no finding and loses no open alert |
| `HealthPasses.LeavesOnlyIfListed` | internal/storage/health.go:337-345 | in a read scope other than network-expected an open alert leaves only if its device was listed |
| `HealthPasses.PoolAlertLeavesIff` | internal/storage/health.go:286-312 | an open scrub or capacity alert leaves exactly when the pool is listed and says so itself: no errors or never scanned, or a percentage under the threshold by more than 2 |
| `HealthPasses.LinkAlertLeavesIff` | internal/storage/network_health.go:163-257 | an open slow-link, saturation or link-error alert leaves exactly when its name is listed and every port or bond answering for it says so itself |
| `HealthPasses.LeavingLinkGaveEvidence` | internal/storage/network_health.go:183-257 | for a name without a slash there was such a port or bond; for the speed exactly if a port still has the name |
| `HealthPasses.SlowLinkMayLeaveUnmeasured` | internal/storage/network_health.go:118-129 | a concrete pass in which a slow-link alert leaves though no port is listed |
| `HealthRaising.RaisedIff` | internal/storage/health.go:187-480 | for every check, an alert that is not open is raised exactly when an array, pool, drive, disk, port, bond, member or missing link of its name, in a scope that was read, says so itself |
| `HealthRaising.LinksAreRaised` | internal/storage/network_health.go:101-311 | exactly which closed alerts the links raise |
| `HealthLeaving.DegradedLeavesIff` | internal/storage/health.go:215-345 | an open StorageDegraded alert leaves exactly when the read it rests on lists the device and every array, pool and disk read under its name says it is well |
| `HealthLeaving.WearLeavesIff` | internal/storage/health.go:347-480 | an open DiskWearHigh alert leaves exactly when the read it rests on lists the device and no drive or disk read under its name is worn or owes its figure |
| `HealthLeaving.WearLeavesOnEvidenceIff` | internal/storage/health.go:462-475 | of those resting on SMART, one leaves on a figure read in that pass exactly if the inventory was read or the disk says so itself |
| `HealthLeaving.DriveWearLeavesOnEvidence` | internal/storage/health.go:364-377 | one resting on the inventory always leaves on a figure read in that pass, the drive's or its disk's |
| `HealthLeaving.StaleFigureClosesWear` | internal/storage/health.go:463 | a concrete pass in which a disk says 99 of 80 percent and its open alert leaves for a figure of an inventory that was not read |
| `HealthLeaving.LinkStateLeavesIff` | internal/storage/network_health.go:101-311 | an open NetworkDegraded alert leaves exactly when its name is listed, or only the policy named it and no longer does, and every port, bond and member of that name says it is well |
| `HealthLeaving.ExpectedLinkLeavesIff` | internal/storage/network_health.go:131-150 | the alert for a link only the policy names, still not on the node, leaves exactly when a read finds the policy no longer names it |
| `HealthRuns.RunKeepsHome` | internal/storage/health.go:183-185 | in every run each open alert rests on a scope of its check |
| `HealthRuns.CapacityStep` | internal/storage/health.go:296-312 | one pass sets a pool's capacity alert to what a decisive reading says and otherwise leaves it |
| `HealthRuns.CapacityFollowsLastDecisive` | internal/storage/health.go:296-345 | over every run the capacity alert is open exactly when the last reading at or above T or below T-2 was at or above T; unread stacks, unlisted pools, missing percentages and the band change nothing; T may differ from pass to pass |
| `HealthRuns.SaturationStep` | internal/storage/network_health.go:238-256 | the same for one pass and a link's saturation alert |
| `HealthRuns.SaturationFollowsLastDecisive` | internal/storage/network_health.go:208-257 | the same over every run, with lower bound max(1, T-5), for every T of at least 1 |
| `HealthVerdict.TrueIffFiring` | internal/storage/health.go:504-518 | a check's verdict is True exactly when an alert of that check fires after the pass |
| `HealthComplete.ReadingIsMarked` | internal/storage/health.go:504-547 | exactly which scopes a pass cuts and which figures it finds owed, told from the read alone |
| `HealthVerdict.FalseIffComplete` | internal/storage/health.go:501-547 | for every one of the eight checks, False exactly when every scope of it was read, nothing it is about was cut or owed, and no alert of it fires; Unknown is the rest |
| `HealthVerdict.UnreadIsNotFalse` | internal/storage/health.go:519-532 | a check is not False if a read it needs was not made |
| `HealthVerdict.SilentAgentChangesNothing` | internal/storage/health.go:187-197 | with no report of the stacks, or one more than 600 seconds old, nothing is found under md, zfs or smart, no open alert resting on them leaves, and StorageDegraded, ScrubErrors and StorageCapacityHigh are not False |
| `HealthVerdict.UnreadStackChangesNothing` | internal/storage/health.go:202-219 | the same of one stack in error, busy or in a state unknown |
| `HealthVerdict.UnansweredBmcChangesNothing` | internal/storage/health.go:347-355 | the same of drives and DiskWearHigh when the BMC did not answer or lists none |
| `HealthVerdict.UnreadLinksChangeNothing` | internal/storage/network_health.go:101-117 | the same of links and their four checks when the policy was not read, or the report is missing, failed or more than 600 seconds old |
| `HealthVerdict.FalseIffHealthyStorage` | internal/storage/health.go:504-547 | StorageDegraded is False exactly when every array is not degraded, every pool ONLINE with no bad or omitted vdev, every disk owed a SMART read passed, no list cut, and no alert of the check fires |
| `HealthVerdict.FalseIffPoolsAreWhole` | internal/storage/health.go:519-546 | ScrubErrors and StorageCapacityHigh are False exactly when the pools were read and listed, each known unwell or read in full, and no alert of the check fires |
| `HealthVerdict.FalseCapacityIff` | internal/storage/health.go:296-312 | the same for capacity told from the read and the alerts open before it: every pool that gave a percentage has room, one that gave none had no alert open, and every open alert's pool is listed |
| `HealthVerdict.UnsizedPoolIsHiddenIff` | internal/storage/health.go:297-303 | all else being as False requires, False hides a pool with no percentage exactly if no capacity alert is open for it |
| `HealthVerdict.UnsizedPoolReadsFalse` | internal/storage/health.go:296-303 | a concrete pass that is False about a pool with no percentage |
| `HealthVerdict.FalseIffWearIsKnown` | internal/storage/health.go:533-539 | DiskWearHigh is False exactly when the drives were read and listed in full, every solid-state disk has a current figure from its BMC or itself, and no alert of it fires |
| `HealthVerdict.FalseIffLinksAreFast` | internal/storage/health.go:540-546 | LinkSpeedLow is False exactly when the list is complete, every port said its state, every port that is up its speed, none said too low, and no alert of it fires |
| `HealthVerdict.FalseIffLinksAreKnown` | internal/storage/health.go:519-546 | NetworkDegraded, LinkSaturated and LinkErrorsRising are False exactly when the list is whole, every link gives what the check goes by, and no alert of it fires |
| `HealthAssessment.Assessment.constructor` | internal/storage/health.go:175 | an assessment starts with nothing read, found, held or counted |
| `HealthAssessment.Assessment.Add` | internal/storage/health.go:183-185 | adds one finding and nothing else |
| `HealthAssessment.Assessment.FindUnlisted` | internal/storage/health.go:339-345 | the walk over the open alerts returns exactly those of the scope whose device is not listed |
| `HealthAssessment.Assessment.KeepUnlisted` | internal/storage/health.go:339-345 | holds exactly those |
| `HealthAssessment.Assessment.AssessLocal` | internal/storage/health.go:187-200 | adds what the node's stacks say, or marks them unread |
| `HealthAssessment.Assessment.AssessMD` | internal/storage/health.go:215-232 | adds what every array says, holds what is not listed, or marks the stack unread |
| `HealthAssessment.Assessment.AssessZFS` | internal/storage/health.go:259-274 | the same for every pool |
| `HealthAssessment.Assessment.PoolProblems` | internal/storage/health.go:316-335 | reports a problem exactly when the pool's health is given and not ONLINE or some vdev is bad |
| `HealthAssessment.Assessment.AssessPool` | internal/storage/health.go:276-312 | adds what one pool says of its health, its scrub and its capacity |
| `HealthAssessment.Assessment.LookUpWear` | internal/storage/health.go:389-400 | finds a current wear figure exactly if some observed disk of the serial gives one |
| `HealthAssessment.Assessment.LookUpDrive` | internal/storage/health.go:413-423 | returns the first drive of the serial |
| `HealthAssessment.Assessment.AssessDrives` | internal/storage/health.go:347-385 | adds what every BMC drive says, or marks them unread |
| `HealthAssessment.Assessment.AssessSMART` | internal/storage/health.go:427-480 | adds what every disk says of itself; of an unread agent's disks only the wear they owe |
| `HealthAssessment.Assessment.AssessNetwork` | internal/storage/network_health.go:101-117 | adds what the links say, or marks both network scopes unread |
| `HealthAssessment.Assessment.AssessLinks` | internal/storage/network_health.go:118-152 | adds what every port, bond and missing expected link says |
| `HealthAssessment.Assessment.AssessInterface` | internal/storage/network_health.go:163-201 | adds what one port says of its load, its state and its speed |
| `HealthAssessment.Assessment.AssessTraffic` | internal/storage/network_health.go:208-257 | adds what one link's load says |
| `HealthAssessment.Assessment.AssessBond` | internal/storage/network_health.go:259-311 | adds what one bond and its members say |
| `HealthAssessment.Assessment.MarkUnsure` | internal/storage/network_health.go:156-161 | holds the alert if open and cuts the state scope |
| `HealthAssessment.Assessment.Assess` | internal/storage/health.go:174-181 | the object built step by step says exactly what the specification of the pass says, scope by scope |
| `HealthAssessment.Assessment.KeepsSome` | internal/storage/health.go:514-518 | true exactly if some open alert of the check is unread or held |
| `HealthAssessment.Assessment.Decide` | internal/storage/health.go:504-547 | the object's verdict is the specified one, for every check |
| `Traffic.TrimLoop` | internal/agent/traffic.go:123-125 | the loop drops exactly the samples the specification drops |
| `Traffic.ObservedIsTrim` | internal/agent/traffic.go:107-128 | one reading keeps the history a proper suffix of the full one, spanning less than twice the peak window |
| `Traffic.HistoryIsTrim` | internal/agent/traffic.go:107-128 | for every sequence of readings the history's counters never decrease, it ends in the last reading, spans less than twice the peak window, and is the full one cut to the last sample at least 900 seconds old |
| `Traffic.FullHistoryIsSinceBreak` | internal/agent/traffic.go:114-122 | for every sequence of readings the untrimmed history is exactly the readings since a counter last went back or more than 900 seconds went by |
| `Traffic.SinceLoop` | internal/agent/traffic.go:132-140 | the backward scan returns the specified reference sample |
| `Traffic.ReferenceIsNewest` | internal/agent/traffic.go:130-140 | the reference is the newest sample that covers the window, or the oldest there is |
| `Traffic.TrimKeepsReference` | internal/agent/traffic.go:107-140 | for every sequence of readings the trimmed history gives the same recent and sustained references as the untrimmed one |
| `Traffic.BytesStayBelowPeak` | internal/agent/traffic.go:173-178 | over any stretch of the history the bytes stay below one more than the peak per second, by telescoping |
| `Traffic.AverageIsBelowPeak` | internal/agent/traffic.go:142-144 | no truncated average over a stretch exceeds the truncated peak |
| `Traffic.RecentIsBelowPeak` | internal/agent/traffic.go:156-190 | for every history the agent can build, no recent rate exceeds its peak in either direction and neither utilization exceeds the peak utilization |
| `Traffic.SustainedIffFullHistory` | internal/agent/traffic.go:181-185 | the sustained figure is present exactly with a known capacity and at least 285 seconds of history, the bound of `internal/storage/network_health.go:58` |
| `Traffic.CountsAreNotRoundedAway` | internal/agent/traffic.go:186-195 | errors and drops per minute are positive exactly when the window saw any |
| `Traffic.RecentFigures` | internal/agent/traffic.go:161-171 | the recent rates are the bytes per second, rounded down, since the newest sample at least 45 seconds old or the oldest; the utilization is the percentage of the capacity the faster direction fills, rounded down |
| `Traffic.SustainedFigure` | internal/agent/traffic.go:181-185 | the sustained figure is that percentage since the newest sample at least 285 seconds old, and is there exactly if there is one and a capacity |
| `Traffic.CountFigures` | internal/agent/traffic.go:186-195 | errors and drops per minute over that window: none for none, else at least one, the quotient plus 0.999 rounded down |
| `Traffic.PeakFigures` | internal/agent/traffic.go:173-179 | each peak is the rate of some two samples in a row and no two have a higher one; the peak utilization is the percentage of the higher |
| `Traffic.ComputeTraffic` | internal/agent/traffic.go:156-197 | computes the specified figures, the peaks by the accumulating loop |
| `Traffic.TrafficWindows.constructor` | internal/agent/traffic.go:52-54 | starts with no history |
| `Traffic.TrafficWindows.Observe` | internal/agent/traffic.go:107-128 | a good reading appends to its link's history and no other's, keeps every history a trim of the full one, and gives figures exactly from the second sample on; a failed one changes nothing |
| `Install.AttachMediaAndBoot` | internal/provision/install.go:271-289 | succeeds exactly if insert, read-back, boot override and reset all do, each only after the one before and after the caller's last check |
| `Install.WaitForOurSystem` | internal/provision/ssh.go:241-312 | returns the trimmed host key of the first session whose marker equals the non-empty UID, and fails exactly if there is none |
| `Install.FirstOursIsFirst` | internal/provision/ssh.go:241-312 | the session taken for ours is the first contact whose marker is the UID, which is not blank |
| `Install.DialProves` | internal/provision/install.go:224-231 | a connection accepted for the captured key is one to the system that carried the marker, if a key was captured |
| `Install.PinHoldsIffKeyCaptured` | internal/provision/ssh.go:98-104 | of all runs that come to the Joining phase alike, those that go on to cluster commands are the ones answered with the proven session's key, exactly if that key is not blank; with a blank one they are all that are answered |
| `Install.BlankKeyTrustsAnyone` | internal/provision/install.go:224-232 | concrete answers under which cluster commands run on a connection with a key never seen before |
| `Install.SafeIsPinned` | internal/provision/install.go:224-232 | in every safe trace cluster commands come right after a dial answered with the key of a session proven ours before, or that session gave no key |
| `Install.JoinAndWait` | internal/provision/install.go:218-265 | succeeds exactly if the dial, the join and a ready answer all come, with cluster commands only over the proven connection |
| `Install.WaitForNode` | internal/provision/install.go:243-265 | succeeds exactly if the node is ready in some poll, each after the cluster commands |
| `Install.CheckAndAttach` | internal/provision/install.go:181-197 | the machine is reset exactly if the caller's last check let it pass and the media steps all succeed, in that order |
| `Install.Prepare` | internal/provision/install.go:98-140 | an image is built exactly for valid options, a valid spec and the retyped non-empty serial, and the phase named as failed is the one that did |
| `Install.Finish` | internal/provision/install.go:199-265 | from the reset on: succeeds exactly if a session proves ours, is dialled with its key, joins and becomes ready, and gives that key |
| `Install.Drive` | internal/provision/install.go:181-265 | everything between the image and the cleanup keeps the safety trace, succeeds exactly if every collaborator does, and names the phase that failed and the host key captured |
| `Install.Cleanup` | internal/provision/install.go:143-179 | eject and clear are attempted once each, the image is removed exactly when eject succeeded, and any failure turns the result into Failed without losing the phase that failed first |
| `Install.Install` | internal/provision/install.go:80-265 | over every answer: every step is taken once at most, in order and only after what it rests on went well, so nothing touches the machine before the confirmed serial, the image and the caller's last check, it is reset only with media read back and the override accepted, and cluster commands come only right after a dial answered with the proven session's key or that key was blank, exactly in the runs `RunsCommands` names; cleanup last and once; phases in order, each after the work of the one before, and then only Failed; success exactly if every step and the whole cleanup succeed; the failed phase and the host key for every answer |
| `Install.GiveUp` | internal/provision/install.go:95-99 | a failure before the image exists attempts no cleanup and reports Failed |
| `Install.FailedIsNotFinished` | internal/provision/install.go:95-99 | no failed run reports the full order of phases |
| `Beacons.SummaryMeans` | internal/provision/beaconstore.go:87-104 | an entry is the furthest checkpoint, the last time, the first failure and the count of its beacons, in whatever order they came |
| `Beacons.FurthestCheckpointIsKept` | internal/provision/beacon.go:45-54 | an entry says failed if any beacon did, else late if any did, else early |
| `Beacons.FirstFailureIsFirst` | internal/provision/beaconstore.go:87-104 | the failure is dated by the first failed beacon that has a time |
| `Beacons.QueueHoldsWhatCameSince` | internal/provision/beaconstore.go:69-130 | for every sequence of calls the tokens held are distinct, in insertion order, at most the capacity, and each holds exactly the accepted beacons since its insertion, the event before which it was not held and after which it was held without a break |
| `Beacons.InsertionIsUnique` | internal/provision/beaconstore.go:77-85 | a held token has one insertion event only |
| `Beacons.OnlyTheOldestIsEvicted` | internal/provision/beaconstore.go:77-85 | after every sequence of calls a token leaves exactly by being forgotten, or when an unheld one comes into a full store and no other token's insertion is older |
| `Beacons.AcceptedIsHeld` | internal/provision/beaconstore.go:69-106 | right after an accepted beacon its token is held with that beacon the last |
| `Beacons.RecordIsRepresented` | internal/provision/beaconstore.go:69-106 | the map and the order after a beacon are those of the queue after it |
| `Beacons.ForgetIsRepresented` | internal/provision/beaconstore.go:117-130 | likewise after a forgetting |
| `Beacons.WithoutFirst` | internal/provision/beaconstore.go:124-129 | the loop removes the token's place and keeps the rest in order |
| `Beacons.BeaconStore.constructor` | internal/provision/beaconstore.go:45-50 | an empty store, with a capacity of 64 unless a positive one is given |
| `Beacons.BeaconStore.Record` | internal/provision/beaconstore.go:69-106 | accepts exactly 32 lower-case hexadecimal digits with early, late or failed, changes nothing otherwise, and keeps the store equal to the fold of all calls |
| `Beacons.BeaconStore.Get` | internal/provision/beaconstore.go:108-113 | returns the summary of the beacons since the token's insertion, or nothing |
| `Beacons.BeaconStore.Forget` | internal/provision/beaconstore.go:117-130 | keeps the store equal to the fold of all calls |
| `RedfishSession.StepKeepsInv` | internal/redfish/session.go:111-129 | every step of every request and of Logout keeps the accounting of sessions |
| `RedfishSession.RunKeepsInv` | internal/redfish/session.go:111-287 | it holds in every state of every interleaving |
| `RedfishSession.SessionsAreBounded` | internal/redfish/session.go:111-129 | under every interleaving sessions created number at most one plus the distinct tokens rejected plus the logouts that cleared one plus the answers lost, and each request is sent at most twice |
| `RedfishSession.SessionsAreAccountedFor` | internal/redfish/session.go:111-287 | in every state of every run sessions made are exactly the answers lost, the tokens dropped, the logouts and the one in hand, tokens dropped being among those rejected; and exactly when the bound without lost answers holds |
| `RedfishSession.RejectedIff` | internal/redfish/session.go:111-129 | over every run the tokens counted as rejected are exactly those a request was sent with and answered unauthorized to; lost answers, drops and logouts are counted as they happen |
| `RedfishSession.LostAnswersAreSessionsToo` | internal/redfish/session.go:215-232 | a run with two sessions and neither a rejection nor a logout |
| `RedfishSession.TokenGoesOnlyByItsOwnRejection` | internal/redfish/session.go:188-195 | the shared token is lost exactly to a logout or to a request that held that very token and saw it rejected, and is replaced only once lost |
| `RedfishSession.RequestTakesTheSharedToken` | internal/redfish/session.go:170-245 | over every run a request goes out with the token shared at that moment, logs in exactly if there is none and sessions are not unsupported, goes without exactly if they are, and fails exactly if that login gave no token |
| `RedfishSession.RetriedIff` | internal/redfish/session.go:111-129 | over every run a request is tried again exactly if its first send carried a token and was answered unauthorized |
| `RedfishSession.DroppedIsGone` | internal/redfish/session.go:188-195 | over every run a token once dropped for a rejection is never shared again |
| `RedfishSession.Sender.constructor` | internal/redfish/session.go:47-59 | starts a run with no request |
| `RedfishSession.Sender.Step` | internal/redfish/session.go:111-129 | one enabled step extends the run by exactly its effect |
| `RedfishSession.Sender.Interleave` | internal/redfish/session.go:174-195 | other requests and Logout may do anything in between, which leaves this request where it is |
| `RedfishSession.Sender.Round` | internal/redfish/session.go:111-118 | one round sends exactly once, or it had to log in and the login failed; only a first round answered unauthorized may end in a rejected token |
| `RedfishSession.Sender.Send` | internal/redfish/session.go:111-129 | a request ends, as part of a run, having been sent at least once unless it had to log in and could not, and twice, the most, exactly if its own token was rejected and no login failed after that |
| `DiskJoin.LessIsTotal` | internal/storage/join.go:109-114 | byte order on serials is total and strict |
| `DiskJoin.LessIsLexicographic` | internal/storage/join.go:109-114 | it is the order of the dictionary: a proper prefix, or a smaller character at the first difference |
| `DiskJoin.SortSorts` | internal/storage/join.go:109-114 | sorting orders by serial and reason, loses nothing and keeps entries of one serial and reason in order |
| `DiskJoin.DivergencesAreTheDifference` | internal/storage/join.go:51-104 | with unique serials a serial is listed once as bmc-only, os-only or mismatch exactly when the lists differ in that way, and each disk without a serial has one entry |
| `DiskJoin.ListedIffFactual` | internal/storage/join.go:51-104 | for any lists, repeated serials included, an entry with its serial, reason, place and sizes is there exactly if the lists say so |
| `DiskJoin.NamedIsLast` | internal/storage/join.go:55-64 | the drive that speaks for a serial is the last one listed with it |
| `DiskJoin.ByPriorityIsOrdered` | internal/storage/join.go:118-125 | the cut takes bmc-only, then mismatch, then os-only, each in serial order |
| `DiskJoin.JoinKeepsWhatMatters` | internal/storage/join.go:109-132 | the result is sorted, every divergence when there are at most 64, else 64 of them such that nothing dropped has priority over, or comes before among its reason, anything kept |
| `DiskJoin.OrderMeans` | internal/storage/join.go:109-125 | the order is by serial, then bmc-only, mismatch, os-only; what is dropped first is os-only, and bmc-only last |
| `DiskJoin.IndexDrives` | internal/storage/join.go:55-64 | the first pass lists the drives without a serial and indexes the others, the last of a serial winning |
| `DiskJoin.AddDisk` | internal/storage/join.go:66-93 | one disk of the node adds exactly its divergence |
| `DiskJoin.AddUnseen` | internal/storage/join.go:95-104 | the last pass adds exactly the drives the node does not see |
| `DiskJoin.Collect` | internal/storage/join.go:52-104 | the three passes give all divergences |
| `DiskJoin.KeepReason` | internal/storage/join.go:120-124 | the inner loop keeps the entries of one reason while there is room |
| `DiskJoin.Join` | internal/storage/join.go:51-133 | the passes, the sort and the cut give the specified result |

## Left out

- The React screens, the HTTP servers, `cmd` wiring, the Kubernetes client, SSH transport and image building: input and output. Where a core calls them, their answers are arbitrary.
- HMAC, SHA-256 and the other library internals.
- Floating-point rounding and 32-bit or 64-bit overflow of rates, percentages and error sums. The model uses exact rationals with floor.
- Message texts, severities and clipping. A health counter is the set of the devices it counts, since a verdict depends only on whether there are any.
- `trafficWindows.annotate`, which also drops the history of links no longer listed: it would add one easy member.
- `Client.get`, `Client.Read` and `Reader.Placement`: what they decide is when `login` is called, and the gate's theorems hold for every order of calls.
- More than one active manager, and operators' edits of the gate's Secret in the middle of a run.
- Delivery lists with two records of one subscription. The order of the records is not modelled: they are a map by subscription.
- `tallyDeliveries`' last success and last error, and the `LastError` and `LastDeliveredAt` of a record: copied, never decided on.
- `spec.alertRelease`, by which an administrator closes an alert a read is holding. It ends a run of the health model.
- Findings are a set: which of two findings for one alert is recorded last is left open, and the theorems hold for either.
- The commands `Join` runs in a session: one event of the installation's trace.
- `shellQuote`, text parsers, Redfish decoding, `ThresholdsFrom`, `NetExpectationsFrom` and similar lookups: easy, or a matter of formats.
- Other controllers and API types.
