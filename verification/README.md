# WhatsApp CRM: a verified model

A Dafny model of the parts of the platform that carry arithmetic, protocols and state machines, with proofs of
what they promise. `dafny verify dfyconfig.toml` checks all of it.

The contract package states most of the rules; the API services implement them. The model follows the services'
branches, guards and statement boundaries, and states the contract's promises about them. Where code and
documentation disagree the model keeps the code, gives the input that shows it, and states exactly when the promise
does hold.

How the pieces are modelled:

- **Concurrency.** A service method that runs several transactions is modelled transaction by transaction, with
  arbitrary transactions of other writers in between. Runs are sequences of such steps. Nothing relates what a writer
  read to what it later writes against, except the guards its statements carry.
- **Time.** Instants are integers, or a calendar date with a time of day where months matter. Clocks only move forward.
- **Numbers.** Colour and confidence arithmetic is over the reals; `Math.round` is the floor of x + 1/2.
- **Text.** Strings are sequences of characters; the byte cap works on 16-bit code units.

| module | what it models |
|---|---|
| `Srgb`, `HexColour`, `BrandTheme` | brand colour derivation and its WCAG 2.2 contrast promises (success criteria 1.4.3 and 1.4.11) |
| `Tickets`, `TicketLog` | ticket rows, every transaction that writes them, and the append-only event log |
| `TicketLinking` | the auto-linker's create-or-attach protocol |
| `RoutingRules`, `Rotation`, `TicketRouting`, `RoutingRounds` | routing rules, rotation, the routing job, and rounds of jobs |
| `Ingestion`, `IngestionLaws`, `IngestionRecovery`, `MessageStatus` | webhook storage, processing, effects and recovery |
| `Usage`, `UsagePeriod` | usage counters and billing periods |
| `Metering`, `Notices`, `Deliveries` | counters and allowance notices over runs of ingestion, and the runs in which they go wrong |
| `Lifecycle` | the tenant lifecycle and its timers |
| `BotGate`, `BotTurns`, `BotLimit` | the chatbot's gates, its turns, and the turn limit |
| `Calendar`, `Reporting`, `ListOrder`, `Utf8Cap`, `BusinessHours`, `Realtime`, `RealtimeSockets`, `CustomFields`, `Hostname` | smaller kernels |

## Promises the code does not keep

Each has a lemma at a concrete input or a reachable state, beside one that says exactly when the promise holds.

- A message stays on one ticket with at most one `created`: only while that ticket is active
  (`RedeliverySameTicket`, `OneMessageCreatedTwice`).
- The linker never throws a race: certain among linkers alone or with one quiet attempt, false with agents
  (`LinkersAloneNeedTwo`, `LostExactly`, `EveryBoundCanBeExhausted`).
- A ticket's log rebuilds it: exactly while no bot reply's pause and no user removal matches a row (`FaithfulExactly`, `SilentWritesDrift`).
- A manual ticket is never routed again: except by a deferral decided before it was assigned, or after its holder is
  removed (`ManualKeptExactly`, `StaleDeferralOverwritesManual`, `RemovedHolderIsRerouted`).
- A redelivered routing job finds the ticket assigned and skips: exactly while it is active and held
  (`WritesNothingExactly`, `Redelivered`). It repeats a deferral's event (`DeferredTwice`), and it places again a ticket a
  person has released: the contract lists "released" under `manual`, the code writes `pending` (`ReleasedIsRoutedAgain`).
- A processed webhook event is never claimed again: only once no other worker holds it (`ProcessedLostExactly`,
  `SettledForEver`, `ProcessedIsNotFinal`).
- Counters equal the rows of their period: without a subscription, exactly when no opening is past a clamped month end
  or before the tenant's creation off a boundary (`CountersReconcileExactly`, `ClampedOpeningMiscounted`). With billing
  periods a period has counted exactly its own conversations exactly when every opening fitted, as it was written, the
  period in force and the conversations counted before it (`InForceExactly`); a late delivery and an upgrade inside a
  window do not (`LateDeliveryMiscounted`, `UpgradeMiscounted`). That is about which conversations: a counter can still
  show the right number when strays cancel.
- An allowance notice goes out once a period, on the next message at the latest: once a period and allowance, and not at
  all when the opening that crosses the line is a receipt's, or its worker dies before announcing it
  (`NoticeSentExactly`, `AnnouncedExactly`, `NoticeLost`, `RaisedCapNotifiesTwice`).
- An inbound message opens the service window: not on a thread opened by a receipt stamped at or after it
  (`WindowClosedExactly`, `WindowStaysClosed`).
- Thirty suspended days precede deletion: not when the tenant is reactivated and suspended again during the purge
  (`PurgeServesRetentionExactly`, `ReactivatedTenantPurged`). A grace period can be cut short the same way
  (`GraceCutShortExactly`, `PayingTenantSuspended`), and an active tenant can lose data to a purge still running
  (`ActiveDataSafeExactly`, `ActiveWithPurgeInFlight`).
- No bot reply reaches a released thread: exactly when, between its snapshot and its commit, nobody released the thread, or
  it was taken back since (`ReplyLandsReleasedExactly`, `ReplyTalksOverAgent`).
- No engagement exceeds the turn limit: exactly when every reply, as it commits, finds the service's count and the replies
  it has lost below the limit (`LimitHoldsExactly`); two turns at once break it, and so does resolving the thread under a
  single one (`TwoTurnsHeldTogether`, `ResolvedUnderTurnExceedsLimit`).
- A stored custom field value is always of a defined field of its type: exactly when edits are still current as they commit
  (`AnchoredExactly`, `StaleReadOrphansValue`, `StaleReadMistypesValue`).
- Sockets follow the read rule: always while their session lives; after that a socket still open is served wrongly exactly
  when the rule judges its handshake's access and its user's present one differently, and one that joins after the re-check
  escapes it (`LiveSocketsFollowTheReadRule`, `ScanMissesPendingSocket`).
- Non-ASCII hostnames are refused: the Kelvin sign is converted to `k` (`NonAsciiRefusedExactly`, `KelvinSignConverted`).

## Model

| member | source | states |
|---|---|---|
| `Srgb.SrgbUnique` | packages/contracts/src/branding-theme.ts:274-278 | The channel curve, with the power 2.4 stated as y^5 = x^12 over the reals, has at most one solution table |
| `Srgb.SrgbIsCurve` | packages/contracts/src/branding-theme.ts:274-278 | That table is strictly increasing from 0 to 1 and has the two bounds the shipped canvases need |
| `Srgb.ContrastLaws` | packages/contracts/src/branding-theme.ts:162-169 | Contrast is symmetric, at least 1, and 1 exactly at equal luminance |
| `Srgb.WhiteTimesBlack` | packages/contracts/src/branding-theme.ts:162-169 | For every colour, contrast to white times contrast to black is 21 |
| `Srgb.PureExtremeClears` | packages/contracts/src/branding-theme.ts:74-88 | So white or black always clears 4.5 |
| `Srgb.NoPeakBetween` | packages/contracts/src/branding-theme.ts:226-246 | Crossing argument: between a start and a pure extreme, contrast to any background never exceeds the larger end |
| `HexColour.HexRoundTrip` | packages/contracts/src/branding-theme.ts:285-301 | Formatting a colour and parsing it gives it back |
| `HexColour.RgbRoundTrip` | packages/contracts/src/branding-theme.ts:285-301 | Parsing accepted text and formatting it gives the text back |
| `HexColour.NormaliseIdempotent` | packages/contracts/src/branding-theme.ts:303-314 | An accepted colour is its own normal form |
| `HexColour.SchemaColoursAccepted` | packages/contracts/src/branding-theme.ts:303-314 | Every six-digit hex colour, in either case and with any white space around it, normalises to its lower case |
| `BrandTheme.MixMonotone` | packages/contracts/src/branding-theme.ts:260-266 | Rounded mixing is a one-way walk: more weight never moves a channel back |
| `BrandTheme.OnAccentFor` | packages/contracts/src/branding-theme.ts:140-155 | The loop returns the first candidate of largest contrast |
| `BrandTheme.OnAccentClears` | packages/contracts/src/branding-theme.ts:133-155 | Text on any accent clears 4.5:1 |
| `BrandTheme.BlackIsNeeded` | packages/contracts/src/branding-theme.ts:74-88 | `#777777` defeats the other two candidates, so the third is not optional |
| `BrandTheme.RampAwayFrom` | packages/contracts/src/branding-theme.ts:226-246 | The loop returns the ramp colour of the declarative first hit, or none |
| `BrandTheme.RampFirstHit` | packages/contracts/src/branding-theme.ts:226-246 | An answer clears, and no earlier step of the ramp does |
| `BrandTheme.RampGivesUp` | packages/contracts/src/branding-theme.ts:226-246 | Null exactly when both the start and the pure extreme fail, even when the start lies beyond the background |
| `BrandTheme.ReadableClears` | packages/contracts/src/branding-theme.ts:218-220 | Text on the subtle accent clears 4.5:1 |
| `BrandTheme.FallbackUnreachable` | packages/contracts/src/branding-theme.ts:199-208 | On both canvases the platform fallback ring is never used |
| `BrandTheme.EveryTenantColourIsAccessible` | packages/contracts/src/branding-theme.ts:107-131 | For every pair of tenant colours and both themes, all seven tokens are concrete hex and the three checked pairs clear; otherwise the error is exactly an unparsable colour |
| `BrandTheme.HoverMovesAway` | packages/contracts/src/branding-theme.ts:90-95 | Hover is never lighter in the light theme and never darker in the dark one |
| `Tickets.CommitKeepsOneActive` | packages/contracts/src/tickets.ts:19-87 | Every transaction, from any stale reading, leaves at most one active ticket per contact |
| `Tickets.CommitKeepsNumbers` | apps/api/src/tickets/ticket-linker.service.ts:361-411 | Ticket numbers stay unique and below the counter, whatever inserts lose |
| `Tickets.CommitKeepsDeferral` | apps/api/src/assignment/rule-engine.service.ts:533-636 | The deferral reason and time are present exactly while the routing state is `deferred` |
| `Tickets.RunKeepsConsistent` | packages/contracts/src/tickets.ts:19-87 | Every declared constraint on ticket rows and the append-only log hold after every run of all ten kinds of transaction |
| `Tickets.RunNeverReactivates` | packages/contracts/src/tickets.ts:45-83 | Finished tickets never become active again, closed ones never move, contact and number never change |
| `Tickets.ReactivationConflict` | packages/contracts/src/tickets.ts:45-83 | Why the table has no way back: re-activating breaks the unique index exactly when the contact has an active ticket |
| `Tickets.UpdateMeaning` | apps/api/src/tickets/ticket-command.service.ts:567-624 | An agent update is applied exactly as asked or writes nothing, and a status move is one the table allows |
| `TicketLog.CommitFaithful` | packages/contracts/src/tickets.ts:362-485 | A transaction keeps the log true of the row exactly when it is not one of the two writers that append nothing and match it |
| `TicketLog.FaithfulExactly` | packages/contracts/src/tickets.ts:362-485 | Over every run, every log is true of its row at every point exactly when no silent write of the run matches a row as it commits |
| `TicketLog.ReplayAnyPoint` | packages/contracts/src/tickets.ts:362-485 | At any point of such a run, replaying the log prefix gives the status, priority and holder then in force |
| `TicketLog.NextEventRepairs` | packages/contracts/src/tickets.ts:440-485 | A drifted field is put right by the next commit that records a change of that field, whatever else that commit records |
| `TicketLog.SilentWritesDrift` | apps/api/src/ai/bot-turn.service.ts:546-557 | The drift is reachable: a bot pause and a user removal leave a log naming a wrong status and a departed holder |
| `TicketLog.EscalationsMoveNothing` | apps/api/src/tickets/ticket-command.service.ts:953-992 | Erasing every escalation from any run changes no row, no holder, and nothing a reader rebuilds from any log |
| `TicketLinking.TicketLinker.EnsureTicketForMessage` | apps/api/src/tickets/ticket-linker.service.ts:125-167 | The retry loop equals the specification of the whole call, under any interference before and during each attempt |
| `TicketLinking.TicketLinker.LinkOnce` | apps/api/src/tickets/ticket-linker.service.ts:222-240 | One attempt commits exactly the transaction its reading calls for, and answers or reports a lost race |
| `TicketLinking.TicketLinker.Attach` | apps/api/src/tickets/ticket-linker.service.ts:269-341 | Reopen, link or neither; a lost reopen writes nothing |
| `TicketLinking.TicketLinker.Create` | apps/api/src/tickets/ticket-linker.service.ts:361-411 | A conflict consumes a number and inserts nothing |
| `TicketLinking.EnsureIsARun` | apps/api/src/tickets/ticket-linker.service.ts:125-167 | A call is a run of transactions, so everything runs keep, calls keep |
| `TicketLinking.EnsureMeaning` | packages/contracts/src/ticket-linking.ts:84-117 | Every attempt before the answering one was lost; the answer is true of the very states that attempt read and wrote: `created` put a new open ticket where none was active, `attached` names the ticket active at its read, reopened if pending, with a second conversation noted. A call that runs out lost every attempt |
| `TicketLinking.LostExactly` | apps/api/src/tickets/ticket-linker.service.ts:212-240 | An attempt is lost exactly to a write between its read and its own: another create that brought the contact a ticket still active, or a reopening or update that took the read ticket off pending for the rest of the attempt; attaching to an open ticket is never lost |
| `TicketLinking.RaceNeedsEveryInterference` | packages/contracts/src/ticket-linking.ts:127-129 | The attempts run out only if every one was interfered with between read and write |
| `TicketLinking.LinkersAloneNeedTwo` | packages/contracts/src/ticket-linking.ts:119-130 | Any number of linker workers alone never need a third attempt |
| `TicketLinking.EveryBoundCanBeExhausted` | apps/api/src/tickets/ticket-linker.service.ts:21-30 | "Never throws a race" fails for every bound: agents finishing each winner can exhaust any number of attempts |
| `TicketLinking.BurstCreatesOne` | packages/contracts/src/ticket-linking.ts:122-125 | However many workers read "no ticket" at once, exactly one ticket is created |
| `TicketLinking.UndisturbedCall` | packages/contracts/src/ticket-linking.ts:122-125 | Which ticket an undisturbed call lands on, and exactly when it writes nothing |
| `TicketLinking.RedeliverySameTicket` | packages/contracts/src/ticket-linking.ts:122-125 | After a first delivery and any writes since, a redelivery, whatever interferes with either, lands on the same ticket exactly when one of its attempts answers and that ticket is the contact's active one at that attempt's reading; undisturbed, exactly when the ticket is still active |
| `TicketLinking.OneMessageCreatedTwice` | packages/contracts/src/ticket-linking.ts:122-125 | "At most one `created`" fails: resolve the ticket, redeliver the job |
| `RoutingRules.NoDataIsFalse` | apps/api/src/assignment/rule-conditions.ts:14-58 | A condition with no data is false whichever way it asks; `is_not_set`, `equals`, `not_equals` are a trichotomy |
| `RoutingRules.AndOfConditionsOrOfValues` | apps/api/src/assignment/rule-conditions.ts:28-72 | Conditions are AND, `any` values are OR, a blank keyword matches nothing |
| `RoutingRules.LazyFactsSuffice` | apps/api/src/assignment/routing-facts.ts:68-79 | Loading only the sources some rule names changes no rule's answer |
| `RoutingRules.FirstUsableMatch` | apps/api/src/assignment/rule-engine.service.ts:375-397 | The loop returns the first rule that matches with a usable target |
| `RoutingRules.SelectedWins` | packages/contracts/src/assignment.ts:149-186 | The loop over the loaded listing picks the least (position, id) among the stored rules that could take the ticket |
| `Rotation.ResolveFallbackAssignment` | apps/api/src/assignment/rotation-fallback.resolver.ts:82-112 | The scan takes the first candidate under cap, else explains |
| `Rotation.ResolveMeaning` | packages/contracts/src/assignment.ts:351-379 | The choice and each of the three reasons hold exactly when their condition holds of the stored users and tickets, in the published precedence |
| `Rotation.LeastLoaded` | apps/api/src/assignment/rotation-fallback.resolver.ts:36-45 | Nobody under cap is less loaded than the choice |
| `Rotation.NextInRing` | apps/api/src/assignment/rotation-fallback.resolver.ts:36-45 | At equal load the choice is the next id round the ring from the cursor |
| `Rotation.TakingRaisesOneLoad` | apps/api/src/assignment/rotation-fallback.resolver.ts:164-211 | An assignment raises one load by one and no other |
| `Rotation.ConcurrentOvershoot` | apps/api/src/assignment/rotation-fallback.resolver.ts:60-71 | n jobs deciding on one reading overshoot the cap by at most n - 1; one never does |
| `RoutingRounds.RoundOfJobsIsFair` | apps/api/src/assignment/rotation-fallback.resolver.ts:36-45 | Running as many routing jobs as there are eligible agents, resolver, commit and cursor included, from equal loads: every job assigns, each agent is given exactly one ticket, every load ends one higher |
| `TicketRouting.TicketRouter.RouteTicket` | apps/api/src/assignment/rule-engine.service.ts:94-120 | The job equals plan, then write, against whatever the ticket has become; the cursor moves when rotation decides |
| `TicketRouting.LazySelection` | apps/api/src/assignment/rule-engine.service.ts:195-222 | The selected rule is the one full facts would select |
| `TicketRouting.RouteMeetsSpecification` | packages/contracts/src/assignment.ts:459-476 | An undisturbed job answers r exactly when r is what the design prescribes for the stored rules, users and tickets, deferral reasons in their published precedence included |
| `TicketRouting.ResultMatchesRow` | apps/api/src/assignment/rule-engine.service.ts:434-560 | The published result follows its table and is what the row now holds: one target column on an assignment, the flag and no holder on a deferral; a skip changes nothing |
| `TicketRouting.WritesNothingExactly` | packages/contracts/src/assignment.ts:302-307 | A job writes nothing exactly when its ticket is finished or held, and skips as assigned exactly when it is active and held |
| `TicketRouting.Redelivered` | packages/contracts/src/assignment.ts:302-307 | After a first job under any interference and any writes since, a redelivery changes nothing exactly when the ticket is by then finished or held, whatever the first job answered; deferring a ticket still deferred moves no column but appends its event |
| `TicketRouting.RedeliveredAtOnce` | packages/contracts/src/assignment.ts:302-307 | With nothing in between, that is exactly when the first job did not defer |
| `TicketRouting.DeferredTwice` | apps/api/src/assignment/rule-engine.service.ts:499-560 | Such a repeat is reachable: two deliveries for a tenant with nobody in it append two identical events |
| `TicketRouting.ManualKeptExactly` | packages/contracts/src/tickets.ts:131-168 | Over any run a manual ticket keeps its holder and state throughout exactly when no write of the run is, as it commits, a deferral of it, the removal of its holder, a person's reassignment, or a rule or rotation assignment while nobody holds it |
| `TicketRouting.UndisturbedManual` | packages/contracts/src/tickets.ts:131-168 | Without interference, a manual ticket is left alone exactly when finished or still held |
| `TicketRouting.StaleDeferralOverwritesManual` | apps/api/src/assignment/rule-engine.service.ts:533-560 | "Manual is never touched again" fails by a race: the deferral guard looks at the routing state alone |
| `TicketRouting.RemovedHolderIsRerouted` | apps/api/src/people/users.service.ts:326-329 | It fails with no race too: a removed holder leaves a manual, unheld ticket, and the next job gives it to the agent its query lists |
| `TicketRouting.ReleasedIsRoutedAgain` | apps/api/src/tickets/ticket-command.service.ts:1269-1277 | A ticket rotation placed and a person released is placed again by the redelivered job: a release writes `pending`, not the `manual` the contract lists it under |
| `Ingestion.RunKeeps` | packages/contracts/src/webhooks.ts:8-12 | In every run no stored delivery is lost or altered, messages and threads stay, statuses only climb |
| `IngestionLaws.RunKeepsInv` | packages/contracts/src/usage.ts:80-93 | In every run: unread counts are conserved, each period's counter equals the threads billing resolved to that period (whether the source rows agree is `Metering`'s question), no message is announced twice |
| `IngestionLaws.AppliedAtMostOnce` | apps/api/src/webhooks/whatsapp-inbound.writer.ts:183-288 | Once applied, an item applied again at any later point of any run writes nothing and announces nothing |
| `IngestionLaws.RunKeepsClocks` | apps/api/src/webhooks/whatsapp-inbound.writer.ts:757-772 | Out-of-order delivery never moves an inbox clock back; it is the latest of the opening and every inbound message |
| `IngestionLaws.WindowClosedExactly` | apps/api/src/webhooks/whatsapp-inbound.writer.ts:788-812 | The service window of a thread is closed exactly when a receipt opened it and no customer message is later |
| `Deliveries.WindowStaysClosed` | apps/api/src/webhooks/whatsapp-inbound.writer.ts:788-812 | A receipt, then a message stamped no later: the message is unread on a thread whose service window is closed |
| `IngestionRecovery.ProcessedMeansApplied` | apps/api/src/webhooks/whatsapp-event.processor.ts:47-86 | In every run a `processed` event has every message stored and handed to the linker and every status reached, in the rows of a tenant whose account the event's number has been connected to |
| `IngestionRecovery.ProcessedLostExactly` | apps/api/src/webhooks/webhook-events.repository.ts:93-116 | The marks are unguarded: `processed` is lost exactly when another worker that held the event parks it |
| `IngestionRecovery.ProcessedIsNotFinal` | apps/api/src/webhooks/webhook-events.repository.ts:56-65 | "Never claimed twice" fails: claim twice, finish, fault, replay, claim |
| `IngestionRecovery.SettledForEver` | apps/api/src/webhooks/webhook-events.repository.ts:56-65 | Processed with no worker holding it is final |
| `IngestionRecovery.Recoverable` | apps/api/src/webhooks/webhook-events.repository.ts:118-196 | From any reachable state any stored event can be finished, and ends `processed` if its numbers, tenants and contacts are good |
| `IngestionRecovery.SweepTakesTheOldest` | apps/api/src/webhooks/webhook-events.repository.ts:203-234 | A stale event is swept, or the sweep is full of events no younger; nothing parked or processed is swept |
| `MessageStatus.FoldIsHighest` | packages/contracts/src/messages.ts:54-72 | Folding any stream of statuses gives the highest of the start and the stream, and nothing else |
| `MessageStatus.OrderAndRepetitionIrrelevant` | packages/contracts/src/messages.ts:54-59 | Only which statuses were delivered matters, not order or repetition |
| `MessageStatus.FailureIsFinal` | packages/contracts/src/messages.ts:65-72 | Failed exactly when it started or was ever delivered failed |
| `MessageStatus.AnnouncedOnce` | apps/api/src/webhooks/whatsapp-inbound.writer.ts:863-885 | No status of a message is announced twice |
| `Usage.UsageCounters.Increment` | apps/api/src/entitlements/usage-counter.service.ts:53-82 | Adds to one key, returns the new total, and never rewrites a period end |
| `Usage.UsageCounters.RecordGauge` | packages/contracts/src/usage.ts:107-108 | Keeps the high-water mark |
| `Usage.UsageCounters.Current` | apps/api/src/entitlements/usage-counter.service.ts:91-108 | An absent row reads as zero |
| `Usage.UsageCounters.Reconcile` | packages/contracts/src/usage.ts:115-116 | The recount makes every counter of the period agree with its source rows |
| `Usage.ReconcileAgrees` | packages/contracts/src/usage.ts:90-92 | Reconciliation is right, touches nothing else, is a no-op exactly when the counters already agree, and is idempotent |
| `Usage.IncrementWithItsRow` | packages/contracts/src/usage.ts:82-88 | A row and its increment keep a period in agreement exactly when the increment went to the period that contains the row |
| `Usage.CounterIsTheSum` | packages/contracts/src/usage.ts:82-88 | A counter holds what it held plus what was added, in any order |
| `Usage.GaugeIsTheHighWater` | packages/contracts/src/usage.ts:14-21 | A gauge is the maximum of what it held and everything recorded |
| `Usage.CrossesItsLine` | apps/api/src/billing/volume-notifier.service.ts:86-107 | A total crosses into a notice exactly when it is that notice's line; where the two lines coincide only the cap has one |
| `UsagePeriod.AnniversaryContains` | apps/api/src/entitlements/usage-period.resolver.ts:64-100 | The anniversary window contains the instant exactly when it is not past a clamped anniversary |
| `UsagePeriod.BeforeTheAnchor` | apps/api/src/entitlements/usage-period.resolver.ts:64-100 | The same for instants before the anchor |
| `UsagePeriod.ClampedMonthStraddles` | apps/api/src/entitlements/usage-period.resolver.ts:41-46 | A tenant created on 31 January: on 28 February the January window is still metered |
| `UsagePeriod.WindowsMeet` | apps/api/src/entitlements/usage-period.resolver.ts:41-46 | Window boundaries computed from the anchor are strictly increasing |
| `UsagePeriod.InOneWindow` | apps/api/src/entitlements/usage-period.resolver.ts:41-46 | Every instant lies in exactly one anniversary window |
| `UsagePeriod.MeteredNextDoor` | apps/api/src/entitlements/usage-period.resolver.ts:64-100 | The window metered is the one the instant lies in or its neighbour towards the anchor, and which of the two is decided by a check on the two instants alone |
| `Metering.CountersReconcileExactly` | packages/contracts/src/usage.ts:79-116 | In every run of ingestion, each opening metered in the period billing resolves for it, of a tenant without a subscription period: every window's counter equals the conversations opened in it, and `reconcile` is a no-op in every window, exactly when every opening is well placed |
| `Metering.CountersRightExactly` | apps/api/src/entitlements/usage-period.resolver.ts:41-46 | Misplaced openings never cancel: one is enough to leave some window's counter wrong |
| `Metering.ReconcileNoOpExactly` | packages/contracts/src/usage.ts:90-92 | Recounting the conversation rows changes no counter exactly when the period's counter is the number of conversations opened in it |
| `Metering.InForceExactly` | apps/api/src/entitlements/usage-period.resolver.ts:17-24 | In every run, with billing periods written, changed and cleared at any moment, overlapping or not: every period that counted anything counted exactly the conversations opened in it exactly when every opening, as it was written, fitted the period in force and the conversations counted before it |
| `Notices.NoticeSentExactly` | apps/api/src/billing/volume-notifier.service.ts:25-37 | In every run, with the allowance changed at any moment: each notice about an allowance is sent at most once a period, one opening crosses its line exactly when the counter has reached it, and the notice was sent exactly when that opening was announced against that allowance |
| `Notices.AnnouncedExactly` | apps/api/src/webhooks/whatsapp-inbound.writer.ts:274-280 | An opening is announced exactly when an inbound message not yet stored made it, on a plan with an allowance, in a worker that outlived the commit; against the allowance of that moment, and never later |
| `Notices.SilentCrossingIsFinal` | apps/api/src/webhooks/whatsapp-inbound.writer.ts:800-805 | A crossing made in silence, or against another allowance, loses the notice in every run from there; no later inbound message carries it |
| `Deliveries.NoticeLost` | apps/api/src/webhooks/whatsapp-inbound.writer.ts:800-812 | It happens both ways: a receipt opens the crossing thread, or the worker dies after committing it |
| `Deliveries.RaisedCapNotifiesTwice` | apps/api/src/billing/volume-notifier.service.ts:25-37 | "Exactly one event per period" is per allowance: raised between two openings, it is reached and announced twice in one period |
| `Deliveries.ClampedOpeningMiscounted` | apps/api/src/entitlements/usage-period.resolver.ts:41-46 | From the empty store, one message past a clamped anniversary leaves a counter wrong |
| `Deliveries.LateDeliveryMiscounted` | apps/api/src/entitlements/usage-period.resolver.ts:17-24 | A message stamped before the subscription's period and delivered in it is counted in it |
| `Deliveries.UpgradeMiscounted` | apps/api/src/entitlements/usage-period.resolver.ts:17-24 | A subscription that begins inside a counted window splits it: both openings fall in the period in force, and the window counts one of the two opened in it |
| `Lifecycle.TablesAgree` | apps/api/src/tenancy/lifecycle/tenant-lifecycle.state.ts:88-108 | The trigger table and the transition table describe one graph |
| `Lifecycle.RunKeepsClocks` | apps/api/src/tenancy/lifecycle/tenant-lifecycle.state.ts:175-233 | In every run each clock runs in exactly its own state |
| `Lifecycle.DeletedForEver` | packages/contracts/src/tenant.ts:38-64 | `deleted` is absorbing: no column changes again |
| `Lifecycle.OneRoadToDeleted` | packages/contracts/src/tenant.ts:44-50 | `deleted` is entered only by a purge job committing on a suspended tenant |
| `Lifecycle.CreatedNeverReentered` | packages/contracts/src/tenant.ts:54-64 | `created` is never re-entered |
| `Lifecycle.ActiveReachable` | packages/contracts/src/tenant.ts:54-64 | `active` is one step from every state but `deleted` |
| `Lifecycle.TransitionIdempotent` | apps/api/src/tenancy/lifecycle/tenant-lifecycle.service.ts:116-123 | Applying a transition twice is applying it once |
| `Lifecycle.TimersOnlyWithdraw` | apps/api/src/tenancy/lifecycle/tenant-lifecycle.state.ts:52-86 | No timer edge touches `active`; only a timer deletes |
| `Lifecycle.PurgeServesRetentionExactly` | apps/api/src/tenancy/lifecycle/tenant-purge.service.ts:197-237 | A purge commit serves the retention promise exactly when forced or the tenant's own clock has elapsed then; always when it read this suspension |
| `Lifecycle.UnbrokenRunsServeRetention` | packages/contracts/src/tenant.ts:160-195 | In runs whose purges commit on the suspension they read, deletion takes thirty unbroken days or force |
| `Lifecycle.ReactivatedTenantPurged` | apps/api/src/tenancy/lifecycle/tenant-purge.service.ts:197-237 | Without that, it fails: reactivated and suspended again during a purge, a tenant is deleted at once |
| `Lifecycle.ActiveDataSafeExactly` | apps/api/src/tenancy/lifecycle/tenant-purge.service.ts:328-350 | An active tenant's data survive every run in which it stays active exactly when no purge begun in an earlier suspension is in flight, or there are none |
| `Lifecycle.ActiveWithPurgeInFlight` | apps/api/src/tenancy/lifecycle/tenant-purge.service.ts:197-237 | Such a state is reachable: the customer pays while the purge is running |
| `Lifecycle.GraceCutShortExactly` | apps/api/src/tenancy/lifecycle/tenant-lifecycle.sweeper.ts:159-171 | In every run, a sweep's commit suspends a tenant early exactly when the tenant is in a grace period other than the one the sweep read and that one has not elapsed |
| `Lifecycle.PayingTenantSuspended` | apps/api/src/tenancy/lifecycle/tenant-lifecycle.sweeper.ts:159-171 | It happens between a payment and the next failure |
| `Lifecycle.TrialCommitNeverEarly` | apps/api/src/tenancy/lifecycle/tenant-lifecycle.sweeper.ts:138-147 | The trial sweep has no such case |
| `Lifecycle.UntouchedTrialTimeline` | packages/contracts/src/tenant.ts:160-195 | Left alone, a trial is deleted no sooner than sixty-five days after it began |
| `BotGate.DecisionMeaning` | apps/api/src/ai/bot-eligibility.service.ts:196-293 | A turn starts exactly when nothing refuses and the limit is not reached; a refusal is the first that applies; an opted-out contact is sent nothing |
| `BotGate.ReplyMeaning` | packages/contracts/src/ai.ts:200-221 | A reply is authorised exactly when answered, fully grounded, and both signals reach the threshold |
| `BotGate.ReplyMonotone` | packages/contracts/src/ai.ts:200-211 | Better retrieval never refuses; a higher threshold never admits |
| `BotGate.RetrievalMonotone` | packages/contracts/src/ai.ts:214-221 | Retrieval confidence is monotone, clamped, and full exactly at the rank target |
| `BotTurns.AtMostOneReply` | packages/contracts/src/ai.ts:68-83 | Under redelivery, crashes and any interleaving a message gets at most one reply |
| `BotTurns.EveryReplyWellGrounded` | packages/contracts/src/ai.ts:200-242 | In every run every reply sent answered, cited only what its turn retrieved, and had both signals at or above the threshold its turn read |
| `BotTurns.ReplyLandsReleasedExactly` | packages/contracts/src/conversations.ts:15-32 | From the snapshot that admitted a turn, over any run, its reply lands in a released thread exactly when an agent, or another turn's give-away or refusal, released the thread since and no resolve or other reply took it back |
| `BotLimit.ReplyTalksOverAgent` | apps/api/src/ai/bot-turn.service.ts:224-262 | It happens when an agent takes the thread during the model call |
| `BotTurns.ReplyTakesThreadBack` | apps/api/src/ai/bot-turn.service.ts:251-268 | The guard excludes `human_active` only, so a handed-off thread is taken back |
| `BotLimit.CountTrueExactly` | apps/api/src/ai/engagement-replies.ts:57-78 | The service's count stays the engagement's true number of replies exactly when no reply is sent that will not be counted, a check on the row's stamp and state, the snapshot's stamp and the turn's own timestamp |
| `BotLimit.CountPlusMissed` | apps/api/src/ai/engagement-replies.ts:57-78 | In every run an engagement's replies are the service's count and the ones it lost: all counted so far when a reply restarts the stamp, one when a reply is left out |
| `BotLimit.LimitHoldsExactly` | packages/contracts/src/ai.ts:68-83 | In every run, with any turns, agents and resolves interleaved, no engagement ever exceeds the limit exactly when every reply, as it commits, finds the service's count plus the replies that count has lost since the last resolve below the limit |
| `BotLimit.OneInFlightIsSafe` | packages/contracts/src/conversations.ts:15-32 | With one answering turn in flight and no resolve under it, agents acting at any moment, no engagement exceeds the limit; if moreover nobody releases the thread under that turn, nothing is sent to a released thread |
| `BotLimit.HeldTogetherExceedLimit` | apps/api/src/ai/bot-turn.service.ts:498-506 | Two turns held at once end one over the limit |
| `BotLimit.TwoTurnsHeldTogether` | apps/api/src/ai/bot-turn.service.ts:498-506 | Such a pair is reachable |
| `BotLimit.ResolvedUnderTurnExceedsLimit` | apps/api/src/ai/bot-turn.service.ts:251-268 | And never two turns in flight is not enough: a thread resolved under a turn ends the next engagement one over |
| `Calendar.NextDayIsNextNumber` | packages/contracts/src/reporting.ts:126-131 | The next calendar day is the next day number, across leap days |
| `Calendar.OrderIsNumberOrder` | packages/contracts/src/reporting.ts:126-131 | Chronological order is day-number order |
| `Calendar.TextRoundTrip` | packages/contracts/src/reporting.ts:21-22 | Every valid date with a four-digit year is an accepted report date that parses to itself |
| `Calendar.FieldsRoundTrip` | packages/contracts/src/reporting.ts:21-22 | Every accepted report date is the text of its fields |
| `Calendar.TextOrderIsDateOrder` | packages/contracts/src/reporting.ts:119-121 | String order on report dates is chronological order |
| `Reporting.PositiveExactlyWhenOrdered` | packages/contracts/src/reporting.ts:116-131 | The day count is at least one exactly when `from` is not after `to` |
| `Reporting.RangeSplits` | packages/contracts/src/reporting.ts:126-131 | Day counts add up across any split |
| `Reporting.DailyDates` | packages/contracts/src/reporting.ts:84-90 | The series has one entry per day of the range |
| `Reporting.SeriesIsTheRange` | packages/contracts/src/reporting.ts:84-90 | A day is in the series exactly when it is in the range; days are in order and once each |
| `Reporting.WholeYearsFit` | packages/contracts/src/reporting.ts:18-19 | Every calendar year is accepted whole |
| `ListOrder.MovedIds` | apps/web/lib/list-order.ts:26-44 | Copying and overwriting two slots exchanges the item with its neighbour |
| `ListOrder.NullExactly` | apps/web/lib/list-order.ts:18-36 | Null exactly at the end the move points to or for an unknown id |
| `ListOrder.UpAndDownUndo` | apps/web/lib/list-order.ts:26-44 | A move permutes the list and the opposite move undoes it |
| `ListOrder.UpIsNeighbourDown` | apps/web/lib/list-order.ts:26-44 | Moving an item up is moving its neighbour down |
| `ListOrder.MoveChangesByOne` | apps/web/lib/list-order.ts:26-44 | Each move changes the distance to any order by exactly one |
| `ListOrder.NoFewerMoves` | apps/web/lib/list-order.ts:26-44 | No fewer moves than inversions reach an order |
| `ListOrder.EveryOrderReachable` | apps/web/lib/list-order.ts:26-44 | Every order is reached in exactly its inversion count |
| `Utf8Cap.WithinKnowledgeContentCap` | packages/contracts/src/ai.ts:331-347 | True exactly when the UTF-8 encoding fits the cap |
| `Utf8Cap.NeverShorter` | packages/contracts/src/ai.ts:321-325 | The encoding has at least as many bytes as code units, so the early exit is sound |
| `Utf8Cap.Utf8RoundTrip` | packages/contracts/src/ai.ts:338-344 | The reference encoding decodes to the string's code points, lone surrogates replaced |
| `Utf8Cap.AsciiFitsExactly` | packages/contracts/src/ai.ts:313-316 | On ASCII the byte count is the length |
| `BusinessHours.TodayAndYesterdaySuffice` | packages/contracts/src/tenant.ts:657-715 | The predicate equals membership in the cyclic week of all intervals |
| `BusinessHours.IntervalShape` | packages/contracts/src/tenant.ts:705-715 | Intervals are at most a day and end within two days; only `24:00`-`00:00` is empty |
| `BusinessHours.ClockTimesAreMinutes` | packages/contracts/src/tenant.ts:760-764 | Every minute from 0 to 1440 has exactly one spelling |
| `BusinessHours.MoreHoursOpenMore` | packages/contracts/src/tenant.ts:672-674 | Absent and empty hours are never open; adding an interval only opens more |
| `BusinessHours.EqualEndsAreADay` | packages/contracts/src/tenant.ts:668-671 | Equal ends are a whole day |
| `Realtime.NamesInjective` | packages/contracts/src/realtime.ts:69-124 | Room names of different kinds or ids never collide |
| `Realtime.ConversationAudienceRooms` | packages/contracts/src/realtime.ts:159-175 | The branches build exactly the audience |
| `Realtime.AudienceIsTheReadRule` | packages/contracts/src/realtime.ts:138-158 | An emit reaches a socket exactly when it is of the tenant and the read rule admits it |
| `Realtime.HandoverReachesBothAudiences` | apps/api/src/realtime/realtime-relay.service.ts:583-603 | A hand-over reaches exactly those who could read before or can read after |
| `Realtime.EveryEmitFollowsTheReadRule` | packages/contracts/src/realtime.ts:30-49 | In every run of assignments, for the rooms a principal joined, what goes out follows the read rule for the assignment then in force |
| `RealtimeSockets.LiveSocketsFollowTheReadRule` | apps/api/src/realtime/realtime.gateway.ts:111-147 | In every run of sign-ins, connections, access changes, revocations and reassignments, an emit reaches a socket of a live session exactly by its user's access at that moment; one served wrongly has a dead session and a handshake the read rule judges differently |
| `RealtimeSockets.CleanExactly` | apps/api/src/realtime/realtime-relay.service.ts:415-465 | The re-check leaves no joined socket of the user with a dead session, and it stays so exactly until a revocation of one or the join of a socket whose session died since its handshake |
| `RealtimeSockets.ScanMissesPendingSocket` | apps/api/src/realtime/realtime-relay.service.ts:415-465 | Such a join is reachable, and hears a thread its user may no longer read |
| `CustomFields.MergeCustomFieldValues` | apps/api/src/contacts/custom-field-values.ts:53-93 | The entry loop equals all-or-nothing merge with every fault named |
| `CustomFields.MergeMeaning` | packages/contracts/src/contacts.ts:218-223 | No null is stored, absent keys are untouched, present ones set or cleared |
| `CustomFields.MergeIsAnAction` | packages/contracts/src/contacts.ts:218-223 | Applying p then q is applying their right-biased union |
| `CustomFields.DisjointPatchesCommute` | packages/contracts/src/contacts.ts:218-223 | Patches on different keys commute |
| `CustomFields.MergeComposes` | apps/api/src/contacts/custom-field-values.ts:46-52 | The same through validation, with the faulty keys exactly reported |
| `CustomFields.RunKeepsLegal` | packages/contracts/src/contacts.ts:170-173 | In every run each stored value was legal under the definition it was last written against |
| `CustomFields.IllegalOnlyByRemovedOption` | packages/contracts/src/contacts.ts:163-173 | With fresh reads, a stored value is illegal now exactly when its option was removed |
| `CustomFields.AnchoredExactly` | apps/api/src/contacts/contacts.service.ts:196-214 | Over any run no stored value is ever left under a field that is gone or of another type exactly when every edit, as it commits, writes only under fields still defined with the type it read |
| `CustomFields.StaleReadOrphansValue` | apps/api/src/contacts/contacts.service.ts:196-214 | A read that precedes a concurrent deletion leaves a value no field defines |
| `CustomFields.StaleReadMistypesValue` | apps/api/src/contacts/contacts.service.ts:196-214 | Or, if the field has come back as a number, a word under it |
| `Hostname.AcceptedRevalidates` | packages/contracts/src/tenant.ts:437-466 | An accepted hostname is ASCII and revalidates to itself |
| `Hostname.LabelCheckSubsumes` | packages/contracts/src/tenant.ts:451-466 | The trailing-dot and port checks follow from the label check |
| `Hostname.BareReservedNameHasOneLabel` | packages/contracts/src/tenant.ts:454-461 | The bare reserved names are refused by the label count already |
| `Hostname.NonAsciiRefusedExactly` | packages/contracts/src/tenant.ts:439-442 | Every input is answered as the one with `k` for each Kelvin sign; it is accepted exactly when, trimmed, nothing but Kelvin signs is non-ASCII and the ASCII text with `k` in their place is accepted |
| `Hostname.KelvinSignConverted` | packages/contracts/src/tenant.ts:439-442 | And that one is converted rather than refused |
| `Hostname.ChallengeInjective` | packages/contracts/src/tenant.ts:412-428 | Challenge names and values belong to one hostname and one token |
| `Hostname.ChallengeNameNotClaimable` | packages/contracts/src/tenant.ts:412-428 | No challenge name, nor anything beneath it, is claimable |

## Left out

- IEEE double rounding in colours, confidences and dates: exact reals and integers are used instead.
- Accent hover against on-accent: the code checks no contrast there, so nothing is claimed of it.
- `Intl` zone lookup: business hours take the weekday and minute; reporting takes calendar dates, not tenant-local midnights.
- `toLowerCase` beyond ASCII and the Kelvin sign, `Number(value)` and `Date.parse(value)` on field values: parameters.
- PostgreSQL, Redis and BullMQ themselves: atomic transactions, unique indexes and a lossy, repeating queue are what is kept of them.
- Tenancy and permissions inside ticket transactions: one tenant's rows; visibility checks and who may call what are omitted.
- Ticket fields other than contact, conversation, status, priority, holder, routing and deferral: subject, SLA columns and timestamps.
- `sla_breached` events, which carry nothing of a ticket's status, priority or holder.
- Ticket creation by hand and workflow actions beyond status, priority and assignment: they add rows or fields of the same shape.
- Contact rows, attachments, media jobs and the media half of ingestion: upserts with the same forward-only guards.
- Writers of conversation rows outside ingestion: the send path also moves `last_message_at`, so the clock theorems speak of ingestion's writes.
- Only `conversations_opened` is incremented by visible code; the other counters are covered by the generic counter theorems.
- `reconcile` and `recordGauge` have no implementation in the repository: the published contract is modelled.
- A queued ticket trigger that the queue refuses: ingestion counts the attempt.
- The bot's keyword match, retrieval and model call: their outcomes are inputs to a turn.
- A tenant changing its turn limit or confidence threshold: the limit is fixed for a run, the threshold is read by each turn.
- The tenant's handoff message, and the several statements of a bot snapshot: they count as no reply, and as one reading.
- Lifecycle notifications, reminders and audit rows, and blobs: they move no lifecycle column.
- `purge_started_at`: it chooses between a fresh and a resumed purge and is never read by a guard.
- Canned-response, session and conversation rooms: the audience of a conversation's events is never addressed through them.
- A custom field key that names a built-in object property, such as `constructor`, in a routing condition.
- Hostname rules applied outside the contract: names under the platform's own domain.
- Permissions, error codes, media types, model prices and other finite tables: nothing to prove beyond their entries.
- `TicketRouting.RouteTicket`: rules, people and rotation are read as one snapshot; the reads are separate statements in the service.
- `BotLimit.OneInFlightIsSafe`: a sufficient condition on what runs beside a turn; the exact ones are on each commit.
- `Srgb.SrgbUnique`: at most one table; that the curve's equations have a solution is not proved, the reals here having no roots to name.
