# Verified models of the MeshNet integration

MeshNet connects Meshtastic and MeshCore radios to Home Assistant.  Underneath its user interface sit a
handful of protocols and algorithms whose mistakes would be expensive: a Bluetooth bond that nobody owns
any more, a radio left half configured, a scheduler that floods the air.  This project models those parts
in Dafny 4.11 and proves what they promise, over every run, every reply of BlueZ or of a radio, every
placement of a cancellation and every clock.

`dafny verify dfyconfig.toml` checks everything.  Each file is one module:

| file | what it models |
|---|---|
| `BondLedger.dfy` | the pairing manager's ledger of bond proofs, as a class over three dictionaries and as a value |
| `Pairing.dfy`, `PairingInvariant.dfy`, `PairingSafety.dfy`, `PairingEvidence.dfy`, `PairingDecisions.dfy`, `PairingCancellation.dfy`, `PairingRuns.dfy` | one pairing attempt with its shielded commit-or-rollback task, as a state machine over the steps between awaits; its invariant, what every run keeps, what was seen before the attempt acts, what each answer and each cancellation leads to, and where particular runs end |
| `AttemptThrottle.dfy` | the brute-force throttle in front of pairing |
| `MeshCoreSettings.dfy`, `MeshCoreExecutor.dfy`, `MeshCoreRefinement.dfy`, `MeshCoreRules.dfy`, `MeshCoreFloats.dfy` | validation and execution of a MeshCore settings plan, the executor object, what a plan does to an honest radio, the rules in their own terms, and when a validated plan fails |
| `SettingsFields.dfy`, `SettingsRules.dfy` | the generic sanitizer and validator of gateway settings and the result of an apply, and what they mean for providers and users |
| `SettingsPreviews.dfy` | the store of single-use previews and the applies that consume them |
| `SecretState.dfy`, `SecretRules.dfy` | the byte stream of the private secret state, with its decoder, and which states are accepted |
| `MaintenanceScan.dfy`, `MaintenanceScheduler.dfy`, `MaintenanceSteps.dfy`, `MaintenanceRate.dfy`, `MaintenanceBounds.dfy` | the idle-maintenance scheduler with its owner task: its steps, its object, when exactly it does what, how often it submits, and what else every run keeps |
| `IdentityAliases.dfy` | the union-find over identity aliases |
| `NodeWindow.dfy` | the entity budget and the rolling node window |
| `PacketDedupe.dfy` | the packet deduplicator |
| `TokenBucket.dfy` | the token bucket |
| `JsonMerge.dfy`, `NodeMerge.dfy` | dictionary merging, and merging observations into a node |
| `BondOwnership.dfy` | bond ownership across advanced edits of the gateway list |
| `Basics.dfy`, `Ordering.dfy` | optional values, set sizes, strict orders and sorting |

Asynchronous code is modelled as atomic steps between awaits.  The clock, BlueZ, the radio, candidate and
busy callbacks, and the SDK are the environment: their answers are arbitrary events or parameters.  Time,
tokens and coordinates are real numbers.  Where an object updates its fields, a class does the same and
each method is tied to a function of the old state; what the program promises is then proved of those
functions.  The maintenance clock may run backwards; the deduplicator, the token bucket, the throttle and
the previews read the operating system's monotonic clock, which does not.

Some promises turned out to hold only under a condition.  They are stated with it:

- A scheduler resume lifts the fence before it reads the clock.  When the reading is rejected it raises,
  starts nobody and leaves the old due times in force; if somebody then starts the owner, two requests can
  go out at one instant (`RejectedResumeBreaksTheRate`).  Such a resume is harmless exactly when the old due
  times leave room for the next cycle (`GuardIsExact`), and runs of harmless resumes keep the rate bound
  (`RateIsBounded`).
- A MeshCore plan that gives a select field a float such as 1.0 passes validation but not the executor,
  after a write when the plan also edits the name or the position (`ValidPlanFailsOnlyOnFloats`).
- After an acknowledged removal the rollback does not check the controller again, so an attempt may end
  without its bond's proof on the word of another controller (`SwappedControllerIsAccepted`);
  `LastReadsAreExact` says which last reads let it end so.
- Dictionary merging is associative except for a leaf between two dictionaries (`MergeIsAssociative`).
- An update without the hop count's key can mix two hop measurements (`MixingIsExact`).
- Two owned gateways with one id let an edit orphan a bond (`PreservedUnlessHidden`).
- A writable field may refuse its own current value: a text longer than the field's limit, or a truth
  value to select (`WritableAcceptsItsValue`).  A text field that is given a number is read-only afterwards
  (`AcceptedValueFits`).  Fields that do so: `WritableMayRefuseItself`.
- A token request above the capacity is never granted (`TooMuchIsNeverGranted`).
- The throttle forgets an address that stays away while 128 others come.  A fourth attempt in the window is
  admitted exactly over such a gap (`FourthIsExact`); as many others spread over shorter gaps do not matter
  (`CrowdMustComeAtOnce`).

## Model

| member | source | states |
|---|---|---|
| PairingSafety.NoOrphanedBond | custom_components/meshnet/bluetooth_pairing.py:990-1248 | for every reply and every placement of cancellations: once our Pair() was acknowledged, a finished attempt either holds the bond's proof in the ledger or has verified that the bond is gone and raised; never both, and without an acknowledged Pair() nothing is recorded |
| PairingSafety.TrafficStaysOwned | custom_components/meshnet/bluetooth_pairing.py:798-919 | in every reachable state Pair() was sent at most once, after two reads of an unpaired device on one controller, and RemoveDevice at most once, after that Pair() was acknowledged and right after a read of a paired device on that controller; while Pair() is ahead no retained proof shares the device |
| PairingEvidence.DeliveredWasSeen | custom_components/meshnet/bluetooth_pairing.py:1015-1200 | over all runs: Pair() is called only after two reads of the selected, unbonded device on one powered controller; a bond is delivered as created only if it was read after the acknowledged Pair() as paired, trusted and Meshtastic on that powered controller, under the address read then; as known only if both of its reads showed it paired there, and then nothing else was done |
| PairingDecisions.ResolvingDecides | custom_components/meshnet/bluetooth_pairing.py:1015-1080 | which read of the device leads towards Pair(), which to the check of an existing bond, and that every other one fails |
| PairingDecisions.ReVerifyingDecides | custom_components/meshnet/bluetooth_pairing.py:1030-1064 | which second read lets an existing bond be delivered |
| PairingDecisions.CheckingDecides | custom_components/meshnet/bluetooth_pairing.py:1101-1140 | which read right before it lets Pair() be called |
| PairingDecisions.VerifyingDecides | custom_components/meshnet/bluetooth_pairing.py:1167-1190 | which read makes a created bond good: paired, trusted, with the service, on the same powered controller |
| PairingDecisions.OwnerDecides | custom_components/meshnet/bluetooth_pairing.py:1096-1100 | any other owner of BlueZ's name than the first one found fails the attempt, at each of the three later checks |
| PairingDecisions.CallDecides | custom_components/meshnet/bluetooth_pairing.py:1012-1163 | what the reply to each plain call leads to; only an acknowledged Pair() makes the bond ours |
| PairingDecisions.CancelDecides | custom_components/meshnet/bluetooth_pairing.py:1124-1138 | what a cancelled wait hands to cleanup |
| PairingDecisions.CleanupBegins | custom_components/meshnet/bluetooth_pairing.py:865-892 | what cleanup starts with: calling Pair() off, then the rollback if it must be, then the agent |
| PairingDecisions.RollbackDecides | custom_components/meshnet/bluetooth_pairing.py:817-863 | every answer during a rollback: removed, checked again, taken for clear, or not |
| PairingDecisions.CleanupEnds | custom_components/meshnet/bluetooth_pairing.py:910-947 | the last ownership decision: a late rollback, or the hand-over of an owned bond that was not undone |
| PairingDecisions.AgentIsTakenAway | custom_components/meshnet/bluetooth_pairing.py:893-903 | once the agent is registered, every attempt that ends went through its removal |
| PairingCancellation.CancellationIsHonoured | custom_components/meshnet/bluetooth_pairing.py:956-988 | a cancellation before the hand-over, wherever it arrives, leads to a cancelled attempt or to the held proof of a bond that could not be undone, a verified one only after a rollback was tried; later ones change nothing |
| PairingCancellation.NobodyCancelled | custom_components/meshnet/bluetooth_pairing.py:956-988 | an attempt that nobody cancels never ends cancelled and leaves a verified bond alone |
| PairingCancellation.PendingPairIsCalledOff | custom_components/meshnet/bluetooth_pairing.py:865-887 | CancelPairing is sent at most once, only for our own pending Pair() and right after a read of the device on its own controller, and then it is sent |
| PairingInvariant.OutcomeSettles | custom_components/meshnet/bluetooth_pairing.py:1350-1403 | however cleanup went: which outcome the last step of an owned or unowned attempt has, and that an owned one delivers or records the exact proof or was rolled back |
| PairingInvariant.StepKeepsInv | custom_components/meshnet/bluetooth_pairing.py:956-988 | the invariant behind both: job, control flags, traffic and ledger agree after every single step, cancellations included |
| PairingRuns.AnswersEndTheAttempt | custom_components/meshnet/bluetooth_pairing.py:956-988 | cancellations cannot keep an attempt from ending: 24 answers finish it |
| PairingRuns.CleanRunDelivers | custom_components/meshnet/bluetooth_pairing.py:1065-1200 | with every call acknowledged, an unpaired radio, no earlier proof and a last read as paired, trusted and Meshtastic, the attempt delivers the new bond under the address read last and its proof is held |
| PairingRuns.LastReadsAreExact | custom_components/meshnet/bluetooth_pairing.py:817-863 | some run ends an owned attempt without its proof after a given last read exactly when that read shows no device, an unpaired one on the attempt's own controller, or, after an acknowledged RemoveDevice only, an unpaired one on any controller |
| PairingRuns.GivesUpOnAccepted | custom_components/meshnet/bluetooth_pairing.py:817-863 | over all runs: an owned attempt that ends without its proof has such a read as its last traffic |
| PairingRuns.SwappedControllerIsAccepted | custom_components/meshnet/bluetooth_pairing.py:849-863 | a run that ends undone although its last read is an unpaired device beneath another controller |
| BondLedger.RecordKeepsSound | custom_components/meshnet/bluetooth_pairing.py:1626-1640 | recording keeps the ledger sound, holds exactly the new proof for its device and drops only proofs of that device |
| BondLedger.AdmittedIsUnambiguous | custom_components/meshnet/bluetooth_pairing.py:1642-1661 | past the candidate check no retained proof matches the candidate; only proofs of an ended BlueZ generation are released, and a refusal changes nothing |
| BondLedger.AdmittedExactly | custom_components/meshnet/bluetooth_pairing.py:1642-1661 | a candidate is admitted exactly when no retained proof is of its controller with its address or suffix, or all that are belong to ended BlueZ generations, which are then released |
| BondLedger.SoundMeans | custom_components/meshnet/bluetooth_pairing.py:1578-1608 | what soundness says of the three dictionaries |
| BondLedger.RecordMeans | custom_components/meshnet/bluetooth_pairing.py:1626-1640 | recording enters the bond in all three dictionaries and removes exactly the proofs of its device |
| BondLedger.ReleaseMeans | custom_components/meshnet/bluetooth_pairing.py:1620-1624 | releasing removes exactly the given keys from all three dictionaries |
| BondLedger.ReachableIsSound | custom_components/meshnet/bluetooth_pairing.py:1578-1678 | in every reachable manager state paths and owners belong to bonds, and no two bonds share a controller together with an address or a Device1 suffix |
| BondLedger.PairingManager.MatchingCreatedBonds | custom_components/meshnet/bluetooth_pairing.py:1578-1608 | returns exactly the retained proofs of the candidate's device, by address or by path suffix |
| BondLedger.PairingManager.RecordCreatedBond | custom_components/meshnet/bluetooth_pairing.py:1626-1640 | the three dictionaries change as the ledger's recording does, and the retired proofs are exactly the matching ones |
| BondLedger.PairingManager.EnsureCandidateUnambiguous | custom_components/meshnet/bluetooth_pairing.py:1642-1661 | refuses exactly when an older proof is unresolved; on success nothing matches |
| BondLedger.PairingManager.ReleaseCreated | custom_components/meshnet/bluetooth_pairing.py:1663-1678 | releases the exact proof with its path and owner, and says whether there was one |
| AttemptThrottle.PairingThrottle.ConsumeAttempt | custom_components/meshnet/bluetooth_pairing.py:248-270 | admits exactly when fewer than three attempts on the address are in the window and not forgotten, and appends to the history exactly then; an attempt is forgotten when, since it, some attempt on its address was followed by 128 other addresses before the next one |
| AttemptThrottle.FourthIsExact | custom_components/meshnet/bluetooth_pairing.py:248-270 | after three attempts in the window the next one is admitted exactly when one of the three was followed by 128 other addresses before the next came |
| AttemptThrottle.FourthNeedsAGap | custom_components/meshnet/bluetooth_pairing.py:248-270 | in every history a fourth attempt on one address within the window comes after such a gap |
| AttemptThrottle.CrowdMustComeAtOnce | custom_components/meshnet/bluetooth_pairing.py:265-270 | for all n, m, r: after three visits of one address with n, m and r others behind them a fourth is admitted exactly when one of the numbers reaches 128; each of these histories happens |
| AttemptThrottle.HeldIsRemembered | custom_components/meshnet/bluetooth_pairing.py:268-270 | an attempt that a table within its bound still holds has not been forgotten |
| AttemptThrottle.OldestIsForgotten | custom_components/meshnet/bluetooth_pairing.py:268-270 | every attempt of the address evicted from an overfull table is forgotten |
| AttemptThrottle.AbsenceIsRank | custom_components/meshnet/bluetooth_pairing.py:265-270 | the addresses seen since an address's last attempt are exactly those behind it in the table |
| MeshCoreSettings.ValidatePlan | custom_components/meshnet/meshcore_settings.py:1001-1193 | the validation loops accept exactly the valid plans |
| MeshCoreRules.ValidExactly | custom_components/meshnet/meshcore_settings.py:1001-1193 | the accepted plans in their own terms: 1 to 64 entries, each for a path the radio and SDK support, over a safely reported group, with a value of its range |
| MeshCoreRules.WidthIsLeast | custom_components/meshnet/meshcore_settings.py:1103 | a character takes the least number of UTF-8 bytes that can hold its code point |
| MeshCoreSettings.PlanIsSafe | custom_components/meshnet/meshcore_settings.py:1195-1474 | against any radio: no command twice, groups in their fixed order, nothing sent after the first unconfirmed write, verified within applied within the plan, and verified only through the confirming readback of the group's single write |
| MeshCoreSettings.PinHandoffIsVerified | custom_components/meshnet/meshcore_settings.py:1439-1472 | a PIN is handed over exactly when a completed run verified it and it is wanted; then its own write carried the number its six digits spell and its own readback returned that number |
| MeshCoreSettings.PinIsDecimal | custom_components/meshnet/meshcore_settings.py:1440-1442 | the number sent for a PIN is the one its six digits spell |
| MeshCoreRefinement.PlanRefines | custom_components/meshnet/meshcore_settings.py:1195-1474 | against an honest radio a completed run leaves it with exactly the plan's fields replaced, all verified; an early end leaves the verified fields and at most the last group |
| MeshCoreRules.PlanIsCarriedOut | custom_components/meshnet/meshcore_settings.py:1195-1474 | the same, field by field: name, coordinates, parameters, power, channels and PIN hold the plan's values, and all else is unchanged |
| MeshCoreRefinement.EffectIsOverride | custom_components/meshnet/meshcore_settings.py:1260-1435 | one grouped command, with the unedited members filled in from the freshest read, is the same as replacing its edited fields one by one |
| MeshCoreFloats.ValidPlanFailsOnlyOnFloats | custom_components/meshnet/meshcore_settings.py:1075-1084 | exactly when a validated plan fails the executor's own checks against an honest radio, and exactly when it fails after a write |
| MeshCoreFloats.FloatSelectExample | custom_components/meshnet/meshcore_settings.py:1308-1323 | a new name and the select value 1.0: accepted by validation, failed after the name was written |
| MeshCoreSettings.GroupsAreEdited | custom_components/meshnet/meshcore_settings.py:1241-1458 | a group is run exactly when the plan edits one of its paths |
| MeshCoreSettings.WholePlanCovered | custom_components/meshnet/meshcore_settings.py:1241-1458 | the groups of a plan without read-only paths cover all of it |
| MeshCoreExecutor.SettingsRun.SendAndVerify | custom_components/meshnet/meshcore_settings.py:1476-1533 | the write-and-verify step on the executor's lists, for every write and read outcome |
| MeshCoreRules.PrepareExactly | custom_components/meshnet/meshcore_settings.py:1241-1445 | a group's command is sent exactly when the whole group it rewrites is safe, and it carries the plan's values and, for the rest of the group, what was read last |
| MeshCoreRules.WriteExactly | custom_components/meshnet/meshcore_settings.py:1476-1533 | status, lists and warning for every pair of a write's and a readback's outcome |
| MeshCoreExecutor.SettingsRun.ApplyLocked | custom_components/meshnet/meshcore_settings.py:1195-1474 | the imperative run reaches exactly the specified result, with the stopped-plan warning |
| MeshCoreExecutor.StoppedPlanSaysSo | custom_components/meshnet/meshcore_settings.py:1224-1227 | the stopped-plan warning is given exactly when a run stopped with an edit not applied |
| SettingsFields.SanitizeOptions | custom_components/meshnet/gateway_settings.py:1204-1221 | the option loop keeps the first usable option of each value and type, and reports whether any was dropped as unsafe |
| SettingsRules.ShownExactly | custom_components/meshnet/gateway_settings.py:1140-1203 | which provider fields are shown, and every attribute of the shown field |
| SettingsRules.WritableExactly | custom_components/meshnet/gateway_settings.py:1181-1273 | when a shown field is writable: usable limits, and a value of its type within them or among its usable options |
| SettingsRules.OffersExactly | custom_components/meshnet/gateway_settings.py:1204-1223 | which values a select offers, and when its options are bad |
| SettingsRules.ChoicesAreFirst | custom_components/meshnet/gateway_settings.py:1204-1221 | each choice is the first usable option of its value, with its label |
| SettingsRules.AcceptedExactly | custom_components/meshnet/gateway_settings.py:1324-1399 | the requests each type of field accepts |
| SettingsFields.SanitizeIsIdempotent | custom_components/meshnet/gateway_settings.py:1140-1274 | sanitizing a sanitized field changes nothing, writability included |
| SettingsFields.SecretValueStaysOut | custom_components/meshnet/gateway_settings.py:1154-1170 | the public field of a secret does not depend on its stored value |
| SettingsFields.WritableAcceptsItsValue | custom_components/meshnet/gateway_settings.py:1324-1399 | exactly when a writable field accepts its own current value, which then never counts as a change |
| SettingsFields.AcceptedValueFits | custom_components/meshnet/gateway_settings.py:1324-1399 | a field given a value it accepts is described as writable again, exactly unless a text field was given a number |
| SettingsFields.WritableMayRefuseItself | custom_components/meshnet/gateway_settings.py:1140-1274 | a writable text and a writable select that refuse their own value, and a writable text that accepts a number and is read-only afterwards |
| SettingsFields.SecretIsNotShown | custom_components/meshnet/gateway_settings.py:1328-1356 | the previewed change of a secret is the same for every new secret |
| SettingsFields.ValidateAgainstFields | custom_components/meshnet/gateway_settings.py:1284-1321 | a plan is made exactly when every change is acceptable and one has an effect; it holds precisely the effective changes, critical ones last, paths in order |
| SettingsRules.PlanTells | custom_components/meshnet/gateway_settings.py:1290-1321 | the changes of a plan as the user sees them: flags, old and new value, or what becomes of a secret; nothing unchanged, critical last, paths in order |
| SettingsFields.VerifiedResult | custom_components/meshnet/gateway_settings.py:1449-1502 | verified and unverified partition the changed paths, an adapter's own list is never overruled, and the status matches |
| SettingsRules.VerifiedExactly | custom_components/meshnet/gateway_settings.py:1449-1478 | what each request needs in the readback to be verified |
| SettingsPreviews.PreviewsAreUsedOnce | custom_components/meshnet/gateway_settings.py:648-697 | over all interleavings no preview reaches the adapter twice, and one that does matched its gateway and revision, was confirmed when critical, was consumed before it expired, and met a writable radio at the same revision |
| SettingsPreviews.StoreStaysBounded | custom_components/meshnet/gateway_settings.py:570-617 | at most 64 previews, at most one per gateway, none already used |
| SettingsPreviews.StoringKeepsInv | custom_components/meshnet/gateway_settings.py:594-617 | a new preview survives its own trim; what goes was expired, its gateway's old one, or the oldest of a full store |
| SettingsPreviews.ApplyIsExact | custom_components/meshnet/gateway_settings.py:656-672 | an apply goes on exactly when its preview is stored and unexpired, gateway and revision match, a critical one is confirmed and the gateway is known; the preview is consumed either way |
| SettingsPreviews.ReadIsExact | custom_components/meshnet/gateway_settings.py:682-697 | the plan is sent exactly when the live read shows a writable radio at the preview's revision |
| SettingsPreviews.PreviewIsStored | custom_components/meshnet/gateway_settings.py:578-612 | a preview is stored exactly for a writable radio at the revision asked for and valid changes |
| SettingsPreviews.StoringIsExact | custom_components/meshnet/gateway_settings.py:594-617 | it expires after five minutes, replaces its gateway's old one, and drops no other unexpired one unless the store is full |
| SettingsPreviews.RemovalIsExact | custom_components/meshnet/gateway_settings.py:1418-1443 | what timers, clean-ups and invalidation remove |
| SettingsPreviews.TrimKeepsTheLatest | custom_components/meshnet/gateway_settings.py:1428-1436 | for any store: as many stay as fit, and nothing that goes expires after anything that stays |
| SettingsPreviews.PreviewLeadsToItsCall | custom_components/meshnet/gateway_settings.py:648-697 | from any reachable state a preview applied in time, as asked, confirmed if critical, against an unchanged writable radio sends exactly its plan |
| SettingsPreviews.GatewaySettingsManager.StorePreview | custom_components/meshnet/gateway_settings.py:594-617 | the store after clean-up, replacement, insertion and trim |
| SettingsPreviews.GatewaySettingsManager.ConsumePreview | custom_components/meshnet/gateway_settings.py:657-672 | the preview is gone whatever the answer, and the exact condition of each of the three refusals |
| SettingsPreviews.GatewaySettingsManager.TrimPreviews | custom_components/meshnet/gateway_settings.py:1428-1436 | the earliest expiring previews go until the bound holds |
| SettingsPreviews.GatewaySettingsManager.Invalidate | custom_components/meshnet/gateway_settings.py:410-414 | every preview is forgotten |
| SecretState.StreamRoundTrip | custom_components/meshnet/gateway_settings.py:1111-1136 | the length-prefixed, type-tagged stream decodes to exactly the entries it was made of |
| SecretState.StreamIsInjective | custom_components/meshnet/gateway_settings.py:1111-1136 | two accepted secret states have the same stream exactly when they are the same state |
| SecretState.RevisionStream | custom_components/meshnet/gateway_settings.py:1084-1137 | accepts exactly the material that fits the limits, and feeds the sorted stream |
| SecretRules.AcceptedExactly | custom_components/meshnet/gateway_settings.py:1096-1130 | the accepted states in their own terms: at most 384 values, each at a safe path of a secret field and within 64 bits or 2048 bytes |
| SecretRules.SafePathExactly | custom_components/meshnet/gateway_settings.py:337-341 | a safe path has 1 to 128 of the allowed characters, starts with a letter or digit, and has none of the three forbidden parts |
| SecretState.DecimalRoundTrip | custom_components/meshnet/gateway_settings.py:1120-1123 | the decimal text of a number determines it and never starts with a sign |
| MaintenanceRate.RateIsBounded | custom_components/meshnet/maintenance_scan.py:216-321 | for any clock, callbacks, cancellations, fences, starts and resumes whose clock is read or that find room: no half-open window of one interval holds more than the budget of requests, and no two are closer than the smaller of spacing and interval |
| MaintenanceRate.GuardIsExact | custom_components/meshnet/maintenance_scan.py:348-368 | after any run whose resumes were harmless, a resume that cannot read the clock keeps every continuation within it exactly when, from the latest of the clock's floor, the old due time and the end of the quiet time, each request of the next cycle would keep its distance from the last one and from the one it would crowd |
| MaintenanceRate.AcceptedResumesAreHarmless | custom_components/meshnet/maintenance_scan.py:348-368 | a run whose resumes all read the clock needs no such room |
| MaintenanceRate.RejectedResumeBreaksTheRate | custom_components/meshnet/maintenance_scan.py:348-368 | for every enabled configuration one resume that cannot read the clock, followed by a start, lets two requests out at one instant |
| MaintenanceRate.StepKeepsRate | custom_components/meshnet/maintenance_scan.py:447-465 | the due times carry the rate bound through every step |
| MaintenanceRate.BoundedIsSpaced | custom_components/meshnet/maintenance_scan.py:447-460 | the bound over all windows says the same as two distances between submissions |
| MaintenanceRate.OneRequestSubmits | custom_components/meshnet/maintenance_scan.py:223-307 | an idle scheduler that is due does start a cycle and submit |
| MaintenanceSteps.CycleBeginsExactly | custom_components/meshnet/maintenance_scan.py:223-235 | which ticks start a cycle: due, quiet, and the first check answered not busy |
| MaintenanceSteps.SelectionBeginsExactly | custom_components/meshnet/maintenance_scan.py:237-255 | which ticks ask for a candidate: budget left, request due, quiet, and the second check answered not busy |
| MaintenanceSteps.SubmissionIsExact | custom_components/meshnet/maintenance_scan.py:258-305 | which selections are submitted, and the whole state after one that is or is gated |
| MaintenanceSteps.CycleEndsExactly | custom_components/meshnet/maintenance_scan.py:237-321 | which events end a cycle, and that the next is due an interval after a completion |
| MaintenanceSteps.OpeningIsExact | custom_components/meshnet/maintenance_scan.py:348-368 | the whole state after construction and after each kind of resume |
| MaintenanceSteps.OwnerIsExact | custom_components/meshnet/maintenance_scan.py:424-445 | what starts and what ends the owner's task |
| MaintenanceSteps.ActivityIsExact | custom_components/meshnet/maintenance_scan.py:198-205 | what activity changes, and that nothing else makes a selection stale |
| MaintenanceSteps.OtherTicksWait | custom_components/meshnet/maintenance_scan.py:216-251 | every other tick only notes the time |
| MaintenanceSteps.RequestEndIsExact | custom_components/meshnet/maintenance_scan.py:306-321 | how a request's end is counted |
| MaintenanceSteps.FenceAndDrainAreExact | custom_components/meshnet/maintenance_scan.py:323-346 | a fence, a drain and a start change exactly one field each, under their conditions |
| MaintenanceBounds.RequestsAreGated | custom_components/meshnet/maintenance_scan.py:288-300 | each request follows an idle check and an uninterrupted selection of its candidate, the quiet time after every activity, and an interval after construction and after each resume that read the clock |
| MaintenanceBounds.CandidatesAreTriedOnce | custom_components/meshnet/maintenance_scan.py:269-287 | a candidate is not picked twice in one cycle, even when the late gate rejects it |
| MaintenanceBounds.SelectionsAreBounded | custom_components/meshnet/maintenance_scan.py:253-280 | with n candidates a cycle reaches selection at most n + 1 times, besides selections that ended the owner's task; attempts are successes, failures, cancellations and the one in flight |
| MaintenanceScheduler.MaintenanceScanScheduler.BeginTick | custom_components/meshnet/maintenance_scan.py:216-257 | the object after a tick up to the selection, with the runner's recovery |
| MaintenanceScheduler.MaintenanceScanScheduler.EndSelection | custom_components/meshnet/maintenance_scan.py:258-305 | the object after a selection: exclusion, late gate, submission or completion |
| MaintenanceScheduler.MaintenanceScanScheduler.EndRequest | custom_components/meshnet/maintenance_scan.py:306-321 | the object after a request: counters, and completion when the budget is spent |
| MaintenanceScheduler.MaintenanceScanScheduler.RecordActivity | custom_components/meshnet/maintenance_scan.py:198-205 | activity moves the quiet window and invalidates the pending selection |
| MaintenanceScheduler.MaintenanceScanScheduler.Start | custom_components/meshnet/maintenance_scan.py:167-191 | a single owner is started or kept, and nobody when disabled or fenced |
| MaintenanceScheduler.MaintenanceScanScheduler.Resume | custom_components/meshnet/maintenance_scan.py:348-368 | false and no change while the owner is alive; otherwise the object after the resume, which starts the owner, or after a rejected clock reading, which starts nobody |
| MaintenanceScheduler.MaintenanceScanScheduler.EndOwner | custom_components/meshnet/maintenance_scan.py:424-445 | the runner's end between ticks leaves everything else as it is |
| MaintenanceScheduler.MaintenanceScanScheduler.Fence | custom_components/meshnet/maintenance_scan.py:323-326 | quiescing fences new work first, and nothing else |
| MaintenanceScheduler.MaintenanceScanScheduler.Drain | custom_components/meshnet/maintenance_scan.py:327-346 | once the owner has ended the cycle is cleared and the due times stay |
| MaintenanceScheduler.MaintenanceScanScheduler.Now | custom_components/meshnet/maintenance_scan.py:481-486 | time read through the floor never goes back |
| IdentityAliases.CollisionSummary | custom_components/meshnet/coordinator.py:949-984 | the three counts: aliases with several holders, nodes sharing one with another node, connected components of at least two nodes |
| IdentityAliases.Find | custom_components/meshnet/coordinator.py:959-963 | path halving terminates, returns the root and changes no node's root |
| IdentityAliases.Union | custom_components/meshnet/coordinator.py:965-969 | the two nodes end under one root, nobody is parted, and every root stays connected to its nodes |
| IdentityAliases.RootsAreComponents | custom_components/meshnet/coordinator.py:971-974 | after the joins two nodes have one root exactly when a path of shared aliases connects them |
| IdentityAliases.CollidingComponents | custom_components/meshnet/coordinator.py:976-983 | the nodes that share an alias with another are those in a component of at least two |
| IdentityAliases.IndexAliases | custom_components/meshnet/coordinator.py:951-954 | the alias table holds exactly each alias's holders |
| NodeWindow.BudgetKeepsHeadroom | custom_components/meshnet/coordinator.py:696-700 | what stays free below the cap is the headroom or the larger half of a small cap, nothing for a cap of one, and a larger cap never lowers the budget |
| NodeWindow.CeilingIsScaled | custom_components/meshnet/coordinator.py:703-718 | the ceiling k satisfies k·enabled ≤ cached·budget < (k+1)·enabled and k ≤ cached, with equality exactly when the budget is not exceeded; it is withheld exactly when one more node would fit |
| NodeWindow.LimitIsNearest | custom_components/meshnet/coordinator.py:721-729 | a configured number becomes the nearest supported limit |
| NodeWindow.EffectiveNodeLimit | custom_components/meshnet/coordinator.py:3498-3504 | the effective limit lies between the minimum and the configured limit, and is lowered only to the ceiling or the minimum |
| NodeWindow.LeastRecent | custom_components/meshnet/coordinator.py:3757-3776 | evicts min(overflow, unprotected) records, never a protected one, each heard no later than every unprotected record that is kept, stalest first |
| NodeWindow.TrimTakesTheStalest | custom_components/meshnet/coordinator.py:3765-3776 | what is evicted was heard no later than any unprotected record that is kept: never heard first, then the oldest, equal times by key, and in that order |
| Ordering.TextLessMeans | custom_components/meshnet/coordinator.py:3770 | keys are compared at their first difference, and a proper prefix comes first |
| NodeWindow.TrimIsUnique | custom_components/meshnet/coordinator.py:3765-3776 | the records evicted, and their order, do not depend on how the records were stored |
| NodeWindow.TrimSettles | custom_components/meshnet/coordinator.py:3747-3782 | after a trim the window holds or only protected records are left, and a second trim under the same protection evicts nothing |
| NodeWindow.ProtectionStays | custom_components/meshnet/coordinator.py:3784-3800 | recomputing the protected keys after a trim protects the same records among those left |
| NodeWindow.Coordinator.TrimRawNodesToWindow | custom_components/meshnet/coordinator.py:3747-3782 | the stalest records that neither the update, a favorite nor a gateway's own radio protects are evicted, and the retained and the observed records lose exactly those |
| PacketDedupe.PacketDeduplicator.IsDuplicate | custom_components/meshnet/dedupe.py:28-42 | true exactly when the fingerprint's last sighting is no older than the time to live and fewer than max fingerprints were seen since; counters included |
| PacketDedupe.PacketDeduplicator.NothingIsLost | custom_components/meshnet/dedupe.py:28-50 | the table is distinct and in time order, and what it dropped is a duplicate at no later time |
| PacketDedupe.OrderRanks | custom_components/meshnet/dedupe.py:33-42 | a position in the most-recent order is a last sighting, and behind it lie exactly the fingerprints seen since |
| PacketDedupe.RankDecides | custom_components/meshnet/dedupe.py:44-50 | being a duplicate is decided by time and position in that order |
| TokenBucket.GrantsAreBounded | custom_components/meshnet/rate_limiter.py:23-37 | any stretch of any trace of attempts grants at most the capacity and the rate times its length |
| TokenBucket.RunConserves | custom_components/meshnet/rate_limiter.py:23-37 | grants and the level left never exceed what was there and what flowed in, and the level stays within its bounds |
| TokenBucket.RunLosesNothing | custom_components/meshnet/rate_limiter.py:23-37 | while the bucket cannot fill, every token is accounted for exactly |
| TokenBucket.SleepIsExact | custom_components/meshnet/rate_limiter.py:33-37 | after a refusal a lone retry is granted exactly when it waited as told and asks for no more than the capacity |
| TokenBucket.TooMuchIsNeverGranted | custom_components/meshnet/rate_limiter.py:33-37 | more than the capacity is never granted |
| TokenBucket.AsyncTokenBucket.Acquire | custom_components/meshnet/rate_limiter.py:23-37 | the retry loop without rivals: at most two passes, none for nothing, never for too much |
| JsonMerge.MergeDict | custom_components/meshnet/models.py:142-152 | the merging loop computes the recursive merge |
| JsonMerge.MergeTwice | custom_components/meshnet/models.py:142-152 | applying an update again changes nothing |
| JsonMerge.MergeIsAssociative | custom_components/meshnet/models.py:142-152 | merging is associative exactly when no path holds a dictionary, a leaf, and a dictionary that would forget some of the first |
| JsonMerge.ConsistentDataAssociates | custom_components/meshnet/models.py:142-152 | data that is consistently a leaf or a dictionary on each path may be merged in any grouping |
| JsonMerge.LeafBetweenDictionaries | custom_components/meshnet/models.py:142-152 | the failing case, concretely |
| NodeMerge.SightingIsLatest | custom_components/meshnet/models.py:427-430 | after any merges the time heard is the latest, and gateway and online flag come from the last record to attain it |
| NodeMerge.GatewaysAreUnited | custom_components/meshnet/models.py:431-433 | the gateway ids are the union of all that were seen |
| NodeMerge.GatewaysExactly | custom_components/meshnet/models.py:431-433 | a gateway is known exactly when the node or an update names it among its gateways or as the one it was last heard by |
| NodeMerge.SectionsMergeApart | custom_components/meshnet/models.py:450-455 | each of the six sections is its own old value with its own updates merged over it, in order |
| NodeMerge.ConnectivityExactly | custom_components/meshnet/models.py:434-449 | one update's effect on connectivity, key by key |
| NodeMerge.MeasurementsNeverMix | custom_components/meshnet/models.py:434-449 | hop count, observing gateway and transport come from the last update with a hop count, or else are the node's own |
| NodeMerge.MixingIsExact | custom_components/meshnet/models.py:434-449 | an update keeps every node's measurement whole exactly when it carries the hop count's key or says nothing of gateway and transport |
| NodeMerge.LastTextWins | custom_components/meshnet/models.py:409-426 | a text attribute holds the last non-empty value |
| NodeMerge.NodeState.MergeFrom | custom_components/meshnet/models.py:407-456 | the in-place merge reaches exactly the specified node |
| BondOwnership.Reconcile | custom_components/meshnet/config_flow.py:1436-1478 | an edit is accepted exactly when nothing is claimed falsely and every owned bond is matched, with the current bond metadata put back |
| BondOwnership.OwnershipIsPreserved | custom_components/meshnet/config_flow.py:1436-1478 | with distinct ids among the owned gateways an accepted edit forges, orphans and moves no bond, whatever the proposal |
| BondOwnership.PreservedUnlessHidden | custom_components/meshnet/config_flow.py:1440-1444 | an accepted edit preserves the owned bonds exactly when no later gateway of the same id hid one before |
| BondOwnership.DuplicateIdsOrphanABond | custom_components/meshnet/config_flow.py:1440-1444 | two owned gateways with one id, and an accepted edit that loses a bond |
| BondOwnership.ReconciledKeepsKey | custom_components/meshnet/config_flow.py:1447-1474 | a reconciled gateway is owned exactly when it is still the owned one, and then under its old key |
| BondOwnership.OwnedExactly | custom_components/meshnet/config_flow.py:1326-1363 | which gateways own a bond, and which bond |
| BondOwnership.ReconciledExactly | custom_components/meshnet/config_flow.py:1447-1474 | what reconciling does to one gateway, and that it does nothing else |
| BondOwnership.TableHoldsTheLast | custom_components/meshnet/config_flow.py:1440-1444 | the table holds, for every id that owns a bond, the last gateway of it that does |
| BondOwnership.AcceptableMeans | custom_components/meshnet/config_flow.py:1455-1478 | the acceptance condition in terms of ids, addresses and managed flags |

## Left out

- The contents of D-Bus messages, agent export, prompts and PIN entry; `Pair()` covers its prompt, and one failing call stands for an error reply, a timeout and a lost bus.
- Parsing of addresses, adapter names, Device1 paths, aliases and managed objects: they are already-canonical values.
- A `Pair()` reply that is lost because the call was cancelled: such an attempt cancels the pairing and does not own the bond, as in the program, so nothing is claimed about a bond BlueZ may create all the same.
- Timeouts of awaits are cancellations or failing answers; their lengths are not modelled.
- Forgetting a bond on request (bluetooth_pairing.py:1250-1316, 1694-1770); its effect on the ledger is the release of one key.
- BondLedger.PairingManager.MatchingCreatedBonds: does not model the order of the matches, since nothing depends on it.
- AttemptThrottle.PairingThrottle.ConsumeAttempt: does not model one history per event loop; the class is the history of one loop.
- Hexadecimal text of channel secrets: secrets are byte sequences, so the spaces that hexadecimal parsing skips are not modelled.
- MeshCoreSettings.ValidatePlan: does not model field lengths beyond those named, because the public snapshot's labels, categories and descriptions are not part of the model.
- The coordinate tolerance of one millionth of a degree is equality, and floating point numbers are real numbers; non-finite numbers are not modelled.
- The order of the paths in applied and verified lists, which the program sorts.
- SettingsFields.VerifiedResult: does not model an adapter result whose verified entry is not a list, nor its warning codes and reconnect flag.
- Explanatory texts, units and minimum_nonzero of settings fields, and the payload bounds of gateway_settings.py:285-334, which only narrow what reaches the validator.
- Persisting verified connection updates and the connection-recovery warnings after an apply (gateway_settings.py:712-752).
- SettingsPreviews.GatewaySettingsManager.StorePreview: does not model two clock readings for one preview; expiry and clean-up use the same one.
- SHA-256, HMAC and random tokens: the stream that is hashed is modelled, fresh ids are assumed unique, and text is its UTF-8 encoding, taken as injective.
- Ticks called from outside the scheduler's own task, and a quiesce that clears the cycle only after a later resume: only the owner ticks, and draining comes before the resume.
- Outcome texts and deferral counters of the maintenance scheduler, its wake-up event and its task factory.
- PacketDedupe.PacketDeduplicator.IsDuplicate: does not model a negative limit, with which the program fails, and takes the packet's fingerprint as given.
- The alias normalization of node records, the registries and the entity counter behind the entity budget, and the derivation of favorite raw keys.
- NodeMerge.NodeState.MergeFrom: does not model merging a node object into itself; the other node is a value.
- Aliasing between dictionaries that a merge shares.
- Gateways without an id, and the gateway list's other fields, which reconciliation leaves as they are.
- Home Assistant flows, entities, services, panels, diagnostics and the radio clients; message sending and the outbox.
