# Homeowner app: the protocols and algorithms behind the screens

The homeowner web app of SupremeOS keeps a home's live state in step with a hub, shares one
session among several tabs, uploads project files over bad links, and lets people build automations,
keypad mappings and schedules. This project models the code that decides those things, in Dafny, and
proves what it keeps: over every run where the code is a protocol, over every input where it is an
algorithm. Where a promise of the code or of its comments does not hold, the project keeps the code as
it is, exhibits the run or input that shows it, and proves exactly when the promise does hold.

| module | what it models |
|---|---|
| `Util`, `Text`, `Capability` | optional values, decimal numerals and trimming (`Text.TrimSplits`), capability kinds |
| `LiveClient`, `LiveWorld`, `LiveInvariant`, `LiveTheorems`, `LiveLaws`, `LiveFrames` | live-state reconciliation: the client's maps, the hub and the wire as an interleaved step system, its invariant, what follows |
| `Tokens`, `TokenLedger`, `TokenTheorems`, `TokenLaws` | the cross-tab token store against a server that rotates tokens and detects reuse |
| `Homes` | the registry of homes and the active one |
| `Upload` | chunked upload with retries |
| `Poll` | following a background import job across failures, reloads and tabs |
| `Palette` | command-palette scoring and ranking |
| `Names`, `Exchange` | fresh automation names; export and import with remapped devices |
| `Fields`, `Builder`, `BuilderLaws` | which fields and commands a device offers; the action and trigger builders |
| `Keypad`, `KeypadHub`, `KeypadEditor`, `KeypadLaws`, `KeypadGroups` | the keypad mapping form, the hub's schema for what it sends, its editor; grouping by room |
| `Registry`, `Wizards`, `RoomSummary`, `Schedule` | driver cards, set-up wizards, room summaries, the climate scheduler |

The live-state model is a world of: the hub's current values and the frames it has sent on the present
connection, frames that have arrived, the client's three maps and its in-flight flag, suspended
reconciliation passes and a clock. Its events are the points between two awaits of the real code. A
listing may have been taken at any moment between the request and its merge, frames may arrive in any
order and any number of times, and a pass may fail at each of its awaits.

## Where code and promise part

- The sequence guard is described as a protection against redelivered and reordered frames
  (`apps/web-homeowner/src/App.tsx:174-176`). The gateway numbers frames afresh on every connection
  (`services/gateway/src/stream.ts:46`, `services/gateway/src/stream.ts:61-62`) while the client keeps the
  numbers of the last one, so after a reconnection it drops live frames until the new numbers catch up:
  `LiveTheorems.RestartedNumbersDiverge`. When a client at rest agrees with the hub all the same is
  settled for every key by `LiveTheorems.ConvergesIff`.
- "Strictly after" in the snapshot guard lets a listing overwrite a live value stamped in the very
  millisecond the pass began: `LiveTheorems.MergeRegressesIff`, `LiveTheorems.TieRegresses`.
- The in-flight flag is said to lose nothing. A reopening it swallows loses a change made while the stream
  was down when the pass in flight has read its listing before, or spares the key for its stamp, and
  otherwise not: `LiveTheorems.QuietShowsIff`, with a run each way in
  `LiveTheorems.SwallowedReopeningDiverges` and `LiveTheorems.SwallowedReopeningRecovers`.
- The storage listener is said to make every later refresh present the live token. That needs a write to
  find the writer's own queue empty, one refresh of a session at a time, and no answer lost:
  `Tokens.WriteCoherentIff`, `TokenTheorems.LateEventRevokes`, `TokenTheorems.OverlapRevokes`, `TokenTheorems.LostAnswerRevokes`.
- A late answer about an older import job erases the id of a scan started meanwhile:
  `Poll.LateRecoveryDropsTheNewJob`.
- Driver metadata with an empty verb makes the builder mix two commands: `Builder.EmptyVerbMixesCommands`.
- Import leaves a keypad trigger's keypad id as it was, so keypads are closed over the target hub exactly
  when they were in the file: `Exchange.KeypadsClosedIff`, `Exchange.KeypadsNotRemapped`.
- The keypad form is said to mirror the hub's own check. It does for behaviour, target and number of actions
  (`KeypadHub.ValidationMirrorsHub`), but a row whose device or capability was changed has no verb, which
  the form lets pass and the hub refuses: `KeypadEditor.SavedFormAccepted`, `KeypadEditor.ChangedRowRefused`.
- Opening and saving a keypad mapping loses any action that is no device command:
  `Keypad.EditUnchangedIff`.
- Two local gateways on one socket pass validation when the port is written in two ways:
  `Wizards.LocalSocketsDistinctIff`, `Wizards.PaddedPortCollides`.

## Model

| member | source | states |
|---|---|---|
| LiveClient.NameInjective | apps/web-homeowner/src/App.tsx:191 | the text `device:capability` under which numbers and stamps are kept identifies device and capability, even for ids with colons in them |
| LiveClient.NameNotDriver | apps/web-homeowner/src/App.tsx:201 | no such text is one a driver's stamp is kept under, though both share one record; device ids are taken not to look like driver stamps |
| LiveClient.LiveStore.Apply | apps/web-homeowner/src/App.tsx:190-198 | a numbered frame below the last number changes nothing; any other value is stamped and shown, and only a numbered one moves the number |
| LiveClient.LiveStore.ApplyDriverState | apps/web-homeowner/src/App.tsx:200-203 | a driver event is stamped and shown, nothing else moves |
| LiveClient.LiveStore.BeginPass | apps/web-homeowner/src/App.tsx:212-215 | a pass begins exactly when none is in flight, and the flag is then set |
| LiveClient.LiveStore.MergeDevices | apps/web-homeowner/src/App.tsx:216-224 | the two nested loops over the listing come to one merge of its entries in order |
| LiveClient.LiveStore.WriteDriver | apps/web-homeowner/src/App.tsx:235-237 | a health answer replaces the driver's entry without stamping it; the step system uses the same function |
| LiveClient.LiveStore.EndPass | apps/web-homeowner/src/App.tsx:241-243 | ending a pass clears the flag and nothing else; the step system ends passes by the same function |
| LiveClient.MergeTouchesOnlyStates | apps/web-homeowner/src/App.tsx:218-223 | a merge moves no number, no stamp, no driver and no flag |
| LiveClient.MergeSpares | apps/web-homeowner/src/App.tsx:221 | a key stamped after the pass began keeps its value through the whole merge |
| LiveClient.MergeWrites | apps/web-homeowner/src/App.tsx:218-223 | a key not so stamped ends with the value the listing gives it |
| LiveInvariant.MergeAt | apps/web-homeowner/src/App.tsx:217-224 | in every reachable state a merge gives a key what the listing says if it lists the key and the key was not stamped after the pass began, and leaves it alone otherwise |
| LiveInvariant.ReachableInv | apps/web-homeowner/src/App.tsx:176-268 | the invariant tying client, wire, listing and hub holds after every interleaving of every event |
| LiveTheorems.Convergence | apps/web-homeowner/src/App.tsx:190-245 | in every run, at rest and once the pass of the latest opening has merged: every key not last written by the page itself, not muted and not overtaken by a tied merge shows the hub's value, though it may have regressed on the way; what happens to other keys does not matter |
| LiveTheorems.ConvergesIff | apps/web-homeowner/src/App.tsx:80-90 | a client at rest, reconciled or not, shows the hub's value on a key it did not write last itself if and only if: its frames got through and no tied merge with an older listing overtook them; or none got through and the value a merge let through, or failing that the value shown as the stream opened, is the hub's |
| LiveTheorems.MuteShows | apps/web-homeowner/src/App.tsx:213-224 | a key no frame of this connection got through to shows what a merge of whichever pass let through for it, and otherwise what was shown as the stream opened |
| LiveTheorems.NeverRestartsNeverMute | apps/web-homeowner/src/App.tsx:80-83 | if numbers keep growing across connections, no run ever makes a key mute |
| LiveTheorems.ConvergenceWhenNumbersNeverRestart | apps/web-homeowner/src/App.tsx:190-245 | then every run at rest and reconciled shows the hub's value on every key not last written by the page itself nor overtaken by a tied merge |
| LiveTheorems.RestartedNumbersDiverge | services/gateway/src/stream.ts:46-62 | with numbering restarted by each connection there is a run, at rest and reconciled, whose client shows another value than the hub although every frame was delivered |
| LiveTheorems.MergeRegressesIff | apps/web-homeowner/src/App.tsx:88-90 | a merge takes a key that shows the newest frame back to an older value exactly when its listing is out of date there and the key's last stamp is the very millisecond the pass began in |
| LiveTheorems.TieRegresses | apps/web-homeowner/src/App.tsx:88-90 | and such a run exists, at rest and reconciled |
| LiveTheorems.OpeningReconcilesIff | apps/web-homeowner/src/App.tsx:258-263 | an opening of the stream starts a pass exactly when it is a reopening and none is in flight |
| LiveTheorems.QuietShowsIff | apps/web-homeowner/src/App.tsx:212-224 | after any opening, swallowed or not, a key quiet since and not written by the page shows the hub's value if and only if: a merge let it through, and the listing was read since the opening or said so already; or none did, and the value shown as the stream opened was already the hub's. A listing read since lists every such key |
| LiveTheorems.SwallowedReopeningDiverges | apps/web-homeowner/src/App.tsx:213 | a change made while the stream was down stays unseen for good in a run whose reopening was swallowed by a pass that had read its listing before |
| LiveTheorems.SwallowedReopeningRecovers | apps/web-homeowner/src/App.tsx:213 | a swallowed reopening loses nothing when the pass in flight reads its listing afterwards: such a run exists too |
| LiveTheorems.AtMostOnePass | apps/web-homeowner/src/App.tsx:180-189 | in every interleaving at most one pass is suspended, and the flag is set exactly while one is |
| LiveTheorems.PassAdvances | apps/web-homeowner/src/App.tsx:216-243 | every answer and every failure a pass waits for brings it strictly closer to releasing the flag |
| LiveTheorems.PassUndisturbed | apps/web-homeowner/src/App.tsx:212-215 | nothing interleaved moves a suspended pass or releases its flag |
| LiveTheorems.FlagReleased | apps/web-homeowner/src/App.tsx:212-243 | in every endless run where whatever a pass awaits is answered or fails at some time, from any moment on the flag is released at some later one |
| LiveTheorems.MergeNeverClobbers | apps/web-homeowner/src/App.tsx:217-224 | in every reachable state a merge spares every key stamped after its pass began and touches device states only |
| LiveTheorems.DriverLossWindow | apps/web-homeowner/src/App.tsx:231-237 | if a health answer overwrites a driver stamped after the pass began, an event for that driver has arrived since its guard was asked, that is during that very fetch |
| LiveTheorems.DriverEventLost | apps/web-homeowner/src/App.tsx:234-237 | and such a loss is reachable: the guard is not asked again after the await |
| LiveTheorems.NumbersNeverDecrease | apps/web-homeowner/src/App.tsx:192-195 | no event ever lowers a key's last applied number |
| LiveLaws.LocalWrites | apps/web-homeowner/src/App.tsx:190-198 | a local write, numbered by nobody, is shown and stamped with the time it is made; no other key, no number and no driver notices |
| LiveLaws.FrameWrites | apps/web-homeowner/src/App.tsx:190-198 | a frame numbered no lower than its key's last is shown, stamped and remembered, any other changes nothing; no other key notices |
| LiveLaws.DriverWrites | apps/web-homeowner/src/App.tsx:200-203 | a driver event is shown and stamped for that driver alone |
| LiveLaws.OpeningKeeps | apps/web-homeowner/src/App.tsx:258-263 | opening and dropping the stream leave everything shown, numbered and stamped; a pass begun counts from that moment |
| LiveLaws.HandWriteStands | apps/web-homeowner/src/App.tsx:84-90 | in every run, what the page writes while a pass is in flight stands, whenever that pass merges, until the key is written live again or the stream reopens |
| LiveLaws.FrameWriteStands | apps/web-homeowner/src/App.tsx:84-90 | so does what an accepted frame writes |
| LiveLaws.MergeSparesHandWrite | apps/web-homeowner/src/App.tsx:217-224 | a pass's merge never overwrites what the page wrote after the pass began |
| LiveLaws.EntriesAre | apps/web-homeowner/src/App.tsx:218-223 | the entries merged are the listing's states, each under its own device and capability, and no others |
| LiveLaws.NextDriverAsked | apps/web-homeowner/src/App.tsx:229-235 | after the registry's reply and after each health answer the pass asks the first remaining driver that is installed, enabled, has an id and was not heard of since the pass began |
| LiveLaws.LastDriverAsked | apps/web-homeowner/src/App.tsx:231-243 | when there is none left the pass ends and releases the flag |
| LiveLaws.HealthShown | apps/web-homeowner/src/App.tsx:235-237 | a health answer is shown for the driver it was asked about; no other driver, state or stamp moves |
| LiveFrames.HighestWins | apps/web-homeowner/src/App.tsx:190-198 | after any arrivals a key shows its highest-numbered frame, or what it showed if all are numbered lower, and its number has not gone down |
| LiveFrames.Confluence | apps/web-homeowner/src/App.tsx:190-198 | the same frames in any order, with any repetition and at any times, leave the same values and numbers |
| Tokens.HomeTokenStore.Read | apps/web-homeowner/src/homes.ts:138-141 | reads the tab's copy, or the shared store when it has none |
| Tokens.HomeTokenStore.Set | apps/web-homeowner/src/homes.ts:142-150 | a write is what this tab and the shared store hold afterwards; other homes' entries are untouched |
| Tokens.HomeTokenStore.OnStorage | apps/web-homeowner/src/homes.ts:132-135 | an event for this home's key replaces the tab's copy, any other is ignored |
| Tokens.WriteCoherentIff | apps/web-homeowner/src/homes.ts:118-152 | a write leaves every tab bound to read the store's tokens once its events are handled if and only if the writer had no event pending, or its last one says what it writes or that the tokens are gone |
| TokenTheorems.UpToDateTabReadsStore | apps/web-homeowner/src/homes.ts:118-126 | in every run where tabs write only with an empty queue, a tab with an empty queue reads the shared store's tokens |
| TokenTheorems.PresentsCurrentIff | apps/web-homeowner/src/homes.ts:118-126 | and what it would present to refresh is its session's current token exactly when no answer to a rotation of that session is still owed or lost, whatever other sessions have been opened meanwhile |
| TokenTheorems.NeverRevoked | services/identity/src/identity-service.ts:296-317 | if moreover each session is refreshed once at a time and by such tabs, the server only ever sees current tokens and no session is ever revoked |
| TokenTheorems.LateEventRevokes | services/identity/src/identity-service.ts:313-317 | within one session: a tab that writes its new tokens with an event pending is overwritten by that event, and its next refresh, alone on the wire, revokes the session |
| TokenTheorems.OverlapRevokes | packages/supreme-sdk-ts/src/client.ts:246-260 | so do two tabs refreshing at once: the in-flight guard is per tab |
| TokenTheorems.LostAnswerRevokes | services/identity/src/identity-service.ts:318-339 | so does a rotation whose answer never arrives |
| TokenLaws.SignOutEmpties | apps/web-homeowner/src/homes.ts:142-150 | signing out leaves neither the tab nor the shared store with any tokens, and every other tab is told |
| TokenLaws.LoginHolds | services/identity/src/identity-service.ts:245-251 | signing in opens a session of its own, and tab and store then hold exactly the pair that starts it |
| TokenLaws.ReceiveHolds | packages/supreme-sdk-ts/src/client.ts:249-254 | an answer that comes in is exactly what tab and store hold from then on, and the tab is free to refresh again |
| TokenLaws.TabMoves | apps/web-homeowner/src/homes.ts:132-141 | a tab handles its oldest event by taking over what it says, and a refresh presents what the tab reads |
| TokenLaws.ServerDecides | services/identity/src/identity-service.ts:309-339 | the current token of a live session is rotated and answered with the next, a rotated one revokes its session, anything else is refused; other sessions are untouched |
| TokenLaws.SignedOutEverywhere | apps/web-homeowner/src/homes.ts:118-152 | in every serialised run, once a tab has signed out, every tab that has handled its events reads no tokens, until somebody signs in or an answer still under way comes in |
| Homes.Registry.ActiveHomeId | apps/web-homeowner/src/homes.ts:53-58 | the active id is always that of a registered home |
| Homes.Registry.AddHome | apps/web-homeowner/src/homes.ts:74-82 | the new list is stored, the stored choice is not touched |
| Homes.Registry.RemoveHome | apps/web-homeowner/src/homes.ts:84-90 | the stored choice is left as it was whenever the home really goes, and moves only when a last active home is refused removal; the home shown as active is as if the choice had not been touched |
| Homes.EditsKeepRegistry | apps/web-homeowner/src/homes.ts:74-90 | under any sequence of additions and removals the list never empties and no hub is in it twice |
| Homes.Added | apps/web-homeowner/src/homes.ts:74-82 | the new home comes last, every other hub's home stays, and an older entry for this hub is gone |
| Homes.AddedKeepsPlaces | apps/web-homeowner/src/homes.ts:74-82 | and the homes of other hubs keep their order and their number |
| Homes.Removed | apps/web-homeowner/src/homes.ts:84-87 | all homes under other ids stay; if there are none the list is left alone |
| Homes.RemovedKeepsPlaces | apps/web-homeowner/src/homes.ts:84-87 | and they keep their order and their number |
| Homes.RemovedIff | apps/web-homeowner/src/homes.ts:84-87 | a home is gone after removal exactly when another id is registered |
| Homes.ReaddingReactivates | apps/web-homeowner/src/homes.ts:84-90 | removing the active home makes another one active, but whatever is then added and removed, short of refusing to remove a last active home, registering that hub again makes it active again |
| Upload.TotalChunks | apps/web-homeowner/src/api.ts:817 | the least positive number of chunks that holds the file |
| Upload.AssembleSlices | apps/web-homeowner/src/api.ts:822-823 | the slices, put together in order, are the file, the last one being cut short |
| Upload.WaitedAtMost | apps/web-homeowner/src/api.ts:827 | one chunk backs off at most 44 seconds in all, and six attempts exactly that |
| Upload.BackoffSteps | apps/web-homeowner/src/api.ts:827 | the first try goes out at once, the next after two, four and eight seconds, all later ones after fifteen |
| Upload.TriesAre | apps/web-homeowner/src/api.ts:826-840 | the retry loop spends one request up to the first answer, and at most its limit |
| Upload.Hub.PostChunk | services/gateway/src/installer-context.ts:1122-1127 | an accepted chunk is stored under its index whether or not its answer is heard |
| Upload.Hub.Complete | services/gateway/src/installer-context.ts:1133-1141 | assembles the chunks in order, or refuses if any is missing |
| Upload.SendChunk | apps/web-homeowner/src/api.ts:822-841 | a chunk counts as sent iff one of six requests is answered, and then the hub holds it, repeats and lost answers notwithstanding |
| Upload.UploadChunked | apps/web-homeowner/src/api.ts:816-852 | over a channel losing requests or answers: success iff every needed request is answered; completion is posted only over a table that concatenates to exactly the file; at most six requests a chunk; the failed chunk named is the first that could not get through |
| Palette.Score | apps/web-homeowner/src/palette.tsx:17-34 | null iff the lowered query is no subsequence of the lowered text; otherwise the least (first+last)/2 over all embeddings |
| Palette.PickedIsTop | apps/web-homeowner/src/palette.tsx:64-71 | at most thirty matches in strict rank order, and any match not shown ranks behind all thirty shown |
| Palette.LowestFirst | apps/web-homeowner/src/palette.tsx:66-69 | lower scores come first, equal ones in the order of the items, and nothing left out scores lower than anything shown |
| Palette.PickedUnique | apps/web-homeowner/src/palette.tsx:64-71 | rank order and being the best matches leave only one possible list |
| Palette.Results | apps/web-homeowner/src/palette.tsx:64-71 | the pipeline scores every item optimally and shows that list |
| Names.CopyNameInjective | apps/web-homeowner/src/automations.tsx:60-65 | copies numbered differently are named differently, the unnumbered first one included |
| Names.CopiesFit | apps/web-homeowner/src/automations.tsx:62-63 | a set that holds the first n copies of a name has at least n elements, so the search ends |
| Names.NextCopyName | apps/web-homeowner/src/automations.tsx:60-65 | a name outside the set: the plain copy if that is free, else the copy with the least free number, which is at most the set's size plus one |
| Names.NextCopyUnique | apps/web-homeowner/src/automations.tsx:60-65 | there is one such name |
| Names.ResolvedNames | apps/web-homeowner/src/automations.tsx:663-671 | imported names are pairwise distinct and new to the hub; one is kept exactly when neither the hub nor an earlier automation of the file has it |
| Names.DuplicateSelected | apps/web-homeowner/src/automations.tsx:209-223 | one copy for each selected automation that still exists, in order, each named as the next copy given all before it |
| Exchange.ToExportRecord | apps/web-homeowner/src/automations.tsx:92-104 | the record lists exactly the devices its nodes mention, each once and under its name |
| Exchange.NameOnIs | apps/web-homeowner/src/automations.tsx:99 | a device goes by its own name, or by its id where the hub does not know it |
| Exchange.MissingIds | apps/web-homeowner/src/automations.tsx:645-656 | exactly the listed devices this hub does not have, each once |
| Exchange.Import | apps/web-homeowner/src/automations.tsx:674-692 | creates each automation remapped node by node under its resolved fresh name |
| Exchange.ClosedIff | apps/web-homeowner/src/automations.tsx:657-692 | once nothing missing is unmapped, every device named in what is created is on this hub if and only if the file lists every foreign device it mentions |
| Exchange.ExportedImportsClosed | apps/web-homeowner/src/automations.tsx:92-104 | so it is for every exported file |
| Exchange.RemapFrame | apps/web-homeowner/src/automations.tsx:657-662 | remapping moves nothing but the device id, and that only if the hub lacks the device |
| Exchange.RemapTakesChoice | apps/web-homeowner/src/automations.tsx:657-685 | a missing device becomes the one chosen for it, any other stays; every trigger, condition and action keeps its place, and the tags are kept |
| Exchange.NothingMissingNothingChanged | apps/web-homeowner/src/automations.tsx:657-692 | on a hub with nothing missing every automation comes back identical but for its name |
| Exchange.KeypadsNotRemapped | apps/web-homeowner/src/automations.tsx:92-97 | on any hub: a file triggered by a keypad the hub does not have imports with nothing reported missing, and names that keypad still |
| Exchange.KeypadsKept | apps/web-homeowner/src/automations.tsx:657-662 | what is created names exactly the keypads its record names |
| Exchange.KeypadsClosedIff | apps/web-homeowner/src/automations.tsx:657-692 | for every file and whatever the wizard was told, every keypad named in what is created is on this hub if and only if every keypad named in the file is |
| Fields.NarrowKeys | apps/web-homeowner/src/automation-capability-fields.ts:335-344 | narrowing drops exactly the controls the device lacks |
| Fields.NarrowRange | apps/web-homeowner/src/automation-capability-fields.ts:343 | and gives white temperature the device's own range |
| Fields.TriggerAndActionAgree | apps/web-homeowner/src/automation-capability-fields.ts:371-388 | without driver metadata each of hue, saturation and white temperature can be read by a trigger exactly when it can be set by an action |
| Fields.ReadingsNonempty | apps/web-homeowner/src/automation-capability-fields.ts:371-376 | no narrowing leaves a capability without a field to read |
| Fields.DriverMetadataWins | apps/web-homeowner/src/automation-capability-fields.ts:361-388 | what a driver publishes for a capability is offered as it is, commands and state fields each for themselves; what it does not publish comes from the tables |
| Fields.ColoursSettable | apps/web-homeowner/src/device-ui-capabilities.ts:60-79 | without published commands a colour light can be set to hue and saturation iff its configuration says rgb or, if that says nothing, its live state has a hue or a saturation; and to a white temperature iff configuration or else live state says so |
| Fields.ColoursReadable | apps/web-homeowner/src/colormode.ts:41-54 | and asked for them in just those cases: a light that has reported nothing offers none of the three |
| Fields.WhiteRange | apps/web-homeowner/src/automation-capability-fields.ts:335-344 | a reported white range is the range of its white temperature wherever that is offered |
| Fields.NarrowFields | apps/web-homeowner/src/automation-capability-fields.ts:335-344 | narrowing alters no other field |
| Fields.CommandableJoin | apps/web-homeowner/src/automation-capability-fields.ts:265-267 | leaving out the read-only capabilities keeps the order and number of the rest |
| Fields.HueOnlyInColor | apps/web-homeowner/src/automation-capability-fields.ts:144-260 | no command of another capability has a hue or a saturation |
| Builder.OfferedWellFormed | apps/web-homeowner/src/automation-capability-fields.ts:144-260 | no offered definition has a parameter named like the capability or the verb, or an empty verb, given usable metadata; and every kind but a sensor has one |
| Builder.FillDefaults | apps/web-homeowner/src/automations.tsx:1181-1187 | the filling loop: what is there stays, each required parameter with a default is present |
| Builder.DefaultsFill | apps/web-homeowner/src/automations.tsx:1179-1187 | a filled command keeps its base, has every required default and no key from anywhere else |
| Builder.SeedMatchesIff | apps/web-homeowner/src/automations.tsx:1204-1210 | for any definition a driver may publish, the command a picked verb starts from matches the definition if and only if the verb is not empty, or what a parameter called "action" puts in its place comes to the same |
| Builder.SetKeeps | apps/web-homeowner/src/automations.tsx:1211-1213 | setting a parameter keeps the command on the definition shown |
| Builder.ClickKeeps | apps/web-homeowner/src/automations.tsx:1123-1157 | no click leads from a command the device takes to one it does not |
| Builder.EveryCommandOk | apps/web-homeowner/src/automations.tsx:1123-1213 | given usable metadata: in every state reachable by picking devices, capabilities, verbs and parameters the command is absent or matches one definition of that device: keys within capability, verb and its parameters, every required default present |
| Builder.NeverColoursAWhiteLight | apps/web-homeowner/src/automations.tsx:48-57 | so without driver metadata a light neither configured nor known from live state to have colours never carries hue or saturation |
| BuilderLaws.PickedDevice | apps/web-homeowner/src/automations.tsx:1123-1140 | picking a device names it and starts a command for its first commandable capability, or none |
| BuilderLaws.PickedCapability | apps/web-homeowner/src/automations.tsx:1204-1207 | picking a capability makes the command one for that capability, with its first verb |
| BuilderLaws.PickedVerb | apps/web-homeowner/src/automations.tsx:1208-1210 | picking a verb gives the command that verb and its required defaults, for the capability it had |
| BuilderLaws.FieldSet | apps/web-homeowner/src/automations.tsx:1211-1213 | setting a shown field sets it and nothing else |
| BuilderLaws.WheelSet | apps/web-homeowner/src/automations.tsx:1211-1250 | turning the colour wheel sets hue and saturation and nothing else |
| Builder.PickedVerbShownIff | apps/web-homeowner/src/automations.tsx:1200-1210 | for any metadata, a picked verb is the one shown afterwards iff it is not empty or is what the editor falls back to for want of one |
| Builder.EmptyVerbMixesCommands | apps/web-homeowner/src/automations.tsx:1204-1213 | with an empty verb in the metadata, three clicks make a command that matches neither verb |
| Builder.WatchKeeps | apps/web-homeowner/src/automations.tsx:1131-1140 | no click leaves a trigger on a known device without a capability it has and a field that capability reports |
| Builder.EveryTriggerOk | apps/web-homeowner/src/automations.tsx:1255-1269 | nor does any sequence of clicks |
| BuilderLaws.WatchSets | apps/web-homeowner/src/automations.tsx:1255-1285 | each control of a trigger sets what it is for; only another capability or field drops the value compared with |
| BuilderLaws.WatchedDevice | apps/web-homeowner/src/automations.tsx:1131-1140 | a newly watched device is read for its first capability's first field, or for nothing if it has none |
| Keypad.MillisBack | apps/web-homeowner/src/universal-keypad-logic.ts:232-289 | the floating-point roundings of a division and a multiplication by 1000, whichever way they go, leave every storable number of milliseconds as it was after the final rounding |
| Keypad.EntryBackIff | apps/web-homeowner/src/universal-keypad-logic.ts:207-211 | a row of the action list comes back from its flat command iff no parameter is named like the capability or the verb |
| Keypad.ActionsBack | apps/web-homeowner/src/universal-keypad-logic.ts:290-297 | loading stored actions and building them again gives back exactly the device commands among them, in order |
| Keypad.SaveLoadSave | apps/web-homeowner/src/universal-keypad-logic.ts:207-298 | for every valid form, creating or updating, loading and building again gives the same request |
| Keypad.EditUnchangedIff | apps/web-homeowner/src/universal-keypad-logic.ts:263-298 | opening a mapping and saving it untouched leaves it as it was iff it is normalised: trimmed name, target and actions exactly where its behaviour wants them, device commands only |
| Keypad.FormBackIff | apps/web-homeowner/src/universal-keypad-logic.ts:243-298 | a saved form comes back as typed iff it holds nothing a request cannot carry: whole milliseconds, no hidden target or actions |
| KeypadLaws.CreateStores | apps/web-homeowner/src/universal-keypad-logic.ts:243-256 | a new mapping says what the form says, field by field and row by row, is enabled, unconditional, without variables and in its first state |
| KeypadLaws.UpdateStores | apps/web-homeowner/src/universal-keypad-logic.ts:263-273 | an edited one says what the form says and keeps its enabled flag, conditions, variables and runtime state |
| KeypadLaws.LoadShows | apps/web-homeowner/src/universal-keypad-logic.ts:280-298 | the form shows the mapping's name, input, behaviour, target and device commands in order; without a target the defaults |
| KeypadLaws.FirstProblemSaid | apps/web-homeowner/src/universal-keypad-logic.ts:216-226 | an incomplete form gets the message of the first thing missing: name, control, target, actions; both builders refuse it with that message |
| KeypadLaws.RoundsToNearest | apps/web-homeowner/src/universal-keypad-logic.ts:235 | the fade sent is the nearest whole millisecond |
| KeypadHub.ValidationMirrorsHub | packages/domain-model/src/keypad-mapping.ts:131-172 | the form's check together with an eligible capability is equivalent to the hub's cross-field rules on the request plus non-blank names |
| KeypadHub.RowAcceptedIff | packages/domain-model/src/capabilities.ts:378-480 | the hub parses the command built from a row of the form iff the row does not lack a verb its capability wants |
| KeypadHub.LoadedRow | packages/domain-model/src/automations-dsl.ts:76-77 | a device command the hub stores loads as a row with its verb in place |
| KeypadHub.OfferedVerbOk | apps/web-homeowner/src/automation-capability-fields.ts:144-260 | each verb the editor offers is one the hub knows for that capability, and one is offered exactly where the hub wants one |
| KeypadEditor.EditsKeep | apps/web-homeowner/src/universal-keypad.tsx:395-560 | no sequence of edits, of the target or of the action rows, leaves a capability the behaviour cannot work on, a negative fade, or a row with anything wrong but a missing verb |
| KeypadEditor.SavedFormAccepted | apps/web-homeowner/src/universal-keypad.tsx:335-372 | however the form was edited, once its own check passes the hub takes it iff step and fade, which are typed freely, lie within bounds and no row lacks a verb its capability wants |
| KeypadEditor.ChangedRowRefused | apps/web-homeowner/src/universal-keypad.tsx:536-549 | giving a row another device or capability that wants a verb always leaves a form that passes its own check and that the hub refuses |
| KeypadEditor.VerblessRowReachable | apps/web-homeowner/src/universal-keypad.tsx:515-552 | and such a form is two clicks from an empty one |
| KeypadEditor.OpeningsOk | apps/web-homeowner/src/universal-keypad.tsx:341-345 | both ways of opening the editor start from a form of that kind |
| KeypadLaws.TargetPicked | apps/web-homeowner/src/universal-keypad.tsx:455-461 | picking a target names it and takes the first capability that suits the behaviour, or none |
| KeypadLaws.BehaviorSet | apps/web-homeowner/src/universal-keypad.tsx:401-411 | another behaviour keeps the target's capability if it suits, and else takes the first that does |
| KeypadLaws.NumbersTyped | apps/web-homeowner/src/universal-keypad.tsx:475-494 | a step of nought counts as ten, a negative fade as nought |
| KeypadLaws.RowChanged | apps/web-homeowner/src/universal-keypad.tsx:519-551 | a row given another device, capability or verb has it and starts without parameters; no other row is touched |
| KeypadLaws.AddedRow | apps/web-homeowner/src/universal-keypad.tsx:512-518 | a new row is about the first device with anything to command, its first capability and that one's first verb |
| KeypadLaws.RowsAddedAndRemoved | apps/web-homeowner/src/universal-keypad.tsx:512-524 | adding puts one row behind the others, removing takes out just the row it is pressed on |
| KeypadGroups.GroupKeypadsByRoom | apps/web-homeowner/src/universal-keypad-logic.ts:42-57 | one non-empty group for each key in use, holding its keypads in input order, no keypad under any other key, sorted by room name |
| KeypadGroups.SortByName | apps/web-homeowner/src/universal-keypad-logic.ts:56 | the sort lists every group once, by name, and leaves groups of equal name in the order they came in |
| KeypadGroups.NothingLost | apps/web-homeowner/src/universal-keypad-logic.ts:47-52 | all groups together hold every keypad exactly as often as it came in, and nothing else |
| KeypadGroups.ExactlyOneGroup | apps/web-homeowner/src/universal-keypad-logic.ts:47-52 | each keypad is in exactly one group |
| KeypadGroups.GroupsCarryTheirRoomIff | apps/web-homeowner/src/universal-keypad-logic.ts:48-55 | groups carry the room their keypads are in, null when it is not known, iff no keypad is in a known room whose id is empty or the sentinel |
| KeypadGroups.LastRoomFound | apps/web-homeowner/src/universal-keypad-logic.ts:44 | of several rooms with one id the last is the one found |
| Poll.Page.Poll | apps/web-homeowner/src/knx-discovery-workspace.tsx:280-315 | one turn of the loop: finished keeps the id, failed, cancelled, 404 or a fifth failure drops it, anything else goes on |
| Poll.Page.Recover | apps/web-homeowner/src/knx-discovery-workspace.tsx:245-260 | what the one question after a reload does to page and storage |
| Poll.StreakIs | apps/web-homeowner/src/knx-discovery-workspace.tsx:284-303 | the counter stands at n or more iff the last n answers were all failures |
| Poll.SessionVerdict | apps/web-homeowner/src/knx-discovery-workspace.tsx:280-315 | the saved id is dropped iff the first conclusive answer is failed, cancelled, a 404 or the fifth failure in a row; a result is shown iff it is a result; polling goes on, counter below five and id kept, exactly while nothing is conclusive |
| Poll.AnswerShown | apps/web-homeowner/src/knx-discovery-workspace.tsx:280-327 | a failed or lost job leaves an error, a cancelled one an idle page, a result the result; the first two, a 404 and the fifth failure also forget id and file, and any other answer only moves the counter |
| Poll.ButtonsPressed | apps/web-homeowner/src/knx-discovery-workspace.tsx:372-390 | starting saves and follows the new job from nought, cancelling and clearing forget the old one, a reload keeps only what is stored |
| Poll.EmptyCompletionNeverEnds | apps/web-homeowner/src/knx-discovery-workspace.tsx:286-297 | a job reported completed without a result is polled without end |
| Poll.RunKeepsInv | apps/web-homeowner/src/knx-discovery-workspace.tsx:278-315 | in every run of scans, reloads, cancellations and other tabs the counter stays below five while polling goes on |
| Poll.RunKeepsRecoverable | apps/web-homeowner/src/knx-discovery-workspace.tsx:326-347 | a page alone, starting no scan while it still asks about an older job, never follows or shows a job a reload would not find |
| Poll.ResultSurvivesReload | apps/web-homeowner/src/knx-discovery-workspace.tsx:326-337 | so the saved id is that of the job whose result is shown, and if the hub still has that result a reload shows it again and keeps the id |
| Poll.RecoveryDropsIff | apps/web-homeowner/src/knx-discovery-workspace.tsx:238-260 | the question after a reload, unlike polling, drops the id at any failure, and at nothing else but an ended or empty job |
| Poll.RecoveryShown | apps/web-homeowner/src/knx-discovery-workspace.tsx:245-260 | a live job is followed, a finished one shown, any other dropped, and reported lost only if it could not be asked about |
| Poll.LateRecoveryDropsTheNewJob | apps/web-homeowner/src/knx-discovery-workspace.tsx:245-260 | its late answer erases the id of a scan started meanwhile |
| Poll.GivingUpForgetsTheSlot | apps/web-homeowner/src/knx-discovery-workspace.tsx:320-326 | giving up empties the shared slot even if another tab has filled it with a newer job |
| Registry.FirstPerSingleCardKey | apps/web-homeowner/src/single-card-drivers.ts:10-18 | the entries whose key is not single-card or has not come before, in order |
| Registry.CollapseSingleCardKeys | apps/web-homeowner/src/extensions.tsx:32-44 | one card for each of those entries with its key, in order, carrying the key's first installed entry, else its first, and the number installed |
| Registry.OneCardPerKey | apps/web-homeowner/src/single-card-drivers.ts:10-18 | every key is kept, and a single-card key once |
| Registry.CountsAddUp | apps/web-homeowner/src/extensions.tsx:32-44 | the counts on the cards sum to the number of installed entries |
| Registry.InstalledIffCounted | apps/web-homeowner/src/extensions.tsx:40-41 | a card reads installed iff its count is positive |
| Registry.CollapseIdempotent | apps/web-homeowner/src/extensions.tsx:30-44 | collapsing the collapsed entries again keeps the same entries |
| Wizards.ValidateCoolMaster | apps/web-homeowner/src/drivers.tsx:1376-1403 | raises exactly the complaints there are: each manual entry without a host, each repeated serial or host with the first entry it repeats |
| Wizards.CoolValidIff | apps/web-homeowner/src/drivers.tsx:1376-1403 | valid iff every manual entry has a host and the non-empty trimmed serials and hosts are each pairwise distinct |
| Wizards.CoolValidIffConfigsGood | apps/web-homeowner/src/drivers.tsx:1414-1429 | that is: iff the generated gateways are findable and distinct and no left-over serial of a manual entry repeats another |
| Wizards.CoolConfigsAre | apps/web-homeowner/src/drivers.tsx:1414-1429 | each gateway is installed with what was typed for it, trimmed, a manual one without any serial |
| Wizards.ClampCount | apps/web-homeowner/src/drivers.tsx:1410-1412 | between 1 and 100: the typed count rounded down if it lies there, 1 for less or for no number, 100 for more |
| Wizards.ResizeKeepsValid | apps/web-homeowner/src/drivers.tsx:1437-1441 | changing the count never makes a valid wizard invalid |
| Wizards.ValidateCloud | apps/web-homeowner/src/drivers.tsx:1013-1037 | raises exactly the complaints there are |
| Wizards.CloudConfigsAre | apps/web-homeowner/src/drivers.tsx:996-1003 | shared credentials reach every network, whatever an entry still holds, and otherwise each network has its own; an id is sent if there is one |
| Wizards.CloudValidIffConfigsGood | apps/web-homeowner/src/drivers.tsx:996-1037 | valid iff the generated networks all have credentials and, sharing one account, are all named and pairwise distinct |
| Wizards.ValidateLocal | apps/web-homeowner/src/drivers.tsx:1075-1090 | raises exactly the complaints there are |
| Wizards.LocalValidIff | apps/web-homeowner/src/drivers.tsx:1075-1090 | valid iff there is a gateway, all fields are filled and no two agree in both address and port texts, though only their joined text is compared |
| Wizards.FilledMeans | apps/web-homeowner/src/drivers.tsx:1078-1085 | filled in means an address, a user, a password and two ports that read as numbers |
| Wizards.LocalConfigsAre | apps/web-homeowner/src/drivers.tsx:1057-1068 | each gateway is installed with what was typed for it |
| Wizards.LocalSocketsDistinctIff | apps/web-homeowner/src/drivers.tsx:1057-1090 | the sockets of a valid wizard are pairwise distinct iff no port is written in two ways |
| Wizards.PaddedPortCollides | apps/web-homeowner/src/drivers.tsx:1057-1090 | reading digits as numbers, any gateway valid alone has a double, its port written with a nought in front, that validates beside it and opens the same socket |
| Wizards.EightyCollides | apps/web-homeowner/src/drivers.tsx:1057-1090 | as with ports 80 and 080 |
| Wizards.LabelsClashIff | apps/web-homeowner/src/drivers.tsx:1097-1101 | two submissions share a label iff they are of one mode, neither is a lone first instance, and their numbers overlap |
| Wizards.LabelsAre | apps/web-homeowner/src/drivers.tsx:1097-1101 | a lone first instance has no label, any other is called by its mode and by its number among all there are |
| Wizards.LabelsNeverRepeat | apps/web-homeowner/src/drivers.tsx:1092-1101 | over any successive submissions with nothing removed no label repeats, and at most one instance has none |
| Wizards.RemovalRepeatsALabel | apps/web-homeowner/src/drivers.tsx:1097-1101 | after a removal a label can come back |
| RoomSummary.RoomChips | apps/web-homeowner/src/roomsummary.ts:22-50 | one chip for every category with an active device, in fixed order, with its count or the one open cover's position |
| RoomSummary.SummarizeRoom | apps/web-homeowner/src/roomsummary.ts:52-89 | the line says of each of those chips, in their order, what the chip shows |
| RoomSummary.EmptyTogether | apps/web-homeowner/src/roomsummary.ts:52-89 | the line is empty iff there is no chip, iff no device is active |
| RoomSummary.EachCountsOnce | apps/web-homeowner/src/roomsummary.ts:25-34 | the counts of all categories add up to the number of active devices: each counts in one |
| RoomSummary.CountsIff | apps/web-homeowner/src/roomsummary.ts:25-34 | an open cover counts as a cover whatever else it can do, a light by the first of its brightness, colour and power states that is known, and so on down the categories |
| RoomSummary.CaptionIs | apps/web-homeowner/src/roomsummary.ts:36-44 | a chip shows how many there are, that of a single open cover how far, to the nearest percent |
| RoomSummary.PluralIs | apps/web-homeowner/src/roomsummary.ts:11-14 | one light, two lights; one switch, two switches |
| RoomSummary.JoinHolds | apps/web-homeowner/src/roomsummary.ts:88 | the line holds every part, in order |
| RoomSummary.JoinDots | apps/web-homeowner/src/roomsummary.ts:88 | with a dot between each two and nothing else |
| RoomSummary.OrderIrrelevant | apps/web-homeowner/src/roomsummary.ts:22-89 | reordering the devices changes neither summary |
| Schedule.TimeBack | apps/web-homeowner/src/climate-scheduler-ui.tsx:47-53 | printing minutes and reading them gives them back, for any number of minutes |
| Schedule.ClockBackIff | apps/web-homeowner/src/climate-scheduler-ui.tsx:47-53 | a five-character text survives reading and printing iff it is HH:MM with minutes below sixty |
| Schedule.DraftKeepsIff | apps/web-homeowner/src/climate-scheduler-ui.tsx:55-80 | an event survives a pass through the editor iff each optional part is there exactly when its recurrence wants it and none is blank |
| Schedule.DraftFills | apps/web-homeowner/src/climate-scheduler-ui.tsx:55-80 | a pass through the editor fills in today for an undated one-time event and the workdays for a weekly one without days, drops what the recurrence has no use for and what is blank, and keeps the rest |
| Schedule.DraftNormalises | apps/web-homeowner/src/climate-scheduler-ui.tsx:55-80 | one pass normalises, keeps the time, and a later pass on any day changes nothing more |
| Schedule.DaysInOrder | apps/web-homeowner/src/climate-scheduler-ui.tsx:246 | the default textual sort is numeric on weekdays |
| Schedule.CopyDayFires | apps/web-homeowner/src/climate-scheduler-ui.tsx:242-252 | after copying, each event fires on its old days and, if it was one of this device's weekly events on the copied day, on the targets too, sorted without repeats; nothing else of any event changes |
| Schedule.CopyDayIdempotent | apps/web-homeowner/src/climate-scheduler-ui.tsx:242-252 | copying again changes nothing |
| Schedule.CopyDaysMerge | apps/web-homeowner/src/climate-scheduler-ui.tsx:242-252 | two copies of one day are one copy to both sets of targets, in either order |
| Schedule.ToggleFlips | apps/web-homeowner/src/climate-scheduler-ui.tsx:88-91 | pressing a weekday flips that day only, keeps the days in order, and pressing it again undoes it |

## Left out

- Rendering, styling, hooks and dialogs: a functional state update counts as an immediate assignment.
- `fetch`, WebSocket and storage internals: they appear as answers, deliveries, losses and events in any order.
- The hub, the identity server and the chunk store: each is a small stated environment, faithful to the cited lines, not verified code.
- Storage that fails or is cleared; which order a locale puts names in: the comparison is a parameter, taken to be total and transitive.
- Lower-casing, URL normalisation and the hash that home ids come from are parameters; real numbers stand for floating point, so NaN and infinity appear only where the code handles them.
- Upload.UploadChunked: a request that arrives after its own retry is not modelled, nor is expiry of an upload on the hub.
- TokenTheorems.NeverRevoked: the server's compare-and-swap of two simultaneous rotations is atomic here, so its benign branch does not occur, and a refused refresh only ends that refresh.
- Schedule.TimeBack: reading a number is modelled for digit texts; any other text counts as not a number, where the browser would also read signs, spaces and exponents. A time input produces neither.
- Wizards.LocalValidIff: which texts read as finite numbers is a parameter; that none of them is empty or has a colon in it is assumed. Network id, data format and gateway name are not modelled.
- Keypad.SaveLoadSave: a stored mapping holds what the request says; the hub's substitution of `{{variables}}` inside action values and its dropping of parameters it does not know are not modelled. Numbers are exact, which `Keypad.MillisBack` justifies for the one computation on them.
- KeypadEditor.SavedFormAccepted: a stored scene, notification, delay or intent is taken to have been accepted and not looked into; no form builds one. The editor offers its fade only for one protocol; here it may be set for any.
- Builder.EveryCommandOk: driver metadata with an empty verb, or with a parameter called "capability" or "action", is excluded; no driver publishes any today. What a pick does under any metadata is `Builder.SeedMatchesIff` and `Builder.PickedVerbShownIff`.
- TokenTheorems.PresentsCurrentIff: signing out is local; a server that also ends the session then is not modelled.
- Exchange.Import: creation requests are taken to succeed; a failed one stops the import part-way.
- Poll.SessionVerdict: an answer that arrives after its page has moved on is discarded, as in the code, and so is not an event.
- `getRoomUiCapabilities`, `canStartKnxScan`, summaries of mappings and the sun-time, photo and colour helpers: they would add only easy members.
- Delayed deletion with undo, presets of the climate console and comparator choice of triggers: outside this model.
