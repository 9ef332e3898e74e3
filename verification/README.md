# A verified model of the settings cache, the websocket relay, the signal handlers and the SSO reconciliation

The modules model, component by component, the parts of the repository that keep state in
several places at once, or rewrite text, and prove that they agree with a simple
specification. `dafny verify dfyconfig.toml` checks everything.

* **Settings** (`SettingsModel`, `SettingsCoverage`, `SettingsHistory`, `SettingsRegistry`,
  `SettingsCache`, `SettingsStaleness`, `SettingsAnswers`, `SettingsRuns`). `SettingsModel.Final`
  is the plain lookup of a setting without any cache. `SettingsCache` has the wrapper of one
  process as a class, with its memo, the shared cache behind the encrypting proxy, the preload
  and the invalidation by signals: whatever the process does, reading a setting returns `Final`.
  `SettingsHistory` says exactly for which settings that holds after every history.
  `SettingsStaleness` has any number of processes as interleaved steps, lost deletions and time;
  `SettingsAnswers` says what that means for answers: one rests only on what the table held in
  the last 65 seconds for every level of computed defaults. `SettingsRuns` shows that histories
  are runs of that protocol. Nothing is assumed of what settings accept, but that encrypted ones
  hold strings; where the cache cannot tell a value from "not set", or a default reads what it
  does not declare, the settings read from there are excepted and no other, and lemmas say
  exactly when they go wrong.
* **Relay** (`RelaySubscriptions`, `RelayLoop`, `RelayManager`). Browser consumers, the queues
  to the relay connections and their producers; copies of a notification crossing producers;
  the manager that reconciles announced hosts with connections.
* **Signals and managers** (`GroupGraph`, `SuperuserSync`, `ImplicitRoles`, `HostPointer`,
  `Registration`). Group deletion, the superuser flag and the System Administrator role,
  implicit role parents, the last job of a host, instance registration.
* **SSO and texts** (`SamlReconcile`, `Redact`, `NamedUrl`). From a SAML assertion to roles;
  the redaction loop; named URL identifiers and their decoder.

Code that changes state step by step is a class or a method with loops, proved against a
specification function or relation; what the repository promises is then proved about that
specification. What a specification function comes to is stated a second time without it, in terms
of the rows, entries, lines and fields it is about: `SettingsModel.FilesDecideLast`,
`GroupGraph.OnlyParentsAdopt`, `SamlReconcile.RolesAfterLogin`, `Redact.KeptIff` and others.
Interleavings are step relations over runs of any length.

Some statements one would expect are false of the code. Each is kept as it is, with the
exact condition or a concrete case:

* `depends_on` is followed one level deep. The answers for a setting are right after every history if
  and only if the setting, its peer and whatever they are computed from declare all that their defaults
  read, directly or through other defaults: `SettingsHistory.AnsweredIff`. That the setting itself does
  is what it takes for its own entry never to be left wrong (`SettingsCoverage.CoveredIff`), and not
  enough: a dropped setting is computed again from what is left of another. `SettingsRuns.ChainGoesStale`
  and `SettingsRuns.ListingIsNotEnough` are runs that go wrong, and `SettingsRuns.UntrustedRuns` has one for
  every such setting. The repository has a setting that declares nothing and reads another one
  (forail/sso/conf.py:1289-1290, 1321-1330).
* The bulk preload passes over null rows, the one-key path does not: `SettingsModel.PreloadAgrees`,
  `SettingsModel.NullRowDiffers`.
* A string equal to one of the three sentinels does not survive the cache: `SettingsModel.RoundTrip`.
* A setting that is validated together with the stored value of another can be answered with a
  mixture of two instants: `SettingsAnswers.AnswersDoMix`.
* Deleting a group that is its own child and has another parent fails: `GroupGraph.DeleteValidIff`. With
  cycles the order of deletions can decide whether one fails: `GroupGraph.DeleteAllSucceedsIff`,
  `GroupGraph.CyclicOrderMatters`.
* A reconciliation round of the relay manager fails when a connected host has announced a new address,
  because the cleanup forgets the address first, unless the host announces itself again during the
  cleanup; and when an offline heartbeat is still cleaning up one of the hosts the round takes down:
  `RelayManager.Manager.Round`, `RelayManager.QuietRound`, `RelayManager.BreaksIff`.
* A malformed group request empties the session without telling anybody, and no farewell makes up for it:
  `RelaySubscriptions.MalformedLosesTrack`, `RelaySubscriptions.FarewellLeaves`. A producer's removal can
  take a subscription with it: `RelaySubscriptions.RemovalLosesIff`, `RelaySubscriptions.SubscriptionCanBeLost`.
* Adding an administrator who is a member already does not set a missing flag: `SuperuserSync.InStepIff`.
* The last job of a host is not repaired when a newer one than it names has been left behind:
  `HostPointer.RightAfterDeletion`.
* A role granted by hand is lost when it becomes an implicit parent and then ceases to be one:
  `ImplicitRoles.GrantsOverChanges`. An implicit parent somebody took away does not come back:
  `ImplicitRoles.ImplicitAreParents`.
* A team nobody mentions loses the user when the attribute settings begin by removing everybody:
  `SamlReconcile.OthersUntouched`.
* Unescaping loses text exactly where a field contains one of the nine codes already, and then the field
  has the same identifier as another: `NamedUrl.UnescapeInverts`, `NamedUrl.CodeCollides`.
* Whether a password behind a kept match is redacted depends on how much text is in front of it, because
  the scan goes on from where it started plus the length of the match, which may be in front of the
  password, behind it, or in the middle of the kept scheme: `Redact.InnerMatchReached`,
  `Redact.AloneItLeaks`, `Redact.BehindNineItDoesNot`, `Redact.BehindTwelveItLeaks`.
* Of a user name one occurrence is replaced and of a password two, from the left. A password that occurs
  twice in front of its place stays: `Redact.PasswordStaysIff`, `Redact.ShortPasswordStays`.
* `register` never reports that nothing changed: the state is always among the fields it saves.

## Model

| member | source | states |
|---|---|---|
| `SettingsCache.SettingsWrapper.GetAttr` | forail/conf/settings.py:421-441 | `settings.NAME` returns what an uncached lookup of the present rows returns, from whichever layer it comes, for every setting whose reads are declared and lose nothing in the cache (`SettingsModel.TameFinal`), whatever the other settings are like; no live entry is lost and the answer is in the memo; without a usable value, and for a name nobody has registered, it is the value of the settings files, or none; a value read anew stays in the memo for five seconds, and reading does not prolong that |
| `SettingsCache.SettingsWrapper.GetLocal` | forail/conf/settings.py:347-412 | the value of one process, from the shared cache, the row or the default, validated together with the stored value of the peer setting, is the uncached one; afterwards the setting has a live entry |
| `SettingsCache.SettingsWrapper.GetRaw` | forail/conf/settings.py:347-405 | without validation the stored value or default comes out unchanged, as validation of another setting reads it |
| `SettingsCache.SettingsWrapper.PreloadCache` | forail/conf/settings.py:284-345 | when neither this process nor another has loaded within the minute, every setting kept in the database gets a live entry, the one of its lowest row that counts as set or of its default, sealed under the id beside it; otherwise cache and memo stay as they are; both timers run for sixty seconds |
| `SettingsCache.SettingsWrapper.LoadAll` | forail/conf/settings.py:311-345 | reading the rows, computing the missing defaults and storing ids before values fills the whole cache as the preload promises, although the defaults read settings meanwhile |
| `SettingsCache.SettingsWrapper.StoreRaw` | forail/conf/settings.py:389-393 | storing the id before the value leaves the two paired, whatever was cached before, for sixty seconds and three hundred |
| `SettingsCache.SettingsWrapper.LoadRows` | forail/conf/settings.py:314-325 | the batch holds, for every setting kept in the database with a row that counts as set, the value of the lowest such row, past null rows, and the current id if it is encrypted |
| `SettingsCache.SettingsWrapper.LoadDefaults` | forail/conf/settings.py:326-338 | the rest of the batch are the defaults, although computing a default may itself fill the cache |
| `SettingsCache.SettingsWrapper.StoreIds` | forail/conf/settings.py:341-343 | all ids of the batch are live afterwards, and no older value is left beside an id it is not sealed under |
| `SettingsCache.SettingsWrapper.StoreValues` | forail/conf/settings.py:340-345 | all values of the batch are live afterwards, each sealed under the id that stands beside it |
| `SettingsCache.SettingsWrapper.ComputeDefault` | forail/conf/settings.py:381-385 | a default that reads other settings through the cache is the default computed from their uncached values |
| `SettingsCache.SettingsWrapper.ProxyGet` | forail/conf/settings.py:148-178 | what the encrypting proxy reads decrypts to the right plain value, or there is no entry |
| `SettingsCache.SettingsWrapper.ProxySet` | forail/conf/settings.py:153-178 | the entry is sealed under the id of the current row, which a later read will use, so every pair stays right; an encrypted value is written as cipher text |
| `SettingsCache.SettingsWrapper.ProxyId` | forail/conf/settings.py:168-173 | the id used is the cached one if there is one, else that of the row in the database |
| `SettingsCache.SettingsWrapper.SetId` | forail/conf/settings.py:389-392 | the current id is cached for the default time of the cache, and every pair of id and value stays right |
| `SettingsCache.SettingsWrapper.HandleSettingChange` | forail/conf/signals.py:20-63 | after the rows of one key have changed in any way, dropping that key and its dependents and re-reading them makes the cache right for the new rows, for every setting that declares its reads; each dropped one is announced with its new uncached value; nothing else that is cached is lost |
| `SettingsCache.SettingsWrapper.SaveNew` | forail/conf/models.py:36-61 | creating a row, for an encrypted setting in two saves with signals after each, leaves the value readable under the new id, the rows of other settings and the invariant of the cache; the new row comes last under the next id, and holds the value, or its cipher text under that id |
| `SettingsCache.SettingsWrapper.SaveExisting` | forail/conf/models.py:36-61 | saving the existing row leaves the value readable under its id, the rows of other settings and the invariant of the cache; only the value of that row changes |
| `SettingsCache.SettingsWrapper.SetLocal` | forail/conf/settings.py:443-471 | assignment fails exactly for read-only and for invalid values, without touching the rows; otherwise the uncached lookup becomes the validated new value and no other setting's rows change |
| `SettingsCache.SettingsWrapper.DelLocal` | forail/conf/settings.py:473-485 | deletion removes every row of the setting and of no other, one signal after the other |
| `SettingsCache.SettingsWrapper.Evict` | forail/main/cache.py:33-87 | the shared cache may lose any entry, an id without its value too, without any entry becoming wrong |
| `SettingsCache.SettingsWrapper.Tick` | forail/conf/settings.py:36-57 | as time passes entries expire, and none becomes wrong |
| `SettingsCache.SettingsWrapper.constructor` | forail/conf/settings.py:239-262 | a process starts coherent |
| `SettingsCache.Invalidated` | forail/conf/signals.py:20-32 | after any change of the rows of one key, what is left when that key and its direct dependents are dropped is right for the new rows, for every encrypted setting and every other one that declares its reads, however the rest of the registry looks |
| `SettingsCache.LoadedEntry` | forail/conf/settings.py:314-345 | a loaded entry is what the one-key path would have stored, for every setting the cache can serve |
| `SettingsRuns.ChainGoesStale` | forail/conf/signals.py:23-29 | a run of one process in which every signal is delivered and no time passes: a setting can be assigned, two defaults are computed from it in a chain that is declared one level deep, and the answer for the last is wrong |
| `SettingsCache.WriteValue` | forail/conf/settings.py:153-178 | one write keeps all pairs right if the id beside it, where there is one, is the current one |
| `SettingsCache.SameCipher` | forail/conf/settings.py:461-464 | skipping an assignment because the stored form equals the new value is right, for encrypted settings too |
| `SettingsModel.Unaffected` | forail/conf/signals.py:23-26 | a change of one key reaches the uncached lookup of no setting but those that read it, directly or through defaults and peers of others |
| `SettingsModel.StaysFaithful` | forail/conf/settings.py:314-338 | nor does it change whether something is lost between storing and reading such a setting |
| `SettingsModel.SecretIsTame` | forail/conf/settings.py:153-178 | encrypted settings are always served right: their defaults read nothing and their values are no sentinels |
| `SettingsModel.CoveredIsDropped` | forail/conf/signals.py:23-26 | a setting that declares its reads is dropped whenever it could change |
| `SettingsModel.RowDecides` | forail/conf/settings.py:197-208 | without cache a setting that is not read-only, or the identifier of the installation, is worth what its lowest row holds, a secret what the row decrypts to under its own id |
| `SettingsModel.DefaultDecides` | forail/conf/settings.py:379-388 | without a row, or if it is read-only, it is worth its default, computed from the final values of what the default reads |
| `SettingsModel.FilesDecideLast` | forail/conf/settings.py:395-441 | that is validated, together with the stored value of the peer; if nothing comes of it, or nobody has registered the name, the settings files decide |
| `SettingsCoverage.CoveredIff` | forail/conf/signals.py:20-32 | invalidation never leaves a wrong entry of a setting, whatever is computed, validated and stored, if and only if the setting declares every database setting its default reads, directly or through others; what a lookup then answers is another matter |
| `SettingsCoverage.CoverageSuffices` | forail/conf/signals.py:20-32 | declared reads keep every entry that is not dropped right, for all computations and all changes of rows |
| `SettingsCoverage.UndeclaredGoesStale` | forail/conf/signals.py:23-26 | for every undeclared read there are defaults of the same shape and one row whose change leaves a wrong entry undropped |
| `SettingsHistory.AnsweredIff` | forail/conf/signals.py:20-32 | after every history of lookups, loads, changes with their signals and evictions, whatever is computed, validated and stored, a setting whose values the cache can keep is answered as by the uncached lookup, if and only if it, its peer and whatever they are computed from declare all that their defaults read |
| `SettingsHistory.TrustSuffices` | forail/conf/settings.py:347-441 | one half: with such declarations all answers are right, whatever the other settings are like |
| `SettingsHistory.UntrustedIsMisanswered` | forail/conf/signals.py:20-32 | the other half: otherwise for some computations a load, a lookup and a change lead to a wrong answer, whether or not the entry of the setting itself is dropped |
| `SettingsHistory.LookRight` | forail/conf/settings.py:347-433 | a lookup that reads its inputs through cache and memo answers right, and keeps them right, about any closed set of settings about which they are |
| `SettingsHistory.InvalidateRight` | forail/conf/signals.py:20-32 | a change with its deletions keeps the cache right about all settings that are trusted |
| `SettingsHistory.StaleLook` | forail/conf/settings.py:379-393 | a stale entry is passed on to everything read from it, from entries and by computing again |
| `SettingsRuns.HistoryRuns` | forail/conf/settings.py:347-433 | every history of one process is a run of the protocol in which no deletion is lost and no time passes |
| `SettingsRuns.LookRuns` | forail/conf/settings.py:347-433 | the steps of a nested lookup end with the answer of the history |
| `SettingsRuns.UntrustedRuns` | forail/conf/signals.py:20-32 | so for every setting that is read from something undeclared there is such a run with a wrong answer |
| `SettingsRuns.ListingIsNotEnough` | forail/conf/signals.py:20-32 | a run in which a setting lists all it reads and is dropped, and is answered wrongly from what is left of one that does not |
| `SettingsModel.PreloadAgrees` | forail/conf/settings.py:314-338 | preload and one-key path store the same for a key if and only if its lowest row is no null row, or nothing behind it would be taken instead |
| `SettingsModel.NullRowDiffers` | forail/conf/settings.py:314-338 | a null row in front of a default: the preload caches the default, the one-key path nothing |
| `SettingsModel.FirstSetIsFirst` | forail/conf/settings.py:317-325 | without a null row in front, the row the preload takes is the one with the lowest key |
| `SettingsModel.RoundTrip` | forail/conf/settings.py:211-221 | a value survives the cache if and only if it is neither None nor a sentinel |
| `SettingsModel.CachedForms` | forail/conf/settings.py:39-54 | None, the empty list and the empty dict each have a string that stands for them in the cache, and everything else stands for itself |
| `SettingsModel.SentinelsDiffer` | forail/conf/settings.py:39-54 | the sentinels for not set, empty list and empty dict cannot be confused |
| `SettingsRegistry.Registry.Register` | forail/conf/registry.py:37-55 | registration fails exactly for a taken name, a reserved category or a missing field class; the index stays the inverse of `depends_on` |
| `SettingsRegistry.Registry.Unregister` | forail/conf/registry.py:57-60 | the index stays the inverse of `depends_on` over what is still registered |
| `SettingsRegistry.Registry.GetDependentSettings` | forail/conf/registry.py:68-69 | the result is exactly the registered settings that declare to depend on the argument |
| `SettingsRegistry.Registry.IndexServesInvalidation` | forail/conf/registry.py:48-69 | the index drops a setting with every change its default could show if and only if the setting declares all it reads |
| `SettingsAnswers.BoundedStaleness` | forail/conf/settings.py:347-441 | in every run of any processes with any deletions lost, an answer at time t is the stored value at some instant in [t - 65, t], validated against that of its peer at another such instant, if the defaults read no other setting and the values of that time survive the cache (`SettingsModel.Regular`); without a peer it is the uncached lookup at one instant |
| `SettingsAnswers.SettlesInTime` | forail/conf/settings.py:347-441 | once the table has not changed for 65 * (reach + 1) seconds, every process gets the uncached value, whatever was lost before, of a setting whose present value and inputs survive the cache |
| `SettingsStaleness.AnswerJustified` | forail/conf/settings.py:347-441 | an answer rests only on facts that held in the table within the last 65 * (reach + 1) seconds, whatever the settings accept and the rows hold |
| `SettingsStaleness.StepKeeps` | forail/conf/settings.py:284-433 | every step of every process keeps the ages of all entries, memos and half-finished lookups within their bounds |
| `SettingsStaleness.ProcKeeps` | forail/conf/settings.py:284-433 | the same for what one process does between two steps of others |
| `SettingsStaleness.InstantKeeps` | forail/conf/settings.py:36-57 | a change of the table, or time passing while nobody is between a read and its cache write, makes no entry older than allowed |
| `SettingsStaleness.ComputedOk` | forail/conf/settings.py:379-393 | a default computed from inputs read meanwhile is no older than its inputs allow |
| `SettingsStaleness.ValidatedOk` | forail/sso/fields.py:58-74 | validation adds the age of the peer's stored value, and no more |
| `SettingsStaleness.HitOk` | forail/conf/settings.py:351-363 | reading a shared entry does not renew it: the value may be up to sixty seconds old |
| `SettingsStaleness.MemoJustified` | forail/conf/settings.py:421-433 | a live memo entry adds at most five seconds |
| `SettingsAnswers.CanGoOn` | forail/conf/settings.py:284-433 | a process in the middle of a lookup or a load always has a next step |
| `SettingsAnswers.AnswersDoLag` | forail/conf/settings.py:36-57 | an answer can in fact be 63 seconds old, so neither timeout alone is a bound |
| `SettingsAnswers.AnswersDoMix` | forail/sso/fields.py:58-74 | a setting that is validated together with another can be answered with a value no uncached lookup gives at any instant of the run |
| `RelaySubscriptions.SubscriptionsTracked` | forail/main/wsrelay.py:140-160 | in every run, at a drained relay connection a consumer is a subscriber of a producer if and only if the relays were told so, and not been told otherwise, and this one has not missed it |
| `RelaySubscriptions.StepTracked` | forail/main/consumers.py:139-215 | every request, malformed or not, farewell, delivery, join, leave, and each half of the shutdown of a producer keeps every relay heading for exactly that |
| `RelaySubscriptions.RunTracked` | forail/main/consumers.py:139-215 | the same over whole runs |
| `RelaySubscriptions.MissedIff` | forail/main/wsrelay.py:130-211 | a relay has missed a subscription if and only if it joined when the consumer was in the group, or removed a producer the consumer had subscribed to since it was found empty, and the consumer has not asked for the group again |
| `RelaySubscriptions.DrainedIsLastWord` | forail/main/wsrelay.py:140-160 | what is still queued decides by its last message about the group |
| `RelaySubscriptions.EventConsumer.ReceiveGroups` | forail/main/consumers.py:173-215 | a well-formed request gives session, memberships and the two broadcasts in full; a malformed one loses the session, keeps the memberships and broadcasts nothing; the farewell is broadcast only if some group is left |
| `RelaySubscriptions.EventConsumer.Parse` | forail/main/consumers.py:177-191 | the wanted groups are exactly those that stand for an id the request lists and, where ids are looked at, its user may see; one entry that is not a list spoils the request |
| `RelaySubscriptions.WantedHas` | forail/main/access/__init__.py:135-141 | ids are looked at in three kinds of groups only; those of others are all wanted |
| `RelaySubscriptions.RequestsAreEvents` | forail/main/consumers.py:139-215 | the events of the protocol broadcast, and leave of the session, what the methods of the consumer do |
| `RelaySubscriptions.SentIsQueued` | forail/main/consumers.py:147-215 | a broadcast is queued at every relay behind what is queued there |
| `RelaySubscriptions.EventConsumer.Disconnect` | forail/main/consumers.py:139-150 | leaving gives up every membership and tells the relays |
| `RelaySubscriptions.RelayConnection.OnPayload` | forail/main/wsrelay.py:140-160 | a message has on the producers the effect the protocol assumes, subscriber by subscriber |
| `RelaySubscriptions.RelayConnection.OnSubscribe` | forail/main/wsrelay.py:140-150 | every named group has a producer with the origin among its subscribers, no other group changes |
| `RelaySubscriptions.RelayConnection.OnUnsubscribe` | forail/main/wsrelay.py:152-160 | the origin is struck from the named groups; unknown groups are ignored |
| `RelaySubscriptions.RelayConnection.OnTimeout` | forail/main/wsrelay.py:185-191 | a producer decides to stop exactly when nobody is subscribed to its group |
| `RelaySubscriptions.RelayConnection.Remove` | forail/main/wsrelay.py:208-211 | its removal, one wait later, takes the group from every subscriber there is by then |
| `RelaySubscriptions.MalformedLosesTrack` | forail/main/consumers.py:176-191 | in every run, a relay that has missed nothing is heading for the session of a consumer between requests if and only if no malformed request has left anything over |
| `RelaySubscriptions.LeftoverIff` | forail/main/consumers.py:176-191 | left over are exactly the groups of sessions ended by malformed requests that have not been asked for again since |
| `RelaySubscriptions.FarewellLeaves` | forail/main/consumers.py:139-150 | a farewell behind a malformed request unsubscribes nothing |
| `RelaySubscriptions.LeftoverHoldsProducer` | forail/main/wsrelay.py:188-191 | the producer of a group that is left over is never found empty |
| `RelaySubscriptions.RemovalLosesIff` | forail/main/wsrelay.py:188-211 | in every run, a removal takes a subscription away if and only if, among the messages that arrived since the producer was found empty, the consumer's last word about the group was to subscribe, and nothing more of it about the group is queued |
| `RelaySubscriptions.NoLateSubscription` | forail/main/wsrelay.py:188-211 | nobody loses anything if no request for the group arrived in between |
| `RelaySubscriptions.SubscriptionCanBeLost` | forail/main/wsrelay.py:188-211 | a run of eleven events at whose end a consumer is in a group, nothing is queued and the relay has no producer for it |
| `RelayLoop.RelayedExactlyOnce` | forail/main/wsrelay.py:170-197 | in every topology and run, a producer forwards a notification at most once and only if it was emitted on its layer; when nothing is in flight, exactly once |
| `RelayLoop.RunConserves` | forail/main/wsrelay.py:170-197 | what is queued with the mark, on the wire and landed for a producer and a notification always adds up to what it is owed |
| `RelayLoop.DeliveryDecreases` | forail/main/consumers.py:104-111 | every delivery makes a measure smaller: copies without the mark are never relayed again |
| `RelayLoop.DeliveriesEnd` | forail/main/consumers.py:239-251 | the number of deliveries after the last emission is bounded |
| `RelayLoop.EmittedIs` | forail/main/consumers.py:239-251 | an emission puts one marked copy more in flight for every producer that listens, and nothing else |
| `RelayLoop.DeliveredIs` | forail/main/wsrelay.py:170-197 | a marked copy goes over the wire of its producer, an unmarked one no further, and one on the wire becomes an unmarked copy for every producer that listens at the web node, unless it is of the metrics |
| `RelayManager.Manager.Round` | forail/main/wsrelay.py:326-364 | a round, with any heartbeats between the cleanups it waits for, fails if and only if an offline heartbeat is still cleaning up one of the hosts it takes down, or the last that has become of some host it is about to connect to is that it was forgotten; otherwise exactly those are connected at their present address |
| `RelayManager.BreaksIff` | forail/main/wsrelay.py:266-288 | of two cleanups of one connection the second fails; in a round that is the one of a host a heartbeat began to clean up before the round decided, and no other |
| `RelayManager.QuietRound` | forail/main/wsrelay.py:326-364 | without heartbeats in between, a round fails if and only if a connected host has announced another address; otherwise hosts and connections agree afterwards |
| `RelayManager.MovedComesBack` | forail/main/wsrelay.py:337-364 | a host that has moved is connected only if it announces itself once more between its cleanup and the end of the wait |
| `RelayManager.NewGoesAway` | forail/main/wsrelay.py:332-364 | a new host makes the round fail only by going offline during the wait |
| `RelayManager.Manager.Decide` | forail/main/wsrelay.py:332-351 | what goes down are unknown, moved and closed hosts; what comes up are unconnected and moved ones |
| `RelayManager.Manager.EndCleanup` | forail/main/wsrelay.py:274-290 | when the wait is over the host is forgotten as connected and as known, unless somebody else has deleted the connection, which is an error |
| `RelayManager.Manager.BeginCleanup` | forail/main/wsrelay.py:266-290 | a connected host is waited for; any other is forgotten at once |
| `RelayManager.Manager.OnLeft` | forail/main/wsrelay.py:257-264 | the handler of heartbeats finishes its cleanup, or skips the rest of it when the connection has gone |
| `RelayManager.Manager.CleanupAll` | forail/main/wsrelay.py:353-355 | the cleanups of a round and what happens between them take effect in the order in which they end, up to the first error |
| `RelayManager.LastNewsCounts` | forail/main/wsrelay.py:257-296 | the address of a host is the last one heard, unless the host has been forgotten since |
| `RelayManager.Manager.ConnectAll` | forail/main/wsrelay.py:357-364 | fails at the first host that is not known any more, with only some of the others connected |
| `RelayManager.Manager.OnHeartbeat` | forail/main/wsrelay.py:240-260 | the own host, other actions and messages without an address are ignored; online records the address, offline begins the cleanup of the host |
| `RelayManager.SettledIsStable` | forail/main/wsrelay.py:332-364 | a round changes nothing when hosts and connections agree and all are connected |
| `RelayManager.UnconnectedIsForgotten` | forail/main/wsrelay.py:348-355 | a host that is added in one quiet round and not connected by the next is forgotten altogether |
| `RelayManager.SettledInStep` | forail/main/wsrelay.py:332-364 | a quiet round that meets no moved host leaves every known host connected at the known address; left are the known hosts without connection, and those with an open one at their address |
| `RelayManager.OnlyAnnounced` | forail/main/wsrelay.py:221-296 | in every run, with heartbeats also in the middle of rounds, the manager knows and connects only announced addresses and never its own host |
| `GroupGraph.DeletePreservesReachability` | forail/main/signals.py:342-379 | a deletion that succeeds changes reachability between no two remaining groups, with cycles too |
| `GroupGraph.DeletePreservesHosts` | forail/main/signals.py:342-379 | nor which hosts are under a remaining group |
| `GroupGraph.OnlyParentsAdopt` | forail/main/signals.py:366-372 | after one deletion an edge or a direct membership is an old one, or goes from a parent of the deleted group to one of its children or hosts |
| `GroupGraph.DeleteAllPreserves` | forail/main/signals.py:342-379 | nor does any sequence of deletions |
| `GroupGraph.OrderIrrelevant` | forail/main/signals.py:342-379 | two orders that delete the same groups leave the same reachability |
| `GroupGraph.DeleteValidIff` | forail/main/signals.py:353-372 | the migration breaks a foreign key if and only if the group is its own child and has another parent |
| `GroupGraph.AcyclicAlwaysDeletable` | forail/main/signals.py:353-372 | without cycles a deletion succeeds and makes none |
| `GroupGraph.AcyclicDeleteAllSucceeds` | forail/main/signals.py:353-372 | without cycles every order of deletions succeeds |
| `GroupGraph.DeleteAllSucceedsIff` | forail/main/signals.py:342-379 | a sequence of deletions succeeds if and only if no group is blocked when its turn comes: the original graph leads from it back to itself through deleted groups only, and some other remaining group leads to it so; then edges and direct memberships of what is left are exactly those along routes through deleted groups |
| `GroupGraph.DeletableUnlessBlocked` | forail/main/signals.py:353-372 | one more deletion fails exactly for a blocked group |
| `GroupGraph.DeleteCondenses` | forail/main/signals.py:366-372 | what is left has an edge exactly for every route of the original graph through deleted groups; and the hosts directly in a remaining group are its own and those of every deleted group such a route leads to |
| `GroupGraph.CyclicOrderMatters` | forail/main/signals.py:353-372 | the same three groups can be deleted in one order and not in another |
| `GroupGraph.Inventory.DeleteGroup` | forail/main/signals.py:342-379 | the two handlers around the delete produce exactly the migrated graph, or a rollback; edges and direct memberships are given pair by pair |
| `GroupGraph.Inventory.Migrate` | forail/main/signals.py:366-372 | every remaining parent adopts every host and every child |
| `SuperuserSync.RunSynced` | forail/main/signals.py:165-216 | over every run of requests, each performed as the handlers do, the flagged users are exactly the members of the administrator role |
| `SuperuserSync.LastWordRules` | forail/main/signals.py:165-216 | over every run, a user has the flag and the role exactly as the last request about them says, from whichever side it came |
| `SuperuserSync.WordCounts` | forail/main/signals.py:165-216 | flag and membership of a user each become what a request says about the user, or stay |
| `SuperuserSync.EffectIs` | forail/main/signals.py:165-216 | whose membership of which role a request changes, roles other than the administrator included, and whose flag |
| `SuperuserSync.StepSynced` | forail/main/signals.py:165-216 | each request keeps flags and memberships in step |
| `SuperuserSync.InStepIff` | forail/main/signals.py:165-216 | from any state, flag and membership of a user agree after a request if and only if they did before, or the request is about this user and no addition of one who is a member already |
| `SuperuserSync.Accounts.Perform` | forail/main/signals.py:165-216 | each request, from any state and through the handlers that trigger each other, ends with exactly the flags and memberships it is about changed |
| `SuperuserSync.Accounts.SyncFlagToRole` | forail/main/signals.py:188-193 | after a save the membership equals the flag, and the handlers it triggers change nothing more |
| `SuperuserSync.Accounts.SyncRoleToFlag` | forail/main/signals.py:196-216 | after an edit of the relation the flags of exactly the users concerned follow, from either side and for clear |
| `SuperuserSync.Accounts.SaveUser` | forail/main/signals.py:165-193 | saving a flag changes that flag and that membership only |
| `SuperuserSync.Accounts.AddMembers` | forail/main/signals.py:196-208 | adding members flags those that were not members yet |
| `SuperuserSync.Accounts.RemoveMembers` | forail/main/signals.py:196-208 | removing members clears the flag of all that were named |
| `ImplicitRoles.Roles.UpdateRoleParentage` | forail/main/fields.py:213-238 | every role field ends with stored list and parents as resolved, the reported roles are exactly those that gained or lost implicit parents, every other role is untouched; it fails exactly at a path that ends at something other than a role |
| `ImplicitRoles.Roles.UpdateRole` | forail/main/fields.py:221-237 | the two edits and the conditional save come to one update of parents and list |
| `ImplicitRoles.Roles.ResolveParentRoles` | forail/main/fields.py:365-387 | the parents are the union over all paths, and the singleton roles they name exist afterwards |
| `ImplicitRoles.Roles.SingletonRole` | forail/main/fields.py:373-381 | a missing singleton role is created without parents, and nothing else changes |
| `ImplicitRoles.ResolvesWhereItLeads` | forail/main/fields.py:149-174 | a dotted path resolves to a role if and only if following its components leads there, and fails if and only if they lead to something else |
| `ImplicitRoles.RecomputedIs` | forail/main/fields.py:213-238 | a recomputed role stores, in increasing order, exactly the singleton roles its paths name and the roles at which their components end; of its other parents it keeps those it had not stored, and it is reported exactly if it gained or lost a stored one |
| `ImplicitRoles.PathMeans` | forail/main/fields.py:365-387 | a path that begins with `singleton:` means the role of that name, any other one what its components lead to |
| `ImplicitRoles.ResolvableIs` | forail/main/fields.py:149-174 | a recomputation fails only for a path whose components end at something that is no role |
| `ImplicitRoles.GrantedAfterUpdate` | forail/main/fields.py:224-231 | the granted parents after a call are those before minus the newly implicit ones |
| `ImplicitRoles.ImplicitAreParents` | forail/main/fields.py:224-231 | the implicit parents are parents after a call if and only if none that stays implicit had been taken away |
| `ImplicitRoles.GrantsOverChanges` | forail/main/fields.py:213-238 | over any sequence of changes a granted parent survives if and only if it was never implicit on the way |
| `ImplicitRoles.ParentsAfterEdits` | forail/main/fields.py:213-238 | after any sequence of recomputations, grants and revocations a role is a parent exactly as was last said: granted or revoked, or started or ceased to be implicit |
| `ImplicitRoles.GrantsAfterEdits` | forail/main/fields.py:213-238 | a grant that is not made again lasts exactly until it is revoked or the parent is implicit for a while |
| `ImplicitRoles.SecondUpdateIsQuiet` | forail/main/fields.py:224-237 | a second call changes nothing and reports nothing |
| `ImplicitRoles.SortedHas` | forail/main/fields.py:232-234 | the stored list has exactly the resolved roles in increasing order |
| `HostPointer.AfterAnyDeletions` | forail/main/signals.py:387-422 | after any sequence of job deletions every host points to its remaining summary with the greatest job, or to none |
| `HostPointer.DeletionKeepsPointers` | forail/main/signals.py:387-422 | one deletion keeps all pointers right |
| `HostPointer.RightAfterDeletion` | forail/main/signals.py:387-422 | whatever the pointers of a host were, they are right after a deletion if and only if its last job is deleted, or they agree with each other and every summary newer than its last job goes too |
| `HostPointer.OneLastJob` | forail/main/signals.py:387-395 | right pointers determine the last job |
| `HostPointer.DeletedIs` | forail/main/signals.py:387-422 | what remains row by row, and for every host which summary and job it names afterwards |
| `HostPointer.Inventory.DeleteJobs` | forail/main/signals.py:410-422 | note, cascade, clearing and repair together give exactly the hosts concerned their latest remaining summary |
| `HostPointer.Inventory.UpdateHostLastSummary` | forail/main/signals.py:387-407 | the repair of one host makes its pointers right, or leaves them when the job of its latest summary is gone already, and touches no other host |
| `HostPointer.Inventory.UpdateSaved` | forail/main/signals.py:417-422 | the hosts noted before the deletion are repaired, no other |
| `Registration.AddressIsLastGiven` | forail/main/managers.py:118-190 | after any successful calls with automatic release no two instances share an address, and an instance has an address if and only if it is the one last given it |
| `Registration.RefusedIsClash` | forail/main/managers.py:132-188 | with automatic release a call is refused if and only if it would rename the instance it is about to a name another one has |
| `Registration.AboutUnique` | forail/main/managers.py:145-156 | a call is about one instance at most, with several instances of one uuid too |
| `Registration.AddressIsFree` | forail/main/managers.py:133-142 | after the release whoever still has the address has the requested name |
| `Registration.HolderAfterCall` | forail/main/managers.py:133-172 | one call gives the address to the registered instance, takes it from every other and leaves other addresses alone |
| `Registration.RegisteredIs` | forail/main/managers.py:118-190 | which instance a call is about, every field of it afterwards, whose address is given up, and that all other rows stay |
| `Registration.ClashIs` | forail/main/managers.py:145-166 | with automatic release a call is refused exactly for an instance found by its uuid while another one has the name |
| `Registration.Instances.Register` | forail/main/managers.py:118-190 | a call fails exactly when it is refused, leaving the table with the addresses given up; otherwise the whole new table is given, and a change is always reported; a missing name is that of the node, a missing address empty, a missing uuid generated |
| `Registration.Instances.Enter` | forail/main/managers.py:145-188 | an existing instance is updated or a new one created, exactly unless a constraint forbids it |
| `Registration.Instances.UnsetIp` | forail/main/managers.py:136-142 | exactly the other holders of the address lose it |
| `Registration.Instances.Find` | forail/main/managers.py:145-156 | the uuid goes before the name, the default uuid does not count, and of several with the uuid the first by name is taken |
| `Registration.Instances.Save` | forail/main/models/ha.py:95-119 | a row is refused exactly if its name or its non-empty address is taken |
| `SamlReconcile.OrgRoleAfterLogin` | forail/sso/saml_pipeline.py:17-35 | after a login the user has a role on an existing organization if and only if some attribute or map entry grants it, or it was held and neither the last map entry nor, without one, the attribute settings take it away |
| `SamlReconcile.RolesAfterLogin` | forail/sso/saml_pipeline.py:66-154 | the same for each of the three roles, with the field of the entries and the attribute that decide about it, the two levels of `remove`, and the names organizations go by |
| `SamlReconcile.StandsFor` | forail/sso/saml_pipeline.py:139-148 | a name in the assertion stands for the alias of its entry, the empty one too |
| `SamlReconcile.TeamRoleAfterLogin` | forail/sso/saml_pipeline.py:93-112 | after a login the user is in an existing team if and only if the last entry of the map with a verdict grants it; or, without one, the last line of the attribute mapping about it does; or, without that, the user was in it and the settings do not take everybody out of every team |
| `SamlReconcile.TeamAfterLogin` | forail/sso/saml_pipeline.py:93-200 | the same in terms of the entries and lines themselves: a line grants under its alias and takes away under the name that is not in the assertion |
| `SamlReconcile.CreatedByLogin` | forail/sso/common.py:103-154 | which organizations and teams exist after a login |
| `SamlReconcile.LastWriteIs` | forail/sso/saml_pipeline.py:157-200 | what is written last about a team counts, and nothing is said exactly when nothing is written |
| `SamlReconcile.LoginIdempotent` | forail/sso/saml_pipeline.py:17-35 | a second login with the same input changes nothing, although the first may have created objects |
| `SamlReconcile.SameVerdict` | forail/sso/saml_pipeline.py:17-35 | the verdicts of two logins differ only where the second asks to remove what is not held |
| `SamlReconcile.OthersUntouched` | forail/sso/saml_pipeline.py:157-200 | a team role that no line of the configuration is about, such as one in a team of the same name in another organization, is kept exactly unless the attribute settings start by removing everybody; roles of other objects always are |
| `SamlReconcile.TeamsAddedOnce` | forail/sso/common.py:145-154 | creating teams again creates none |
| `SamlReconcile.FoldedSnoc` | forail/sso/saml_pipeline.py:72-90 | the declarative verdict follows the fold entry by entry: True stays, otherwise the entry decides |
| `SamlReconcile.LastIsGrant` | forail/sso/saml_pipeline.py:72-90 | a last entry that grants is a grant |
| `SamlReconcile.UpdateM2mFromExpression` | forail/sso/saml_pipeline.py:38-63 | True if and only if everybody is meant, or some literal or pattern matches name or mail; otherwise False or None as removal is asked for |
| `SamlReconcile.Desired.UpdateUserOrgsBySamlAttr` | forail/sso/saml_pipeline.py:115-154 | all removals come first, so an organization an attribute names is granted whatever its role |
| `SamlReconcile.Desired.UpdateUserOrgs` | forail/sso/saml_pipeline.py:66-90 | the dictionary is the declarative fold over attributes and map, with colliding aliases |
| `SamlReconcile.DesiredTeams.UpdateUserTeamsBySamlAttr` | forail/sso/saml_pipeline.py:157-200 | per team the last line decides, else the removal; lines without an organization write nothing |
| `SamlReconcile.DesiredTeams.UpdateUserTeams` | forail/sso/saml_pipeline.py:93-112 | per team the last entry with a verdict decides; entries without an organization are skipped |
| `SamlReconcile.Directory.CreateOrgAndTeams` | forail/sso/common.py:103-154 | exactly the missing organizations are created, and teams whose name no team had |
| `SamlReconcile.Directory.ReconcileUsersOrgTeamMappings` | forail/sso/common.py:20-100 | the final roles are the initial ones minus those desired False plus those desired True on existing objects |
| `SamlReconcile.Directory.ReconcileOrgs` | forail/sso/common.py:50-100 | the same for organizations |
| `SamlReconcile.Directory.ReconcileTeams` | forail/sso/common.py:61-100 | the same for teams, which are fetched by name across organizations |
| `SamlReconcile.Directory.PopulateUser` | forail/sso/saml_pipeline.py:17-35 | the whole step: created objects and roles as the verdicts say; without a user nothing |
| `Redact.RemoveSensitive` | forail/main/redact.py:11-60 | terminates although the text may grow, and returns exactly the text redacted token by token, each from the first match its scan reaches that calls for redaction |
| `Redact.KeptIff` | forail/main/redact.py:20-31 | a URI is kept if and only if it can be split, has neither user name nor password, and no colon is left in its network location |
| `Redact.WholeReplaced` | forail/main/redact.py:20-28 | without user name and password, a URI that cannot be split, or has several colons there, is replaced as a whole |
| `Redact.CredentialsReplaced` | forail/main/redact.py:24-46 | user name and password, those of the split or without either the two sides of the one colon, are both replaced where they occur nowhere else |
| `Redact.OneReplaced` | forail/main/redact.py:41-46 | so is one of them alone |
| `Redact.PasswordStaysIff` | forail/main/redact.py:41-46 | the password is replaced at its place if and only if fewer than two occurrences of it are in front, in the text or in what stands for the user name |
| `Redact.ShortPasswordStays` | forail/main/redact.py:44-46 | a password of one letter that the scheme has twice stays |
| `Redact.MatchIs` | forail/main/redact.py:9 | a match is a scheme of one to twenty word characters, a colon and something that is not white space |
| `Redact.CleanIsByToken` | forail/main/redact.py:15-58 | what is rewritten is never looked at again, a redaction reaches to the end of its token, and one token hands the next only the distance to where its scan goes on |
| `Redact.CleanToken` | forail/main/redact.py:15-58 | one token and the rest of the text |
| `Redact.SpacesKept` | forail/main/redact.py:9 | the white space of the result is that of the input, character by character |
| `Redact.SearchedAgain` | forail/main/redact.py:26-31 | behind a kept match of length m, with q quiet characters between the start of the search and the match, the token is searched again m - q % m characters after the start of the match |
| `Redact.InnerMatchReached` | forail/main/redact.py:26-31 | behind a first match that is kept from whichever letter of its scheme it starts, the next one, if it calls for redaction, is redacted if and only if the token is searched again behind the scheme's letters and no later than where it starts; from inside the scheme the rest of the token stays |
| `Redact.InnerRunReached` | forail/main/redact.py:26-31 | a search that starts inside the scheme of the second match redacts from there |
| `Redact.InsideRun` | forail/main/redact.py:26-31 | a search that starts inside a kept scheme ends the scan of the token |
| `Redact.BehindQuiet` | forail/main/redact.py:15-31 | a token behind n other characters and a white space is searched from n + 1 characters before its beginning |
| `Redact.AloneItLeaks` | forail/main/redact.py:26-31 | on its own, a URI behind another scheme of four letters keeps its password |
| `Redact.BehindNineItDoesNot` | forail/main/redact.py:26-31 | behind nine other characters the same URI is redacted, with user name and password replaced |
| `Redact.BehindTwelveItLeaks` | forail/main/redact.py:26-31 | behind twelve it keeps its password |
| `Redact.FirstIsHit` | forail/main/redact.py:15-58 | a token whose first match calls for redaction is redacted there |
| `Redact.AllKeptStays` | forail/main/redact.py:24-31 | a token in which no match calls for redaction is unchanged |
| `Redact.JudgeNoSpace` | forail/main/redact.py:40-58 | a redacted URI has no white space and is not empty, whatever the user name and the password |
| `Redact.MatchIsLocal` | forail/main/redact.py:9 | a match never sees past the white space around it |
| `NamedUrl.IdentifiersUnique` | tools/scripts/pk_to_named_url.py:75-101 | two resources of a kind, whose identifying fields are not empty and contain no code, have the same identifier if and only if they agree on every such field, their own and those of whatever they lead to |
| `NamedUrl.DecodeInverts` | tools/scripts/pk_to_named_url.py:36-52 | a left-to-right decoder inverts escaping and joining on all lists of non-empty fields without a code |
| `NamedUrl.UnescapeInverts` | tools/scripts/pk_to_named_url.py:36-52 | unescaping inverts escaping exactly on fields without one of the nine codes; on others text is lost |
| `NamedUrl.CodeCollides` | tools/scripts/pk_to_named_url.py:48-51 | a field has the same identifier as some other field without a code if and only if it contains one of the nine codes |
| `NamedUrl.DecodedLooksTheSame` | tools/scripts/pk_to_named_url.py:36-52 | what a field is decoded to contains no code, and has the same escaped form |
| `NamedUrl.EmptyFieldCollides` | tools/scripts/pk_to_named_url.py:8-9 | an empty field collides with a component boundary |
| `NamedUrl.EncodeUri` | tools/scripts/pk_to_named_url.py:36-52 | ten passes over the whole text come to escaping each character on its own |
| `NamedUrl.EscapeOne` | tools/scripts/pk_to_named_url.py:8-13 | each of the nine characters becomes the percent sign with the hexadecimal digits of its number, as in section 2.1 of RFC 3986, a dash is put in brackets, and all others stay |
| `NamedUrl.EscapeConcat` | tools/scripts/pk_to_named_url.py:36-52 | text is escaped character by character |
| `NamedUrl.PassExtends` | tools/scripts/pk_to_named_url.py:48-50 | no pass touches what an earlier one wrote |
| `NamedUrl.FlattenPrefixCode` | tools/scripts/pk_to_named_url.py:94-101 | for a given graph the list of components says where each nested resource ends |
| `NamedUrl.GenerateComponent` | tools/scripts/pk_to_named_url.py:55-72 | a component is its escaped fields in order |
| `NamedUrl.Components.Walk` | tools/scripts/pk_to_named_url.py:75-101 | the shared list receives the flattened tree of identities, with an empty component for a missing relation |
| `NamedUrl.PrintIdentifier` | tools/scripts/pk_to_named_url.py:121-127 | the printed text is the identifier of which uniqueness is proved |
| `NamedUrl.FlattenIsListed` | tools/scripts/pk_to_named_url.py:94-101 | the list that is joined has the fields of the resource in the order of the graph, then link by link the list of what it leads to, or one empty component, and is the only such list |

## Left out

- Settings of a single user, the access check of user settings and settings assigned outside the registry (forail/conf/settings.py:471, 489-): request plumbing.
- Database errors, `SynchronousOnlyOperation` and the thread pool (forail/conf/settings.py:62-117, 203-208): lookups are assumed to reach the database.
- Marking settings read-only from settings files on the first preload (forail/conf/settings.py:292-306): `readOnly` is given.
- Encryption is a given pair of functions that invert each other per id; names whose cache key equals the id key of another (`X_ID`) are kept apart by construction.
- SettingsCache: encrypted settings have a constant default, and their rows decrypt to plain strings that are no sentinels; the peer a setting is validated with is kept in the database, and validation sees its raw value only, never one from the request under way (forail/sso/fields.py:69-72).
- SettingsCache.SettingsWrapper.SetLocal: conversion and validation of an assigned value are one given function per field; a value assigned to an encrypted setting is stored as a plain string.
- SettingsCache.SettingsWrapper.ClearMemo: the memo is emptied as a whole; the bound on its size is not modelled.
- SettingsStaleness: entries stand for what the encrypting proxy makes of them; the pairing of values and ids is proved for one process only. Time does not pass between a read and the cache write it feeds, nor while a process has such a read pending. Threads of one process are one process.
- SettingsHistory: one process, entries as the encrypting proxy reads them, and no time within a lookup; what expires is lost between lookups.
- SettingsRuns.HistoryRuns: histories without loads; in the protocol a load is part of a lookup.
- What receives `setting_changed`, such as disabling local authentication (forail/conf/signals.py:66-): side effects elsewhere.
- RelaySubscriptions: the built-in metrics producer, crashes of producers, Redis connection errors and cancellation are not modelled.
- RelaySubscriptions.EventConsumer.Parse: which resource a user may see is a given set; the CSRF check and the messages back to the browser are left out.
- RelayLoop: queues have no order and lose nothing; the metrics group ends at the web node.
- RelayManager.Manager.Round: of two that wait for the same connection the one that began first goes on first, as tasks are resumed. Connections establish and close by events of their own, between rounds.
- SuperuserSync: the audit record and the switch to the other role system (forail/main/signals.py:170-189), saves through querysets, which send no signals, and the prior value noted for auditing.
- GroupGraph: recomputing inventory fields and the flags that disable the handlers during bulk updates.
- ImplicitRoles: the ancestor list of roles, `is_implicit_parent`, the handlers for many-to-many changes (forail/main/fields.py:277-330) and the creation of missing roles. The branch of `resolve_role_field` for a many-to-many descriptor is not modelled: an attribute of an instance is a manager there, never the descriptor.
- ImplicitRoles.Roles.UpdateRoleParentage: the stored JSON text is the list it denotes.
- HostPointer: how summaries and pointers come about while a job runs; which of several summaries of one host and job is named is left open. When a deletion begins, every summary belongs to a job.
- Registration: version, capacity and other defaults of a new instance; the advisory lock; calls are atomic. The order of names is a given total order.
- SamlReconcile: default credentials of a new organization, races with other logins, LDAP and other backends; which pattern matches which text is given.
- SamlReconcile.UpdateM2mFromExpression: list elements that are neither text nor pattern, which the code ignores.
- Redact.RemoveSensitive: the URL splitter and the two character classes are given.
- The plain-text cleaner and every caller of the redaction (forail/main/redact.py:63-).
- NamedUrl: fetching resources and the graph over HTTP; the resources a foreign key leads to form a finite tree.
- Scheduler, policy engine, tenancy, smart filters, object copying and the REST layer.
