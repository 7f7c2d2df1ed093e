# CitrineOS OCPI: a verified model of its stateful core

CitrineOS OCPI is the charge point operator's side of OCPI 2.2.1. This project models the parts of it that
keep state or do arithmetic, and proves what they keep over all inputs, all steps and all runs.

- **Metering and billing.** `Metering` sorts a transaction's meter values in place and turns adjacent register
  readings into energy deltas. `CdrPricing` prices energy, time and the session fee with rounding and VAT, and
  the live session with a cent floor. `TariffPublishing` publishes the same tariff in OCPI form. `CdrPipeline`
  is the mapping from transactions to charge detail records (CDRs): its loaders cache what they read onto the
  transaction objects, which is why its later lookups cannot fail. `CdrRecords` and `CdrBroadcasting` post the
  records and keep them in the CdrRecords table.
- **Command results.** `CommandProtocol` is a clocked step machine over the response-URL cache: command starts,
  sends that return or fail, station answers, cache expiry, watcher deadlines and queued watcher continuations.
- **Tokens.** `TokensMapper`, `TokensService` and `TokenStore` are find-or-create, upsert and patch over the
  Authorizations table. `AuthReference` is the hand-off of an authorization reference from a StartSession
  command, through the cache, to the transaction it starts.
- **Registration.** `Registration` and `CredentialsServiceModel` are the credentials calls over the table of
  partner profiles; every remote call and every write may fail.
- **Change feed.** `ChangeFeed` holds the row triggers and a consumer that overlays their patches;
  `LocationsHandler`, `EvseStatusAggregation` and `SessionsHandler` are the handlers behind them. `SessionBilling`
  composes trigger, handler, broadcaster and table.
- **Smaller cores.** `EvseUid` prints and parses EVSE uids; `ConfigMerge` merges environment variables into the
  configuration tree. `Text` and `Wrappers` hold the string operations and the Option and Result types.

Code that changes state is modelled by methods, over arrays or class fields, whose postconditions equate the new
state with a specification function of the old one; the lemmas are about these functions, so they hold of the
methods. A result of `Err` or `None` stands for a thrown error.

## Findings

Where the code does less than its documentation or the protocol promises, the code is modelled as it is.

- A send that fails after the command's timeout or answer posts a second result, because the failure path does not
  look at the cache. After the deadline the number of posts is exactly one plus that of such late failures, of which
  there is at most one.
- A first-time APP_USER token whose uid is its own group id leaves two rows under one key, and later patches of it
  can fail. That guard is proved to be exact, both for key uniqueness and for the patches.
- A PATCH without `valid` stores the token as invalid. A token of type OTHER is stored, yet the call always fails;
  exactly when an upsert succeeds is `TokensService.UpsertSucceedsIff`.
- A PATCH whose body carries another, long uid breaks the key under which authorization references are filed.
- An authorization reference is taken from the cache before the transaction is written, so it reaches no transaction at
  all when that write fails (`AuthReference.FailedWriteLosesReference`).
- A tariff whose prices are all zero loses its tax rate when it is published.
- Only the later reading's unit is used for an energy delta, and a later null reading counts as zero. Exactly when two
  neighbours conserve energy all the same is `Metering.PairConservedIff`, for whole sessions `EnergyConservedIff`.
- A change of required columns alone is not announced, so a replica's `updatedAt` can lag.
- POST, PUT and generating credentials build their reply after the write. It throws when the tenant's server profile
  is missing or has a logo of a type other than jpeg, jpg and png, as the seeded default tenant has. The new token is
  then in force, the old one retired, and the partner never told.
- `regenerateCredentialsToken` and `registerCredentialsTokenA` can throw with the new server token in force too; exactly
  when is proved, and that a failed registration cannot be retried while the partner's row stands.
- Extracting the station id from an EVSE uid gives another string exactly when the station id contains a `::` or ends
  in a colon (`EvseUid.StationRoundTrip`). The uid itself still names one EVSE, as EVSE ids are numbers.
- A setting whose key has capital letters, such as `endpointPrefix`, cannot be overridden by an environment
  variable: the value is written under the lower-case key.

## Model

| member | source | states |
|---|---|---|
| Metering.GetCdrDimensions | 00_Base/src/mapper/SessionMapper.ts:433-461 | the loop over sampled values yields the energy dimensions of the specification, in order |
| Metering.SampleContributes | 00_Base/src/mapper/SessionMapper.ts:433-484 | a sample contributes energy exactly when it reads the import register on no phase and counts as a number, and the first such sample before it is a number; it is their difference in the sample's own unit, taken as Wh unless that is kWh |
| Metering.SortByTimeCorrect | 00_Base/src/mapper/SessionMapper.ts:406-410 | the sort by timestamp is a sorted, stable permutation |
| Metering.SortedUnique | 00_Base/src/mapper/SessionMapper.ts:406-410 | a time-sorted sequence is determined by what happened at each instant |
| Metering.SortAgreesIff | 00_Base/src/mapper/SessionMapper.ts:406-410 | two arrival orders sort alike if and only if they agree on the order within each instant |
| Metering.ArrivalOrderIrrelevant | 00_Base/src/mapper/SessionMapper.ts:401-431 | with distinct timestamps the charging periods do not depend on the order of arrival |
| Metering.SortInPlace | 00_Base/src/mapper/SessionMapper.ts:406-410 | the caller's array is left sorted by time, as the specification sorts it |
| Metering.GetChargingPeriods | 00_Base/src/mapper/SessionMapper.ts:401-431 | the call sorts the caller's array in place and returns the periods of the values it held; a missing array gives none |
| Metering.PeriodsInTimeOrder | 00_Base/src/mapper/SessionMapper.ts:401-431 | one period per meter value, in non-decreasing time order; a second call on the sorted array gives the same periods |
| Metering.DeltaSumIsRunsTotal | 00_Base/src/mapper/SessionMapper.ts:433-461 | adding adjacent differences gives, over maximal gap-free runs, last minus first |
| Metering.EnergyConserved | 00_Base/src/mapper/SessionMapper.ts:401-484 | the energy of all periods equals the sum over maximal runs of readings of last minus first, in kWh |
| Metering.EnergyConservedWithoutGaps | 00_Base/src/mapper/SessionMapper.ts:401-484 | without gaps that is the last reading minus the first |
| Metering.EnergyWithSlip | 00_Base/src/mapper/SessionMapper.ts:433-473 | two neighbours' energy is the difference of their readings in kWh plus a stated slip, for any readings |
| Metering.PairConservedIff | 00_Base/src/mapper/SessionMapper.ts:443-473 | with one import reading at most, two neighbours conserve energy if and only if nothing is counted, or the earlier reading is zero, or both are numbers whose units agree on being kWh |
| Metering.EnergyConservedIff | 00_Base/src/mapper/SessionMapper.ts:401-484 | for all meter values, total energy is the runs total in kWh plus the slips between neighbours; so it is conserved if and only if the slips cancel, and whenever no neighbours have one |
| Metering.MixedUnitsAndNullBreakConservation | 00_Base/src/mapper/SessionMapper.ts:443-473 | two inputs that break it: a change of unit, and a null after a number |
| Metering.CalculateTotalParkingTimeFromPeriods | 00_Base/src/mapper/CdrMapper.ts:262-276 | the nested loops add up the parking volumes of all periods |
| Metering.ParkingAdds | 00_Base/src/mapper/CdrMapper.ts:262-276 | every parking dimension adds its volume, wherever it stands, and any other adds nothing |
| Metering.ParkingTimeIsZero | 00_Base/src/mapper/CdrMapper.ts:262-276 | periods built from meter values carry no parking, so a record's parking time is zero |
| CdrPricing.Round4Is | 00_Base/src/mapper/CdrMapper.ts:299-301 | rounding gives four decimals, half up, within half a ten-thousandth |
| CdrPricing.ComponentsCharged | 00_Base/src/mapper/CdrMapper.ts:215-260 | a component is there exactly when its unit price is, and is then kWh, minutes or one session times that price to four decimals, with VAT exactly when there is a tax rate |
| CdrPricing.TotalIsExactSum | 00_Base/src/mapper/CdrMapper.ts:223-287 | re-rounding the sum is the identity: the total before VAT is the exact sum of the components |
| CdrPricing.TotalNearExact | 00_Base/src/mapper/CdrMapper.ts:223-301 | the total is within 0.00015 of the unrounded price |
| CdrPricing.TotalBoundReached | 00_Base/src/mapper/CdrMapper.ts:223-301 | that bound is attained |
| CdrPricing.TotalInclVatNearSum | 00_Base/src/mapper/CdrMapper.ts:278-301 | with a tax rate the total with VAT is strictly within 0.0002 of the sum of the components with VAT |
| CdrPricing.TotalMonotone | 00_Base/src/mapper/CdrMapper.ts:223-301 | with non-negative rates, more energy and more time never cost less |
| CdrPricing.SessionBelowCdr | 00_Base/src/mapper/BaseTransactionMapper.ts:170-174 | the live session's floored total never exceeds the record's energy cost and lags by at most 0.01 |
| CdrPricing.SessionGapReached | 00_Base/src/mapper/BaseTransactionMapper.ts:170-174 | the gap of a full cent occurs |
| TariffPublishing.PublishedTariffRoundTrip | 00_Base/src/mapper/TariffMapper.ts:36-99 | mapping back recovers every price; it recovers the tax rate if and only if some price is non-zero or there is no tax |
| TariffPublishing.PublishedPriceIsCdrTotal | 00_Base/src/mapper/TariffMapper.ts:36-75 | pricing by the published components gives the record's total before VAT; the whole price if and only if some price is non-zero or there is no tax |
| TariffPublishing.ElementVat | 00_Base/src/mapper/TariffMapper.ts:36-75 | the element carries the tariff's tax rate exactly when there is a component to carry it |
| CdrPipeline.GetLocationDtosForTransactions | 00_Base/src/mapper/BaseTransactionMapper.ts:42-67 | caches on every transaction the location it resolves to and returns exactly their DTOs; throws when a location cannot be mapped |
| CdrPipeline.GetTokensForTransactions | 00_Base/src/mapper/BaseTransactionMapper.ts:69-99 | reads each authorization again, caches it and returns the tokens; throws when a conversion throws |
| CdrPipeline.GetTariffsForTransactions | 00_Base/src/mapper/BaseTransactionMapper.ts:101-137 | caches on every transaction the tariff it resolves to and returns exactly those |
| CdrPipeline.GetOcpiTariffsForTransactions | 00_Base/src/mapper/BaseTransactionMapper.ts:139-168 | the OCPI tariffs are looked up under the session's party, for the sessions that have a tariff |
| CdrPipeline.LoadAll | 00_Base/src/mapper/SessionMapper.ts:107-117 | the three loads, whose reads may each see another state of the database, leave on the transactions what they resolve to, and the maps agree with it |
| CdrPipeline.FreshResolvesIff | 00_Base/src/mapper/BaseTransactionMapper.ts:42-137 | a fresh transaction resolves if and only if the location and authorization it refers to are found and can be mapped and a tariff, its own or the one read for it, is found under its tenant; it resolves to exactly these |
| CdrPipeline.LoadedStays | 00_Base/src/mapper/BaseTransactionMapper.ts:42-137 | a loaded location or tariff stays whatever the database holds; an authorization changes only to the row read again; looking up a tariff throws exactly when there is one to look up and no tenant |
| CdrPipeline.MapTransactionsToSessionsHelper | 00_Base/src/mapper/SessionMapper.ts:136-164 | one session, in order, for each transaction with location, token and tariff |
| CdrPipeline.MapTransactionsToSessions | 00_Base/src/mapper/SessionMapper.ts:119-134 | the sessions are those of the transactions as resolved, and the loaded parts stay cached |
| CdrPipeline.SessionTotal | 00_Base/src/mapper/SessionMapper.ts:352-356 | a finished session's total is its energy at the tariff's price cut off at the cent, without VAT; a running one's is zero |
| CdrPipeline.MapSessionToCdr | 00_Base/src/mapper/CdrMapper.ts:95-145 | a record is the specified function of session, location and tariffs |
| CdrPipeline.RecordNamesOwnEvse | 00_Base/src/mapper/CdrMapper.ts:151-174 | the record's location names the EVSE the transaction ran on: no other EVSE of any station shares its uid |
| CdrPipeline.RecordNamesOwnConnector | 00_Base/src/mapper/CdrMapper.ts:151-207 | the record's location carries standard, format and power type of the first connector with the session's id on the first EVSE with its uid, and is empty where there is none |
| CdrPipeline.MapSessionsToCdrs | 00_Base/src/mapper/CdrMapper.ts:75-93 | when every session has its location and tariff, the filter drops nothing and no lookup is undefined |
| CdrPipeline.SessionsDistinct | 00_Base/src/mapper/SessionMapper.ts:314-326 | distinct transactions give sessions with distinct ids |
| CdrPipeline.CdrsForViews | 00_Base/src/mapper/CdrMapper.ts:75-93 | looking up by session id finds each session's own location and tariff |
| CdrPipeline.LoadAgain | 00_Base/src/mapper/CdrMapper.ts:42-46 | the second loads give every completed transaction its own location and tariff, as the first ones cached them |
| CdrPipeline.MapLoadedSessions | 00_Base/src/mapper/CdrMapper.ts:42-59 | the records of the first loads' sessions, whatever the database holds by then |
| CdrPipeline.MapTransactionsToCdrs | 00_Base/src/mapper/CdrMapper.ts:34-67 | whenever it returns, the records are those of the completed transactions that resolve, in order; it is sure to return when all that is read can be mapped, active transactions' locations included |
| CdrPipeline.CompletedInOrder | 00_Base/src/mapper/CdrMapper.ts:34-41 | every inactive transaction is kept, in the order given |
| CdrPipeline.OneCdrPerResolving | 00_Base/src/mapper/CdrMapper.ts:34-145 | exactly one record per resolving transaction, in input order, told from the transaction's own columns: it lasts from its start to its end in hours, and charges its energy, its minutes and the fee at the tariff's prices, with an exact total; id, party, token, location, currency, periods and times are the transaction's, the OCPI tariff is that of the later reads |
| CdrPipeline.ViewRecord | 00_Base/src/mapper/CdrMapper.ts:302-313 | the same for one transaction: hours times 3600000 is end minus start in milliseconds, zero without an end |
| CdrRecords.PaddingKeepsNumber | 00_Base/src/mapper/CdrMapper.ts:147-149 | padding a decimal id with zeros keeps its number |
| CdrRecords.PaddingIsZeros | 00_Base/src/mapper/CdrMapper.ts:147-149 | padding puts zeros in front, up to the width |
| CdrRecords.CdrIdInjective | 00_Base/src/mapper/CdrMapper.ts:147-149 | two transactions never share a record id |
| CdrRecords.GeneratedForTransaction | 00_Base/src/broadcaster/CdrBroadcaster.ts:31-41 | at most one record is generated for one transaction, and it carries that transaction's id |
| CdrRecords.InsertOutcome | 00_Base/src/graphql/queries/cdr.queries.ts:31-58 | in any table: refused exactly without an end, touched exactly for a known record id, a violation exactly when only the transaction is taken |
| CdrRecords.StepKeepsConsistent | 00_Base/src/graphql/queries/cdr.queries.ts:31-58 | no insert ever hits the unique constraint on the transaction id |
| CdrRecords.RunKeepsConsistent | citrineos-core/migrations/20260331000001-cdr-records.ts:16-28 | over all posts and deletions: at most one row per transaction, and no unique violation at any step |
| CdrRecords.StepRow | 00_Base/src/graphql/queries/cdr.queries.ts:31-58 | an event changes a transaction's row only by creating it or by touching its update time and cleared references |
| CdrRecords.FirstBillingKept | 00_Base/src/broadcaster/CdrBroadcaster.ts:71-108 | a transaction has a row if and only if some post wrote one; billing and creation time are the first write's, the update time the last write's |
| CdrRecords.RowBillsTransaction | 00_Base/src/broadcaster/CdrBroadcaster.ts:71-108 | every billing column of the row follows from the transaction's columns and the tariff at the first write: times, currency, energy, hours, the component amounts, their sum and its VAT |
| CdrRecords.ReferencesUntilDeleted | citrineos-core/migrations/20260331000001-cdr-records.ts:16-45 | the row refers to its transaction and to the partner that authorized it at the first write, each until that is deleted and never again afterwards |
| CdrBroadcasting.CdrBroadcaster.BroadcastPostCdr | 00_Base/src/broadcaster/CdrBroadcaster.ts:31-69 | at most one attempt, to the authorizing partner; the record is persisted whether or not it succeeds; nothing happens when the mapping throws or gives nothing |
| CommandProtocol.StepKeepsAccount | 00_Base/src/util/CommandExecutor.ts:459-631 | every step keeps the account of a command's posts, its cache entry and its watcher |
| CommandProtocol.RunKeepsAccount | 00_Base/src/util/CommandExecutor.ts:459-631 | so does every run, for every command, whatever the interleaving |
| CommandProtocol.ExactPostCount | 00_Base/src/util/CommandExecutor.ts:520-588 | a response URL is posted to at most once plus its late send failures, exactly that often after the deadline, and not at all while the entry is live |
| CommandProtocol.FewLateSendFailures | 00_Base/src/util/ocppCommandHandlers/base.ts:87-144 | in every run at most one send of a command fails late |
| CommandProtocol.OneOrTwoPosts | 00_Base/src/util/CommandExecutor.ts:520-588 | in every interleaving a command gets at most two posts, and one or two once its deadline has passed |
| CommandProtocol.ExactlyOnceIffNoLateSendFailure | 00_Base/src/util/ocppCommandHandlers/base.ts:87-144 | after the deadline there is exactly one post if and only if no send failed on an entry that was no longer live |
| CommandProtocol.SendFailureAfterTimeoutPostsTwice | 00_Base/src/util/ocppCommandHandlers/base.ts:87-144 | a run in which a command's result is posted twice |
| CommandProtocol.AnswerPostsIffLive | 00_Base/src/util/CommandExecutor.ts:459-518 | an answer posts to the real URL if and only if it is handled while the entry is live; a late or repeated one never does |
| CommandProtocol.ResultsAreTold | 00_Base/src/util/CommandExecutor.ts:459-588 | in every interleaving the results posted to a command's URL, in order, are those the run's events alone tell, and past its deadline the command is decided |
| CommandProtocol.SilenceIsTimeout | 00_Base/src/util/CommandExecutor.ts:520-588 | a command that is sent and neither answered nor fails gets exactly one result past its deadline: a timeout |
| CommandProtocol.FirstDecisionIsFirstResult | 00_Base/src/util/ocppCommandHandlers/base.ts:87-144 | the first event that decides a sent command gives its first result: the outcome of an answer from a known partner, a failure for a version nobody handles or a failed send, a timeout for the deadline |
| CommandProtocol.UnsentFails | 00_Base/src/util/CommandExecutor.ts:590-631 | a command whose protocol is unsupported, or that cannot be sent, gets one failure and nothing else in every later run |
| CommandProtocol.DeadlineFromStart | 00_Base/src/util/CommandExecutor.ts:520-588 | in every run a command keeps its URL, and its deadline is the time to live after its start, in the seconds that passed |
| CommandProtocol.NeverStuck | 00_Base/src/util/CommandExecutor.ts:520-588 | in every state a second can pass or a due step can run |
| CommandProtocol.CommandExecutor.constructor | 00_Base/src/util/CommandExecutor.ts:61-69 | the registry holds exactly the given handlers' versions, and nothing is cached or posted |
| CommandProtocol.CommandExecutor.PostResult | 00_Base/src/trigger/CommandsClientApi.ts:39-77 | the sentinel is written, then the result posted |
| CommandProtocol.CommandExecutor.GetCommandHandler | 00_Base/src/util/CommandExecutor.ts:590-631 | an unsupported protocol posts a failure at once |
| CommandProtocol.CommandExecutor.ExecuteCommand | 00_Base/src/util/CommandExecutor.ts:71-174 | files the URL with its time to live, starts the watcher, then sends or fails; an unlock whose connector is unknown fails at once |
| CommandProtocol.CommandExecutor.HandleAsyncCommandResponse | 00_Base/src/util/CommandExecutor.ts:459-518 | the answer is posted to the cached URL, if any |
| CommandProtocol.CommandExecutor.OnChangeThen | 00_Base/src/util/CommandExecutor.ts:520-588 | the watcher posts a timeout unless it saw the sentinel |
| CommandProtocol.CommandExecutor.SendOcppMessageReturns | 00_Base/src/util/ocppCommandHandlers/base.ts:87-144 | a failed send posts a failure without reading the cache |
| TokensMapper.NormalizeToken | 00_Base/src/mapper/TokensMapper.ts:284-300 | absent for an empty uid; otherwise at most the column's length, and the uid itself when it fits |
| TokensMapper.MapOcpiTokenToPartialOcppAuthorization | 00_Base/src/mapper/TokensMapper.ts:117-198 | the pushes give the specified partial authorization |
| TokensMapper.InfoOfFinds | 00_Base/src/mapper/TokensMapper.ts:128-165 | which entry each kind of additional info finds; the visual number defaults to the contract id |
| TokensMapper.MergeAdditionalInfo | 00_Base/src/services/TokensService.ts:357-374 | overwrites in place the entries whose kind the update has |
| TokensMapper.FindMerged | 00_Base/src/services/TokensService.ts:357-374 | after merging, a kind finds the update's entry if both have it, else what the row had |
| TokensMapper.MergeKeepsComplete | 00_Base/src/services/TokensService.ts:357-374 | merging a token's entries never loses a required entry |
| TokensService.GroupStep | 00_Base/src/services/TokensService.ts:318-355 | find-or-create keeps the invariants, leaves other keys alone and finds the group row again under the returned id |
| TokensService.UpsertKeepsKeysUniqueIff | 00_Base/src/services/TokensService.ts:96-166 | an upsert keeps keys unique if and only if the token is not a first-time member of a group bearing its own key |
| TokensService.PatchKeepsGood | 00_Base/src/services/TokensService.ts:168-240 | a patch keeps keys and ids unique |
| TokensService.FirstUpsertRoundTrip | 00_Base/src/services/TokensService.ts:96-166 | a first upsert returns the same token on its stored fields |
| TokensService.UpsertIdempotent | 00_Base/src/services/TokensService.ts:96-166 | repeating an upsert changes no row and returns the same |
| TokensService.UpsertThenGet | 00_Base/src/services/TokensService.ts:65-94 | a GET by uid and type returns what the upsert stored |
| TokensService.GetFindsIff | 00_Base/src/services/TokensService.ts:65-94 | a GET finds a token exactly when a row of its party has the normalised uid and the type, RFID when none is asked for, and returns such a row |
| TokensService.UpsertEffect | 00_Base/src/services/TokensService.ts:96-166 | an upsert writes its own key's row and leaves every other existing key's row as it was |
| TokensService.UpsertReturns | 00_Base/src/services/TokensService.ts:96-166 | whenever an upsert returns, over new and existing rows alike, valid, whitelist and timestamp are the token's, and so are language, group, uid and entries when given; otherwise the row's stay |
| TokensService.UpsertSucceedsIff | 00_Base/src/services/TokensService.ts:96-166 | an upsert succeeds if and only if the token has uid, contract id and issuer and is not of type OTHER; a token without any entry relies on those of the row there was |
| TokensService.OtherNeverMapsBack | 00_Base/src/mapper/TokensMapper.ts:49-83 | a token of type OTHER is stored and every upsert of it fails |
| TokensService.UpsertKeepsReadable | 00_Base/src/services/TokensService.ts:96-166 | an admissible upsert succeeds and keeps all upserted rows readable |
| TokensService.PatchKeepsReadable | 00_Base/src/services/TokensService.ts:168-240 | any patch keeps all upserted rows readable, and one of an upserted row with a timestamp succeeds |
| TokensService.RunKeepsReadable | 00_Base/src/services/TokensService.ts:96-240 | so does every run of upserts and patches |
| TokensService.UpsertedRowsStayReadable | 00_Base/src/mapper/TokensMapper.ts:20-47 | in every run, every row ever upserted keeps non-empty eMAID, visual number and issuer, so reading it as a token never throws |
| TokensService.PatchesSucceedIffNotSelfGroup | 00_Base/src/services/TokensService.ts:96-240 | after an upsert all timestamped patches succeed if and only if the token was not its own first-time group |
| TokensService.SelfGroupPatchFails | 00_Base/src/services/TokensService.ts:168-240 | for such a token, a patch of the contract id alone fails |
| TokensService.PatchWithoutValidInvalidates | 00_Base/src/mapper/TokensMapper.ts:167-169 | a successful patch leaves the token valid if and only if its body says valid |
| TokensService.PatchSetsEntries | 00_Base/src/services/TokensService.ts:168-240 | a patch sets exactly the entries it gives; a contract id without a visual number also replaces the visual number |
| TokensService.PatchReturns | 00_Base/src/services/TokensService.ts:168-240 | whenever a patch returns, whitelist, language, group, uid and timestamp are those of its body when given, and the row's otherwise; valid is what the body says |
| TokenStore.TokensService.HandleGroupAuthorization | 00_Base/src/services/TokensService.ts:318-355 | finds or creates the group's row and returns its id |
| TokenStore.TokensService.UpsertToken | 00_Base/src/services/TokensService.ts:96-166 | the table and the result are the specified functions of the old table |
| TokenStore.TokensService.PatchToken | 00_Base/src/services/TokensService.ts:168-240 | the table and the result are the specified functions of the old table |
| TokenStore.TokensService.MergeFetched | 00_Base/src/services/TokensService.ts:357-374 | the additional info to write: none, the merged entries, or the update itself |
| AuthReference.UpsertKeepsAgreement | 00_Base/src/services/TokensService.ts:96-166 | after an upsert, every row's shown uid still normalises to its id token |
| AuthReference.PatchKeepsAgreementIff | 00_Base/src/services/TokensService.ts:168-240 | a patch keeps that agreement if and only if its body's uid is absent, short, or stands for the path's uid |
| AuthReference.RunKeepsAgreement | 00_Base/src/services/TokensService.ts:96-240 | every run of such calls keeps it |
| AuthReference.SameKeyOverRuns | 00_Base/src/util/CommandExecutor.ts:97-105 | a reference filed under the uid shown for an upserted row is looked up under the same key |
| AuthReference.StepKeepsConsistent | 03_Modules/Sessions/src/index.ts:135-179 | a cache entry always belongs to a filing that is not attached yet |
| AuthReference.RunKeepsConsistent | 03_Modules/Sessions/src/index.ts:135-179 | so it does in every run of filings, inserts and expiries |
| AuthReference.AttachedAtMostOnce | 03_Modules/Sessions/src/index.ts:135-179 | each filed reference is attached to at most one transaction, one of the token it was filed for |
| AuthReference.EntrySurvives | 00_Base/src/util/CommandExecutor.ts:97-105 | a filed entry survives every run within its time to live that neither files for nor starts a transaction of its token |
| AuthReference.FiledIsAttached | 03_Modules/Sessions/src/index.ts:135-179 | over such a run, the reference reaches the next transaction of the token, and in every later run stays with that one alone |
| AuthReference.FailedWriteLosesReference | 03_Modules/Sessions/src/index.ts:135-179 | a reference is taken from the cache for the transaction that finds it even when that one's write fails; it then reaches no transaction in any later run |
| AuthReference.ExpiredReferenceIsLost | 00_Base/src/util/CommandExecutor.ts:97-105 | a reference that expires after its 60 seconds reaches no transaction in any later run |
| AuthReference.ReferenceReachesTransaction | 03_Modules/Sessions/src/index.ts:135-179 | end to end: so it does when filed with the uid the partner was shown for an upserted row |
| AuthReference.ReferenceKeptIff | 03_Modules/Sessions/src/index.ts:144-169 | a reference taken from the cache is in the table if and only if the write succeeds, and in the broadcast if and only if the write succeeds or the transaction had custom data |
| AuthReference.ReferenceHandoff.FileReferenceOf | 00_Base/src/util/CommandExecutor.ts:97-105 | files a non-empty reference under the normalised uid with a time to live |
| AuthReference.ReferenceHandoff.HandleTransactionInsert | 03_Modules/Sessions/src/index.ts:135-184 | takes the entry out of the cache, merges the reference into the custom data unless the write fails, and returns the custom data to broadcast |
| Registration.StepRewrites | 00_Base/src/services/CredentialsService.ts:90-318 | a call that does not delete leaves the table alone or gives one partner a profile carrying the fresh token |
| Registration.StepKeepsGood | 00_Base/src/services/CredentialsService.ts:90-457 | every call, with any remote failure, keeps: credentials imply server credentials, server tokens unique and known as issued |
| Registration.RunKeepsGood | 00_Base/src/services/CredentialsService.ts:90-457 | so does every run with fresh tokens |
| Registration.RetiredTokenStaysRetired | 00_Base/src/services/CredentialsService.ts:90-457 | an issued server token that resolves to nobody never resolves to anybody again |
| Registration.DeleteRemovesExactlyOwner | 00_Base/src/services/CredentialsService.ts:166-176 | deletion removes exactly the token's owner, or throws and removes nobody |
| Registration.ReplyIffRepliable | 00_Base/src/mapper/RegistrationMapper.ts:26-73 | the reply carries the partner's own server token; it can be built if and only if the tenant's profile has a role with business details and no logo of an unknown type or category |
| Registration.PersistThenReply | 00_Base/src/services/CredentialsService.ts:125-133 | a write followed by a reply: the table changes if and only if the write succeeds, the call returns if and only if the reply can be built as well |
| Registration.FindParty | 00_Base/src/graphql/queries/tenantPartner.queries.ts:64-92 | a found row is of this tenant and this client; nothing is found exactly when no row is of both |
| Registration.VersionDetailsIff | 00_Base/src/services/CredentialsService.ts:320-373 | the version details can be read if and only if both answers carry data, the expected version is listed and all endpoints are known; they are the first such version's URL and all endpoints in order |
| Registration.PutWritesCaller | 00_Base/src/services/CredentialsService.ts:136-164 | a written PUT changes the caller's row alone: the new server token under its old URL, and exactly the client credentials and roles that were sent |
| Registration.PostWritesCaller | 00_Base/src/services/CredentialsService.ts:90-134 | a written POST does so as well, and files the version's details |
| Registration.PutReplacesToken | 00_Base/src/services/CredentialsService.ts:136-164 | a PUT changes the table if and only if it writes, and then moves the caller to the new token and leaves every other token's owner alone; it throws with that done if and only if it writes and the tenant's profile gives no reply |
| Registration.SvgTenantPutThrows | seeders/20250806120001-default-tenant.ts:54-60 | for a partner of the seeded tenant, whose logo is an svg image, every PUT whose write succeeds throws with the token replaced |
| Registration.PostReplacesToken | 00_Base/src/services/CredentialsService.ts:90-134 | the same for POST, which also registers the partner: when it writes, when it returns, and when it throws with the table changed |
| Registration.UnregisterRetiresToken | 00_Base/src/services/CredentialsService.ts:393-415 | unregistering removes exactly the partner, or throws and changes nothing; its token resolves to nobody in every later run, other tokens resolve as before |
| Registration.UnregisterRemovesParty | 00_Base/src/services/CredentialsService.ts:393-415 | it takes out the first row of this tenant and client, and no other |
| Registration.GenerateHalfDoneIff | 00_Base/src/services/CredentialsService.ts:417-457 | the same for generating the first token |
| Registration.GenerateWritesParty | 00_Base/src/services/CredentialsService.ts:417-457 | generating gives the first row of this tenant and client its first profile, and changes no other |
| Registration.RegenerateHalfDoneIff | 00_Base/src/services/CredentialsService.ts:250-318 | the reply is built first, so a profile that gives none changes nothing; it throws with the table changed if and only if the first write succeeded and the partner's answer or the second write failed; the new token is then in force and the old one retired |
| Registration.RegenerateWritesParty | 00_Base/src/services/CredentialsService.ts:250-318 | an answered regeneration gives the first row of this tenant and client the new server credentials and version and the answer's client credentials and roles, and changes no other |
| Registration.RegisterHalfDoneIff | 00_Base/src/services/CredentialsService.ts:178-248 | registering returns if and only if it writes, a reply can be built and the partner is reached; otherwise, if it wrote, it throws with the partner registered |
| Registration.RegisterWritesParty | 00_Base/src/services/CredentialsService.ts:178-248 | a written registration gives the first row of this tenant and client its server token, what was sent and the version's details, and changes no other; it returns the partner's answer |
| Registration.RegisterRetryFails | 00_Base/src/services/CredentialsService.ts:195-199 | once a partner has a server token every retry of registering fails and changes nothing, whatever other calls come in between, until one deletes a partner |
| CredentialsServiceModel.CredentialsService.PostCredentials | 00_Base/src/services/CredentialsService.ts:90-134 | table and result are the specified functions of the old table; the reply is built after the write |
| CredentialsServiceModel.CredentialsService.PutCredentials | 00_Base/src/services/CredentialsService.ts:136-164 | table and result are the specified functions of the old table; the reply is built after the write |
| CredentialsServiceModel.CredentialsService.DeleteCredentials | 00_Base/src/services/CredentialsService.ts:166-176 | table and result are the specified functions of the old table |
| CredentialsServiceModel.CredentialsService.RegisterCredentialsTokenA | 00_Base/src/services/CredentialsService.ts:178-248 | table and result are the specified functions of the old table and the remote answers |
| CredentialsServiceModel.CredentialsService.RegenerateCredentialsToken | 00_Base/src/services/CredentialsService.ts:250-318 | table and result are the specified functions, with the reply built before both writes |
| CredentialsServiceModel.CredentialsService.UnregisterClient | 00_Base/src/services/CredentialsService.ts:393-415 | table and result are the specified functions of the old table and the remote answer |
| CredentialsServiceModel.CredentialsService.GenerateCredentialsTokenA | 00_Base/src/services/CredentialsService.ts:417-457 | table and result are the specified functions of the old table; the reply is built after the write |
| ChangeFeed.TariffNotify | migrations/20250730123503_notification_tariff.ts:12-75 | the trigger body emits the specified notification for inserts, updates and deletions |
| ChangeFeed.ConnectorNotify | migrations/20250730123507_notification_connector.ts:12-67 | the same for connectors |
| ChangeFeed.TransactionNotify | migrations/20250730123502_notification_transaction.ts:12-56 | the same for transactions, which always carry a tenant key |
| ChangeFeed.UpdateEmitsIff | migrations/20250730123503_notification_tariff.ts:22-53 | an update emits if and only if a column beside the required ones changed |
| ChangeFeed.TariffsAnnounced | migrations/20250730123503_notification_tariff.ts:12-75 | for every statement, exactly when a tariff notification is sent, and its keys and values: the announced columns and the tenant, if known |
| ChangeFeed.ConnectorsAnnounced | migrations/20250730123507_notification_connector.ts:12-67 | the same for connectors, whose deletions are not announced |
| ChangeFeed.TransactionsAnnounced | migrations/20250730123502_notification_transaction.ts:12-56 | the same for transactions, where an unknown tenant is a null |
| ChangeFeed.OverlayGivesNewRow | migrations/20250730123503_notification_tariff.ts:22-53 | laying the patch over a copy that agrees beside the required columns gives the new row |
| ChangeFeed.StepMirrors | migrations/20250730123502_notification_transaction.ts:24-43 | one statement keeps the mirror; an announced row is mirrored on every column |
| ChangeFeed.ReplicaRefines | migrations/20250730123502_notification_transaction.ts:24-43 | replica refinement: after every statement of every run, the replica agrees with each row beside the required columns |
| ChangeFeed.NotifiedRowMirrored | migrations/20250730123502_notification_transaction.ts:24-43 | right after an announced insert or update the replica holds the whole row |
| ChangeFeed.SilentUpdateLags | migrations/20250730123502_notification_transaction.ts:24-43 | an update of required columns alone leaves the replica as it was |
| EvseStatusAggregation.AggregateIsMaximum | 00_Base/src/mapper/LocationMapper.ts:286-329 | the aggregated status is the rank maximum over the connectors, attained by one of them |
| EvseStatusAggregation.AggregateIgnoresOrder | 00_Base/src/mapper/LocationMapper.ts:286-329 | the order of the connectors does not matter |
| EvseStatusAggregation.AggregateOfSplit | 00_Base/src/mapper/LocationMapper.ts:286-329 | it can be computed from the parts of any split |
| LocationsHandler.HandleConnectorUpdate | 03_Modules/Locations/src/index.ts:218-295 | what is broadcast is the specified function of payload and station |
| LocationsHandler.PayloadKeys | 03_Modules/Locations/src/index.ts:297-316 | the keys the handler looks at are exactly the changed columns beside the metadata |
| LocationsHandler.StatusPathIff | 03_Modules/Locations/src/index.ts:218-316 | trigger and handler composed: an update takes the EVSE-status path if and only if `status` is all that changed beside required columns and metadata; it sends a status that some connector of this EVSE and station has and none of them ranks above, and nothing exactly when there is none |
| SessionsHandler.CdrPostedIffJustEnded | 03_Modules/Sessions/src/index.ts:192-226 | trigger and handler composed: a transaction update makes the handler post if and only if it ended the transaction, its tenant is known and it is found again |
| SessionBilling.OnePostPerEnding | 03_Modules/Sessions/src/index.ts:192-226 | over all updates of a transaction, the handler posts once for each such ending and for nothing else |
| SessionBilling.RecordedIffEnded | 03_Modules/Sessions/src/index.ts:192-226 | trigger, handler, broadcaster and table composed: the transaction has a record if and only if some ending of it was persisted, never two, no other transaction gets one, and no post hits the unique constraint on transactions |
| CdrRecords.RowIffWritten | 00_Base/src/broadcaster/CdrBroadcaster.ts:71-108 | a transaction has a row if and only if some post of the run wrote one |
| EvseUid.StationRoundTrip | 00_Base/src/model/DTO/EvseDTO.ts:17-31 | extracting the station id undoes the format if and only if the station id has no delimiter and does not end in a colon |
| EvseUid.EvseRoundTrip | 00_Base/src/model/DTO/EvseDTO.ts:17-31 | behind such a station id, extracting the EVSE id undoes it if and only if the EVSE id has no delimiter |
| EvseUid.NothingToExtract | 00_Base/src/model/DTO/EvseDTO.ts:23-31 | from a text without the delimiter neither part is extracted |
| EvseUid.UidInjective | 00_Base/src/model/DTO/EvseDTO.ts:17-31 | on such station ids the format is injective |
| EvseUid.UidInjectiveOnDigits | 00_Base/src/model/DTO/EvseDTO.ts:17-31 | with EVSE ids of digits the format is injective for every station id |
| EvseUid.UidOfNumberInjective | 00_Base/src/mapper/LocationMapper.ts:222 | so a printed uid names one EVSE of one station |
| EvseUid.SharedUidIff | 00_Base/src/model/DTO/EvseDTO.ts:17-31 | for EVSE ids that are arbitrary text, a station shares each of its uids with another, separable station if and only if its id contains a delimiter or ends in a colon |
| EvseUid.SharedUid | 00_Base/src/model/DTO/EvseDTO.ts:17-31 | one such pair |
| Text.IndexFrom | 00_Base/src/model/DTO/EvseDTO.ts:17-31 | the leftmost occurrence of the separator, as splitting needs it |
| ConfigMerge.FindCaseInsensitiveMatch | 00_Base/src/config/defineOcpiConfig.ts:29-35 | the first key that equals the target up to case, and none exactly when no key does |
| ConfigMerge.WriteFrame | 00_Base/src/config/defineOcpiConfig.ts:94-124 | one variable changes nothing off its path |
| ConfigMerge.WriteSeen | 00_Base/src/config/defineOcpiConfig.ts:111-119 | a known path's value is found under the keys it stands for |
| ConfigMerge.WritesCommute | 00_Base/src/config/defineOcpiConfig.ts:94-124 | two variables with paths apart, known or not, commute, throwing included |
| ConfigMerge.WriteKeepsIff | 00_Base/src/config/defineOcpiConfig.ts:94-124 | a write changes nothing if and only if the value already holds what a known path writes, or all that the walk along an unknown path passes |
| ConfigMerge.PrefixesCommuteIff | 00_Base/src/config/defineOcpiConfig.ts:94-124 | for any path and any longer one, known or not, the order is irrelevant if and only if the shorter path is unknown or its write throws, or both orders throw below it, or its value already holds what the longer one needs |
| ConfigMerge.OrderIrrelevant | 00_Base/src/config/defineOcpiConfig.ts:71-133 | any order of variables with pairwise-apart paths gives the same tree and the same errors |
| ConfigMerge.MergeFrame | 00_Base/src/config/defineOcpiConfig.ts:71-133 | the tree differs from the default only along the variables' paths |
| ConfigMerge.MergeSeen | 00_Base/src/config/defineOcpiConfig.ts:71-133 | every variable with a known path is seen in the tree |
| ConfigMerge.ThrowsIffPrimitive | 00_Base/src/config/defineOcpiConfig.ts:104-118 | a write throws if and only if its walk stands on a truthy primitive |
| ConfigMerge.ApplyEnvVar | 00_Base/src/config/defineOcpiConfig.ts:89-124 | the inner loop gives the specified tree and error |
| ConfigMerge.MergeOcpiConfigFromEnvVars | 00_Base/src/config/defineOcpiConfig.ts:71-133 | the outer loop gives the specified tree and errors, ending at a throw |
| ConfigMerge.ReducedShape | 00_Base/src/config/defineOcpiConfig.ts:50-64 | the key map lists the schema's keys in order, leaves in lower case |
| ConfigMerge.KeysDistinct | 00_Base/src/config/defineOcpiConfig.ts:50-64 | no key is listed twice: a later one replaces an equal one |
| ConfigMerge.LeafPathMatched | 00_Base/src/config/defineOcpiConfig.ts:40-66 | a path aimed at a leaf of the schema is known and stands for its keys, the last one in lower case |
| ConfigMerge.OverrideReachesLeafIff | 00_Base/src/config/defineOcpiConfig.ts:54-59 | an override is written at the schema's leaf if its key has no capital letter; otherwise beside the leaf, which keeps its default |
| ConfigMerge.SplitJoin | 00_Base/src/config/defineOcpiConfig.ts:86-89 | splitting a variable's name undoes joining a path with underscores |
| ConfigMerge.PathOfNamed | 00_Base/src/config/defineOcpiConfig.ts:84-89 | the variable named after a path, in any case, stands for that path in lower case |
| ConfigMerge.VariableCountsIff | 00_Base/src/config/defineOcpiConfig.ts:79-128 | a variable counts if and only if it is not empty and its name begins with the prefix in any case; any other changes nothing and is no error, and one that counts is an error exactly when its path is unknown |
| ConfigMerge.EmptyPartUnknown | 00_Base/src/config/defineOcpiConfig.ts:96-118 | a path with an empty part is never known |
| ConfigMerge.JoinSplit | 00_Base/src/config/defineOcpiConfig.ts:86-89 | joining undoes splitting a variable's name, and no part has an underscore |
| ConfigMerge.VariableReachesSettingIff | 00_Base/src/config/defineOcpiConfig.ts:176-184 | end to end: what is found at a setting is the value of the variable named after it when the setting's key has no capital letter, and the default otherwise |
| ConfigMerge.EndpointPrefixLost | 00_Base/src/config/defineOcpiConfig.ts:54-59 | an override of `endpointPrefix` lands under `endpointprefix` |

## Left out

- IEEE floating point: amounts, energies and hours are reals, and rounding is the floor of x plus one half.
- SHA-256: an unknown function to numbers, printed as 64 hexadecimal digits; nothing else is used of it.
- Calendar parsing: timestamps are integer milliseconds, so ISO printing and unparsable dates are not modelled.
- HTTP, Koa, GraphQL, zod validation, logging and dependency injection: a remote call is an outcome, a query or mutation is a read or write of a table.
- RedisCache: its `onChange` applies the namespace prefix twice on the inner read; the contract of `ICache` is modelled instead.
- CommandProtocol.ExactPostCount: reading the cache and posting are one step, so a watcher deadline that falls between the two is not modelled; a post is an attempt, whether or not it arrives.
- The OCPP command handlers beyond their posts: an answer posts at most one result, to the URL it is given, and none when it does not validate; sending posts through `sendOCPPMessage`, or at once for an unlock whose connector is unknown.
- CommandProtocol.CommandExecutor.ExecuteCommand: one method stands for all execute methods, which file and watch alike.
- Registration.PutReplacesToken: parts of the credentials a partner sends that its schema already refuses; the thumbnail of a logo, which is not stored.
- Interleaving inside one credentials call: calls run one after another, so the second write of a regeneration cannot restore an older token here.
- Notifications are delivered one per statement in order; Postgres collapsing equal payloads of one transaction is not modelled.
- TokensService.UpsertKeepsKeysUniqueIff: the Authorization model in `citrineos-core/01_Data/src/layers/sequelize/model/Authorization/Authorization.ts` declares a unique pair `idToken_type` that the migrations do not create; two rows under one key are therefore possible in a migrated database only.
- TokenStore.TokensService.UpsertToken: the order of table rows is insertion order; the real-time authorization call of the token service is not modelled.
- CdrPipeline.GetTariffsForTransactions: the meter values of a transaction are a value there, so the in-place sort of `Metering.GetChargingPeriods` is not seen on the transaction.
- CdrPipeline.MapSessionToCdr: fields that are always undefined (meter, remark, invoice and credit references, parking and reservation costs); a session's status, which no record carries.
- CdrPipeline.MapTransactionsToCdrs: dates that cannot be parsed and database requests that fail, which make the mapping throw; why a location or token cannot be mapped.
- AuthReference.ReferenceHandoff.HandleTransactionInsert: the DTO it broadcasts was just read, so its custom data is the table's; the event's own payload, used when that read finds nothing, is not modelled.
- CdrRecords.FirstBillingKept: foreign-key errors, numeric precision and column widths are part of the database's own refusals.
- The single-meter-value session PATCH, which has no previous reading and so no energy dimension.
- ConfigMerge.MergeOcpiConfigFromEnvVars: the default's nested objects are values, so writes into the caller's own default are not seen; `parseEnvValue` is an arbitrary function of the text.
- ConfigMerge.ApplyEnvVar: a numeric path segment that indexes into the name of a leaf, Unicode lower-casing, and property names of JavaScript primitives.
- RabbitMQ, the DtoRouter, enum translation tables beyond those named, seeders, generators and commented-out services: they would only add easy members.
