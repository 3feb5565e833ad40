# Sylvia: verified models of the framework's message plumbing and of its example contracts

Sylvia generates CosmWasm message enums, routers and reply dispatchers from annotated Rust
methods; its example contracts include a cw20 token, an admin list and a subkey wallet. This
project models five parts of it and proves what each is for.

* **Token** (`Cw20Ledger`, `Cw20Base`, `Cw20Invariants`, `Cw20Accounting`, `Cw20Start`,
  `Cw20Marketing`, `Cw20Listings`). `Cw20Base.Contract` is the contract over its storage: every
  handler reads and writes the stored entries one by one, in the source's order, with every failing
  branch (including those that leave half-written storage behind), and is proved to do what the
  functions of `Cw20Ledger` say, for all stored states. `Contract.Execute` adds the chain's rollback.
  The lemmas then treat whole runs of messages from instantiation: sums, mirrors, conservation, the
  cap, the marketing data, and the plain conditions under which each message is accepted.
* **Collision check and router** (`NoIntersection`, `Router`). The in-place merge with cursors, and
  the first-match deserializer whose correctness depends on it.
* **Replies** (`ReplyTable`, `ReplyDiagnostics`, `ReplyDispatch`). The grouping loop, its
  diagnostics, the generated setters and dispatch arms, and the agreement of all of these with the
  methods and the names they list.
* **Admins and subkeys** (`Whitelist`, `Subkeys`). The sorted scan of `update_admins` refines a
  two-field abstract machine; who may change what, what may be sent, and subkey allowances over a
  moving block clock.
* **Generics** (`Generics`). The visitor that decides which parameters an emitted enum declares.

`Ordering` (the byte order of strings, sorting, dedup), `Paging` (ordered listings and a client that
reads them page by page), `MapSum`, `Chain` and `Prelude` are shared.

Conventions. A `Uint128` is a number up to 2^128-1; `checked_*` gives an overflow error, a bare `+`
gives `Panic`. An address is a string; `addr_validate` is a fixed predicate `api`. Events, response
attributes and error texts are not modelled; error kinds are. Blocks, senders and the address
predicate are parameters.

Where the code and its own words differ, the model follows the code:

* `MinterData.cap` is documented as how many more tokens may be issued
  (examples/contracts/cw20-base/src/contract.rs:45-46), but `instantiate` and `mint` compare it with
  the total supply, as examples/interfaces/cw20-minting/src/responses.rs:7-9 says.
* The examples' package version is 0.5.0 (examples/Cargo.toml:26), below the 0.14.0 that `migrate`
  compares with, so an accepted migration always rebuilds the index and any stored version above
  0.5.0 is refused (`Cw20Start.MigrationToThisPackage`).
* The comment in `update_admins` says that the search index only grows; it is relative to the
  searched slice and can move back (`Whitelist.IndexMovesBack`). The result is still exact
  (`Whitelist.Contract.KeysToRemove`).
* `merge` is documented to add a handler provided the payloads match; it reports a mismatch and adds
  the handler anyway.
* `merge` keeps only the first handler's `data`. A success handler with a data parameter that is
  declared after the error handler of the same id passes every check, yet the generated call is one
  argument short (`ReplyDispatch.DataDeclaredSecondIsDropped`); `ReplyDispatch.ArmArgumentsMatch`
  and `ReplyDispatch.LeadIsDeclared` give the exact condition.
* Handlers of different names may get one reply id, as `fooBar` and `foo_bar` do. Their methods are
  then merged without a diagnostic, and a setter can run a method declared for the other handler
  (`ReplyDispatch.CollidingHandlers`); it cannot exactly when the ids keep the declared handlers
  apart (`ReplyDispatch.SettersMatchHandlers`).
* The visitor of generics finds a parameter only where it is a whole path. `T::Item` alone leaves
  `T` undeclared, in a field (`Generics.UndeclaredInField`) and in a kept predicate
  (`Generics.UndeclaredInKeptPredicate`); `Generics.AllDeclaredIff` gives the exact condition.
* A send that stays within a subkey's balance may still be refused: a zero coin after its
  denomination has been used up is (`Subkeys.ZeroCoinRefused`). `Subkeys.SubCoinsCovers` gives the
  exact condition, and `Subkeys.PositiveSendCovered` the case without zero coins.

## Model

| member | source | states |
|---|---|---|
| Cw20Base.ValidateAccounts | examples/contracts/cw20-base/src/validation.rs:27-38 | sort, dedup and a length comparison accept exactly the lists without a repeated address |
| Cw20Base.HasValidSymbol | examples/contracts/cw20-base/src/validation.rs:56-67 | accepts exactly 3 to 12 bytes, each a letter or a dash |
| Cw20Base.Contract.CreateAccounts | examples/contracts/cw20-base/src/contract.rs:103-118 | the row loop stores and totals what the row-by-row specification says, with its three failures |
| Cw20Base.Contract.Instantiate | examples/contracts/cw20-base/src/contract.rs:151-223 | leaves the specified initial ledger, marketing data included, or reports the specified error |
| Cw20Base.Contract.DeductAllowance | examples/contracts/cw20-base/src/contract.rs:121-148 | lowers both allowance maps, each from its own value, failing on missing, expired or too small |
| Cw20Base.Contract.Transfer | examples/contracts/cw20-base/src/contract.rs:226-251 | two successive balance updates, also when sender and recipient are the same account |
| Cw20Base.Contract.Burn | examples/contracts/cw20-base/src/contract.rs:255-275 | lowers the sender's balance, then the supply |
| Cw20Base.Contract.Send | examples/contracts/cw20-base/src/contract.rs:280-315 | moves the tokens as a transfer does |
| Cw20Base.Contract.RebuildSpenderIndex | examples/contracts/cw20-base/src/contract.rs:347-355 | writes every forward allowance over the reverse index with its two addresses swapped, keeping other entries |
| Cw20Base.Contract.Migrate | examples/contracts/cw20-base/src/contract.rs:342-358 | version check, version stamp, and the rebuild when the stored version is below 0.14.0 |
| Cw20Base.Contract.IncreaseAllowance | examples/contracts/cw20-base/src/allowances.rs:31-71 | raises both maps; the addition aborts before the expiry is looked at |
| Cw20Base.Contract.DecreaseAllowance | examples/contracts/cw20-base/src/allowances.rs:75-120 | lowers or removes both entries; the spender is not validated and an expired date only matters when something is left |
| Cw20Base.Contract.TransferFrom | examples/contracts/cw20-base/src/allowances.rs:124-176 | nothing for recipient equal to owner, no allowance needed by the owner, otherwise deduct and move |
| Cw20Base.Contract.SendFrom | examples/contracts/cw20-base/src/allowances.rs:180-231 | always deducts, then moves |
| Cw20Base.Contract.BurnFrom | examples/contracts/cw20-base/src/allowances.rs:234-272 | always deducts, then lowers balance and supply |
| Cw20Base.Contract.Mint | examples/contracts/cw20-base/src/minting.rs:18-65 | minter and cap checks; the supply is stored before the recipient is validated |
| Cw20Base.Contract.UpdateMinter | examples/contracts/cw20-base/src/minting.rs:67-104 | only the minter hands over or removes the role; the cap is carried along |
| Cw20Base.Contract.UpdateMarketing | examples/contracts/cw20-base/src/marketing.rs:19-72 | only the marketing account; a blank text clears, an absent one keeps, and data without content is removed |
| Cw20Base.Contract.UploadLogo | examples/contracts/cw20-base/src/marketing.rs:74-105 | verifies the logo before the sender, then stores it and what is shown of it |
| Cw20Base.Contract.Execute | examples/contracts/cw20-base/src/contract.rs:86-359 | one message of any of its interfaces with the chain's rollback: a refused message leaves the whole ledger as it was |
| Cw20Invariants.MoveAccepted | examples/contracts/cw20-base/src/contract.rs:236-243 | once the debit succeeded the credit cannot overflow, and the sum of balances is kept, self-transfers included |
| Cw20Invariants.DestroyAccepted | examples/contracts/cw20-base/src/contract.rs:259-268 | once the balance subtraction succeeded the supply subtraction cannot fail, and the sums stay equal |
| Cw20Invariants.MintCredits | examples/contracts/cw20-base/src/minting.rs:44-58 | an amount that fits into the supply fits into every balance |
| Cw20Invariants.DeductBothMirrored | examples/contracts/cw20-base/src/contract.rs:144-147 | on mirrored maps the second update cannot fail once the first succeeded, and the mirror is kept |
| Cw20Invariants.IncreasedMirrored | examples/contracts/cw20-base/src/allowances.rs:43-63 | both increases succeed or fail together and keep the mirror |
| Cw20Invariants.StepAcceptedAndInvariant | examples/contracts/cw20-base/src/contract.rs:226-315 | each of the thirteen messages is accepted if and only if its plain, caller-visible condition holds, otherwise refused with the stated error, and keeps sum = supply, the exact mirror and the absence of self-allowances; dates are live below their height or before their time |
| Cw20Invariants.RunKeepsInvariant | examples/contracts/cw20-base/src/allowances.rs:124-272 | the invariant over every run, failed messages rolled back |
| Cw20Invariants.ReversedMirrors | examples/contracts/cw20-base/src/contract.rs:352-355 | the rebuilt entries alone form an exact mirror |
| Cw20Accounting.StepBalances | examples/contracts/cw20-base/src/contract.rs:236-243 | an accepted message changes every account's balance by exactly what it announces for that account |
| Cw20Accounting.StepSupply | examples/contracts/cw20-base/src/minting.rs:44-50 | the supply changes by exactly what is minted or burned |
| Cw20Accounting.StepAllowance | examples/contracts/cw20-base/src/allowances.rs:31-120 | an accepted message changes every owner/spender allowance by exactly what is raised, taken or revoked |
| Cw20Accounting.StepAllowanceDates | examples/contracts/cw20-base/src/allowances.rs:31-120 | after an accepted message an allowance entry is there, with its date, as before, unless its owner's own increase or decrease dated it as asked or a decrease by all of it removed it |
| Cw20Accounting.MinterAfterStep | examples/contracts/cw20-base/src/minting.rs:67-104 | the minter changes only by its own request, to what was asked, with the same cap |
| Cw20Accounting.BalanceFallsOnlyByConsent | examples/contracts/cw20-base/src/allowances.rs:145-167 | a balance falls only for the sender, or together with an equal fall of an unexpired allowance to the sender |
| Cw20Accounting.OwnAccount | examples/contracts/cw20-base/src/allowances.rs:192-198 | SendFrom and BurnFrom on one's own account always fail, TransferFrom by the owner needs no allowance |
| Cw20Accounting.RunBalancesAndSupply | examples/contracts/cw20-base/src/contract.rs:226-315 | over any run: final balance plus outflow = initial plus inflow, and the same for supply, burned and minted |
| Cw20Accounting.RunAllowanceConservation | examples/contracts/cw20-base/src/allowances.rs:31-272 | over any run: initial + raised = current + taken by the spender + revoked |
| Cw20Accounting.RunMinting | examples/contracts/cw20-base/src/minting.rs:18-104 | over any run the cap is fixed while a minter exists, no minter returns once removed, the supply never grows again, a respected cap stays respected, and the metadata is fixed |
| Cw20Start.SaveRowsAccepted | examples/contracts/cw20-base/src/contract.rs:110-117 | the rows are accepted exactly when all addresses are valid and the total fits; otherwise the error names one that does not hold |
| Cw20Start.SaveRowsAddsUp | examples/contracts/cw20-base/src/contract.rs:110-117 | without repeats, overwriting on save loses nothing: the balances sum to the requested total |
| Cw20Start.SaveRowsContents | examples/contracts/cw20-base/src/contract.rs:110-117 | the accounts are exactly the rows with their amounts |
| Cw20Start.InstantiateStarts | examples/contracts/cw20-base/src/contract.rs:151-223 | the exact acceptance condition of instantiation, the error of the first check that fails, and the exact start state, which satisfies the invariant |
| Cw20Start.ReachableStates | examples/contracts/cw20-base/src/contract.rs:86-359 | every reachable state satisfies the invariant and stays within the initial cap; without a minter the supply stays within the initial one |
| Cw20Start.MigrateRebuildsMirror | examples/contracts/cw20-base/src/contract.rs:342-358 | migration from below 0.14.0 gives the exact mirror if and only if no entry of the old reverse index lacks a forward allowance, and changes nothing else but the version |
| Cw20Start.MigrateEstablishesInvariant | examples/contracts/cw20-base/src/contract.rs:342-358 | a sound legacy ledger with an empty or partial index satisfies the full invariant after migration |
| Cw20Invariants.MigrateMirrored | examples/contracts/cw20-base/src/contract.rs:342-358 | on an already mirrored ledger migration leaves the reverse index as it is |
| Cw20Start.MigrationToThisPackage | examples/contracts/cw20-base/src/contract.rs:343-346 | with package version 0.5.0 an accepted migration always rebuilds and any newer stored version is refused |
| Cw20Marketing.LogoAccepted | examples/contracts/cw20-base/src/validation.rs:40-118 | links, PNGs with their header and SVGs whose first `>` ends an XML declaration, embedded data of at most 5 KB |
| Cw20Marketing.MarketingContents | examples/contracts/cw20-base/src/marketing.rs:19-105 | what the two messages leave: each text replaced, cleared by a blank one or kept, the data gone once nothing is left in it, or the new logo with the texts untouched |
| Cw20Marketing.RunMarketing | examples/contracts/cw20-base/src/marketing.rs:19-105 | over any run the shown logo stays the stored one, and the data changes only if the marketing account of some moment acts, so without one it is final |
| Cw20Marketing.ReachableMarketing | examples/interfaces/cw20-marketing/src/responses.rs:9-14 | in every reachable state an embedded logo is shown exactly when one can be downloaded, and a shown link is the stored one |
| Cw20Listings.SpenderListingIsComplete | examples/contracts/cw20-base/src/allowances.rs:319-345 | the listing through the reverse index consists of pages of the owners with a forward allowance, and reading it to its end gives exactly those, each once, in key order; an invalid address is refused |
| Cw20Listings.ReachableSpenderListing | examples/contracts/cw20-base/src/allowances.rs:319-345 | the same in every reachable state |
| Cw20Listings.OwnerAndAccountListings | examples/contracts/cw20-base/src/allowances.rs:291-365 | the owner's listing and the account listing consist of pages and are complete in the same sense |
| Paging.RestartAfter | examples/contracts/cw20-base/src/allowances.rs:300-306 | starting after the k-th listed key leaves exactly the entries after it |
| Paging.PagesArePages | examples/contracts/cw20-base/src/allowances.rs:298-305 | a page holds, in key order, as many of the first entries after the start as were asked for, 10 if nothing was asked and 30 at most, or all that are left |
| Paging.WalkReadsEverything | examples/contracts/cw20-base/src/allowances.rs:354-363 | a walk by last key reads everything once exactly when the limit is not zero or nothing matches |
| Paging.ReadingListsMap | examples/contracts/cw1-subkeys/src/contract.rs:219-252 | a client's page-by-page reading ends and lists exactly the admitted entries, unless the limit is zero and there are some |
| NoIntersection.InitStates | sylvia/src/utils.rs:47-56 | a cursor at the first name of every list, none for an empty list |
| Ordering.LtMeaning | sylvia/src/utils.rs:70-74 | the order of names: at the first difference the smaller character or the end comes first |
| NoIntersection.GetNextAlphabeticalIndex | sylvia/src/utils.rs:60-80 | the first of the ongoing lists whose current name is smallest |
| NoIntersection.VerifyNoCollisions | sylvia/src/utils.rs:88-111 | panics exactly when another cursor, ongoing or finished, shows the same name |
| NoIntersection.ShouldEnd | sylvia/src/utils.rs:113-120 | true exactly when no list is ongoing |
| NoIntersection.AdvanceKeepsSeparated | sylvia/src/utils.rs:22-45 | one accepted step keeps passed names below all names to come in other lists and distinct from all passed ones |
| NoIntersection.AssertNoIntersection | sylvia/src/utils.rs:22-45 | always ends in bounds without reaching its unreachable!; panics only on a real overlap; on sorted lists if and only if two lists share a name; accepting takes one iteration per name |
| Router.SharedNameIffIntersects | sylvia-derive/src/contract/communication/enum_msg.rs:71-72 | sorting the declared names makes list overlap the same as a shared declared name |
| Router.CollisionAssert | sylvia-derive/src/contract/communication/wrapper_msg.rs:177-180 | the generated assert panics exactly when two parts declare the same name |
| Router.RoutesByOwner | sylvia-derive/src/types/interfaces.rs:71-92 | if the assert passes, a message goes to the one part that declares its name, or is reported as unsupported |
| Router.RoundTripIffNoSharedName | sylvia-derive/src/contract/communication/wrapper_msg.rs:191-226 | all wrapped messages come back in the same wrapper variant if and only if no name is shared |
| Router.AcceptsOnlyMessages | sylvia-derive/src/contract/communication/wrapper_msg.rs:191-226 | nothing but a serialized message of some part is accepted, without shared names every one is, and a malformed value has its own error |
| Router.OrderDoesNotMatter | sylvia-derive/src/contract/communication/wrapper_msg.rs:71-91 | any reordering of the parts gives the same error or the same message for the same part |
| ReplyTable.AsReplyData | sylvia-derive/src/contract/communication/reply.rs:189-225 | the loop over all declarations computes the specified table and diagnostics; without a duplicate, every name of every method has an entry with its handler, and the handlers of an entry are exactly those of the methods with a name of its id, in order and as often as declared |
| ReplyTable.DeclsAreListed | sylvia-derive/src/contract/communication/reply.rs:524-538 | the declarations are the pairs of a method and one of its names (its own if it lists none), method by method, and no others |
| ReplyDiagnostics.CleanIff | sylvia-derive/src/contract/communication/reply.rs:189-305 | nothing is reported if and only if every method has a payload, a raw one alone, and data only first and on success, and the declarations of one id neither exclude each other nor differ in payload |
| ReplyTable.FirstIdsAreTheIds | sylvia-derive/src/contract/communication/reply.rs:140-148 | the numbered ids are exactly the declared ones, each once |
| ReplyTable.DeclaredMembers | sylvia-derive/src/contract/communication/reply.rs:524-538 | the handlers listed for an id are exactly those some declaration gives it |
| ReplyTable.GroupingPreservesMeaning | sylvia-derive/src/contract/communication/reply.rs:189-225 | without a duplicate the table is numbered by first occurrence and each entry holds exactly its id's handlers in order |
| ReplyTable.DuplicateIffConflict | sylvia-derive/src/parser/attributes/msg.rs:104-109 | a duplicate is reported if and only if two declarations for one id exclude each other |
| ReplyTable.EntryShapes | sylvia-derive/src/contract/communication/reply.rs:198-218 | each entry is always, success, error, or success and error |
| ReplyDispatch.CompiledPayloadsAgree | sylvia-derive/src/contract/communication/reply.rs:242-305 | without diagnostics payloads are non-empty, single when raw, and of the same types for all handlers of an id |
| ReplyDispatch.PayloadRoundTrip | sylvia-derive/src/contract/communication/reply.rs:680-720 | what a setter was given is what the arm decodes; a raw payload is sent as it is, any other encoded |
| ReplyDispatch.EntriesFromFirst | sylvia-derive/src/contract/communication/reply.rs:242-271 | setter name, data and payload of an entry come from the first declaration of its id |
| ReplyDispatch.ArmFindsTheAnswer | sylvia-derive/src/contract/communication/reply.rs:422-515 | an arm calls the one declaration for its id that covers the result, or passes through when there is none |
| ReplyDispatch.ChainRepliesIffAnswered | sylvia-derive/src/contract/communication/reply.rs:326-348 | the chosen reply_on makes the chain call back if and only if some method declared for the id covers the result |
| ReplyDispatch.ReplyReachesDeclaredMethod | sylvia-derive/src/contract/communication/reply.rs:93-134 | end to end for a message built by a setter, for the setter's id: exactly the one method declared for that id that covers the result is called with the setter's values and told what it declared, or its response data does not decode; the call fits the method's parameters if and only if the entry keeps its data parameter; no other arm is reached |
| ReplyDispatch.SettersMatchHandlers | sylvia-derive/src/contract/communication/reply.rs:351-377 | a setter reaches only methods of the handler it is named after, and every declared handler has a setter, each if and only if no two declared handlers get the same id |
| ReplyDispatch.CollidingHandlers | sylvia-derive/src/contract/communication/reply.rs:189-212 | a concrete pair of handlers with one id that compiles without a diagnostic, where a failing message of one handler runs the method of the other |
| ReplyDispatch.ReplyReachesItsHandler | sylvia-derive/src/contract/communication/reply.rs:93-134 | if the ids keep handlers apart, the end-to-end statement holds for the handler the setter is named after |
| ReplyDispatch.ReplyReachesServingMethod | sylvia-derive/src/contract/communication/reply.rs:93-134 | the end-to-end statement over methods and the names they list |
| ReplyDispatch.RejectedReplies | sylvia-derive/src/contract/communication/reply.rs:118-126 | an id is reported as unknown exactly when it is past the table, and a payload that does not decode stops exactly the calls it is for |
| ReplyDispatch.LeadIsDeclared | sylvia-derive/src/contract/communication/reply.rs:430-457 | a method is told about the result what it declared if and only if it takes no data or its method is the first declared for the id |
| ReplyDispatch.UnansweredPassesThrough | sylvia-derive/src/contract/communication/reply.rs:459-513 | for any reply to a known id, pass-through happens if and only if no method declared for that id covers it |
| ReplyDispatch.ArmArgumentsMatch | sylvia-derive/src/contract/communication/reply.rs:430-457 | the generated call has the method's number of arguments under the same condition and no other |
| ReplyDispatch.DataDeclaredSecondIsDropped | sylvia-derive/src/contract/communication/reply.rs:274-305 | a concrete pair of methods that compiles without a diagnostic and gets a call one argument short |
| Whitelist.BinarySearch | examples/contracts/cw1-whitelist/src/whitelist.rs:61 | the search result its caller may rely on, with repeats in the slice |
| Whitelist.Contract.KeysToRemove | examples/contracts/cw1-whitelist/src/whitelist.rs:43-74 | the scan with the slice-relative index removes exactly the stored keys that are not requested |
| Whitelist.IndexMovesBack | examples/contracts/cw1-whitelist/src/whitelist.rs:61-66 | two adjacent stored keys for which the search index moves back |
| Whitelist.Contract.UpdateAdmins | examples/contracts/cw1-whitelist/src/whitelist.rs:30-87 | an accepted update leaves exactly the set of requested addresses |
| Whitelist.Contract.Freeze | examples/contracts/cw1-whitelist/src/whitelist.rs:19-28 | an admin makes the list immutable for good |
| Whitelist.Contract.AdminList | examples/contracts/cw1-whitelist/src/whitelist.rs:89-100 | the stored admins, each once, in order, and the flag |
| Whitelist.Contract.Instantiate | examples/contracts/cw1-whitelist/src/contract.rs:40-56 | stores the requested admins and the flag exactly when all addresses are valid |
| Whitelist.Contract.Execute | examples/contracts/cw1-whitelist/src/whitelist.rs:19-87 | each stored step is a step of the abstract (set, mutable) machine |
| Whitelist.StepByAdmin | examples/contracts/cw1-whitelist/src/whitelist.rs:19-41 | the exact reason a message is refused; the state changes only by an admin, to the requested set of a mutable list or by a freeze |
| Whitelist.AdminsChangeByAdmin | examples/contracts/cw1-whitelist/src/whitelist.rs:30-87 | over any run the admins change only if an admin of some moment sent an update to a list mutable then |
| Whitelist.AdminsComeFromLastUpdate | examples/contracts/cw1-whitelist/src/whitelist.rs:30-87 | after any run the admins are those of the last accepted update |
| Whitelist.AdminsStayWithoutUpdate | examples/contracts/cw1-whitelist/src/contract.rs:40-56 | or those of instantiation if no update was accepted |
| Whitelist.NothingChangesAfterFreeze | examples/contracts/cw1-whitelist/src/whitelist.rs:19-41 | after the first accepted freeze the state never changes again |
| Whitelist.FrozenOrEmptyIsFinal | examples/contracts/cw1-whitelist/src/contract.rs:58-60 | a frozen list, and an empty one, never change |
| Subkeys.Contract.IncreaseAllowance | examples/contracts/cw1-subkeys/src/contract.rs:69-116 | drops an expired entry, sets the date or insists on an unexpired one, adds the coin |
| Subkeys.Contract.DecreaseAllowance | examples/contracts/cw1-subkeys/src/contract.rs:119-167 | subtracts with saturation, fails on a missing denomination, removes an emptied entry |
| Subkeys.Contract.SetPermissions | examples/contracts/cw1-subkeys/src/contract.rs:170-193 | an admin replaces another account's permissions |
| Subkeys.Contract.IsAuthorized | examples/contracts/cw1-subkeys/src/contract.rs:281-331 | decides as specified and stores nothing |
| Subkeys.Contract.Execute | examples/contracts/cw1-subkeys/src/cw1.rs:18-34 | accepts exactly when every message is authorized by itself, and changes nothing |
| Subkeys.Contract.UpdateAdmins | examples/contracts/cw1-subkeys/src/whitelist.rs:23-31 | forwards to the embedded list |
| Subkeys.Contract.ExecuteCall | examples/contracts/cw1-subkeys/src/contract.rs:69-193 | one call with the chain's rollback is one step of the abstract machine |
| Subkeys.CallAccepted | examples/contracts/cw1-subkeys/src/contract.rs:69-193 | the plain reason each call is refused for, and acceptance exactly without one |
| Subkeys.EntriesChangeByAdmin | examples/contracts/cw1-subkeys/src/contract.rs:77-83 | an entry changes only by a message about it from an admin who is somebody else |
| Subkeys.RunEntriesChangeByAdmin | examples/contracts/cw1-subkeys/src/contract.rs:69-193 | over any run an account's allowance and permissions change only if an admin of some moment sent a message about it |
| Subkeys.SpenderEntry | examples/contracts/cw1-subkeys/src/contract.rs:84-190 | the date, the listed denominations and the permissions an accepted message leaves; an entry without tokens is gone |
| Subkeys.AdminsRunAsWhitelist | examples/contracts/cw1-subkeys/src/whitelist.rs:10-36 | over any run the embedded admin list runs the whitelist machine on the admin messages alone |
| Subkeys.StepEffective | examples/contracts/cw1-subkeys/src/contract.rs:69-167 | at its block a call moves every spender's effective balance in every denomination by exactly what it announces, and an increase leaves the allowance unexpired there |
| Subkeys.EffectiveIsBounded | examples/contracts/cw1-subkeys/src/contract.rs:195-205 | under a clock that never runs back: effective balance plus later decreases is at most the earlier one plus later increases |
| Subkeys.ExpiredIsGone | examples/contracts/cw1-subkeys/src/contract.rs:195-205 | once expired, at most the increases made afterwards are ever available |
| Subkeys.SubCoinsCovers | examples/contracts/cw1-subkeys/src/contract.rs:293-302 | the trial subtraction succeeds if and only if every denomination's total is within the balance and every coin, zero coins included, still finds its denomination listed |
| Subkeys.PositiveSendCovered | examples/contracts/cw1-subkeys/src/contract.rs:293-302 | without zero coins it succeeds exactly within the balance of each denomination |
| Subkeys.SendAuthorizedIff | examples/contracts/cw1-subkeys/src/contract.rs:293-302 | a send of a non-admin is authorized if and only if a live allowance covers every denomination in total and every coin finds its denomination listed |
| Subkeys.SendsAreBounded | examples/contracts/cw1-subkeys/src/contract.rs:293-302 | no send authorized after a run exceeds the earlier effective balance and later increases less decreases; after expiry, the later increases |
| Subkeys.PermissionForEachKind | examples/contracts/cw1-subkeys/src/contract.rs:303-329 | every staking and distribution message needs its own permission, other messages an admin |
| Subkeys.ZeroCoinRefused | examples/contracts/cw1-subkeys/src/contract.rs:298-301 | a concrete send within the balance that is refused because of a zero coin |
| Subkeys.ExecutingUsesNothingUp | examples/contracts/cw1-subkeys/src/cw1.rs:18-34 | executed messages deduct nothing: over any run without an admin message about the sender, it may do exactly what it could before |
| Subkeys.ListingsAreComplete | examples/contracts/cw1-subkeys/src/contract.rs:219-279 | both listings consist of pages, and reading to the end at one block gives exactly the unexpired allowances, and exactly the permissions |
| Generics.FindsTheGeneric | sylvia-derive/src/parser/check_generics.rs:97-100 | the first match is the only one, by distinct names |
| Generics.CheckGenerics.VisitPath | sylvia-derive/src/parser/check_generics.rs:96-111 | records the path itself and everything inside its arguments, each generic once, where a generic is meant by a whole path |
| Generics.CheckGenerics.UsedUnused | sylvia-derive/src/parser/check_generics.rs:80-89 | splits the parameters: each occurrence is on exactly one side, the unused ones in their own order |
| Generics.StrippedMentionsNoSelf | sylvia-derive/src/fold.rs:91-103 | a type stripped for emission mentions `Self` at no depth |
| Generics.StripsOnlySelf | sylvia-derive/src/fold.rs:91-103 | of a path only the segments named `Self` go; the others keep name, order and arguments, each stripped in turn |
| Generics.StripKeeps | sylvia-derive/src/fold.rs:91-103 | a type without `Self` is left as it is |
| Generics.StripKeepsGenerics | sylvia-derive/src/types/msg_field.rs:52-56 | stripping loses no generic, where `Self` is written without arguments |
| Generics.EmittedIsVisited | sylvia-derive/src/types/msg_variant.rs:46-63 | the types visited for a method are those emitted for it, except when the response is named `Self` |
| Generics.EmittedUses | sylvia-derive/src/types/msg_type.rs:212-221 | in every case the same parameters occur as whole paths in both |
| Generics.FilterWheres | sylvia-derive/src/utils.rs:17-39 | filters the predicates, in order, by whether all generics that occur in them as whole paths are used |
| Generics.NewMsgVariants | sylvia-derive/src/types/msg_variant.rs:191-226 | the emitted enum is closed in what occurs as a whole path: declared generics are exactly those occurring so in its emitted fields and `returns` attributes, which mention no `Self`; the others are unused; kept predicates are those in which only declared ones occur so; every generic a method is written with, in its parameters or response, is declared; the variants are exactly the methods of the type, in order |
| Generics.AllDeclaredIff | sylvia-derive/src/parser/check_generics.rs:96-111 | in a closed enum no emitted type or kept predicate has a path beginning with an undeclared parameter, if and only if every parameter that begins a longer path there also occurs alone in an emitted type |
| Generics.UndeclaredInKeptPredicate | sylvia-derive/src/utils.rs:17-39 | with `where T: Tr, T::Item: Bound` and a message that does not name `T`, the second predicate is kept and `T` is not declared |
| Generics.UndeclaredInField | sylvia-derive/src/types/msg_variant.rs:191-226 | a field of type `T::Item` alone leaves `T` undeclared |

## Left out

- The storage encoding: keys and prefixes of the maps; a map with keys in byte order stands for them.
- Token queries that only load a value.
- Receiver callbacks of Send and SendFrom are later, independent messages of the run.
- cw2 version handling beyond major.minor.patch; its source is not part of this repository.
- Subkeys.Contract: keeps balances as one amount per denomination; the coin vector inside `NativeBalance` is foreign code.
- Case conversion and serde renaming: a variant's wire tag is its name in the messages list, and reply ids come from an arbitrary naming function.
- ReplyDispatch.ReplyReachesDeclaredMethod: how response data is decoded is a parameter; only whether it decodes matters.
- ReplyDispatch.PayloadRoundTrip: JSON is any encoding that decodes at the encoded types, and both arms decode at the entry's types, which are those of every handler of the id.
- Sub-message converters for other message types, which build the same fields as the setter.
- Parsing of attributes and types, and every emitted token.
- Permission and balance queries, multitest helpers, entry points, remotes, builders and the other example contracts.
