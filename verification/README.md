# Origin: protocol invariants, modelled and proved in Dafny

Origin is a single-process identity service. Its handlers run atomically between `await`s and
coordinate only through bounded in-memory stores and conditional database updates, so what it
promises are invariants over interleaved steps. This project models those stores and steps and
proves the promises over every run.

Verify with `dafny verify dfyconfig.toml`.

## What is modelled

| module | system part |
|---|---|
| `SlidingWindow` | stamp lists, pruning, and when a truncated list may stand for a full one |
| `GuessBudget`, `GuessRuns`, `MailBudget` | the bounded ledger of password attempts and mail sends; whole runs of it, and what they admit |
| `OtpTable`, `OtpRuns`, `OtpUse`, `OtpWindow`, `OtpNewerCode`, `OtpCleanup`, `OtpDelivery` | one-time codes: the table, every interleaving of issuers, verifiers and cleanup, the bounds on guessing, what a newer code ends, what cleanup changes, and that the code mailed is the one compared |
| `KeyShares`, `CustodyTokens` | key-share custody with its write lock taken away; single-use custody tokens |
| `PasswordReset` | the two writers of a stored password: sign-in re-hash and mailed reset |
| `KdfAdmission` | the derivation admission counters |
| `AccountNotify` | the account-notice limiter |
| `PlatformSettings` | the settings table and the cache that mirrors it |
| `AuthCache`, `AuthCodes`, `AuthCodesLimit` | the pending-request and authorization-code dictionaries, the flow through them, and what happens at their limit |
| `Base64Url`, `PasswordHash` | the stored password-hash format and what verifying costs |
| `PersonIdentities`, `PersonService` | the identity table and who a sign-in belongs to |
| `Options` | the optional value |

Each store the source updates in place is a class (`Ledger`, `OtpService`, `ShareStore`, `Custody`,
`Store`, `Admission`, `Notices`, `Settings`, `Cache`, `AuthRouter`, `IdentityTable`, `Accounts`).
Its methods follow the source statement by statement and are proved equal to functions on values;
the runs (`Step`, `Run`) are built from those same functions, and the results are about runs.

Conventions:

- Caps, windows, lifetimes, budgets and counts are parameters. Times are integers.
- The clock is a parameter of every step and never goes back (`InTime`, `Timely`). Where a handler
  reads it twice the step takes both readings.
- Each stretch between `await`s is one step; a handler suspended at an `await` is an element of a
  multiset in the state, so any number of handlers interleave in any order, and one may never
  resume.
- The eviction draw is a parameter: what is proved holds for every draw.
- The key derivation, the cipher, SHA-256 and the comparison of a guess with a stored hash are
  uninterpreted functions. Fresh ciphertexts (`FreshCiphertexts`), fresh salts, reset tokens,
  authorization codes and handles (numbered as they are drawn) and a cipher that decrypts what it
  encrypted (`SealedOk`, `Truthful`) are the stated assumptions.

Where the code and its own documentation disagree, the model follows the code:

- `_limit_reached` says a window never yields more guesses at an address than the draw budget buys
  (`src/origin/services/otp_service.py:135-141`). Counted by when codes were issued this is true
  (`OtpRuns.IssueTimeBound`). Counted by when guesses are made it is not: a code issued just before
  a window can still be guessed at inside it. `OtpWindow.WindowBudgetHoldsIff` says for exactly
  which settings it holds; the deployed ones (15-minute window, 10-minute codes, three attempts) are
  not among them. What does hold is the budget plus one code's attempts (`OtpRuns.GuessTimeBound`).
- `supersede_live_for_email` is said to keep at most one code ever valid
  (`src/origin/db/otp_codes.py:86-90`). It retires unexpired codes only, so a comparison that outlives
  its own code's expiry still verifies after a newer code is issued. `OtpNewerCode` gives a run that
  does, for any settings under which codes are issued and guessed at, and the exact condition over
  every run: unused, expired, and being compared when the newer code is issued.
- `_grant_authorization_code` prunes between looking a code up and deleting it, so it fails on a code
  it has just pruned. `AuthCodes.TokenGrantsIff` is the exact condition, and `AuthCodesLimit` gives,
  for any limit, a run that ends in such a refusal of a proper presentation.
- A plain setting written without a value is cached as empty and reloads as absent
  (`PlatformSettings.CacheAgreesAfterBatch`).

## Model

| member | source | states |
|---|---|---|
| SlidingWindow.LiveIsSuffix | src/origin/services/guess_budget.py:193-195 | pruning a sorted stamp list drops exactly a dead prefix |
| SlidingWindow.StandsForCounts | src/origin/services/guess_budget.py:221-248 | a truncated, pruned list that stands for the full log agrees with it, now and later, on whether `cap` stamps are live |
| SlidingWindow.StandsForPruned | src/origin/services/guess_budget.py:193-195 | pruning keeps that relation |
| SlidingWindow.StandsForCharged | src/origin/services/guess_budget.py:246-247 | appending a stamp and keeping only the newest `cap` keeps it |
| SlidingWindow.MissingDeadStandsAtAnyCap | src/origin/services/account_notify.py:126-127 | a list that misses only dead stamps is one that stands for the log at every cap |
| GuessBudget.CapIsLargestAffordable | src/origin/services/guess_budget.py:46-67 | from two units up, a cap is at least so many units exactly when their draws stay within the stated probability; it is never below one, and a unit never costs less than one draw |
| GuessBudget.DrawsAreLargest | src/origin/services/guess_budget.py:46-53 | the draws of a window are the most whose chance stays within the stated probability, and at least one |
| GuessBudget.ForgetSound | src/origin/services/guess_budget.py:198-207 | dropping a key keeps the ledger invariant: keys distinct and exactly the stored ones, stamp lists non-empty and sorted, map order the order of last write |
| GuessBudget.CheckedSound | src/origin/services/guess_budget.py:221-234 | so does a check that prunes as it reads |
| GuessBudget.RoomedSound | src/origin/services/guess_budget.py:210-218 | making room keeps it and brings a full store under its bound |
| GuessBudget.ChargedSound | src/origin/services/guess_budget.py:237-248 | a charge keeps it and never exceeds the bound on keys |
| GuessBudget.LiveEvictionMeansNoneDead | src/origin/services/guess_budget.py:115-131 | a live key is evicted only when every tracked key is live |
| GuessBudget.OneDrawPerKey | src/origin/services/guess_budget.py:153-165 | the slot list and its inverse index the tracked keys one to one, so a uniform draw of a slot is a uniform draw of a key |
| GuessBudget.Ledger.constructor | src/origin/services/guess_budget.py:157-160 | an empty, valid store |
| GuessBudget.Ledger.Drop | src/origin/services/guess_budget.py:198-207 | forgets exactly that key; the swap-remove keeps the index an inverse |
| GuessBudget.Ledger.DropSlot | src/origin/services/guess_budget.py:201-207 | the last slot takes the dropped key's place, and the index stays exact |
| GuessBudget.Ledger.MakeRoom | src/origin/services/guess_budget.py:210-218 | the loop ends with the store under its bound, having given up the front when dead and otherwise some drawn key |
| GuessBudget.Ledger.Spent | src/origin/services/guess_budget.py:221-234 | answers whether `cap` stamps are live and leaves the store pruned at that key and otherwise unchanged |
| GuessBudget.Ledger.Charge | src/origin/services/guess_budget.py:237-248 | one more stamp for the key, now the most recently written, at most `cap` kept, room made only for a new key |
| GuessBudget.SpendPasswordAttempt | src/origin/services/guess_budget.py:273-289 | admits exactly when the window is unspent, and charges exactly then |
| GuessBudget.ClearPasswordFailures | src/origin/services/guess_budget.py:317-324 | forgets the identifier's attempts and nothing else |
| GuessBudget.PairKeyInjective | src/origin/services/guess_budget.py:477-478 | two (address, network) pairs share a key exactly when they are the same pair, networks being free of the separator |
| GuessBudget.PairKeysMeetIff | src/origin/services/guess_budget.py:461-478 | two different networks can share a key, under some two addresses, exactly when one ends in the separator followed by the other |
| GuessBudget.PairKeyCollision | src/origin/services/guess_budget.py:461-478 | so a client string that holds the separator can spend another client's budget: one literal case |
| GuessBudget.MailSendsExhausted | src/origin/services/guess_budget.py:489-522 | refuses when the pair, the address or an unlisted client has spent its cap, in that order, pruning only what it looked at |
| GuessBudget.RecordMailSend | src/origin/services/guess_budget.py:525-533 | charges the pair, the address and an unlisted client once each, under their own caps |
| GuessRuns.SendIsCheckThenCharge | src/origin/routers/auth_router.py:2816-2825 | a mail step of a run is exactly the check and then the triple charge on the store |
| GuessRuns.GatedRate | src/origin/services/guess_budget.py:221-248 | on any log whose charges were each made with room, a window holds at most one cap of charges and one more per forgetting |
| GuessRuns.RunKeeps | src/origin/services/guess_budget.py:193-248 | the ledger invariant, the key bound and the relation to the log hold after every run |
| GuessRuns.LedgerRefinesLog | src/origin/services/guess_budget.py:193-248 | after any run a key reads spent exactly when the unbounded log holds `cap` live charges since it was last cleared or evicted live; an evicted key only under-counts, so nobody is refused without `cap` real charges |
| GuessRuns.RateBound | src/origin/services/guess_budget.py:273-289 | in any half-open window a key's admitted charges number at most `cap * (1 + clears and live evictions in it)` |
| GuessRuns.PairsWithinCaps | src/origin/services/guess_budget.py:489-533 | any set of pairs not evicted live in a window was charged at most the pair cap times its size |
| GuessRuns.FewClientsNeverExhaustAddress | src/origin/services/guess_budget.py:354-388 | fewer client networks than the address cap is made for never spend an address's mail, absent live eviction of their pairs |
| MailBudget.SendAdmittedIff | src/origin/services/guess_budget.py:489-522 | after any run a send goes through exactly when the live charges are fewer than the pair cap for the address and network, than `clients` times it for the address and, for an unlisted network, than `people` times it for the network |
| MailBudget.SendCharges | src/origin/services/guess_budget.py:525-533 | a send that goes through charges each of the budgets it looked at once and no other; a refused one charges nothing |
| MailBudget.BudgetsAreApart | src/origin/services/guess_budget.py:461-478 | every address and every network has its own budget, and no budget of one kind is one of another |
| MailBudget.AttemptAdmittedIff | src/origin/services/guess_budget.py:273-289 | after any run a password attempt is admitted, and charged once, exactly when fewer than the cap are live for its identifier |
| MailBudget.ClearedStartsAnew | src/origin/services/guess_budget.py:317-324 | a cleared identifier has its whole budget again |
| MailBudget.CheckKeepsOnlyLive | src/origin/services/guess_budget.py:221-234 | after a check a key is tracked exactly when it has live stamps, and holds those alone; no other key is touched |
| MailBudget.StoreStaysBounded | src/origin/services/guess_budget.py:210-248 | over every run the store holds at most the limit of keys and at most its cap of stamps for each |
| MailBudget.ChargeLosesOneAtMost | src/origin/services/guess_budget.py:115-131 | a charge costs at most one other key its stamps, only when a new key meets a full store, and a live one only when all tracked are live |
| MailBudget.AnyKeyMayGo | src/origin/services/guess_budget.py:210-218 | when all are live any tracked key can be the one given up, and then it alone is |
| OtpTable.Latest | src/origin/db/otp_codes.py:46-67 | the lookup finds a claimable code of the address, the newest of them, or none when there is none |
| OtpTable.Superseded | src/origin/db/otp_codes.py:85-101 | retires exactly the address's unused unexpired codes |
| OtpTable.Claimed | src/origin/db/otp_codes.py:104-127 | spends one attempt of the code exactly if it is still live and under its cap |
| OtpTable.Used | src/origin/db/otp_codes.py:130-138 | marks the code used exactly if it is unused |
| OtpTable.Retained | src/origin/db/otp_codes.py:141-147 | keeps exactly the codes not past their retention |
| OtpTable.OtpService.BeginIssue | src/origin/services/otp_service.py:168-176 | goes on to hash exactly when the limit is not reached, and writes nothing |
| OtpTable.OtpService.FinishIssue | src/origin/services/otp_service.py:181-200 | issues exactly when the limit, read again, is not reached: supersedes and inserts in one step |
| OtpTable.OtpService.BeginVerify | src/origin/services/otp_service.py:242-249 | one lookup and one attempt spent on what it found |
| OtpTable.OtpService.FinishVerify | src/origin/services/otp_service.py:260-278 | verifies exactly when the guess matches, the person is admitted and nothing used the code meanwhile; otherwise rolls back |
| OtpTable.OtpService.CleanupExpired | src/origin/services/otp_service.py:281-284 | deletes exactly the codes past retention and counts them |
| OtpRuns.StepTable | src/origin/services/otp_service.py:156-284 | every step keeps: of two codes of an address the older is closed, and each code was issued with room for all its attempts in the budget |
| OtpRuns.MissesWithinBudget | src/origin/services/otp_service.py:143-145 | in such a table the attempts on an address's codes of the last window sum to at most the draw budget |
| OtpRuns.IssueTimeBound | src/origin/services/otp_service.py:132-146 | so do they in every reachable state |
| OtpRuns.GuessTimeBound | src/origin/services/otp_service.py:132-146 | under every interleaving, in any window of real time the guesses at an address are at most the budget on codes created in it, plus one older code's attempts |
| OtpWindow.RunPrompt | src/origin/services/otp_service.py:242-246 | every guess is claimed before its code expires, and none is taken when one code costs more than the budget |
| OtpWindow.WindowBudgetHoldsIff | src/origin/services/otp_service.py:135-141 | the documented per-window bound holds over every run exactly when codes are never issued or cannot outlive the start of a window; otherwise a run passes it |
| OtpWindow.BudgetExceeded | src/origin/services/otp_service.py:135-141 | under all other settings, a reachable run passes it although it never has two handlers suspended at once |
| OtpUse.OneLiveCode | src/origin/db/otp_codes.py:85-101 | at most one code per address is live, in every reachable state |
| OtpUse.AttemptsAndSingleUse | src/origin/db/otp_codes.py:104-138 | a code is compared at most its cap of times and at most one verification of it succeeds |
| OtpUse.SpentForever | src/origin/db/otp_codes.py:130-138 | a code used or retired verifies nothing in any continuation of the run |
| OtpUse.NoUseOnceSuperseded | src/origin/services/otp_service.py:260-264 | no verification of an unexpired code succeeds once a newer code is issued, also not one whose comparison was under way |
| OtpNewerCode.VerifiesAfterNewerIff | src/origin/db/otp_codes.py:85-101 | after any run, when a newer code is issued, a code of the address not verified yet verifies in some continuation exactly when it had expired, unused, with a comparison of it under way |
| OtpNewerCode.ExpiredComparisonStillVerifies | src/origin/services/otp_service.py:255-264 | a reachable run that does so, for any settings under which a code is issued and may be guessed at |
| OtpNewerCode.NewerCodeEndsOlderIff | src/origin/db/otp_codes.py:86-90 | a newer code ends every older one of its address over all runs exactly for settings under which no code is ever guessed at |
| OtpUse.CleanupChangesNoDecision | src/origin/db/otp_codes.py:141-147 | with and without the cleanup job every run finds the same codes and reaches the same limit decisions |
| OtpCleanup.CleanedIsAmongKept | src/origin/db/otp_codes.py:141-147 | the cleaned table holds only rows that a table never cleaned holds too, with the same attempts and use marks |
| OtpCleanup.LostOnlyWithItsRow | src/origin/db/otp_codes.py:130-147 | a verification that would win is lost to the cleanup exactly when its code's row is deleted, at the earliest a retention after expiry |
| OtpCleanup.SameVerificationsIff | src/origin/services/otp_service.py:255-284 | a run verifies the same codes with and without cleanup exactly when no winning comparison ends after its row is gone; cleanup never adds one |
| OtpDelivery.RowsCarryMailed | src/origin/services/otp_service.py:178-200 | over every run each stored code has the address and the hash it was issued with, under an id issued once |
| OtpDelivery.VerifiedOnlyByItsCode | src/origin/services/otp_service.py:246-278 | over every interleaving a code verifies only by a guess that matches the hash mailed under its id, the comparison being any function of the two |
| OtpDelivery.MailedCodeVerifies | src/origin/services/otp_service.py:156-278 | after an issue, whatever happens at other addresses, the first guess at the address before the code expires is compared with the hash issued, and verifies the code exactly when it matches |
| OtpDelivery.IssuesIffRoom | src/origin/services/otp_service.py:132-183 | a code is hashed, and then issued, exactly when the guesses of the window leave room in the budget for all of its own |
| OtpDelivery.VerifiesIff | src/origin/services/otp_service.py:255-278 | a comparison under way verifies exactly when the guess matched, the person is admitted and the code is stored and unused |
| KeyShares.ShareStore.Store | src/origin/services/key_shares.py:112-148 | under the lock: stored exactly when nothing was; unchanged exactly when the row there is this very share, readable; a conflict exactly when the check values differ and `supersedes` does not name the old one; otherwise replaced. Stored and replaced leave the sealed share, the others nothing |
| KeyShares.ShareStore.ReleaseShare | src/origin/services/key_shares.py:106-109 | absent exactly when no row is stored, unreadable exactly when there is one that does not decrypt, and otherwise exactly the share it holds |
| KeyShares.EveryWriteActedOnWhatItRead | src/origin/services/key_shares.py:119-148 | with no lock and any interleaving of reads and writes, each successful write replaced exactly the row it read, a check value changed only to a caller whose `supersedes` names it, and a conflict changed nothing |
| KeyShares.OneFirstInsert | src/origin/services/key_shares.py:121-129 | of all callers that found nothing stored at most one stores |
| KeyShares.StoredIsLastWritten | src/origin/services/key_shares.py:138-148 | what is stored at the end is what the last successful caller left |
| KeyShares.SuccessLeavesItsShare | src/origin/services/key_shares.py:112-148 | given that each ciphertext decrypts to what it sealed, every call of every interleaving that does not end in a conflict ends with a row that opens to its own share |
| KeyShares.OutcomesMean | src/origin/services/key_shares.py:119-148 | what each outcome says, over every interleaving: a conflict, that the row changed under the call or is of a key it does not supersede; stored, that there was none; unchanged, that the row there is its share |
| KeyShares.CallAlone | src/origin/services/key_shares.py:112-148 | a call nothing interleaves with always ends, in a conflict exactly over a check value that is neither its own nor superseded, and unchanged exactly when its share is there |
| CustodyTokens.Custody.SpendToken | src/origin/services/key_shares.py:151-161 | purges and records in one transaction; a replay undoes both |
| CustodyTokens.Custody.Bound | src/origin/routers/key_share_router.py:66-93 | accepts only a token signed for this call to live at most sixty seconds, if it is not a replay; one not bound is refused without being spent, with the first reason in the order of the source |
| CustodyTokens.BoundIffSignedForIt | src/origin/routers/key_share_router.py:66-93 | the tokens bound to a call are exactly those signed for its method, path and principal, to live at most sixty seconds, under an identifier of 8 to 128 characters; no token is bound to two calls |
| CustodyTokens.AcceptedOnce | src/origin/services/key_shares.py:151-161 | a token spent within the grace of a successful verification is accepted at most once over any run, although records are deleted |
| CustodyTokens.AcceptedIffLapsed | src/origin/services/key_shares.py:151-161 | over any run a presentation is accepted exactly when every earlier acceptance of its identifier has lapsed: this presentation, or one accepted since, reads the clock past that acceptance's expiry plus the grace |
| CustodyTokens.AcceptedTwiceWhenLate | src/origin/services/key_shares.py:153-154 | without promptness a token is accepted twice, its record purged by another token's presentation although its own reads the clock within the grace |
| PasswordReset.Store.ReplacePasswordHash | src/origin/db/persons.py:62-74 | replaces exactly when the stored hash is still the expected one |
| PasswordReset.Store.IssueResetToken | src/origin/routers/auth_router.py:3136-3147 | drops expired links and stores one naming the account's present hash |
| PasswordReset.Store.ResetClaims | src/origin/routers/auth_router.py:3150-3160 | a stored unexpired link's claims, else none |
| PasswordReset.Store.CommitReset | src/origin/routers/auth_router.py:3222-3228 | sets the password exactly when the link still applies, and drops every link of the account with it |
| PasswordReset.StepAccepts | src/origin/routers/auth_router.py:1173-1205 | one step changes the password an account accepts only by committing a reset, and then to the one its link's holder sent |
| PasswordReset.AcceptsLastReset | src/origin/routers/auth_router.py:1173-1205 | over any interleaving an account accepts the password of the last reset committed for it, or the one it began with: re-hashes never change it |
| PasswordReset.ResetUsesALaterLink | src/origin/routers/auth_router.py:3163-3168 | no link minted before a reset committed for its account succeeds after it, and no link sets two passwords, on one account or on two |
| PasswordReset.ResetsAreConfirmedInTime | src/origin/routers/auth_router.py:3150-3212 | every reset committed in any run was begun by a confirmation with its link and its password, made before the expiry that link was mailed with |
| PasswordReset.LiveLinkSetsPassword | src/origin/routers/auth_router.py:3136-3228 | a link mailed and not discarded since, confirmed before it expires while its account answers to it, sets the password its holder chose |
| PasswordReset.LinkStaysStored | src/origin/routers/auth_router.py:3136-3147 | a stored link stays, and says the same, until it expires and another is asked for, or its account is reset |
| PasswordReset.MailedIff | src/origin/routers/auth_router.py:3110-3147 | a link is stored exactly for an active account with a password or a confirmed address, and names its present hash |
| PasswordReset.ConfirmBeginsIff | src/origin/routers/auth_router.py:3208-3212 | a confirmation goes on to derive exactly when its link is stored, unexpired, and still names the hash of an account that may be reset |
| PasswordReset.ResetCommitsIff | src/origin/routers/auth_router.py:3216-3228 | after the derivation it commits exactly when the link still does, and then the account accepts the new password |
| PasswordReset.CommitDropsLinks | src/origin/routers/auth_router.py:3225-3227 | a committed reset leaves no link of its account and every link of another |
| PasswordReset.RehashBeginsIff | src/origin/routers/auth_router.py:1193-1196 | a verified sign-in is re-hashed exactly when its stored hash is of fewer rounds than configured |
| PasswordReset.RehashReplacesIff | src/origin/db/persons.py:62-74 | the re-hash replaces exactly the hash that was verified, by one of the same password |
| PasswordReset.OnlyHashesChange | src/origin/routers/auth_router.py:1173-1228 | no step closes an account, and none but a re-hash or reset of its own changes its hash |
| KdfAdmission.Admission.KdfAdmit | src/origin/services/auth_service.py:370-406 | refuses at the ceiling, then at the client's cap, and counts an admission in both places; a refusal changes no count |
| KdfAdmission.Admission.KdfRelease | src/origin/services/auth_service.py:409-418 | takes the admission out of both counts and drops a key at zero |
| KdfAdmission.RunConserves | src/origin/services/auth_service.py:370-418 | when each admission is released once, the total and the per-client counts equal the outstanding admissions, stay within both limits and hold no zero entry, after every run |
| KdfAdmission.AdmittedIffRoom | src/origin/services/auth_service.py:370-406 | after any run a request is refused as busy exactly when the outstanding admissions fill the queue and the threads, and otherwise exactly when its client has its cap outstanding |
| KdfAdmission.ClampsNeverReached | src/origin/services/auth_service.py:412-418 | in such a run neither clamp of the release is ever needed |
| KdfAdmission.AllReleasedIsIdle | src/origin/services/auth_service.py:370-418 | when everything is released the counters are as at the start |
| AccountNotify.Notices.AdmitNotice | src/origin/services/account_notify.py:122-134 | pops what has aged out, then sends, pauses or holds as the hour allows |
| AccountNotify.NoticesPerHour | src/origin/services/account_notify.py:122-134 | any half-open hour of any run holds at most the stated number of sends and at most one pause |
| AccountNotify.WithheldIffHourFull | src/origin/services/account_notify.py:122-134 | a notice is withheld exactly when that many sends lie in the preceding hour, and silently exactly when a pause does too |
| PlatformSettings.Settings.LoadAll | src/origin/services/platform_settings_service.py:101-110 | rebuilds the cache from the rows, whatever the order they come in |
| PlatformSettings.Settings.SetValue | src/origin/services/platform_settings_service.py:138-189 | refuses exactly a reserved key, writes the row as classified, and mirrors it only once committed |
| PlatformSettings.Settings.ApplyToCache | src/origin/services/platform_settings_service.py:191-203 | the key ends in exactly one of the two maps |
| PlatformSettings.Settings.SetMany | src/origin/services/platform_settings_service.py:205-237 | a batch commits whole or not at all; at a reserved key neither the committed rows nor the cache change, and the session holds exactly the writes before it |
| PlatformSettings.Settings.CloseSession | src/origin/db/session.py:157-163 | the end of a request drops what was not committed |
| PlatformSettings.CacheAgreesAfterBatch | src/origin/services/platform_settings_service.py:191-249 | after a batch the cache equals a reload of the table exactly when every key is left with a string, duplicates and plain/secret changes included |
| PlatformSettings.NeverTalkedOutOfEncrypting | src/origin/services/platform_settings_service.py:150-160 | a key the server calls secret is never stored in the clear, whatever callers ask |
| PlatformSettings.ClassifiedIff | src/origin/services/platform_settings_service.py:51-93 | a key is reserved exactly when its lower case begins with the reserved prefix, and secret exactly when reserved or one of seven words occurs in its lower case, four named keys excepted |
| PlatformSettings.LowerIs | src/origin/services/platform_settings_service.py:79-92 | lower case changes the letters A to Z and nothing else |
| PlatformSettings.ReadsIff | src/origin/services/platform_settings_service.py:101-148 | what a reload reads of any rows: nothing reserved, a plain row that has a value, a secret row whose ciphertext decrypts |
| PlatformSettings.NeverInBothColumns | src/origin/services/platform_settings_service.py:160-189 | a row holds a value or a ciphertext, as its flag says, never both |
| PlatformSettings.AskedIsSealed | src/origin/services/platform_settings_service.py:150-160 | a caller that asks for encryption gets it, for any key |
| PlatformSettings.CacheAlwaysAgrees | src/origin/services/platform_settings_service.py:101-248 | over every run of batches of strings, refused ones and the closing of their sessions included, the cache equals a reload |
| PlatformSettings.UnclosedRefusalAgreesIff | src/origin/services/platform_settings_service.py:219-237 | were a refused batch's session used on, the cache would agree exactly when every key the refused batch wrote and the next does not overwrite already read that way |
| AuthCache.PruneKeepsNewestUnexpired | src/origin/routers/auth_router.py:643-658 | pruning keeps exactly the newest unexpired entries up to the limit |
| AuthCache.Cache.Pop | src/origin/routers/auth_router.py:652-658 | removes exactly the key's entry |
| AuthCache.Cache.Expired | src/origin/routers/auth_router.py:646-650 | collects the keys of exactly the expired entries |
| AuthCache.Cache.Prune | src/origin/routers/auth_router.py:643-658 | the two loops together leave what pruning by age and then by count leaves |
| AuthCodes.AuthRouter.PruneAuthCache | src/origin/routers/auth_router.py:643-658 | prunes both dictionaries |
| AuthCodes.AuthRouter.Authorize | src/origin/routers/auth_router.py:1647-1695 | stores a request under a fresh handle exactly when its challenge and provider are allowed |
| AuthCodes.AuthRouter.AuthorizeFederate | src/origin/routers/auth_router.py:1435-1447 | rewrites the provider of a local pending request in place, and nothing else of it |
| AuthCodes.AuthRouter.CompleteLocalSignin | src/origin/routers/auth_router.py:1093-1115 | drops the request, prunes, and mints a code on its terms |
| AuthCodes.AuthRouter.CompleteCallback | src/origin/routers/auth_router.py:1787-1810 | prunes, mints on the request's terms and prunes again |
| AuthCodes.AuthRouter.TokenEndpoint | src/origin/routers/auth_router.py:1856-1869 | refuses a request with an empty client, redirect or verifier before any code is looked up, and otherwise grants exactly when the abstract step records a grant |
| AuthCodes.AuthRouter.GrantAuthorizationCode | src/origin/routers/auth_router.py:1913-1937 | the checks in their order; grants exactly when the abstract step records a grant, and the code is then gone |
| AuthCodes.AuthRouter.LinkProvider | src/origin/routers/auth_router.py:3415-3435 | the same for linking, which neither prunes nor names a client |
| AuthCodes.StepKeeps | src/origin/routers/auth_router.py:636-658 | every step keeps both dictionaries distinct, in time order and at most one over the limit, and every stored code traceable to its request |
| AuthCodes.CodesConsumedOnce | src/origin/routers/auth_router.py:1937 | a code is redeemed at most once over any run, at whichever of the two routes (section 4.1.2 of RFC 6749) |
| AuthCodes.GrantAnswersItsRequest | src/origin/routers/auth_router.py:1918-1937 | every grant named the client and redirect of the one `/authorize` request its code came from, came within the code's lifetime, and, where the request had a challenge, presented a non-empty verifier that is the challenge or, under S256, has it as its hash (section 4.6 of RFC 7636) |
| AuthCodes.LinkAnswersItsRequest | src/origin/routers/auth_router.py:3415-3435 | every link named that request's redirect, came within the lifetime and presented such a verifier |
| AuthCodes.CachesStayBounded | src/origin/routers/auth_router.py:654-658 | neither dictionary is ever more than one over its limit |
| AuthCodes.TokenGrantsIff | src/origin/routers/auth_router.py:1857-1937 | `/token` grants exactly when the request is complete, the code is stored and this very call does not prune it as the one entry over the limit, client and redirect match, it is in time, and a challenge equals the verifier or, under S256, its hash |
| AuthCodes.LinkRedeemsIff | src/origin/routers/auth_router.py:3415-3435 | `/me/link-provider` links exactly when the code is stored, the redirect matches, it is in time, and a challenge is answered, by the same formula, with a non-empty verifier |
| AuthCodes.AuthorizeStoresIff | src/origin/routers/auth_router.py:1647-1695 | a request is stored, as the newest, exactly when its challenge is absent, or of 43 to 128 characters with a known method, and its provider is local or registered |
| AuthCodes.LocalBeginsIff | src/origin/routers/auth_router.py:947-953 | a local sign-in goes on exactly while its request is pending and local |
| AuthCodes.CallbackBeginsIff | src/origin/routers/auth_router.py:1743-1745 | a callback goes on exactly while its request is pending |
| AuthCodes.FederateRewrites | src/origin/routers/auth_router.py:1435-1447 | federation changes the provider of that one local request, to a registered one, and nothing else |
| AuthCodes.LocalSignInMints | src/origin/routers/auth_router.py:1093-1115 | the code minted carries the client, redirect, challenge and method of the request looked up, and the request is gone |
| AuthCodes.CallbackMints | src/origin/routers/auth_router.py:1787-1810 | so does a code minted by a callback |
| AuthCodes.CodeStays | src/origin/routers/auth_router.py:643-658 | no step takes away an unexpired code that is not presented, while there is room |
| AuthCodes.RequestStays | src/origin/routers/auth_router.py:643-658 | nor an unexpired request, but for the local sign-in that completes it; its terms never change |
| AuthCodesLimit.ProperCodeRefused | src/origin/routers/auth_router.py:1857-1937 | for any limit a run of sign-ins that never overlap fills the dictionary to one over it, and the next complete and proper presentation of its oldest code is not granted |
| AuthCodesLimit.ProperAlwaysGrantedIff | src/origin/routers/auth_router.py:1857-1937 | a stored code presented completely, on its own terms and in time is granted over every run only for a lifetime under which none ever is in time |
| Base64Url.DecodeEncode | src/origin/services/auth_service.py:535-540 | every byte string is decoded from its unpadded base64url encoding (section 5 of RFC 4648) |
| Base64Url.EncodedPlain | src/origin/services/auth_service.py:535-536 | an encoding is ASCII and free of the format's separator |
| Base64Url.EncodingVectors | src/origin/services/auth_service.py:535-536 | the test vectors of section 10 of RFC 4648, and one of the URL-safe characters |
| Base64Url.LenientCharacters | src/origin/services/auth_service.py:539-540 | the decoder reads the other alphabet's two characters as these, and skips every character of neither |
| PasswordHash.ParseDecimal | src/origin/services/auth_service.py:486 | a printed count reads back as itself |
| PasswordHash.ParseGrouped | src/origin/services/auth_service.py:486 | an underscore between digits is passed over, and refused doubled or at the end |
| PasswordHash.SplitJoin | src/origin/services/auth_service.py:482 | the four fields are split back as they were joined |
| PasswordHash.VerifyAcceptsWhatWasHashed | src/origin/services/auth_service.py:455-495 | a printed hash is accepted for exactly the passwords that derive alike, the one hashed among them, whatever count is configured by then, at the cost of the larger count |
| PasswordHash.VerifiesIff | src/origin/services/auth_service.py:471-501 | of any four fields a password verifies exactly when it is not empty, the algorithm is the one named, the count is in range, both byte strings decode and it derives the second from the first; of three fields none does |
| PasswordHash.EmptyNeverVerifies | src/origin/services/auth_service.py:471-480 | nothing verifies without a password or without a stored hash, and nothing is spent on it |
| PasswordHash.EveryVerifyCostsConfigured | src/origin/services/auth_service.py:471-501 | for any stored string at all, a verification costs at least the configured rounds: exactly those when it does not parse, the larger of the two counts when it does |
| PasswordHash.RoundsTellNothing | src/origin/services/auth_service.py:472-477 | a verification spends what a sign-in naming no account spends, whatever is stored, exactly unless the hash was written at a count above the configured one |
| PasswordHash.CurrentUntilRaised | src/origin/services/auth_service.py:504-522 | a hash is current exactly until the configured count is raised past its own |
| PasswordHash.CurrentIff | src/origin/services/auth_service.py:504-522 | of any four fields a hash is current exactly when it names the algorithm and its count reads as a number not below the configured one; no hash, or three fields, never is |
| PersonIdentities.GetByIdentity | src/origin/db/person_identities.py:26-40 | a row of the identity, or none when no row has it |
| PersonIdentities.LookupFindsNamed | src/origin/db/person_identities.py:26-40 | under the unique index the lookup answers exactly who the table names |
| PersonIdentities.RemovedIsScoped | src/origin/db/person_identities.py:78-93 | removal takes the named person's row for that identity and no other, and reports whether there was one |
| PersonIdentities.RemovalCostsAtMostOne | src/origin/db/person_identities.py:78-105 | a removal costs its person at most one verified identity and nobody else any |
| PersonIdentities.TwoAreCounted | src/origin/db/person_identities.py:96-105 | the count reaches two exactly when two rows are the person's and verified |
| PersonIdentities.IdentityTable.Add | src/origin/db/person_identities.py:52-75 | adds the row exactly when no row has the identity; otherwise the unique index refuses it and nothing changes |
| PersonIdentities.IdentityTable.Remove | src/origin/db/person_identities.py:78-93 | the scoped removal and its count |
| PersonIdentities.IdentityTable.CountVerifiedOf | src/origin/db/person_identities.py:96-105 | the number of the person's verified rows |
| PersonService.StepKeeps | src/origin/services/person_service.py:84-331 | every operation keeps both unique indexes and the foreign key, so none of them is ever violated by an insert |
| PersonService.RefusalChangesNothing | src/origin/services/person_service.py:131-331 | a refused operation changes neither table |
| PersonService.NamedIdentitySignsIn | src/origin/services/person_service.py:136-157 | an identity the table names signs in as that person whatever address is asserted, unless the allow-list refuses or another account holds the address |
| PersonService.NamedSignInWrites | src/origin/services/person_service.py:138-157 | such a sign-in follows the asserted address, confirmed only if vouched for or unchanged, and touches no password and no other account |
| PersonService.NewAccountIsUnclaimed | src/origin/services/person_service.py:196-211 | a sign-in opens an account only for an identity and an address nobody holds, without a password, confirmed only if vouched for |
| PersonService.UnheldIdentitySignsIn | src/origin/services/person_service.py:160-211 | an identity nobody holds joins the account at its address when both sides proved it, is refused when either did not, and opens an account when no account has the address |
| PersonService.AllowListDecides | src/origin/services/person_service.py:131-134 | nobody the operator does not allow is signed in, whatever the tables say, and nobody allowed is refused for it |
| PersonService.LinksIff | src/origin/services/person_service.py:267-297 | a link goes through exactly when nobody, or the account itself, holds the identity, and then the account holds it |
| PersonService.LocalSignInNames | src/origin/routers/auth_router.py:1076-1092 | a local sign-in leaves the account's own identity naming it, unless another account holds that |
| PersonService.SameIdentitySamePerson | src/origin/services/person_service.py:136-211 | over any run, once an identity has resolved to a person every later sign-in or link that succeeds with it resolves to the same person, until that person unlinks it |
| PersonService.JoinsOnlyOnProvenAddress | src/origin/services/person_service.py:160-194 | a sign-in joins an existing account only on an address both the provider vouches for and the account has confirmed, and fills in only an empty name or picture |
| PersonService.UnlinkLeavesAWayIn | src/origin/services/person_service.py:308-331 | an unlink goes through exactly when the account holds the identity and has a password or two verified identities, and then leaves a password or one of them |
| PersonService.UnlinkRefusals | src/origin/services/person_service.py:308-331 | why one is refused: no such account; else no password and no second verified identity; else nothing to unlink |
| PersonService.NeverLockedOut | src/origin/services/person_service.py:308-331 | an account that can be signed in to still can after every continuation of every run in which no edit drops its password |
| PersonService.EveryIdentityWasAttached | src/origin/services/person_service.py:98-128 | after any run, an identity naming an account was linked by that account, is its own local one written by a local sign-in, opened the account, or matched an address both sides had proved, and has not been unlinked from it since |
| PersonService.Accounts.GetOrCreateByOidcIdentity | src/origin/services/person_service.py:84-211 | the three cases in their order, with what each writes |
| PersonService.Accounts.Refresh | src/origin/services/person_service.py:138-157 | a known identity's account takes the asserted address, unconfirmed unless vouched for, or is rolled back when another account holds it |
| PersonService.Accounts.FillEmpty | src/origin/services/person_service.py:186-189 | a joined account has only what is empty filled in |
| PersonService.Accounts.LinkIdentity | src/origin/services/person_service.py:267-297 | links, repeats without effect, or refuses another account's identity |
| PersonService.Accounts.UnlinkIdentity | src/origin/services/person_service.py:308-331 | the last way in is refused before anything is removed |

## Left out

- HTTP routing, pages, mail delivery, logging (rate-limited log lines included), configuration loading and migrations.
- JWT signing and verification, WebAuthn, bcrypt, Fernet, PBKDF2 and SHA-256 themselves: uninterpreted functions here.
- Client networks and the shared-network list: the model takes a client's network, and whether it is listed, as given.
- Normalising identifiers, addresses and display names (stripping, lower-casing, the database's case-insensitive columns): values are taken as normalised.
- GuessBudget.CapIsLargestAffordable: caps are computed over reals; the rounding of the floating-point product is not modelled.
- A wall clock stepped backwards: every store here assumes it never is.
- Validation of share fields and principal ids before custody code runs.
- OtpTable.OtpService.BeginVerify: does not model the comparison spent when no code is live, which equalises timing and touches no state.
- CustodyTokens.AcceptedOnce: requires that a token is spent within the grace of its verification; the time a request takes is not modelled. `AcceptedIffLapsed` is the exact condition without it, and `AcceptedTwiceWhenLate` a run that needs it.
- PasswordReset.AcceptsLastReset: removing an account's password, or an operator restoring one, while a reset is in flight is not modelled; nor is the password policy checked before a reset.
- PasswordReset.Store.ResetClaims: tokens are numbered as they are minted; refusing a presented string over 128 characters, which no minted token is, is not modelled.
- GuessRuns.RateBound: a key charged without a check in the same step (`record_password_failure`) is outside it, and the probability that an eviction hits a given key is not modelled.
- PlatformSettings.Settings.SetValue: the `category` and `updated_by` columns are not modelled, and lower-casing is ASCII only.
- AuthCodes.AuthRouter.Authorize: client registration, redirect and sign-in-method checks before the request is stored, scope, state and the first operator's setup token are not modelled.
- AuthCodes.AuthRouter.AuthorizeFederate: the expected issuer, and a suspended handler seeing a provider rewritten meanwhile, are not modelled; nothing a code is minted from depends on either.
- AuthCodes.AuthRouter.CompleteCallback: the upstream exchange between the lookup and the minting may fail at any point; the handler then never resumes.
- PasswordHash.ParseDecimal: counts are read as ASCII; other Unicode digits and the interpreter's limit on digits are not modelled, nor are passwords that do not encode as UTF-8.
- PersonService.StepKeeps: uniqueness of usernames is not modelled, accounts are never deleted (the source has no such route), and any other account change is one `Edit` step.
- The second attempt ledger, for confirmations, and the passkey challenge store repeat patterns proved here.
- Shamir sharing, the key manager, authority trust and service identity re-export another package that is not part of this model.
