# Stede, modelled and proved in Dafny

Stede wraps a stablecoin into a Token-2022 mint whose every transfer calls a hook. The hook calls six rule
programs a wallet can opt into: a daily limit, a block list, a cool-off between large transfers, a waiting period
for new recipients (slow send), hours in which nothing may be sent (night mode), and a friend's co-signature above a
threshold (friend gate). A vault holds the underlying tokens, and a registry maps handles to wallets. This project
models the rules, the hook, the vault and the balances of its mint as one on-chain state machine and the registry as
another, and proves what holds over whole runs of them.

Verify with `dafny verify dfyconfig.toml`.

| file | contents |
|---|---|
| `Base.dfy` | machine integers, keys, results, error codes, sums over balances |
| `Bytes.dfy` | little-endian integers, two's complement, the SDK's buffer loops |
| `Addresses.dfy` | program-derived addresses over concatenated seeds |
| `Records.dfy` | Borsh layouts, the hand-written decoders, the write-back |
| `DailyLimit.dfy`, `BlockList.dfy`, `Cooloff.dfy`, `SlowSend.dfy`, `NightMode.dfy`, `FriendGate.dfy` | one rule each: record, account class, theorems over its runs |
| `Hook.dfy` | the six rules in sequence, on the records |
| `Resolution.dfy` | the extra-account list as a program, the `Execute` accounts |
| `Ledger.dfy` | the account store (addresses to bytes), the checks on bytes, their refinement of the rules |
| `Chain.dfy` | fifteen instructions on the store, changes by other programs, and runs of transactions |
| `Spending.dfy`, `Waiting.dfy`, `Guarantees.dfy` | what the daily limit, the cool-off and the other four rules guarantee of committed transfers, end to end |
| `Promise.dfy` | when exactly a transfer commits, in terms of what its owner asked for |
| `Bank.dfy` | the imperative hook and the atomic hooked transfer over the store and the token balances |
| `Vault.dfy` | wrap, unwrap, pause, solvency and redemption |
| `Stede.dfy` | store, vault and balances as one machine |
| `Registry.dfy` | handles, reverse lookups, lamports |

Every account that the programs update in place is a class (or, in `Bank.dfy`, the store whose bytes are
overwritten); each method is proved to compute a pure step function and to leave the state alone when it fails. The one
exception is `Bank.Runtime.Execute`, which ends at the first refusal with the writes of the calls before it in the store, as
the hook does; `Bank.Runtime.TransferChecked` around it restores everything. The theorems over runs are about those functions.

What the theorems assume: slots do not decrease where a bound is over slots (`Ordered`, `InOrder`); the zero key
signs nothing; a transfer is authorised by the owner of its source account; the supply of the underlying token fits
in a u64. Nothing is assumed of Unix timestamps unless a theorem says so. Rule checks that are called directly, not
through the hook, are steps too: anyone may make them and they count as approvals, so every upper bound on
transfers holds in their presence.

## Where code and prose differ

The model follows the code.

- `sdk/README.md:211` calls the daily cap a rolling 24-hour window. The code keeps one window that starts at the first
  check after the last one expired (programs/stede_rule_daily_limit/src/instructions/check_transfer.rs:50-55). The
  actual guarantee is `DailyLimit.IntervalBound`, (k + 1) limits over k days of slots, and it is attained. The rolling
  reading holds exactly at a window's last slot, or while nothing is spent in the window, or in the first day of slots
  (`DailyLimit.RollingExactly`).
- The repository's `README.md:45` and `ARCHITECTURE.md:12` put the cool-off's maximum at 7 days; the code has 86,400 seconds
  (programs/stede_rule_cooloff/src/state.rs:5), and the cool-off spaces large transfers rather than delaying
  withdrawals. 7 days is the maximum of slow send, whose delay is configurable and not fixed at 10 minutes.
- `ARCHITECTURE.md:23` has the hook read a per-sender rule list; the code calls six fixed programs in a fixed order.
- programs/stede_vault/src/state.rs:27 states holdings = locked amount = supply. Stede can be burned at the token
  program and underlying tokens can be paid to the vault's account directly; either breaks the equality (`Vault.EqualityBroken`),
  which holds exactly in runs where neither happened (`Vault.EqualityExactlyWithoutLeaks`). Otherwise supply <= locked amount <= holdings, and all Stede stays
  redeemable.
- The repository's `README.md:47` speaks of local hours for night mode; the code takes UTC hours of the cluster's clock
  (programs/stede_rule_time_window/src/instructions/check_transfer.rs:35-37).
- The repository's `README.md:48` labels the friend gate block-only; the code checks for a co-signature and the SDK builds transactions
  that carry one.

## Model

| member | source | states |
|---|---|---|
| DailyLimit.DailyLimitAccount.SetLimit | programs/stede_rule_daily_limit/src/instructions/set_limit.rs:29-55 | setting the limit on the account: first-time initialisation, or an update that keeps window and spending; refusal of zero changes nothing |
| DailyLimit.DailyLimitAccount.CheckTransfer | programs/stede_rule_daily_limit/src/instructions/check_transfer.rs:48-69 | the step-by-step check of the decoded fields; on refusal even a window that had expired stays as stored (decoding and address checks are in `Bank.Runtime.DailyLimitCheckTransfer`) |
| DailyLimit.RunHoldsInForce | programs/stede_rule_daily_limit/src/instructions/set_limit.rs:29-45 | over any run from any own record the stored limit is the last positive one asked for, the start's if there was none |
| DailyLimit.SettingKeepsTheRest | programs/stede_rule_daily_limit/src/instructions/set_limit.rs:30-45 | an update changes the limit and nothing else; a first call opens a window at the current slot for its caller; zero is the only refusal |
| DailyLimit.CheckRefused | programs/stede_rule_daily_limit/src/instructions/check_transfer.rs:50-66 | a check is refused exactly when window total plus amount exceeds the limit, the total counting as zero from 216,000 slots on; the code tells whether the sum left 64 bits |
| DailyLimit.NextCheckPasses | programs/stede_rule_daily_limit/src/instructions/check_transfer.rs:48-69 | after any history a check passes if and only if what was approved since the window opened, while it is open, leaves room under the last positive limit asked for |
| DailyLimit.StepWithinBudget | programs/stede_rule_daily_limit/src/instructions/check_transfer.rs:48-69 | from any record with a limit of at most L, no event spends more of an interval's budget than the potential over window starts falls; the packing argument, one step |
| DailyLimit.RunWithinBudget | programs/stede_rule_daily_limit/src/instructions/check_transfer.rs:48-69 | from any record with a limit of at most L, whatever was spent before, all later approvals inside any interval stay within its budget |
| DailyLimit.IntervalBound | programs/stede_rule_daily_limit/src/instructions/check_transfer.rs:48-69 | from any record with a limit of at most L in force, in any run with slots in order that sets no limit above L, approvals within any k days of slots sum to at most (k + 1) L |
| DailyLimit.IntervalBoundTight | programs/stede_rule_daily_limit/src/instructions/check_transfer.rs:50-69 | the bound is attained for every k, and two limits' worth passes inside two adjacent slots |
| DailyLimit.BurstBreaksRolling | programs/stede_rule_daily_limit/src/instructions/check_transfer.rs:50-66 | for every window start, total and offset outside the exact condition, a concrete history that exceeds the limit in the day before its last approval |
| DailyLimit.WindowTotal | programs/stede_rule_daily_limit/src/instructions/check_transfer.rs:50-69 | over any run the stored total is exactly what was approved since the window's start, on top of what it held if that window was already open |
| DailyLimit.RollingExactly | programs/stede_rule_daily_limit/src/instructions/check_transfer.rs:50-66 | all histories that leave a window start w, a total and an offset x keep the rolling 24-hour promise if and only if x is the window's last slot, or the total is 0, or w lies in the first day of slots |
| BlockList.BlockListAccount.AddBlocked | programs/stede_rule_block_handle/src/instructions/add_blocked.rs:28-66 | the in-place insertion into the 32-slot array is the pure step; refusals change nothing |
| BlockList.BlockListAccount.RemoveBlocked | programs/stede_rule_block_handle/src/instructions/remove_blocked.rs:22-42 | the in-place removal leaves a hole and is the pure step; refusals change nothing |
| BlockList.Position | programs/stede_rule_block_handle/src/state.rs:46-55 | the first index holding a key, or none exactly when the key is absent |
| BlockList.AddRefinesInsert | programs/stede_rule_block_handle/src/instructions/add_blocked.rs:43-55 | adding is insertion into a duplicate-free set whose size is the counter; list full arises if and only if a new non-zero wallet meets count 32; the saturating increment never saturates |
| BlockList.RemoveRefinesDelete | programs/stede_rule_block_handle/src/instructions/remove_blocked.rs:28-33 | removing is deletion of a member, the counter follows, and it fails exactly for non-members |
| BlockList.RecordStaysOwn | programs/stede_rule_block_handle/src/instructions/remove_blocked.rs:12-33 | whose list it is and for which mint is settled by the first call and kept by every later one; nobody removes from somebody else's list or from one for another mint |
| BlockList.CheckIsMembership | programs/stede_rule_block_handle/src/instructions/check_transfer.rs:47-50 | the check refuses exactly the members, with one code |
| BlockList.RunRefinesSet | programs/stede_rule_block_handle/src/instructions/add_blocked.rs:28-66 | over any run the slots represent exactly a reference set with room for 32 wallets |
| BlockList.RefusedIffBlocked | programs/stede_rule_block_handle/src/instructions/check_transfer.rs:15-59 | after any history a send is refused if and only if the recipient is in the reference set |
| Cooloff.CooloffAccount.SetCooloff | programs/stede_rule_cooloff/src/instructions/set_cooloff.rs:31-68 | configuration with its bounds; an update keeps the time of the last large transfer |
| Cooloff.CooloffAccount.DisableCooloff | programs/stede_rule_cooloff/src/instructions/disable_cooloff.rs:10-27 | closing by the sender only, which drops the record |
| Cooloff.CooloffAccount.CheckTransfer | programs/stede_rule_cooloff/src/instructions/check_transfer.rs:46-69 | threshold split, checked subtraction and elapsed-time gate on the decoded fields; refusal changes nothing (decoding and address checks are in `Bank.Runtime.CooloffCheckTransfer`) |
| Cooloff.RunHoldsInForce | programs/stede_rule_cooloff/src/instructions/set_cooloff.rs:31-57 | over any run the stored threshold and duration are the last valid pair asked for, unless a disable came after |
| Cooloff.ConfiguringKeepsTheRest | programs/stede_rule_cooloff/src/instructions/set_cooloff.rs:36-57 | an update changes the two terms and nothing else; a first call remembers no large transfer; refusals are exactly a zero threshold, then a duration outside 1..86,400 |
| Cooloff.CheckRefused | programs/stede_rule_cooloff/src/instructions/check_transfer.rs:46-69 | a check is refused exactly when the amount reaches the threshold and the elapsed time is short of the duration or outside 64 bits, and which of the two it is told |
| Cooloff.SmallAlwaysPasses | programs/stede_rule_cooloff/src/instructions/check_transfer.rs:46-54 | after any run an amount below the threshold last asked for passes at any clock reading and leaves the record as it is |
| Cooloff.Spacing | programs/stede_rule_cooloff/src/instructions/check_transfer.rs:46-69 | with no disable in between, each transfer that is large by the threshold last asked for comes at least the duration last asked for after the one before, through any reconfigurations |
| Cooloff.RateBound | programs/stede_rule_cooloff/src/instructions/check_transfer.rs:46-69 | in any run, from any own record, any n consecutive transfers at or above the threshold last asked for take at least (n - 1) d seconds when no duration asked for is below d |
| Cooloff.RefusedOnlyForHaste | programs/stede_rule_cooloff/src/instructions/check_transfer.rs:57-65 | in every state reached under non-negative clock readings, approval is exactly: below the threshold last asked for, or the duration last asked for has elapsed; the overflow arm is dead |
| Cooloff.DisableForgets | programs/stede_rule_cooloff/src/instructions/disable_cooloff.rs:10-17 | disabling and configuring again lets the next large transfer pass exactly when the clock has reached the duration, while reconfiguring alone keeps the wait |
| SlowSend.SlowSendAccounts.SetSlowSend | programs/stede_rule_new_recipient_delay/src/instructions/set_slow_send.rs:28-54 | delay bounds and update of the configuration, contacts untouched |
| SlowSend.SlowSendAccounts.DisableSlowSend | programs/stede_rule_new_recipient_delay/src/instructions/disable_slow_send.rs:10-27 | closing by the sender only, contacts untouched |
| SlowSend.SlowSendAccounts.RegisterRecipient | programs/stede_rule_new_recipient_delay/src/instructions/register_recipient.rs:17-52 | a first registration stores the time; a second one fails and changes nothing |
| SlowSend.RunHoldsInForce | programs/stede_rule_new_recipient_delay/src/instructions/set_slow_send.rs:28-44 | over any run the stored delay is the last one asked for in 1..604,800, unless a disable came after |
| SlowSend.ConfiguringKeepsTheRest | programs/stede_rule_new_recipient_delay/src/instructions/set_slow_send.rs:28-44 | an update changes the delay and nothing else; a delay outside 1..604,800 is the only refusal |
| SlowSend.CheckRefused | programs/stede_rule_new_recipient_delay/src/instructions/check_transfer.rs:88-111 | why a send is refused: never registered, registered less than the delay ago, or an age outside 64 bits |
| SlowSend.WriteOnce | programs/stede_rule_new_recipient_delay/src/instructions/register_recipient.rs:17-42 | a contact never changes over any run, disable and re-enable included |
| SlowSend.ContactIsItsRegistration | programs/stede_rule_new_recipient_delay/src/instructions/register_recipient.rs:34-42 | the stored time is that of the one registration in the run that succeeded, and there is none if there was none |
| SlowSend.ApprovedIffAged | programs/stede_rule_new_recipient_delay/src/instructions/check_transfer.rs:88-111 | over any run a send passes if and only if no delay is in force by the requests or its one registration is at least the delay last asked for old |
| SlowSend.KeepsPassing | programs/stede_rule_new_recipient_delay/src/instructions/check_transfer.rs:103-111 | once a recipient passes it keeps passing through any later settings until a longer delay is configured |
| NightMode.NightModeAccount.SetTimeWindow | programs/stede_rule_time_window/src/instructions/set_time_window.rs:26-41 | hour bounds and overwrite of the whole record |
| NightMode.NightModeAccount.DisableTimeWindow | programs/stede_rule_time_window/src/instructions/disable_time_window.rs:10-22 | closing by the sender only |
| NightMode.RunHoldsInForce | programs/stede_rule_time_window/src/instructions/set_time_window.rs:26-41 | over any run the stored hours are the last valid ones asked for, unless a disable came after |
| NightMode.Verdicts | programs/stede_rule_time_window/src/instructions/check_transfer.rs:35-45 | a check is refused exactly at the hours of the cyclic window, with one code; a configuration exactly for an hour above 23, with another |
| NightMode.HourIsEuclidean | programs/stede_rule_time_window/src/instructions/check_transfer.rs:35-37 | for every timestamp, negative ones included, Rust's truncated remainders yield the Euclidean hour of day |
| NightMode.WindowIsCyclic | programs/stede_rule_time_window/src/instructions/check_transfer.rs:39-43 | the two-branch test equals (hour - start) mod 24 < (end - start) mod 24 |
| NightMode.BlockedPerDay | programs/stede_rule_time_window/src/instructions/check_transfer.rs:35-45 | any 86,400 consecutive seconds hold exactly 3600 ((end - start) mod 24) blocked ones |
| FriendGate.FriendGateAccount.SetFriendGate | programs/stede_rule_friend_gate/src/instructions/set_friend_gate.rs:25-59 | the three refusals and the update of threshold and friend |
| FriendGate.FriendGateAccount.DisableFriendGate | programs/stede_rule_friend_gate/src/instructions/disable_friend_gate.rs:10-27 | closing by the sender only |
| FriendGate.RunHoldsInForce | programs/stede_rule_friend_gate/src/instructions/set_friend_gate.rs:25-59 | over any run the stored threshold and friend are the last valid ones asked for, unless a disable came after |
| FriendGate.ConfiguringKeepsTheRest | programs/stede_rule_friend_gate/src/instructions/set_friend_gate.rs:25-59 | an update changes threshold and friend and nothing else; which of the three refusals is given, in their order |
| FriendGate.CheckRefused | programs/stede_rule_friend_gate/src/instructions/check_transfer.rs:57-97 | a check is refused exactly from the threshold on without the friend's signature |
| FriendGate.ScanForFriend | programs/stede_rule_friend_gate/src/instructions/check_transfer.rs:73-95 | the nested scan with its breaks answers: some account of instructions 0..current is a signer equal to the friend |
| FriendGate.CurrentCounts | programs/stede_rule_friend_gate/src/instructions/check_transfer.rs:82-95 | the running instruction's own signers count, as do those of every earlier one |
| FriendGate.LaterInstructionsIgnored | programs/stede_rule_friend_gate/src/instructions/check_transfer.rs:82-95 | instructions after the running one cannot influence the answer |
| FriendGate.BuildFriendGateTransfer | sdk/src/client.ts:751-787 | the SDK's transaction, with or without the account creation, has the friend as a signer up to the transfer |
| FriendGate.BuiltTransferPasses | sdk/src/client.ts:778-783 | that transaction satisfies the gate of its friend for every amount and threshold |
| FriendGate.PlainTransferRefused | programs/stede_rule_friend_gate/src/instructions/set_friend_gate.rs:30-35 | under any gate the program accepts, a transfer without the carrier passes exactly below the threshold |
| Hook.NoInterference | programs/stede_hook/src/instructions/execute.rs:95-178 | on the records, no rule's verdict or write depends on a different rule having run before it |
| Hook.SequenceIsConjunction | programs/stede_hook/src/instructions/execute.rs:92-181 | any selection of rules in any order passes if and only if each passes on the state before, and then commits the same state; otherwise the first failing rule gives the error |
| Hook.OrderIsImmaterial | programs/stede_hook/src/instructions/execute.rs:92-181 | on the records, every permutation of the six rules has the same verdict and the same committed state; `Chain.CallOrderIsImmaterial` is the same on account bytes |
| Hook.OrderWrittenOut | programs/stede_hook/src/instructions/execute.rs:95-178 | the fold over the rule order is the six calls in the hook's own sequence with early exit |
| Hook.HookIsAllowed | programs/stede_hook/src/instructions/execute.rs:92-181 | the hook approves if and only if six plain conditions hold of the state before, and commits exactly the stated daily and cool-off records |
| Hook.DownwardClosed | programs/stede_hook/src/instructions/execute.rs:92-181 | an approved amount makes every smaller amount approved |
| Hook.SplitTransfer | programs/stede_rule_cooloff/src/instructions/check_transfer.rs:46-69 | splitting an approved a + b at one clock reading passes if and only if the cool-off is unset or not both parts reach its threshold, with the same final daily record |
| Hook.SplitExactly | programs/stede_rule_cooloff/src/instructions/check_transfer.rs:46-69 | sending a then b at one clock reading passes if and only if the daily limit admits the sum, not both parts reach the cool-off's threshold, and each threshold a part reaches is met |
| Hook.SplitBeatsWhole | programs/stede_rule_friend_gate/src/instructions/check_transfer.rs:57-97 | a split passes where the whole is refused if and only if it is allowed and the sum, but no part, meets the cool-off too soon or the gate without the friend |
| Guarantees.SmallerCommits | programs/stede_hook/src/instructions/execute.rs:92-181 | on account bytes, where a transfer would commit so would every smaller one |
| Guarantees.SplitCommits | programs/stede_hook/src/instructions/execute.rs:92-181 | on account bytes, two transfers at one clock reading both commit exactly when the split is allowed, and the whole exactly when it is |
| Bytes.WriteBigUInt64LE | sdk/src/client.ts:60-64 | for every integer and in-range offset: stores the value modulo 2^64, changes exactly those 8 bytes, returns offset + 8 |
| Bytes.ReadBigUInt64LE | sdk/src/client.ts:67-71 | reads the number whose encoding the 8 bytes are |
| Bytes.WriteBigInt64LE | sdk/src/client.ts:74-76 | writes the two's complement; values in range decode back to themselves |
| Bytes.FromLEofLE | sdk/src/client.ts:60-71 | decoding inverts encoding modulo 256^width, for every integer |
| Bytes.LEofFromLE | sdk/src/client.ts:60-71 | encoding inverts decoding, and every byte string denotes a number that fits |
| Bytes.I64RoundTrip | programs/stede_rule_new_recipient_delay/src/instructions/check_transfer.rs:46-50 | a signed integer's bytes are those of its two's complement and decode to it |
| Bytes.WordsReencode | programs/stede_rule_new_recipient_delay/src/instructions/check_transfer.rs:46-50 | eight bytes are the encoding of what they decode to, signed and unsigned |
| Records.DailyLayout | programs/stede_rule_daily_limit/src/state.rs:8-28 | a daily record in bytes: its discriminator in figures, sender, mint, limit, total, window start, bump |
| Records.CoolingLayout | programs/stede_rule_cooloff/src/state.rs:19-42 | a cool-off record in bytes |
| Records.BlocksLayout | programs/stede_rule_block_handle/src/state.rs:15-33 | a block list in bytes, 32 keys of 32 bytes after sender and mint |
| Records.SlowLayout | programs/stede_rule_new_recipient_delay/src/state.rs:14-29 | a slow send configuration in bytes |
| Records.ContactLayout | programs/stede_rule_new_recipient_delay/src/state.rs:48-56 | a contact in bytes |
| Records.NightLayout | programs/stede_rule_time_window/src/state.rs:5-13 | a night window in bytes |
| Records.GateLayout | programs/stede_rule_friend_gate/src/state.rs:9-26 | a friend gate in bytes |
| Records.DailyRoundTrip | programs/stede_rule_daily_limit/src/instructions/check_transfer.rs:34-38 | deserializing a serialized daily limit gives it back, whatever follows it |
| Records.CoolingRoundTrip | programs/stede_rule_cooloff/src/instructions/check_transfer.rs:32-36 | the same for the cool-off record with its signed fields |
| Records.DailyReencodes | programs/stede_rule_daily_limit/src/instructions/check_transfer.rs:34-38 | an accepted account begins with the serialization of what it decodes to |
| Records.CoolingReencodes | programs/stede_rule_cooloff/src/instructions/check_transfer.rs:32-36 | the same for the cool-off record |
| Records.BlocksRoundTrip | programs/stede_rule_block_handle/src/instructions/check_transfer.rs:33-37 | the same round trip for the block list with its 32 keys |
| Records.SlowRoundTrip | programs/stede_rule_new_recipient_delay/src/instructions/check_transfer.rs:34-51 | the offsets of the slow send decoder invert Borsh |
| Records.ContactRoundTrip | programs/stede_rule_new_recipient_delay/src/instructions/check_transfer.rs:94-100 | the offset of the contact decoder inverts Borsh |
| Records.HoursRoundTrip | programs/stede_rule_time_window/src/instructions/check_transfer.rs:30-33 | the two offsets of night mode invert Borsh |
| Records.GateRoundTrip | programs/stede_rule_friend_gate/src/instructions/check_transfer.rs:27-45 | the offsets of the friend gate decoder invert Borsh |
| Records.WriteBackRoundTrip | programs/stede_rule_daily_limit/src/instructions/check_transfer.rs:78-81 | the write-back keeps the account's length and every byte after the record, and the account then decodes to the changed record |
| Addresses.AddressInjective | programs/stede_rule_new_recipient_delay/src/state.rs:31-76 | although only the concatenated seeds are hashed, an address determines rule, sender, recipient and mint; config and contact addresses never meet |
| Addresses.RuleSeeds | programs/stede_rule_new_recipient_delay/src/state.rs:31-76 | the seven seed strings, each followed by sender, recipient where there is one, and mint, under the rule's own program |
| Addresses.RegistryAddressesApart | programs/stede_handle_registry/src/state.rs:25-61 | forward and reverse addresses are injective and disjoint although names vary in length |
| Addresses.RegistrySeeds | programs/stede_handle_registry/src/state.rs:25-61 | the registry's two seed prefixes, byte by byte |
| Resolution.Resolve | programs/stede_hook/src/instructions/initialize_extra_account_meta_list.rs:71-196 | the left-to-right loop over the list is the recursive interpretation and only ever appends |
| Resolution.ExtrasReferBackwards | programs/stede_hook/src/instructions/initialize_extra_account_meta_list.rs:73-196 | no entry refers to itself or a later index |
| Resolution.SeedsStable | programs/stede_hook/src/instructions/initialize_extra_account_meta_list.rs:73-196 | an entry that refers back resolves the same however the list continues |
| Resolution.ForwardNeverResolves | programs/stede_hook/src/instructions/initialize_extra_account_meta_list.rs:73-196 | an entry that referred forward could never resolve |
| Resolution.ResolutionIsCanonical | programs/stede_hook/src/instructions/execute.rs:36-90 | the interpreted list lines up with `Execute` position by position, and each address is the one the rule recomputes for owner, mint and the recipient in bytes 32..64 of the destination |
| Resolution.WritableExactlyWhereMutated | programs/stede_hook/src/instructions/execute.rs:53-89 | the list asks for write access exactly at the two accounts declared mutable, and for no signature |
| Resolution.OnlyRuleProgramsBind | programs/stede_hook/src/instructions/execute.rs:47-90 | the hook's accounts are accepted exactly if there are nineteen and the six rule programs stand where the list puts them, so no other program can stand in for a rule |
| Resolution.ShortDestinationNeverResolves | programs/stede_hook/src/instructions/initialize_extra_account_meta_list.rs:136-155 | a destination without 64 bytes of data stops the transfer before the hook |
| Ledger.ViewAfterWrite | programs/stede_hook/src/instructions/execute.rs:95-177 | writing one rule account leaves the state of every other rule, sender, recipient and mint as it was |
| Ledger.SameRuleAccounts | programs/stede_hook/src/instructions/execute.rs:95-177 | stores that agree on the rule programs' accounts stand for the same state of everybody, whatever other programs did elsewhere |
| Ledger.DailyRefines | programs/stede_rule_daily_limit/src/instructions/check_transfer.rs:17-84 | on canonical bytes the byte-level check has the rule's verdict and stores exactly the changed record's bytes |
| Ledger.CoolRefines | programs/stede_rule_cooloff/src/instructions/check_transfer.rs:17-83 | the same for the cool-off |
| Ledger.BlockRefines | programs/stede_rule_block_handle/src/instructions/check_transfer.rs:15-59 | on canonical bytes the check on bytes is the rule on the record |
| Ledger.SlowRefines | programs/stede_rule_new_recipient_delay/src/instructions/check_transfer.rs:23-121 | the same for slow send, including both address checks |
| Ledger.NightRefines | programs/stede_rule_time_window/src/instructions/check_transfer.rs:8-48 | the same for night mode, including the seeds constraint |
| Ledger.GateRefines | programs/stede_rule_friend_gate/src/instructions/check_transfer.rs:18-107 | the same for the friend gate, including the sysvar's address |
| Ledger.CallsRefine | programs/stede_hook/src/instructions/execute.rs:95-178 | the six calls on bytes, in any order and selection, have the verdict and the committed state of the rules on the records in that order |
| Ledger.HookRefines | programs/stede_hook/src/instructions/execute.rs:92-181 | the hook on bytes gives the verdict of the six rules on the state the bytes stand for, leaves bytes that stand for what they commit, and touches two accounts at most |
| Ledger.NotConfiguredPasses | programs/stede_rule_daily_limit/src/instructions/check_transfer.rs:20-24 | at an address without an account, without data or without lamports each of the six checks passes and changes nothing, whoever sent lamports there |
| Ledger.ForgedConfigRefused | programs/stede_rule_daily_limit/src/instructions/check_transfer.rs:26-46 | an account with data and lamports is accepted only from the rule's own program and at the address of some sender and mint |
| Ledger.ForgedReadsRefused | programs/stede_rule_friend_gate/src/instructions/check_transfer.rs:48-55 | the same for the rules that read by offset: only a sender and mint's own address is accepted |
| Ledger.MisplacedRecordRefused | programs/stede_rule_daily_limit/src/instructions/check_transfer.rs:40-46 | a record kept at another address than that of the sender and mint it names is refused by each rule with its own code |
| Ledger.MalformedRefused | programs/stede_rule_daily_limit/src/instructions/check_transfer.rs:34-38 | data too short for the record, or with another discriminator, is refused by each rule with its own code |
| Ledger.WrongContactRefused | programs/stede_rule_new_recipient_delay/src/instructions/check_transfer.rs:68-92 | with slow send on, no other recipient's contact and no empty one lets a transfer pass, and which code each case gives |
| Ledger.WrongSysvarRefused | programs/stede_rule_friend_gate/src/instructions/check_transfer.rs:57-69 | from the threshold on the gate accepts nothing but the true sysvar, and below it does not look |
| Ledger.ShortDestinationRefused | programs/stede_hook/src/instructions/execute.rs:108-120 | a destination too short to name a recipient stops the hook at the second rule |
| Chain.CallOrderIsImmaterial | programs/stede_hook/src/instructions/execute.rs:92-181 | on account bytes, any permutation of the six calls has the hook's verdict and leaves the hook's state for every sender, recipient and mint |
| Chain.ExecRefines | programs/stede_hook/src/instructions/execute.rs:92-181 | every one of fifteen instructions on the byte store, and every change other programs make to other accounts, refines its step on the records and changes no other sender's, mint's or recipient's state |
| Chain.CommitEvolves | programs/stede_hook/src/instructions/execute.rs:92-181 | each transaction commits such a step or nothing, and the store stays canonical |
| Chain.GenesisCanonical | programs/stede_rule_daily_limit/src/instructions/check_transfer.rs:20-24 | a store in which every rule address is without an account, without data or without lamports is canonical and no rule is set for anyone |
| Chain.OptIn | programs/stede_rule_daily_limit/src/instructions/check_transfer.rs:20-24 | from such a store every transfer to a token account commits and leaves every rule account as it is |
| Chain.AccountCodes | programs/stede_rule_new_recipient_delay/src/instructions/register_recipient.rs:17-42 | creating what exists and closing or editing what does not are refused with their own codes, registering succeeds otherwise, and a foreign write goes through exactly outside the rule programs' accounts and changes one account |
| Chain.Locality | programs/stede_hook/src/instructions/execute.rs:95-177 | over any run, what a sender has set for a mint changes only by the programs' instructions on that sender and mint, whatever other programs do to other accounts |
| Guarantees.ContactIsFirstAsked | programs/stede_rule_new_recipient_delay/src/instructions/register_recipient.rs:17-42 | over any run of the chain a contact, once stored, never changes, and one not there before has the time of the first request to register it, and is there if and only if there was one |
| Guarantees.SettingsFollow | programs/stede_rule_block_handle/src/instructions/add_blocked.rs:28-66 | over any run of the chain the stored block list, slow send configuration, night window and friend gate are the rules' own runs of what their owner asked for, granted or not |
| Guarantees.CommittedRespectsRequests | programs/stede_hook/src/instructions/execute.rs:108-178 | end to end: a transfer that commits goes to a wallet outside the set its sender's block requests describe, whose registration was first asked for at least the delay last asked for before, at an hour outside the window last asked for, and from the threshold last asked for on with the signature of the friend last asked for |
| Spending.RunFollows | programs/stede_rule_daily_limit/src/instructions/check_transfer.rs:17-84 | over any run the stored daily record is the rule's own run of the committed events, and what those approve is exactly what transfers moved plus what direct checks were made for |
| Spending.LimitFollows | programs/stede_rule_daily_limit/src/instructions/set_limit.rs:29-45 | over any run of the chain the stored limit is the last positive one its owner asked for |
| Spending.WindowFollows | programs/stede_rule_daily_limit/src/instructions/check_transfer.rs:50-55 | over any run the stored window start is the slot of the first request or of the last committed check that found the window a day old |
| Spending.TotalIsTransfersAndChecks | programs/stede_rule_daily_limit/src/state.rs:20-24 | over any run the stored total is what transfers moved in the current window plus what approved direct checks charged, so it is what was transferred if and only if no positive direct check was approved in the window |
| Spending.NextCheckPasses | programs/stede_rule_daily_limit/src/instructions/check_transfer.rs:48-69 | on an account that began unset, the rule lets the next check pass if and only if what moved or was charged in the open window leaves room under the limit last asked for |
| Spending.DirectCheck | programs/stede_rule_daily_limit/src/instructions/check_transfer.rs:17-84 | a direct check has the rule's own verdict, whoever makes it |
| Spending.SpendingBound | programs/stede_rule_daily_limit/src/instructions/check_transfer.rs:48-81 | end to end, on bytes, resolved accounts and committed transfers, from any canonical store whose limit is at most L or unset: at most (k + 1) L leaves an account by transfer in any k days of slots while the limit is set and none above L is set, whatever was spent before and whatever anyone else does |
| Spending.SpendingBoundFromNow | programs/stede_rule_daily_limit/src/instructions/check_transfer.rs:48-81 | the same after any earlier run with any limits: the limit in force from now on is what counts |
| Waiting.TermsFollow | programs/stede_rule_cooloff/src/instructions/set_cooloff.rs:31-57 | over any run of the chain the stored terms are the last valid ones their owner asked for, unless a disable came after |
| Waiting.LargeTransfersSpaced | programs/stede_rule_cooloff/src/instructions/check_transfer.rs:46-69 | end to end: over any run in which the sender does not disable the rule, each committed transfer at or above the threshold last asked for comes at least the duration last asked for after the one before |
| Waiting.LargeTransferRate | programs/stede_rule_cooloff/src/instructions/check_transfer.rs:46-69 | end to end: any n consecutive large transfers take at least (n - 1) d seconds when no duration asked for is below d |
| Waiting.ChecksDelayTransfers | programs/stede_rule_cooloff/src/instructions/check_transfer.rs:17-83 | after any committed check at or above the threshold, by a transfer or by anyone directly, no transfer at or above the threshold last asked for commits before the duration last asked for has passed |
| Waiting.TimestampIsLastCheck | programs/stede_rule_cooloff/src/state.rs:36-38 | over any run, disables included, the stored time is that of the last check at or above the threshold last asked for since the rule was last set up, whoever made it |
| Waiting.DirectCheck | programs/stede_rule_cooloff/src/instructions/check_transfer.rs:17-83 | a direct check has the rule's own verdict, whoever makes it |
| Promise.CommitsExactly | programs/stede_hook/src/instructions/execute.rs:92-181 | the whole promise: from nothing set, after any run of anyone's transactions, a transfer to a token account commits if and only if six conditions hold that speak of the requests made, the amounts moved and the clock, and of nothing stored |
| Bank.Runtime.DailyLimitCheckTransfer | programs/stede_rule_daily_limit/src/instructions/check_transfer.rs:17-84 | decoding, rolling, checking and overwriting the account's bytes in place is the byte-level step |
| Bank.Runtime.CooloffCheckTransfer | programs/stede_rule_cooloff/src/instructions/check_transfer.rs:17-83 | the same for the cool-off |
| Bank.Runtime.FriendGateCheckTransfer | programs/stede_rule_friend_gate/src/instructions/check_transfer.rs:18-107 | the friend gate's check with its scan is the byte-level check |
| Bank.Runtime.Execute | programs/stede_hook/src/instructions/execute.rs:92-181 | six calls with early exit over a mutable store compute the hook's function |
| Bank.Runtime.TransferChecked | programs/stede_hook/src/instructions/execute.rs:92-181 | a hooked transfer succeeds if and only if the tokens can move and the hook approves; then the balances move once, and on any refusal every balance and rule account is as before, in-memory window rolls included; tokens are conserved |
| Bank.OnlyRulesRefuse | programs/stede_hook/src/instructions/execute.rs:92-181 | from canonical accounts the hook passes if and only if the six plain conditions hold; no address or decoding check can fail |
| Vault.VaultAccount.constructor | programs/stede_vault/src/instructions/initialize_vault.rs:210-215 | a new vault: its admin, nothing locked, not paused |
| Vault.VaultAccount.WrapTokens | programs/stede_vault/src/instructions/wrap.rs:64-113 | lock, mint and account in sequence, with every failure point undoing the steps before it |
| Vault.VaultAccount.UnwrapTokens | programs/stede_vault/src/instructions/unwrap.rs:58-107 | burn, release and account in sequence, with every failure point undoing the steps before it |
| Vault.VaultAccount.Pause | programs/stede_vault/src/instructions/set_paused.rs:9-24 | the admin's flag is stored, anybody else is refused and changes nothing |
| Vault.PauseVerdict | programs/stede_vault/src/instructions/set_paused.rs:9-19 | a request to pause or unpause succeeds exactly for the admin and sets the flag it asked for |
| Vault.OnlyAdminPauses | programs/stede_vault/src/instructions/set_paused.rs:9-24 | over any run the flag is the last one the admin asked for, the start's if there was none; nothing else changes it, and the admin never changes |
| Vault.Effects | programs/stede_vault/src/instructions/wrap.rs:64-113 | balance by balance what every step changes: the parties' by the amount, the accounting with it, nobody else's |
| Vault.OutsideTheVault | programs/stede_hook/src/instructions/execute.rs:92-181 | transfers, burns and deposits succeed exactly when the balance covers them, a Stede transfer moreover only with the hook's consent, whose code it passes on |
| Vault.StepKeeps | programs/stede_vault/src/state.rs:26-28 | every step keeps solvency, conserves underlying tokens and never narrows the margins supply <= locked <= held |
| Vault.RunSolvent | programs/stede_vault/src/state.rs:26-28 | under any interleaving of wrap, unwrap, pause, transfers with any verdict of the hook, direct burns and deposits: balances sum to supply <= locked amount <= holdings |
| Vault.EqualityExactlyWithoutLeaks | programs/stede_vault/src/state.rs:26-28 | the promised three-way equality survives a run if and only if no positive burn or deposit bypassed the vault |
| Vault.SucceedsExactlyWhenCovered | programs/stede_vault/src/instructions/unwrap.rs:59-102 | in solvent states wrap and unwrap succeed exactly for positive amounts the user holds while not paused, and which code every refusal has; the overflow arms are dead |
| Vault.UnwrapUndoesWrap | programs/stede_vault/src/instructions/wrap.rs:64-108 | unwrapping what was wrapped restores every balance and the accounting |
| Vault.EqualityBroken | programs/stede_vault/src/state.rs:26-28 | two inputs on which the promised equality fails: after wrapping one token, burning it directly, or paying one more into the vault's account |
| Vault.FullRedemption | programs/stede_vault/src/instructions/unwrap.rs:59-102 | from any reachable state that is not paused all holders, in any order, unwrap everything and are paid one for one until the supply is zero |
| Stede.SafeAndRedeemable | programs/stede_vault/src/instructions/unwrap.rs:58-107 | whole machine: under any interleaving of rule settings, direct checks, transfers and vault steps, accounts stay canonical and the vault solvent, and all holders can redeem everything whatever rules they have set |
| Stede.OnlyAdminPauses | programs/stede_vault/src/instructions/set_paused.rs:9-24 | whole machine: the vault is paused exactly if the admin's last request was to pause it, whatever happens on the chain |
| Stede.RedeemableUnlessPaused | programs/stede_vault/src/instructions/unwrap.rs:58-107 | whole machine: a run in which the admin's last request was not to pause ends with all holders able to redeem everything one for one |
| Stede.BalanceFallsByLimit | programs/stede_rule_daily_limit/src/instructions/check_transfer.rs:48-81 | whole machine: while a wallet's limit never exceeds L its Stede balance falls by at most (k + 1) L over k days of slots, apart from what it unwraps and burns itself |
| Stede.StoreFollows | programs/stede_hook/src/instructions/execute.rs:92-181 | the machine's store is the chain's run of exactly the transactions that commit |
| Stede.VaultFollows | programs/stede_vault/src/instructions/wrap.rs:64-113 | the machine's vault is the vault's run of its own steps and exactly the committed transfers |
| Stede.TransferMoves | programs/stede_hook/src/instructions/execute.rs:92-181 | a transfer commits exactly when the balance covers it and the hook accepts it, paused or not, and moves the amount from the sender to the wallet in bytes 32..64 of the destination and nothing else |
| Stede.OtherSteps | programs/stede_vault/src/instructions/unwrap.rs:58-107 | every other transaction is the chain's or the vault's alone; no vault step sends Stede past the hook |
| Registry.ValidateHandle | programs/stede_handle_registry/src/validation.rs:6-40 | the loop with its early exits accepts exactly [a-z_][a-z0-9_]{2,19} minus six reserved words, and names the first rule broken |
| Registry.HandleInFigures | programs/stede_handle_registry/src/validation.rs:6-40 | the accepted names in figures: 3 to 20 bytes, lower-case ASCII letters, digits and underscores, no leading digit, not reserved |
| Registry.ReservedWords | programs/stede_handle_registry/src/validation.rs:3-40 | the six reserved words byte by byte; no other name is refused as reserved |
| Registry.RejectionInFigures | programs/stede_handle_registry/src/validation.rs:6-40 | which rejection each kind of bad name gets, first broken rule first |
| Registry.AccountsApart | programs/stede_handle_registry/src/state.rs:25-61 | different wallets, handle accounts and reverse accounts have different addresses |
| Registry.HandleRegistry.ClaimHandle | programs/stede_handle_registry/src/instructions/claim_handle.rs:12-90 | two account creations, validation, both maps and the deposit as one step; any failure restores everything |
| Registry.HandleRegistry.TransferHandle | programs/stede_handle_registry/src/instructions/transfer_handle.rs:8-73 | new reverse account, owner change and closing of the old one as one step; any failure restores everything |
| Registry.HandleRegistry.ReleaseHandle | programs/stede_handle_registry/src/instructions/release_handle.rs:8-43 | both accounts closed to the owner as one step; refusals change nothing |
| Registry.ClaimSucceeds | programs/stede_handle_registry/src/instructions/claim_handle.rs:19-80 | a claim succeeds if and only if the name is valid and free, the wallet has no handle, and it can pay both rents and the deposit |
| Registry.ClaimRefused | programs/stede_handle_registry/src/instructions/claim_handle.rs:12-80 | why a claim is refused, case by case, with the exact rents and gifts in the balance condition |
| Registry.TransferMoves | programs/stede_handle_registry/src/instructions/transfer_handle.rs:18-63 | exactly when a transfer succeeds, and that it moves this one handle and nothing else |
| Registry.TransferRefused | programs/stede_handle_registry/src/instructions/transfer_handle.rs:8-63 | why a transfer is refused, case by case |
| Registry.ReleaseMatches | programs/stede_handle_registry/src/instructions/release_handle.rs:14-31 | exactly the owner can release, always, and the reverse account closed is the one naming the handle, though the program never compares them |
| Registry.ReleaseRefused | programs/stede_handle_registry/src/instructions/release_handle.rs:8-31 | why a release is refused, case by case |
| Registry.SelfTransferRefused | programs/stede_handle_registry/src/instructions/transfer_handle.rs:26-44 | a wallet can never transfer to itself |
| Registry.Bijection | programs/stede_handle_registry/src/instructions/transfer_handle.rs:18-63 | after any run of claims, transfers, releases and payments, name to owner and wallet to name are mutual inverses of equal size on valid names |
| Registry.RunConserves | programs/stede_handle_registry/src/instructions/claim_handle.rs:69-80 | total lamports are constant over any run, so no balance outgrows them |
| Registry.RunKeepsBacked | programs/stede_handle_registry/src/instructions/claim_handle.rs:9-10 | every live handle account holds at least its rent plus 10,000,000 lamports, every reverse account its rent |
| Registry.ClaimEffect | programs/stede_handle_registry/src/instructions/claim_handle.rs:19-80 | the exact amounts a claim moves, earlier gifts to the new accounts counted against the rents |
| Registry.TransferEffect | programs/stede_handle_registry/src/instructions/transfer_handle.rs:26-44 | the exact amounts a transfer moves, gifts to either reverse account included |
| Registry.ReleasePays | programs/stede_handle_registry/src/instructions/release_handle.rs:15-31 | a release pays both balances in full, gifts included, and at least the whole lock-up |
| Registry.PaymentEffect | programs/stede_handle_registry/src/instructions/claim_handle.rs:69-80 | a system transfer succeeds exactly when the balance covers it, moves the amount and touches no handle |
| Registry.TransferNetsZero | programs/stede_handle_registry/src/instructions/transfer_handle.rs:26-44 | a transfer leaves nobody out of pocket, and nets to exactly zero for everybody where registry accounts received no gifts |
| Registry.WalletAccounting | programs/stede_handle_registry/src/instructions/claim_handle.rs:69-80 | over any interleaving, gifts included, a wallet is down by at most one lock-up per claim it made and up by at least one per release, however handles moved; exactly so without gifts |
| Registry.AccountingFromStart | programs/stede_handle_registry/src/instructions/claim_handle.rs:69-80 | from an empty registry without gifts every wallet's balance is exactly its start less its lock-ups plus what its releases and payments brought |
| Registry.Lifecycle | programs/stede_handle_registry/src/instructions/release_handle.rs:15-31 | claim, any number of transfers, release: registry as before, the first owner paid the lock-up at most, the last one received it at least, nobody else lost; without gifts every balance is exactly accounted for |

## Left out

- The SDK's RPC calls, IDL loading, previews, refusal classification and account fetching: network plumbing and log text.
- Token-2022 and SPL Token internals: only balances, supply, mint, burn and transfer, for a fee-free underlying token. Delegate-authorised transfers and the token program's special case for self-transfers are not part of this model.
- Mint creation, metadata, extensions and rent sizing at vault initialisation: only the initial vault fields are kept.
- SHA-256, curve check and bump search in address derivation: an address is its program and the concatenated seed bytes, kept apart from plain keys; a wallet that is itself a derived address appears as its 32 key bytes.
- Borsh layout of the handle registry's accounts: the registry is keyed by name and wallet, which `Registry.AccountsApart` justifies; its bumps are dropped.
- Anchor and the Solana runtime (discriminator dispatch, signature checks, compute limits, transaction fees): signer, `init`, `has_one`, `seeds` and `close` are guards and effects of a step. Where several guards fail at once the model reports the one of existing accounts first, then account creation, then the remaining constraints, then the handler.
- Rent amounts of rule accounts: a created rule account gets a positive balance and closing removes the account; only the handle registry's lamports are followed.
- In `Chain.dfy` the configuration instructions act on the decoded record and save its bytes; their in-place form is the account class of each rule's own file.
- Spending.SpendingBound: counts what leaves by hooked transfer while a limit is set. Unwrapping and burning take Stede out without the hook (programs/stede_vault/src/instructions/unwrap.rs:66-73) and no rule limits them; `Stede.BalanceFallsByLimit` names them apart.
- Hook.NoInterference: is about records with one field per rule; that the accounts behind them are apart is `Ledger.ViewAfterWrite`.
- Hook.OrderIsImmaterial: permutes the rules on records; `Chain.CallOrderIsImmaterial` permutes the calls on account bytes.
- Vault.VaultAccount.constructor: the mints, the token account and the bump are not kept, since no modelled step reads them.
- `Stede.dfy` has one vault with one Stede and one underlying balance per wallet, and takes the transfer's sender for the source account's owner; several token accounts of one wallet and several vaults side by side are not part of this model.
- Direct calls of slow send's, night mode's, the block list's and the friend gate's checks: they change no state.
- `Option`-typed sysvar failures of the friend scan: the current index is taken to load, and an index past the transaction's end loads nothing, which the scan skips as the program does.
- The bytes of the stored extra-account list: transfers interpret the fourteen entries that initialisation writes (programs/stede_hook/src/instructions/initialize_extra_account_meta_list.rs:73-196) without reading them back, since the hook has no instruction that changes them.
- Log messages, error strings, deployment files and the devnet tests.
