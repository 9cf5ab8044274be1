/**
 * The imperative side: the checks read and overwrite account bytes in place, the hook
 * calls them one after another with early exit, and the runtime around them undoes
 * everything a refused transfer touched.
 */
module Bank {
  import opened Base
  import opened Addresses
  import opened Records
  import opened Ledger
  import DailyLimit
  import FriendGate
  import Hook
  import Resolution
  import Chain

  class Runtime {
    var store: Store
    var balances: map<Address, nat>

    constructor (accounts: Store, tokens: map<Address, nat>)
      ensures store == accounts && balances == tokens
    {
      store := accounts;
      balances := tokens;
    }

    method DailyLimitCheckTransfer(a: Address, amount: u64, slot: u64) returns (r: Result<()>)
      modifies this`store
      ensures match DailyCheck(old(store), a, amount, slot)
              case Ok(s) => r == Ok(()) && store == s
              case Err(e) => r == Err(e) && store == old(store)
    {
      hide AddressOf, EncodeDaily;
      if Unset(store, a) {
        return Ok(());
      }
      var info := store[a];
      if info.owner != DailyLimitProgram {
        return Err(InvalidConfigAccount);
      }
      var decoded := DecodeDaily(info.data);
      if decoded.Err? {
        return Err(decoded.error);
      }
      var daily := decoded.value;
      if a != AddressOf(DailySlot(daily.sender, daily.mint)) {
        return Err(InvalidConfigAccount);
      }
      if SatSub(slot, daily.windowStart) >= DailyLimit.SLOTS_PER_DAY {
        daily := daily.(spent := 0, windowStart := slot);
      }
      var total := daily.spent + amount;
      if total >= U64_RANGE {
        return Err(Overflow);
      }
      if total > daily.limit {
        return Err(DailyLimitExceeded);
      }
      daily := daily.(spent := total);
      store := store[a := info.(data := WriteBack(info.data, EncodeDaily(daily)).value)];
      return Ok(());
    }

    method CooloffCheckTransfer(a: Address, amount: u64, now: i64) returns (r: Result<()>)
      modifies this`store
      ensures match CoolCheck(old(store), a, amount, now)
              case Ok(s) => r == Ok(()) && store == s
              case Err(e) => r == Err(e) && store == old(store)
    {
      hide AddressOf, EncodeCooling;
      if Unset(store, a) {
        return Ok(());
      }
      var info := store[a];
      if info.owner != CooloffProgram {
        return Err(InvalidConfigAccount);
      }
      var decoded := DecodeCooling(info.data);
      if decoded.Err? {
        return Err(decoded.error);
      }
      var cooling := decoded.value;
      if a != AddressOf(CoolSlot(cooling.sender, cooling.mint)) {
        return Err(InvalidConfigAccount);
      }
      if amount < cooling.threshold {
        return Ok(());
      }
      var elapsed := now - cooling.lastLarge;
      if !FitsI64(elapsed) {
        return Err(Overflow);
      }
      if elapsed < cooling.duration {
        return Err(CooloffActive);
      }
      cooling := cooling.(lastLarge := now);
      store := store[a := info.(data := WriteBack(info.data, EncodeCooling(cooling)).value)];
      return Ok(());
    }

    method FriendGateCheckTransfer(a: Address, sysvar: Address, amount: u64, sv: FriendGate.Sysvar) returns (r: Result<()>)
      ensures r == GateCheck(store, a, sysvar, amount, sv)
    {
      var demand := GateDemand(store, a, sysvar, amount);
      if demand.Err? {
        return Err(demand.error);
      }
      if demand.value == None {
        return Ok(());
      }
      var signed := FriendGate.ScanForFriend(sv, demand.value.value);
      return if signed then Ok(()) else Err(FriendSignatureRequired);
    }

    /** `execute_handler`: six calls, the first refusal ends it, with the writes of the
        calls before it still in the store. */
    method Execute(ex: Resolution.Execute, amount: u64, clock: Clock, sv: FriendGate.Sysvar) returns (r: Result<()>)
      modifies this`store
      ensures match HookOnBytes(old(store), ex, amount, clock, sv)
              case Ok(s) => r == Ok(()) && store == s
              case Err(e) => r == Err(e)
    {
      r := DailyLimitCheckTransfer(ex.dailyLimit, amount, clock.slot);
      if r.Err? {
        return;
      }
      var dest := DataOf(store, ex.destinationToken);
      if |dest| < 64 {
        return Err(OutOfBounds);
      }
      var recipient: Key := dest[32..64];
      r := BlockCheck(store, ex.blockList, recipient);
      if r.Err? {
        return;
      }
      r := CooloffCheckTransfer(ex.cooloff, amount, clock.now);
      if r.Err? {
        return;
      }
      r := SlowCheck(store, ex.slowConfig, ex.slowContact, DataOf(store, ex.destinationToken), clock.now);
      if r.Err? {
        return;
      }
      r := NightCheck(store, ex.nightConfig, ex.owner, ex.stedeMint, clock.now);
      if r.Err? {
        return;
      }
      r := FriendGateCheckTransfer(ex.friendGate, ex.sysvar, amount, sv);
    }

    /** A hooked transfer as one transaction: the token program moves the balances, then
        the accounts are resolved and the hook runs; any error restores both. */
    method TransferChecked(source: Address, mint: Key, dest: Key, owner: Key, metaList: Address,
                           amount: u64, clock: Clock, sv: FriendGate.Sysvar)
      returns (r: Result<()>)
      modifies this
      ensures var got := Chain.Exec(old(store), Chain.Transfer(owner, mint, source, dest, metaList, amount, sv), clock);
              && (r.Ok? <==> CanMove(old(balances), source, Raw(dest), amount) && got.Ok?)
              && (r.Ok? ==> store == got.value && balances == Move(old(balances), source, Raw(dest), amount))
              && (r.Err? ==> store == old(store) && balances == old(balances))
      ensures SumMap(balances) == SumMap(old(balances))
    {
      hide AddressOf, HookOnBytes, Resolution.ResolveAll, Resolution.Bind, Chain.Visible, Chain.Exec;
      ExecOfTransfer(store, Chain.Transfer(owner, mint, source, dest, metaList, amount, sv), clock);
      var savedStore, savedBalances := store, balances;
      if Get(balances, source) < amount {
        return Err(InsufficientFunds);
      }
      var debited := balances[source := Get(balances, source) - amount];
      if Get(debited, Raw(dest)) + amount >= U64_RANGE {
        return Err(TokenOverflow);
      }
      MoveKeepsSum(balances, source, Raw(dest), amount);
      balances := debited[Raw(dest) := Get(debited, Raw(dest)) + amount];
      var accounts := Resolution.Resolve([source, Raw(mint), Raw(dest), Raw(owner), metaList], Resolution.Extras(), Chain.Visible(store));
      if accounts.Err? {
        store, balances := savedStore, savedBalances;
        return Err(accounts.error);
      }
      var ex := Resolution.Bind(accounts.value);
      if ex.Err? {
        store, balances := savedStore, savedBalances;
        return Err(ex.error);
      }
      r := Execute(ex.value, amount, clock, sv);
      if r.Err? {
        store, balances := savedStore, savedBalances;
      }
    }
  }

  lemma ExecOfTransfer(store: Store, i: Chain.Instr, clock: Clock)
    requires i.Transfer?
    ensures var ex := Chain.Accounts(store, i.source, i.mint, i.dest, i.sender, i.metaList);
            Chain.Exec(store, i, clock)
              == if ex.Err? then Err(ex.error) else HookOnBytes(store, ex.value, i.amount, clock, i.sysvar)
  {
    hide HookOnBytes;
  }

  predicate CanMove(balances: map<Address, nat>, source: Address, dest: Address, amount: nat) {
    && amount <= Get(balances, source)
    && Get(balances[source := Get(balances, source) - amount], dest) + amount < U64_RANGE
  }

  /** On chain-resolved accounts no address check of any rule can fail: with canonical
      accounts a transfer errs only with a refusal of one of the six rules. */
  lemma OnlyRulesRefuse(store: Store, i: Chain.Instr, clock: Clock)
    requires AllCanonical(store) && i.Transfer? && i.sender != ZERO_KEY && |DataOf(store, Raw(i.dest))| >= 64
    ensures var r := Chain.Recipient(store, i);
            var t := Hook.Transfer(r, i.amount, clock.slot, clock.now, i.sysvar);
            Chain.Exec(store, i, clock).Ok? <==> Hook.Allowed(View(store, i.sender, r, i.mint), t)
    ensures Chain.Exec(store, i, clock).Err? ==>
              Chain.Exec(store, i, clock).error in
                {Overflow, DailyLimitExceeded, RecipientBlocked, CooloffActive, RecipientNotRegistered,
                 WaitingPeriodActive, WithinBlockedWindow, FriendSignatureRequired}
  {
    hide AddressOf, AllCanonical, View, Chain.Exec, Chain.Evolves, Hook.RunRules, Hook.Allowed;
    var r := Chain.Recipient(store, i);
    var t := Hook.Transfer(r, i.amount, clock.slot, clock.now, i.sysvar);
    Chain.ExecRefines(store, i, clock);
    Hook.HookIsAllowed(View(store, i.sender, r, i.mint), t);
    Hook.OrderWrittenOut(View(store, i.sender, r, i.mint), t);
  }
}
