/**
 * The six rules as their owner may read them: when exactly the next transfer commits, in
 * terms of what the owner has asked for and of what moved since, and of nothing stored.
 */
module Promise {
  import opened Base
  import opened Addresses
  import opened Ledger
  import opened Chain
  import BlockList
  import DailyLimit
  import FriendGate
  import Guarantees
  import Hook
  import NightMode
  import SlowSend
  import Spending
  import Waiting

  /** Daily limit: the last positive limit asked for has room for the amount. */
  ghost predicate WithinLimit(store: Store, txs: seq<Tx>, i: Instr, clock: Clock)
    requires i.Transfer?
  {
    var limit := DailyLimit.InForce(None, Spending.LimitRequests(txs, i.sender, i.mint));
    limit.Some? ==> Spending.Used(store, txs, i.sender, i.mint, clock.slot) + i.amount <= limit.value
  }

  /** Block list: the recipient is not in the set that the requests describe. */
  ghost predicate NotBlocked(txs: seq<Tx>, i: Instr, r: Key) {
    r !in BlockList.SetRun({}, Guarantees.BlockRequests(txs, i.sender, i.mint))
  }

  /** Cool-off: below the threshold last asked for, or the duration last asked for has passed
      since the last check that reached the threshold. */
  ghost predicate CooledDown(store: Store, txs: seq<Tx>, i: Instr, clock: Clock)
    requires i.Transfer?
  {
    var terms := Waiting.InForce(None, txs, i.sender, i.mint);
    var last := Waiting.LastCheck(0, None, store, txs, i.sender, i.mint);
    terms.Some? && i.amount >= terms.value.0 ==> terms.value.1 <= clock.now - last < I64_HALF
  }

  /** Slow send: the recipient was first asked to be registered at least the delay last asked for ago. */
  ghost predicate Aged(txs: seq<Tx>, i: Instr, r: Key, clock: Clock) {
    var delay := SlowSend.InForce(None, Guarantees.SlowRequests(txs, i.sender, i.mint));
    var first := Guarantees.FirstAsked(txs, i.sender, r, i.mint);
    delay.Some? ==> first.Some? && delay.value <= clock.now - first.value < I64_HALF
  }

  /** Night mode: the hour of day is outside the window last asked for. */
  ghost predicate Awake(txs: seq<Tx>, i: Instr, clock: Clock) {
    var hours := NightMode.InForce(None, Guarantees.NightRequests(txs, i.sender, i.mint));
    var from, hour := if hours.Some? then hours.value.0 else 0, (clock.now % 86_400) / 3600;
    hours.Some? ==> (hour - from) % 24 >= (hours.value.1 - from) % 24
  }

  /** Friend gate: below the threshold last asked for, or signed by the friend last asked for. */
  ghost predicate Vouched(txs: seq<Tx>, i: Instr)
    requires i.Transfer?
  {
    var demand := FriendGate.InForce(i.sender, None, Guarantees.GateRequests(txs, i.sender, i.mint));
    demand.Some? && i.amount >= demand.value.0 ==> FriendGate.Cosigned(i.sysvar, demand.value.1)
  }

  /** The whole promise. On a chain that began with nothing set for s and m, after any run of
      anyone's transactions, a transfer of s's in mint m to a token account commits if and only
      if the six conditions hold. */
  lemma CommitsExactly(store: Store, txs: seq<Tx>, i: Instr, clock: Clock)
    requires AllCanonical(store) && Signed(txs) && Spending.InOrder(txs)
    requires forall k :: 0 <= k < |txs| ==> txs[k].clock.slot <= clock.slot
    requires i.Transfer? && i.sender != ZERO_KEY
    requires forall r :: View(store, i.sender, r, i.mint) == Hook.RuleState(None, None, None, None, None, None, None)
    requires |DataOf(Run(store, txs), Raw(i.dest))| >= 64
    ensures var r := Recipient(Run(store, txs), i);
            Exec(Run(store, txs), i, clock).Ok? <==>
              && WithinLimit(store, txs, i, clock)
              && NotBlocked(txs, i, r)
              && CooledDown(store, txs, i, clock)
              && Aged(txs, i, r, clock)
              && Awake(txs, i, clock)
              && Vouched(txs, i)
  {
    hide AddressOf, AllCanonical, Exec, Run, View, Hook.RunRules, Hook.Allowed, WithinLimit, NotBlocked, CooledDown, Aged, Awake, Vouched;
    var now, r := Run(store, txs), Recipient(Run(store, txs), i);
    RunCanonical(store, txs);
    Guarantees.TransferIsHook(now, i, clock);
    Hook.HookIsAllowed(View(now, i.sender, r, i.mint), Guarantees.Shape(now, i, clock));
    LimitHolds(store, txs, i, clock);
    SettingsHold(store, txs, i, clock);
    CooloffHolds(store, txs, i, clock);
    Conjunction(View(now, i.sender, r, i.mint), Guarantees.Shape(now, i, clock));
  }

  // The conditions of `Hook.Allowed`, one by one.

  predicate DailyOk(d: Option<DailyLimit.Daily>, amount: u64, slot: u64) {
    DailyLimit.CheckOpt(d, amount, slot).Ok?
  }

  ghost predicate CoolOk(v: Hook.RuleState, t: Hook.Transfer) {
    v.cooling.Some? && t.amount >= v.cooling.value.threshold ==>
      FitsI64(t.now - v.cooling.value.lastLarge) && t.now - v.cooling.value.lastLarge >= v.cooling.value.duration
  }

  ghost predicate SlowOk(v: Hook.RuleState, t: Hook.Transfer) {
    v.slow.Some? ==>
      v.contact.Some? && FitsI64(t.now - v.contact.value.firstAt) && t.now - v.contact.value.firstAt >= v.slow.value.delay
  }

  ghost predicate NightOk(v: Hook.RuleState, t: Hook.Transfer) {
    v.night.Some? ==> !NightMode.InWindow(v.night.value.start, v.night.value.end, (t.now % 86_400) / 3600)
  }

  ghost predicate GateOk(v: Hook.RuleState, t: Hook.Transfer) {
    v.gate.Some? && t.amount >= v.gate.value.threshold ==> FriendGate.Cosigned(t.sysvar, v.gate.value.friend)
  }

  lemma Conjunction(v: Hook.RuleState, t: Hook.Transfer)
    ensures Hook.Allowed(v, t) <==>
              && DailyOk(v.daily, t.amount, t.slot)
              && t.recipient !in BlockList.Wallets(v.blocks)
              && CoolOk(v, t) && SlowOk(v, t) && NightOk(v, t) && GateOk(v, t)
  {
    hide BlockList.Wallets, NightMode.InWindow, FriendGate.Cosigned;
  }

  lemma LimitHolds(store: Store, txs: seq<Tx>, i: Instr, clock: Clock)
    requires AllCanonical(store) && Signed(txs) && Spending.InOrder(txs) && i.Transfer? && i.sender != ZERO_KEY
    requires forall k :: 0 <= k < |txs| ==> txs[k].clock.slot <= clock.slot
    requires View(store, i.sender, ZERO_KEY, i.mint).daily == None
    ensures var now, r := Run(store, txs), Recipient(Run(store, txs), i);
            DailyOk(View(now, i.sender, r, i.mint).daily, i.amount, clock.slot) <==> WithinLimit(store, txs, i, clock)
  {
    hide AddressOf, AllCanonical, Run, DailyAt, Spending.Used, DailyLimit.InForce, DailyLimit.CheckOpt;
    Spending.NextCheckPasses(store, txs, i.sender, i.mint, i.amount, clock.slot);
  }

  lemma SettingsHold(store: Store, txs: seq<Tx>, i: Instr, clock: Clock)
    requires AllCanonical(store) && Signed(txs) && i.Transfer? && i.sender != ZERO_KEY
    requires forall r :: View(store, i.sender, r, i.mint) == Hook.RuleState(None, None, None, None, None, None, None)
    ensures var now, r := Run(store, txs), Recipient(Run(store, txs), i);
            var v, t := View(now, i.sender, r, i.mint), Guarantees.Shape(now, i, clock);
            && (t.recipient !in BlockList.Wallets(v.blocks) <==> NotBlocked(txs, i, r))
            && (SlowOk(v, t) <==> Aged(txs, i, r, clock))
            && (NightOk(v, t) <==> Awake(txs, i, clock))
            && (GateOk(v, t) <==> Vouched(txs, i))
  {
    hide AddressOf, AllCanonical, Run, FriendGate.Cosigned, BlockList.Wallets;
    hide DailyAt, BlocksAt, CoolingAt, SlowAt, NightAt, GateAt, ContactAt;
    hide BlockList.SetRun, BlockList.Run, SlowSend.ConfigRun, NightMode.Run, FriendGate.Run;
    hide SlowSend.InForce, NightMode.InForce, FriendGate.InForce, Guarantees.FirstAsked;
    var s, m, now, r := i.sender, i.mint, Run(store, txs), Recipient(Run(store, txs), i);
    assert View(store, s, r, m) == Hook.RuleState(None, None, None, None, None, None, None);
    Guarantees.ViewSettings(store, s, r, m);
    Guarantees.ViewSettings(now, s, r, m);
    Guarantees.SettingsFollow(store, txs, s, m);
    Guarantees.ContactIsFirstAsked(store, txs, s, r, m);
    NothingBlocked();
    BlockList.RunRefinesSet(s, m, None, Guarantees.BlockRequests(txs, s, m));
    SlowSend.RunHoldsInForce(s, m, None, Guarantees.SlowRequests(txs, s, m));
    NightMode.RunHoldsInForce(s, m, None, Guarantees.NightRequests(txs, s, m));
    NightMode.HoursAreHours(None, Guarantees.NightRequests(txs, s, m));
    FriendGate.RunHoldsInForce(s, m, None, Guarantees.GateRequests(txs, s, m));
    DelayIsPositive(Guarantees.SlowRequests(txs, s, m));
    var hours := NightMode.InForce(None, Guarantees.NightRequests(txs, s, m));
    if hours.Some? {
      NightMode.WindowIsCyclic(hours.value.0, hours.value.1, (clock.now % 86_400) / 3600);
    }
  }

  lemma NothingBlocked()
    ensures BlockList.Wallets(None) == {}
  {
  }

  lemma {:induction false} DelayIsPositive(es: seq<SlowSend.Event>)
    ensures var delay := SlowSend.InForce(None, es); delay.Some? ==> delay.value >= 1
    decreases |es|
  {
    if es != [] {
      DelayIsPositive(es[..|es| - 1]);
    }
  }

  lemma CooloffHolds(store: Store, txs: seq<Tx>, i: Instr, clock: Clock)
    requires AllCanonical(store) && Signed(txs) && i.Transfer? && i.sender != ZERO_KEY
    requires View(store, i.sender, ZERO_KEY, i.mint).cooling == None
    ensures var now, r := Run(store, txs), Recipient(Run(store, txs), i);
            CoolOk(View(now, i.sender, r, i.mint), Guarantees.Shape(now, i, clock)) <==> CooledDown(store, txs, i, clock)
  {
    hide AddressOf, AllCanonical, Run, CoolingAt, Waiting.InForce, Waiting.LastCheck;
    var s, m, now, r := i.sender, i.mint, Run(store, txs), Recipient(Run(store, txs), i);
    Waiting.ViewCooling(store, s, ZERO_KEY, m);
    Waiting.ViewCooling(now, s, r, m);
    Waiting.TermsFollow(store, txs, s, m);
    Waiting.TimestampIsLastCheck(store, txs, s, m);
    DurationIsPositive(txs, s, m);
  }

  lemma {:induction false} DurationIsPositive(txs: seq<Tx>, s: Key, m: Key)
    ensures Waiting.AtLeast(Waiting.InForce(None, txs, s, m), 1)
    decreases |txs|
  {
    if txs != [] {
      DurationIsPositive(txs[..|txs| - 1], s, m);
    }
  }
}
