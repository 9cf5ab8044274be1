/**
 * What slow send, the block list, night mode and the friend gate guarantee of committed
 * transfers, end to end, and how the verdicts on different amounts are related: over any
 * run of the chain, on account bytes, resolved accounts and whoever's instructions.
 */
module Guarantees {
  import opened Base
  import opened Addresses
  import opened Records
  import opened Ledger
  import opened Chain
  import BlockList
  import Cooloff
  import SlowSend
  import NightMode
  import FriendGate
  import Hook
  import Resolution
  import Waiting

  // ---- Registrations, end to end ---------------------------------------------------------------

  predicate Registers(tx: Tx, s: Key, r: Key, m: Key) {
    var i := tx.instr;
    i.RegisterRecipient? && i.sender == s && i.recipient == r && i.mint == m
  }

  /** When s first asked to register r for mint m. */
  function FirstAsked(txs: seq<Tx>, s: Key, r: Key, m: Key): Option<i64> {
    if txs == [] then None
    else if Registers(txs[0], s, r, m) then Some(txs[0].clock.now)
    else FirstAsked(txs[1..], s, r, m)
  }

  /** One transaction and the contact of r: the first registration stores it, nothing else does. */
  lemma CommitContact(store: Store, tx: Tx, s: Key, r: Key, m: Key)
    requires AllCanonical(store) && tx.instr.sender != ZERO_KEY
    ensures var c := ContactAt(store, s, r, m);
            ContactAt(Commit(store, tx), s, r, m)
              == if Registers(tx, s, r, m) && c == None then Some(SlowSend.Contact(tx.clock.now, tx.instr.bump)) else c
  {
    hide AddressOf, Exec, Step, AllCanonical, ContactAt;
    var i, r0 := tx.instr, Recipient(store, tx.instr);
    CommitEvolves(store, tx);
    if Exec(store, i, tx.clock).Ok? {
      ContactOfStep(View(store, i.sender, r0, i.mint), i, r0, tx.clock);
      assert View(Commit(store, tx), s, r, m).contact == ContactAt(Commit(store, tx), s, r, m);
      assert View(store, s, r, m).contact == ContactAt(store, s, r, m);
    } else if Registers(tx, s, r, m) {
      ExecRefines(store, i, tx.clock);
      RegistrationRefused(View(store, s, r, m), i, r, tx.clock);
      assert View(store, s, r, m).contact == ContactAt(store, s, r, m);
    }
  }

  lemma RegistrationRefused(v: Hook.RuleState, i: Instr, r: Key, clock: Clock)
    requires i.RegisterRecipient? && Step(v, i, r, clock).Err?
    ensures v.contact.Some?
  {
  }

  /** Over any run a contact once stored never changes, and one not yet stored gets the time
      of the first request to register it. */
  lemma {:induction false} ContactIsFirstAsked(store: Store, txs: seq<Tx>, s: Key, r: Key, m: Key)
    requires AllCanonical(store) && Signed(txs)
    ensures var before, after, asked := ContactAt(store, s, r, m), ContactAt(Run(store, txs), s, r, m), FirstAsked(txs, s, r, m);
            && (before.Some? ==> after == before)
            && (before == None ==> (after == None <==> asked == None) && (after.Some? ==> after.value.firstAt == asked.value))
    decreases |txs|
  {
    hide AddressOf, Exec, Step, AllCanonical, ContactAt, Commit;
    if txs != [] {
      CommitEvolves(store, txs[0]);
      CommitContact(store, txs[0], s, r, m);
      ContactIsFirstAsked(Commit(store, txs[0]), txs[1..], s, r, m);
    }
  }

  /** The six conditions hold wherever a transfer commits. */
  lemma CommittedIsAllowed(store: Store, tx: Tx)
    requires AllCanonical(store) && tx.instr.Transfer? && tx.instr.sender != ZERO_KEY
    ensures var i, r := tx.instr, Recipient(store, tx.instr);
            Exec(store, i, tx.clock).Ok? ==>
              Hook.Allowed(View(store, i.sender, r, i.mint), Hook.Transfer(r, i.amount, tx.clock.slot, tx.clock.now, i.sysvar))
  {
    hide AddressOf, Exec, AllCanonical, View, Evolves, Hook.RunRules, Hook.Allowed;
    var i, r := tx.instr, Recipient(store, tx.instr);
    CommitEvolves(store, tx);
    Hook.HookIsAllowed(View(store, i.sender, r, i.mint), Hook.Transfer(r, i.amount, tx.clock.slot, tx.clock.now, i.sysvar));
  }

  // ---- Settings, end to end -------------------------------------------------------------------

  /** The four records that only their owner's instructions change. */
  datatype Settings = Settings(blocks: Option<BlockList.Blocks>, slow: Option<SlowSend.Config>,
                               night: Option<NightMode.Window>, gate: Option<FriendGate.Gate>)

  function SettingsAt(store: Store, s: Key, m: Key): Settings {
    Settings(BlocksAt(store, s, m), SlowAt(store, s, m), NightAt(store, s, m), GateAt(store, s, m))
  }

  function SettingsOf(v: Hook.RuleState): Settings {
    Settings(v.blocks, v.slow, v.night, v.gate)
  }

  // What s asked of each rule for mint m, granted or not.

  function BlockRequest(i: Instr, s: Key, m: Key): seq<BlockList.Event> {
    if i.sender != s || i.mint != m then []
    else if i.AddBlocked? then [BlockList.Block(i.wallet, i.bump)]
    else if i.RemoveBlocked? then [BlockList.Unblock(i.wallet)]
    else []
  }

  function SlowRequest(i: Instr, s: Key, m: Key): seq<SlowSend.Event> {
    if i.sender != s || i.mint != m then []
    else if i.SetSlowSend? then [SlowSend.Set(i.delay, i.bump)]
    else if i.DisableSlowSend? then [SlowSend.Disable]
    else []
  }

  function NightRequest(i: Instr, s: Key, m: Key): seq<NightMode.Event> {
    if i.sender != s || i.mint != m then []
    else if i.SetTimeWindow? then [NightMode.Set(i.start, i.end, i.bump)]
    else if i.DisableTimeWindow? then [NightMode.Disable]
    else []
  }

  function GateRequest(i: Instr, s: Key, m: Key): seq<FriendGate.Event> {
    if i.sender != s || i.mint != m then []
    else if i.SetFriendGate? then [FriendGate.Set(i.threshold, i.friend, i.bump)]
    else if i.DisableFriendGate? then [FriendGate.Disable]
    else []
  }

  function BlockRequests(txs: seq<Tx>, s: Key, m: Key): seq<BlockList.Event>
    decreases |txs|
  {
    if txs == [] then [] else BlockRequest(txs[0].instr, s, m) + BlockRequests(txs[1..], s, m)
  }

  function SlowRequests(txs: seq<Tx>, s: Key, m: Key): seq<SlowSend.Event>
    decreases |txs|
  {
    if txs == [] then [] else SlowRequest(txs[0].instr, s, m) + SlowRequests(txs[1..], s, m)
  }

  function NightRequests(txs: seq<Tx>, s: Key, m: Key): seq<NightMode.Event>
    decreases |txs|
  {
    if txs == [] then [] else NightRequest(txs[0].instr, s, m) + NightRequests(txs[1..], s, m)
  }

  function GateRequests(txs: seq<Tx>, s: Key, m: Key): seq<FriendGate.Event>
    decreases |txs|
  {
    if txs == [] then [] else GateRequest(txs[0].instr, s, m) + GateRequests(txs[1..], s, m)
  }

  /** The rules' own answer to one instruction. */
  function Answer(x: Settings, i: Instr, s: Key, m: Key): Settings {
    Settings(BlockList.Run(s, m, x.blocks, BlockRequest(i, s, m)),
             SlowSend.ConfigRun(s, m, x.slow, SlowRequest(i, s, m)),
             NightMode.Run(s, m, x.night, NightRequest(i, s, m)),
             FriendGate.Run(s, m, x.gate, GateRequest(i, s, m)))
  }

  /** The step, failed steps included, answers the request and changes nothing else of the four. */
  lemma SettingsOfStep(v: Hook.RuleState, i: Instr, r: Key, clock: Clock)
    requires v.slow.Some? ==> v.slow.value.sender == i.sender
    requires v.night.Some? ==> v.night.value.sender == i.sender
    requires v.gate.Some? ==> v.gate.value.sender == i.sender
    ensures var u := match Step(v, i, r, clock) case Ok(u) => u case Err(_) => v;
            SettingsOf(u) == Answer(SettingsOf(v), i, i.sender, i.mint)
  {
    hide BlockList.Add, BlockList.Remove, SlowSend.Configure, FriendGate.Configure, NightMode.Configure;
    SingleRequests(v, i);
    if i.Transfer? {
      Hook.OrderWrittenOut(v, Hook.Transfer(r, i.amount, clock.slot, clock.now, i.sysvar));
    }
  }

  lemma SingleRequests(v: Hook.RuleState, i: Instr)
    ensures var s, m, x := i.sender, i.mint, SettingsOf(v);
            Answer(x, i, s, m) == Settings(
              if i.AddBlocked? then BlockList.Step(s, m, x.blocks, BlockList.Block(i.wallet, i.bump))
              else if i.RemoveBlocked? then BlockList.Step(s, m, x.blocks, BlockList.Unblock(i.wallet)) else x.blocks,
              if i.SetSlowSend? then SlowSend.ConfigStep(s, m, x.slow, SlowSend.Set(i.delay, i.bump))
              else if i.DisableSlowSend? then SlowSend.ConfigStep(s, m, x.slow, SlowSend.Disable) else x.slow,
              if i.SetTimeWindow? then NightMode.Step(s, m, x.night, NightMode.Set(i.start, i.end, i.bump))
              else if i.DisableTimeWindow? then NightMode.Step(s, m, x.night, NightMode.Disable) else x.night,
              if i.SetFriendGate? then FriendGate.Step(s, m, x.gate, FriendGate.Set(i.threshold, i.friend, i.bump))
              else if i.DisableFriendGate? then FriendGate.Step(s, m, x.gate, FriendGate.Disable) else x.gate)
  {
    hide BlockList.Step, SlowSend.ConfigStep, NightMode.Step, FriendGate.Step;
    var s, m, x := i.sender, i.mint, SettingsOf(v);
    forall e: BlockList.Event ensures BlockList.Run(s, m, x.blocks, [e]) == BlockList.Step(s, m, x.blocks, e) {
      assert [e][1..] == [];
    }
    forall e: SlowSend.Event ensures SlowSend.ConfigRun(s, m, x.slow, [e]) == SlowSend.ConfigStep(s, m, x.slow, e) {
      assert [e][1..] == [];
    }
    forall e: NightMode.Event ensures NightMode.Run(s, m, x.night, [e]) == NightMode.Step(s, m, x.night, e) {
      assert [e][1..] == [];
    }
    forall e: FriendGate.Event ensures FriendGate.Run(s, m, x.gate, [e]) == FriendGate.Step(s, m, x.gate, e) {
      assert [e][1..] == [];
    }
  }

  lemma OwnSettings(store: Store, s: Key, m: Key)
    requires AllCanonical(store)
    ensures var x := SettingsAt(store, s, m);
            && (x.slow.Some? ==> x.slow.value.sender == s)
            && (x.night.Some? ==> x.night.value.sender == s)
            && (x.gate.Some? ==> x.gate.value.sender == s)
  {
    hide AddressOf, ReadGate, ReadHours, ReadSlow;
    assert Canonical(store, GateSlot(s, m)) && Canonical(store, SlowSlot(s, m));
  }

  lemma ViewSettings(store: Store, s: Key, r: Key, m: Key)
    ensures SettingsOf(View(store, s, r, m)) == SettingsAt(store, s, m)
  {
    hide BlocksAt, NightAt, GateAt, DailyAt, CoolingAt, SlowAt, ContactAt;
  }

  lemma EvolvedSettings(a: Store, b: Store, s0: Key, m0: Key, r0: Key, u: Hook.RuleState, s: Key, m: Key)
    requires Evolves(a, b, s0, m0, r0, u)
    ensures SettingsOf(View(b, s, r0, m)) == if s == s0 && m == m0 then SettingsOf(u) else SettingsOf(View(a, s, r0, m))
  {
    hide View;
  }

  lemma NoRequest(x: Settings, i: Instr, s: Key, m: Key)
    requires i.sender != s || i.mint != m || i.Transfer?
    ensures Answer(x, i, s, m) == x
  {
  }

  lemma CommitAnswers(store: Store, tx: Tx, s: Key, m: Key)
    requires AllCanonical(store) && tx.instr.sender != ZERO_KEY
    ensures SettingsAt(Commit(store, tx), s, m) == Answer(SettingsAt(store, s, m), tx.instr, s, m)
  {
    hide AddressOf, AllCanonical, Exec, Step, SettingsAt, SettingsOf, View, Evolves, Answer;
    var i, r0 := tx.instr, Recipient(store, tx.instr);
    var v := View(store, i.sender, r0, i.mint);
    ViewSettings(store, s, r0, m);
    ViewSettings(store, i.sender, r0, i.mint);
    ViewSettings(Commit(store, tx), s, r0, m);
    CommitEvolves(store, tx);
    if i.sender != s || i.mint != m || i.Transfer? {
      NoRequest(SettingsAt(store, s, m), i, s, m);
    }
    OwnView(store, i.sender, r0, i.mint);
    SettingsOfStep(v, i, r0, tx.clock);
    if Exec(store, i, tx.clock).Ok? {
      EvolvedSettings(store, Commit(store, tx), i.sender, i.mint, r0, Step(v, i, r0, tx.clock).value, s, m);
    } else if !i.Transfer? {
      ExecRefines(store, i, tx.clock);
    }
  }

  lemma OwnView(store: Store, s: Key, r: Key, m: Key)
    requires AllCanonical(store)
    ensures var v := View(store, s, r, m);
            && (v.slow.Some? ==> v.slow.value.sender == s)
            && (v.night.Some? ==> v.night.value.sender == s)
            && (v.gate.Some? ==> v.gate.value.sender == s)
  {
    hide AllCanonical, BlocksAt, NightAt, GateAt, DailyAt, CoolingAt, SlowAt, ContactAt;
    OwnSettings(store, s, m);
  }

  /** Over any run the stored settings are the rules' own runs of what their owner asked for. */
  lemma {:induction false} SettingsFollow(store: Store, txs: seq<Tx>, s: Key, m: Key)
    requires AllCanonical(store) && Signed(txs)
    ensures var x := SettingsAt(store, s, m);
            SettingsAt(Run(store, txs), s, m)
              == Settings(BlockList.Run(s, m, x.blocks, BlockRequests(txs, s, m)),
                          SlowSend.ConfigRun(s, m, x.slow, SlowRequests(txs, s, m)),
                          NightMode.Run(s, m, x.night, NightRequests(txs, s, m)),
                          FriendGate.Run(s, m, x.gate, GateRequests(txs, s, m)))
    decreases |txs|
  {
    hide AddressOf, AllCanonical, Exec, Commit, SettingsAt, BlockRequest, SlowRequest, NightRequest, GateRequest;
    hide BlockList.Run, SlowSend.ConfigRun, NightMode.Run, FriendGate.Run;
    var x := SettingsAt(store, s, m);
    if txs == [] {
      EmptyRuns(x, s, m);
    } else {
      var i, rest := txs[0].instr, txs[1..];
      CommitEvolves(store, txs[0]);
      CommitAnswers(store, txs[0], s, m);
      SettingsFollow(Commit(store, txs[0]), rest, s, m);
      OneRequest(i, s, m);
      RunsCompose(x, s, m, BlockRequest(i, s, m), BlockRequests(rest, s, m), SlowRequest(i, s, m), SlowRequests(rest, s, m), NightRequest(i, s, m), NightRequests(rest, s, m),
                  GateRequest(i, s, m), GateRequests(rest, s, m));
    }
  }

  lemma OneRequest(i: Instr, s: Key, m: Key)
    ensures |BlockRequest(i, s, m)| <= 1 && |SlowRequest(i, s, m)| <= 1 && |NightRequest(i, s, m)| <= 1 && |GateRequest(i, s, m)| <= 1
  {
  }

  lemma EmptyRuns(x: Settings, s: Key, m: Key)
    ensures BlockList.Run(s, m, x.blocks, []) == x.blocks
    ensures SlowSend.ConfigRun(s, m, x.slow, []) == x.slow
    ensures NightMode.Run(s, m, x.night, []) == x.night
    ensures FriendGate.Run(s, m, x.gate, []) == x.gate
  {
  }

  lemma RunsCompose(x: Settings, s: Key, m: Key, b0: seq<BlockList.Event>, b1: seq<BlockList.Event>,
                    w0: seq<SlowSend.Event>, w1: seq<SlowSend.Event>,
                    n0: seq<NightMode.Event>, n1: seq<NightMode.Event>, g0: seq<FriendGate.Event>, g1: seq<FriendGate.Event>)
    requires |b0| <= 1 && |w0| <= 1 && |n0| <= 1 && |g0| <= 1
    ensures BlockList.Run(s, m, x.blocks, b0 + b1) == BlockList.Run(s, m, BlockList.Run(s, m, x.blocks, b0), b1)
    ensures SlowSend.ConfigRun(s, m, x.slow, w0 + w1) == SlowSend.ConfigRun(s, m, SlowSend.ConfigRun(s, m, x.slow, w0), w1)
    ensures NightMode.Run(s, m, x.night, n0 + n1) == NightMode.Run(s, m, NightMode.Run(s, m, x.night, n0), n1)
    ensures FriendGate.Run(s, m, x.gate, g0 + g1) == FriendGate.Run(s, m, FriendGate.Run(s, m, x.gate, g0), g1)
  {
    hide BlockList.Step, SlowSend.ConfigStep, NightMode.Step, FriendGate.Step;
    if b0 == [] { assert b0 + b1 == b1; } else { assert (b0 + b1)[1..] == b1 && b0[1..] == []; }
    if w0 == [] { assert w0 + w1 == w1; } else { assert (w0 + w1)[1..] == w1 && w0[1..] == []; }
    if n0 == [] { assert n0 + n1 == n1; } else { assert (n0 + n1)[1..] == n1 && n0[1..] == []; }
    if g0 == [] { assert g0 + g1 == g1; } else { assert (g0 + g1)[1..] == g1 && g0[1..] == []; }
  }

  /** The whole system's guarantee for the four rules whose records only their owner changes:
      a transfer of s's in mint m that commits goes to a wallet outside the set that s's block
      and unblock requests describe; to one that s first asked to register at least the delay
      last asked for before; at an hour outside the window last asked for; and from the
      threshold last asked for on with the signature of the friend last asked for. */
  lemma CommittedRespectsRequests(store: Store, txs: seq<Tx>, tx: Tx, s: Key, m: Key)
    requires AllCanonical(store) && Signed(txs) && s != ZERO_KEY
    requires BlockList.Stored(BlocksAt(store, s, m), s, m)
    ensures var now, i, x, r := Run(store, txs), tx.instr, SettingsAt(store, s, m), Recipient(Run(store, txs), tx.instr);
            var delay := SlowSend.InForce(SlowSend.DelayOf(x.slow), SlowRequests(txs, s, m));
            var hours := NightMode.InForce(NightMode.Hours(x.night), NightRequests(txs, s, m));
            var demand := FriendGate.InForce(s, FriendGate.Demand(x.gate), GateRequests(txs, s, m));
            i.Transfer? && i.sender == s && i.mint == m && Exec(now, i, tx.clock).Ok? ==>
              && r !in BlockList.SetRun(BlockList.Wallets(x.blocks), BlockRequests(txs, s, m))
              && (delay.Some? && ContactAt(store, s, r, m) == None ==>
                   FirstAsked(txs, s, r, m).Some? && tx.clock.now - FirstAsked(txs, s, r, m).value >= delay.value)
              && (hours.Some? ==> !NightMode.InWindow(hours.value.0, hours.value.1, (tx.clock.now % 86_400) / 3600))
              && (demand.Some? && i.amount >= demand.value.0 ==> FriendGate.Cosigned(i.sysvar, demand.value.1))
  {
    hide AddressOf, AllCanonical, Exec, Run, BlocksAt, SlowAt, NightAt, GateAt, ContactAt, FriendGate.Cosigned;
    hide BlockRequests, SlowRequests, NightRequests, GateRequests, BlockList.SetRun, FirstAsked;
    hide BlockList.Run, SlowSend.ConfigRun, NightMode.Run, FriendGate.Run, SlowSend.InForce, NightMode.InForce, FriendGate.InForce;
    var now, i, x, r := Run(store, txs), tx.instr, SettingsAt(store, s, m), Recipient(Run(store, txs), tx.instr);
    RunCanonical(store, txs);
    OwnSettings(store, s, m);
    SettingsFollow(store, txs, s, m);
    ContactIsFirstAsked(store, txs, s, r, m);
    BlockList.RunRefinesSet(s, m, x.blocks, BlockRequests(txs, s, m));
    SlowSend.RunHoldsInForce(s, m, x.slow, SlowRequests(txs, s, m));
    NightMode.RunHoldsInForce(s, m, x.night, NightRequests(txs, s, m));
    FriendGate.RunHoldsInForce(s, m, x.gate, GateRequests(txs, s, m));
    if i.Transfer? && i.sender == s && i.mint == m && Exec(now, i, tx.clock).Ok? {
      CommittedIsAllowed(now, tx);
      ViewSettings(now, s, r, m);
      assert View(now, s, r, m).contact == ContactAt(now, s, r, m);
    }
  }

  // ---- Transfers of other amounts --------------------------------------------------------------

  /** What a transfer is to the rules. */
  function Shape(store: Store, i: Instr, clock: Clock): Hook.Transfer
    requires i.Transfer?
  {
    Hook.Transfer(Recipient(store, i), i.amount, clock.slot, clock.now, i.sysvar)
  }

  /** A transfer on the bytes is the hook on the records, and leaves the destination's data. */
  lemma TransferIsHook(store: Store, i: Instr, clock: Clock)
    requires AllCanonical(store) && i.Transfer? && i.sender != ZERO_KEY && |DataOf(store, Raw(i.dest))| >= 64
    ensures var r, t := Recipient(store, i), Exec(store, i, clock);
            match Hook.RunRules(Hook.ORDER, View(store, i.sender, r, i.mint), Shape(store, i, clock))
            case Err(e) => t == Err(e)
            case Ok(u) =>
              && t.Ok? && AllCanonical(t.value)
              && View(t.value, i.sender, r, i.mint) == u
              && DataOf(t.value, Raw(i.dest)) == DataOf(store, Raw(i.dest))
  {
    hide AddressOf, OnlySlots, View, HookOnBytes, Resolution.ResolveAll, Resolution.Bind, Resolution.Canonical, Hook.RunRules, AllCanonical;
    var o, m, dest, r := i.sender, i.mint, Raw(i.dest), Recipient(store, i);
    Resolution.ResolutionIsCanonical(i.source, m, dest, o, i.metaList, r, Visible(store));
    HookRefines(store, i.source, m, dest, o, i.metaList, i.amount, clock, i.sysvar);
    if Exec(store, i, clock).Ok? {
      RawKept(store, Exec(store, i, clock).value, dest, DailySlot(o, m), CoolSlot(o, m));
    }
  }

  lemma RawKept(a: Store, b: Store, x: Address, y: Slot, z: Slot)
    requires OnlySlots(a, b, y, z) && x.Raw?
    ensures DataOf(b, x) == DataOf(a, x)
  {
    hide AddressOf;
    AddressSeeds(y);
    AddressSeeds(z);
    assert SameAt(a, b, x);
  }

  /** Where a transfer would commit, so would a smaller one at the same moment. */
  lemma SmallerCommits(store: Store, i: Instr, clock: Clock, smaller: u64)
    requires AllCanonical(store) && i.Transfer? && i.sender != ZERO_KEY && smaller <= i.amount
    ensures Exec(store, i, clock).Ok? ==> Exec(store, i.(amount := smaller), clock).Ok?
  {
    hide AddressOf, AllCanonical, View, Hook.RunRules, Exec;
    if Exec(store, i, clock).Ok? {
      LongDestination(store, i, clock);
      TransferIsHook(store, i, clock);
      TransferIsHook(store, i.(amount := smaller), clock);
      Hook.DownwardClosed(View(store, i.sender, Recipient(store, i), i.mint), Shape(store, i, clock), smaller);
    }
  }

  lemma LongDestination(store: Store, i: Instr, clock: Clock)
    requires i.Transfer?
    ensures Exec(store, i, clock).Ok? ==> |DataOf(store, Raw(i.dest))| >= 64
  {
    hide HookOnBytes, Resolution.ResolveAll, Resolution.Bind;
    if |DataOf(store, Raw(i.dest))| < 64 {
      Resolution.ShortDestinationNeverResolves(i.source, i.mint, Raw(i.dest), i.sender, i.metaList, Visible(store));
    }
  }

  /** Two transfers of a and of b, one after the other at one clock reading: both commit on
      the bytes exactly when the split is allowed on the records. So a split commits where the
      whole is refused exactly as `Hook.SplitBeatsWhole` says. */
  lemma SplitCommits(store: Store, i: Instr, clock: Clock, a: u64, b: u64)
    requires AllCanonical(store) && i.Transfer? && i.sender != ZERO_KEY && |DataOf(store, Raw(i.dest))| >= 64
    requires Waiting.AtLeast(Waiting.TermsAt(store, i.sender, i.mint), 1)
    ensures var v, t := View(store, i.sender, Recipient(store, i), i.mint), Shape(store, i, clock);
            var first := Exec(store, i.(amount := a), clock);
            && (first.Ok? && Exec(first.value, i.(amount := b), clock).Ok? <==> Hook.SplitAllowed(v, t, a, b))
            && (Exec(store, i, clock).Ok? <==> Hook.Allowed(v, t))
  {
    hide AddressOf, AllCanonical, View, Hook.RunRules, Exec, Hook.SplitAllowed, Hook.Allowed;
    var v, t := View(store, i.sender, Recipient(store, i), i.mint), Shape(store, i, clock);
    var first := Exec(store, i.(amount := a), clock);
    TransferIsHook(store, i, clock);
    TransferIsHook(store, i.(amount := a), clock);
    Hook.HookIsAllowed(v, t);
    Waiting.ViewCooling(store, i.sender, Recipient(store, i), i.mint);
    Hook.SplitExactly(v, t, a, b);
    if first.Ok? {
      TransferIsHook(first.value, i.(amount := b), clock);
    }
  }
}
