/**
 * Whole runs of the chain: every instruction of the rule programs, direct checks and
 * hooked transfers, on the byte store. Each is shown to act on one sender's and mint's
 * rule state only.
 */
module Chain {
  import opened Base
  import opened Addresses
  import opened Records
  import opened Ledger
  import DailyLimit
  import BlockList
  import Cooloff
  import SlowSend
  import NightMode
  import FriendGate
  import Hook
  import Resolution

  /** `sender` signs, save for the two direct checks, which anyone may call on its account.
      `Rewrite` is what all other programs do: they create, change or close an account that
      is no rule account, such as the destination of a transfer; its mint plays no part. */
  datatype Instr =
    | SetLimit(sender: Key, mint: Key, limit: u64, bump: byte)
    | CheckDaily(sender: Key, mint: Key, amount: u64)
    | AddBlocked(sender: Key, mint: Key, wallet: Key, bump: byte)
    | RemoveBlocked(sender: Key, mint: Key, wallet: Key)
    | SetCooloff(sender: Key, mint: Key, threshold: u64, duration: i64, bump: byte)
    | DisableCooloff(sender: Key, mint: Key)
    | CheckCooloff(sender: Key, mint: Key, amount: u64)
    | SetSlowSend(sender: Key, mint: Key, delay: i64, bump: byte)
    | DisableSlowSend(sender: Key, mint: Key)
    | RegisterRecipient(sender: Key, mint: Key, recipient: Key, bump: byte)
    | SetTimeWindow(sender: Key, mint: Key, start: byte, end: byte, bump: byte)
    | DisableTimeWindow(sender: Key, mint: Key)
    | SetFriendGate(sender: Key, mint: Key, threshold: u64, friend: Key, bump: byte)
    | DisableFriendGate(sender: Key, mint: Key)
    | Transfer(sender: Key, mint: Key, source: Address, dest: Key, metaList: Address, amount: u64, sysvar: FriendGate.Sysvar)
    | Rewrite(sender: Key, mint: Key, address: Address, account: Option<Account>)

  function Closing<T>(s: Option<T>, owner: T -> Key, sender: Key): Result<()> {
    if s == None then Err(AccountMissing)
    else if owner(s.value) != sender then Err(ConstraintViolated)
    else Ok(())
  }

  /** The data the account resolver sees. */
  function Visible(store: Store): Resolution.Data {
    map a | a in store :: store[a].data
  }

  /** A transfer's accounts: the fourteen entries that initialisation stores, interpreted and
      bound to the hook's struct. */
  function Accounts(store: Store, source: Address, mint: Key, dest: Key, owner: Key, metaList: Address): Result<Resolution.Execute> {
    var accounts :- Resolution.ResolveAll([source, Raw(mint), Raw(dest), Raw(owner), metaList], Resolution.Extras(), Visible(store));
    Resolution.Bind(accounts)
  }

  /** One instruction on the bytes. An error means the transaction is rolled back. */
  function Exec(store: Store, i: Instr, clock: Clock): Result<Store> {
    match i
    case SetLimit(s, m, limit, bump) =>
      var d :- DailyLimit.SetLimitTo(DailyAt(store, s, m), s, m, limit, clock.slot, bump);
      Ok(Save(store, DailySlot(s, m), EncodeDaily(d)))
    case CheckDaily(s, m, amount) => DailyCheck(store, AddressOf(DailySlot(s, m)), amount, clock.slot)
    case AddBlocked(s, m, wallet, bump) =>
      var b :- BlockList.Add(BlocksAt(store, s, m), s, m, wallet, bump);
      Ok(Save(store, BlockSlot(s, m), EncodeBlocks(b)))
    case RemoveBlocked(s, m, wallet) =>
      var b :- BlockList.Remove(BlocksAt(store, s, m), s, m, wallet);
      Ok(Save(store, BlockSlot(s, m), EncodeBlocks(b)))
    case SetCooloff(s, m, threshold, duration, bump) =>
      var c :- Cooloff.Configure(CoolingAt(store, s, m), s, m, threshold, duration, bump);
      Ok(Save(store, CoolSlot(s, m), EncodeCooling(c)))
    case DisableCooloff(s, m) =>
      var _ :- Closing(CoolingAt(store, s, m), (c: Cooloff.Cooling) => c.sender, s);
      Ok(Close(store, CoolSlot(s, m)))
    case CheckCooloff(s, m, amount) => CoolCheck(store, AddressOf(CoolSlot(s, m)), amount, clock.now)
    case SetSlowSend(s, m, delay, bump) =>
      var c :- SlowSend.Configure(SlowAt(store, s, m), s, m, delay, bump);
      Ok(Save(store, SlowSlot(s, m), EncodeSlow(c)))
    case DisableSlowSend(s, m) =>
      var _ :- Closing(SlowAt(store, s, m), (c: SlowSend.Config) => c.sender, s);
      Ok(Close(store, SlowSlot(s, m)))
    case RegisterRecipient(s, m, r, bump) =>
      if ContactAt(store, s, r, m).Some? then Err(AlreadyInUse)
      else Ok(Save(store, ContactSlot(s, r, m), EncodeContact(SlowSend.Contact(clock.now, bump))))
    case SetTimeWindow(s, m, start, end, bump) =>
      var w :- NightMode.Configure(s, m, start, end, bump);
      Ok(Save(store, NightSlot(s, m), EncodeNight(w)))
    case DisableTimeWindow(s, m) =>
      var _ :- Closing(NightAt(store, s, m), (w: NightMode.Window) => w.sender, s);
      Ok(Close(store, NightSlot(s, m)))
    case SetFriendGate(s, m, threshold, friend, bump) =>
      var g :- FriendGate.Configure(GateAt(store, s, m), s, m, threshold, friend, bump);
      Ok(Save(store, GateSlot(s, m), EncodeGate(g)))
    case DisableFriendGate(s, m) =>
      var _ :- Closing(GateAt(store, s, m), (g: FriendGate.Gate) => g.sender, s);
      Ok(Close(store, GateSlot(s, m)))
    case Transfer(o, m, source, dest, metaList, amount, sv) =>
      var ex :- Accounts(store, source, m, dest, o, metaList);
      HookOnBytes(store, ex, amount, clock, sv)
    case Rewrite(_, _, a, account) =>
      if RuleOwned(a) then Err(ConstraintViolated)
      else Ok(if account.Some? then store[a := account.value] else store - {a})
  }

  /** The recipient an instruction is about, where it is about one. */
  function Recipient(store: Store, i: Instr): Key {
    match i
    case RegisterRecipient(_, _, r, _) => r
    case Transfer(_, _, _, dest, _, _, _) =>
      if |DataOf(store, Raw(dest))| >= 64 then DataOf(store, Raw(dest))[32..64] else ZERO_KEY
    case _ => ZERO_KEY
  }

  /** The same instruction on the records: the state of its own sender, recipient and mint. */
  function Step(v: Hook.RuleState, i: Instr, r: Key, clock: Clock): Result<Hook.RuleState> {
    match i
    case SetLimit(s, m, limit, bump) =>
      var d :- DailyLimit.SetLimitTo(v.daily, s, m, limit, clock.slot, bump);
      Ok(v.(daily := Some(d)))
    case CheckDaily(_, _, amount) =>
      var d :- DailyLimit.CheckOpt(v.daily, amount, clock.slot);
      Ok(v.(daily := d))
    case AddBlocked(s, m, wallet, bump) =>
      var b :- BlockList.Add(v.blocks, s, m, wallet, bump);
      Ok(v.(blocks := Some(b)))
    case RemoveBlocked(s, m, wallet) =>
      var b :- BlockList.Remove(v.blocks, s, m, wallet);
      Ok(v.(blocks := Some(b)))
    case SetCooloff(s, m, threshold, duration, bump) =>
      var c :- Cooloff.Configure(v.cooling, s, m, threshold, duration, bump);
      Ok(v.(cooling := Some(c)))
    case DisableCooloff(_, _) => if v.cooling == None then Err(AccountMissing) else Ok(v.(cooling := None))
    case CheckCooloff(_, _, amount) =>
      var c :- Cooloff.CheckOpt(v.cooling, amount, clock.now);
      Ok(v.(cooling := c))
    case SetSlowSend(s, m, delay, bump) =>
      var c :- SlowSend.Configure(v.slow, s, m, delay, bump);
      Ok(v.(slow := Some(c)))
    case DisableSlowSend(_, _) => if v.slow == None then Err(AccountMissing) else Ok(v.(slow := None))
    case RegisterRecipient(_, _, _, bump) =>
      if v.contact.Some? then Err(AlreadyInUse) else Ok(v.(contact := Some(SlowSend.Contact(clock.now, bump))))
    case SetTimeWindow(s, m, start, end, bump) =>
      var w :- NightMode.Configure(s, m, start, end, bump);
      Ok(v.(night := Some(w)))
    case DisableTimeWindow(_, _) => if v.night == None then Err(AccountMissing) else Ok(v.(night := None))
    case SetFriendGate(s, m, threshold, friend, bump) =>
      var g :- FriendGate.Configure(v.gate, s, m, threshold, friend, bump);
      Ok(v.(gate := Some(g)))
    case DisableFriendGate(_, _) => if v.gate == None then Err(AccountMissing) else Ok(v.(gate := None))
    case Transfer(_, _, _, _, _, amount, sv) =>
      Hook.RunRules(Hook.ORDER, v, Hook.Transfer(r, amount, clock.slot, clock.now, sv))
    case Rewrite(_, _, a, _) => if RuleOwned(a) then Err(ConstraintViolated) else Ok(v)
  }

  // ---- Refinement ------------------------------------------------------------------------

  /** From a to b the state of sender s0 and mint m0 becomes u (as seen for recipient r0),
      and nothing else changes: no other sender, mint or recipient. */
  ghost predicate Evolves(a: Store, b: Store, s0: Key, m0: Key, r0: Key, u: Hook.RuleState) {
    forall s, r, m ::
      View(b, s, r, m) == if s == s0 && m == m0
                          then u.(contact := if r == r0 then u.contact else View(a, s, r, m).contact)
                          else View(a, s, r, m)
  }

  lemma OneSlotEvolves(a: Store, b: Store, x: Slot, r0: Key)
    requires OnlySlot(a, b, x) && (x.ContactSlot? ==> x.recipient == r0)
    ensures Evolves(a, b, x.sender, x.mint, r0, View(b, x.sender, r0, x.mint))
  {
    hide AddressOf, OnlySlot, DailyAt, BlocksAt, CoolingAt, SlowAt, ContactAt, NightAt, GateAt;
    forall s, r, m
      ensures View(b, s, r, m) == if s == x.sender && m == x.mint
                                  then View(b, s, r0, m).(contact := if r == r0 then View(b, s, r0, m).contact else View(a, s, r, m).contact)
                                  else View(a, s, r, m)
    {
      ViewAfterWrite(a, b, x, s, r, m);
    }
  }

  lemma HookEvolves(a: Store, b: Store, s0: Key, m0: Key, r0: Key)
    requires OnlySlots(a, b, DailySlot(s0, m0), CoolSlot(s0, m0))
    ensures Evolves(a, b, s0, m0, r0, View(b, s0, r0, m0))
  {
    hide AddressOf, OnlySlot, DailyAt, BlocksAt, CoolingAt, SlowAt, ContactAt, NightAt, GateAt;
    var x, y := AddressOf(DailySlot(s0, m0)), AddressOf(CoolSlot(s0, m0));
    var mid := map z | z in a.Keys + b.Keys && (if z == x then z in b else z in a) :: if z == x then b[z] else a[z];
    assert OnlySlot(a, mid, DailySlot(s0, m0)) && OnlySlot(mid, b, CoolSlot(s0, m0)) by {
      SplitWrites(a, mid, b, DailySlot(s0, m0), CoolSlot(s0, m0));
    }
    forall s, r, m
      ensures View(b, s, r, m) == if s == s0 && m == m0
                                  then View(b, s, r0, m).(contact := if r == r0 then View(b, s, r0, m).contact else View(a, s, r, m).contact)
                                  else View(a, s, r, m)
    {
      ViewAfterWrite(a, mid, DailySlot(s0, m0), s, r, m);
      ViewAfterWrite(mid, b, CoolSlot(s0, m0), s, r, m);
      ViewAfterWrite(a, mid, DailySlot(s0, m0), s, r0, m);
      ViewAfterWrite(mid, b, CoolSlot(s0, m0), s, r0, m);
    }
  }

  lemma SplitWrites(a: Store, mid: Store, b: Store, x: Slot, y: Slot)
    requires OnlySlots(a, b, x, y)
    requires forall z: Address :: if z == AddressOf(x) then SameAt(mid, b, z) else SameAt(mid, a, z)
    ensures OnlySlot(a, mid, x) && OnlySlot(mid, b, y)
  {
    hide AddressOf;
    forall z: Address | z != AddressOf(y) ensures SameAt(mid, b, z) {
      if z != AddressOf(x) {
        assert SameAt(a, b, z) && SameAt(mid, a, z);
      }
    }
    forall z: Address | z != AddressOf(x) ensures SameAt(a, mid, z) {
      assert SameAt(mid, a, z);
    }
  }

  /** On bytes and on records the instruction has the same verdict, and on success the
      bytes then stand for the stepped state, still canonically. */
  ghost predicate Refined(store: Store, i: Instr, clock: Clock, r0: Key) {
    match Step(View(store, i.sender, r0, i.mint), i, r0, clock)
    case Err(e) => Exec(store, i, clock) == Err(e)
    case Ok(u) =>
      && Exec(store, i, clock).Ok?
      && AllCanonical(Exec(store, i, clock).value)
      && Evolves(store, Exec(store, i, clock).value, i.sender, i.mint, r0, u)
  }

  lemma DailyInstr(store: Store, i: Instr, clock: Clock, r0: Key)
    requires AllCanonical(store) && i.sender != ZERO_KEY && (i.SetLimit? || i.CheckDaily?)
    ensures Refined(store, i, clock, r0)
  {
    hide AddressOf, OnlySlot, Evolves, DecodeDaily, Save;
    hide BlocksAt, CoolingAt, SlowAt, ContactAt, NightAt, GateAt;
    var s, m, x := i.sender, i.mint, DailySlot(i.sender, i.mint);
    assert Canonical(store, x);
    DailyRefines(store, s, m, if i.CheckDaily? then i.amount else 0, clock.slot);
    var u := Step(View(store, s, r0, m), i, r0, clock);
    var t := Exec(store, i, clock);
    if u.Ok? {
      if u.value.daily.Some? {
        SaveDaily(store, s, m, u.value.daily.value);
      } else {
        Untouched(store, x);
      }
      ViewAfterWrite(store, t.value, x, s, r0, m);
      OneSlotEvolves(store, t.value, x, r0);
    }
  }

  lemma Untouched(store: Store, x: Slot)
    ensures OnlySlot(store, store, x)
  {
  }

  lemma BlockInstr(store: Store, i: Instr, clock: Clock, r0: Key)
    requires AllCanonical(store) && i.sender != ZERO_KEY && (i.AddBlocked? || i.RemoveBlocked?)
    ensures Refined(store, i, clock, r0)
  {
    hide AddressOf, OnlySlot, Evolves, DecodeBlocks, Save, BlockList.Find, BlockList.FirstEmpty;
    hide DailyAt, CoolingAt, SlowAt, ContactAt, NightAt, GateAt;
    var s, m, x := i.sender, i.mint, BlockSlot(i.sender, i.mint);
    assert Canonical(store, x);
    var u := Step(View(store, s, r0, m), i, r0, clock);
    var t := Exec(store, i, clock);
    if u.Ok? {
      SaveBlocks(store, s, m, u.value.blocks.value);
      ViewAfterWrite(store, t.value, x, s, r0, m);
      OneSlotEvolves(store, t.value, x, r0);
    }
  }

  lemma CoolInstr(store: Store, i: Instr, clock: Clock, r0: Key)
    requires AllCanonical(store) && i.sender != ZERO_KEY && (i.SetCooloff? || i.DisableCooloff?)
    ensures Refined(store, i, clock, r0)
  {
    hide AddressOf, OnlySlot, Evolves, DecodeCooling, Save, Close;
    hide DailyAt, BlocksAt, SlowAt, ContactAt, NightAt, GateAt;
    var s, m, x := i.sender, i.mint, CoolSlot(i.sender, i.mint);
    assert Canonical(store, x);
    var u := Step(View(store, s, r0, m), i, r0, clock);
    var t := Exec(store, i, clock);
    if u.Ok? {
      if u.value.cooling.Some? {
        SaveCooling(store, s, m, u.value.cooling.value);
      } else {
        CloseSlot(store, x);
      }
      ViewAfterWrite(store, t.value, x, s, r0, m);
      OneSlotEvolves(store, t.value, x, r0);
    }
  }

  lemma CoolCheckInstr(store: Store, i: Instr, clock: Clock, r0: Key)
    requires AllCanonical(store) && i.sender != ZERO_KEY && i.CheckCooloff?
    ensures Refined(store, i, clock, r0)
  {
    hide AddressOf, OnlySlot, Evolves, DecodeCooling, Save, Close;
    hide DailyAt, BlocksAt, SlowAt, ContactAt, NightAt, GateAt;
    hide CoolCheck;
    var s, m, x := i.sender, i.mint, CoolSlot(i.sender, i.mint);
    assert Canonical(store, x);
    CoolRefines(store, s, m, i.amount, clock.now);
    var t := Exec(store, i, clock);
    if t.Ok? {
      var c := Cooloff.CheckOpt(CoolingAt(store, s, m), i.amount, clock.now);
      if c.value.Some? {
        SaveCooling(store, s, m, c.value.value);
      } else {
        Untouched(store, x);
      }
      ViewAfterWrite(store, t.value, x, s, r0, m);
      OneSlotEvolves(store, t.value, x, r0);
    }
  }

  lemma SlowInstr(store: Store, i: Instr, clock: Clock, r0: Key)
    requires AllCanonical(store) && i.sender != ZERO_KEY && (i.SetSlowSend? || i.DisableSlowSend?)
    ensures Refined(store, i, clock, r0)
  {
    hide AddressOf, OnlySlot, Evolves, ReadSlow, Save, Close;
    hide DailyAt, BlocksAt, CoolingAt, ContactAt, NightAt, GateAt;
    var s, m, x := i.sender, i.mint, SlowSlot(i.sender, i.mint);
    assert Canonical(store, x);
    var u := Step(View(store, s, r0, m), i, r0, clock);
    var t := Exec(store, i, clock);
    if u.Ok? {
      if u.value.slow.Some? {
        SaveSlow(store, s, m, u.value.slow.value);
      } else {
        CloseSlot(store, x);
      }
      ViewAfterWrite(store, t.value, x, s, r0, m);
      OneSlotEvolves(store, t.value, x, r0);
    }
  }

  lemma ContactInstr(store: Store, i: Instr, clock: Clock)
    requires AllCanonical(store) && i.RegisterRecipient?
    ensures Refined(store, i, clock, i.recipient)
  {
    hide AddressOf, OnlySlot, Evolves, ReadContact, Save;
    hide DailyAt, BlocksAt, CoolingAt, SlowAt, NightAt, GateAt;
    var s, m, r0, x := i.sender, i.mint, i.recipient, ContactSlot(i.sender, i.recipient, i.mint);
    var u := Step(View(store, s, r0, m), i, r0, clock);
    var t := Exec(store, i, clock);
    if u.Ok? {
      SaveContact(store, s, r0, m, u.value.contact.value);
      ViewAfterWrite(store, t.value, x, s, r0, m);
      OneSlotEvolves(store, t.value, x, r0);
    }
  }

  lemma NightInstr(store: Store, i: Instr, clock: Clock, r0: Key)
    requires AllCanonical(store) && i.sender != ZERO_KEY && (i.SetTimeWindow? || i.DisableTimeWindow?)
    ensures Refined(store, i, clock, r0)
  {
    hide AddressOf, OnlySlot, Evolves, ReadHours, Save, Close;
    hide DailyAt, BlocksAt, CoolingAt, SlowAt, ContactAt, GateAt;
    var s, m, x := i.sender, i.mint, NightSlot(i.sender, i.mint);
    var u := Step(View(store, s, r0, m), i, r0, clock);
    var t := Exec(store, i, clock);
    if u.Ok? {
      if u.value.night.Some? {
        SaveNight(store, s, m, u.value.night.value);
      } else {
        CloseSlot(store, x);
      }
      ViewAfterWrite(store, t.value, x, s, r0, m);
      OneSlotEvolves(store, t.value, x, r0);
    }
  }

  lemma GateInstr(store: Store, i: Instr, clock: Clock, r0: Key)
    requires AllCanonical(store) && i.sender != ZERO_KEY && (i.SetFriendGate? || i.DisableFriendGate?)
    ensures Refined(store, i, clock, r0)
  {
    hide AddressOf, OnlySlot, Evolves, ReadGate, Save, Close;
    hide DailyAt, BlocksAt, CoolingAt, SlowAt, ContactAt, NightAt;
    var s, m, x := i.sender, i.mint, GateSlot(i.sender, i.mint);
    assert Canonical(store, x);
    var u := Step(View(store, s, r0, m), i, r0, clock);
    var t := Exec(store, i, clock);
    if u.Ok? {
      if u.value.gate.Some? {
        SaveGate(store, s, m, u.value.gate.value);
      } else {
        CloseSlot(store, x);
      }
      ViewAfterWrite(store, t.value, x, s, r0, m);
      OneSlotEvolves(store, t.value, x, r0);
    }
  }

  lemma RewriteInstr(store: Store, i: Instr, clock: Clock, r0: Key)
    requires AllCanonical(store) && i.Rewrite?
    ensures Refined(store, i, clock, r0)
  {
    hide AddressOf, View, AllCanonical;
    if !RuleOwned(i.address) {
      var t := Exec(store, i, clock).value;
      SameRuleAccounts(store, t);
      ContactOnly(store, i.sender, i.mint);
    }
  }

  /** Only the contact depends on the recipient. */
  lemma ContactOnly(store: Store, s: Key, m: Key)
    ensures forall r, r0 :: View(store, s, r, m) == View(store, s, r0, m).(contact := View(store, s, r, m).contact)
  {
    hide DailyAt, BlocksAt, CoolingAt, SlowAt, ContactAt, NightAt, GateAt;
  }

  lemma TransferInstr(store: Store, i: Instr, clock: Clock)
    requires AllCanonical(store) && i.Transfer? && |DataOf(store, Raw(i.dest))| >= 64
    ensures Refined(store, i, clock, Recipient(store, i))
  {
    hide AddressOf, OnlySlots, Evolves, View, HookOnBytes, Resolution.ResolveAll, Resolution.Bind, Resolution.Canonical, Hook.RunRules;
    var o, m, dest, r0 := i.sender, i.mint, Raw(i.dest), Recipient(store, i);
    Resolution.ResolutionIsCanonical(i.source, m, dest, o, i.metaList, r0, Visible(store));
    HookRefines(store, i.source, m, dest, o, i.metaList, i.amount, clock, i.sysvar);
    if Step(View(store, o, r0, m), i, r0, clock).Ok? {
      HookEvolves(store, Exec(store, i, clock).value, o, m, r0);
    }
  }

  /** The order of the six calls is immaterial on the bytes, too: any permutation of them
      has the hook's verdict, and leaves the hook's state for every sender, recipient and
      mint. */
  lemma CallOrderIsImmaterial(order: seq<Hook.Rule>, store: Store, source: Address, m: Key, dest: Address, o: Key,
                              metaList: Address, amount: u64, clock: Clock, sv: FriendGate.Sysvar)
    requires multiset(order) == multiset(Hook.ORDER)
    requires AllCanonical(store) && dest.Raw? && |DataOf(store, dest)| >= 64
    ensures var ex := Resolution.CanonicalExecute(source, m, dest, o, metaList, DataOf(store, dest)[32..64]);
            var permuted, hook := CallsOnBytes(order, store, ex, amount, clock, sv), HookOnBytes(store, ex, amount, clock, sv);
            && permuted.Ok? == hook.Ok?
            && (hook.Ok? ==> forall s, r, k :: View(permuted.value, s, r, k) == View(hook.value, s, r, k))
  {
    hide AddressOf, OnlySlots, View, HookOnBytes, CallsOnBytes, AllCanonical, DataOf, Hook.RunRules, Resolution.CanonicalExecute;
    var r0: Key := DataOf(store, dest)[32..64];
    var ex := Resolution.CanonicalExecute(source, m, dest, o, metaList, r0);
    var permuted, hook := CallsOnBytes(order, store, ex, amount, clock, sv), HookOnBytes(store, ex, amount, clock, sv);
    Hook.OrderIsImmaterial(order, View(store, o, r0, m), Hook.Transfer(r0, amount, clock.slot, clock.now, sv));
    CallsRefine(order, store, source, m, dest, o, metaList, amount, clock, sv);
    HookRefines(store, source, m, dest, o, metaList, amount, clock, sv);
    if hook.Ok? {
      HookEvolves(store, permuted.value, o, m, r0);
      HookEvolves(store, hook.value, o, m, r0);
    }
  }

  /** Over canonical accounts every instruction on the bytes refines its step on the
      records, and leaves every other sender's, mint's and recipient's state alone. */
  lemma ExecRefines(store: Store, i: Instr, clock: Clock)
    requires AllCanonical(store) && i.sender != ZERO_KEY
    requires i.Transfer? ==> |DataOf(store, Raw(i.dest))| >= 64
    ensures Refined(store, i, clock, Recipient(store, i))
  {
    hide Exec, Step, Refined, AllCanonical;
    var r0 := Recipient(store, i);
    match i
    case SetLimit(_, _, _, _) => DailyInstr(store, i, clock, r0);
    case CheckDaily(_, _, _) => DailyInstr(store, i, clock, r0);
    case AddBlocked(_, _, _, _) => BlockInstr(store, i, clock, r0);
    case RemoveBlocked(_, _, _) => BlockInstr(store, i, clock, r0);
    case SetCooloff(_, _, _, _, _) => CoolInstr(store, i, clock, r0);
    case DisableCooloff(_, _) => CoolInstr(store, i, clock, r0);
    case CheckCooloff(_, _, _) => CoolCheckInstr(store, i, clock, r0);
    case SetSlowSend(_, _, _, _) => SlowInstr(store, i, clock, r0);
    case DisableSlowSend(_, _) => SlowInstr(store, i, clock, r0);
    case RegisterRecipient(_, _, _, _) => ContactInstr(store, i, clock);
    case SetTimeWindow(_, _, _, _, _) => NightInstr(store, i, clock, r0);
    case DisableTimeWindow(_, _) => NightInstr(store, i, clock, r0);
    case SetFriendGate(_, _, _, _, _) => GateInstr(store, i, clock, r0);
    case DisableFriendGate(_, _) => GateInstr(store, i, clock, r0);
    case Transfer(_, _, _, _, _, _, _) => TransferInstr(store, i, clock);
    case Rewrite(_, _, _, _) => RewriteInstr(store, i, clock, r0);
  }

  /** The codes of the account constraints: what is created must not exist, what is closed must. */
  lemma AccountCodes(store: Store, i: Instr, clock: Clock)
    requires AllCanonical(store) && i.sender != ZERO_KEY
    ensures i.RegisterRecipient? ==>
              (if ContactAt(store, i.sender, i.recipient, i.mint).Some? then Exec(store, i, clock) == Err(AlreadyInUse)
               else Exec(store, i, clock).Ok?)
    ensures i.DisableCooloff? && CoolingAt(store, i.sender, i.mint) == None ==> Exec(store, i, clock) == Err(AccountMissing)
    ensures i.DisableSlowSend? && SlowAt(store, i.sender, i.mint) == None ==> Exec(store, i, clock) == Err(AccountMissing)
    ensures i.DisableTimeWindow? && NightAt(store, i.sender, i.mint) == None ==> Exec(store, i, clock) == Err(AccountMissing)
    ensures i.DisableFriendGate? && GateAt(store, i.sender, i.mint) == None ==> Exec(store, i, clock) == Err(AccountMissing)
    ensures i.RemoveBlocked? && BlocksAt(store, i.sender, i.mint) == None ==> Exec(store, i, clock) == Err(AccountMissing)
    ensures i.Rewrite? ==> (Exec(store, i, clock).Ok? <==> !RuleOwned(i.address))
    ensures i.Rewrite? && Exec(store, i, clock).Ok? ==>
              var t := Exec(store, i, clock).value;
              && (if i.account.Some? then i.address in t && t[i.address] == i.account.value else i.address !in t)
              && forall a: Address :: a != i.address ==> SameAt(store, t, a)
  {
    hide AddressOf, DailyAt, BlocksAt, CoolingAt, SlowAt, ContactAt, NightAt, GateAt, DailyCheck, CoolCheck, HookOnBytes;
    hide Resolution.ResolveAll, Resolution.Bind;
  }

  // ---- Runs -------------------------------------------------------------------------------

  datatype Tx = Tx(clock: Clock, instr: Instr)

  /** A transaction commits whole or not at all. */
  function Commit(store: Store, tx: Tx): Store {
    match Exec(store, tx.instr, tx.clock) case Ok(t) => t case Err(_) => store
  }

  function Run(store: Store, txs: seq<Tx>): Store
    decreases |txs|
  {
    if txs == [] then store else Run(Commit(store, txs[0]), txs[1..])
  }

  /** The zero key cannot sign. */
  ghost predicate Signed(txs: seq<Tx>) {
    forall i :: 0 <= i < |txs| ==> txs[i].instr.sender != ZERO_KEY
  }

  lemma CommitEvolves(store: Store, tx: Tx)
    requires AllCanonical(store) && tx.instr.sender != ZERO_KEY
    ensures AllCanonical(Commit(store, tx))
    ensures Exec(store, tx.instr, tx.clock).Ok? ==>
              var i, r0 := tx.instr, Recipient(store, tx.instr);
              && Step(View(store, i.sender, r0, i.mint), i, r0, tx.clock).Ok?
              && Evolves(store, Commit(store, tx), i.sender, i.mint, r0,
                         Step(View(store, i.sender, r0, i.mint), i, r0, tx.clock).value)
  {
    hide AddressOf, Step, AllCanonical, View, Evolves;
    var i := tx.instr;
    if i.Transfer? && |DataOf(store, Raw(i.dest))| < 64 {
      Resolution.ShortDestinationNeverResolves(i.source, i.mint, Raw(i.dest), i.sender, i.metaList, Visible(store));
    } else {
      ExecRefines(store, i, tx.clock);
    }
  }

  lemma {:induction false} RunCanonical(store: Store, txs: seq<Tx>)
    requires AllCanonical(store) && Signed(txs)
    ensures AllCanonical(Run(store, txs))
    decreases |txs|
  {
    hide AddressOf, AllCanonical, Exec, Commit;
    if txs != [] {
      CommitEvolves(store, txs[0]);
      RunCanonical(Commit(store, txs[0]), txs[1..]);
    }
  }

  /** Over any run, what a sender has set for a mint changes only by instructions of the
      programs on that sender and mint: everyone else's transfers and settings, and whatever
      other programs do to other accounts, leave it as it is. */
  lemma {:induction false} Locality(store: Store, txs: seq<Tx>, s: Key, r: Key, m: Key)
    requires AllCanonical(store) && Signed(txs)
    requires forall i :: 0 <= i < |txs| ==> txs[i].instr.Rewrite? || txs[i].instr.sender != s || txs[i].instr.mint != m
    ensures AllCanonical(Run(store, txs))
    ensures View(Run(store, txs), s, r, m) == View(store, s, r, m)
    decreases |txs|
  {
    hide AddressOf, Exec, AllCanonical, Commit, View, Evolves;
    if txs != [] {
      CommitEvolves(store, txs[0]);
      if txs[0].instr.Rewrite? {
        RewriteChangesNothing(store, txs[0], s, r, m);
      } else {
        OthersUntouched(store, txs[0], s, r, m);
      }
      Locality(Commit(store, txs[0]), txs[1..], s, r, m);
    }
  }

  lemma RewriteChangesNothing(store: Store, tx: Tx, s: Key, r: Key, m: Key)
    requires AllCanonical(store) && tx.instr.Rewrite?
    ensures View(Commit(store, tx), s, r, m) == View(store, s, r, m)
  {
    hide AddressOf, View, AllCanonical;
    if !RuleOwned(tx.instr.address) {
      SameRuleAccounts(store, Commit(store, tx));
    }
  }

  lemma OthersUntouched(store: Store, tx: Tx, s: Key, r: Key, m: Key)
    requires AllCanonical(store) && tx.instr.sender != ZERO_KEY && (tx.instr.sender != s || tx.instr.mint != m)
    ensures View(Commit(store, tx), s, r, m) == View(store, s, r, m)
  {
    hide AddressOf, Exec, Step, AllCanonical, View;
    CommitEvolves(store, tx);
  }

  /** A chain on which every rule address has no account, or one without data, or one without
      lamports, is canonical, and no rule is set for anyone. */
  lemma GenesisCanonical(store: Store)
    requires forall x: Slot ::
               var a := AddressOf(x); a !in store || |store[a].data| == 0 || store[a].lamports == 0
    ensures AllCanonical(store)
    ensures forall s, r, m :: View(store, s, r, m) == Hook.RuleState(None, None, None, None, None, None, None)
  {
    hide AddressOf, DailyAt, BlocksAt, CoolingAt, SlowAt, ContactAt, NightAt, GateAt;
    forall s, r, m ensures View(store, s, r, m) == Hook.RuleState(None, None, None, None, None, None, None) {
      NothingSet(store, s, r, m);
    }
  }

  lemma NothingSet(store: Store, s: Key, r: Key, m: Key)
    requires forall x: Slot ::
               var a := AddressOf(x); a !in store || |store[a].data| == 0 || store[a].lamports == 0
    ensures View(store, s, r, m) == Hook.RuleState(None, None, None, None, None, None, None)
  {
    hide AddressOf, DecodeDaily, DecodeBlocks, DecodeCooling, ReadSlow, ReadContact, ReadHours, ReadGate;
  }

  /** On such a chain every transfer to a token account commits, and leaves it as it is. */
  lemma OptIn(store: Store, i: Instr, clock: Clock)
    requires forall x: Slot ::
               var a := AddressOf(x); a !in store || |store[a].data| == 0 || store[a].lamports == 0
    requires i.Transfer? && |DataOf(store, Raw(i.dest))| >= 64
    ensures Exec(store, i, clock) == Ok(store)
  {
    hide AddressOf, Resolution.ResolveAll, Resolution.Bind, Resolution.Canonical;
    hide DailyCheck, BlockCheck, CoolCheck, SlowCheck, NightCheck, GateCheck, DecodeDaily, DecodeCooling;
    var o, m, dest, r := i.sender, i.mint, Raw(i.dest), Recipient(store, i);
    Resolution.ResolutionIsCanonical(i.source, m, dest, o, i.metaList, r, Visible(store));
    NotConfiguredPasses(store, AddressOf(DailySlot(o, m)));
    NotConfiguredPasses(store, AddressOf(BlockSlot(o, m)));
    NotConfiguredPasses(store, AddressOf(CoolSlot(o, m)));
    NotConfiguredPasses(store, AddressOf(SlowSlot(o, m)));
    NotConfiguredPasses(store, AddressOf(NightSlot(o, m)));
    NotConfiguredPasses(store, AddressOf(GateSlot(o, m)));
  }

  /** Only a first registration touches the contact. */
  lemma ContactOfStep(v: Hook.RuleState, i: Instr, r: Key, clock: Clock)
    requires Step(v, i, r, clock).Ok?
    ensures Step(v, i, r, clock).value.contact
            == if i.RegisterRecipient? then Some(SlowSend.Contact(clock.now, i.bump)) else v.contact
    ensures i.RegisterRecipient? ==> v.contact == None
  {
    if i.Transfer? {
      Hook.OrderWrittenOut(v, Hook.Transfer(r, i.amount, clock.slot, clock.now, i.sysvar));
    }
  }
}
