/**
 * The account store as the chain keeps it: addresses to bytes. The rule programs'
 * checks on bytes, and the proof that they act on the records the bytes stand for.
 */
module Ledger {
  import opened Base
  import opened Addresses
  import opened Records
  import DailyLimit
  import BlockList
  import Cooloff
  import SlowSend
  import NightMode
  import FriendGate
  import Hook
  import Resolution

  datatype Account = Account(owner: Program, lamports: nat, data: seq<byte>)
  type Store = map<Address, Account>

  /** "Not configured": no data or no lamports. */
  predicate Unset(store: Store, a: Address) {
    a !in store || store[a].data == [] || store[a].lamports == 0
  }

  function DataOf(store: Store, a: Address): seq<byte> {
    if a in store then store[a].data else []
  }

  // ---- The six checks on bytes -----------------------------------------------------

  function DailyCheck(store: Store, a: Address, amount: u64, slot: u64): Result<Store> {
    if Unset(store, a) then Ok(store)
    else if store[a].owner != DailyLimitProgram then Err(InvalidConfigAccount)
    else
      var d :- DecodeDaily(store[a].data);
      if a != AddressOf(DailySlot(d.sender, d.mint)) then Err(InvalidConfigAccount)
      else
        var e :- DailyLimit.Check(d, amount, slot);
        var data :- WriteBack(store[a].data, EncodeDaily(e));
        Ok(store[a := store[a].(data := data)])
  }

  function BlockCheck(store: Store, a: Address, recipient: Key): Result<()> {
    if Unset(store, a) then Ok(())
    else if store[a].owner != BlockListProgram then Err(InvalidConfigAccount)
    else
      var b :- DecodeBlocks(store[a].data);
      if a != AddressOf(BlockSlot(b.sender, b.mint)) then Err(InvalidConfigAccount)
      else BlockList.CheckOpt(Some(b), recipient)
  }

  function CoolCheck(store: Store, a: Address, amount: u64, now: i64): Result<Store> {
    if Unset(store, a) then Ok(store)
    else if store[a].owner != CooloffProgram then Err(InvalidConfigAccount)
    else
      var c :- DecodeCooling(store[a].data);
      if a != AddressOf(CoolSlot(c.sender, c.mint)) then Err(InvalidConfigAccount)
      else if amount < c.threshold then Ok(store)
      else
        var e :- Cooloff.Check(c, amount, now);
        var data :- WriteBack(store[a].data, EncodeCooling(e));
        Ok(store[a := store[a].(data := data)])
  }

  function SlowCheck(store: Store, config: Address, contact: Address, dest: seq<byte>, now: i64): Result<()> {
    if Unset(store, config) then Ok(())
    else
      var c :- ReadSlow(store[config].data);
      if config != AddressOf(SlowSlot(c.sender, c.mint)) || |dest| < 64 then Err(InvalidDestination)
      else if contact != AddressOf(ContactSlot(c.sender, dest[32..64], c.mint)) then Err(InvalidDestination)
      else if Unset(store, contact) then Err(RecipientNotRegistered)
      else
        var firstAt :- ReadContact(store[contact].data);
        SlowSend.CheckOpt(Some(c), Some(SlowSend.Contact(firstAt, 0)), now)
  }

  function NightCheck(store: Store, config: Address, sender: Address, mint: Address, now: i64): Result<()> {
    if !sender.Raw? || !mint.Raw? || config != AddressOf(NightSlot(sender.key, mint.key)) then Err(ConstraintViolated)
    else if Unset(store, config) then Ok(())
    else
      var hours :- ReadHours(store[config].data);
      NightMode.Check(hours.0, hours.1, now)
  }

  /** Everything of the gate's check before the scan of the transaction: None to pass,
      or the friend whose signature is needed. */
  function GateDemand(store: Store, a: Address, sysvar: Address, amount: u64): Result<Option<Key>> {
    if Unset(store, a) then Ok(None)
    else
      var g :- ReadGate(store[a].data);
      if a != AddressOf(GateSlot(g.sender, g.mint)) then Err(SysvarReadFailed)
      else if amount < g.threshold then Ok(None)
      else if sysvar != InstructionsSysvar then Err(SysvarReadFailed)
      else Ok(Some(g.friend))
  }

  function GateCheck(store: Store, a: Address, sysvar: Address, amount: u64, sv: FriendGate.Sysvar): Result<()> {
    var demand :- GateDemand(store, a, sysvar, amount);
    if demand == None || FriendGate.Cosigned(sv, demand.value) then Ok(()) else Err(FriendSignatureRequired)
  }

  datatype Clock = Clock(slot: u64, now: i64)

  /** `execute_handler` on bytes: six calls in sequence, each on the store the ones before left. */
  function HookOnBytes(store: Store, ex: Resolution.Execute, amount: u64, clock: Clock, sv: FriendGate.Sysvar): Result<Store> {
    var s1 :- DailyCheck(store, ex.dailyLimit, amount, clock.slot);
    var dest := DataOf(s1, ex.destinationToken);
    if |dest| < 64 then Err(OutOfBounds)
    else
      var _ :- BlockCheck(s1, ex.blockList, dest[32..64]);
      var s2 :- CoolCheck(s1, ex.cooloff, amount, clock.now);
      var _ :- SlowCheck(s2, ex.slowConfig, ex.slowContact, DataOf(s2, ex.destinationToken), clock.now);
      var _ :- NightCheck(s2, ex.nightConfig, ex.owner, ex.stedeMint, clock.now);
      var _ :- GateCheck(s2, ex.friendGate, ex.sysvar, amount, sv);
      Ok(s2)
  }

  /** The hook's call of one rule, by itself. */
  function CallOnBytes(rule: Hook.Rule, store: Store, ex: Resolution.Execute, amount: u64, clock: Clock, sv: FriendGate.Sysvar)
    : Result<Store>
  {
    var dest := DataOf(store, ex.destinationToken);
    match rule
    case Daily => DailyCheck(store, ex.dailyLimit, amount, clock.slot)
    case Blocks =>
      if |dest| < 64 then Err(OutOfBounds)
      else
        var _ :- BlockCheck(store, ex.blockList, dest[32..64]);
        Ok(store)
    case CoolOff => CoolCheck(store, ex.cooloff, amount, clock.now)
    case Slow =>
      var _ :- SlowCheck(store, ex.slowConfig, ex.slowContact, dest, clock.now);
      Ok(store)
    case Night =>
      var _ :- NightCheck(store, ex.nightConfig, ex.owner, ex.stedeMint, clock.now);
      Ok(store)
    case Friend =>
      var _ :- GateCheck(store, ex.friendGate, ex.sysvar, amount, sv);
      Ok(store)
  }

  /** The calls in any order, with early exit. */
  function CallsOnBytes(order: seq<Hook.Rule>, store: Store, ex: Resolution.Execute, amount: u64, clock: Clock, sv: FriendGate.Sysvar)
    : Result<Store>
  {
    if order == [] then Ok(store)
    else
      var next :- CallOnBytes(order[0], store, ex, amount, clock, sv);
      CallsOnBytes(order[1..], next, ex, amount, clock, sv)
  }

  // ---- What the bytes stand for ------------------------------------------------------

  function DailyAt(store: Store, s: Key, m: Key): Option<DailyLimit.Daily> {
    var a := AddressOf(DailySlot(s, m));
    if Unset(store, a) then None
    else if DecodeDaily(store[a].data).Ok? then Some(DecodeDaily(store[a].data).value) else None
  }

  function BlocksAt(store: Store, s: Key, m: Key): Option<BlockList.Blocks> {
    var a := AddressOf(BlockSlot(s, m));
    if Unset(store, a) then None
    else if DecodeBlocks(store[a].data).Ok? then Some(DecodeBlocks(store[a].data).value) else None
  }

  function CoolingAt(store: Store, s: Key, m: Key): Option<Cooloff.Cooling> {
    var a := AddressOf(CoolSlot(s, m));
    if Unset(store, a) then None
    else if DecodeCooling(store[a].data).Ok? then Some(DecodeCooling(store[a].data).value) else None
  }

  function SlowAt(store: Store, s: Key, m: Key): Option<SlowSend.Config> {
    var a := AddressOf(SlowSlot(s, m));
    if Unset(store, a) then None
    else if ReadSlow(store[a].data).Ok? then Some(ReadSlow(store[a].data).value) else None
  }

  function ContactAt(store: Store, s: Key, r: Key, m: Key): Option<SlowSend.Contact> {
    var a := AddressOf(ContactSlot(s, r, m));
    if Unset(store, a) then None
    else if ReadContact(store[a].data).Ok? && |store[a].data| >= 17
    then Some(SlowSend.Contact(ReadContact(store[a].data).value, store[a].data[16]))
    else None
  }

  function NightAt(store: Store, s: Key, m: Key): Option<NightMode.Window> {
    var a := AddressOf(NightSlot(s, m));
    if Unset(store, a) then None
    else if ReadHours(store[a].data).Ok? && |store[a].data| >= 75
    then
      var h := ReadHours(store[a].data).value;
      Some(NightMode.Window(s, m, h.0, h.1, store[a].data[74]))
    else None
  }

  function GateAt(store: Store, s: Key, m: Key): Option<FriendGate.Gate> {
    var a := AddressOf(GateSlot(s, m));
    if Unset(store, a) then None
    else if ReadGate(store[a].data).Ok? then Some(ReadGate(store[a].data).value) else None
  }

  /** The rule state of one sender, recipient and mint. */
  function View(store: Store, s: Key, r: Key, m: Key): Hook.RuleState {
    Hook.RuleState(DailyAt(store, s, m), BlocksAt(store, s, m), CoolingAt(store, s, m), SlowAt(store, s, m),
                   ContactAt(store, s, r, m), NightAt(store, s, m), GateAt(store, s, m))
  }

  /** The account at a slot is unset, or the program's own account holding exactly the
      serialization of a record that names the slot's sender and mint. */
  ghost predicate Canonical(store: Store, x: Slot) {
    var a := AddressOf(x);
    Unset(store, a) ||
    (&& store[a].owner == ProgramOf(x)
     && match x
        case DailySlot(s, m) =>
          DailyAt(store, s, m).Some? && var d := DailyAt(store, s, m).value;
          d.sender == s && d.mint == m && store[a].data == EncodeDaily(d)
        case BlockSlot(s, m) =>
          BlocksAt(store, s, m).Some? && var b := BlocksAt(store, s, m).value;
          b.sender == s && b.mint == m && store[a].data == EncodeBlocks(b)
        case CoolSlot(s, m) =>
          CoolingAt(store, s, m).Some? && var c := CoolingAt(store, s, m).value;
          c.sender == s && c.mint == m && store[a].data == EncodeCooling(c)
        case SlowSlot(s, m) =>
          SlowAt(store, s, m).Some? && var c := SlowAt(store, s, m).value;
          c.sender == s && c.mint == m && store[a].data == EncodeSlow(c)
        case ContactSlot(s, r, m) =>
          ContactAt(store, s, r, m).Some? && store[a].data == EncodeContact(ContactAt(store, s, r, m).value)
        case NightSlot(s, m) =>
          NightAt(store, s, m).Some? && store[a].data == EncodeNight(NightAt(store, s, m).value)
        case GateSlot(s, m) =>
          GateAt(store, s, m).Some? && var g := GateAt(store, s, m).value;
          g.sender == s && g.mint == m && store[a].data == EncodeGate(g))
  }

  ghost predicate AllCanonical(store: Store) {
    forall x: Slot :: Canonical(store, x)
  }

  /** Derived for one of the six rule programs: only that program can create, change or close it. */
  predicate RuleOwned(a: Address) {
    && a.Pda?
    && a.owner in {DailyLimitProgram, BlockListProgram, CooloffProgram, SlowSendProgram, TimeWindowProgram, FriendGateProgram}
  }

  // ---- Writing one slot ---------------------------------------------------------------

  /** Anchor's account exit: the record's bytes, under the owning program. */
  function Save(store: Store, x: Slot, bytes: seq<byte>): Store {
    var a := AddressOf(x);
    store[a := Account(ProgramOf(x), if a in store && store[a].lamports > 0 then store[a].lamports else 1, bytes)]
  }

  function Close(store: Store, x: Slot): Store {
    store - {AddressOf(x)}
  }

  ghost predicate SameAt(a: Store, b: Store, x: Address) {
    (x in a <==> x in b) && (x in a ==> a[x] == b[x])
  }

  /** b differs from a at most in slot x. */
  ghost predicate OnlySlot(a: Store, b: Store, x: Slot) {
    forall y: Address :: y != AddressOf(x) ==> SameAt(a, b, y)
  }

  ghost predicate OnlySlots(a: Store, b: Store, x: Slot, y: Slot) {
    forall z: Address :: z != AddressOf(x) && z != AddressOf(y) ==> SameAt(a, b, z)
  }

  lemma OtherSlots(a: Store, b: Store, x: Slot, y: Slot)
    requires OnlySlot(a, b, x) && x != y
    ensures SameAt(a, b, AddressOf(y))
    ensures Canonical(a, y) ==> Canonical(b, y)
  {
    hide AddressOf;
    if AddressOf(y) == AddressOf(x) {
      AddressInjective(y, x);
    }
    assert SameAt(a, b, AddressOf(y));
  }

  lemma StillCanonical(a: Store, b: Store, x: Slot)
    requires AllCanonical(a) && OnlySlot(a, b, x) && Canonical(b, x)
    ensures AllCanonical(b)
  {
    hide AddressOf;
    forall y: Slot ensures Canonical(b, y) {
      if y != x {
        OtherSlots(a, b, x, y);
      }
    }
  }

  /** Stores that agree on all rule accounts stand for the same state of everybody. */
  lemma SameRuleAccounts(a: Store, b: Store)
    requires forall y: Address :: RuleOwned(y) ==> SameAt(a, b, y)
    ensures AllCanonical(a) ==> AllCanonical(b)
    ensures forall s, r, m :: View(b, s, r, m) == View(a, s, r, m)
  {
    hide AddressOf, DecodeDaily, DecodeBlocks, DecodeCooling, ReadSlow, ReadContact, ReadHours, ReadGate;
    forall x: Slot ensures SameAt(a, b, AddressOf(x)) && (Canonical(a, x) ==> Canonical(b, x)) {
      AddressSeeds(x);
      assert RuleOwned(AddressOf(x));
    }
    forall s, r, m ensures View(b, s, r, m) == View(a, s, r, m) {
      SameView(a, b, s, r, m);
    }
  }

  lemma SameView(a: Store, b: Store, s: Key, r: Key, m: Key)
    requires forall x: Slot :: SameAt(a, b, AddressOf(x))
    ensures View(b, s, r, m) == View(a, s, r, m)
  {
    hide AddressOf, DecodeDaily, DecodeBlocks, DecodeCooling, ReadSlow, ReadContact, ReadHours, ReadGate;
    assert SameAt(a, b, AddressOf(DailySlot(s, m))) && SameAt(a, b, AddressOf(BlockSlot(s, m)));
    assert SameAt(a, b, AddressOf(CoolSlot(s, m))) && SameAt(a, b, AddressOf(SlowSlot(s, m)));
    assert SameAt(a, b, AddressOf(ContactSlot(s, r, m))) && SameAt(a, b, AddressOf(NightSlot(s, m)));
    assert SameAt(a, b, AddressOf(GateSlot(s, m)));
  }

  /** No rule is configured at an address that has no account, or one without data, or one
      without lamports: whoever sent lamports there, every check passes and changes nothing. */
  lemma NotConfiguredPasses(store: Store, a: Address)
    requires a !in store || |store[a].data| == 0 || store[a].lamports == 0
    ensures forall amount, slot :: DailyCheck(store, a, amount, slot) == Ok(store)
    ensures forall recipient :: BlockCheck(store, a, recipient) == Ok(())
    ensures forall amount, now :: CoolCheck(store, a, amount, now) == Ok(store)
    ensures forall contact, dest, now :: SlowCheck(store, a, contact, dest, now) == Ok(())
    ensures forall s, m, now :: a == AddressOf(NightSlot(s, m)) ==> NightCheck(store, a, Raw(s), Raw(m), now) == Ok(())
    ensures forall sysvar, amount, sv :: GateCheck(store, a, sysvar, amount, sv) == Ok(())
  {
    hide AddressOf;
  }

  /** A rule account that exists with data and lamports is looked at: it must be the rule
      program's own, and live at the address of the sender and mint it names. */
  lemma ForgedConfigRefused(store: Store, a: Address, amount: u64, slot: u64, recipient: Key, now: i64)
    requires a in store && |store[a].data| > 0 && store[a].lamports > 0
    ensures store[a].owner != DailyLimitProgram ==> DailyCheck(store, a, amount, slot) == Err(InvalidConfigAccount)
    ensures store[a].owner != BlockListProgram ==> BlockCheck(store, a, recipient) == Err(InvalidConfigAccount)
    ensures store[a].owner != CooloffProgram ==> CoolCheck(store, a, amount, now) == Err(InvalidConfigAccount)
    ensures DailyCheck(store, a, amount, slot).Ok? ==> exists s, m :: a == AddressOf(DailySlot(s, m))
    ensures BlockCheck(store, a, recipient).Ok? ==> exists s, m :: a == AddressOf(BlockSlot(s, m))
    ensures CoolCheck(store, a, amount, now).Ok? ==> exists s, m :: a == AddressOf(CoolSlot(s, m))
  {
    hide AddressOf;
  }

  lemma ForgedReadsRefused(store: Store, a: Address, contact: Address, dest: seq<byte>, sysvar: Address, amount: u64, sv: FriendGate.Sysvar, now: i64)
    requires a in store && |store[a].data| > 0 && store[a].lamports > 0
    ensures SlowCheck(store, a, contact, dest, now).Ok? ==> exists s, m :: a == AddressOf(SlowSlot(s, m))
    ensures GateCheck(store, a, sysvar, amount, sv).Ok? ==> exists s, m :: a == AddressOf(GateSlot(s, m))
    ensures forall s: Key, m: Key :: a != AddressOf(NightSlot(s, m)) ==> NightCheck(store, a, Raw(s), Raw(m), now) == Err(ConstraintViolated)
  {
    hide AddressOf;
  }

  /** A record kept at another address than its own is refused, each rule with its own code. */
  lemma MisplacedRecordRefused(store: Store, a: Address, d: DailyLimit.Daily, b: BlockList.Blocks, c: Cooloff.Cooling,
                               w: SlowSend.Config, g: FriendGate.Gate, amount: u64, clock: Clock, recipient: Key,
                               contact: Address, dest: seq<byte>, sysvar: Address, sv: FriendGate.Sysvar)
    requires a in store && store[a].lamports > 0
    ensures store[a].owner == DailyLimitProgram && store[a].data == EncodeDaily(d) && a != AddressOf(DailySlot(d.sender, d.mint)) ==>
              DailyCheck(store, a, amount, clock.slot) == Err(InvalidConfigAccount)
    ensures store[a].owner == BlockListProgram && store[a].data == EncodeBlocks(b) && a != AddressOf(BlockSlot(b.sender, b.mint)) ==>
              BlockCheck(store, a, recipient) == Err(InvalidConfigAccount)
    ensures store[a].owner == CooloffProgram && store[a].data == EncodeCooling(c) && a != AddressOf(CoolSlot(c.sender, c.mint)) ==>
              CoolCheck(store, a, amount, clock.now) == Err(InvalidConfigAccount)
    ensures store[a].data == EncodeSlow(w) && a != AddressOf(SlowSlot(w.sender, w.mint)) ==>
              SlowCheck(store, a, contact, dest, clock.now) == Err(InvalidDestination)
    ensures store[a].data == EncodeGate(g) && a != AddressOf(GateSlot(g.sender, g.mint)) ==>
              GateCheck(store, a, sysvar, amount, sv) == Err(SysvarReadFailed)
  {
    hide AddressOf, DecodeDaily, DecodeBlocks, DecodeCooling, ReadSlow, ReadGate;
    DailyRoundTrip(d, []);
    BlocksRoundTrip(b, []);
    CoolingRoundTrip(c, []);
    SlowRoundTrip(w, []);
    GateRoundTrip(g, []);
    assert EncodeDaily(d) + [] == EncodeDaily(d) && EncodeBlocks(b) + [] == EncodeBlocks(b) && EncodeCooling(c) + [] == EncodeCooling(c);
    assert EncodeSlow(w) + [] == EncodeSlow(w) && EncodeGate(g) + [] == EncodeGate(g);
  }

  /** Data that is no record: too short, or with a foreign discriminator where one is read. */
  lemma MalformedRefused(store: Store, a: Address, amount: u64, clock: Clock, recipient: Key, contact: Address, dest: seq<byte>,
                         sysvar: Address, sv: FriendGate.Sysvar)
    requires a in store && store[a].lamports > 0 && |store[a].data| > 0
    ensures store[a].owner == DailyLimitProgram && (|store[a].data| < 97 || store[a].data[..8] != [206, 4, 32, 239, 201, 204, 25, 225]) ==>
              DailyCheck(store, a, amount, clock.slot) == Err(DidNotDeserialize)
    ensures store[a].owner == BlockListProgram && (|store[a].data| < 1098 || store[a].data[..8] != [22, 89, 214, 247, 1, 150, 200, 178]) ==>
              BlockCheck(store, a, recipient) == Err(DidNotDeserialize)
    ensures store[a].owner == CooloffProgram && (|store[a].data| < 97 || store[a].data[..8] != [99, 24, 119, 214, 185, 25, 67, 191]) ==>
              CoolCheck(store, a, amount, clock.now) == Err(DidNotDeserialize)
    ensures |store[a].data| < 81 ==> SlowCheck(store, a, contact, dest, clock.now) == Err(InvalidDestination)
    ensures |store[a].data| < 113 ==> GateCheck(store, a, sysvar, amount, sv) == Err(SysvarReadFailed)
    ensures forall s, m :: a == AddressOf(NightSlot(s, m)) ==>
              (NightCheck(store, a, Raw(s), Raw(m), clock.now) == Err(OutOfBounds) <==> |store[a].data| < 74)
  {
    hide AddressOf;
  }

  /** The gate reads signatures only from the true sysvar, and only when it needs one. */
  lemma WrongSysvarRefused(store: Store, s: Key, m: Key, sysvar: Address, amount: u64, sv: FriendGate.Sysvar)
    requires Canonical(store, GateSlot(s, m)) && GateAt(store, s, m).Some? && sysvar != InstructionsSysvar
    ensures GateCheck(store, AddressOf(GateSlot(s, m)), sysvar, amount, sv)
         == if amount < GateAt(store, s, m).value.threshold then Ok(()) else Err(SysvarReadFailed)
  {
    hide AddressOf, ReadGate;
  }

  /** A destination too short to name a recipient stops the hook at the second rule. */
  lemma ShortDestinationRefused(store: Store, ex: Resolution.Execute, amount: u64, clock: Clock, sv: FriendGate.Sysvar)
    ensures var first := DailyCheck(store, ex.dailyLimit, amount, clock.slot);
            first.Ok? && |DataOf(first.value, ex.destinationToken)| < 64 ==>
              HookOnBytes(store, ex, amount, clock, sv) == Err(OutOfBounds)
  {
    hide DailyCheck;
  }

  /** With slow send on, the contact presented must be the one of the destination's owner: no
      other recipient's registration will do, and an address without a contact is no registration. */
  lemma WrongContactRefused(store: Store, s: Key, m: Key, contact: Address, dest: seq<byte>, now: i64)
    requires Canonical(store, SlowSlot(s, m)) && SlowAt(store, s, m).Some?
    ensures |dest| < 64 || contact != AddressOf(ContactSlot(s, dest[32..64], m)) ==>
              SlowCheck(store, AddressOf(SlowSlot(s, m)), contact, dest, now) == Err(InvalidDestination)
    ensures |dest| >= 64 && contact == AddressOf(ContactSlot(s, dest[32..64], m))
            && (contact !in store || |store[contact].data| == 0 || store[contact].lamports == 0) ==>
              SlowCheck(store, AddressOf(SlowSlot(s, m)), contact, dest, now) == Err(RecipientNotRegistered)
  {
    hide AddressOf;
  }

  /** What a write to slot x leaves of any sender's, recipient's and mint's state. */
  lemma ViewAfterWrite(a: Store, b: Store, x: Slot, s: Key, r: Key, m: Key)
    requires OnlySlot(a, b, x)
    ensures x != DailySlot(s, m) ==> DailyAt(b, s, m) == DailyAt(a, s, m)
    ensures x != BlockSlot(s, m) ==> BlocksAt(b, s, m) == BlocksAt(a, s, m)
    ensures x != CoolSlot(s, m) ==> CoolingAt(b, s, m) == CoolingAt(a, s, m)
    ensures x != SlowSlot(s, m) ==> SlowAt(b, s, m) == SlowAt(a, s, m)
    ensures x != ContactSlot(s, r, m) ==> ContactAt(b, s, r, m) == ContactAt(a, s, r, m)
    ensures x != NightSlot(s, m) ==> NightAt(b, s, m) == NightAt(a, s, m)
    ensures x != GateSlot(s, m) ==> GateAt(b, s, m) == GateAt(a, s, m)
  {
    hide AddressOf, Canonical, OnlySlot, DecodeDaily, DecodeBlocks, DecodeCooling, ReadSlow, ReadContact, ReadHours, ReadGate;
    if x != DailySlot(s, m) { OtherSlots(a, b, x, DailySlot(s, m)); }
    if x != BlockSlot(s, m) { OtherSlots(a, b, x, BlockSlot(s, m)); }
    if x != CoolSlot(s, m) { OtherSlots(a, b, x, CoolSlot(s, m)); }
    if x != SlowSlot(s, m) { OtherSlots(a, b, x, SlowSlot(s, m)); }
    if x != ContactSlot(s, r, m) { OtherSlots(a, b, x, ContactSlot(s, r, m)); }
    if x != NightSlot(s, m) { OtherSlots(a, b, x, NightSlot(s, m)); }
    if x != GateSlot(s, m) { OtherSlots(a, b, x, GateSlot(s, m)); }
  }

  // Saving a record at its slot: it reads back, and everything stays canonical.

  lemma SaveDaily(store: Store, s: Key, m: Key, d: DailyLimit.Daily)
    requires AllCanonical(store) && d.sender == s && d.mint == m
    ensures var t := Save(store, DailySlot(s, m), EncodeDaily(d));
            OnlySlot(store, t, DailySlot(s, m)) && AllCanonical(t) && DailyAt(t, s, m) == Some(d)
  {
    hide AddressOf;
    DailyRoundTrip(d, []);
    assert EncodeDaily(d) + [] == EncodeDaily(d);
    StillCanonical(store, Save(store, DailySlot(s, m), EncodeDaily(d)), DailySlot(s, m));
  }

  lemma SaveBlocks(store: Store, s: Key, m: Key, b: BlockList.Blocks)
    requires AllCanonical(store) && b.sender == s && b.mint == m
    ensures var t := Save(store, BlockSlot(s, m), EncodeBlocks(b));
            OnlySlot(store, t, BlockSlot(s, m)) && AllCanonical(t) && BlocksAt(t, s, m) == Some(b)
  {
    hide AddressOf;
    BlocksRoundTrip(b, []);
    assert EncodeBlocks(b) + [] == EncodeBlocks(b);
    StillCanonical(store, Save(store, BlockSlot(s, m), EncodeBlocks(b)), BlockSlot(s, m));
  }

  lemma SaveCooling(store: Store, s: Key, m: Key, c: Cooloff.Cooling)
    requires AllCanonical(store) && c.sender == s && c.mint == m
    ensures var t := Save(store, CoolSlot(s, m), EncodeCooling(c));
            OnlySlot(store, t, CoolSlot(s, m)) && AllCanonical(t) && CoolingAt(t, s, m) == Some(c)
  {
    hide AddressOf;
    CoolingRoundTrip(c, []);
    assert EncodeCooling(c) + [] == EncodeCooling(c);
    StillCanonical(store, Save(store, CoolSlot(s, m), EncodeCooling(c)), CoolSlot(s, m));
  }

  lemma SaveSlow(store: Store, s: Key, m: Key, c: SlowSend.Config)
    requires AllCanonical(store) && c.sender == s && c.mint == m
    ensures var t := Save(store, SlowSlot(s, m), EncodeSlow(c));
            OnlySlot(store, t, SlowSlot(s, m)) && AllCanonical(t) && SlowAt(t, s, m) == Some(c)
  {
    hide AddressOf;
    SlowRoundTrip(c, []);
    assert EncodeSlow(c) + [] == EncodeSlow(c);
    StillCanonical(store, Save(store, SlowSlot(s, m), EncodeSlow(c)), SlowSlot(s, m));
  }

  lemma SaveContact(store: Store, s: Key, r: Key, m: Key, c: SlowSend.Contact)
    requires AllCanonical(store)
    ensures var t := Save(store, ContactSlot(s, r, m), EncodeContact(c));
            OnlySlot(store, t, ContactSlot(s, r, m)) && AllCanonical(t) && ContactAt(t, s, r, m) == Some(c)
  {
    hide AddressOf;
    ContactRoundTrip(c, []);
    assert EncodeContact(c) + [] == EncodeContact(c);
    StillCanonical(store, Save(store, ContactSlot(s, r, m), EncodeContact(c)), ContactSlot(s, r, m));
  }

  lemma SaveNight(store: Store, s: Key, m: Key, w: NightMode.Window)
    requires AllCanonical(store) && w.sender == s && w.mint == m
    ensures var t := Save(store, NightSlot(s, m), EncodeNight(w));
            OnlySlot(store, t, NightSlot(s, m)) && AllCanonical(t) && NightAt(t, s, m) == Some(w)
  {
    hide AddressOf;
    HoursRoundTrip(w, []);
    assert EncodeNight(w) + [] == EncodeNight(w);
    StillCanonical(store, Save(store, NightSlot(s, m), EncodeNight(w)), NightSlot(s, m));
  }

  lemma SaveGate(store: Store, s: Key, m: Key, g: FriendGate.Gate)
    requires AllCanonical(store) && g.sender == s && g.mint == m
    ensures var t := Save(store, GateSlot(s, m), EncodeGate(g));
            OnlySlot(store, t, GateSlot(s, m)) && AllCanonical(t) && GateAt(t, s, m) == Some(g)
  {
    hide AddressOf;
    GateRoundTrip(g, []);
    assert EncodeGate(g) + [] == EncodeGate(g);
    StillCanonical(store, Save(store, GateSlot(s, m), EncodeGate(g)), GateSlot(s, m));
  }

  lemma CloseSlot(store: Store, x: Slot)
    requires AllCanonical(store)
    ensures OnlySlot(store, Close(store, x), x) && AllCanonical(Close(store, x)) && Unset(Close(store, x), AddressOf(x))
  {
    hide AddressOf;
    StillCanonical(store, Close(store, x), x);
  }

  // ---- The byte-level checks refine the rules -------------------------------------------

  lemma DailyRefines(store: Store, s: Key, m: Key, amount: u64, slot: u64)
    requires Canonical(store, DailySlot(s, m))
    ensures var got := DailyCheck(store, AddressOf(DailySlot(s, m)), amount, slot);
            match DailyLimit.CheckOpt(DailyAt(store, s, m), amount, slot)
            case Err(e) => got == Err(e)
            case Ok(None) => got == Ok(store) && DailyAt(store, s, m) == None
            case Ok(Some(d)) =>
              && got == Ok(Save(store, DailySlot(s, m), EncodeDaily(d)))
              && d.sender == s && d.mint == m && DailyAt(store, s, m).Some?
  {
    hide AddressOf;
    var a := AddressOf(DailySlot(s, m));
    if !Unset(store, a) {
      var d := DailyAt(store, s, m).value;
      if DailyLimit.Check(d, amount, slot).Ok? {
        var bytes := EncodeDaily(DailyLimit.Check(d, amount, slot).value);
        assert bytes + store[a].data[97..] == bytes;
      }
    }
  }

  lemma CoolRefines(store: Store, s: Key, m: Key, amount: u64, now: i64)
    requires Canonical(store, CoolSlot(s, m))
    ensures var got := CoolCheck(store, AddressOf(CoolSlot(s, m)), amount, now);
            match Cooloff.CheckOpt(CoolingAt(store, s, m), amount, now)
            case Err(e) => got == Err(e)
            case Ok(None) => got == Ok(store) && CoolingAt(store, s, m) == None
            case Ok(Some(c)) =>
              && got == Ok(Save(store, CoolSlot(s, m), EncodeCooling(c)))
              && c.sender == s && c.mint == m && CoolingAt(store, s, m).Some?
  {
    hide AddressOf;
    var a := AddressOf(CoolSlot(s, m));
    if !Unset(store, a) {
      var c := CoolingAt(store, s, m).value;
      if amount < c.threshold {
        assert store[a] == Account(CooloffProgram, store[a].lamports, EncodeCooling(c));
        assert Save(store, CoolSlot(s, m), EncodeCooling(c)) == store;
      } else if Cooloff.Check(c, amount, now).Ok? {
        var bytes := EncodeCooling(Cooloff.Check(c, amount, now).value);
        assert bytes + store[a].data[97..] == bytes;
      }
    }
  }

  lemma BlockRefines(store: Store, s: Key, m: Key, recipient: Key)
    requires Canonical(store, BlockSlot(s, m))
    ensures BlockCheck(store, AddressOf(BlockSlot(s, m)), recipient) == BlockList.CheckOpt(BlocksAt(store, s, m), recipient)
  {
  }

  lemma SlowRefines(store: Store, s: Key, m: Key, dest: seq<byte>, now: i64)
    requires |dest| >= 64
    requires Canonical(store, SlowSlot(s, m)) && Canonical(store, ContactSlot(s, dest[32..64], m))
    ensures SlowCheck(store, AddressOf(SlowSlot(s, m)), AddressOf(ContactSlot(s, dest[32..64], m)), dest, now)
         == SlowSend.CheckOpt(SlowAt(store, s, m), ContactAt(store, s, dest[32..64], m), now)
  {
    hide AddressOf, ReadSlow, ReadContact, EncodeSlow, EncodeContact;
  }

  lemma NightRefines(store: Store, s: Key, m: Key, now: i64)
    requires Canonical(store, NightSlot(s, m))
    ensures NightCheck(store, AddressOf(NightSlot(s, m)), Raw(s), Raw(m), now) == NightMode.CheckOpt(NightAt(store, s, m), now)
  {
  }

  lemma GateRefines(store: Store, s: Key, m: Key, amount: u64, sv: FriendGate.Sysvar)
    requires Canonical(store, GateSlot(s, m))
    ensures GateCheck(store, AddressOf(GateSlot(s, m)), InstructionsSysvar, amount, sv)
         == FriendGate.CheckOpt(GateAt(store, s, m), amount, sv)
  {
    hide AddressOf;
  }

  lemma DailyCall(store: Store, s1: Store, o: Key, r: Key, m: Key, dest: Address, amount: u64, clock: Clock)
    requires AllCanonical(store) && dest.Raw?
    requires DailyCheck(store, AddressOf(DailySlot(o, m)), amount, clock.slot) == Ok(s1)
    ensures AllCanonical(s1) && DataOf(s1, dest) == DataOf(store, dest) && OnlySlot(store, s1, DailySlot(o, m))
    ensures DailyLimit.CheckOpt(DailyAt(store, o, m), amount, clock.slot) == Ok(DailyAt(s1, o, m))
    ensures View(s1, o, r, m) == View(store, o, r, m).(daily := DailyAt(s1, o, m))
  {
    DailyRefines(store, o, m, amount, clock.slot);
    if DailyAt(store, o, m).Some? {
      SaveDaily(store, o, m, DailyLimit.Check(DailyAt(store, o, m).value, amount, clock.slot).value);
    }
    ViewAfterWrite(store, s1, DailySlot(o, m), o, r, m);
    assert dest != AddressOf(DailySlot(o, m));
    assert SameAt(store, s1, dest);
  }

  lemma CoolCall(store: Store, s1: Store, o: Key, r: Key, m: Key, dest: Address, amount: u64, clock: Clock)
    requires AllCanonical(store) && dest.Raw?
    requires CoolCheck(store, AddressOf(CoolSlot(o, m)), amount, clock.now) == Ok(s1)
    ensures AllCanonical(s1) && DataOf(s1, dest) == DataOf(store, dest) && OnlySlot(store, s1, CoolSlot(o, m))
    ensures Cooloff.CheckOpt(CoolingAt(store, o, m), amount, clock.now) == Ok(CoolingAt(s1, o, m))
    ensures View(s1, o, r, m) == View(store, o, r, m).(cooling := CoolingAt(s1, o, m))
  {
    hide AddressOf;
    CoolRefines(store, o, m, amount, clock.now);
    if CoolingAt(store, o, m).Some? {
      SaveCooling(store, o, m, Cooloff.Check(CoolingAt(store, o, m).value, amount, clock.now).value);
    }
    ViewAfterWrite(store, s1, CoolSlot(o, m), o, r, m);
    assert dest != AddressOf(CoolSlot(o, m)) by {
      AddressSeeds(CoolSlot(o, m));
    }
    assert SameAt(store, s1, dest);
  }

  /** Over canonical accounts each call on bytes gives its rule's verdict on the state the
      bytes stand for, and leaves bytes that stand for the state the rule commits. */
  ghost predicate CallRefined(rule: Hook.Rule, store: Store, source: Address, m: Key, dest: Address, o: Key, metaList: Address,
                              amount: u64, clock: Clock, sv: FriendGate.Sysvar)
    requires |DataOf(store, dest)| >= 64
  {
    var r: Key := DataOf(store, dest)[32..64];
    var got := CallOnBytes(rule, store, Resolution.CanonicalExecute(source, m, dest, o, metaList, r), amount, clock, sv);
    match Hook.Apply(rule, View(store, o, r, m), Hook.Transfer(r, amount, clock.slot, clock.now, sv))
    case Err(e) => got == Err(e)
    case Ok(u) =>
      && got.Ok? && AllCanonical(got.value) && DataOf(got.value, dest) == DataOf(store, dest)
      && View(got.value, o, r, m) == u
      && OnlySlots(store, got.value, DailySlot(o, m), CoolSlot(o, m))
  }

  lemma DailyCallRefined(store: Store, source: Address, m: Key, dest: Address, o: Key, metaList: Address,
                    amount: u64, clock: Clock, sv: FriendGate.Sysvar)
    requires AllCanonical(store) && dest.Raw? && |DataOf(store, dest)| >= 64
    ensures CallRefined(Hook.Daily, store, source, m, dest, o, metaList, amount, clock, sv)
  {
    hide AddressOf, DailyCheck, CoolCheck, DailyAt, BlocksAt, CoolingAt, SlowAt, ContactAt, NightAt, GateAt;
    hide DailyLimit.CheckOpt, Cooloff.CheckOpt, Canonical, AllCanonical, OnlySlot, OnlySlots;
    hide Save, EncodeDaily, EncodeCooling, DataOf;
    var r: Key := DataOf(store, dest)[32..64];
    CanonicalAt(store, DailySlot(o, m));
    DailyRefines(store, o, m, amount, clock.slot);
    var got := DailyCheck(store, AddressOf(DailySlot(o, m)), amount, clock.slot);
    if got.Ok? {
      DailyCall(store, got.value, o, r, m, dest, amount, clock);
      OneOfTwo(store, got.value, DailySlot(o, m), CoolSlot(o, m));
    }
  }

  lemma CoolCallRefined(store: Store, source: Address, m: Key, dest: Address, o: Key, metaList: Address,
                    amount: u64, clock: Clock, sv: FriendGate.Sysvar)
    requires AllCanonical(store) && dest.Raw? && |DataOf(store, dest)| >= 64
    ensures CallRefined(Hook.CoolOff, store, source, m, dest, o, metaList, amount, clock, sv)
  {
    hide AddressOf, DailyCheck, CoolCheck, DailyAt, BlocksAt, CoolingAt, SlowAt, ContactAt, NightAt, GateAt;
    hide DailyLimit.CheckOpt, Cooloff.CheckOpt, Canonical, AllCanonical, OnlySlot, OnlySlots;
    hide Save, EncodeDaily, EncodeCooling, DataOf;
    var r: Key := DataOf(store, dest)[32..64];
    CanonicalAt(store, CoolSlot(o, m));
    CoolRefines(store, o, m, amount, clock.now);
    var got := CoolCheck(store, AddressOf(CoolSlot(o, m)), amount, clock.now);
    if got.Ok? {
      CoolCall(store, got.value, o, r, m, dest, amount, clock);
      OneOfTwo(store, got.value, DailySlot(o, m), CoolSlot(o, m));
    }
  }

  lemma CanonicalAt(store: Store, x: Slot)
    requires AllCanonical(store)
    ensures Canonical(store, x)
  {
    hide Canonical;
  }

  lemma OneOfTwo(a: Store, b: Store, x: Slot, y: Slot)
    requires OnlySlot(a, b, x) || OnlySlot(a, b, y)
    ensures OnlySlots(a, b, x, y)
  {
    hide AddressOf;
  }

  lemma ReadingCall(rule: Hook.Rule, store: Store, source: Address, m: Key, dest: Address, o: Key, metaList: Address,
                    amount: u64, clock: Clock, sv: FriendGate.Sysvar)
    requires AllCanonical(store) && |DataOf(store, dest)| >= 64 && !rule.Daily? && !rule.CoolOff?
    ensures CallRefined(rule, store, source, m, dest, o, metaList, amount, clock, sv)
  {
    hide AddressOf, BlockCheck, SlowCheck, NightCheck, GateCheck, DailyAt, BlocksAt, CoolingAt, SlowAt, ContactAt, NightAt, GateAt;
    hide BlockList.CheckOpt, SlowSend.CheckOpt, NightMode.CheckOpt, FriendGate.CheckOpt, Canonical;
    match rule
    case Blocks => BlockRefines(store, o, m, DataOf(store, dest)[32..64]);
    case Slow => SlowRefines(store, o, m, DataOf(store, dest), clock.now);
    case Night => NightRefines(store, o, m, clock.now);
    case Friend => GateRefines(store, o, m, amount, sv);
  }

  lemma CallRefines(rule: Hook.Rule, store: Store, source: Address, m: Key, dest: Address, o: Key, metaList: Address,
                    amount: u64, clock: Clock, sv: FriendGate.Sysvar)
    requires AllCanonical(store) && dest.Raw? && |DataOf(store, dest)| >= 64
    ensures CallRefined(rule, store, source, m, dest, o, metaList, amount, clock, sv)
  {
    hide CallRefined, AllCanonical;
    if rule.Daily? {
      DailyCallRefined(store, source, m, dest, o, metaList, amount, clock, sv);
    } else if rule.CoolOff? {
      CoolCallRefined(store, source, m, dest, o, metaList, amount, clock, sv);
    } else {
      ReadingCall(rule, store, source, m, dest, o, metaList, amount, clock, sv);
    }
  }

  /** And so do the calls in any order. */
  lemma {:induction false} CallsRefine(order: seq<Hook.Rule>, store: Store, source: Address, m: Key, dest: Address, o: Key,
                                       metaList: Address, amount: u64, clock: Clock, sv: FriendGate.Sysvar)
    requires AllCanonical(store) && dest.Raw? && |DataOf(store, dest)| >= 64
    ensures var r: Key := DataOf(store, dest)[32..64];
            var got := CallsOnBytes(order, store, Resolution.CanonicalExecute(source, m, dest, o, metaList, r), amount, clock, sv);
            match Hook.RunRules(order, View(store, o, r, m), Hook.Transfer(r, amount, clock.slot, clock.now, sv))
            case Err(e) => got == Err(e)
            case Ok(u) =>
              && got.Ok? && AllCanonical(got.value)
              && View(got.value, o, r, m) == u
              && OnlySlots(store, got.value, DailySlot(o, m), CoolSlot(o, m))
    decreases |order|
  {
    hide AddressOf, CallOnBytes, AllCanonical, View, DataOf, Resolution.CanonicalExecute, Hook.Apply, OnlySlots;
    var x, y := DailySlot(o, m), CoolSlot(o, m);
    if order == [] {
      NoWrite(store, x, y);
    } else {
      var r: Key := DataOf(store, dest)[32..64];
      CallRefines(order[0], store, source, m, dest, o, metaList, amount, clock, sv);
      var first := CallOnBytes(order[0], store, Resolution.CanonicalExecute(source, m, dest, o, metaList, r), amount, clock, sv);
      if first.Ok? {
        CallsRefine(order[1..], first.value, source, m, dest, o, metaList, amount, clock, sv);
        var rest := CallsOnBytes(order[1..], first.value, Resolution.CanonicalExecute(source, m, dest, o, metaList, r), amount, clock, sv);
        if rest.Ok? {
          WritesCompose(store, first.value, rest.value, x, y);
        }
      }
    }
  }

  lemma NoWrite(store: Store, x: Slot, y: Slot)
    ensures OnlySlots(store, store, x, y)
  {
  }

  lemma WritesCompose(a: Store, b: Store, c: Store, x: Slot, y: Slot)
    requires OnlySlots(a, b, x, y) && OnlySlots(b, c, x, y)
    ensures OnlySlots(a, c, x, y)
  {
    hide AddressOf;
    forall z: Address | z != AddressOf(x) && z != AddressOf(y) ensures SameAt(a, c, z) {
      assert SameAt(a, b, z) && SameAt(b, c, z);
    }
  }

  lemma FirstCall(rule: Hook.Rule, rest: seq<Hook.Rule>, store: Store, ex: Resolution.Execute, amount: u64, clock: Clock, sv: FriendGate.Sysvar)
    ensures CallsOnBytes([rule] + rest, store, ex, amount, clock, sv)
         == (var next :- CallOnBytes(rule, store, ex, amount, clock, sv); CallsOnBytes(rest, next, ex, amount, clock, sv))
  {
    hide CallOnBytes;
    assert ([rule] + rest)[1..] == rest;
  }

  /** The hook is the calls in the hook's order. */
  lemma HookIsCalls(store: Store, ex: Resolution.Execute, amount: u64, clock: Clock, sv: FriendGate.Sysvar)
    ensures HookOnBytes(store, ex, amount, clock, sv) == CallsOnBytes(Hook.ORDER, store, ex, amount, clock, sv)
  {
    hide DailyCheck, BlockCheck, CoolCheck, SlowCheck, NightCheck, GateCheck, CallsOnBytes;
    var friend := [Hook.Friend] + [];
    var night := [Hook.Night] + friend;
    var slow := [Hook.Slow] + night;
    var cool := [Hook.CoolOff] + slow;
    var blocks := [Hook.Blocks] + cool;
    assert Hook.ORDER == [Hook.Daily] + blocks;
    FirstCall(Hook.Daily, blocks, store, ex, amount, clock, sv);
    var s1 := DailyCheck(store, ex.dailyLimit, amount, clock.slot);
    if s1.Ok? {
      FirstCall(Hook.Blocks, cool, s1.value, ex, amount, clock, sv);
      FirstCall(Hook.CoolOff, slow, s1.value, ex, amount, clock, sv);
      var s2 := CoolCheck(s1.value, ex.cooloff, amount, clock.now);
      if s2.Ok? {
        FirstCall(Hook.Slow, night, s2.value, ex, amount, clock, sv);
        FirstCall(Hook.Night, friend, s2.value, ex, amount, clock, sv);
        FirstCall(Hook.Friend, [], s2.value, ex, amount, clock, sv);
        NoCalls(s2.value, ex, amount, clock, sv);
      }
    }
  }

  lemma NoCalls(store: Store, ex: Resolution.Execute, amount: u64, clock: Clock, sv: FriendGate.Sysvar)
    ensures CallsOnBytes([], store, ex, amount, clock, sv) == Ok(store)
  {
  }

  /** Over canonical accounts, the hook on bytes gives the verdict of the six rules on the
      state the bytes stand for, and leaves bytes that stand for the state they commit. */
  lemma HookRefines(store: Store, source: Address, m: Key, dest: Address, o: Key, metaList: Address,
                    amount: u64, clock: Clock, sv: FriendGate.Sysvar)
    requires AllCanonical(store) && dest.Raw? && |DataOf(store, dest)| >= 64
    ensures var r: Key := DataOf(store, dest)[32..64];
            var got := HookOnBytes(store, Resolution.CanonicalExecute(source, m, dest, o, metaList, r), amount, clock, sv);
            match Hook.RunRules(Hook.ORDER, View(store, o, r, m), Hook.Transfer(r, amount, clock.slot, clock.now, sv))
            case Err(e) => got == Err(e)
            case Ok(u) =>
              && got.Ok? && AllCanonical(got.value)
              && View(got.value, o, r, m) == u
              && OnlySlots(store, got.value, DailySlot(o, m), CoolSlot(o, m))
  {
    hide AddressOf, HookOnBytes, CallsOnBytes, AllCanonical, View, DataOf, Resolution.CanonicalExecute, Hook.RunRules, OnlySlots;
    var r: Key := DataOf(store, dest)[32..64];
    HookIsCalls(store, Resolution.CanonicalExecute(source, m, dest, o, metaList, r), amount, clock, sv);
    CallsRefine(Hook.ORDER, store, source, m, dest, o, metaList, amount, clock, sv);
  }
}
