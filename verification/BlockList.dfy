/** The block list: 32 slots with holes, standing for a set of at most 32 wallets. */
module BlockList {
  import opened Base

  const MAX_BLOCKED: nat := 32

  type Slots = s: seq<Key> | |s| == MAX_BLOCKED witness seq<Key>(MAX_BLOCKED, i => ZERO_KEY)

  datatype Blocks = Blocks(sender: Key, mint: Key, blocked: Slots, count: byte, bump: byte)

  /** `position`: the first index holding k. */
  function Position(s: seq<Key>, k: Key): (r: Option<nat>)
    ensures r.Some? ==> r.value < |s| && s[r.value] == k && k !in s[..r.value]
    ensures r.None? <==> k !in s
  {
    if s == [] then None
    else if s[0] == k then Some(0)
    else
      var r := Position(s[1..], k);
      if r.None? then None
      else
        assert s[..r.value + 1] == [s[0]] + s[1..][..r.value];
        Some(r.value + 1)
  }

  function Find(s: seq<Key>, wallet: Key): Option<nat> {
    if wallet == ZERO_KEY then None else Position(s, wallet)
  }

  function FirstEmpty(s: seq<Key>): Option<nat> {
    Position(s, ZERO_KEY)
  }

  function SatInc(n: byte): byte {
    if n == 255 then 255 else n + 1
  }

  /** Anchor's zeroed array. */
  function EmptySlots(): (s: Slots)
    ensures forall i :: 0 <= i < MAX_BLOCKED ==> s[i] == ZERO_KEY
  {
    seq<Key>(MAX_BLOCKED, i => ZERO_KEY)
  }

  function Add(s: Option<Blocks>, sender: Key, mint: Key, wallet: Key, bump: byte): Result<Blocks> {
    if wallet == ZERO_KEY then Err(ZeroAddress)
    else
      var b := if s.Some? then s.value else Blocks(ZERO_KEY, ZERO_KEY, EmptySlots(), 0, 0);
      var c := if b.sender == ZERO_KEY then Blocks(sender, mint, b.blocked, 0, bump) else b;
      if Find(c.blocked, wallet).Some? then Err(AlreadyBlocked)
      else
        match FirstEmpty(c.blocked)
        case None => Err(BlockListFull)
        case Some(slot) => Ok(c.(blocked := c.blocked[slot := wallet], count := SatInc(c.count)))
  }

  function Remove(s: Option<Blocks>, sender: Key, mint: Key, wallet: Key): Result<Blocks> {
    if s == None then Err(AccountMissing)
    else if s.value.sender != sender || s.value.mint != mint then Err(ConstraintViolated)
    else
      match Find(s.value.blocked, wallet)
      case None => Err(NotBlocked)
      case Some(slot) =>
        Ok(s.value.(blocked := s.value.blocked[slot := ZERO_KEY], count := SatSub(s.value.count, 1)))
  }

  function CheckOpt(s: Option<Blocks>, recipient: Key): Result<()> {
    if s.Some? && Find(s.value.blocked, recipient).Some? then Err(RecipientBlocked) else Ok(())
  }

  /** The Anchor account that `add_blocked` and `remove_blocked` work on. */
  class BlockListAccount {
    var initialized: bool
    var sender: Key
    var mint: Key
    const blocked: array<Key>
    var count: byte
    var bump: byte

    ghost predicate Valid()
      reads this, blocked
    {
      blocked.Length == MAX_BLOCKED && (!initialized ==> blocked[..] == EmptySlots())
    }

    ghost function State(): Option<Blocks>
      requires Valid()
      reads this, blocked
    {
      if initialized then Some(Blocks(sender, mint, blocked[..], count, bump)) else None
    }

    constructor ()
      ensures Valid() && State() == None && fresh(blocked)
    {
      initialized := false;
      sender, mint, count, bump := ZERO_KEY, ZERO_KEY, 0, 0;
      blocked := new Key[MAX_BLOCKED](i => ZERO_KEY);
      new;
      assert blocked[..] == EmptySlots();
    }

    /** Uses the first hole, after refusing duplicates. */
    method AddBlocked(caller: Key, stedeMint: Key, wallet: Key, newBump: byte) returns (r: Result<()>)
      requires Valid()
      modifies this, blocked
      ensures Valid()
      ensures match Add(old(State()), caller, stedeMint, wallet, newBump)
              case Ok(b) => r == Ok(()) && State() == Some(b)
              case Err(e) => r == Err(e) && State() == old(State())
    {
      if wallet == ZERO_KEY {
        return Err(ZeroAddress);
      }
      var firstTime := !initialized || sender == ZERO_KEY;
      if Find(blocked[..], wallet).Some? {
        return Err(AlreadyBlocked);
      }
      var slot := FirstEmpty(blocked[..]);
      if slot == None {
        return Err(BlockListFull);
      }
      if firstTime {
        initialized := true;
        sender, mint, count, bump := caller, stedeMint, 0, newBump;
      }
      blocked[slot.value] := wallet;
      count := SatInc(count);
      return Ok(());
    }

    /** Leaves a hole behind. */
    method RemoveBlocked(caller: Key, stedeMint: Key, wallet: Key) returns (r: Result<()>)
      requires Valid()
      modifies this, blocked
      ensures Valid()
      ensures match Remove(old(State()), caller, stedeMint, wallet)
              case Ok(b) => r == Ok(()) && State() == Some(b)
              case Err(e) => r == Err(e) && State() == old(State())
    {
      if !initialized {
        return Err(AccountMissing);
      }
      if sender != caller || mint != stedeMint {
        return Err(ConstraintViolated);
      }
      var slot := Find(blocked[..], wallet);
      if slot == None {
        return Err(NotBlocked);
      }
      blocked[slot.value] := ZERO_KEY;
      count := SatSub(count, 1);
      return Ok(());
    }
  }

  // ---- The set the slots stand for --------------------------------------------

  function Entries(s: seq<Key>): set<Key> {
    set k | k in s && k != ZERO_KEY
  }

  ghost predicate NoDuplicates(s: seq<Key>) {
    forall i, j :: 0 <= i < j < |s| && s[i] == s[j] ==> s[i] == ZERO_KEY
  }

  ghost predicate Sound(b: Blocks) {
    NoDuplicates(b.blocked) && b.count == |Entries(b.blocked)|
  }

  lemma {:induction false} EntriesAtMost(s: seq<Key>)
    ensures |Entries(s)| <= |s|
    ensures NoDuplicates(s) && ZERO_KEY !in s ==> |Entries(s)| == |s|
    ensures ZERO_KEY in s ==> |Entries(s)| < |s|
  {
    if s != [] {
      EntriesAtMost(s[1..]);
      if s[0] == ZERO_KEY {
        assert Entries(s) == Entries(s[1..]);
      } else {
        assert Entries(s) == Entries(s[1..]) + {s[0]};
      }
    }
  }

  lemma FillHole(s: seq<Key>, i: nat, w: Key)
    requires i < |s| && s[i] == ZERO_KEY && w != ZERO_KEY && w !in s && NoDuplicates(s)
    ensures Entries(s[i := w]) == Entries(s) + {w} && NoDuplicates(s[i := w])
  {
    var t := s[i := w];
    forall k | k in Entries(s) + {w} ensures k in t {
      if k != w {
        var j :| 0 <= j < |s| && s[j] == k;
        assert t[j] == k;
      } else {
        assert t[i] == w;
      }
    }
  }

  lemma MakeHole(s: seq<Key>, i: nat)
    requires i < |s| && s[i] != ZERO_KEY && NoDuplicates(s)
    ensures Entries(s[i := ZERO_KEY]) == Entries(s) - {s[i]} && NoDuplicates(s[i := ZERO_KEY])
  {
    var t := s[i := ZERO_KEY];
    forall k | k in Entries(s) - {s[i]} ensures k in t {
      var j :| 0 <= j < |s| && s[j] == k;
      assert t[j] == k;
    }
    assert s[i] !in Entries(t);
  }

  /** The set behind an account; no account stands for the empty set. */
  function Wallets(s: Option<Blocks>): set<Key> {
    if s == None then {} else Entries(s.value.blocked)
  }

  ghost predicate Stored(s: Option<Blocks>, who: Key, mint: Key) {
    s.Some? ==> s.value.sender == who && s.value.mint == mint && Sound(s.value)
  }

  /** Adding is set insertion with a capacity of 32; each refusal has its one cause. */
  lemma AddRefinesInsert(s: Option<Blocks>, who: Key, mint: Key, w: Key, bump: byte)
    requires who != ZERO_KEY && Stored(s, who, mint)
    ensures match Add(s, who, mint, w, bump)
            case Ok(b) =>
              && w != ZERO_KEY && w !in Wallets(s) && |Wallets(s)| < MAX_BLOCKED
              && Stored(Some(b), who, mint) && Wallets(Some(b)) == Wallets(s) + {w}
              && b.count == (if s.Some? then s.value.count else 0) + 1
            case Err(e) =>
              && (e == ZeroAddress <==> w == ZERO_KEY)
              && (e == AlreadyBlocked <==> w in Wallets(s))
              && (e == BlockListFull <==> w != ZERO_KEY && w !in Wallets(s) && s.Some? && s.value.count == 32)
              && e in {ZeroAddress, AlreadyBlocked, BlockListFull}
  {
    var slots := if s.Some? then s.value.blocked else EmptySlots();
    assert Entries(slots) == Wallets(s);
    EntriesAtMost(slots);
    if w != ZERO_KEY && w !in slots && FirstEmpty(slots).Some? {
      FillHole(slots, FirstEmpty(slots).value, w);
    }
  }

  /** Removing is set deletion of a member. */
  lemma RemoveRefinesDelete(s: Option<Blocks>, who: Key, mint: Key, w: Key)
    requires Stored(s, who, mint)
    ensures match Remove(s, who, mint, w)
            case Ok(b) =>
              && w in Wallets(s)
              && Stored(Some(b), who, mint) && Wallets(Some(b)) == Wallets(s) - {w}
              && b.count == s.value.count - 1
            case Err(e) => w !in Wallets(s) && e == (if s == None then AccountMissing else NotBlocked)
  {
    if s.Some? {
      EntriesAtMost(s.value.blocked);
      if Find(s.value.blocked, w).Some? {
        MakeHole(s.value.blocked, Find(s.value.blocked, w).value);
      }
    }
  }

  /** The transfer check is membership, and says so. */
  lemma CheckIsMembership(s: Option<Blocks>, r: Key)
    ensures CheckOpt(s, r) == if r in Wallets(s) then Err(RecipientBlocked) else Ok(())
  {
  }

  /** Whose the record is, and for which mint, is settled by the first call and never changes;
      nobody removes from somebody else's record, or from one for another mint. */
  lemma RecordStaysOwn(s: Option<Blocks>, who: Key, mint: Key, w: Key, bump: byte)
    requires who != ZERO_KEY
    ensures var r := Add(s, who, mint, w, bump);
            r.Ok? ==>
              if s.Some? && s.value.sender != ZERO_KEY then
                r.value.sender == s.value.sender && r.value.mint == s.value.mint && r.value.bump == s.value.bump
              else r.value.sender == who && r.value.mint == mint && r.value.bump == bump
    ensures s.Some? && (s.value.sender != who || s.value.mint != mint) ==> Remove(s, who, mint, w) == Err(ConstraintViolated)
    ensures var r := Remove(s, who, mint, w);
            r.Ok? ==> s.Some? && r.value.(blocked := s.value.blocked, count := s.value.count) == s.value
  {
  }

  datatype Event = Block(wallet: Key, bump: byte) | Unblock(wallet: Key)

  function Step(who: Key, mint: Key, s: Option<Blocks>, e: Event): Option<Blocks> {
    match e
    case Block(w, bump) => (match Add(s, who, mint, w, bump) case Ok(b) => Some(b) case Err(_) => s)
    case Unblock(w) => (match Remove(s, who, mint, w) case Ok(b) => Some(b) case Err(_) => s)
  }

  function Run(who: Key, mint: Key, s: Option<Blocks>, es: seq<Event>): Option<Blocks>
    decreases |es|
  {
    if es == [] then s else Run(who, mint, Step(who, mint, s, es[0]), es[1..])
  }

  /** The reference: a set with room for 32 non-zero keys. */
  function SetStep(S: set<Key>, e: Event): set<Key> {
    match e
    case Block(w, _) => if w == ZERO_KEY || |S| >= MAX_BLOCKED then S else S + {w}
    case Unblock(w) => S - {w}
  }

  function SetRun(S: set<Key>, es: seq<Event>): set<Key>
    decreases |es|
  {
    if es == [] then S else SetRun(SetStep(S, es[0]), es[1..])
  }

  lemma StepRefinesSet(who: Key, mint: Key, s: Option<Blocks>, e: Event)
    requires who != ZERO_KEY && Stored(s, who, mint)
    ensures Stored(Step(who, mint, s, e), who, mint)
    ensures Wallets(Step(who, mint, s, e)) == SetStep(Wallets(s), e)
  {
    if s.Some? {
      EntriesAtMost(s.value.blocked);
    }
    match e {
      case Block(w, bump) => AddRefinesInsert(s, who, mint, w, bump);
      case Unblock(w) => RemoveRefinesDelete(s, who, mint, w);
    }
  }

  /** Over any run the slots hold exactly what the reference set holds, without
      duplicates, and the counter is its size. */
  lemma {:induction false} RunRefinesSet(who: Key, mint: Key, s: Option<Blocks>, es: seq<Event>)
    requires who != ZERO_KEY && Stored(s, who, mint)
    ensures Stored(Run(who, mint, s, es), who, mint)
    ensures Wallets(Run(who, mint, s, es)) == SetRun(Wallets(s), es)
    decreases |es|
  {
    if es != [] {
      StepRefinesSet(who, mint, s, es[0]);
      RunRefinesSet(who, mint, Step(who, mint, s, es[0]), es[1..]);
    }
  }

  /** So after any history a send is refused exactly to the wallets left in the set. */
  lemma RefusedIffBlocked(who: Key, mint: Key, es: seq<Event>, r: Key)
    requires who != ZERO_KEY
    ensures CheckOpt(Run(who, mint, None, es), r).Ok? <==> r !in SetRun({}, es)
  {
    RunRefinesSet(who, mint, None, es);
    CheckIsMembership(Run(who, mint, None, es), r);
  }
}
