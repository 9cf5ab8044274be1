/**
 * Account resolution: the extra-account list is a small program of literals, key seeds
 * and data seeds that refer to accounts resolved earlier. Its interpretation is shown
 * to line up with the hook's `Execute` accounts.
 */
module Resolution {
  import opened Base
  import opened Addresses

  datatype Seed = Literal(text: string) | AccountKey(index: nat) | AccountData(account: nat, start: nat, length: nat)

  datatype Extra =
    | Fixed(address: Address, signer: bool, writable: bool)
    | ExternalPda(program: nat, seeds: seq<Seed>, signer: bool, writable: bool)

  function OwnedPda(program: nat, prefix: string, writable: bool): Extra {
    ExternalPda(program, [Literal(prefix), AccountKey(3), AccountKey(1)], false, writable)
  }

  /** The fourteen entries the hook stores for every Stede mint; entry i resolves to index 5 + i. */
  function Entry(i: nat): Extra
    requires i < 14
  {
    if i == 0 then Fixed(ProgramId(DailyLimitProgram), false, false)
    else if i == 1 then OwnedPda(5, "rule_daily_limit", true)
    else if i == 2 then Fixed(ProgramId(BlockListProgram), false, false)
    else if i == 3 then OwnedPda(7, "rule_block_handle", false)
    else if i == 4 then Fixed(ProgramId(CooloffProgram), false, false)
    else if i == 5 then OwnedPda(9, "rule_cooloff", true)
    else if i == 6 then Fixed(ProgramId(SlowSendProgram), false, false)
    else if i == 7 then OwnedPda(11, "slow_send_config", false)
    else if i == 8 then
      ExternalPda(11, [Literal("slow_send_contact"), AccountKey(3), AccountData(2, 32, 32), AccountKey(1)], false, false)
    else if i == 9 then Fixed(ProgramId(TimeWindowProgram), false, false)
    else if i == 10 then OwnedPda(14, "time_window", false)
    else if i == 11 then Fixed(ProgramId(FriendGateProgram), false, false)
    else if i == 12 then OwnedPda(16, "rule_friend_gate", false)
    else Fixed(InstructionsSysvar, false, false)
  }

  function Extras(): (es: seq<Extra>)
    ensures |es| == 14
  {
    seq(14, i requires 0 <= i < 14 => Entry(i))
  }

  /** Account data visible to the resolver. */
  type Data = map<Address, seq<byte>>

  function ResolveSeed(seed: Seed, resolved: seq<Address>, data: Data): Result<seq<byte>> {
    match seed
    case Literal(text) => Ok(Ascii(text))
    case AccountKey(i) =>
      if i < |resolved| && resolved[i].Raw? then Ok(resolved[i].key) else Err(AccountMissing)
    case AccountData(i, start, length) =>
      if i < |resolved| && resolved[i] in data && start + length <= |data[resolved[i]]|
      then Ok(data[resolved[i]][start..start + length])
      else Err(OutOfBounds)
  }

  function ResolveSeeds(seeds: seq<Seed>, resolved: seq<Address>, data: Data): Result<seq<seq<byte>>> {
    if seeds == [] then Ok([])
    else
      match ResolveSeed(seeds[0], resolved, data)
      case Err(e) => Err(e)
      case Ok(first) =>
        match ResolveSeeds(seeds[1..], resolved, data)
        case Err(e) => Err(e)
        case Ok(rest) => Ok([first] + rest)
  }

  function ResolveOne(e: Extra, resolved: seq<Address>, data: Data): Result<Address> {
    match e
    case Fixed(address, _, _) => Ok(address)
    case ExternalPda(p, seeds, _, _) =>
      if p >= |resolved| || !resolved[p].ProgramId? then Err(AccountMissing)
      else
        match ResolveSeeds(seeds, resolved, data)
        case Err(e) => Err(e)
        case Ok(bytes) => Ok(FindPda(resolved[p].program, bytes))
  }

  /** Left to right, each entry seeing only the accounts before it. */
  function ResolveAll(resolved: seq<Address>, es: seq<Extra>, data: Data): Result<seq<Address>>
    decreases |es|
  {
    if es == [] then Ok(resolved)
    else
      match ResolveOne(es[0], resolved, data)
      case Err(e) => Err(e)
      case Ok(a) => ResolveAll(resolved + [a], es[1..], data)
  }

  /** The resolver's loop over the list. */
  method Resolve(given: seq<Address>, es: seq<Extra>, data: Data) returns (r: Result<seq<Address>>)
    ensures r == ResolveAll(given, es, data)
    ensures r.Ok? ==> |r.value| == |given| + |es| && given <= r.value
  {
    var resolved := given;
    var i := 0;
    while i < |es|
      invariant 0 <= i <= |es|
      invariant |resolved| == |given| + i && given <= resolved
      invariant ResolveAll(resolved, es[i..], data) == ResolveAll(given, es, data)
    {
      var a := ResolveOne(es[i], resolved, data);
      assert es[i..][1..] == es[i + 1..];
      if a.Err? {
        return Err(a.error);
      }
      resolved := resolved + [a.value];
      i := i + 1;
    }
    return Ok(resolved);
  }

  // ---- References point backwards ------------------------------------------------

  predicate SeedBefore(seed: Seed, n: nat) {
    match seed
    case Literal(_) => true
    case AccountKey(i) => i < n
    case AccountData(i, _, _) => i < n
  }

  predicate EntryBefore(e: Extra, n: nat) {
    e.ExternalPda? ==> e.program < n && forall j :: 0 <= j < |e.seeds| ==> SeedBefore(e.seeds[j], n)
  }

  /** No entry of the list refers to itself or to a later index. */
  lemma ExtrasReferBackwards(i: nat)
    requires i < 14
    ensures EntryBefore(Entry(i), 5 + i)
  {
  }

  /** An entry that refers back resolves the same however the list continues. */
  lemma {:induction false} SeedsStable(seeds: seq<Seed>, resolved: seq<Address>, more: seq<Address>, data: Data)
    requires forall j :: 0 <= j < |seeds| ==> SeedBefore(seeds[j], |resolved|)
    ensures ResolveSeeds(seeds, resolved + more, data) == ResolveSeeds(seeds, resolved, data)
  {
    if seeds != [] {
      SeedsStable(seeds[1..], resolved, more, data);
    }
  }

  /** An entry that refers forward, by contrast, never resolves. */
  lemma {:induction false} ForwardNeverResolves(seeds: seq<Seed>, resolved: seq<Address>, data: Data)
    requires exists j :: 0 <= j < |seeds| && !SeedBefore(seeds[j], |resolved|)
    ensures ResolveSeeds(seeds, resolved, data).Err?
  {
    var j :| 0 <= j < |seeds| && !SeedBefore(seeds[j], |resolved|);
    if j > 0 {
      assert seeds[1..][j - 1] == seeds[j];
      ForwardNeverResolves(seeds[1..], resolved, data);
    }
  }

  // ---- The Execute accounts --------------------------------------------------------

  datatype Execute = Execute(
    sourceToken: Address, stedeMint: Address, destinationToken: Address, owner: Address, metaList: Address,
    dailyProgram: Address, dailyLimit: Address,
    blockProgram: Address, blockList: Address,
    coolProgram: Address, cooloff: Address,
    slowProgram: Address, slowConfig: Address, slowContact: Address,
    nightProgram: Address, nightConfig: Address,
    gateProgram: Address, friendGate: Address,
    sysvar: Address)

  /** Anchor fills the struct by position and checks each `Program` field's address. */
  function Bind(a: seq<Address>): Result<Execute> {
    if |a| < 19 then Err(AccountMissing)
    else if a[5] != ProgramId(DailyLimitProgram) || a[7] != ProgramId(BlockListProgram)
         || a[9] != ProgramId(CooloffProgram) || a[11] != ProgramId(SlowSendProgram)
         || a[14] != ProgramId(TimeWindowProgram) || a[16] != ProgramId(FriendGateProgram)
    then Err(ConstraintViolated)
    else Ok(Execute(a[0], a[1], a[2], a[3], a[4], a[5], a[6], a[7], a[8], a[9], a[10], a[11], a[12], a[13],
                    a[14], a[15], a[16], a[17], a[18]))
  }

  /** What a transfer by o of mint m to r should present to the hook at index i. */
  function CanonicalAt(i: nat, source: Address, m: Key, dest: Address, o: Key, metaList: Address, r: Key): Address {
    if i == 0 then source
    else if i == 1 then Raw(m)
    else if i == 2 then dest
    else if i == 3 then Raw(o)
    else if i == 4 then metaList
    else if i == 5 then ProgramId(DailyLimitProgram)
    else if i == 6 then AddressOf(DailySlot(o, m))
    else if i == 7 then ProgramId(BlockListProgram)
    else if i == 8 then AddressOf(BlockSlot(o, m))
    else if i == 9 then ProgramId(CooloffProgram)
    else if i == 10 then AddressOf(CoolSlot(o, m))
    else if i == 11 then ProgramId(SlowSendProgram)
    else if i == 12 then AddressOf(SlowSlot(o, m))
    else if i == 13 then AddressOf(ContactSlot(o, r, m))
    else if i == 14 then ProgramId(TimeWindowProgram)
    else if i == 15 then AddressOf(NightSlot(o, m))
    else if i == 16 then ProgramId(FriendGateProgram)
    else if i == 17 then AddressOf(GateSlot(o, m))
    else InstructionsSysvar
  }

  function Canonical(source: Address, m: Key, dest: Address, o: Key, metaList: Address, r: Key): (a: seq<Address>)
    ensures |a| == 19
  {
    seq(19, i requires 0 <= i < 19 => CanonicalAt(i, source, m, dest, o, metaList, r))
  }

  function CanonicalExecute(source: Address, m: Key, dest: Address, o: Key, metaList: Address, r: Key): Execute {
    Execute(source, Raw(m), dest, Raw(o), metaList,
            ProgramId(DailyLimitProgram), AddressOf(DailySlot(o, m)),
            ProgramId(BlockListProgram), AddressOf(BlockSlot(o, m)),
            ProgramId(CooloffProgram), AddressOf(CoolSlot(o, m)),
            ProgramId(SlowSendProgram), AddressOf(SlowSlot(o, m)), AddressOf(ContactSlot(o, r, m)),
            ProgramId(TimeWindowProgram), AddressOf(NightSlot(o, m)),
            ProgramId(FriendGateProgram), AddressOf(GateSlot(o, m)),
            InstructionsSysvar)
  }

  /** A resolution is determined entry by entry. */
  lemma {:induction false} EntryByEntry(n: nat, es: seq<Extra>, out: seq<Address>, data: Data)
    requires |out| == n + |es|
    requires forall i :: 0 <= i < |es| ==> ResolveOne(es[i], out[..n + i], data) == Ok(out[n + i])
    ensures ResolveAll(out[..n], es, data) == Ok(out)
    decreases |es|
  {
    if es == [] {
      assert out[..n] == out;
    } else {
      assert ResolveOne(es[0], out[..n + 0], data) == Ok(out[n]);
      assert out[..n] + [out[n]] == out[..n + 1];
      forall i | 0 <= i < |es[1..]| ensures ResolveOne(es[1..][i], out[..n + 1 + i], data) == Ok(out[n + 1 + i]) {
        assert ResolveOne(es[i + 1], out[..n + (i + 1)], data) == Ok(out[n + (i + 1)]);
      }
      EntryByEntry(n + 1, es[1..], out, data);
    }
  }

  /** Resolving a seed and then the rest. */
  lemma SeedThenRest(seed: Seed, rest: seq<Seed>, resolved: seq<Address>, data: Data, b: seq<byte>, bs: seq<seq<byte>>)
    requires ResolveSeed(seed, resolved, data) == Ok(b) && ResolveSeeds(rest, resolved, data) == Ok(bs)
    ensures ResolveSeeds([seed] + rest, resolved, data) == Ok([b] + bs)
  {
  }

  lemma OwnedPdaResolves(x: Slot, program: nat, writable: bool, resolved: seq<Address>, data: Data)
    requires !x.ContactSlot?
    requires 3 < |resolved| && resolved[3] == Raw(x.sender) && resolved[1] == Raw(x.mint)
    requires program < |resolved| && resolved[program] == ProgramId(ProgramOf(x))
    ensures ResolveOne(OwnedPda(program, PrefixOf(x), writable), resolved, data) == Ok(AddressOf(x))
  {
    var prefix, o, m := PrefixOf(x), x.sender, x.mint;
    var p := Ascii(prefix);
    SeedThenRest(AccountKey(1), [], resolved, data, m, []);
    SeedThenRest(AccountKey(3), [AccountKey(1)] + [], resolved, data, o, [m] + []);
    SeedThenRest(Literal(prefix), [AccountKey(3)] + ([AccountKey(1)] + []), resolved, data, p, [o] + ([m] + []));
    assert [Literal(prefix)] + ([AccountKey(3)] + ([AccountKey(1)] + [])) == [Literal(prefix), AccountKey(3), AccountKey(1)];
    assert [p] + ([o] + ([m] + [])) == [p, o, m];
  }

  lemma ContactPdaResolves(resolved: seq<Address>, data: Data, o: Key, m: Key, r: Key)
    requires 11 < |resolved| && resolved[3] == Raw(o) && resolved[1] == Raw(m)
    requires resolved[11] == ProgramId(SlowSendProgram)
    requires resolved[2] in data && |data[resolved[2]]| >= 64 && data[resolved[2]][32..64] == r
    ensures ResolveOne(Entry(8), resolved, data) == Ok(AddressOf(ContactSlot(o, r, m)))
  {
    var text := PrefixOf(ContactSlot(o, r, m));
    var p := Ascii(text);
    var d := AccountData(2, 32, 32);
    SeedThenRest(AccountKey(1), [], resolved, data, m, []);
    SeedThenRest(d, [AccountKey(1)] + [], resolved, data, r, [m] + []);
    SeedThenRest(AccountKey(3), [d] + ([AccountKey(1)] + []), resolved, data, o, [r] + ([m] + []));
    SeedThenRest(Literal(text), [AccountKey(3)] + ([d] + ([AccountKey(1)] + [])), resolved, data, p, [o] + ([r] + ([m] + [])));
    assert [Literal(text)] + ([AccountKey(3)] + ([d] + ([AccountKey(1)] + []))) == [Literal(text), AccountKey(3), d, AccountKey(1)];
    assert [p] + ([o] + ([r] + ([m] + []))) == [p, o, r, m];
  }

  // The same accounts, stated index by index in three groups.
  ghost predicate EarlyLineUp(out: seq<Address>, m: Key, o: Key) {
    && |out| == 19
    && out[1] == Raw(m) && out[3] == Raw(o)
    && out[5] == ProgramId(DailyLimitProgram) && out[6] == AddressOf(DailySlot(o, m))
    && out[7] == ProgramId(BlockListProgram) && out[8] == AddressOf(BlockSlot(o, m))
    && out[9] == ProgramId(CooloffProgram) && out[10] == AddressOf(CoolSlot(o, m))
  }

  ghost predicate MiddleLineUp(out: seq<Address>, m: Key, o: Key, r: Key) {
    && |out| == 19
    && out[1] == Raw(m) && out[3] == Raw(o)
    && out[11] == ProgramId(SlowSendProgram) && out[12] == AddressOf(SlowSlot(o, m))
    && out[13] == AddressOf(ContactSlot(o, r, m))
  }

  ghost predicate LateLineUp(out: seq<Address>, m: Key, o: Key) {
    && |out| == 19
    && out[1] == Raw(m) && out[3] == Raw(o)
    && out[14] == ProgramId(TimeWindowProgram) && out[15] == AddressOf(NightSlot(o, m))
    && out[16] == ProgramId(FriendGateProgram) && out[17] == AddressOf(GateSlot(o, m))
    && out[18] == InstructionsSysvar
  }

  lemma EarlyEntries(out: seq<Address>, m: Key, o: Key, data: Data, i: nat)
    requires EarlyLineUp(out, m, o) && i < 6
    ensures ResolveOne(Entry(i), out[..5 + i], data) == Ok(out[5 + i])
  {
    var before := out[..5 + i];
    if i == 1 {
      OwnedPdaResolves(DailySlot(o, m), 5, true, before, data);
    } else if i == 3 {
      OwnedPdaResolves(BlockSlot(o, m), 7, false, before, data);
    } else if i == 5 {
      OwnedPdaResolves(CoolSlot(o, m), 9, true, before, data);
    }
  }

  lemma MiddleEntries(out: seq<Address>, m: Key, o: Key, r: Key, data: Data, i: nat)
    requires MiddleLineUp(out, m, o, r) && 6 <= i < 9
    requires out[2] in data && |data[out[2]]| >= 64 && data[out[2]][32..64] == r
    ensures ResolveOne(Entry(i), out[..5 + i], data) == Ok(out[5 + i])
  {
    var before := out[..5 + i];
    if i == 7 {
      OwnedPdaResolves(SlowSlot(o, m), 11, false, before, data);
    } else if i == 8 {
      ContactPdaResolves(before, data, o, m, r);
    }
  }

  lemma LateEntries(out: seq<Address>, m: Key, o: Key, data: Data, i: nat)
    requires LateLineUp(out, m, o) && 9 <= i < 14
    ensures ResolveOne(Entry(i), out[..5 + i], data) == Ok(out[5 + i])
  {
    var before := out[..5 + i];
    if i == 10 {
      OwnedPdaResolves(NightSlot(o, m), 14, false, before, data);
    } else if i == 12 {
      OwnedPdaResolves(GateSlot(o, m), 16, false, before, data);
    }
  }

  lemma CanonicalEarly(source: Address, m: Key, dest: Address, o: Key, metaList: Address, r: Key)
    ensures EarlyLineUp(Canonical(source, m, dest, o, metaList, r), m, o)
  {
    hide AddressOf;
  }

  lemma CanonicalMiddle(source: Address, m: Key, dest: Address, o: Key, metaList: Address, r: Key)
    ensures MiddleLineUp(Canonical(source, m, dest, o, metaList, r), m, o, r)
  {
    hide AddressOf;
  }

  lemma CanonicalLate(source: Address, m: Key, dest: Address, o: Key, metaList: Address, r: Key)
    ensures LateLineUp(Canonical(source, m, dest, o, metaList, r), m, o)
  {
    hide AddressOf;
  }

  lemma CanonicalFixed(source: Address, m: Key, dest: Address, o: Key, metaList: Address, r: Key)
    ensures Canonical(source, m, dest, o, metaList, r)[..5] == [source, Raw(m), dest, Raw(o), metaList]
  {
  }

  lemma LinedUpResolves(out: seq<Address>, m: Key, o: Key, r: Key, data: Data)
    requires EarlyLineUp(out, m, o) && MiddleLineUp(out, m, o, r) && LateLineUp(out, m, o)
    requires out[2] in data && |data[out[2]]| >= 64 && data[out[2]][32..64] == r
    ensures ResolveAll(out[..5], Extras(), data) == Ok(out)
  {
    forall i | 0 <= i < 14 ensures ResolveOne(Extras()[i], out[..5 + i], data) == Ok(out[5 + i]) {
      if i < 6 {
        EarlyEntries(out, m, o, data, i);
      } else if i < 9 {
        MiddleEntries(out, m, o, r, data, i);
      } else {
        LateEntries(out, m, o, data, i);
      }
    }
    EntryByEntry(5, Extras(), out, data);
  }

  /** Interpreting the list yields, position by position, the accounts `Execute` names:
      each rule program, and the address that program itself derives for the owner, the
      mint and the recipient in bytes 32..64 of the destination. */
  lemma ResolutionIsCanonical(source: Address, m: Key, dest: Address, o: Key, metaList: Address, r: Key, data: Data)
    requires dest in data && |data[dest]| >= 64 && data[dest][32..64] == r
    ensures ResolveAll([source, Raw(m), dest, Raw(o), metaList], Extras(), data)
         == Ok(Canonical(source, m, dest, o, metaList, r))
    ensures Bind(Canonical(source, m, dest, o, metaList, r)) == Ok(CanonicalExecute(source, m, dest, o, metaList, r))
  {
    var out := Canonical(source, m, dest, o, metaList, r);
    CanonicalEarly(source, m, dest, o, metaList, r);
    CanonicalMiddle(source, m, dest, o, metaList, r);
    CanonicalLate(source, m, dest, o, metaList, r);
    CanonicalFixed(source, m, dest, o, metaList, r);
    LinedUpResolves(out, m, o, r, data);
  }

  /** Where the list puts the six rule programs. */
  lemma ProgramPositions(source: Address, m: Key, dest: Address, o: Key, metaList: Address, r: Key)
    ensures CanonicalAt(5, source, m, dest, o, metaList, r) == ProgramId(DailyLimitProgram)
    ensures CanonicalAt(7, source, m, dest, o, metaList, r) == ProgramId(BlockListProgram)
    ensures CanonicalAt(9, source, m, dest, o, metaList, r) == ProgramId(CooloffProgram)
    ensures CanonicalAt(11, source, m, dest, o, metaList, r) == ProgramId(SlowSendProgram)
    ensures CanonicalAt(14, source, m, dest, o, metaList, r) == ProgramId(TimeWindowProgram)
    ensures CanonicalAt(16, source, m, dest, o, metaList, r) == ProgramId(FriendGateProgram)
  {
  }

  /** The hook's struct takes a list exactly if it is long enough and has the six rule programs
      where the entries put them: no other program can stand in for a rule. */
  lemma OnlyRuleProgramsBind(a: seq<Address>, source: Address, m: Key, dest: Address, o: Key, metaList: Address, r: Key)
    ensures Bind(a).Ok? <==>
              && |a| >= 19
              && a[5] == CanonicalAt(5, source, m, dest, o, metaList, r) && a[7] == CanonicalAt(7, source, m, dest, o, metaList, r)
              && a[9] == CanonicalAt(9, source, m, dest, o, metaList, r) && a[11] == CanonicalAt(11, source, m, dest, o, metaList, r)
              && a[14] == CanonicalAt(14, source, m, dest, o, metaList, r) && a[16] == CanonicalAt(16, source, m, dest, o, metaList, r)
    ensures Bind(a).Err? ==> Bind(a).error == if |a| < 19 then AccountMissing else ConstraintViolated
  {
    ProgramPositions(source, m, dest, o, metaList, r);
    hide CanonicalAt;
  }

  /** The list asks for write access exactly where `Execute` declares `mut`: the daily
      limit at 6 and the cool-off at 10; no extra account signs. */
  lemma WritableExactlyWhereMutated(i: nat)
    requires i < 14
    ensures Entry(i).writable <==> 5 + i == 6 || 5 + i == 10
    ensures !Entry(i).signer
  {
  }

  /** A destination without 64 bytes of data stops the resolution. */
  lemma ShortDestinationFails(source: Address, m: Key, dest: Address, o: Key, metaList: Address, data: Data, resolved: seq<Address>)
    requires 11 < |resolved| && resolved[2] == dest && resolved[11].ProgramId? && resolved[3].Raw?
    requires dest !in data || |data[dest]| < 64
    ensures ResolveOne(Entry(8), resolved, data).Err?
  {
    SeedFails(Entry(8).seeds, 2, resolved, data);
  }

  lemma {:induction false} SeedFails(seeds: seq<Seed>, j: nat, resolved: seq<Address>, data: Data)
    requires j < |seeds| && ResolveSeed(seeds[j], resolved, data).Err?
    ensures ResolveSeeds(seeds, resolved, data).Err?
  {
    if j > 0 {
      SeedFails(seeds[1..], j - 1, resolved, data);
    }
  }

  /** A resolution that succeeds resolved every entry on what came before it. */
  lemma {:induction false} ResolvedEntries(given: seq<Address>, es: seq<Extra>, data: Data)
    requires ResolveAll(given, es, data).Ok?
    ensures var out := ResolveAll(given, es, data).value;
            && |out| == |given| + |es| && given <= out
            && (forall i :: 0 <= i < |es| ==> ResolveOne(es[i], out[..|given| + i], data) == Ok(out[|given| + i]))
    decreases |es|
  {
    if es != [] {
      var next := given + [ResolveOne(es[0], given, data).value];
      var out := ResolveAll(given, es, data).value;
      ResolvedEntries(next, es[1..], data);
      assert out[..|given|] == given && out[|given|] == next[|given|];
      forall i | 0 <= i < |es| ensures ResolveOne(es[i], out[..|given| + i], data) == Ok(out[|given| + i]) {
        if i > 0 {
          assert ResolveOne(es[1..][i - 1], out[..|next| + (i - 1)], data) == Ok(out[|next| + (i - 1)]);
        }
      }
    }
  }

  /** So no transfer to an account without 64 bytes of data ever reaches the hook. */
  lemma ShortDestinationNeverResolves(source: Address, m: Key, dest: Address, o: Key, metaList: Address, data: Data)
    requires dest !in data || |data[dest]| < 64
    ensures ResolveAll([source, Raw(m), dest, Raw(o), metaList], Extras(), data).Err?
  {
    hide AddressOf;
    var given := [source, Raw(m), dest, Raw(o), metaList];
    if ResolveAll(given, Extras(), data).Ok? {
      ResolvedEntries(given, Extras(), data);
      var out := ResolveAll(given, Extras(), data).value;
      assert ResolveOne(Extras()[6], out[..5 + 6], data) == Ok(out[5 + 6]);
      assert out[2] == given[2] && out[3] == given[3];
      assert ResolveOne(Extras()[8], out[..5 + 8], data) == Ok(out[5 + 8]);
      ShortDestinationFails(source, m, dest, o, metaList, data, out[..5 + 8]);
    }
  }
}
