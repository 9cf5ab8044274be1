/**
 * Program-derived addresses, kept structural: a program together with the concatenation
 * of the seed bytes, as the runtime hashes them. Hash, curve check and bump are left out.
 */
module Addresses {
  import opened Base

  datatype Program =
    | DailyLimitProgram | BlockListProgram | CooloffProgram | SlowSendProgram | TimeWindowProgram | FriendGateProgram
    | RegistryProgram

  datatype Address = Raw(key: Key) | ProgramId(program: Program) | InstructionsSysvar | Pda(owner: Program, seed: seq<byte>)

  function Ascii(s: string): (b: seq<byte>)
    ensures |b| == |s|
  {
    seq(|s|, i requires 0 <= i < |s| => s[i] as int % 256)
  }

  function Concat(seeds: seq<seq<byte>>): seq<byte> {
    if seeds == [] then [] else seeds[0] + Concat(seeds[1..])
  }

  /** `find_program_address`: only the concatenation of the seeds matters. */
  function FindPda(program: Program, seeds: seq<seq<byte>>): Address {
    Pda(program, Concat(seeds))
  }

  /** The seven kinds of rule account, named by what they belong to. */
  datatype Slot =
    | DailySlot(sender: Key, mint: Key)
    | BlockSlot(sender: Key, mint: Key)
    | CoolSlot(sender: Key, mint: Key)
    | SlowSlot(sender: Key, mint: Key)
    | ContactSlot(sender: Key, recipient: Key, mint: Key)
    | NightSlot(sender: Key, mint: Key)
    | GateSlot(sender: Key, mint: Key)

  function ProgramOf(x: Slot): Program {
    match x
    case DailySlot(_, _) => DailyLimitProgram
    case BlockSlot(_, _) => BlockListProgram
    case CoolSlot(_, _) => CooloffProgram
    case SlowSlot(_, _) => SlowSendProgram
    case ContactSlot(_, _, _) => SlowSendProgram
    case NightSlot(_, _) => TimeWindowProgram
    case GateSlot(_, _) => FriendGateProgram
  }

  function PrefixOf(x: Slot): string {
    match x
    case DailySlot(_, _) => "rule_daily_limit"
    case BlockSlot(_, _) => "rule_block_handle"
    case CoolSlot(_, _) => "rule_cooloff"
    case SlowSlot(_, _) => "slow_send_config"
    case ContactSlot(_, _, _) => "slow_send_contact"
    case NightSlot(_, _) => "time_window"
    case GateSlot(_, _) => "rule_friend_gate"
  }

  /** The address each rule program derives for its account. */
  function AddressOf(x: Slot): Address {
    if x.ContactSlot?
    then FindPda(ProgramOf(x), [Ascii(PrefixOf(x)), x.sender, x.recipient, x.mint])
    else FindPda(ProgramOf(x), [Ascii(PrefixOf(x)), x.sender, x.mint])
  }

  lemma Concat3(a: seq<byte>, b: seq<byte>, c: seq<byte>)
    ensures Concat([a, b, c]) == a + b + c
  {
    assert [a, b, c][1..] == [b, c] && [b, c][1..] == [c] && [c][1..] == [];
    assert Concat([c]) == c;
    assert Concat([b, c]) == b + c;
  }

  lemma Concat4(a: seq<byte>, b: seq<byte>, c: seq<byte>, d: seq<byte>)
    ensures Concat([a, b, c, d]) == a + b + c + d
  {
    assert [a, b, c, d][1..] == [b, c, d];
    Concat3(b, c, d);
    assert a + (b + c + d) == a + b + c + d;
  }

  /** Splitting a concatenation at a known width. */
  lemma SplitAt(a: seq<byte>, b: seq<byte>, c: seq<byte>, d: seq<byte>)
    requires a + b == c + d && |a| == |c|
    ensures a == c && b == d
  {
    assert (a + b)[..|a|] == a && (c + d)[..|c|] == c;
    assert (a + b)[|a|..] == b && (c + d)[|c|..] == d;
  }

  function SeedBytes(x: Slot): seq<byte> {
    if x.ContactSlot? then Ascii(PrefixOf(x)) + x.sender + x.recipient + x.mint
    else Ascii(PrefixOf(x)) + x.sender + x.mint
  }

  lemma AddressSeeds(x: Slot)
    ensures AddressOf(x) == Pda(ProgramOf(x), SeedBytes(x))
  {
    if x.ContactSlot? {
      Concat4(Ascii(PrefixOf(x)), x.sender, x.recipient, x.mint);
    } else {
      Concat3(Ascii(PrefixOf(x)), x.sender, x.mint);
    }
  }

  /** The seven seeds, spelt out. */
  lemma RuleSeeds(s: Key, r: Key, m: Key)
    ensures AddressOf(DailySlot(s, m)) == Pda(DailyLimitProgram, Ascii("rule_daily_limit") + s + m)
    ensures AddressOf(BlockSlot(s, m)) == Pda(BlockListProgram, Ascii("rule_block_handle") + s + m)
    ensures AddressOf(CoolSlot(s, m)) == Pda(CooloffProgram, Ascii("rule_cooloff") + s + m)
    ensures AddressOf(SlowSlot(s, m)) == Pda(SlowSendProgram, Ascii("slow_send_config") + s + m)
    ensures AddressOf(ContactSlot(s, r, m)) == Pda(SlowSendProgram, Ascii("slow_send_contact") + s + r + m)
    ensures AddressOf(NightSlot(s, m)) == Pda(TimeWindowProgram, Ascii("time_window") + s + m)
    ensures AddressOf(GateSlot(s, m)) == Pda(FriendGateProgram, Ascii("rule_friend_gate") + s + m)
  {
    hide AddressOf;
    AddressSeeds(DailySlot(s, m));
    AddressSeeds(BlockSlot(s, m));
    AddressSeeds(CoolSlot(s, m));
    AddressSeeds(SlowSlot(s, m));
    AddressSeeds(ContactSlot(s, r, m));
    AddressSeeds(NightSlot(s, m));
    AddressSeeds(GateSlot(s, m));
  }

  /** Although only concatenated bytes are hashed, the fixed widths keep all rule
      accounts apart: an address determines the kind, sender, recipient and mint. */
  lemma AddressInjective(x: Slot, y: Slot)
    requires AddressOf(x) == AddressOf(y)
    ensures x == y
  {
    AddressSeeds(x);
    AddressSeeds(y);
    assert |SeedBytes(x)| == |PrefixOf(x)| + (if x.ContactSlot? then 96 else 64);
    assert |SeedBytes(y)| == |PrefixOf(y)| + (if y.ContactSlot? then 96 else 64);
    assert PrefixOf(x) == PrefixOf(y);
    var p := Ascii(PrefixOf(x));
    if x.ContactSlot? {
      SplitAt(p + x.sender + x.recipient, x.mint, p + y.sender + y.recipient, y.mint);
      SplitAt(p + x.sender, x.recipient, p + y.sender, y.recipient);
    } else {
      SplitAt(p + x.sender, x.mint, p + y.sender, y.mint);
    }
    SplitAt(p, x.sender, p, y.sender);
  }

  // ---- Handle registry ---------------------------------------------------------

  function HandlePda(name: seq<byte>): Address {
    FindPda(RegistryProgram, [Ascii("handle"), name])
  }

  function ReversePda(wallet: Key): Address {
    FindPda(RegistryProgram, [Ascii("wallet"), wallet])
  }

  lemma Concat2(a: seq<byte>, b: seq<byte>)
    ensures Concat([a, b]) == a + b
  {
    assert [a, b][1..] == [b] && [b][1..] == [];
    assert Concat([b]) == b;
  }

  /** The registry's seeds, spelt out. */
  lemma RegistrySeeds(name: seq<byte>, wallet: Key)
    ensures HandlePda(name) == Pda(RegistryProgram, [104, 97, 110, 100, 108, 101] + name)
    ensures ReversePda(wallet) == Pda(RegistryProgram, [119, 97, 108, 108, 101, 116] + wallet)
  {
    Concat2(Ascii("handle"), name);
    Concat2(Ascii("wallet"), wallet);
    assert Ascii("handle") == [104, 97, 110, 100, 108, 101] && Ascii("wallet") == [119, 97, 108, 108, 101, 116];
  }

  /** Forward and reverse accounts never meet, though names vary in length. */
  lemma RegistryAddressesApart(name: seq<byte>, other: seq<byte>, wallet: Key, second: Key)
    ensures HandlePda(name) == HandlePda(other) ==> name == other
    ensures ReversePda(wallet) == ReversePda(second) ==> wallet == second
    ensures HandlePda(name) != ReversePda(wallet)
  {
    var h, w := Ascii("handle"), Ascii("wallet");
    Concat2(h, name);
    Concat2(h, other);
    Concat2(w, wallet);
    Concat2(w, second);
    if HandlePda(name) == HandlePda(other) {
      SplitAt(h, name, h, other);
    }
    if ReversePda(wallet) == ReversePda(second) {
      SplitAt(w, wallet, w, second);
    }
    assert (h + name)[0] == 'h' as int && (w + wallet)[0] == 'w' as int;
  }
}
