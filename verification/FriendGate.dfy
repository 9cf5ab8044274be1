/**
 * The friend gate: at or above a threshold, the configured friend must be a signer of
 * some instruction up to the one that is running. Includes the SDK's builder of
 * transactions that satisfy it.
 */
module FriendGate {
  import opened Base

  datatype Gate = Gate(sender: Key, mint: Key, threshold: u64, friend: Key, bump: byte)

  datatype Meta = Meta(pubkey: Key, isSigner: bool, isWritable: bool)
  datatype Instruction = Instruction(accounts: seq<Meta>)

  /** What the Instructions sysvar shows: the transaction and the running instruction. */
  datatype Sysvar = Sysvar(instructions: seq<Instruction>, current: nat)

  predicate Signs(ix: Instruction, k: Key) {
    exists j :: 0 <= j < |ix.accounts| && ix.accounts[j].isSigner && ix.accounts[j].pubkey == k
  }

  /** Some instruction among 0..current that loads has k as a signer. */
  predicate Cosigned(sv: Sysvar, k: Key) {
    exists i :: 0 <= i < |sv.instructions| && i <= sv.current && Signs(sv.instructions[i], k)
  }

  function CheckOpt(s: Option<Gate>, amount: u64, sv: Sysvar): Result<()> {
    if s == None || amount < s.value.threshold then Ok(())
    else if Cosigned(sv, s.value.friend) then Ok(())
    else Err(FriendSignatureRequired)
  }

  const BLANK := Gate(ZERO_KEY, ZERO_KEY, 0, ZERO_KEY, 0)

  function Configure(s: Option<Gate>, sender: Key, mint: Key, threshold: u64, friend: Key, bump: byte): Result<Gate> {
    if threshold == 0 then Err(ZeroThreshold)
    else if friend == ZERO_KEY then Err(ZeroFriend)
    else if friend == sender then Err(FriendIsSelf)
    else
      var g := if s.Some? then s.value else BLANK;
      var h := if g.sender == ZERO_KEY then g.(sender := sender, mint := mint, bump := bump) else g;
      Ok(h.(threshold := threshold, friend := friend))
  }

  /** The Anchor account that `set_friend_gate` and `disable_friend_gate` work on. */
  class FriendGateAccount {
    var initialized: bool
    var sender: Key
    var mint: Key
    var threshold: u64
    var friend: Key
    var bump: byte

    ghost function State(): Option<Gate>
      reads this
    {
      if initialized then Some(Gate(sender, mint, threshold, friend, bump)) else None
    }

    constructor ()
      ensures State() == None
    {
      initialized := false;
      sender, mint, threshold, friend, bump := ZERO_KEY, ZERO_KEY, 0, ZERO_KEY, 0;
    }

    method SetFriendGate(caller: Key, stedeMint: Key, newThreshold: u64, friendWallet: Key, newBump: byte)
      returns (r: Result<()>)
      modifies this
      ensures match Configure(old(State()), caller, stedeMint, newThreshold, friendWallet, newBump)
              case Ok(g) => r == Ok(()) && State() == Some(g)
              case Err(e) => r == Err(e) && State() == old(State())
    {
      if newThreshold == 0 {
        return Err(ZeroThreshold);
      }
      if friendWallet == ZERO_KEY {
        return Err(ZeroFriend);
      }
      if friendWallet == caller {
        return Err(FriendIsSelf);
      }
      if !initialized {
        initialized := true;
        sender, mint, threshold, friend, bump := ZERO_KEY, ZERO_KEY, 0, ZERO_KEY, 0;
      }
      if sender == ZERO_KEY {
        sender := caller;
        mint := stedeMint;
        bump := newBump;
      }
      threshold := newThreshold;
      friend := friendWallet;
      return Ok(());
    }

    method DisableFriendGate(caller: Key) returns (r: Result<()>)
      modifies this
      ensures r == (if old(State()) == None then Err(AccountMissing)
                    else if old(State()).value.sender != caller then Err(ConstraintViolated)
                    else Ok(()))
      ensures State() == if r.Ok? then None else old(State())
    {
      if !initialized {
        return Err(AccountMissing);
      }
      if sender != caller {
        return Err(ConstraintViolated);
      }
      initialized := false;
      return Ok(());
    }
  }

  // ---- Runs -------------------------------------------------------------------

  datatype Event = Set(threshold: u64, friend: Key, bump: byte) | Disable

  function Step(who: Key, mint: Key, s: Option<Gate>, e: Event): Option<Gate> {
    match e
    case Set(threshold, friend, bump) =>
      (match Configure(s, who, mint, threshold, friend, bump) case Ok(g) => Some(g) case Err(_) => s)
    case Disable => if s.Some? && s.value.sender == who then None else s
  }

  function Run(who: Key, mint: Key, s: Option<Gate>, es: seq<Event>): Option<Gate>
    decreases |es|
  {
    if es == [] then s else Run(who, mint, Step(who, mint, s, es[0]), es[1..])
  }

  /** Threshold and friend in force, read off the requests from the last one back: the last
      valid ones, unless a disable came after them; those of `start` if there was neither. */
  function InForce(who: Key, start: Option<(u64, Key)>, es: seq<Event>): Option<(u64, Key)> {
    if es == [] then start
    else
      match es[|es| - 1]
      case Set(threshold, friend, _) =>
        if threshold > 0 && friend != ZERO_KEY && friend != who then Some((threshold, friend))
        else InForce(who, start, es[..|es| - 1])
      case Disable => None
  }

  function Demand(s: Option<Gate>): Option<(u64, Key)> {
    if s == None then None else Some((s.value.threshold, s.value.friend))
  }

  lemma {:induction false} RunSnoc(who: Key, mint: Key, s: Option<Gate>, es: seq<Event>, e: Event)
    ensures Run(who, mint, s, es + [e]) == Step(who, mint, Run(who, mint, s, es), e)
    decreases |es|
  {
    if es == [] {
      assert [e][1..] == [] && [] + [e] == [e];
    } else {
      assert (es + [e])[1..] == es[1..] + [e];
      RunSnoc(who, mint, Step(who, mint, s, es[0]), es[1..], e);
    }
  }

  /** The stored record is the owner's, and holds the demand in force. */
  lemma {:induction false} RunHoldsInForce(who: Key, mint: Key, s: Option<Gate>, es: seq<Event>)
    requires who != ZERO_KEY && (s.Some? ==> s.value.sender == who)
    ensures var g := Run(who, mint, s, es);
            (g.Some? ==> g.value.sender == who) && Demand(g) == InForce(who, Demand(s), es)
    decreases |es|
  {
    if es != [] {
      var last := |es| - 1;
      assert es == es[..last] + [es[last]];
      RunHoldsInForce(who, mint, s, es[..last]);
      RunSnoc(who, mint, s, es[..last], es[last]);
    }
  }

  /** What a configuration leaves, and why one is refused: no threshold, no friend, or the
      caller as its own friend, in this order. */
  lemma ConfiguringKeepsTheRest(s: Option<Gate>, who: Key, mint: Key, threshold: u64, friend: Key, bump: byte)
    requires who != ZERO_KEY && (s.Some? ==> s.value.sender == who)
    ensures match Configure(s, who, mint, threshold, friend, bump)
            case Err(e) =>
              && (threshold == 0 || friend == ZERO_KEY || friend == who)
              && (e == ZeroThreshold <==> threshold == 0)
              && (e == ZeroFriend <==> threshold > 0 && friend == ZERO_KEY)
              && (e == FriendIsSelf <==> threshold > 0 && friend != ZERO_KEY && friend == who)
            case Ok(g) =>
              && threshold > 0 && friend != ZERO_KEY && friend != who
              && Demand(Some(g)) == Some((threshold, friend)) && g.sender == who
              && (s.Some? ==> g.(threshold := s.value.threshold, friend := s.value.friend) == s.value)
              && (s == None ==> g.mint == mint && g.bump == bump)
  {
  }

  /** The gate refuses with one code, exactly at or above the threshold without the friend. */
  lemma CheckRefused(g: Gate, amount: u64, sv: Sysvar)
    ensures CheckOpt(Some(g), amount, sv)
         == if amount >= g.threshold && !Cosigned(sv, g.friend) then Err(FriendSignatureRequired) else Ok(())
  {
  }

  // ---- The scan -----------------------------------------------------------------

  /** The nested scan: instructions outside, account metas inside, breaking out of both. */
  method ScanForFriend(sv: Sysvar, friend: Key) returns (signed: bool)
    ensures signed <==> Cosigned(sv, friend)
  {
    signed := false;
    var i := 0;
    while i <= sv.current
      invariant 0 <= i <= sv.current + 1
      invariant !signed
      invariant forall m :: 0 <= m < i && m < |sv.instructions| ==> !Signs(sv.instructions[m], friend)
    {
      if i < |sv.instructions| { // `load_instruction_at_checked` yields an instruction
        var ix := sv.instructions[i];
        var j := 0;
        while j < |ix.accounts|
          invariant 0 <= j <= |ix.accounts|
          invariant !signed
          invariant forall n :: 0 <= n < j ==> !(ix.accounts[n].isSigner && ix.accounts[n].pubkey == friend)
        {
          if ix.accounts[j].isSigner && ix.accounts[j].pubkey == friend {
            signed := true;
            break;
          }
          j := j + 1;
        }
      }
      if signed {
        break;
      }
      i := i + 1;
    }
  }

  /** The running instruction is looked at, and all before it: the gate passes from the first
      signed one on. */
  lemma CurrentCounts(sv: Sysvar, k: Key)
    requires sv.current < |sv.instructions|
    ensures Cosigned(sv, k) <==>
              Signs(sv.instructions[sv.current], k) || (sv.current > 0 && Cosigned(sv.(current := sv.current - 1), k))
  {
    if Cosigned(sv, k) {
      var i :| 0 <= i < |sv.instructions| && i <= sv.current && Signs(sv.instructions[i], k);
      assert i < sv.current ==> Cosigned(sv.(current := sv.current - 1), k);
    }
  }

  /** Instructions after the running one have no influence. */
  lemma LaterInstructionsIgnored(a: Sysvar, b: Sysvar, k: Key)
    requires a.current == b.current
    requires forall i :: 0 <= i <= a.current ==>
               (i < |a.instructions| <==> i < |b.instructions|)
               && (i < |a.instructions| ==> a.instructions[i] == b.instructions[i])
    ensures Cosigned(a, k) == Cosigned(b, k)
  {
    if Cosigned(a, k) {
      var i :| 0 <= i < |a.instructions| && i <= a.current && Signs(a.instructions[i], k);
      assert Signs(b.instructions[i], k);
    }
    if Cosigned(b, k) {
      var i :| 0 <= i < |b.instructions| && i <= b.current && Signs(b.instructions[i], k);
      assert Signs(a.instructions[i], k);
    }
  }

  // ---- The SDK's transactions -------------------------------------------------

  /** `SystemProgram.transfer` of nothing from the friend to itself. */
  function Carrier(friend: Key): Instruction {
    Instruction([Meta(friend, true, true), Meta(friend, false, true)])
  }

  /** `transferChecked` with the hook's accounts, none of which the list marks as a signer. */
  function HookedTransfer(source: Key, mint: Key, dest: Key, sender: Key, extras: seq<Meta>): Instruction {
    Instruction([Meta(source, false, true), Meta(mint, false, false), Meta(dest, false, true),
                 Meta(sender, true, false)] + extras)
  }

  ghost predicate NoSigner(extras: seq<Meta>) {
    forall j :: 0 <= j < |extras| ==> !extras[j].isSigner
  }

  /** `buildFriendGateTransfer`: an optional account creation, the carrier, the transfer. */
  method BuildFriendGateTransfer(create: Option<Instruction>, transfer: Instruction, friend: Key)
    returns (tx: seq<Instruction>)
    ensures tx == (if create.Some? then [create.value] else []) + [Carrier(friend), transfer]
    ensures Cosigned(Sysvar(tx, |tx| - 1), friend)
    ensures tx[|tx| - 1] == transfer
  {
    tx := [];
    if create.Some? {
      tx := tx + [create.value];
    }
    var carrierIx := Carrier(friend);
    tx := tx + [carrierIx, transfer];
    assert carrierIx.accounts[0].isSigner && carrierIx.accounts[0].pubkey == friend;
    assert Signs(tx[|tx| - 2], friend);
  }

  /** Whatever gate is configured, the built transaction meets it at any amount. */
  lemma BuiltTransferPasses(g: Gate, amount: u64, create: Option<Instruction>, transfer: Instruction)
    ensures var tx := (if create.Some? then [create.value] else []) + [Carrier(g.friend), transfer];
            CheckOpt(Some(g), amount, Sysvar(tx, |tx| - 1)) == Ok(())
  {
    var tx := (if create.Some? then [create.value] else []) + [Carrier(g.friend), transfer];
    assert Carrier(g.friend).accounts[0].isSigner;
    assert Signs(tx[|tx| - 2], g.friend);
  }

  /** Without the carrier the sender is the only signer, so a gate that the program
      accepted refuses every amount it applies to. */
  lemma PlainTransferRefused(s: Option<Gate>, g: Gate, source: Key, mint: Key, dest: Key, sender: Key, stedeMint: Key,
                             extras: seq<Meta>, threshold: u64, friend: Key, bump: byte, amount: u64)
    requires Configure(s, sender, stedeMint, threshold, friend, bump) == Ok(g)
    requires NoSigner(extras)
    ensures CheckOpt(Some(g), amount, Sysvar([HookedTransfer(source, mint, dest, sender, extras)], 0)).Ok?
            <==> amount < threshold
  {
  }
}
