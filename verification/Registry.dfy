/**
 * The handle registry: a forward account per name, a reverse account per wallet, and the
 * lamports both kinds hold. The two maps stay mutual inverses over every run, and every
 * lamport a claim locks up goes back to the wallet that releases the handle.
 */
module Registry {
  import opened Base
  import opened Addresses

  // ---- Name validation -----------------------------------------------------------

  const MIN_LEN := 3
  const MAX_LEN := 20
  const RESERVED: seq<seq<byte>> :=
    [Ascii("stede"), Ascii("admin"), Ascii("team"), Ascii("support"), Ascii("null"), Ascii("system")]

  predicate IsDigit(b: byte) {
    '0' as int <= b <= '9' as int
  }

  predicate IsLower(b: byte) {
    'a' as int <= b <= 'z' as int
  }

  predicate IsHandleByte(b: byte) {
    IsLower(b) || IsDigit(b) || b == '_' as int
  }

  /** The names a wallet may claim: [a-z_][a-z0-9_]{2,19}, minus the reserved words. */
  predicate IsHandle(name: seq<byte>) {
    && MIN_LEN <= |name| <= MAX_LEN
    && !IsDigit(name[0])
    && (forall i :: 0 <= i < |name| ==> IsHandleByte(name[i]))
    && name !in RESERVED
  }

  /** The rule that rejects a name, in the order the rules are tried. */
  function Rejection(name: seq<byte>): Error
    requires !IsHandle(name)
  {
    if |name| < MIN_LEN then TooShort
    else if |name| > MAX_LEN then TooLong
    else if IsDigit(name[0]) then StartsWithDigit
    else if exists i :: 0 <= i < |name| && !IsHandleByte(name[i]) then InvalidCharacters
    else Reserved
  }

  function Validation(name: seq<byte>): Result<()> {
    if IsHandle(name) then Ok(()) else Err(Rejection(name))
  }

  method ValidateHandle(name: seq<byte>) returns (r: Result<()>)
    ensures r == Validation(name)
    ensures r.Ok? <==> IsHandle(name)
  {
    if |name| < MIN_LEN {
      return Err(TooShort);
    }
    if |name| > MAX_LEN {
      return Err(TooLong);
    }
    if IsDigit(name[0]) {
      return Err(StartsWithDigit);
    }
    for i := 0 to |name|
      invariant forall k :: 0 <= k < i ==> IsHandleByte(name[k])
    {
      var b := name[i];
      var valid := IsLower(b) || IsDigit(b) || b == '_' as int;
      if !valid {
        return Err(InvalidCharacters);
      }
    }
    if name in RESERVED {
      return Err(Reserved);
    }
    return Ok(());
  }

  /** The rules in figures: length, alphabet and first character, in ASCII. */
  lemma HandleInFigures(name: seq<byte>)
    ensures IsHandle(name) <==>
              && 3 <= |name| <= 20
              && !(48 <= name[0] <= 57)
              && (forall i :: 0 <= i < |name| ==> 97 <= name[i] <= 122 || 48 <= name[i] <= 57 || name[i] == 95)
              && Validation(name) != Err(Reserved)
  {
  }

  /** The reserved words, spelt out: they and no other names are refused as reserved. */
  lemma ReservedWords(name: seq<byte>)
    ensures Validation(name) == Err(Reserved) <==>
              || name == [115, 116, 101, 100, 101]           // stede
              || name == [97, 100, 109, 105, 110]            // admin
              || name == [116, 101, 97, 109]                 // team
              || name == [115, 117, 112, 112, 111, 114, 116] // support
              || name == [110, 117, 108, 108]                // null
              || name == [115, 121, 115, 116, 101, 109]      // system
  {
    assert Ascii("stede") == [115, 116, 101, 100, 101];
    assert Ascii("admin") == [97, 100, 109, 105, 110];
    assert Ascii("team") == [116, 101, 97, 109];
    assert Ascii("support") == [115, 117, 112, 112, 111, 114, 116];
    assert Ascii("null") == [110, 117, 108, 108];
    assert Ascii("system") == [115, 121, 115, 116, 101, 109];
  }

  /** Which rule a name is told it breaks: the first of them, in figures. */
  lemma RejectionInFigures(name: seq<byte>)
    ensures var clean := forall i :: 0 <= i < |name| ==> 97 <= name[i] <= 122 || 48 <= name[i] <= 57 || name[i] == 95;
            && (Validation(name) == Err(TooShort) <==> |name| < 3)
            && (Validation(name) == Err(TooLong) <==> |name| > 20)
            && (Validation(name) == Err(StartsWithDigit) <==> 3 <= |name| <= 20 && 48 <= name[0] <= 57)
            && (Validation(name) == Err(InvalidCharacters) <==> 3 <= |name| <= 20 && !(48 <= name[0] <= 57) && !clean)
  {
  }

  // ---- State and instructions -----------------------------------------------------

  const ANTI_SQUAT_DEPOSIT: nat := 10_000_000
  const MAX_SEED_LEN := 32

  datatype Handle = Handle(owner: Key, name: seq<byte>, claimedAt: i64)

  datatype Account = Wallet(key: Key) | HandleAccount(name: seq<byte>) | ReverseAccount(wallet: Key)

  /** Rent-exempt minimum of a handle account and of a reverse account. */
  datatype Rents = Rents(handle: nat, reverse: nat)

  datatype State = State(
    handles: map<seq<byte>, Handle>,
    reverse: map<Key, seq<byte>>,
    lamports: map<Account, nat>)

  /** Where each account lives on the chain. */
  function AddressOfAccount(a: Account): Address {
    match a
    case Wallet(key) => Raw(key)
    case HandleAccount(name) => HandlePda(name)
    case ReverseAccount(wallet) => ReversePda(wallet)
  }

  /** Different accounts have different addresses, so the state may be keyed by name and wallet. */
  lemma AccountsApart(a: Account, b: Account)
    requires AddressOfAccount(a) == AddressOfAccount(b)
    ensures a == b
  {
    var name := if a.HandleAccount? then a.name else [];
    var other := if b.HandleAccount? then b.name else [];
    var wallet := if a.ReverseAccount? then a.wallet else ZERO_KEY;
    var second := if b.ReverseAccount? then b.wallet else ZERO_KEY;
    RegistryAddressesApart(name, other, wallet, second);
    RegistryAddressesApart(name, other, second, wallet);
    RegistryAddressesApart(other, name, wallet, second);
  }

  /** `init`: the payer tops the new account up to its rent; earlier gifts count. */
  function Fund(lamports: map<Account, nat>, payer: Key, account: Account, rent: nat): Result<map<Account, nat>> {
    var missing := SatSub(rent, Get(lamports, account));
    if Get(lamports, Wallet(payer)) < missing then Err(InsufficientFunds)
    else Ok(Move(lamports, Wallet(payer), account, missing))
  }

  /** `close`: everything the account holds goes to the destination. */
  function Drain(lamports: map<Account, nat>, account: Account, to: Key): map<Account, nat> {
    Move(lamports, account, Wallet(to), Get(lamports, account))
  }

  function Claim(s: State, rents: Rents, claimer: Key, name: seq<byte>, now: i64): Result<State> {
    if |name| > MAX_SEED_LEN then Err(ConstraintViolated)
    else if name in s.handles then Err(AlreadyInUse)
    else
      var l1 :- Fund(s.lamports, claimer, HandleAccount(name), rents.handle);
      if claimer in s.reverse then Err(AlreadyInUse)
      else
        var l2 :- Fund(l1, claimer, ReverseAccount(claimer), rents.reverse);
        var _ :- Validation(name);
        if Get(l2, Wallet(claimer)) < ANTI_SQUAT_DEPOSIT then Err(InsufficientFunds)
        else Ok(State(
          s.handles[name := Handle(claimer, name, now)],
          s.reverse[claimer := name],
          Move(l2, Wallet(claimer), HandleAccount(name), ANTI_SQUAT_DEPOSIT)))
  }

  /** Existing accounts are read, the new one is created, then the constraints are checked. */
  function Transfer(s: State, rents: Rents, owner: Key, newOwner: Key, name: seq<byte>): Result<State> {
    if name !in s.handles || owner !in s.reverse then Err(AccountMissing)
    else if newOwner in s.reverse then Err(AlreadyInUse)
    else
      var funded :- Fund(s.lamports, owner, ReverseAccount(newOwner), rents.reverse);
      var handle := s.handles[name];
      if handle.name != name then Err(ConstraintViolated)
      else if handle.owner != owner then Err(NotOwner)
      else Ok(State(
        s.handles[name := handle.(owner := newOwner)],
        s.reverse[newOwner := handle.name] - {owner},
        Drain(funded, ReverseAccount(owner), owner)))
  }

  function Release(s: State, owner: Key, name: seq<byte>): Result<State> {
    if name !in s.handles || owner !in s.reverse then Err(AccountMissing)
    else if s.handles[name].name != name then Err(ConstraintViolated)
    else if s.handles[name].owner != owner then Err(NotOwner)
    else Ok(State(
      s.handles - {name},
      s.reverse - {owner},
      Drain(Drain(s.lamports, HandleAccount(name), owner), ReverseAccount(owner), owner)))
  }

  /** A plain system transfer, to another wallet or as a gift to a registry account. */
  function Pay(s: State, from: Key, to: Account, amount: nat): Result<State> {
    if Get(s.lamports, Wallet(from)) < amount then Err(InsufficientFunds)
    else Ok(s.(lamports := Move(s.lamports, Wallet(from), to, amount)))
  }

  /** The program's accounts on the chain. A failed instruction leaves all of them as they were. */
  class HandleRegistry {
    const rents: Rents
    var handles: map<seq<byte>, Handle>
    var reverse: map<Key, seq<byte>>
    var lamports: map<Account, nat>

    ghost function Now(): State
      reads this
    {
      State(handles, reverse, lamports)
    }

    constructor (rents: Rents, wallets: map<Account, nat>)
      ensures Now() == State(map[], map[], wallets) && this.rents == rents
    {
      this.rents := rents;
      handles, reverse, lamports := map[], map[], wallets;
    }

    method ClaimHandle(claimer: Key, name: seq<byte>, now: i64) returns (r: Result<()>)
      modifies this
      ensures match Claim(old(Now()), rents, claimer, name, now)
              case Ok(s) => r == Ok(()) && Now() == s
              case Err(e) => r == Err(e) && Now() == old(Now())
    {
      if |name| > MAX_SEED_LEN {
        return Err(ConstraintViolated);
      }
      if name in handles {
        return Err(AlreadyInUse);
      }
      var before := lamports;
      var paid := InitAccount(claimer, HandleAccount(name), rents.handle);
      if paid.Err? {
        return paid;
      }
      if claimer in reverse {
        lamports := before;
        return Err(AlreadyInUse);
      }
      paid := InitAccount(claimer, ReverseAccount(claimer), rents.reverse);
      if paid.Err? {
        lamports := before;
        return paid;
      }
      var valid := ValidateHandle(name);
      if valid.Err? {
        lamports := before;
        return valid;
      }
      if Get(lamports, Wallet(claimer)) < ANTI_SQUAT_DEPOSIT {
        lamports := before;
        return Err(InsufficientFunds);
      }
      handles := handles[name := Handle(claimer, name, now)];
      reverse := reverse[claimer := name];
      lamports := Move(lamports, Wallet(claimer), HandleAccount(name), ANTI_SQUAT_DEPOSIT);
      return Ok(());
    }

    method InitAccount(payer: Key, account: Account, rent: nat) returns (r: Result<()>)
      modifies this`lamports
      ensures match Fund(old(lamports), payer, account, rent)
              case Ok(l) => r == Ok(()) && lamports == l
              case Err(e) => r == Err(e) && lamports == old(lamports)
    {
      var missing := SatSub(rent, Get(lamports, account));
      if Get(lamports, Wallet(payer)) < missing {
        return Err(InsufficientFunds);
      }
      lamports := Move(lamports, Wallet(payer), account, missing);
      return Ok(());
    }

    method TransferHandle(owner: Key, newOwner: Key, name: seq<byte>) returns (r: Result<()>)
      modifies this
      ensures match Transfer(old(Now()), rents, owner, newOwner, name)
              case Ok(s) => r == Ok(()) && Now() == s
              case Err(e) => r == Err(e) && Now() == old(Now())
    {
      if name !in handles || owner !in reverse {
        return Err(AccountMissing);
      }
      if newOwner in reverse {
        return Err(AlreadyInUse);
      }
      var before := lamports;
      var paid := InitAccount(owner, ReverseAccount(newOwner), rents.reverse);
      if paid.Err? {
        return paid;
      }
      var handle := handles[name];
      if handle.name != name {
        lamports := before;
        return Err(ConstraintViolated);
      }
      if handle.owner != owner {
        lamports := before;
        return Err(NotOwner);
      }
      handles := handles[name := handle.(owner := newOwner)];
      reverse := reverse[newOwner := handle.name];
      // close = current_owner
      reverse := reverse - {owner};
      lamports := Drain(lamports, ReverseAccount(owner), owner);
      return Ok(());
    }

    method ReleaseHandle(owner: Key, name: seq<byte>) returns (r: Result<()>)
      modifies this
      ensures match Release(old(Now()), owner, name)
              case Ok(s) => r == Ok(()) && Now() == s
              case Err(e) => r == Err(e) && Now() == old(Now())
    {
      if name !in handles || owner !in reverse {
        return Err(AccountMissing);
      }
      if handles[name].name != name {
        return Err(ConstraintViolated);
      }
      if handles[name].owner != owner {
        return Err(NotOwner);
      }
      // close = owner, on both accounts
      handles := handles - {name};
      lamports := Drain(lamports, HandleAccount(name), owner);
      reverse := reverse - {owner};
      lamports := Drain(lamports, ReverseAccount(owner), owner);
      return Ok(());
    }
  }

  // ---- Runs ---------------------------------------------------------------------

  datatype Step =
    | ClaimStep(claimer: Key, name: seq<byte>, now: i64)
    | TransferStep(owner: Key, newOwner: Key, name: seq<byte>)
    | ReleaseStep(owner: Key, name: seq<byte>)
    | PayStep(payer: Key, to: Account, amount: nat)

  function Apply(s: State, rents: Rents, step: Step): Result<State> {
    match step
    case ClaimStep(claimer, name, now) => Claim(s, rents, claimer, name, now)
    case TransferStep(owner, newOwner, name) => Transfer(s, rents, owner, newOwner, name)
    case ReleaseStep(owner, name) => Release(s, owner, name)
    case PayStep(payer, to, amount) => Pay(s, payer, to, amount)
  }

  function Next(s: State, rents: Rents, step: Step): State {
    match Apply(s, rents, step)
    case Ok(t) => t
    case Err(_) => s
  }

  function Run(s: State, rents: Rents, steps: seq<Step>): State
    decreases |steps|
  {
    if steps == [] then s else Run(Next(s, rents, steps[0]), rents, steps[1..])
  }

  // ---- Bijection ----------------------------------------------------------------

  /** name -> owner and wallet -> name are inverse to each other, on valid names only. */
  ghost predicate Mutual(s: State) {
    && (forall n :: n in s.handles ==>
          && s.handles[n].name == n
          && IsHandle(n)
          && s.handles[n].owner in s.reverse
          && s.reverse[s.handles[n].owner] == n)
    && (forall w :: w in s.reverse ==> s.reverse[w] in s.handles && s.handles[s.reverse[w]].owner == w)
  }

  lemma ClaimKeepsMutual(s: State, rents: Rents, claimer: Key, name: seq<byte>, now: i64)
    requires Mutual(s) && Claim(s, rents, claimer, name, now).Ok?
    ensures Mutual(Claim(s, rents, claimer, name, now).value)
  {
    hide IsHandle;
    hide Fund;
    hide Move;
  }

  lemma TransferKeepsMutual(s: State, rents: Rents, owner: Key, newOwner: Key, name: seq<byte>)
    requires Mutual(s) && Transfer(s, rents, owner, newOwner, name).Ok?
    ensures Mutual(Transfer(s, rents, owner, newOwner, name).value)
  {
    hide IsHandle;
    hide Fund;
    hide Drain;
  }

  lemma ReleaseKeepsMutual(s: State, owner: Key, name: seq<byte>)
    requires Mutual(s) && Release(s, owner, name).Ok?
    ensures Mutual(Release(s, owner, name).value)
  {
    hide IsHandle;
    hide Drain;
  }

  lemma StepKeepsMutual(s: State, rents: Rents, step: Step)
    requires Mutual(s)
    ensures Mutual(Next(s, rents, step))
  {
    hide IsHandle;
    hide Claim;
    hide Transfer;
    hide Release;
    hide Move;
    if Apply(s, rents, step).Ok? {
      match step
      case ClaimStep(claimer, name, now) => ClaimKeepsMutual(s, rents, claimer, name, now);
      case TransferStep(owner, newOwner, name) => TransferKeepsMutual(s, rents, owner, newOwner, name);
      case ReleaseStep(owner, name) => ReleaseKeepsMutual(s, owner, name);
      case PayStep(_, _, _) =>
    }
  }

  lemma {:induction false} RunKeepsMutual(s: State, rents: Rents, steps: seq<Step>)
    requires Mutual(s)
    ensures Mutual(Run(s, rents, steps))
    decreases |steps|
  {
    if steps != [] {
      StepKeepsMutual(s, rents, steps[0]);
      RunKeepsMutual(Next(s, rents, steps[0]), rents, steps[1..]);
    }
  }

  /** The registry starts empty, so in every reachable state: a wallet looks up the handle
      it owns and no other, a handle its owner; no two handles share a wallet. */
  lemma Bijection(rents: Rents, lamports: map<Account, nat>, steps: seq<Step>)
    ensures var s := Run(State(map[], map[], lamports), rents, steps);
            && (forall n, w :: (n in s.handles && s.handles[n].owner == w) <==> (w in s.reverse && s.reverse[w] == n))
            && (forall n :: n in s.handles ==> IsHandle(n) && s.handles[n].name == n)
            && |s.handles| == |s.reverse|
  {
    var s := Run(State(map[], map[], lamports), rents, steps);
    RunKeepsMutual(State(map[], map[], lamports), rents, steps);
    SameSize(s);
  }

  lemma {:induction false} SameSize(s: State)
    requires Mutual(s)
    ensures |s.handles| == |s.reverse|
    decreases |s.handles|
  {
    hide IsHandle;
    if s.handles == map[] {
      assert s.reverse == map[];
    } else {
      var n :| n in s.handles;
      var w := s.handles[n].owner;
      var t := State(s.handles - {n}, s.reverse - {w}, s.lamports);
      SameSize(t);
      assert s.handles.Keys == t.handles.Keys + {n} && s.reverse.Keys == t.reverse.Keys + {w};
      assert |t.handles| == |t.handles.Keys| && |s.handles| == |s.handles.Keys|;
      assert |t.reverse| == |t.reverse.Keys| && |s.reverse| == |s.reverse.Keys|;
    }
  }

  /** A wallet cannot transfer to itself: its reverse account must exist and must not. */
  lemma SelfTransferRefused(s: State, rents: Rents, w: Key, name: seq<byte>)
    ensures Transfer(s, rents, w, w, name) == Err(if name in s.handles && w in s.reverse then AlreadyInUse else AccountMissing)
  {
  }

  /** Exactly the owner can release; it always can, and the reverse account that is closed
      is the one naming the released handle, though the program never compares the two. */
  lemma ReleaseMatches(s: State, owner: Key, name: seq<byte>)
    requires Mutual(s)
    ensures Release(s, owner, name).Ok? <==> name in s.handles && s.handles[name].owner == owner
    ensures var r := Release(s, owner, name);
            r.Ok? ==>
              && owner in s.reverse && s.reverse[owner] == name
              && r.value.handles.Keys == s.handles.Keys - {name}
              && r.value.reverse.Keys == s.reverse.Keys - {owner}
              && (forall w :: w in r.value.reverse ==> r.value.reverse[w] != name)
  {
  }

  /** When a transfer goes through, and that it moves this one handle and nothing else. */
  lemma TransferMoves(s: State, rents: Rents, owner: Key, newOwner: Key, name: seq<byte>)
    requires Mutual(s)
    ensures Transfer(s, rents, owner, newOwner, name).Ok? <==>
              && name in s.handles && s.handles[name].owner == owner
              && newOwner !in s.reverse
              && rents.reverse <= Get(s.lamports, ReverseAccount(newOwner)) + Get(s.lamports, Wallet(owner))
    ensures var r := Transfer(s, rents, owner, newOwner, name);
            r.Ok? ==>
              && r.value.reverse == (map w | w in s.reverse && w != owner :: s.reverse[w])[newOwner := name]
              && r.value.handles == s.handles[name := Handle(newOwner, name, s.handles[name].claimedAt)]
  {
    hide IsHandle;
    hide Move;
  }

  /** Why a transfer or a release is refused. */
  lemma TransferRefused(s: State, rents: Rents, owner: Key, newOwner: Key, name: seq<byte>)
    requires Mutual(s) && Transfer(s, rents, owner, newOwner, name).Err?
    ensures Transfer(s, rents, owner, newOwner, name).error
         == if name !in s.handles || owner !in s.reverse then AccountMissing
            else if newOwner in s.reverse then AlreadyInUse
            else if Get(s.lamports, ReverseAccount(newOwner)) + Get(s.lamports, Wallet(owner)) < rents.reverse then InsufficientFunds
            else NotOwner
    ensures Transfer(s, rents, owner, newOwner, name).error == NotOwner ==> s.handles[name].owner != owner
  {
    hide IsHandle;
    hide Move;
  }

  lemma ReleaseRefused(s: State, owner: Key, name: seq<byte>)
    requires Mutual(s) && Release(s, owner, name).Err?
    ensures Release(s, owner, name).error
         == if name !in s.handles || owner !in s.reverse then AccountMissing else NotOwner
    ensures Release(s, owner, name).error == NotOwner ==> s.handles[name].owner != owner
  {
    hide IsHandle;
  }

  /** Why a claim is refused: a name that is no seed, a name or a wallet already taken, an
      invalid name, or too few lamports; a taken name before an invalid one. */
  lemma ClaimRefused(s: State, rents: Rents, claimer: Key, name: seq<byte>, now: i64)
    requires Claim(s, rents, claimer, name, now).Err?
    ensures var e := Claim(s, rents, claimer, name, now).error;
            var wealth := Get(s.lamports, Wallet(claimer));
            var first := SatSub(rents.handle, Get(s.lamports, HandleAccount(name)));
            var second := SatSub(rents.reverse, Get(s.lamports, ReverseAccount(claimer)));
            && (e == ConstraintViolated <==> |name| > 32)
            && (|name| <= 32 && name in s.handles ==> e == AlreadyInUse)
            && (e == AlreadyInUse ==> name in s.handles || claimer in s.reverse)
            && (|name| <= 32 && name !in s.handles && wealth >= first && claimer in s.reverse ==> e == AlreadyInUse)
            && (|name| <= 32 && name !in s.handles && claimer !in s.reverse ==>
                 e == if wealth < first + second then InsufficientFunds
                      else if !IsHandle(name) then Validation(name).error
                      else InsufficientFunds)
  {
    hide Move;
    hide Get;
    hide IsHandle;
    hide Rejection;
    var l, forward, back := s.lamports, HandleAccount(name), ReverseAccount(claimer);
    var first := SatSub(rents.handle, Get(l, forward));
    if first <= Get(l, Wallet(claimer)) {
      MoveAt(l, Wallet(claimer), forward, first, Wallet(claimer));
      MoveAt(l, Wallet(claimer), forward, first, back);
    }
    NoSuchRejection(name);
  }

  lemma NoSuchRejection(name: seq<byte>)
    ensures Validation(name).Err? ==>
              Validation(name).error in {TooShort, TooLong, StartsWithDigit, InvalidCharacters, Reserved}
  {
  }

  // ---- Lamports -----------------------------------------------------------------

  lemma StepConserves(s: State, rents: Rents, step: Step)
    ensures SumMap(Next(s, rents, step).lamports) == SumMap(s.lamports)
  {
    hide Validation;
    hide Move;
    hide Get;
    if Apply(s, rents, step).Ok? {
      var l := s.lamports;
      match step
      case ClaimStep(claimer, name, _) =>
        FundConserves(l, claimer, HandleAccount(name), rents.handle);
        var l1 := Fund(l, claimer, HandleAccount(name), rents.handle).value;
        FundConserves(l1, claimer, ReverseAccount(claimer), rents.reverse);
        var l2 := Fund(l1, claimer, ReverseAccount(claimer), rents.reverse).value;
        MoveKeepsSum(l2, Wallet(claimer), HandleAccount(name), ANTI_SQUAT_DEPOSIT);
      case TransferStep(owner, newOwner, name) =>
        FundConserves(l, owner, ReverseAccount(newOwner), rents.reverse);
        var l1 := Fund(l, owner, ReverseAccount(newOwner), rents.reverse).value;
        MoveKeepsSum(l1, ReverseAccount(owner), Wallet(owner), Get(l1, ReverseAccount(owner)));
      case ReleaseStep(owner, name) =>
        MoveKeepsSum(l, HandleAccount(name), Wallet(owner), Get(l, HandleAccount(name)));
        var l1 := Drain(l, HandleAccount(name), owner);
        MoveKeepsSum(l1, ReverseAccount(owner), Wallet(owner), Get(l1, ReverseAccount(owner)));
      case PayStep(payer, to, amount) =>
        MoveKeepsSum(l, Wallet(payer), to, amount);
    }
  }

  lemma FundConserves(l: map<Account, nat>, payer: Key, account: Account, rent: nat)
    ensures Fund(l, payer, account, rent).Ok? ==> SumMap(Fund(l, payer, account, rent).value) == SumMap(l)
  {
    hide Move;
    var missing := SatSub(rent, Get(l, account));
    if missing <= Get(l, Wallet(payer)) {
      MoveKeepsSum(l, Wallet(payer), account, missing);
    }
  }

  /** No instruction creates or destroys lamports; hence no balance ever leaves u64 either. */
  lemma {:induction false} RunConserves(s: State, rents: Rents, steps: seq<Step>)
    ensures SumMap(Run(s, rents, steps).lamports) == SumMap(s.lamports)
    ensures forall a :: Get(Run(s, rents, steps).lamports, a) <= SumMap(s.lamports)
    decreases |steps|
  {
    if steps != [] {
      StepConserves(s, rents, steps[0]);
      RunConserves(Next(s, rents, steps[0]), rents, steps[1..]);
    } else {
      forall a {
        SumMapBound(s.lamports, a);
      }
    }
  }

  /** A claim moves both shortfalls and the deposit out of the claimer's wallet. */
  lemma ClaimEffect(s: State, rents: Rents, claimer: Key, name: seq<byte>, now: i64, a: Account)
    requires Claim(s, rents, claimer, name, now).Ok?
    ensures var forward := SatSub(rents.handle, Get(s.lamports, HandleAccount(name))) + 10_000_000;
            var back := SatSub(rents.reverse, Get(s.lamports, ReverseAccount(claimer)));
            Get(Claim(s, rents, claimer, name, now).value.lamports, a)
              == Get(s.lamports, a) - (if a == Wallet(claimer) then forward + back else 0)
                                    + (if a == HandleAccount(name) then forward else 0)
                                    + (if a == ReverseAccount(claimer) then back else 0)
  {
  }

  /** A transfer tops up the new reverse account and empties the old one into the payer's wallet. */
  lemma TransferEffect(s: State, rents: Rents, owner: Key, newOwner: Key, name: seq<byte>, a: Account)
    requires Transfer(s, rents, owner, newOwner, name).Ok?
    ensures var missing := SatSub(rents.reverse, Get(s.lamports, ReverseAccount(newOwner)));
            var refund := Get(s.lamports, ReverseAccount(owner));
            Get(Transfer(s, rents, owner, newOwner, name).value.lamports, a)
              == Get(s.lamports, a) + (if a == Wallet(owner) then refund - missing else 0)
                                    + (if a == ReverseAccount(newOwner) then missing else 0)
                                    - (if a == ReverseAccount(owner) then refund else 0)
  {
  }

  /** A payment needs the balance, and changes nobody's but the two parties'; no handle moves. */
  lemma PaymentEffect(s: State, rents: Rents, payer: Key, to: Account, amount: nat, a: Account)
    ensures match Apply(s, rents, PayStep(payer, to, amount))
            case Err(e) => e == InsufficientFunds && amount > Get(s.lamports, Wallet(payer))
            case Ok(t) =>
              && amount <= Get(s.lamports, Wallet(payer))
              && t.(lamports := s.lamports) == s
              && Get(t.lamports, a) == Get(s.lamports, a) - (if a == Wallet(payer) then amount else 0) + (if a == to then amount else 0)
  {
  }

  /** A release empties both accounts into the owner's wallet. */
  lemma ReleaseEffect(s: State, owner: Key, name: seq<byte>, a: Account)
    requires Release(s, owner, name).Ok?
    ensures var forward, back := Get(s.lamports, HandleAccount(name)), Get(s.lamports, ReverseAccount(owner));
            Get(Release(s, owner, name).value.lamports, a)
              == if a == Wallet(owner) then Get(s.lamports, a) + forward + back
                 else if a == HandleAccount(name) || a == ReverseAccount(owner) then 0
                 else Get(s.lamports, a)
  {
  }

  /** What the program has to have put into an account. */
  function Due(s: State, rents: Rents, a: Account): nat {
    match a
    case Wallet(_) => 0
    case HandleAccount(n) => if n in s.handles then rents.handle + 10_000_000 else 0
    case ReverseAccount(w) => if w in s.reverse then rents.reverse else 0
  }

  /** Every live account holds its rent, every live handle also the deposit. */
  ghost predicate Backed(s: State, rents: Rents) {
    forall a :: Due(s, rents, a) <= Get(s.lamports, a)
  }

  /** The effect of any step on one account, for a registry account above its due or at it. */
  lemma AccountBacked(s: State, rents: Rents, step: Step, a: Account)
    requires Mutual(s) && Backed(s, rents) && Apply(s, rents, step).Ok?
    ensures Due(Next(s, rents, step), rents, a) <= Get(Next(s, rents, step).lamports, a)
  {
    hide Move;
    hide Get;
    hide Validation;
    hide IsHandle;
    assert Due(s, rents, a) <= Get(s.lamports, a);
    match step
    case ClaimStep(claimer, name, now) => ClaimEffect(s, rents, claimer, name, now, a);
    case TransferStep(owner, newOwner, name) => TransferEffect(s, rents, owner, newOwner, name, a);
    case ReleaseStep(owner, name) => ReleaseEffect(s, owner, name, a);
    case PayStep(payer, to, amount) => MoveAt(s.lamports, Wallet(payer), to, amount, a);
  }

  lemma StepKeepsBacked(s: State, rents: Rents, step: Step)
    requires Mutual(s) && Backed(s, rents)
    ensures Backed(Next(s, rents, step), rents)
  {
    hide Apply;
    hide Get;
    hide Due;
    hide Mutual;
    if Apply(s, rents, step).Ok? {
      forall a ensures Due(Next(s, rents, step), rents, a) <= Get(Next(s, rents, step).lamports, a) {
        AccountBacked(s, rents, step, a);
      }
    }
  }

  lemma {:induction false} RunKeepsBacked(s: State, rents: Rents, steps: seq<Step>)
    requires Mutual(s) && Backed(s, rents)
    ensures Backed(Run(s, rents, steps), rents)
    decreases |steps|
  {
    if steps != [] {
      StepKeepsMutual(s, rents, steps[0]);
      StepKeepsBacked(s, rents, steps[0]);
      RunKeepsBacked(Next(s, rents, steps[0]), rents, steps[1..]);
    }
  }

  /** A release pays out both balances in full, gifts included, and at least deposit and rents. */
  lemma ReleasePays(s: State, rents: Rents, owner: Key, name: seq<byte>)
    requires Mutual(s) && Backed(s, rents)
    requires Release(s, owner, name).Ok?
    ensures var l, m := s.lamports, Release(s, owner, name).value.lamports;
            && Get(m, Wallet(owner)) == Get(l, Wallet(owner)) + Get(l, HandleAccount(name)) + Get(l, ReverseAccount(owner))
            && Get(m, Wallet(owner)) >= Get(l, Wallet(owner)) + LockedPerHandle(rents)
            && Get(m, HandleAccount(name)) == 0 && Get(m, ReverseAccount(owner)) == 0
  {
  }

  /** When a claim goes through: a valid free name, a wallet without a handle, enough lamports. */
  lemma ClaimSucceeds(s: State, rents: Rents, claimer: Key, name: seq<byte>, now: i64)
    ensures Claim(s, rents, claimer, name, now).Ok? <==>
              && IsHandle(name)
              && name !in s.handles
              && claimer !in s.reverse
              && Get(s.lamports, Wallet(claimer)) >=
                   SatSub(rents.handle, Get(s.lamports, HandleAccount(name)))
                   + SatSub(rents.reverse, Get(s.lamports, ReverseAccount(claimer))) + 10_000_000
  {
    hide Move;
    hide Get;
    var l, forward, back := s.lamports, HandleAccount(name), ReverseAccount(claimer);
    var first := SatSub(rents.handle, Get(l, forward));
    if first <= Get(l, Wallet(claimer)) {
      MoveAt(l, Wallet(claimer), forward, first, Wallet(claimer));
      MoveAt(l, Wallet(claimer), forward, first, back);
      var l1 := Move(l, Wallet(claimer), forward, first);
      var second := SatSub(rents.reverse, Get(l1, back));
      if second <= Get(l1, Wallet(claimer)) {
        MoveAt(l1, Wallet(claimer), back, second, Wallet(claimer));
      }
    }
  }

  // ---- Who pays, who is repaid --------------------------------------------------

  /** What one claim locks up: both rents and the deposit. */
  function LockedPerHandle(rents: Rents): nat {
    rents.handle + 10_000_000 + rents.reverse
  }

  /** Registry accounts hold exactly what the program put there. */
  ghost predicate Untouched(s: State, rents: Rents) {
    forall a: Account :: !a.Wallet? ==> Get(s.lamports, a) == Due(s, rents, a)
  }

  /** No lamports are given to a registry account outside the program. */
  ghost predicate NoGifts(steps: seq<Step>) {
    forall i :: 0 <= i < |steps| ==> !IsGift(steps[i])
  }

  /** What a step costs a wallet at most: claims lock, releases free, transfers cost nobody
      anything. */
  function Cost(s: State, rents: Rents, step: Step, w: Key): int {
    if Apply(s, rents, step).Err? then 0
    else
      match step
      case ClaimStep(claimer, _, _) => if claimer == w then LockedPerHandle(rents) else 0
      case TransferStep(_, _, _) => 0
      case ReleaseStep(owner, _) => if owner == w then 0 - LockedPerHandle(rents) else 0
      case PayStep(payer, to, amount) => (if payer == w then amount else 0) - (if to == Wallet(w) then amount else 0)
  }

  function Costs(s: State, rents: Rents, steps: seq<Step>, w: Key): int
    decreases |steps|
  {
    if steps == [] then 0
    else Cost(s, rents, steps[0], w) + Costs(Next(s, rents, steps[0]), rents, steps[1..], w)
  }

  predicate IsGift(step: Step) {
    step.PayStep? && !step.to.Wallet?
  }

  lemma UntouchedIsBacked(s: State, rents: Rents)
    requires Untouched(s, rents)
    ensures Backed(s, rents)
  {
    forall a: Account ensures Due(s, rents, a) <= Get(s.lamports, a) {
      if !a.Wallet? {
        assert Get(s.lamports, a) == Due(s, rents, a);
      }
    }
  }

  /** The effect of any step on one account: a wallet never pays more than the step's cost,
      and where no gifts are about, every account changes by exactly what it should. */
  lemma AccountCosts(s: State, rents: Rents, step: Step, a: Account)
    requires Mutual(s) && Backed(s, rents) && Apply(s, rents, step).Ok?
    ensures a.Wallet? ==> Get(Next(s, rents, step).lamports, a) >= Get(s.lamports, a) - Cost(s, rents, step, a.key)
    ensures Untouched(s, rents) && !IsGift(step) ==>
              Get(Next(s, rents, step).lamports, a)
              == if a.Wallet? then Get(s.lamports, a) - Cost(s, rents, step, a.key) else Due(Next(s, rents, step), rents, a)
  {
    hide Move;
    hide Get;
    hide Validation;
    hide IsHandle;
    hide Claim;
    hide Transfer;
    hide Release;
    StepKeepsMutual(s, rents, step);
    BackedAt(s, rents, a);
    match step
    case ClaimStep(claimer, name, now) =>
      BackedAt(s, rents, HandleAccount(name));
      BackedAt(s, rents, ReverseAccount(claimer));
      ClaimEffect(s, rents, claimer, name, now, a);
      ClaimSucceeds(s, rents, claimer, name, now);
      ClaimMaps(s, rents, claimer, name, now);
    case TransferStep(owner, newOwner, name) =>
      BackedAt(s, rents, ReverseAccount(newOwner));
      BackedAt(s, rents, ReverseAccount(owner));
      TransferEffect(s, rents, owner, newOwner, name, a);
      TransferMoves(s, rents, owner, newOwner, name);
    case ReleaseStep(owner, name) =>
      BackedAt(s, rents, HandleAccount(name));
      BackedAt(s, rents, ReverseAccount(owner));
      ReleaseEffect(s, owner, name, a);
      ReleaseMatches(s, owner, name);
    case PayStep(payer, to, amount) =>
      MoveAt(s.lamports, Wallet(payer), to, amount, a);
  }

  lemma BackedAt(s: State, rents: Rents, a: Account)
    requires Backed(s, rents)
    ensures Due(s, rents, a) <= Get(s.lamports, a)
    ensures Untouched(s, rents) && !a.Wallet? ==> Get(s.lamports, a) == Due(s, rents, a)
  {
  }

  lemma ClaimMaps(s: State, rents: Rents, claimer: Key, name: seq<byte>, now: i64)
    requires Claim(s, rents, claimer, name, now).Ok?
    ensures var t := Claim(s, rents, claimer, name, now).value;
            t.handles == s.handles[name := Handle(claimer, name, now)] && t.reverse == s.reverse[claimer := name]
  {
  }

  lemma StepCosts(s: State, rents: Rents, step: Step)
    requires Mutual(s) && Backed(s, rents)
    ensures forall w :: Get(Next(s, rents, step).lamports, Wallet(w)) >= Get(s.lamports, Wallet(w)) - Cost(s, rents, step, w)
    ensures Untouched(s, rents) && !IsGift(step) ==>
              && Untouched(Next(s, rents, step), rents)
              && forall w :: Get(Next(s, rents, step).lamports, Wallet(w)) == Get(s.lamports, Wallet(w)) - Cost(s, rents, step, w)
  {
    hide Apply;
    hide Get;
    hide Due;
    hide Mutual;
    hide Backed;
    if Apply(s, rents, step).Ok? {
      forall a: Account
        ensures a.Wallet? ==> Get(Next(s, rents, step).lamports, a) >= Get(s.lamports, a) - Cost(s, rents, step, a.key)
        ensures Untouched(s, rents) && !IsGift(step) ==>
                  Get(Next(s, rents, step).lamports, a)
                  == if a.Wallet? then Get(s.lamports, a) - Cost(s, rents, step, a.key) else Due(Next(s, rents, step), rents, a)
      {
        AccountCosts(s, rents, step, a);
      }
    }
  }

  /** Over any interleaving of claims, transfers, releases and payments, a wallet is down by
      at most one lock-up per claim it made and up by at least one per release, however
      handles moved between wallets; exactly so when nobody gave lamports to a registry
      account, for then transfers net to zero for payer and receiver alike. */
  lemma {:induction false} WalletAccounting(s: State, rents: Rents, steps: seq<Step>, w: Key)
    requires Mutual(s) && Backed(s, rents)
    ensures Get(Run(s, rents, steps).lamports, Wallet(w)) >= Get(s.lamports, Wallet(w)) - Costs(s, rents, steps, w)
    ensures Untouched(s, rents) && NoGifts(steps) ==>
              && Untouched(Run(s, rents, steps), rents)
              && Get(Run(s, rents, steps).lamports, Wallet(w)) == Get(s.lamports, Wallet(w)) - Costs(s, rents, steps, w)
    decreases |steps|
  {
    hide Mutual;
    hide Backed;
    hide Untouched;
    hide Next;
    hide Get;
    hide Cost;
    if steps != [] {
      assert NoGifts(steps) ==> !IsGift(steps[0]) && NoGifts(steps[1..]) by {
        if NoGifts(steps) {
          forall i | 0 <= i < |steps[1..]| ensures !IsGift(steps[1..][i]) {
            assert steps[1..][i] == steps[i + 1];
          }
        }
      }
      StepKeepsMutual(s, rents, steps[0]);
      StepKeepsBacked(s, rents, steps[0]);
      StepCosts(s, rents, steps[0]);
      WalletAccounting(Next(s, rents, steps[0]), rents, steps[1..], w);
    }
  }

  /** From an empty registry, without gifts, every wallet's balance is exactly what it started
      with less the lock-ups of its claims, plus those of its releases and what it was paid. */
  lemma AccountingFromStart(lamports: map<Account, nat>, rents: Rents, steps: seq<Step>, w: Key)
    requires NoGifts(steps) && forall a: Account :: !a.Wallet? ==> Get(lamports, a) == 0
    ensures var s := State(map[], map[], lamports);
            Get(Run(s, rents, steps).lamports, Wallet(w)) == Get(lamports, Wallet(w)) - Costs(s, rents, steps, w)
  {
    var s := State(map[], map[], lamports);
    UntouchedIsBacked(s, rents);
    WalletAccounting(s, rents, steps, w);
  }

  /** A claim costs its claimer the lock-up at most and nobody else anything. */
  lemma ClaimLocks(s: State, rents: Rents, claimer: Key, name: seq<byte>, now: i64)
    requires Mutual(s) && Backed(s, rents) && Claim(s, rents, claimer, name, now).Ok?
    ensures var t := Claim(s, rents, claimer, name, now).value;
            && Mutual(t) && Backed(t, rents)
            && name !in s.handles && t.handles == s.handles[name := Handle(claimer, name, now)]
            && (forall w :: Get(t.lamports, Wallet(w)) >= Get(s.lamports, Wallet(w)) - (if w == claimer then LockedPerHandle(rents) else 0))
            && (Untouched(s, rents) ==>
                 && Untouched(t, rents)
                 && forall w :: Get(t.lamports, Wallet(w)) == Get(s.lamports, Wallet(w)) - (if w == claimer then LockedPerHandle(rents) else 0))
  {
    hide Mutual;
    hide Backed;
    hide Untouched;
    hide Get;
    hide LockedPerHandle;
    var step := ClaimStep(claimer, name, now);
    StepKeepsMutual(s, rents, step);
    StepKeepsBacked(s, rents, step);
    StepCosts(s, rents, step);
  }

  /** A transfer costs nobody anything: the payer's outlay is at most the old account's
      refund, and is the refund where no gifts are about. */
  lemma TransferNetsZero(s: State, rents: Rents, owner: Key, newOwner: Key, name: seq<byte>)
    requires Mutual(s) && Backed(s, rents) && Transfer(s, rents, owner, newOwner, name).Ok?
    ensures var t := Transfer(s, rents, owner, newOwner, name).value;
            && Mutual(t) && Backed(t, rents)
            && name in s.handles && t.handles == s.handles[name := s.handles[name].(owner := newOwner)]
            && (forall w :: Get(t.lamports, Wallet(w)) >= Get(s.lamports, Wallet(w)))
            && (Untouched(s, rents) ==>
                 Untouched(t, rents) && forall w :: Get(t.lamports, Wallet(w)) == Get(s.lamports, Wallet(w)))
  {
    hide Mutual;
    hide Backed;
    hide Untouched;
    hide Get;
    hide LockedPerHandle;
    var step := TransferStep(owner, newOwner, name);
    StepKeepsMutual(s, rents, step);
    StepKeepsBacked(s, rents, step);
    StepCosts(s, rents, step);
  }

  lemma ReleaseRepays(s: State, rents: Rents, owner: Key, name: seq<byte>)
    requires Mutual(s) && Backed(s, rents) && name in s.handles && s.handles[name].owner == owner
    ensures Release(s, owner, name).Ok?
    ensures var t := Release(s, owner, name).value;
            && Mutual(t) && Backed(t, rents)
            && t.handles == s.handles - {name}
            && (forall w :: Get(t.lamports, Wallet(w)) >= Get(s.lamports, Wallet(w)) + (if w == owner then LockedPerHandle(rents) else 0))
            && (Untouched(s, rents) ==>
                 && Untouched(t, rents)
                 && forall w :: Get(t.lamports, Wallet(w)) == Get(s.lamports, Wallet(w)) + (if w == owner then LockedPerHandle(rents) else 0))
  {
    hide Mutual;
    hide Backed;
    hide Untouched;
    hide Get;
    hide LockedPerHandle;
    ReleaseMatches(s, owner, name);
    var step := ReleaseStep(owner, name);
    StepKeepsMutual(s, rents, step);
    StepKeepsBacked(s, rents, step);
    StepCosts(s, rents, step);
  }

  /** A handle passed from hand to hand: owners[0] -> owners[1] -> ... */
  function HandDown(s: State, rents: Rents, owners: seq<Key>, name: seq<byte>): Result<State>
    requires owners != []
    decreases |owners|
  {
    if |owners| == 1 then Ok(s)
    else
      var t :- Transfer(s, rents, owners[0], owners[1], name);
      HandDown(t, rents, owners[1..], name)
  }

  lemma {:induction false} HandDownMoves(s: State, rents: Rents, owners: seq<Key>, name: seq<byte>)
    requires owners != [] && Mutual(s) && Backed(s, rents)
    requires name in s.handles && s.handles[name].owner == owners[0]
    requires HandDown(s, rents, owners, name).Ok?
    ensures var t := HandDown(s, rents, owners, name).value;
            && Mutual(t) && Backed(t, rents)
            && t.handles == s.handles[name := s.handles[name].(owner := owners[|owners| - 1])]
            && (forall w :: Get(t.lamports, Wallet(w)) >= Get(s.lamports, Wallet(w)))
            && (Untouched(s, rents) ==>
                 Untouched(t, rents) && forall w :: Get(t.lamports, Wallet(w)) == Get(s.lamports, Wallet(w)))
    decreases |owners|
  {
    hide Mutual;
    hide Backed;
    hide Untouched;
    hide Get;
    hide Transfer;
    if |owners| > 1 {
      TransferNetsZero(s, rents, owners[0], owners[1], name);
      HandDownMoves(Transfer(s, rents, owners[0], owners[1], name).value, rents, owners[1..], name);
    }
  }

  /** What the lifecycle of a handle moves between wallets: the first owner's lock-up goes
      to the last owner. */
  function LifecycleGain(rents: Rents, first: Key, last: Key, w: Key): int {
    (if w == last then LockedPerHandle(rents) else 0) - (if w == first then LockedPerHandle(rents) else 0)
  }

  /** Claim, any number of transfers, release: the registry is as it was before, the first
      owner has paid the lock-up at most, the last one has received it at least, nobody else
      is out of pocket; where no gifts are about, every balance is exactly accounted for. */
  lemma Lifecycle(s: State, rents: Rents, owners: seq<Key>, name: seq<byte>, now: i64)
    requires owners != [] && Mutual(s) && Backed(s, rents)
    requires Claim(s, rents, owners[0], name, now).Ok?
    requires HandDown(Claim(s, rents, owners[0], name, now).value, rents, owners, name).Ok?
    ensures var last := owners[|owners| - 1];
            var r := Release(HandDown(Claim(s, rents, owners[0], name, now).value, rents, owners, name).value, last, name);
            && r.Ok?
            && r.value.handles == s.handles && r.value.reverse == s.reverse
            && (forall w :: Get(r.value.lamports, Wallet(w)) >= Get(s.lamports, Wallet(w)) + LifecycleGain(rents, owners[0], last, w))
            && (Untouched(s, rents) ==>
                 forall a: Account :: Get(r.value.lamports, a)
                   == Get(s.lamports, a) + (if a.Wallet? then LifecycleGain(rents, owners[0], last, a.key) else 0))
  {
    hide Mutual;
    hide Backed;
    hide Get;
    hide Claim;
    hide HandDown;
    hide Release;
    hide LockedPerHandle;
    var last := owners[|owners| - 1];
    ClaimLocks(s, rents, owners[0], name, now);
    var t := Claim(s, rents, owners[0], name, now).value;
    HandDownMoves(t, rents, owners, name);
    var u := HandDown(t, rents, owners, name).value;
    ReleaseRepays(u, rents, last, name);
    var v := Release(u, last, name).value;
    assert v.handles == s.handles;
    SameReverse(v, s);
    if Untouched(s, rents) {
      forall a: Account
        ensures Get(v.lamports, a) == Get(s.lamports, a) + (if a.Wallet? then LifecycleGain(rents, owners[0], last, a.key) else 0)
      {
        if a.Wallet? {
          assert a == Wallet(a.key);
        } else {
          assert Due(v, rents, a) == Due(s, rents, a);
        }
      }
    }
  }

  /** The forward map determines the reverse map. */
  lemma SameReverse(s: State, t: State)
    requires Mutual(s) && Mutual(t) && s.handles == t.handles
    ensures s.reverse == t.reverse
  {
  }
}
