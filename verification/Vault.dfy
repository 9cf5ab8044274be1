/**
 * The vault: wrapping locks underlying tokens and mints Stede one for one, unwrapping
 * burns and releases. Solvency is proved over runs that also contain hooked transfers,
 * direct burns, and deposits made straight into the vault's token account.
 */
module Vault {
  import opened Base

  datatype State = State(
    admin: Key,
    locked: nat,
    paused: bool,
    stede: map<Key, nat>,       // Stede balance of each wallet
    supply: nat,                // of the Stede mint
    underlying: map<Key, nat>,  // underlying balance of each wallet
    held: nat)                  // balance of the vault's token account

  function Initial(admin: Key, underlying: map<Key, nat>): State {
    State(admin, 0, false, map[], 0, underlying, 0)
  }

  /** Lock, mint, account, with the failure points of the token programs in between. */
  function Wrap(s: State, user: Key, amount: u64): Result<State> {
    if s.paused then Err(Paused)
    else if amount == 0 then Err(ZeroAmount)
    else if Get(s.underlying, user) < amount then Err(InsufficientFunds)
    else if s.held + amount >= U64_RANGE then Err(TokenOverflow)
    else if Get(s.stede, user) + amount >= U64_RANGE || s.supply + amount >= U64_RANGE then Err(TokenOverflow)
    else if s.locked + amount >= U64_RANGE then Err(Overflow)
    else Ok(s.(
      underlying := s.underlying[user := Get(s.underlying, user) - amount],
      held := s.held + amount,
      stede := s.stede[user := Get(s.stede, user) + amount],
      supply := s.supply + amount,
      locked := s.locked + amount))
  }

  function Unwrap(s: State, user: Key, amount: u64): Result<State> {
    if s.paused then Err(Paused)
    else if amount == 0 then Err(ZeroAmount)
    else if s.locked < amount then Err(InsufficientLocked)
    else if Get(s.stede, user) < amount || s.supply < amount then Err(InsufficientFunds)
    else if s.held < amount then Err(InsufficientFunds)
    else if Get(s.underlying, user) + amount >= U64_RANGE then Err(TokenOverflow)
    else Ok(s.(
      stede := s.stede[user := Get(s.stede, user) - amount],
      supply := s.supply - amount,
      held := s.held - amount,
      underlying := s.underlying[user := Get(s.underlying, user) + amount],
      locked := s.locked - amount))
  }

  function SetPaused(s: State, caller: Key, paused: bool): Result<State> {
    if caller != s.admin then Err(Unauthorized) else Ok(s.(paused := paused))
  }

  /** Stede moves between wallets if the hook lets it; the vault is not involved. */
  function Send(s: State, from: Key, to: Key, amount: u64, hook: Result<()>): Result<State> {
    if Get(s.stede, from) < amount then Err(InsufficientFunds)
    else
      var _ :- hook;
      Ok(s.(stede := Move(s.stede, from, to, amount)))
  }

  /** A holder burns Stede at the token program, bypassing the vault. */
  function Burn(s: State, user: Key, amount: u64): Result<State> {
    if Get(s.stede, user) < amount || s.supply < amount then Err(InsufficientFunds)
    else Ok(s.(stede := s.stede[user := Get(s.stede, user) - amount], supply := s.supply - amount))
  }

  /** Someone pays underlying tokens into the vault's token account directly. */
  function Deposit(s: State, user: Key, amount: u64): Result<State> {
    if Get(s.underlying, user) < amount then Err(InsufficientFunds)
    else if s.held + amount >= U64_RANGE then Err(TokenOverflow)
    else Ok(s.(underlying := s.underlying[user := Get(s.underlying, user) - amount], held := s.held + amount))
  }

  /** Underlying tokens move between wallets. */
  function Pay(s: State, from: Key, to: Key, amount: u64): Result<State> {
    if Get(s.underlying, from) < amount then Err(InsufficientFunds)
    else Ok(s.(underlying := Move(s.underlying, from, to, amount)))
  }

  /** The vault account together with the token accounts its instructions touch. */
  class VaultAccount {
    const admin: Key
    var locked: nat
    var paused: bool
    var stede: map<Key, nat>
    var supply: nat
    var underlying: map<Key, nat>
    var held: nat

    ghost function Now(): State
      reads this
    {
      State(admin, locked, paused, stede, supply, underlying, held)
    }

    constructor (creator: Key, wallets: map<Key, nat>)
      ensures Now() == Initial(creator, wallets)
    {
      admin, locked, paused := creator, 0, false;
      stede, supply := map[], 0;
      underlying, held := wallets, 0;
    }

    method WrapTokens(user: Key, amount: u64) returns (r: Result<()>)
      modifies this
      ensures match Wrap(old(Now()), user, amount)
              case Ok(s) => r == Ok(()) && Now() == s
              case Err(e) => r == Err(e) && Now() == old(Now())
    {
      if paused {
        return Err(Paused);
      }
      if amount == 0 {
        return Err(ZeroAmount);
      }
      // transfer_checked: user -> token vault
      if Get(underlying, user) < amount {
        return Err(InsufficientFunds);
      }
      if held + amount >= U64_RANGE {
        return Err(TokenOverflow);
      }
      var before, heldBefore := underlying, held;
      underlying := underlying[user := Get(underlying, user) - amount];
      held := held + amount;
      // mint_to; a failure from here on undoes what went before
      if Get(stede, user) + amount >= U64_RANGE || supply + amount >= U64_RANGE {
        underlying, held := before, heldBefore;
        return Err(TokenOverflow);
      }
      var stedeBefore := stede;
      stede := stede[user := Get(stede, user) + amount];
      supply := supply + amount;
      // accounting
      if locked + amount >= U64_RANGE {
        underlying, held := before, heldBefore;
        stede, supply := stedeBefore, supply - amount;
        return Err(Overflow);
      }
      locked := locked + amount;
      return Ok(());
    }

    method UnwrapTokens(user: Key, amount: u64) returns (r: Result<()>)
      modifies this
      ensures match Unwrap(old(Now()), user, amount)
              case Ok(s) => r == Ok(()) && Now() == s
              case Err(e) => r == Err(e) && Now() == old(Now())
    {
      if paused {
        return Err(Paused);
      }
      if amount == 0 {
        return Err(ZeroAmount);
      }
      if locked < amount {
        return Err(InsufficientLocked);
      }
      // burn
      if Get(stede, user) < amount || supply < amount {
        return Err(InsufficientFunds);
      }
      var before := stede;
      stede := stede[user := Get(stede, user) - amount];
      supply := supply - amount;
      // transfer_checked: token vault -> user; a failure undoes the burn
      if held < amount {
        stede, supply := before, supply + amount;
        return Err(InsufficientFunds);
      }
      if Get(underlying, user) + amount >= U64_RANGE {
        stede, supply := before, supply + amount;
        return Err(TokenOverflow);
      }
      held := held - amount;
      underlying := underlying[user := Get(underlying, user) + amount];
      // accounting: the subtraction cannot fail after the first check
      locked := locked - amount;
      return Ok(());
    }

    method Pause(caller: Key, flag: bool) returns (r: Result<()>)
      modifies this
      ensures match SetPaused(old(Now()), caller, flag)
              case Ok(s) => r == Ok(()) && Now() == s
              case Err(e) => r == Err(e) && Now() == old(Now())
    {
      if caller != admin {
        return Err(Unauthorized);
      }
      paused := flag;
      return Ok(());
    }
  }

  // ---- Runs ---------------------------------------------------------------------------

  datatype Event =
    | Wrapping(user: Key, amount: u64)
    | Unwrapping(user: Key, amount: u64)
    | Pausing(caller: Key, paused: bool)
    | Sending(from: Key, to: Key, amount: u64, hook: Result<()>)
    | Burning(user: Key, amount: u64)
    | Depositing(user: Key, amount: u64)
    | Paying(from: Key, to: Key, amount: u64)

  function Attempt(s: State, e: Event): Result<State> {
    match e
    case Wrapping(user, amount) => Wrap(s, user, amount)
    case Unwrapping(user, amount) => Unwrap(s, user, amount)
    case Pausing(caller, paused) => SetPaused(s, caller, paused)
    case Sending(from, to, amount, hook) => Send(s, from, to, amount, hook)
    case Burning(user, amount) => Burn(s, user, amount)
    case Depositing(user, amount) => Deposit(s, user, amount)
    case Paying(from, to, amount) => Pay(s, from, to, amount)
  }

  function Step(s: State, e: Event): State {
    match Attempt(s, e) case Ok(t) => t case Err(_) => s
  }

  function Run(s: State, es: seq<Event>): State
    decreases |es|
  {
    if es == [] then s else Run(Step(s, es[0]), es[1..])
  }

  /** Every Stede token is covered, and all underlying tokens fit the mint's u64 supply. */
  ghost predicate Solvent(s: State) {
    && SumMap(s.stede) == s.supply
    && s.supply <= s.locked <= s.held
    && SumMap(s.underlying) + s.held < U64_RANGE
  }

  /** The equality the vault's state promises. */
  ghost predicate Exact(s: State) {
    s.supply == s.locked == s.held
  }

  /** What a successful step keeps, and that it never narrows the two margins. */
  ghost predicate Kept(s: State, t: State) {
    && Solvent(t)
    && SumMap(t.underlying) + t.held == SumMap(s.underlying) + s.held
    && t.locked - t.supply >= s.locked - s.supply
    && t.held - t.locked >= s.held - s.locked
  }

  lemma WrapKeeps(s: State, user: Key, amount: u64)
    requires Solvent(s) && Wrap(s, user, amount).Ok?
    ensures Kept(s, Wrap(s, user, amount).value)
  {
    SumMapSet(s.underlying, user, Get(s.underlying, user) - amount);
    SumMapSet(s.stede, user, Get(s.stede, user) + amount);
  }

  lemma UnwrapKeeps(s: State, user: Key, amount: u64)
    requires Solvent(s) && Unwrap(s, user, amount).Ok?
    ensures Kept(s, Unwrap(s, user, amount).value)
  {
    SumMapSet(s.stede, user, Get(s.stede, user) - amount);
    SumMapSet(s.underlying, user, Get(s.underlying, user) + amount);
  }

  lemma SendAndPayKeep(s: State, from: Key, to: Key, amount: u64, hook: Result<()>)
    requires Solvent(s)
    ensures Send(s, from, to, amount, hook).Ok? ==> Kept(s, Send(s, from, to, amount, hook).value)
    ensures Pay(s, from, to, amount).Ok? ==> Kept(s, Pay(s, from, to, amount).value)
  {
    if amount <= Get(s.stede, from) {
      MoveKeepsSum(s.stede, from, to, amount);
    }
    if amount <= Get(s.underlying, from) {
      MoveKeepsSum(s.underlying, from, to, amount);
    }
  }

  lemma BurnAndDepositKeep(s: State, user: Key, amount: u64)
    requires Solvent(s)
    ensures Burn(s, user, amount).Ok? ==> Kept(s, Burn(s, user, amount).value)
    ensures Deposit(s, user, amount).Ok? ==> Kept(s, Deposit(s, user, amount).value)
  {
    if amount <= Get(s.stede, user) {
      SumMapSet(s.stede, user, Get(s.stede, user) - amount);
    }
    if amount <= Get(s.underlying, user) {
      SumMapSet(s.underlying, user, Get(s.underlying, user) - amount);
    }
  }

  lemma StepKeeps(s: State, e: Event)
    requires Solvent(s)
    ensures Kept(s, Step(s, e))
  {
    hide Wrap, Unwrap, Send, Burn, Deposit, Pay;
    match e
    case Wrapping(user, amount) => if Wrap(s, user, amount).Ok? { WrapKeeps(s, user, amount); }
    case Unwrapping(user, amount) => if Unwrap(s, user, amount).Ok? { UnwrapKeeps(s, user, amount); }
    case Pausing(_, _) =>
    case Sending(from, to, amount, hook) => SendAndPayKeep(s, from, to, amount, hook);
    case Burning(user, amount) => BurnAndDepositKeep(s, user, amount);
    case Depositing(user, amount) => BurnAndDepositKeep(s, user, amount);
    case Paying(from, to, amount) => SendAndPayKeep(s, from, to, amount, Ok(()));
  }

  /** A burn or deposit of a positive amount that the token program lets through. */
  predicate Leaks(s: State, e: Event) {
    (e.Burning? || e.Depositing?) && e.amount > 0 && Attempt(s, e).Ok?
  }

  lemma StepExactIff(s: State, e: Event)
    requires Exact(s)
    ensures Exact(Step(s, e)) <==> !Leaks(s, e)
  {
  }

  /** Under any interleaving: balances sum to the supply, the supply is at most what is
      accounted as locked, and that is at most what the vault holds; without direct burns
      and deposits all three are equal. Underlying tokens are conserved. */
  lemma {:induction false} RunSolvent(s: State, es: seq<Event>)
    requires Solvent(s)
    ensures Solvent(Run(s, es))
    ensures Exact(s) && (forall i :: 0 <= i < |es| ==> !es[i].Burning? && !es[i].Depositing?) ==> Exact(Run(s, es))
    ensures SumMap(Run(s, es).underlying) + Run(s, es).held == SumMap(s.underlying) + s.held
    decreases |es|
  {
    if es != [] {
      hide Step;
      StepKeeps(s, es[0]);
      if Exact(s) && !es[0].Burning? && !es[0].Depositing? {
        StepExactIff(s, es[0]);
      }
      RunSolvent(Step(s, es[0]), es[1..]);
    }
  }

  lemma InitialSolvent(admin: Key, underlying: map<Key, nat>)
    requires SumMap(underlying) < U64_RANGE
    ensures Solvent(Initial(admin, underlying)) && Exact(Initial(admin, underlying))
  {
  }

  /** The margins between supply, locked amount and holdings only ever widen. */
  lemma {:induction false} GapNeverCloses(s: State, es: seq<Event>)
    requires Solvent(s)
    ensures Run(s, es).locked - Run(s, es).supply >= s.locked - s.supply
    ensures Run(s, es).held - Run(s, es).locked >= s.held - s.locked
    decreases |es|
  {
    if es != [] {
      hide Step;
      StepKeeps(s, es[0]);
      GapNeverCloses(Step(s, es[0]), es[1..]);
    }
  }

  predicate NoLeak(s: State, es: seq<Event>)
    decreases |es|
  {
    es == [] || (!Leaks(s, es[0]) && NoLeak(Step(s, es[0]), es[1..]))
  }

  /** The three-way equality the vault's state promises survives a run exactly when nobody
      burned Stede past the vault or paid into its account: once broken it stays broken. */
  lemma {:induction false} EqualityExactlyWithoutLeaks(s: State, es: seq<Event>)
    requires Solvent(s) && Exact(s)
    ensures Exact(Run(s, es)) <==> NoLeak(s, es)
    decreases |es|
  {
    if es != [] {
      hide Step;
      StepExactIff(s, es[0]);
      StepKeeps(s, es[0]);
      if Leaks(s, es[0]) {
        GapNeverCloses(Step(s, es[0]), es[1..]);
      } else {
        EqualityExactlyWithoutLeaks(Step(s, es[0]), es[1..]);
      }
    }
  }

  /** The equality fails: after wrapping one token, burning it at the token program, or
      paying one more into the vault's account, breaks it. */
  lemma EqualityBroken(admin: Key, user: Key)
    ensures var s := Initial(admin, map[user := 1]);
            var t := Run(s, [Wrapping(user, 1), Burning(user, 1)]);
            Exact(s) && Solvent(s) && t.supply == 0 && t.locked == t.held == 1 && !Exact(t)
    ensures var s := Initial(admin, map[user := 2]);
            var t := Run(s, [Wrapping(user, 1), Depositing(user, 1)]);
            Exact(s) && Solvent(s) && t.supply == t.locked == 1 && t.held == 2 && !Exact(t)
  {
    var wrap, burn, deposit := Wrapping(user, 1), Burning(user, 1), Depositing(user, 1);
    SumOfOne(user, 1);
    SumOfOne(user, 2);
    InitialSolvent(admin, map[user := 1]);
    InitialSolvent(admin, map[user := 2]);
    var s, t := Initial(admin, map[user := 1]), Initial(admin, map[user := 2]);
    RunTwo(s, wrap, burn);
    RunTwo(t, wrap, deposit);
  }

  lemma RunTwo(s: State, a: Event, b: Event)
    ensures Run(s, [a, b]) == Step(Step(s, a), b)
  {
    hide Step;
    assert [a, b][1..] == [b] && [b][1..] == [];
    assert Run(Step(s, a), [b]) == Run(Step(Step(s, a), b), []);
  }

  lemma SumOfOne(user: Key, x: nat)
    ensures SumMap(map[user := x]) == x
  {
    SumMapSplit(map[user := x], user);
    assert map[user := x] - {user} == map[];
  }

  // ---- Pausing --------------------------------------------------------------------------

  /** The flag in force, read off the requests from the last one back: the last one the admin
      asked for; `start` if there was none. */
  function Flag(admin: Key, start: bool, es: seq<Event>): bool {
    if es == [] then start
    else
      var e := es[|es| - 1];
      if e.Pausing? && e.caller == admin then e.paused else Flag(admin, start, es[..|es| - 1])
  }

  lemma {:induction false} RunSnoc(s: State, es: seq<Event>, e: Event)
    ensures Run(s, es + [e]) == Step(Run(s, es), e)
    decreases |es|
  {
    hide Step;
    if es == [] {
      assert [e][1..] == [] && [] + [e] == [e];
    } else {
      assert (es + [e])[1..] == es[1..] + [e];
      RunSnoc(Step(s, es[0]), es[1..], e);
    }
  }

  lemma StepFlag(s: State, e: Event)
    ensures var t := Step(s, e);
            t.admin == s.admin && t.paused == if e.Pausing? && e.caller == s.admin then e.paused else s.paused
  {
  }

  /** The admin's requests, and nobody else's and nothing else, set the flag; the admin never
      changes. */
  lemma {:induction false} OnlyAdminPauses(s: State, es: seq<Event>)
    ensures Run(s, es).admin == s.admin && Run(s, es).paused == Flag(s.admin, s.paused, es)
    decreases |es|
  {
    hide Step;
    if es != [] {
      var last := |es| - 1;
      assert es == es[..last] + [es[last]];
      OnlyAdminPauses(s, es[..last]);
      RunSnoc(s, es[..last], es[last]);
      StepFlag(Run(s, es[..last]), es[last]);
    }
  }

  /** A request to pause succeeds exactly for the admin; anybody else is told so. */
  lemma PauseVerdict(s: State, caller: Key, paused: bool)
    ensures caller == s.admin ==> Attempt(s, Pausing(caller, paused)) == Ok(s.(paused := paused))
    ensures caller != s.admin ==> Attempt(s, Pausing(caller, paused)) == Err(Unauthorized)
  {
  }

  // ---- Redemption -----------------------------------------------------------------------

  /** In a solvent state, wrapping and unwrapping succeed exactly for amounts the user has:
      the overflow arms and the shortage of locked tokens are out of reach. */
  lemma SucceedsExactlyWhenCovered(s: State, user: Key, amount: u64)
    requires Solvent(s)
    ensures Wrap(s, user, amount).Ok? <==> !s.paused && 0 < amount <= Get(s.underlying, user)
    ensures Unwrap(s, user, amount).Ok? <==> !s.paused && 0 < amount <= Get(s.stede, user)
    ensures Wrap(s, user, amount).Err? ==>
              Wrap(s, user, amount).error == if s.paused then Paused else if amount == 0 then ZeroAmount else InsufficientFunds
    ensures Unwrap(s, user, amount).Err? ==>
              Unwrap(s, user, amount).error == if s.paused then Paused
                                               else if amount == 0 then ZeroAmount
                                               else if s.locked < amount then InsufficientLocked
                                               else InsufficientFunds
  {
    SumMapBound(s.underlying, user);
    SumMapBound(s.stede, user);
  }

  /** What each event changes, balance by balance: the parties' by the amount, nobody else's. */
  lemma Effects(s: State, e: Event, k: Key)
    requires Attempt(s, e).Ok?
    ensures var t := Attempt(s, e).value;
            && t.admin == s.admin
            && Get(t.stede, k) == Get(s.stede, k)
                 + (if e.Wrapping? && k == e.user then e.amount else 0)
                 - (if (e.Unwrapping? || e.Burning?) && k == e.user then e.amount else 0)
                 + (if e.Sending? && k == e.to then e.amount else 0)
                 - (if e.Sending? && k == e.from then e.amount else 0)
            && Get(t.underlying, k) == Get(s.underlying, k)
                 + (if e.Unwrapping? && k == e.user then e.amount else 0)
                 - (if (e.Wrapping? || e.Depositing?) && k == e.user then e.amount else 0)
                 + (if e.Paying? && k == e.to then e.amount else 0)
                 - (if e.Paying? && k == e.from then e.amount else 0)
            && t.supply == s.supply + (if e.Wrapping? then e.amount else 0) - (if e.Unwrapping? || e.Burning? then e.amount else 0)
            && t.locked == s.locked + (if e.Wrapping? then e.amount else 0) - (if e.Unwrapping? then e.amount else 0)
            && t.held == s.held + (if e.Wrapping? || e.Depositing? then e.amount else 0) - (if e.Unwrapping? then e.amount else 0)
  {
    hide Move;
    if e.Sending? {
      MoveAt(s.stede, e.from, e.to, e.amount, k);
    } else if e.Paying? {
      MoveAt(s.underlying, e.from, e.to, e.amount, k);
    }
  }

  /** Transfers, burns and deposits need the balance, and a transfer the hook's consent. */
  lemma OutsideTheVault(s: State, from: Key, to: Key, amount: u64, hook: Result<()>)
    requires Solvent(s)
    ensures Send(s, from, to, amount, hook).Ok? <==> amount <= Get(s.stede, from) && hook.Ok?
    ensures amount <= Get(s.stede, from) && hook.Err? ==> Send(s, from, to, amount, hook) == Err(hook.error)
    ensures amount > Get(s.stede, from) ==> Send(s, from, to, amount, hook) == Err(InsufficientFunds)
    ensures Burn(s, from, amount).Ok? <==> amount <= Get(s.stede, from)
    ensures Deposit(s, from, amount).Ok? <==> amount <= Get(s.underlying, from)
    ensures Pay(s, from, to, amount).Ok? <==> amount <= Get(s.underlying, from)
  {
    SumMapBound(s.stede, from);
    SumMapBound(s.underlying, from);
  }

  /** Unwrapping undoes wrapping, balance by balance. */
  lemma UnwrapUndoesWrap(s: State, user: Key, amount: u64)
    requires Solvent(s) && Wrap(s, user, amount).Ok?
    ensures var t := Unwrap(Wrap(s, user, amount).value, user, amount);
            && t.Ok?
            && t.value.(stede := s.stede, underlying := s.underlying) == s
            && forall k :: Get(t.value.stede, k) == Get(s.stede, k) && Get(t.value.underlying, k) == Get(s.underlying, k)
  {
    SumMapBound(s.underlying, user);
  }

  /** Each wallet of the list in turn unwraps its whole balance. */
  function RedeemAll(s: State, order: seq<Key>): Result<State>
    decreases |order|
  {
    if order == [] then Ok(s)
    else if Get(s.stede, order[0]) >= U64_RANGE then Err(Overflow)
    else
      var t :- Unwrap(s, order[0], Get(s.stede, order[0]));
      RedeemAll(t, order[1..])
  }

  ghost predicate Distinct(order: seq<Key>) {
    forall i, j :: 0 <= i < j < |order| ==> order[i] != order[j]
  }

  lemma UnwrapEffect(s: State, user: Key, amount: u64)
    requires Unwrap(s, user, amount).Ok?
    ensures var t := Unwrap(s, user, amount).value;
            && t.paused == s.paused
            && t.locked - t.supply == s.locked - s.supply && t.held - t.supply == s.held - s.supply
            && (forall k :: Get(t.stede, k) == Get(s.stede, k) - if k == user then amount else 0)
            && (forall k :: Get(t.underlying, k) == Get(s.underlying, k) + if k == user then amount else 0)
  {
  }

  lemma {:induction false} RedeemSome(s: State, order: seq<Key>)
    requires Solvent(s) && !s.paused && Distinct(order)
    requires forall k :: k in order ==> Get(s.stede, k) > 0
    ensures var r := RedeemAll(s, order);
            && r.Ok? && Solvent(r.value)
            && r.value.locked - r.value.supply == s.locked - s.supply
            && r.value.held - r.value.supply == s.held - s.supply
            && (forall k :: Get(r.value.stede, k) == if k in order then 0 else Get(s.stede, k))
            && (forall k :: Get(r.value.underlying, k)
                            == Get(s.underlying, k) + if k in order then Get(s.stede, k) else 0)
    decreases |order|
  {
    if order != [] {
      var k0, rest := order[0], order[1..];
      SumMapBound(s.stede, k0);
      SucceedsExactlyWhenCovered(s, k0, Get(s.stede, k0));
      var t := Unwrap(s, k0, Get(s.stede, k0)).value;
      UnwrapKeeps(s, k0, Get(s.stede, k0));
      UnwrapEffect(s, k0, Get(s.stede, k0));
      hide Unwrap, Get, Solvent;
      assert forall k :: k in rest ==> k in order && k != k0;
      RedeemSome(t, rest);
      assert order == [k0] + rest;
    }
  }

  /** In a solvent state that is not paused, every holder can unwrap everything, in any
      order, and is paid one for one until no Stede is left. */
  lemma RedeemEverything(s: State, order: seq<Key>)
    requires Solvent(s) && !s.paused && Distinct(order)
    requires forall k :: k in order <==> Get(s.stede, k) > 0
    ensures var r := RedeemAll(s, order);
            && r.Ok? && r.value.supply == 0
            && r.value.locked == s.locked - s.supply && r.value.held == s.held - s.supply
            && forall k :: Get(r.value.stede, k) == 0
                           && Get(r.value.underlying, k) == Get(s.underlying, k) + Get(s.stede, k)
  {
    RedeemSome(s, order);
    var t := RedeemAll(s, order).value;
    forall k | k in t.stede ensures t.stede[k] == 0 {
      assert Get(t.stede, k) == 0;
    }
    SumMapZero(t.stede);
  }

  /** Full redemption: from any reachable state that is not paused, every holder can
      unwrap everything, in any order, and is paid one for one until no Stede is left;
      what remains in the vault is exactly what was burned past it or given to it. */
  lemma FullRedemption(admin: Key, underlying: map<Key, nat>, es: seq<Event>, order: seq<Key>)
    requires SumMap(underlying) < U64_RANGE
    requires var s := Run(Initial(admin, underlying), es);
             !s.paused && Distinct(order) && forall k :: k in order <==> Get(s.stede, k) > 0
    ensures var s := Run(Initial(admin, underlying), es);
            var r := RedeemAll(s, order);
            && r.Ok? && r.value.supply == 0
            && r.value.locked == s.locked - s.supply && r.value.held == s.held - s.supply
            && forall k :: Get(r.value.stede, k) == 0
                           && Get(r.value.underlying, k) == Get(s.underlying, k) + Get(s.stede, k)
  {
    var s := Run(Initial(admin, underlying), es);
    InitialSolvent(admin, underlying);
    RunSolvent(Initial(admin, underlying), es);
    RedeemEverything(s, order);
  }
}
