/**
 * The machine as a whole: the account store with every rule, and the vault with the balances
 * of its Stede mint. A transfer of that mint commits in both or in neither. One Stede and one
 * underlying balance per wallet.
 */
module Stede {
  import opened Base
  import opened Addresses
  import opened Ledger
  import opened Chain
  import opened Spending
  import DailyLimit
  import Vault

  datatype State = State(store: Store, vault: Vault.State)

  /** A transaction on the store, or what the vault and the token programs do besides transfers. */
  datatype Step = OnChain(tx: Tx) | AtVault(event: Vault.Event)

  predicate IsSend(tx: Tx, mint: Key) {
    tx.instr.Transfer? && tx.instr.mint == mint
  }

  /** The token program moves the balances, then the hook decides; an error undoes both. */
  function Apply(s: State, mint: Key, step: Step): Result<State> {
    match step
    case OnChain(tx) =>
      var vault :- if IsSend(tx, mint)
                   then Vault.Send(s.vault, tx.instr.sender, Recipient(s.store, tx.instr), tx.instr.amount, Ok(()))
                   else Ok(s.vault);
      var store :- Exec(s.store, tx.instr, tx.clock);
      Ok(State(store, vault))
    case AtVault(e) =>
      if e.Sending? then Err(ConstraintViolated)
      else
        var vault :- Vault.Attempt(s.vault, e);
        Ok(s.(vault := vault))
  }

  function Next(s: State, mint: Key, step: Step): State {
    match Apply(s, mint, step) case Ok(t) => t case Err(_) => s
  }

  function Run(s: State, mint: Key, steps: seq<Step>): State
    decreases |steps|
  {
    if steps == [] then s else Run(Next(s, mint, steps[0]), mint, steps[1..])
  }

  // ---- Two projections -----------------------------------------------------------------------

  /** All transactions attempted. */
  function Attempted(steps: seq<Step>): seq<Tx>
    decreases |steps|
  {
    if steps == [] then []
    else (if steps[0].OnChain? then [steps[0].tx] else []) + Attempted(steps[1..])
  }

  /** The transactions that commit. */
  function Committed(s: State, mint: Key, steps: seq<Step>): seq<Tx>
    decreases |steps|
  {
    if steps == [] then []
    else
      (if steps[0].OnChain? && Apply(s, mint, steps[0]).Ok? then [steps[0].tx] else [])
      + Committed(Next(s, mint, steps[0]), mint, steps[1..])
  }

  /** What a step is to the vault. */
  function AsEvent(s: State, mint: Key, step: Step): seq<Vault.Event> {
    if Apply(s, mint, step).Err? then []
    else if step.AtVault? then [step.event]
    else if IsSend(step.tx, mint) then
      [Vault.Sending(step.tx.instr.sender, Recipient(s.store, step.tx.instr), step.tx.instr.amount, Ok(()))]
    else []
  }

  function Events(s: State, mint: Key, steps: seq<Step>): seq<Vault.Event>
    decreases |steps|
  {
    if steps == [] then [] else AsEvent(s, mint, steps[0]) + Events(Next(s, mint, steps[0]), mint, steps[1..])
  }

  /** The store runs the committed transactions. */
  lemma {:induction false} StoreFollows(s: State, mint: Key, steps: seq<Step>)
    ensures Run(s, mint, steps).store == Chain.Run(s.store, Committed(s, mint, steps))
    decreases |steps|
  {
    hide Exec, Vault.Send, Vault.Attempt;
    if steps != [] {
      var next := Next(s, mint, steps[0]);
      StoreFollows(next, mint, steps[1..]);
      var rest := Committed(next, mint, steps[1..]);
      if steps[0].OnChain? && Apply(s, mint, steps[0]).Ok? {
        assert ([steps[0].tx] + rest)[1..] == rest;
      } else {
        assert [] + rest == rest;
      }
    }
  }

  lemma EventsStep(s: State, mint: Key, step: Step)
    ensures Next(s, mint, step).vault
         == (if AsEvent(s, mint, step) == [] then s.vault else Vault.Step(s.vault, AsEvent(s, mint, step)[0]))
    ensures |AsEvent(s, mint, step)| <= 1
  {
    hide Exec, Recipient;
  }

  /** The vault runs its own steps and the committed transfers. */
  lemma {:induction false} VaultFollows(s: State, mint: Key, steps: seq<Step>)
    ensures Run(s, mint, steps).vault == Vault.Run(s.vault, Events(s, mint, steps))
    decreases |steps|
  {
    hide Next, AsEvent, Vault.Step;
    if steps != [] {
      var next := Next(s, mint, steps[0]);
      EventsStep(s, mint, steps[0]);
      VaultFollows(next, mint, steps[1..]);
      var head, rest := AsEvent(s, mint, steps[0]), Events(next, mint, steps[1..]);
      if head == [] {
        assert head + rest == rest;
      } else {
        assert (head + rest)[1..] == rest;
      }
    }
  }

  /** Signed transactions in slot order within [lo, hi), with no limit of w's above L. */
  ghost predicate Within(txs: seq<Tx>, w: Key, mint: Key, L: nat, lo: int, hi: int) {
    && Signed(txs) && InOrder(txs) && LimitsAtMost(txs, w, mint, L)
    && forall i :: 0 <= i < |txs| ==> lo <= txs[i].clock.slot < hi
  }

  lemma WithinCons(tx: Tx, rest: seq<Tx>, w: Key, mint: Key, L: nat, lo: int, hi: int)
    ensures Within([tx] + rest, w, mint, L, lo, hi) <==>
              Within([tx], w, mint, L, lo, hi) && Within(rest, w, mint, L, tx.clock.slot, hi)
  {
    var txs := [tx] + rest;
    assert txs[0] == tx && [tx][0] == tx;
    assert forall i :: 0 <= i < |rest| ==> rest[i] == txs[i + 1];
    assert forall i :: 0 < i < |txs| ==> txs[i] == rest[i - 1];
  }

  lemma WithinElsewhere(txs: seq<Tx>, w: Key, mint: Key, L: nat, lo: int, hi: int, lo1: int, hi1: int)
    requires Within(txs, w, mint, L, lo, hi) && hi <= hi1
    requires lo1 <= lo || (txs != [] ==> lo1 <= txs[0].clock.slot)
    ensures Within(txs, w, mint, L, lo1, hi1)
  {
  }

  lemma WithinOne(tx: Tx, w: Key, mint: Key, L: nat, lo: int, hi: int)
    ensures Within([tx], w, mint, L, lo, hi) ==> lo <= tx.clock.slot
  {
    assert [tx][0] == tx;
  }

  /** What holds of the attempted transactions holds of the committed ones among them. */
  lemma {:induction false} CommittedInherit(s: State, mint: Key, steps: seq<Step>, w: Key, L: nat, lo: int, hi: int)
    requires Within(Attempted(steps), w, mint, L, lo, hi)
    ensures Within(Committed(s, mint, steps), w, mint, L, lo, hi)
    decreases |steps|
  {
    hide Next, Apply;
    if steps != [] {
      hide Within;
      var all, next := Attempted(steps[1..]), Next(s, mint, steps[0]);
      var rest := Committed(next, mint, steps[1..]);
      assert [] + all == all && [] + rest == rest;
      if steps[0].OnChain? {
        var tx := steps[0].tx;
        WithinCons(tx, all, w, mint, L, lo, hi);
        CommittedInherit(next, mint, steps[1..], w, L, tx.clock.slot, hi);
        WithinCons(tx, rest, w, mint, L, lo, hi);
        WithinOne(tx, w, mint, L, lo, hi);
        WithinElsewhere(rest, w, mint, L, tx.clock.slot, hi, lo, hi);
      } else {
        CommittedInherit(next, mint, steps[1..], w, L, lo, hi);
      }
    }
  }

  // ---- Single steps ----------------------------------------------------------------------------

  /** A transfer commits exactly when the sender's balance covers it and the hook's program
      accepts it, paused or not; then the tokens go from the sender to the wallet named in
      bytes 32..64 of the destination, and nothing else of the vault changes. */
  lemma TransferMoves(s: State, mint: Key, tx: Tx, k: Key)
    requires IsSend(tx, mint) && Vault.Solvent(s.vault)
    requires |DataOf(s.store, Raw(tx.instr.dest))| >= 64
    ensures var i, stede, hooked := tx.instr, s.vault.stede, Exec(s.store, tx.instr, tx.clock);
            match Apply(s, mint, OnChain(tx))
            case Err(e) =>
              if i.amount > Get(stede, i.sender) then e == InsufficientFunds else hooked == Err(e)
            case Ok(t) =>
              && i.amount <= Get(stede, i.sender) && hooked == Ok(t.store)
              && t.vault.(stede := stede) == s.vault
              && Get(t.vault.stede, k) == Get(stede, k) - (if k == i.sender then i.amount else 0)
                                          + (if k == DataOf(s.store, Raw(i.dest))[32..64] then i.amount else 0)
  {
    hide Exec, DataOf;
  }

  /** Every other transaction is the chain's or the vault's alone, and balances of Stede move
      past the hook in no way but wrapping, unwrapping and burning. */
  lemma OtherSteps(s: State, mint: Key, step: Step)
    requires step.OnChain? ==> !IsSend(step.tx, mint)
    ensures step.OnChain? ==>
              match Exec(s.store, step.tx.instr, step.tx.clock)
              case Ok(store) => Apply(s, mint, step) == Ok(State(store, s.vault))
              case Err(e) => Apply(s, mint, step) == Err(e)
    ensures step.AtVault? && Apply(s, mint, step).Ok? ==>
              !step.event.Sending? && Apply(s, mint, step) == Ok(State(s.store, Vault.Step(s.vault, step.event)))
    ensures step.AtVault? && !step.event.Sending? ==> (Apply(s, mint, step).Ok? <==> Vault.Attempt(s.vault, step.event).Ok?)
  {
    hide Exec, Vault.Attempt;
  }

  // ---- What holds of the whole machine --------------------------------------------------------

  /** Under any interleaving of rule settings, direct checks, transfers of any mint, wrapping,
      unwrapping, pausing, burning and depositing, the accounts stay canonical and the vault
      solvent; and unless it is paused, all holders can then redeem everything one for one,
      in any order, whatever rules they have set. */
  lemma SafeAndRedeemable(s: State, mint: Key, steps: seq<Step>, order: seq<Key>)
    requires AllCanonical(s.store) && Signed(Committed(s, mint, steps)) && Vault.Solvent(s.vault)
    ensures var t := Run(s, mint, steps);
            && AllCanonical(t.store) && Vault.Solvent(t.vault)
            && (!t.vault.paused && Vault.Distinct(order) && (forall k :: k in order <==> Get(t.vault.stede, k) > 0) ==>
                 var r := Vault.RedeemAll(t.vault, order);
                 && r.Ok? && r.value.supply == 0
                 && forall k :: Get(r.value.stede, k) == 0
                                && Get(r.value.underlying, k) == Get(t.vault.underlying, k) + Get(t.vault.stede, k))
  {
    hide AllCanonical, Committed, Events, Vault.Run, Vault.RedeemAll, Run, Signed;
    StoreFollows(s, mint, steps);
    VaultFollows(s, mint, steps);
    RunCanonical(s.store, Committed(s, mint, steps));
    Vault.RunSolvent(s.vault, Events(s, mint, steps));
    var t := Run(s, mint, steps);
    if !t.vault.paused && Vault.Distinct(order) && (forall k :: k in order <==> Get(t.vault.stede, k) > 0) {
      Vault.RedeemEverything(t.vault, order);
    }
  }

  /** The flag in force, read off the requests from the last one back. */
  function Flag(admin: Key, start: bool, steps: seq<Step>): bool {
    if steps == [] then start
    else
      var step := steps[|steps| - 1];
      if step.AtVault? && step.event.Pausing? && step.event.caller == admin then step.event.paused
      else Flag(admin, start, steps[..|steps| - 1])
  }

  lemma {:induction false} RunSnoc(s: State, mint: Key, steps: seq<Step>, step: Step)
    ensures Run(s, mint, steps + [step]) == Next(Run(s, mint, steps), mint, step)
    decreases |steps|
  {
    hide Next;
    if steps == [] {
      assert [step][1..] == [] && [] + [step] == [step];
    } else {
      assert (steps + [step])[1..] == steps[1..] + [step];
      RunSnoc(Next(s, mint, steps[0]), mint, steps[1..], step);
    }
  }

  lemma NextFlag(s: State, mint: Key, step: Step)
    ensures var v, w := s.vault, Next(s, mint, step).vault;
            && w.admin == v.admin
            && w.paused == if step.AtVault? && step.event.Pausing? && step.event.caller == v.admin then step.event.paused else v.paused
  {
    hide Exec, Recipient;
  }

  /** The vault is paused exactly if the admin's last request was to pause it, whatever anyone
      else asked for and whatever happened on the chain. */
  lemma {:induction false} OnlyAdminPauses(s: State, mint: Key, steps: seq<Step>)
    ensures var v := Run(s, mint, steps).vault;
            v.admin == s.vault.admin && v.paused == Flag(s.vault.admin, s.vault.paused, steps)
    decreases |steps|
  {
    hide Next;
    if steps != [] {
      var last := |steps| - 1;
      assert steps == steps[..last] + [steps[last]];
      OnlyAdminPauses(s, mint, steps[..last]);
      RunSnoc(s, mint, steps[..last], steps[last]);
      NextFlag(Run(s, mint, steps[..last]), mint, steps[last]);
    }
  }

  /** So a run in which the admin's last request was not to pause, and none was needed if the
      vault was open to begin with, ends with everything redeemable. */
  lemma RedeemableUnlessPaused(s: State, mint: Key, steps: seq<Step>, order: seq<Key>)
    requires AllCanonical(s.store) && Signed(Committed(s, mint, steps)) && Vault.Solvent(s.vault)
    requires !Flag(s.vault.admin, s.vault.paused, steps) && Vault.Distinct(order)
    requires forall k :: k in order <==> Get(Run(s, mint, steps).vault.stede, k) > 0
    ensures var t := Run(s, mint, steps);
            var r := Vault.RedeemAll(t.vault, order);
            && r.Ok? && r.value.supply == 0
            && forall k :: Get(r.value.stede, k) == 0
                           && Get(r.value.underlying, k) == Get(t.vault.underlying, k) + Get(t.vault.stede, k)
  {
    hide AllCanonical, Committed, Vault.RedeemAll, Run, Signed, Vault.Solvent;
    OnlyAdminPauses(s, mint, steps);
    SafeAndRedeemable(s, mint, steps, order);
  }

  /** What w itself takes out of circulation in a step: its own unwrapping and burning. */
  function TakenOut(s: State, mint: Key, step: Step, w: Key): nat {
    if step.AtVault? && Apply(s, mint, step).Ok? && (step.event.Unwrapping? || step.event.Burning?) && step.event.user == w
    then step.event.amount else 0
  }

  function TakenOutIn(s: State, mint: Key, steps: seq<Step>, w: Key): nat
    decreases |steps|
  {
    if steps == [] then 0
    else TakenOut(s, mint, steps[0], w) + TakenOutIn(Next(s, mint, steps[0]), mint, steps[1..], w)
  }

  /** No step takes more from a wallet than it sends in a counted transfer or takes out. */
  lemma StepTakes(s: State, mint: Key, step: Step, w: Key)
    requires DailyAt(s.store, w, mint).Some?
    ensures Get(Next(s, mint, step).vault.stede, w) + TakenOut(s, mint, step, w)
            + (if step.OnChain? && Apply(s, mint, step).Ok? then Moved(s.store, step.tx, w, mint) else 0)
            >= Get(s.vault.stede, w)
  {
    hide Exec, Recipient, DailyAt;
  }

  lemma DailyStays(store: Store, tx: Tx, w: Key, mint: Key)
    requires AllCanonical(store) && tx.instr.sender != ZERO_KEY && DailyAt(store, w, mint).Some?
    ensures DailyAt(Commit(store, tx), w, mint).Some?
  {
    hide AllCanonical, DailyAt, Exec, Commit;
    DailyFollows(store, tx, w, mint);
  }

  lemma {:induction false} BalanceFollows(s: State, mint: Key, steps: seq<Step>, w: Key, lo: int, hi: int)
    requires AllCanonical(s.store) && DailyAt(s.store, w, mint).Some?
    requires Signed(Committed(s, mint, steps))
    requires forall i :: 0 <= i < |Committed(s, mint, steps)| ==> lo <= Committed(s, mint, steps)[i].clock.slot < hi
    ensures Get(Run(s, mint, steps).vault.stede, w) + TakenOutIn(s, mint, steps, w)
            + Sent(s.store, Committed(s, mint, steps), w, mint, lo, hi)
            >= Get(s.vault.stede, w)
    decreases |steps|
  {
    hide AllCanonical, DailyAt, Exec, Moved, Get, TakenOut, Vault.Send, Vault.Attempt;
    if steps != [] {
      var step, next := steps[0], Next(s, mint, steps[0]);
      var rest := Committed(next, mint, steps[1..]);
      StepTakes(s, mint, step, w);
      if step.OnChain? && Apply(s, mint, step).Ok? {
        var txs := [step.tx] + rest;
        assert Committed(s, mint, steps) == txs && txs[0] == step.tx && txs[1..] == rest;
        assert forall i :: 0 <= i < |rest| ==> rest[i] == txs[i + 1];
        assert next.store == Commit(s.store, step.tx);
        CommitEvolves(s.store, step.tx);
        DailyStays(s.store, step.tx, w, mint);
      } else {
        assert Committed(s, mint, steps) == rest && next.store == s.store;
      }
      BalanceFollows(next, mint, steps[1..], w, lo, hi);
    }
  }

  /** What a daily limit is worth: while w's limit for the mint never exceeds L, its balance
      falls by at most (k + 1) * L over any k days of slots, apart from what w itself unwraps
      and burns, whatever transfers are made with its signature and whatever others do. */
  lemma BalanceFallsByLimit(s: State, mint: Key, steps: seq<Step>, w: Key, L: nat, lo: int, k: nat)
    requires AllCanonical(s.store) && w != ZERO_KEY
    requires Within(Attempted(steps), w, mint, L, lo, lo + k * 216_000)
    requires var d, txs := DailyAt(s.store, w, mint), Attempted(steps);
             d.Some? && d.value.limit <= L && (txs != [] ==> d.value.windowStart <= txs[0].clock.slot)
    ensures Get(Run(s, mint, steps).vault.stede, w) + TakenOutIn(s, mint, steps, w) + (k + 1) * L >= Get(s.vault.stede, w)
  {
    hide AllCanonical, DailyAt, Sent, Run, TakenOutIn, Committed, Attempted, Signed, InOrder, LimitsAtMost, Get;
    var start := DailyAt(s.store, w, mint).value.windowStart;
    var from := if lo < start then start else lo;
    var days := k * DailyLimit.SLOTS_PER_DAY;
    WithinElsewhere(Attempted(steps), w, mint, L, lo, lo + days, from, from + days);
    CommittedInherit(s, mint, steps, w, L, from, from + days);
    BalanceFollows(s, mint, steps, w, from, from + days);
    SpendingBound(s.store, Committed(s, mint, steps), w, mint, L, from, k);
  }
}
