/**
 * The daily limit, end to end: what it guarantees of committed transfers over any run of the
 * chain, and what its stored total stands for.
 */
module Spending {
  import opened Base
  import opened Addresses
  import opened Records
  import opened Ledger
  import opened Chain
  import DailyLimit
  import Hook

  /** What a committed transaction means to the daily limit of s and m. */
  function EventOf(store: Store, tx: Tx, s: Key, m: Key): Option<DailyLimit.Event> {
    var i := tx.instr;
    if i.sender != s || i.mint != m || Exec(store, i, tx.clock).Err? then None
    else if i.SetLimit? then Some(DailyLimit.Limit(tx.clock.slot, i.limit, i.bump))
    else if i.CheckDaily? || i.Transfer? then Some(DailyLimit.Spend(tx.clock.slot, i.amount))
    else None
  }

  function DailyEvents(store: Store, txs: seq<Tx>, s: Key, m: Key): seq<DailyLimit.Event>
    decreases |txs|
  {
    if txs == [] then []
    else
      var e := EventOf(store, txs[0], s, m);
      (if e.Some? then [e.value] else []) + DailyEvents(Commit(store, txs[0]), txs[1..], s, m)
  }

  /** The amount a transaction moves out of s's account in mint m, while a limit is set. */
  function Moved(store: Store, tx: Tx, s: Key, m: Key): nat {
    var i := tx.instr;
    if i.Transfer? && i.sender == s && i.mint == m && DailyAt(store, s, m).Some? && Exec(store, i, tx.clock).Ok?
    then i.amount else 0
  }

  function Sent(store: Store, txs: seq<Tx>, s: Key, m: Key, lo: int, hi: int): nat
    decreases |txs|
  {
    if txs == [] then 0
    else
      (if lo <= txs[0].clock.slot < hi then Moved(store, txs[0], s, m) else 0)
      + Sent(Commit(store, txs[0]), txs[1..], s, m, lo, hi)
  }

  /** The amount a direct check, by anyone, adds to the total of s's limit for mint m. */
  function Charged(store: Store, tx: Tx, s: Key, m: Key): nat {
    var i := tx.instr;
    if i.CheckDaily? && i.sender == s && i.mint == m && DailyAt(store, s, m).Some? && Exec(store, i, tx.clock).Ok?
    then i.amount else 0
  }

  function ChargedIn(store: Store, txs: seq<Tx>, s: Key, m: Key, lo: int, hi: int): nat
    decreases |txs|
  {
    if txs == [] then 0
    else
      (if lo <= txs[0].clock.slot < hi then Charged(store, txs[0], s, m) else 0)
      + ChargedIn(Commit(store, txs[0]), txs[1..], s, m, lo, hi)
  }

  /** The daily component of a successful step. */
  lemma DailyOfStep(v: Hook.RuleState, i: Instr, r: Key, clock: Clock)
    requires Step(v, i, r, clock).Ok?
    ensures var d := Step(v, i, r, clock).value.daily;
            if i.SetLimit? then
              var e := DailyLimit.SetLimitTo(v.daily, i.sender, i.mint, i.limit, clock.slot, i.bump);
              e.Ok? && d == Some(e.value)
            else if i.CheckDaily? || i.Transfer? then DailyLimit.CheckOpt(v.daily, i.amount, clock.slot) == Ok(d)
            else d == v.daily
  {
    hide DailyLimit.CheckOpt;
    if i.Transfer? {
      Hook.OrderWrittenOut(v, Hook.Transfer(r, i.amount, clock.slot, clock.now, i.sysvar));
    }
  }

  /** One transaction moves the stored daily record as its event moves the record. */
  lemma DailyFollows(store: Store, tx: Tx, s: Key, m: Key)
    requires AllCanonical(store) && tx.instr.sender != ZERO_KEY
    ensures var e, d := EventOf(store, tx, s, m), DailyAt(store, s, m);
            && DailyAt(Commit(store, tx), s, m) == (if e == None then d else DailyLimit.Step(s, m, d, e.value))
            && Moved(store, tx, s, m) + Charged(store, tx, s, m) == (if e == None then 0 else DailyLimit.Approved(d, e.value))
            && (e.Some? ==> e.value.slot == tx.clock.slot)
            && (e.Some? && e.value.Limit? ==> tx.instr.SetLimit? && e.value.limit == tx.instr.limit)
  {
    hide AddressOf, AllCanonical, Exec, Step, DailyAt;
    var i, r0 := tx.instr, Recipient(store, tx.instr);
    CommitEvolves(store, tx);
    if Exec(store, i, tx.clock).Ok? {
      var v := View(store, i.sender, r0, i.mint);
      DailyOfStep(v, i, r0, tx.clock);
      assert View(Commit(store, tx), s, r0, m).daily == DailyAt(Commit(store, tx), s, m);
      assert View(store, s, r0, m).daily == DailyAt(store, s, m);
    }
  }

  /** Over a run the stored record is the rule's own run of the events, and nothing left
      the sender's account that those events did not approve. */
  lemma {:induction false} RunFollows(store: Store, txs: seq<Tx>, s: Key, m: Key, lo: int, hi: int)
    requires AllCanonical(store) && Signed(txs)
    ensures var es := DailyEvents(store, txs, s, m);
            && DailyAt(Run(store, txs), s, m) == DailyLimit.Run(s, m, DailyAt(store, s, m), es)
            && Sent(store, txs, s, m, lo, hi) + ChargedIn(store, txs, s, m, lo, hi) == DailyLimit.ApprovedIn(s, m, DailyAt(store, s, m), es, lo, hi)
    decreases |txs|
  {
    hide AddressOf, AllCanonical, Exec, EventOf, Moved, Charged, DailyAt, Commit;
    if txs != [] {
      var next := Commit(store, txs[0]);
      CommitEvolves(store, txs[0]);
      DailyFollows(store, txs[0], s, m);
      RunFollows(next, txs[1..], s, m, lo, hi);
      var e, rest := EventOf(store, txs[0], s, m), DailyEvents(next, txs[1..], s, m);
      if e.Some? {
        assert ([e.value] + rest)[1..] == rest;
      } else {
        assert [] + rest == rest;
      }
    }
  }

  ghost predicate InOrder(txs: seq<Tx>) {
    forall i, j :: 0 <= i < j < |txs| ==> txs[i].clock.slot <= txs[j].clock.slot
  }

  ghost predicate LimitsAtMost(txs: seq<Tx>, s: Key, m: Key, L: nat) {
    forall i :: 0 <= i < |txs| && txs[i].instr.SetLimit? && txs[i].instr.sender == s && txs[i].instr.mint == m
      ==> txs[i].instr.limit <= L
  }

  lemma EventFacts(store: Store, tx: Tx, s: Key, m: Key)
    ensures var e := EventOf(store, tx, s, m);
            e.Some? ==>
              && e.value.slot == tx.clock.slot
              && (e.value.Limit? ==> tx.instr.SetLimit? && tx.instr.sender == s && tx.instr.mint == m && tx.instr.limit == e.value.limit)
  {
    hide Exec;
  }

  ghost predicate NotBefore(es: seq<DailyLimit.Event>, slot: int) {
    forall j :: 0 <= j < |es| ==> slot <= es[j].slot
  }

  lemma TailInOrder(txs: seq<Tx>, s: Key, m: Key, L: nat)
    requires InOrder(txs) && LimitsAtMost(txs, s, m, L) && txs != []
    ensures InOrder(txs[1..]) && LimitsAtMost(txs[1..], s, m, L)
    ensures |txs| > 1 ==> txs[0].clock.slot <= txs[1..][0].clock.slot
  {
    assert forall i :: 0 <= i < |txs[1..]| ==> txs[1..][i] == txs[i + 1];
  }

  lemma {:induction false} EventsInOrder(store: Store, txs: seq<Tx>, s: Key, m: Key, L: nat)
    requires InOrder(txs) && LimitsAtMost(txs, s, m, L)
    ensures var es := DailyEvents(store, txs, s, m);
            && DailyLimit.Ordered(es) && DailyLimit.LimitsAtMost(es, L)
            && (txs != [] ==> NotBefore(es, txs[0].clock.slot))
    decreases |txs|
  {
    hide EventOf, Commit;
    if txs != [] {
      hide InOrder, DailyLimit.Ordered, DailyLimit.LimitsAtMost;
      var next := Commit(store, txs[0]);
      TailInOrder(txs, s, m, L);
      EventsInOrder(next, txs[1..], s, m, L);
      EventFacts(store, txs[0], s, m);
      EventsCons(EventOf(store, txs[0], s, m), DailyEvents(next, txs[1..], s, m), txs[0].clock.slot, L);
    }
  }

  lemma EventsCons(e: Option<DailyLimit.Event>, rest: seq<DailyLimit.Event>, slot: int, L: nat)
    requires DailyLimit.Ordered(rest) && DailyLimit.LimitsAtMost(rest, L) && NotBefore(rest, slot)
    requires e.Some? ==> e.value.slot == slot && (e.value.Limit? ==> e.value.limit <= L)
    ensures var es := (if e.Some? then [e.value] else []) + rest;
            DailyLimit.Ordered(es) && DailyLimit.LimitsAtMost(es, L) && NotBefore(es, slot)
  {
  }

  lemma OwnDaily(store: Store, s: Key, m: Key)
    requires AllCanonical(store)
    ensures var d := DailyAt(store, s, m); d.Some? ==> d.value.sender == s
  {
    hide AddressOf, DecodeDaily;
    assert Canonical(store, DailySlot(s, m));
  }

  /** The whole system's guarantee: from any canonical store where s has no limit or one of
      at most L, whatever was spent before, and whatever anyone does, the transfers out of
      s's account in mint m while a limit is set sum to at most (k + 1) * L over any k days
      of slots, as long as s sets no limit above L. */
  lemma SpendingBound(store: Store, txs: seq<Tx>, s: Key, m: Key, L: nat, lo: int, k: nat)
    requires AllCanonical(store) && Signed(txs) && InOrder(txs) && s != ZERO_KEY
    requires LimitsAtMost(txs, s, m, L)
    requires var d := DailyAt(store, s, m);
             d.Some? ==> d.value.limit <= L && (txs != [] ==> d.value.windowStart <= txs[0].clock.slot)
    ensures Sent(store, txs, s, m, lo, lo + k * 216_000) <= (k + 1) * L
  {
    hide AddressOf, AllCanonical, DailyAt, Sent, DailyEvents, Run, Signed, InOrder, LimitsAtMost;
    hide DailyLimit.ApprovedIn, DailyLimit.Run, DailyLimit.Ordered, DailyLimit.LimitsAtMost;
    var hi := lo + k * DailyLimit.SLOTS_PER_DAY;
    var d, es := DailyAt(store, s, m), DailyEvents(store, txs, s, m);
    OwnDaily(store, s, m);
    RunFollows(store, txs, s, m, lo, hi);
    EventsInOrder(store, txs, s, m, L);
    if d.Some? && txs == [] {
      NoEvents(store, s, m);
    }
    DailyLimit.IntervalBound(s, m, d, es, L, lo, k);
  }

  lemma NoEvents(store: Store, s: Key, m: Key)
    ensures DailyEvents(store, [], s, m) == []
  {
  }

  lemma {:induction false} EventsUpTo(store: Store, txs: seq<Tx>, s: Key, m: Key, now: int)
    requires forall i :: 0 <= i < |txs| ==> txs[i].clock.slot <= now
    ensures forall j :: 0 <= j < |DailyEvents(store, txs, s, m)| ==> DailyEvents(store, txs, s, m)[j].slot <= now
    decreases |txs|
  {
    hide Exec, Commit;
    if txs != [] {
      EventsUpTo(Commit(store, txs[0]), txs[1..], s, m, now);
    }
  }

  /** The same from the limit in force: whatever limits s had during `before`, from the
      moment the one in force is at most L and none above L follows, L is what counts. */
  lemma SpendingBoundFromNow(store: Store, before: seq<Tx>, txs: seq<Tx>, s: Key, m: Key, L: nat, lo: int, k: nat)
    requires AllCanonical(store) && DailyAt(store, s, m) == None && s != ZERO_KEY
    requires Signed(before) && Signed(txs) && InOrder(before + txs) && LimitsAtMost(txs, s, m, L)
    requires var d := DailyAt(Run(store, before), s, m); d.Some? ==> d.value.limit <= L
    ensures Sent(Run(store, before), txs, s, m, lo, lo + k * 216_000) <= (k + 1) * L
  {
    hide AddressOf, AllCanonical, DailyAt, Sent, DailyEvents, Run, LimitsAtMost, DailyLimit.Run, DailyLimit.ApprovedIn;
    RunFollows(store, before, s, m, lo, lo);
    RunCanonical(store, before);
    assert InOrder(txs) by {
      forall i, j | 0 <= i < j < |txs| ensures txs[i].clock.slot <= txs[j].clock.slot {
        assert txs[i] == (before + txs)[|before| + i] && txs[j] == (before + txs)[|before| + j];
      }
    }
    if txs != [] {
      var now := txs[0].clock.slot;
      forall i | 0 <= i < |before| ensures before[i].clock.slot <= now {
        assert before[i] == (before + txs)[i] && txs[0] == (before + txs)[|before|];
      }
      EventsUpTo(store, before, s, m, now);
      DailyLimit.WindowHasStarted(s, m, None, DailyEvents(store, before, s, m), now);
    }
    SpendingBound(Run(store, before), txs, s, m, L, lo, k);
  }

  /** The total kept for the current window is what committed transfers moved in it plus what
      approved direct checks were made for, on top of the total the run started with if the
      window was open then. So it is what was transferred exactly when no direct check of a
      positive amount was approved in the window. */
  lemma TotalIsTransfersAndChecks(store: Store, txs: seq<Tx>, s: Key, m: Key, hi: int)
    requires AllCanonical(store) && Signed(txs) && InOrder(txs) && s != ZERO_KEY
    requires forall i :: 0 <= i < |txs| ==> txs[i].clock.slot < hi
    requires var d := DailyAt(store, s, m); d.Some? && txs != [] ==> d.value.windowStart <= txs[0].clock.slot
    ensures var d, e := DailyAt(store, s, m), DailyAt(Run(store, txs), s, m);
            e.Some? ==>
              var w := e.value.windowStart;
              var base := if d.Some? && d.value.windowStart == w then d.value.spent else 0;
              && e.value.spent == base + Sent(store, txs, s, m, w, hi) + ChargedIn(store, txs, s, m, w, hi)
              && (e.value.spent == base + Sent(store, txs, s, m, w, hi) <==>
                   forall k :: 0 <= k < |txs| && txs[k].clock.slot >= w ==> Charged(Run(store, txs[..k]), txs[k], s, m) == 0)
  {
    hide AddressOf, AllCanonical, DailyAt, Sent, ChargedIn, DailyEvents, Signed, LimitsAtMost, Charged, Run;
    hide DailyLimit.ApprovedIn, DailyLimit.Run, DailyLimit.Ordered, InOrder;
    var d, e := DailyAt(store, s, m), DailyAt(Run(store, txs), s, m);
    if e.Some? {
      var w, es := e.value.windowStart, DailyEvents(store, txs, s, m);
      OwnDaily(store, s, m);
      RunFollows(store, txs, s, m, w, hi);
      AnyLimit(txs, s, m);
      EventsInOrder(store, txs, s, m, U64_RANGE);
      EventsUpTo(store, txs, s, m, hi - 1);
      if txs == [] {
        NoEvents(store, s, m);
      }
      DailyLimit.WindowTotal(s, m, d, es, w, hi);
      NothingCharged(store, txs, s, m, w, hi);
    }
  }

  lemma AnyLimit(txs: seq<Tx>, s: Key, m: Key)
    ensures LimitsAtMost(txs, s, m, U64_RANGE)
  {
  }

  /** A sum of charges is zero exactly when each is. */
  lemma {:induction false} NothingCharged(store: Store, txs: seq<Tx>, s: Key, m: Key, lo: int, hi: int)
    requires forall i :: 0 <= i < |txs| ==> txs[i].clock.slot < hi
    ensures ChargedIn(store, txs, s, m, lo, hi) == 0 <==>
              forall k :: 0 <= k < |txs| && txs[k].clock.slot >= lo ==> Charged(Run(store, txs[..k]), txs[k], s, m) == 0
    decreases |txs|
  {
    hide Charged, Commit;
    if txs != [] {
      var next, rest := Commit(store, txs[0]), txs[1..];
      NothingCharged(next, rest, s, m, lo, hi);
      assert Run(store, txs[..0]) == store;
      forall k | 0 <= k < |rest| ensures rest[k] == txs[k + 1] && Run(next, rest[..k]) == Run(store, txs[..k + 1]) {
        assert txs[..k + 1][1..] == rest[..k];
      }
      if forall k :: 0 <= k < |rest| && rest[k].clock.slot >= lo ==> Charged(Run(next, rest[..k]), rest[k], s, m) == 0 {
        forall k | 0 < k < |txs| && txs[k].clock.slot >= lo ensures Charged(Run(store, txs[..k]), txs[k], s, m) == 0 {
          assert rest[k - 1] == txs[k] && Run(next, rest[..k - 1]) == Run(store, txs[..k]);
        }
      } else {
        var k :| 0 <= k < |rest| && rest[k].clock.slot >= lo && Charged(Run(next, rest[..k]), rest[k], s, m) != 0;
        assert txs[k + 1] == rest[k];
      }
    }
  }

  // ---- The limit in force ------------------------------------------------------------------------

  /** What s asked of its limit for mint m, granted or not. */
  function LimitRequest(tx: Tx, s: Key, m: Key): seq<DailyLimit.Event> {
    var i := tx.instr;
    if i.SetLimit? && i.sender == s && i.mint == m then [DailyLimit.Limit(tx.clock.slot, i.limit, i.bump)] else []
  }

  function LimitRequests(txs: seq<Tx>, s: Key, m: Key): seq<DailyLimit.Event>
    decreases |txs|
  {
    if txs == [] then [] else LimitRequest(txs[0], s, m) + LimitRequests(txs[1..], s, m)
  }

  lemma CommitLimit(store: Store, tx: Tx, s: Key, m: Key)
    requires AllCanonical(store) && tx.instr.sender != ZERO_KEY && s != ZERO_KEY
    ensures DailyLimit.LimitOf(DailyAt(Commit(store, tx), s, m))
         == DailyLimit.InForce(DailyLimit.LimitOf(DailyAt(store, s, m)), LimitRequest(tx, s, m))
  {
    hide AddressOf, AllCanonical, DailyAt, Exec, Commit, View, Evolves;
    var i, r0, d := tx.instr, Recipient(store, tx.instr), DailyAt(store, s, m);
    OneLimit(DailyLimit.LimitOf(d), tx, s, m);
    OwnDaily(store, s, m);
    DailyFollows(store, tx, s, m);
    if i.SetLimit? && i.sender == s && i.mint == m && Exec(store, i, tx.clock).Err? {
      ExecRefines(store, i, tx.clock);
      LimitRefused(View(store, s, r0, m), i, r0, tx.clock);
    }
  }

  lemma OneLimit(start: Option<u64>, tx: Tx, s: Key, m: Key)
    ensures DailyLimit.InForce(start, LimitRequest(tx, s, m))
         == if LimitRequest(tx, s, m) != [] && tx.instr.limit > 0 then Some(tx.instr.limit) else start
  {
    var es := LimitRequest(tx, s, m);
    if es != [] {
      assert es[..0] == [];
      assert DailyLimit.InForce(start, []) == start;
    }
  }

  lemma LimitRefused(v: Hook.RuleState, i: Instr, r: Key, clock: Clock)
    requires i.SetLimit? && Step(v, i, r, clock).Err?
    ensures i.limit == 0
  {
  }

  lemma {:induction false} InForceAppend(start: Option<u64>, a: seq<DailyLimit.Event>, b: seq<DailyLimit.Event>)
    ensures DailyLimit.InForce(start, a + b) == DailyLimit.InForce(DailyLimit.InForce(start, a), b)
    decreases |b|
  {
    if b == [] {
      assert a + b == a;
    } else {
      var last := |b| - 1;
      assert (a + b)[..|a + b| - 1] == a + b[..last];
      InForceAppend(start, a, b[..last]);
    }
  }

  /** Over any run the stored limit is the last positive one its owner asked for. */
  lemma {:induction false} LimitFollows(store: Store, txs: seq<Tx>, s: Key, m: Key)
    requires AllCanonical(store) && Signed(txs) && s != ZERO_KEY
    ensures DailyLimit.LimitOf(DailyAt(Run(store, txs), s, m))
         == DailyLimit.InForce(DailyLimit.LimitOf(DailyAt(store, s, m)), LimitRequests(txs, s, m))
    decreases |txs|
  {
    hide AddressOf, AllCanonical, DailyAt, Commit, DailyLimit.LimitOf, LimitRequest;
    if txs != [] {
      CommitEvolves(store, txs[0]);
      CommitLimit(store, txs[0], s, m);
      LimitFollows(Commit(store, txs[0]), txs[1..], s, m);
      InForceAppend(DailyLimit.LimitOf(DailyAt(store, s, m)), LimitRequest(txs[0], s, m), LimitRequests(txs[1..], s, m));
    }
  }

  /** When the current window opened: with the first positive limit asked for, then with each
      check that passes, a transfer's or anybody's, a day of slots or more after the last. */
  function Opened(start: Option<u64>, store: Store, txs: seq<Tx>, s: Key, m: Key): Option<u64>
    decreases |txs|
  {
    if txs == [] then start
    else
      var i, slot := txs[0].instr, txs[0].clock.slot;
      var own := i.sender == s && i.mint == m;
      var next :=
        if own && i.SetLimit? && i.limit > 0 && start == None then Some(slot)
        else if own && (i.Transfer? || i.CheckDaily?) && Exec(store, i, txs[0].clock).Ok?
                && start.Some? && slot >= start.value + 216_000 then Some(slot)
        else start;
      Opened(next, Commit(store, txs[0]), txs[1..], s, m)
  }

  function WindowAt(store: Store, s: Key, m: Key): Option<u64> {
    var d := DailyAt(store, s, m);
    if d == None then None else Some(d.value.windowStart)
  }

  lemma CommitWindow(store: Store, tx: Tx, s: Key, m: Key)
    requires AllCanonical(store) && tx.instr.sender != ZERO_KEY && s != ZERO_KEY
    ensures var i, slot, start := tx.instr, tx.clock.slot, WindowAt(store, s, m);
            var own := i.sender == s && i.mint == m;
            WindowAt(Commit(store, tx), s, m)
              == if own && i.SetLimit? && i.limit > 0 && start == None then Some(slot)
                 else if own && (i.Transfer? || i.CheckDaily?) && Exec(store, i, tx.clock).Ok?
                         && start.Some? && slot >= start.value + 216_000 then Some(slot)
                 else start
  {
    hide AddressOf, AllCanonical, DailyAt, Exec, Commit, View, Evolves;
    var i, r0 := tx.instr, Recipient(store, tx.instr);
    OwnDaily(store, s, m);
    DailyFollows(store, tx, s, m);
    if i.SetLimit? && i.sender == s && i.mint == m && Exec(store, i, tx.clock).Err? {
      ExecRefines(store, i, tx.clock);
      LimitRefused(View(store, s, r0, m), i, r0, tx.clock);
    } else if i.sender == s && i.mint == m && (i.Transfer? || i.CheckDaily?) && Exec(store, i, tx.clock).Ok? {
      SpendPassed(store, tx, s, m);
    }
  }

  lemma SpendPassed(store: Store, tx: Tx, s: Key, m: Key)
    requires AllCanonical(store) && tx.instr.sender == s && tx.instr.mint == m && s != ZERO_KEY
    requires tx.instr.Transfer? || tx.instr.CheckDaily?
    ensures Exec(store, tx.instr, tx.clock).Ok? ==>
              DailyLimit.CheckOpt(DailyAt(store, s, m), tx.instr.amount, tx.clock.slot).Ok?
  {
    hide AddressOf, AllCanonical, DailyAt, Exec, Step, Evolves;
    CommitEvolves(store, tx);
    if Exec(store, tx.instr, tx.clock).Ok? {
      DailyOfStep(View(store, s, Recipient(store, tx.instr), m), tx.instr, Recipient(store, tx.instr), tx.clock);
    }
  }

  lemma {:induction false} WindowFollows(store: Store, txs: seq<Tx>, s: Key, m: Key)
    requires AllCanonical(store) && Signed(txs) && s != ZERO_KEY
    ensures WindowAt(Run(store, txs), s, m) == Opened(WindowAt(store, s, m), store, txs, s, m)
    decreases |txs|
  {
    hide AddressOf, AllCanonical, Exec, Commit, WindowAt;
    if txs != [] {
      CommitEvolves(store, txs[0]);
      CommitWindow(store, txs[0], s, m);
      WindowFollows(Commit(store, txs[0]), txs[1..], s, m);
    }
  }

  /** What counts against the limit at a slot: what transfers moved and checks charged since
      the window opened, if it is still open then. */
  function Used(store: Store, txs: seq<Tx>, s: Key, m: Key, slot: int): nat {
    var w := Opened(None, store, txs, s, m);
    if w == None || slot >= w.value + 216_000 then 0
    else Sent(store, txs, s, m, w.value, slot + 1) + ChargedIn(store, txs, s, m, w.value, slot + 1)
  }

  /** When the rule lets the next check pass, in terms of the requests and of what moved: with
      no limit asked for, or while the limit last asked for has room for the amount. */
  lemma NextCheckPasses(store: Store, txs: seq<Tx>, s: Key, m: Key, amount: u64, slot: u64)
    requires AllCanonical(store) && Signed(txs) && InOrder(txs) && s != ZERO_KEY && DailyAt(store, s, m) == None
    requires forall i :: 0 <= i < |txs| ==> txs[i].clock.slot <= slot
    ensures var limit := DailyLimit.InForce(None, LimitRequests(txs, s, m));
            DailyLimit.CheckOpt(DailyAt(Run(store, txs), s, m), amount, slot).Ok? <==>
              (limit.Some? ==> Used(store, txs, s, m, slot) + amount <= limit.value)
  {
    hide AddressOf, AllCanonical, DailyAt, Sent, ChargedIn, Signed, Run, LimitRequests, DailyLimit.InForce, InOrder, Opened;
    LimitFollows(store, txs, s, m);
    WindowFollows(store, txs, s, m);
    TotalIsTransfersAndChecks(store, txs, s, m, slot + 1);
  }

  /** A direct check gets the rule's own verdict, whoever makes it. */
  lemma DirectCheck(store: Store, s: Key, m: Key, amount: u64, clock: Clock)
    requires AllCanonical(store)
    ensures Exec(store, CheckDaily(s, m, amount), clock).Ok? <==> DailyLimit.CheckOpt(DailyAt(store, s, m), amount, clock.slot).Ok?
  {
    hide AddressOf, DailyAt;
    assert Canonical(store, DailySlot(s, m));
    DailyRefines(store, s, m, amount, clock.slot);
  }
}
