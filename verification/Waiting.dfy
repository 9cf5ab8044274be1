/**
 * The cool-off, end to end: how committed large transfers are spaced over any run of the
 * chain, and what its stored time stands for. Large means at or above the threshold that
 * the owner last asked for.
 */
module Waiting {
  import opened Base
  import opened Addresses
  import opened Records
  import opened Ledger
  import opened Chain
  import Cooloff
  import Hook

  /** Threshold and duration in force; nothing while the rule is off. */
  type Terms = Option<(u64, i64)>

  function TermsAt(store: Store, s: Key, m: Key): Terms {
    Cooloff.Terms(CoolingAt(store, s, m))
  }

  /** What an instruction, granted or not, makes of the terms of s's rule for mint m. */
  function Asked(terms: Terms, tx: Tx, s: Key, m: Key): Terms {
    var i := tx.instr;
    if i.sender != s || i.mint != m then terms
    else if i.SetCooloff? then Cooloff.Asked(terms, Cooloff.Set(tx.clock.now, i.threshold, i.duration, i.bump))
    else if i.DisableCooloff? then Cooloff.Asked(terms, Cooloff.Disable(tx.clock.now))
    else terms
  }

  /** The terms in force, read off the requests from the last one back. */
  function InForce(start: Terms, txs: seq<Tx>, s: Key, m: Key): Terms {
    if txs == [] then start else Asked(InForce(start, txs[..|txs| - 1], s, m), txs[|txs| - 1], s, m)
  }

  lemma {:induction false} InForceCons(start: Terms, txs: seq<Tx>, s: Key, m: Key)
    requires txs != []
    ensures InForce(start, txs, s, m) == InForce(Asked(start, txs[0], s, m), txs[1..], s, m)
    decreases |txs|
  {
    hide Asked;
    if |txs| > 1 {
      var last := |txs| - 1;
      InForceCons(start, txs[..last], s, m);
      assert txs[..last][1..] == txs[1..][..last - 1];
    } else {
      assert txs[..0] == [] && txs[1..] == [];
    }
  }

  /** A committed check at or above the threshold in force, by a transfer of s's or by anyone. */
  predicate Counted(terms: Terms, store: Store, tx: Tx, s: Key, m: Key) {
    var i := tx.instr;
    && (i.Transfer? || i.CheckCooloff?) && i.sender == s && i.mint == m
    && Exec(store, i, tx.clock).Ok? && terms.Some? && i.amount >= terms.value.0
  }

  /** A committed transfer out of s's account in mint m at or above the threshold in force. */
  predicate Large(terms: Terms, store: Store, tx: Tx, s: Key, m: Key) {
    tx.instr.Transfer? && Counted(terms, store, tx, s, m)
  }

  predicate Disables(tx: Tx, s: Key, m: Key) {
    tx.instr.DisableCooloff? && tx.instr.sender == s && tx.instr.mint == m
  }

  /** The duration in force, if any, is at least d. */
  predicate AtLeast(terms: Terms, d: int) {
    terms.Some? ==> terms.value.1 >= d
  }

  /** A configuration by s that the program accepts, with a duration below d. */
  predicate Shortens(tx: Tx, s: Key, m: Key, d: int) {
    var i := tx.instr;
    && i.SetCooloff? && i.sender == s && i.mint == m
    && Cooloff.Shortens(Cooloff.Set(tx.clock.now, i.threshold, i.duration, i.bump), d)
  }

  /** The rule remembers a large transfer at `since` or later. */
  predicate Remembers(store: Store, s: Key, m: Key, since: int) {
    var c := CoolingAt(store, s, m);
    c.Some? && c.value.lastLarge >= since
  }

  /** The cool-off component of a step; a step that fails leaves it. */
  lemma CoolingOfStep(v: Hook.RuleState, i: Instr, r: Key, clock: Clock)
    requires Step(v, i, r, clock).Ok?
    ensures var c := Step(v, i, r, clock).value.cooling;
            if i.SetCooloff? then
              var e := Cooloff.Configure(v.cooling, i.sender, i.mint, i.threshold, i.duration, i.bump);
              e.Ok? && c == Some(e.value)
            else if i.DisableCooloff? then c == None
            else if i.CheckCooloff? || i.Transfer? then Cooloff.CheckOpt(v.cooling, i.amount, clock.now) == Ok(c)
            else c == v.cooling
  {
    hide Cooloff.CheckOpt;
    if i.Transfer? {
      Hook.OrderWrittenOut(v, Hook.Transfer(r, i.amount, clock.slot, clock.now, i.sysvar));
    }
  }

  /** One transaction moves the stored record as the rule moves it, and nothing else does. */
  lemma CommitCooling(store: Store, tx: Tx, s: Key, m: Key)
    requires AllCanonical(store) && tx.instr.sender != ZERO_KEY
    ensures var i, c, e := tx.instr, CoolingAt(store, s, m), CoolingAt(Commit(store, tx), s, m);
            if i.sender != s || i.mint != m then e == c
            else if i.SetCooloff? then
              e == (match Cooloff.Configure(c, s, m, i.threshold, i.duration, i.bump) case Ok(d) => Some(d) case Err(_) => c)
            else if i.DisableCooloff? then e == None
            else if (i.CheckCooloff? || i.Transfer?) && Exec(store, i, tx.clock).Ok? then
              Cooloff.CheckOpt(c, i.amount, tx.clock.now) == Ok(e)
            else e == c
  {
    hide AddressOf, AllCanonical, Exec, Step, CoolingAt, View, Evolves, Cooloff.Configure, Cooloff.CheckOpt;
    var i, r0 := tx.instr, Recipient(store, tx.instr);
    var v := View(store, i.sender, r0, i.mint);
    ViewCooling(store, s, r0, m);
    ViewCooling(Commit(store, tx), s, r0, m);
    CommitEvolves(store, tx);
    if Exec(store, i, tx.clock).Ok? {
      CoolingOfStep(v, i, r0, tx.clock);
      EvolvedCooling(store, Commit(store, tx), i.sender, i.mint, r0, Step(v, i, r0, tx.clock).value, s, m);
    } else if i.SetCooloff? || i.DisableCooloff? {
      ExecRefines(store, i, tx.clock);
      RefusedSetting(v, i, r0, tx.clock);
    }
  }

  lemma ViewCooling(store: Store, s: Key, r: Key, m: Key)
    ensures View(store, s, r, m).cooling == CoolingAt(store, s, m)
  {
  }

  lemma EvolvedCooling(a: Store, b: Store, s0: Key, m0: Key, r0: Key, u: Hook.RuleState, s: Key, m: Key)
    requires Evolves(a, b, s0, m0, r0, u)
    ensures View(b, s, r0, m).cooling == if s == s0 && m == m0 then u.cooling else View(a, s, r0, m).cooling
  {
    hide View;
  }

  lemma RefusedSetting(v: Hook.RuleState, i: Instr, r: Key, clock: Clock)
    requires (i.SetCooloff? || i.DisableCooloff?) && Step(v, i, r, clock).Err?
    ensures i.SetCooloff? ==> Cooloff.Configure(v.cooling, i.sender, i.mint, i.threshold, i.duration, i.bump).Err?
    ensures i.DisableCooloff? ==> v.cooling == None
  {
    hide Cooloff.Configure;
  }

  lemma OwnCooling(store: Store, s: Key, m: Key)
    requires AllCanonical(store)
    ensures var c := CoolingAt(store, s, m); c.Some? ==> c.value.sender == s
  {
    hide AddressOf, DecodeCooling;
    assert Canonical(store, CoolSlot(s, m));
  }

  /** What one transaction does to terms and memory. The zero key cannot be a sender: the
      programs take a record with that sender for a blank one and start it afresh. */
  lemma CommitRemembers(store: Store, tx: Tx, s: Key, m: Key, since: int)
    requires AllCanonical(store) && tx.instr.sender != ZERO_KEY && s != ZERO_KEY
    ensures var terms := TermsAt(store, s, m);
            && TermsAt(Commit(store, tx), s, m) == Asked(terms, tx, s, m)
            && (AtLeast(terms, 0) && Remembers(store, s, m, since) && !Disables(tx, s, m) ==> Remembers(Commit(store, tx), s, m, since))
            && (Counted(terms, store, tx, s, m) ==>
                 && Remembers(Commit(store, tx), s, m, tx.clock.now)
                 && (Remembers(store, s, m, since) ==> tx.clock.now - since >= terms.value.1))
  {
    hide AddressOf, AllCanonical, Exec, CoolingAt, Commit;
    CommitCooling(store, tx, s, m);
    OwnCooling(store, s, m);
  }

  /** Over any run the stored terms are the last valid ones asked for, unless a disable came after. */
  lemma {:induction false} TermsFollow(store: Store, txs: seq<Tx>, s: Key, m: Key)
    requires AllCanonical(store) && Signed(txs) && s != ZERO_KEY
    ensures AllCanonical(Run(store, txs))
    ensures TermsAt(Run(store, txs), s, m) == InForce(TermsAt(store, s, m), txs, s, m)
    decreases |txs|
  {
    hide AddressOf, AllCanonical, Commit, TermsAt, Asked, InForce;
    if txs != [] {
      CommitEvolves(store, txs[0]);
      CommitRemembers(store, txs[0], s, m, 0);
      TermsFollow(Commit(store, txs[0]), txs[1..], s, m);
      InForceCons(TermsAt(store, s, m), txs, s, m);
    } else {
      NothingAsked(TermsAt(store, s, m), s, m);
    }
  }

  lemma NothingAsked(terms: Terms, s: Key, m: Key)
    ensures InForce(terms, [], s, m) == terms
  {
  }

  lemma AskedAtLeast(terms: Terms, tx: Tx, s: Key, m: Key, d: int)
    requires AtLeast(terms, d) && !Shortens(tx, s, m, d)
    ensures AtLeast(Asked(terms, tx, s, m), d)
  {
  }

  lemma {:induction false} RunRemembers(store: Store, txs: seq<Tx>, s: Key, m: Key, since: int)
    requires AllCanonical(store) && Signed(txs) && s != ZERO_KEY && AtLeast(TermsAt(store, s, m), 0)
    requires Remembers(store, s, m, since) && forall k :: 0 <= k < |txs| ==> !Disables(txs[k], s, m)
    ensures AllCanonical(Run(store, txs)) && Remembers(Run(store, txs), s, m, since)
    decreases |txs|
  {
    hide AddressOf, AllCanonical, Exec, Commit, TermsAt, Remembers, AtLeast, Asked;
    if txs != [] {
      CommitEvolves(store, txs[0]);
      CommitRemembers(store, txs[0], s, m, since);
      AskedAtLeast(TermsAt(store, s, m), txs[0], s, m, 0);
      RunRemembers(Commit(store, txs[0]), txs[1..], s, m, since);
    }
  }

  /** A check counts whoever makes it: after one at or above the threshold, no large transfer
      of s's commits before the duration then in force has passed, unless s disables the rule. */
  lemma ChecksDelayTransfers(store: Store, first: Tx, between: seq<Tx>, second: Tx, s: Key, m: Key)
    requires AllCanonical(store) && first.instr.sender != ZERO_KEY && Signed(between) && s != ZERO_KEY
    requires AtLeast(TermsAt(store, s, m), 0) && forall k :: 0 <= k < |between| ==> !Disables(between[k], s, m)
    ensures var later, terms := Run(Commit(store, first), between), TermsAt(store, s, m);
            var due := InForce(terms, between, s, m);
            Counted(terms, store, first, s, m) && Large(due, later, second, s, m) ==>
              second.clock.now - first.clock.now >= due.value.1
  {
    hide AddressOf, AllCanonical, Exec, Commit, Run, Remembers, AtLeast, TermsAt, InForce;
    var later, terms := Run(Commit(store, first), between), TermsAt(store, s, m);
    if Counted(terms, store, first, s, m) && Large(InForce(terms, between, s, m), later, second, s, m) {
      CommitEvolves(store, first);
      CommitRemembers(store, first, s, m, first.clock.now);
      assert TermsAt(Commit(store, first), s, m) == terms;
      TermsFollow(Commit(store, first), between, s, m);
      RunRemembers(Commit(store, first), between, s, m, first.clock.now);
      CommitRemembers(later, second, s, m, first.clock.now);
    }
  }

  function Timestamp(store: Store, s: Key, m: Key): i64 {
    var c := CoolingAt(store, s, m);
    if c.Some? then c.value.lastLarge else 0
  }

  lemma CommitTimestamp(store: Store, tx: Tx, s: Key, m: Key)
    requires AllCanonical(store) && tx.instr.sender != ZERO_KEY && s != ZERO_KEY
    ensures Timestamp(Commit(store, tx), s, m)
         == if Disables(tx, s, m) then 0
            else if Counted(TermsAt(store, s, m), store, tx, s, m) then tx.clock.now
            else Timestamp(store, s, m)
  {
    hide AddressOf, AllCanonical, Exec, CoolingAt, Commit;
    CommitCooling(store, tx, s, m);
    OwnCooling(store, s, m);
  }

  /** The time of the last committed check at or above the threshold in force, counting from
      the last disable; `start` if there was neither. */
  function LastCheck(start: i64, terms: Terms, store: Store, txs: seq<Tx>, s: Key, m: Key): i64
    decreases |txs|
  {
    if txs == [] then start
    else
      var tx := txs[0];
      var next := if Disables(tx, s, m) then 0 else if Counted(terms, store, tx, s, m) then tx.clock.now else start;
      LastCheck(next, Asked(terms, tx, s, m), Commit(store, tx), txs[1..], s, m)
  }

  /** The stored time is that of the last check at or above the threshold in force. It is that
      of the last large transfer only if that check was a transfer's. */
  lemma {:induction false} TimestampIsLastCheck(store: Store, txs: seq<Tx>, s: Key, m: Key)
    requires AllCanonical(store) && Signed(txs) && s != ZERO_KEY
    ensures Timestamp(Run(store, txs), s, m) == LastCheck(Timestamp(store, s, m), TermsAt(store, s, m), store, txs, s, m)
    decreases |txs|
  {
    hide AddressOf, AllCanonical, Exec, Commit, Counted, Timestamp, TermsAt, Asked;
    if txs != [] {
      CommitEvolves(store, txs[0]);
      CommitTimestamp(store, txs[0], s, m);
      CommitRemembers(store, txs[0], s, m, 0);
      TimestampIsLastCheck(Commit(store, txs[0]), txs[1..], s, m);
    }
  }

  /** The committed large transfers out of s's account in mint m: when, and the duration
      in force then. */
  function LargeLog(terms: Terms, store: Store, txs: seq<Tx>, s: Key, m: Key): seq<Cooloff.Large>
    decreases |txs|
  {
    if txs == [] then []
    else
      (if Large(terms, store, txs[0], s, m) then [Cooloff.Large(txs[0].clock.now, terms.value.1)] else [])
      + LargeLog(Asked(terms, txs[0], s, m), Commit(store, txs[0]), txs[1..], s, m)
  }

  /** The whole system's cool-off guarantee: over any run in which s does not disable the
      rule, whatever anyone does and however s reconfigures it, each committed large transfer
      comes at least the duration then in force after the one before. */
  lemma {:induction false} LargeTransfersSpaced(store: Store, txs: seq<Tx>, s: Key, m: Key, d: nat, since: int)
    requires AllCanonical(store) && Signed(txs) && s != ZERO_KEY && AtLeast(TermsAt(store, s, m), d)
    requires forall k :: 0 <= k < |txs| ==> !Disables(txs[k], s, m) && !Shortens(txs[k], s, m, d)
    ensures var log := LargeLog(TermsAt(store, s, m), store, txs, s, m);
            && Cooloff.Spaced(log) && Cooloff.LongEnough(log, d)
            && (Remembers(store, s, m, since) && |log| > 0 ==> log[0].at - since >= log[0].duration)
    decreases |txs|
  {
    hide AddressOf, AllCanonical, Exec, Commit, TermsAt, Remembers, Asked, Cooloff.Spaced;
    if txs != [] {
      var terms, next := TermsAt(store, s, m), Commit(store, txs[0]);
      CommitEvolves(store, txs[0]);
      CommitRemembers(store, txs[0], s, m, since);
      AskedAtLeast(terms, txs[0], s, m, d);
      var rest := LargeLog(Asked(terms, txs[0], s, m), next, txs[1..], s, m);
      if Large(terms, store, txs[0], s, m) {
        var first := Cooloff.Large(txs[0].clock.now, terms.value.1);
        LargeTransfersSpaced(next, txs[1..], s, m, d, first.at);
        Cooloff.SpacedCons(first, rest);
      } else {
        LargeTransfersSpaced(next, txs[1..], s, m, d, since);
        assert [] + rest == rest;
      }
    } else {
      NothingSpaced();
    }
  }

  lemma NothingSpaced()
    ensures Cooloff.Spaced([])
  {
  }

  /** So any n consecutive large transfers of the run take at least (n - 1) * d seconds when
      every duration in force is at least d. */
  lemma LargeTransferRate(store: Store, txs: seq<Tx>, s: Key, m: Key, d: nat, i: nat, j: nat)
    requires AllCanonical(store) && Signed(txs) && s != ZERO_KEY && AtLeast(TermsAt(store, s, m), d)
    requires forall k :: 0 <= k < |txs| ==> !Disables(txs[k], s, m) && !Shortens(txs[k], s, m, d)
    ensures var log := LargeLog(TermsAt(store, s, m), store, txs, s, m);
            i <= j < |log| ==> (j - i) * d <= log[j].at - log[i].at
  {
    hide AddressOf, AllCanonical, Signed, AtLeast, LargeLog;
    LargeTransfersSpaced(store, txs, s, m, d, 0);
    var log := LargeLog(TermsAt(store, s, m), store, txs, s, m);
    if i <= j < |log| {
      Cooloff.GapsAddUp(log, d, i, j);
    }
  }

  /** A direct check gets the rule's own verdict, whoever makes it. */
  lemma DirectCheck(store: Store, s: Key, m: Key, amount: u64, clock: Clock)
    requires AllCanonical(store)
    ensures Exec(store, CheckCooloff(s, m, amount), clock).Ok? <==> Cooloff.CheckOpt(CoolingAt(store, s, m), amount, clock.now).Ok?
  {
    hide AddressOf, CoolingAt;
    assert Canonical(store, CoolSlot(s, m));
    CoolRefines(store, s, m, amount, clock.now);
  }
}
