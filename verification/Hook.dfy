/**
 * The transfer hook: six rules run in sequence, two of which write state. Shown equal
 * to a conjunction on the state before, in any order, and related across amounts.
 */
module Hook {
  import opened Base
  import DailyLimit
  import BlockList
  import Cooloff
  import SlowSend
  import NightMode
  import FriendGate

  datatype Rule = Daily | Blocks | CoolOff | Slow | Night | Friend

  /** The hook's sequence of calls. */
  const ORDER: seq<Rule> := [Daily, Blocks, CoolOff, Slow, Night, Friend]

  /** What the six programs store about one sender, mint and recipient. */
  datatype RuleState = RuleState(
    daily: Option<DailyLimit.Daily>,
    blocks: Option<BlockList.Blocks>,
    cooling: Option<Cooloff.Cooling>,
    slow: Option<SlowSend.Config>,
    contact: Option<SlowSend.Contact>,
    night: Option<NightMode.Window>,
    gate: Option<FriendGate.Gate>)

  datatype Transfer = Transfer(recipient: Key, amount: u64, slot: u64, now: i64, sysvar: FriendGate.Sysvar)

  function Then(r: Result<()>, s: RuleState): Result<RuleState> {
    match r case Ok(_) => Ok(s) case Err(e) => Err(e)
  }

  /** One rule's check: its verdict, and the state it leaves. */
  function Apply(rule: Rule, s: RuleState, t: Transfer): Result<RuleState> {
    match rule
    case Daily =>
      (match DailyLimit.CheckOpt(s.daily, t.amount, t.slot) case Ok(d) => Ok(s.(daily := d)) case Err(e) => Err(e))
    case Blocks => Then(BlockList.CheckOpt(s.blocks, t.recipient), s)
    case CoolOff =>
      (match Cooloff.CheckOpt(s.cooling, t.amount, t.now) case Ok(c) => Ok(s.(cooling := c)) case Err(e) => Err(e))
    case Slow => Then(SlowSend.CheckOpt(s.slow, s.contact, t.now), s)
    case Night => Then(NightMode.CheckOpt(s.night, t.now), s)
    case Friend => Then(FriendGate.CheckOpt(s.gate, t.amount, t.sysvar), s)
  }

  /** Rules in sequence, each on the state the ones before left, with early exit. */
  function RunRules(order: seq<Rule>, s: RuleState, t: Transfer): Result<RuleState> {
    if order == [] then Ok(s)
    else
      match Apply(order[0], s, t)
      case Ok(u) => RunRules(order[1..], u, t)
      case Err(e) => Err(e)
  }

  predicate Passes(rule: Rule, s: RuleState, t: Transfer) {
    Apply(rule, s, t).Ok?
  }

  predicate Approves(s: RuleState, t: Transfer) {
    RunRules(ORDER, s, t).Ok?
  }

  // ---- Sequence equals conjunction --------------------------------------------

  function After(rule: Rule, s: RuleState, t: Transfer): RuleState {
    match Apply(rule, s, t) case Ok(u) => u case Err(_) => s
  }

  /** What the rules of `order`, all passing on s, commit. */
  function Commit(order: seq<Rule>, s: RuleState, t: Transfer): RuleState {
    s.(daily := if Daily in order then After(Daily, s, t).daily else s.daily,
       cooling := if CoolOff in order then After(CoolOff, s, t).cooling else s.cooling)
  }

  ghost predicate AllPass(order: seq<Rule>, s: RuleState, t: Transfer) {
    forall i :: 0 <= i < |order| ==> Passes(order[i], s, t)
  }

  /** Position i is the first to fail. */
  ghost predicate FirstFailure(order: seq<Rule>, s: RuleState, t: Transfer, i: nat, e: Error) {
    i < |order| && Apply(order[i], s, t) == Err(e) && AllPass(order[..i], s, t)
  }

  ghost predicate Distinct(order: seq<Rule>) {
    forall i, j :: 0 <= i < j < |order| ==> order[i] != order[j]
  }

  /** A rule neither affects nor is affected by a different rule that ran before. */
  lemma NoInterference(p: Rule, q: Rule, s: RuleState, t: Transfer)
    requires p != q && Passes(q, s, t)
    ensures var u := Apply(q, s, t).value;
            match Apply(p, s, t)
            case Err(e) => Apply(p, u, t) == Err(e)
            case Ok(v) => Apply(p, u, t) == Ok(u.(daily := if p == Daily then v.daily else u.daily,
                                                  cooling := if p == CoolOff then v.cooling else u.cooling))
  {
  }

  /** Any selection of the rules, each once, in any order: the sequence passes exactly
      when each rule passes on the state before, and then commits the same state;
      otherwise the first failing rule names the error. */
  lemma {:induction false} SequenceIsConjunction(order: seq<Rule>, s: RuleState, t: Transfer)
    requires Distinct(order)
    ensures RunRules(order, s, t).Ok? <==> AllPass(order, s, t)
    ensures match RunRules(order, s, t)
            case Ok(u) => u == Commit(order, s, t)
            case Err(e) => exists i: nat :: FirstFailure(order, s, t, i, e)
    decreases |order|
  {
    hide Apply;
    if order != [] {
      var q, rest := order[0], order[1..];
      if Passes(q, s, t) {
        var u := Apply(q, s, t).value;
        SequenceIsConjunction(rest, u, t);
        forall i | 0 <= i < |rest| ensures Passes(rest[i], u, t) == Passes(order[i + 1], s, t) {
          NoInterference(rest[i], q, s, t);
        }
        match RunRules(rest, u, t) {
          case Ok(_) => CommitStep(q, rest, s, t);
          case Err(e) =>
            var i: nat :| FirstFailure(rest, u, t, i, e);
            NoInterference(rest[i], q, s, t);
            assert forall j :: 0 <= j < i ==> Passes(rest[..i][j], u, t);
            assert FirstFailure(order, s, t, i + 1, e);
        }
      } else {
        assert FirstFailure(order, s, t, 0, Apply(q, s, t).error);
      }
    }
  }

  lemma CommitStep(q: Rule, rest: seq<Rule>, s: RuleState, t: Transfer)
    requires Passes(q, s, t) && q !in rest
    requires AllPass(rest, Apply(q, s, t).value, t)
    ensures Commit([q] + rest, s, t) == Commit(rest, Apply(q, s, t).value, t)
  {
    if Daily in rest {
      NoInterference(Daily, q, s, t);
    }
    if CoolOff in rest {
      NoInterference(CoolOff, q, s, t);
    }
  }

  lemma OccursTwice(order: seq<Rule>, i: nat, j: nat)
    requires i < j < |order| && order[i] == order[j]
    ensures multiset(order)[order[i]] >= 2
  {
    assert order == order[..i] + [order[i]] + order[i + 1..j] + [order[j]] + order[j + 1..];
  }

  lemma InOrder(rule: Rule)
    ensures rule in ORDER && multiset(ORDER)[rule] == 1
  {
  }

  /** The order of the six calls is immaterial to verdict and committed state. */
  lemma OrderIsImmaterial(order: seq<Rule>, s: RuleState, t: Transfer)
    requires multiset(order) == multiset(ORDER)
    ensures RunRules(order, s, t).Ok? == Approves(s, t)
    ensures Approves(s, t) ==> RunRules(order, s, t) == RunRules(ORDER, s, t)
  {
    hide RunRules, Apply, After;
    forall i, j | 0 <= i < j < |order| ensures order[i] != order[j] {
      InOrder(order[i]);
      if order[i] == order[j] {
        OccursTwice(order, i, j);
      }
    }
    forall r ensures r in order && r in ORDER {
      InOrder(r);
      assert r in multiset(order);
    }
    SequenceIsConjunction(order, s, t);
    SequenceIsConjunction(ORDER, s, t);
    if AllPass(order, s, t) {
      PassIsOrderFree(order, ORDER, s, t);
    }
    if AllPass(ORDER, s, t) {
      PassIsOrderFree(ORDER, order, s, t);
    }
  }

  lemma PassIsOrderFree(p: seq<Rule>, q: seq<Rule>, s: RuleState, t: Transfer)
    requires AllPass(p, s, t) && forall r :: r in q ==> r in p
    ensures AllPass(q, s, t)
  {
    forall i | 0 <= i < |q| ensures Passes(q[i], s, t) {
      assert q[i] in p;
    }
  }

  /** The six calls written out. */
  function SixCalls(s: RuleState, t: Transfer): Result<RuleState> {
    var daily :- DailyLimit.CheckOpt(s.daily, t.amount, t.slot);
    FiveCalls(s.(daily := daily), t)
  }

  function FiveCalls(s: RuleState, t: Transfer): Result<RuleState> {
    var _ :- BlockList.CheckOpt(s.blocks, t.recipient);
    var cooling :- Cooloff.CheckOpt(s.cooling, t.amount, t.now);
    var _ :- SlowSend.CheckOpt(s.slow, s.contact, t.now);
    var _ :- NightMode.CheckOpt(s.night, t.now);
    var _ :- FriendGate.CheckOpt(s.gate, t.amount, t.sysvar);
    Ok(s.(cooling := cooling))
  }

  lemma FirstThenRest(rule: Rule, rest: seq<Rule>, s: RuleState, t: Transfer)
    ensures RunRules([rule] + rest, s, t) == (var u :- Apply(rule, s, t); RunRules(rest, u, t))
  {
  }

  lemma OrderWrittenOut(s: RuleState, t: Transfer)
    ensures RunRules(ORDER, s, t) == SixCalls(s, t)
  {
    var a := After(Daily, s, t);
    var b := After(CoolOff, a, t);
    var friend := [Friend] + [];
    var night := [Night] + friend;
    var slow := [Slow] + night;
    var cool := [CoolOff] + slow;
    var blocks := [Blocks] + cool;
    assert ORDER == [Daily] + blocks;
    FirstThenRest(Daily, blocks, s, t);
    FirstThenRest(Blocks, cool, a, t);
    FirstThenRest(CoolOff, slow, a, t);
    FirstThenRest(Slow, night, b, t);
    FirstThenRest(Night, friend, b, t);
    FirstThenRest(Friend, [], b, t);
  }

  // ---- The conjunction in plain terms -----------------------------------------

  /** What was spent in the window the slot falls in. */
  function SpentAt(d: DailyLimit.Daily, slot: u64): nat {
    if slot >= d.windowStart + DailyLimit.SLOTS_PER_DAY then 0 else d.spent
  }

  /** The six conditions on the state before, stated without the programs' steps. */
  ghost predicate Allowed(s: RuleState, t: Transfer) {
    && (s.daily.Some? ==> SpentAt(s.daily.value, t.slot) + t.amount <= s.daily.value.limit)
    && t.recipient !in BlockList.Wallets(s.blocks)
    && (s.cooling.Some? && t.amount >= s.cooling.value.threshold ==>
          FitsI64(t.now - s.cooling.value.lastLarge) && t.now - s.cooling.value.lastLarge >= s.cooling.value.duration)
    && (s.slow.Some? ==>
          s.contact.Some? && FitsI64(t.now - s.contact.value.firstAt)
          && t.now - s.contact.value.firstAt >= s.slow.value.delay)
    && (s.night.Some? ==> !NightMode.InWindow(s.night.value.start, s.night.value.end, (t.now % 86_400) / 3600))
    && (s.gate.Some? && t.amount >= s.gate.value.threshold ==> FriendGate.Cosigned(t.sysvar, s.gate.value.friend))
  }

  lemma HookIsAllowed(s: RuleState, t: Transfer)
    ensures Approves(s, t) <==> Allowed(s, t)
    ensures Approves(s, t) ==>
              var u := RunRules(ORDER, s, t).value;
              && u == s.(daily := u.daily, cooling := u.cooling)
              && (s.daily.Some? ==> u.daily == Some(s.daily.value.(
                   spent := SpentAt(s.daily.value, t.slot) + t.amount,
                   windowStart := if t.slot >= s.daily.value.windowStart + DailyLimit.SLOTS_PER_DAY
                                  then t.slot else s.daily.value.windowStart)))
              && (s.cooling.Some? ==> u.cooling == Some(
                   if t.amount >= s.cooling.value.threshold then s.cooling.value.(lastLarge := t.now) else s.cooling.value))
              && (s.daily == None ==> u.daily == None) && (s.cooling == None ==> u.cooling == None)
  {
    hide RunRules, Apply, FriendGate.Cosigned, NightMode.Hour, BlockList.Find;
    OrderWrittenOut(s, t);
    NightMode.HourIsEuclidean(t.now);
    BlockList.CheckIsMembership(s.blocks, t.recipient);
  }

  // ---- Relations between runs -------------------------------------------------

  /** A smaller amount is never refused where a larger one passes. */
  lemma DownwardClosed(s: RuleState, t: Transfer, smaller: u64)
    requires Approves(s, t) && smaller <= t.amount
    ensures Approves(s, t.(amount := smaller))
  {
    HookIsAllowed(s, t);
    HookIsAllowed(s, t.(amount := smaller));
  }

  /** Splitting an approved transfer at one clock reading gets through exactly unless
      both halves are large for the cool-off; the daily record ends up the same. */
  lemma SplitTransfer(s: RuleState, t: Transfer, a: u64, b: u64)
    requires t.amount == a + b && Approves(s, t)
    requires s.cooling.Some? ==> s.cooling.value.duration >= Cooloff.MIN_DURATION
    ensures var first := RunRules(ORDER, s, t.(amount := a));
            && first.Ok?
            && var second := RunRules(ORDER, first.value, t.(amount := b));
               && (second.Ok? <==>
                    s.cooling == None || a < s.cooling.value.threshold || b < s.cooling.value.threshold)
               && (second.Ok? ==> second.value.daily == RunRules(ORDER, s, t).value.daily)
  {
    DownwardClosed(s, t, a);
    HookIsAllowed(s, t);
    HookIsAllowed(s, t.(amount := a));
    var u := RunRules(ORDER, s, t.(amount := a)).value;
    HookIsAllowed(u, t.(amount := b));
  }

  /** Sending a and then b at one clock reading: both go through. */
  predicate SplitPasses(s: RuleState, t: Transfer, a: u64, b: u64) {
    var first := RunRules(ORDER, s, t.(amount := a));
    first.Ok? && Approves(first.value, t.(amount := b))
  }

  predicate CooledDown(s: RuleState, t: Transfer)
    requires s.cooling.Some?
  {
    FitsI64(t.now - s.cooling.value.lastLarge) && t.now - s.cooling.value.lastLarge >= s.cooling.value.duration
  }

  /** What the split takes, on the state before: the daily limit sees the sum, the two
      thresholds see the parts. */
  ghost predicate SplitAllowed(s: RuleState, t: Transfer, a: u64, b: u64) {
    && (s.daily.Some? ==> SpentAt(s.daily.value, t.slot) + a + b <= s.daily.value.limit)
    && (s.cooling.Some? ==>
          var large := s.cooling.value.threshold;
          !(a >= large && b >= large) && (a >= large || b >= large ==> CooledDown(s, t)))
    && (s.gate.Some? && (a >= s.gate.value.threshold || b >= s.gate.value.threshold) ==>
          FriendGate.Cosigned(t.sysvar, s.gate.value.friend))
    && Allowed(s.(daily := None, cooling := None, gate := None), t)
  }

  lemma SplitExactly(s: RuleState, t: Transfer, a: u64, b: u64)
    requires s.cooling.Some? ==> s.cooling.value.duration >= Cooloff.MIN_DURATION
    ensures SplitPasses(s, t, a, b) <==> SplitAllowed(s, t, a, b)
  {
    hide RunRules, FriendGate.Cosigned, BlockList.Wallets, NightMode.InWindow;
    HookIsAllowed(s, t.(amount := a));
    if Approves(s, t.(amount := a)) {
      HookIsAllowed(RunRules(ORDER, s, t.(amount := a)).value, t.(amount := b));
    }
  }

  /** When splitting gets through what is refused whole: exactly when the split is allowed and
      the sum, but no part, meets the cool-off too soon or the gate without the friend. */
  lemma SplitBeatsWhole(s: RuleState, t: Transfer, a: u64, b: u64)
    requires t.amount == a + b
    requires s.cooling.Some? ==> s.cooling.value.duration >= Cooloff.MIN_DURATION
    ensures SplitPasses(s, t, a, b) && !Approves(s, t) <==>
              && SplitAllowed(s, t, a, b)
              && (|| (s.cooling.Some? && a < s.cooling.value.threshold && b < s.cooling.value.threshold
                      && a + b >= s.cooling.value.threshold && !CooledDown(s, t))
                  || (s.gate.Some? && a < s.gate.value.threshold && b < s.gate.value.threshold
                      && a + b >= s.gate.value.threshold && !FriendGate.Cosigned(t.sysvar, s.gate.value.friend)))
  {
    hide RunRules, FriendGate.Cosigned, BlockList.Wallets, NightMode.InWindow, SplitPasses;
    SplitExactly(s, t, a, b);
    HookIsAllowed(s, t);
  }
}
