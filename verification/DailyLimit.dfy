/**
 * The daily limit rule. The account remembers only the current window's start and
 * total, and rolls the window lazily, so the limit bounds a tumbling window. What
 * that guarantees over an arbitrary interval of slots is derived here from runs.
 */
module DailyLimit {
  import opened Base

  const SLOTS_PER_DAY: nat := 216_000

  datatype Daily = Daily(
    sender: Key, mint: Key, limit: u64, spent: u64, windowStart: u64, bump: byte)

  predicate Expired(d: Daily, slot: u64) {
    SatSub(slot, d.windowStart) >= SLOTS_PER_DAY
  }

  /** What a check that does not end in refusal makes of the record. */
  function Check(d: Daily, amount: u64, slot: u64): Result<Daily> {
    var w := if Expired(d, slot) then d.(spent := 0, windowStart := slot) else d;
    if w.spent + amount >= U64_RANGE then Err(Overflow)
    else if w.spent + amount > w.limit then Err(DailyLimitExceeded)
    else Ok(w.(spent := w.spent + amount))
  }

  /** The rule as the hook sees it: without a record it passes and stores nothing. */
  function CheckOpt(s: Option<Daily>, amount: u64, slot: u64): Result<Option<Daily>> {
    match s
    case None => Ok(None)
    case Some(d) =>
      match Check(d, amount, slot)
      case Ok(e) => Ok(Some(e))
      case Err(e) => Err(e)
  }

  const BLANK := Daily(ZERO_KEY, ZERO_KEY, 0, 0, 0, 0)

  function SetLimitTo(s: Option<Daily>, sender: Key, mint: Key, limit: u64, slot: u64, bump: byte): Result<Daily> {
    if limit == 0 then Err(ZeroLimit)
    else
      var d := if s.Some? then s.value else BLANK;
      var e := if d.sender == ZERO_KEY then Daily(sender, mint, d.limit, 0, slot, bump) else d;
      Ok(e.(limit := limit))
  }

  /** The Anchor account that `set_limit` and `check_transfer` work on. */
  class DailyLimitAccount {
    var initialized: bool
    var sender: Key
    var mint: Key
    var limit: u64
    var spent: u64
    var windowStart: u64
    var bump: byte

    ghost function State(): Option<Daily>
      reads this
    {
      if initialized then Some(Daily(sender, mint, limit, spent, windowStart, bump)) else None
    }

    constructor ()
      ensures State() == None
    {
      initialized := false;
      sender, mint, limit, spent, windowStart, bump := ZERO_KEY, ZERO_KEY, 0, 0, 0, 0;
    }

    method SetLimit(caller: Key, stedeMint: Key, newLimit: u64, slot: u64, newBump: byte)
      returns (r: Result<()>)
      modifies this
      ensures match SetLimitTo(old(State()), caller, stedeMint, newLimit, slot, newBump)
              case Ok(d) => r == Ok(()) && State() == Some(d)
              case Err(e) => r == Err(e) && State() == old(State())
    {
      if newLimit == 0 {
        return Err(ZeroLimit);
      }
      if !initialized {
        initialized := true;
        sender, mint, limit, spent, windowStart, bump := ZERO_KEY, ZERO_KEY, 0, 0, 0, 0;
      }
      if sender == ZERO_KEY {
        sender := caller;
        mint := stedeMint;
        windowStart := slot;
        spent := 0;
        bump := newBump;
      }
      limit := newLimit;
      return Ok(());
    }

    /** Works on a copy and writes it back last: a refusal does not persist the roll. */
    method CheckTransfer(amount: u64, slot: u64) returns (r: Result<()>)
      modifies this
      ensures match CheckOpt(old(State()), amount, slot)
              case Ok(s) => r == Ok(()) && State() == s
              case Err(e) => r == Err(e) && State() == old(State())
    {
      if !initialized {
        return Ok(());
      }
      var spentToday, start := spent, windowStart;
      if SatSub(slot, start) >= SLOTS_PER_DAY {
        spentToday := 0;
        start := slot;
      }
      if spentToday + amount >= U64_RANGE {
        return Err(Overflow);
      }
      if spentToday + amount > limit {
        return Err(DailyLimitExceeded);
      }
      spentToday := spentToday + amount;
      spent, windowStart := spentToday, start;
      return Ok(());
    }
  }

  // ---- Runs -------------------------------------------------------------------

  /** One instruction on the account of a fixed sender and mint. Every check counts,
      whether a transfer or a direct call caused it. */
  datatype Event = Limit(slot: u64, limit: u64, bump: byte) | Spend(slot: u64, amount: u64)

  function Step(who: Key, mint: Key, s: Option<Daily>, e: Event): Option<Daily> {
    match e
    case Limit(slot, limit, bump) =>
      (match SetLimitTo(s, who, mint, limit, slot, bump) case Ok(d) => Some(d) case Err(_) => s)
    case Spend(slot, amount) =>
      (match CheckOpt(s, amount, slot) case Ok(t) => t case Err(_) => s)
  }

  /** The amount an event spends under a limit that is in force. */
  function Approved(s: Option<Daily>, e: Event): nat {
    if e.Spend? && s.Some? && Check(s.value, e.amount, e.slot).Ok? then e.amount else 0
  }

  function Run(who: Key, mint: Key, s: Option<Daily>, es: seq<Event>): Option<Daily>
    decreases |es|
  {
    if es == [] then s else Run(who, mint, Step(who, mint, s, es[0]), es[1..])
  }

  /** Total approved, while a limit is in force, at slots in [lo, hi). */
  function ApprovedIn(who: Key, mint: Key, s: Option<Daily>, es: seq<Event>, lo: int, hi: int): nat
    decreases |es|
  {
    if es == [] then 0
    else
      (if lo <= es[0].slot < hi then Approved(s, es[0]) else 0)
      + ApprovedIn(who, mint, Step(who, mint, s, es[0]), es[1..], lo, hi)
  }

  ghost predicate Ordered(es: seq<Event>) {
    forall i, j :: 0 <= i < j < |es| ==> es[i].slot <= es[j].slot
  }

  ghost predicate LimitsAtMost(es: seq<Event>, L: nat) {
    forall i :: 0 <= i < |es| && es[i].Limit? ==> es[i].limit <= L
  }

  /** A record of the sender's own with a limit of at most L in force; more than L may
      have been spent in its window before the limit was lowered. */
  ghost predicate Bounded(s: Option<Daily>, who: Key, L: nat) {
    s.Some? ==> s.value.sender == who && s.value.limit <= L
  }

  /** L for each window that can open, D slots apart at least, in `len` slots. */
  function Worth(L: nat, len: int): nat {
    L * (if len <= 0 then 0 else (len + SLOTS_PER_DAY - 1) / SLOTS_PER_DAY)
  }

  /** The most that can still be approved in [lo, hi) from state s. */
  ghost function Budget(s: Option<Daily>, L: nat, lo: int, hi: int): int {
    match s
    case None => L + Worth(L, hi - lo)
    case Some(d) =>
      if d.windowStart >= hi then 0
      else if d.windowStart + SLOTS_PER_DAY > lo then SatSub(L, d.spent) + Worth(L, hi - d.windowStart - SLOTS_PER_DAY)
      else L + Worth(L, hi - lo)
  }

  lemma WorthMono(L: nat, a: int, b: int)
    requires a <= b
    ensures Worth(L, a) <= Worth(L, b)
  {
    var m := if a <= 0 then 0 else (a + SLOTS_PER_DAY - 1) / SLOTS_PER_DAY;
    var n := if b <= 0 then 0 else (b + SLOTS_PER_DAY - 1) / SLOTS_PER_DAY;
    assert L * n - L * m == L * (n - m) >= 0;
  }

  lemma WorthStep(L: nat, len: int)
    requires len > 0
    ensures Worth(L, len) == L + Worth(L, len - SLOTS_PER_DAY)
  {
    var n := (len + SLOTS_PER_DAY - 1) / SLOTS_PER_DAY;
    assert L * n == L + L * (n - 1);
  }

  lemma WorthOfDays(L: nat, k: nat)
    ensures L + Worth(L, k * SLOTS_PER_DAY) == (k + 1) * L
  {
    assert (k * SLOTS_PER_DAY + SLOTS_PER_DAY - 1) / SLOTS_PER_DAY == k;
  }

  /** One event spends no more than the budget falls. */
  lemma StepWithinBudget(who: Key, mint: Key, s: Option<Daily>, e: Event, L: nat, lo: int, hi: int)
    requires who != ZERO_KEY && Bounded(s, who, L)
    requires e.Limit? ==> e.limit <= L
    requires s.Some? ==> s.value.windowStart <= e.slot
    ensures var t := Step(who, mint, s, e);
            && Bounded(t, who, L)
            && (t.Some? ==> t.value.windowStart <= e.slot)
            && (if lo <= e.slot < hi then Approved(s, e) else 0) + Budget(t, L, lo, hi) <= Budget(s, L, lo, hi)
  {
    var t := Step(who, mint, s, e);
    match e
    case Limit(slot, limit, bump) =>
      if s == None && t.Some? && slot + SLOTS_PER_DAY > lo {
        WorthMono(L, hi - slot - SLOTS_PER_DAY, hi - lo);
      }
    case Spend(slot, amount) =>
      if s.Some? && Check(s.value, amount, slot).Ok? && Expired(s.value, slot) {
        RollWithinBudget(s.value, t.value, slot, amount, L, lo, hi);
      }
  }

  /** A roll at slot opens a window that was already paid for. */
  lemma RollWithinBudget(d: Daily, t: Daily, slot: u64, amount: u64, L: nat, lo: int, hi: int)
    requires Expired(d, slot) && Check(d, amount, slot) == Ok(t)
    requires d.limit <= L
    ensures (if lo <= slot < hi then amount else 0) + Budget(Some(t), L, lo, hi) <= Budget(Some(d), L, lo, hi)
  {
    assert t.spent == amount <= L && t.windowStart == slot && slot >= d.windowStart + SLOTS_PER_DAY;
    hide Check, Expired, Worth;
    if slot + SLOTS_PER_DAY > lo {
      if d.windowStart + SLOTS_PER_DAY <= lo {
        WorthMono(L, hi - slot - SLOTS_PER_DAY, hi - lo);
      } else if slot < hi {
        WorthStep(L, hi - slot);
        WorthMono(L, hi - slot, hi - d.windowStart - SLOTS_PER_DAY);
      }
    }
  }

  lemma {:induction false} RunWithinBudget(
    who: Key, mint: Key, s: Option<Daily>, es: seq<Event>, L: nat, lo: int, hi: int)
    requires who != ZERO_KEY && Bounded(s, who, L)
    requires Ordered(es) && LimitsAtMost(es, L)
    requires s.Some? && es != [] ==> s.value.windowStart <= es[0].slot
    ensures ApprovedIn(who, mint, s, es, lo, hi) <= Budget(s, L, lo, hi)
    decreases |es|
  {
    if es != [] {
      StepWithinBudget(who, mint, s, es[0], L, lo, hi);
      RunWithinBudget(who, mint, Step(who, mint, s, es[0]), es[1..], L, lo, hi);
    }
  }

  /** The guarantee: from any record of the sender's with a limit of at most L, however
      much was spent under earlier limits, and for as long as no higher limit is set, at
      most (k + 1) limits' worth is approved over any k days of slots. */
  lemma IntervalBound(who: Key, mint: Key, s: Option<Daily>, es: seq<Event>, L: nat, lo: int, k: nat)
    requires who != ZERO_KEY && Bounded(s, who, L)
    requires Ordered(es) && LimitsAtMost(es, L)
    requires s.Some? && es != [] ==> s.value.windowStart <= es[0].slot
    ensures ApprovedIn(who, mint, s, es, lo, lo + k * 216_000) <= (k + 1) * L
  {
    var hi := lo + k * SLOTS_PER_DAY;
    RunWithinBudget(who, mint, s, es, L, lo, hi);
    WorthOfDays(L, k);
    if s.Some? && s.value.windowStart < hi && s.value.windowStart + SLOTS_PER_DAY > lo {
      WorthMono(L, hi - s.value.windowStart - SLOTS_PER_DAY, hi - lo);
    }
  }

  /** A window never starts after the clock that the run has reached. */
  lemma {:induction false} WindowHasStarted(who: Key, mint: Key, s: Option<Daily>, es: seq<Event>, now: int)
    requires forall i :: 0 <= i < |es| ==> es[i].slot <= now
    requires s.Some? ==> s.value.windowStart <= now
    ensures var t := Run(who, mint, s, es); t.Some? ==> t.value.windowStart <= now
    decreases |es|
  {
    if es != [] {
      WindowHasStarted(who, mint, Step(who, mint, s, es[0]), es[1..], now);
    }
  }

  // ---- The bound is tight -----------------------------------------------------

  /** Spends the whole limit just before each window closes and just after. */
  function Straddle(k: nat, L: u64): (es: seq<Event>)
    requires k * SLOTS_PER_DAY < U64_RANGE
  {
    if k == 0 then [Limit(0, L, 0), Spend(SLOTS_PER_DAY - 1, L)]
    else Straddle(k - 1, L) + [Spend(k * SLOTS_PER_DAY, L)]
  }

  lemma {:induction false} RunSnoc(
    who: Key, mint: Key, s: Option<Daily>, es: seq<Event>, e: Event, lo: int, hi: int)
    ensures Run(who, mint, s, es + [e]) == Step(who, mint, Run(who, mint, s, es), e)
    ensures ApprovedIn(who, mint, s, es + [e], lo, hi)
         == ApprovedIn(who, mint, s, es, lo, hi)
          + (if lo <= e.slot < hi then Approved(Run(who, mint, s, es), e) else 0)
    decreases |es|
  {
    if es == [] {
      assert es + [e] == [e];
      assert [e][1..] == [];
    } else {
      assert (es + [e])[1..] == es[1..] + [e];
      RunSnoc(who, mint, Step(who, mint, s, es[0]), es[1..], e, lo, hi);
    }
  }

  lemma {:induction false} StraddleOrdered(k: nat, L: u64)
    requires k * SLOTS_PER_DAY < U64_RANGE
    ensures Ordered(Straddle(k, L)) && LimitsAtMost(Straddle(k, L), L)
    ensures forall i :: 0 <= i < |Straddle(k, L)| ==>
              Straddle(k, L)[i].slot <= (if k == 0 then SLOTS_PER_DAY - 1 else k * SLOTS_PER_DAY)
  {
    if k > 0 {
      StraddleOrdered(k - 1, L);
    }
  }

  lemma {:induction false} StraddleRun(who: Key, mint: Key, k: nat, L: u64, hi: int)
    requires who != ZERO_KEY && L > 0
    requires k * SLOTS_PER_DAY < U64_RANGE && hi > k * SLOTS_PER_DAY && hi >= SLOTS_PER_DAY
    ensures Run(who, mint, None, Straddle(k, L)) == Some(Daily(who, mint, L, L, k * SLOTS_PER_DAY, 0))
    ensures ApprovedIn(who, mint, None, Straddle(k, L), SLOTS_PER_DAY - 1, hi) == (k + 1) * L
  {
    if k == 0 {
      var a, b := Limit(0, L, 0), Spend(SLOTS_PER_DAY - 1, L);
      RunSnoc(who, mint, None, [a], b, SLOTS_PER_DAY - 1, hi);
      RunSnoc(who, mint, None, [], a, SLOTS_PER_DAY - 1, hi);
      assert [] + [a] == [a] && [a] + [b] == Straddle(0, L);
    } else {
      StraddleRun(who, mint, k - 1, L, hi);
      var e := Spend(k * SLOTS_PER_DAY, L);
      RunSnoc(who, mint, None, Straddle(k - 1, L), e, SLOTS_PER_DAY - 1, hi);
      assert Approved(Run(who, mint, None, Straddle(k - 1, L)), e) == L;
      assert (k - 1 + 1) * L + L == (k + 1) * L;
    }
  }

  /** For every k the bound is attained inside k days of slots; for k = 1 that is
      twice the limit inside two adjacent slots. */
  lemma IntervalBoundTight(who: Key, mint: Key, k: nat, L: u64)
    requires who != ZERO_KEY && L > 0 && 1 <= k && k * SLOTS_PER_DAY < U64_RANGE
    ensures Ordered(Straddle(k, L)) && LimitsAtMost(Straddle(k, L), L)
    ensures var lo := SLOTS_PER_DAY - 1;
            ApprovedIn(who, mint, None, Straddle(k, L), lo, lo + k * SLOTS_PER_DAY) == (k + 1) * L
    ensures ApprovedIn(who, mint, None, Straddle(1, L), SLOTS_PER_DAY - 1, SLOTS_PER_DAY + 1) == 2 * L
  {
    StraddleOrdered(k, L);
    StraddleRun(who, mint, k, L, SLOTS_PER_DAY - 1 + k * SLOTS_PER_DAY);
    StraddleRun(who, mint, 1, L, SLOTS_PER_DAY + 1);
  }

  // ---- The "rolling window" the SDK documentation promises ---------------------

  /** A history whose last event was approved x slots into a window that started at w,
      and brought that window's total to `total`. */
  ghost predicate EndsAt(who: Key, mint: Key, es: seq<Event>, L: nat, w: nat, total: nat, x: nat) {
    && es != [] && Ordered(es) && LimitsAtMost(es, L)
    && var e := es[|es| - 1];
       var before := Run(who, mint, None, es[..|es| - 1]);
       && e.Spend? && before.Some?
       && Check(before.value, e.amount, e.slot).Ok?
       && var d := Check(before.value, e.amount, e.slot).value;
          d.windowStart == w && d.spent == total && e.slot == w + x
  }

  /** The rolling reading: the last day of slots, up to now, stays within the limit. */
  ghost predicate RollingHolds(who: Key, mint: Key, es: seq<Event>, L: nat)
    requires es != []
  {
    var now := es[|es| - 1].slot;
    ApprovedIn(who, mint, None, es, now - SLOTS_PER_DAY + 1, now + 1) <= L
  }

  /** A burst of the whole limit just before the window opens at w, one of `total` x slots after. */
  function Burst(w: u64, total: u64, x: nat, L: u64): seq<Event>
    requires SLOTS_PER_DAY <= w && w + x < U64_RANGE
  {
    [Limit(w - SLOTS_PER_DAY, L, 0), Spend(w - 1, L), Spend(w, 0), Spend(w + x, total)]
  }

  /** The history up to the second burst. */
  lemma BurstPrefix(who: Key, mint: Key, w: u64, L: u64, lo: int, hi: int)
    requires who != ZERO_KEY && SLOTS_PER_DAY <= w && L > 0 && lo < w < hi
    ensures var es := [Limit(w - SLOTS_PER_DAY, L, 0), Spend(w - 1, L), Spend(w, 0)];
            && Run(who, mint, None, es) == Some(Daily(who, mint, L, 0, w, 0))
            && ApprovedIn(who, mint, None, es, lo, hi) == L
  {
    var a, b, c := Limit(w - SLOTS_PER_DAY, L, 0), Spend(w - 1, L), Spend(w, 0);
    assert [] + [a] == [a] && [a] + [b] == [a, b] && [a, b] + [c] == [a, b, c];
    RunSnoc(who, mint, None, [], a, lo, hi);
    RunSnoc(who, mint, None, [a], b, lo, hi);
    RunSnoc(who, mint, None, [a, b], c, lo, hi);
  }

  lemma BurstBreaksRolling(who: Key, mint: Key, w: u64, total: u64, x: nat, L: u64)
    requires who != ZERO_KEY && SLOTS_PER_DAY <= w && 0 < total <= L
    requires x < SLOTS_PER_DAY - 1 && w + x < U64_RANGE
    ensures EndsAt(who, mint, Burst(w, total, x, L), L, w, total, x)
    ensures !RollingHolds(who, mint, Burst(w, total, x, L), L)
  {
    hide Run, ApprovedIn;
    var before, last := [Limit(w - SLOTS_PER_DAY, L, 0), Spend(w - 1, L), Spend(w, 0)], Spend(w + x, total);
    var lo, hi := w + x - SLOTS_PER_DAY + 1, w + x + 1;
    assert Burst(w, total, x, L) == before + [last] && Burst(w, total, x, L)[..3] == before;
    BurstPrefix(who, mint, w, L, lo, hi);
    RunSnoc(who, mint, None, before, last, lo, hi);
  }

  /** Nothing before a window start counts into the window's own day. */
  lemma {:induction false} OwnWindow(who: Key, mint: Key, s: Option<Daily>, es: seq<Event>, L: nat, lo: int, hi: int)
    requires who != ZERO_KEY && Bounded(s, who, L) && Ordered(es) && LimitsAtMost(es, L)
    requires s.Some? && es != [] ==> s.value.windowStart <= es[0].slot
    requires Run(who, mint, s, es).Some? && Run(who, mint, s, es).value.windowStart == lo
    ensures s.Some? && s.value.windowStart == lo ==>
              s.value.spent + ApprovedIn(who, mint, s, es, lo, hi) <= Run(who, mint, s, es).value.spent
    ensures s == None || s.value.windowStart != lo ==>
              ApprovedIn(who, mint, s, es, lo, hi) <= Run(who, mint, s, es).value.spent
    ensures s.Some? ==> s.value.windowStart == lo || s.value.windowStart + SLOTS_PER_DAY <= lo
    ensures Bounded(Run(who, mint, s, es), who, L)
    decreases |es|
  {
    if es != [] {
      StepWithinBudget(who, mint, s, es[0], L, lo, hi);
      OwnWindow(who, mint, Step(who, mint, s, es[0]), es[1..], L, lo, hi);
    }
  }

  /** The stored total is what was approved since the window's start, no more and no less,
      on top of what the record started with if that window was already open. */
  lemma {:induction false} WindowTotal(who: Key, mint: Key, s: Option<Daily>, es: seq<Event>, w: int, hi: int)
    requires who != ZERO_KEY && (s.Some? ==> s.value.sender == who) && Ordered(es)
    requires s.Some? && es != [] ==> s.value.windowStart <= es[0].slot
    requires forall i :: 0 <= i < |es| ==> es[i].slot < hi
    requires Run(who, mint, s, es).Some? && Run(who, mint, s, es).value.windowStart == w
    ensures Run(who, mint, s, es).value.spent
         == (if s.Some? && s.value.windowStart == w then s.value.spent else 0) + ApprovedIn(who, mint, s, es, w, hi)
    ensures s.Some? ==> s.value.windowStart == w || s.value.windowStart + SLOTS_PER_DAY <= w
    decreases |es|
  {
    if es != [] {
      WindowTotal(who, mint, Step(who, mint, s, es[0]), es[1..], w, hi);
    }
  }

  /** The limit in force, read off the requests from the last one back: the last positive one
      asked for; that of `start` if there was none. */
  function InForce(start: Option<u64>, es: seq<Event>): Option<u64> {
    if es == [] then start
    else
      match es[|es| - 1]
      case Limit(_, limit, _) => if limit > 0 then Some(limit) else InForce(start, es[..|es| - 1])
      case Spend(_, _) => InForce(start, es[..|es| - 1])
  }

  function LimitOf(s: Option<Daily>): Option<u64> {
    if s == None then None else Some(s.value.limit)
  }

  /** The stored record is the owner's, and holds the limit in force. */
  lemma {:induction false} RunHoldsInForce(who: Key, mint: Key, s: Option<Daily>, es: seq<Event>)
    requires who != ZERO_KEY && (s.Some? ==> s.value.sender == who)
    ensures var d := Run(who, mint, s, es);
            (d.Some? ==> d.value.sender == who) && LimitOf(d) == InForce(LimitOf(s), es)
    decreases |es|
  {
    if es != [] {
      var last := |es| - 1;
      assert es == es[..last] + [es[last]];
      RunHoldsInForce(who, mint, s, es[..last]);
      RunSnoc(who, mint, s, es[..last], es[last], 0, 0);
    }
  }

  /** A check is refused exactly when the total would exceed the limit; the code tells whether
      it would not even fit in 64 bits. */
  lemma CheckRefused(d: Daily, amount: u64, slot: u64)
    ensures var used := if slot >= d.windowStart + 216_000 then 0 else d.spent;
            match Check(d, amount, slot)
            case Ok(_) => used + amount <= d.limit
            case Err(e) => used + amount > d.limit && e == if used + amount > 0xFFFF_FFFF_FFFF_FFFF then Overflow else DailyLimitExceeded
  {
  }

  /** What setting a limit leaves: on the owner's record everything but the limit, on a first
      call a record that is the caller's, open from now on with nothing spent. */
  lemma SettingKeepsTheRest(s: Option<Daily>, who: Key, mint: Key, limit: u64, slot: u64, bump: byte)
    requires who != ZERO_KEY && (s.Some? ==> s.value.sender == who)
    ensures match SetLimitTo(s, who, mint, limit, slot, bump)
            case Err(e) => e == ZeroLimit && limit == 0
            case Ok(d) =>
              && limit > 0 && d.limit == limit && d.sender == who
              && (s.Some? ==> d.(limit := s.value.limit) == s.value)
              && (s == None ==> d.mint == mint && d.spent == 0 && d.windowStart == slot && d.bump == bump)
  {
  }

  /** When the next check passes, in terms of the history alone: with no limit asked for, or
      while what was approved since the window opened, if it is still open, leaves room for
      the amount under the last positive limit asked for. */
  lemma NextCheckPasses(who: Key, mint: Key, es: seq<Event>, amount: u64, slot: u64)
    requires who != ZERO_KEY && Ordered(es) && forall i :: 0 <= i < |es| ==> es[i].slot <= slot
    ensures var s, limit := Run(who, mint, None, es), InForce(None, es);
            && (s == None <==> limit == None)
            && (CheckOpt(s, amount, slot).Ok? <==>
                 (limit.Some? ==>
                   var w := s.value.windowStart;
                   (if slot >= w + 216_000 then 0 else ApprovedIn(who, mint, None, es, w, slot + 1)) + amount <= limit.value))
  {
    RunHoldsInForce(who, mint, None, es);
    var s := Run(who, mint, None, es);
    if s.Some? {
      WindowTotal(who, mint, None, es, s.value.windowStart, slot + 1);
    }
  }

  /** What is approved less than a day before the last window opened belongs to a single
      earlier window; there is none if the last one opened in the first day of slots. */
  lemma {:induction false} PriorWindow(who: Key, mint: Key, s: Option<Daily>, es: seq<Event>, L: nat, lo: int, w: int)
    requires who != ZERO_KEY && Bounded(s, who, L) && Ordered(es) && LimitsAtMost(es, L)
    requires s.Some? && es != [] ==> s.value.windowStart <= es[0].slot
    requires Run(who, mint, s, es).Some? && Run(who, mint, s, es).value.windowStart == w
    requires w - SLOTS_PER_DAY < lo
    ensures ApprovedIn(who, mint, s, es, lo, w) <= L
    ensures (s.Some? && s.value.windowStart == w) || w < SLOTS_PER_DAY ==> ApprovedIn(who, mint, s, es, lo, w) == 0
    ensures s.Some? && es != [] && lo <= es[0].slot ==>
              ApprovedIn(who, mint, s, es, lo, w) <= SatSub(L, s.value.spent)
    decreases |es|
  {
    OwnWindow(who, mint, s, es, L, w, w);
    if es != [] {
      var t := Step(who, mint, s, es[0]);
      StepWithinBudget(who, mint, s, es[0], L, lo, w);
      OwnWindow(who, mint, t, es[1..], L, w, w);
      PriorWindow(who, mint, t, es[1..], L, lo, w);
    }
  }

  lemma {:induction false} ApprovedSplit(who: Key, mint: Key, s: Option<Daily>, es: seq<Event>, lo: int, mid: int, hi: int)
    requires lo <= mid <= hi
    ensures ApprovedIn(who, mint, s, es, lo, hi) == ApprovedIn(who, mint, s, es, lo, mid) + ApprovedIn(who, mint, s, es, mid, hi)
    decreases |es|
  {
    if es != [] {
      ApprovedSplit(who, mint, Step(who, mint, s, es[0]), es[1..], lo, mid, hi);
    }
  }

  /** The rolling reading, decided by the record and the slot: it holds of every history
      that leaves the window's start, its total and the offset so, exactly when the window
      is at its last slot, or nothing was spent in it, or it is in the first day of slots. */
  lemma RollingExactly(who: Key, mint: Key, L: u64, w: u64, total: u64, x: nat)
    requires who != ZERO_KEY && total <= L && x < SLOTS_PER_DAY && w + x < U64_RANGE
    ensures (forall es :: EndsAt(who, mint, es, L, w, total, x) ==> RollingHolds(who, mint, es, L))
            <==> x == SLOTS_PER_DAY - 1 || total == 0 || w < SLOTS_PER_DAY
  {
    if x < SLOTS_PER_DAY - 1 && total > 0 && w >= SLOTS_PER_DAY {
      BurstBreaksRolling(who, mint, w, total, x, L);
    } else {
      forall es | EndsAt(who, mint, es, L, w, total, x) ensures RollingHolds(who, mint, es, L) {
        var e := es[|es| - 1];
        assert es == es[..|es| - 1] + [e];
        var lo, hi := w + x - SLOTS_PER_DAY + 1, w + x + 1;
        RunSnoc(who, mint, None, es[..|es| - 1], e, lo, hi);
        OwnWindow(who, mint, None, es, L, w, hi);
        PriorWindow(who, mint, None, es, L, lo, w);
        ApprovedSplit(who, mint, None, es, lo, w, hi);
      }
    }
  }
}
