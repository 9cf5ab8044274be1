/**
 * The cool-off rule: a transfer at or above the threshold must come at least the
 * configured duration after the previous one. The maximum is 86,400 seconds.
 */
module Cooloff {
  import opened Base

  const MIN_DURATION: i64 := 1
  const MAX_DURATION: i64 := 86_400

  datatype Cooling = Cooling(
    sender: Key, mint: Key, threshold: u64, duration: i64, lastLarge: i64, bump: byte)

  function Check(c: Cooling, amount: u64, now: i64): Result<Cooling> {
    if amount < c.threshold then Ok(c)
    else if !FitsI64(now - c.lastLarge) then Err(Overflow)
    else if now - c.lastLarge < c.duration then Err(CooloffActive)
    else Ok(c.(lastLarge := now))
  }

  function CheckOpt(s: Option<Cooling>, amount: u64, now: i64): Result<Option<Cooling>> {
    match s
    case None => Ok(None)
    case Some(c) =>
      match Check(c, amount, now)
      case Ok(d) => Ok(Some(d))
      case Err(e) => Err(e)
  }

  const BLANK := Cooling(ZERO_KEY, ZERO_KEY, 0, 0, 0, 0)

  /** Reconfiguring keeps the time of the last large transfer. */
  function Configure(s: Option<Cooling>, sender: Key, mint: Key, threshold: u64, duration: i64, bump: byte)
    : Result<Cooling>
  {
    if threshold == 0 then Err(ZeroThreshold)
    else if !(MIN_DURATION <= duration <= MAX_DURATION) then Err(InvalidDuration)
    else
      var c := if s.Some? then s.value else BLANK;
      var d := if c.sender == ZERO_KEY then c.(sender := sender, mint := mint, lastLarge := 0, bump := bump) else c;
      Ok(d.(threshold := threshold, duration := duration))
  }

  /** The Anchor account that `set_cooloff`, `disable_cooloff` and `check_transfer` work on. */
  class CooloffAccount {
    var initialized: bool
    var sender: Key
    var mint: Key
    var threshold: u64
    var duration: i64
    var lastLarge: i64
    var bump: byte

    ghost function State(): Option<Cooling>
      reads this
    {
      if initialized then Some(Cooling(sender, mint, threshold, duration, lastLarge, bump)) else None
    }

    constructor ()
      ensures State() == None
    {
      initialized := false;
      sender, mint, threshold, duration, lastLarge, bump := ZERO_KEY, ZERO_KEY, 0, 0, 0, 0;
    }

    method SetCooloff(caller: Key, stedeMint: Key, newThreshold: u64, seconds: i64, newBump: byte)
      returns (r: Result<()>)
      modifies this
      ensures match Configure(old(State()), caller, stedeMint, newThreshold, seconds, newBump)
              case Ok(c) => r == Ok(()) && State() == Some(c)
              case Err(e) => r == Err(e) && State() == old(State())
    {
      if newThreshold == 0 {
        return Err(ZeroThreshold);
      }
      if seconds < MIN_DURATION || seconds > MAX_DURATION {
        return Err(InvalidDuration);
      }
      if !initialized {
        initialized := true;
        sender, mint, threshold, duration, lastLarge, bump := ZERO_KEY, ZERO_KEY, 0, 0, 0, 0;
      }
      if sender == ZERO_KEY {
        sender := caller;
        mint := stedeMint;
        lastLarge := 0;
        bump := newBump;
      }
      threshold := newThreshold;
      duration := seconds;
      return Ok(());
    }

    /** `has_one = sender`, then the account is closed. */
    method DisableCooloff(caller: Key) returns (r: Result<()>)
      modifies this
      ensures r == (if old(State()) == None then Err(AccountMissing)
                    else if old(State()).value.sender != caller then Err(ConstraintViolated)
                    else Ok(()))
      ensures State() == if r.Ok? then None else old(State())
    {
      if !initialized {
        return Err(AccountMissing);
      }
      if sender != caller {
        return Err(ConstraintViolated);
      }
      initialized := false;
      return Ok(());
    }

    method CheckTransfer(amount: u64, now: i64) returns (r: Result<()>)
      modifies this
      ensures match CheckOpt(old(State()), amount, now)
              case Ok(s) => r == Ok(()) && State() == s
              case Err(e) => r == Err(e) && State() == old(State())
    {
      if !initialized {
        return Ok(());
      }
      if amount < threshold {
        return Ok(());
      }
      var elapsed := now - lastLarge;
      if !FitsI64(elapsed) {
        return Err(Overflow);
      }
      if elapsed < duration {
        return Err(CooloffActive);
      }
      lastLarge := now;
      return Ok(());
    }
  }

  // ---- Runs -------------------------------------------------------------------

  datatype Event =
    | Set(at: i64, threshold: u64, duration: i64, bump: byte)
    | Disable(at: i64)
    | Send(at: i64, amount: u64)

  function Step(who: Key, mint: Key, s: Option<Cooling>, e: Event): Option<Cooling> {
    match e
    case Set(_, threshold, duration, bump) =>
      (match Configure(s, who, mint, threshold, duration, bump) case Ok(c) => Some(c) case Err(_) => s)
    case Disable(_) => if s.Some? && s.value.sender == who then None else s
    case Send(at, amount) =>
      (match CheckOpt(s, amount, at) case Ok(t) => t case Err(_) => s)
  }

  /** What a request makes of the threshold and duration in force. */
  function Asked(terms: Option<(u64, i64)>, e: Event): Option<(u64, i64)> {
    match e
    case Set(_, threshold, duration, _) => if threshold > 0 && 1 <= duration <= 86_400 then Some((threshold, duration)) else terms
    case Disable(_) => None
    case Send(_, _) => terms
  }

  function Terms(s: Option<Cooling>): Option<(u64, i64)> {
    if s == None then None else Some((s.value.threshold, s.value.duration))
  }

  /** The rule approves e, and e is large by the threshold last asked for. */
  predicate ApprovedLarge(terms: Option<(u64, i64)>, s: Option<Cooling>, e: Event) {
    e.Send? && terms.Some? && e.amount >= terms.value.0 && CheckOpt(s, e.amount, e.at).Ok?
  }

  /** An approved large transfer: when, and the duration in force then. */
  datatype Large = Large(at: i64, duration: i64)

  function Log(who: Key, mint: Key, terms: Option<(u64, i64)>, s: Option<Cooling>, es: seq<Event>): seq<Large>
    decreases |es|
  {
    if es == [] then []
    else
      (if ApprovedLarge(terms, s, es[0]) then [Large(es[0].at, terms.value.1)] else [])
      + Log(who, mint, Asked(terms, es[0]), Step(who, mint, s, es[0]), es[1..])
  }

  function Run(who: Key, mint: Key, s: Option<Cooling>, es: seq<Event>): Option<Cooling>
    decreases |es|
  {
    if es == [] then s else Run(who, mint, Step(who, mint, s, es[0]), es[1..])
  }

  ghost predicate NoDisable(es: seq<Event>) {
    forall i :: 0 <= i < |es| ==> !es[i].Disable?
  }

  ghost predicate Spaced(log: seq<Large>) {
    forall i :: 1 <= i < |log| ==> log[i].at - log[i - 1].at >= log[i].duration
  }

  lemma SpacedCons(first: Large, rest: seq<Large>)
    requires Spaced(rest) && (|rest| > 0 ==> rest[0].at - first.at >= rest[0].duration)
    ensures Spaced([first] + rest)
  {
    var log := [first] + rest;
    forall i | 1 <= i < |log| ensures log[i].at - log[i - 1].at >= log[i].duration {
      if i > 1 {
        assert rest[i - 1].at - rest[i - 2].at >= rest[i - 1].duration;
      }
    }
  }

  /** While nobody disables the rule, each transfer that is large by the threshold last asked
      for waits out, from the one before it, the duration last asked for. */
  lemma {:induction false} Spacing(who: Key, mint: Key, s: Option<Cooling>, es: seq<Event>)
    requires who != ZERO_KEY && NoDisable(es)
    requires s.Some? ==> s.value.sender == who
    ensures var log := Log(who, mint, Terms(s), s, es);
            && Spaced(log)
            && (s.Some? && |log| > 0 ==> log[0].at - s.value.lastLarge >= log[0].duration)
    decreases |es|
  {
    if es != [] {
      var t := Step(who, mint, s, es[0]);
      Spacing(who, mint, t, es[1..]);
      assert Terms(t) == Asked(Terms(s), es[0]);
      var rest := Log(who, mint, Terms(t), t, es[1..]);
      if ApprovedLarge(Terms(s), s, es[0]) {
        var first := Large(es[0].at, s.value.duration);
        assert Log(who, mint, Terms(s), s, es) == [first] + rest;
        assert t.value.lastLarge == first.at;
        SpacedCons(first, rest);
      } else {
        assert Log(who, mint, Terms(s), s, es) == rest;
        assert s.Some? ==> t.value.lastLarge == s.value.lastLarge;
      }
    }
  }

  /** A configuration the program accepts, with a duration below d. */
  predicate Shortens(e: Event, d: int) {
    e.Set? && e.threshold > 0 && MIN_DURATION <= e.duration <= MAX_DURATION && e.duration < d
  }

  ghost predicate LongEnough(log: seq<Large>, d: int) {
    forall i :: 0 <= i < |log| ==> d <= log[i].duration
  }

  /** Without an accepted shorter one, every duration in force stays at d at least. */
  lemma {:induction false} DurationsInForce(who: Key, mint: Key, terms: Option<(u64, i64)>, s: Option<Cooling>, es: seq<Event>, d: int)
    requires terms.Some? ==> d <= terms.value.1
    requires forall i :: 0 <= i < |es| ==> !Shortens(es[i], d)
    ensures LongEnough(Log(who, mint, terms, s, es), d)
    decreases |es|
  {
    if es != [] {
      DurationsInForce(who, mint, Asked(terms, es[0]), Step(who, mint, s, es[0]), es[1..], d);
    }
  }

  lemma {:induction false} GapsAddUp(log: seq<Large>, d: nat, i: nat, j: nat)
    requires i <= j < |log|
    requires forall k :: 1 <= k < |log| ==> log[k].at - log[k - 1].at >= d
    ensures (j - i) * d <= log[j].at - log[i].at
    decreases j - i
  {
    if i < j {
      GapsAddUp(log, d, i, j - 1);
      assert (j - i) * d == (j - 1 - i) * d + d;
    }
  }

  /** Any n consecutive large approvals of any run, from any record of the sender's own,
      take at least (n - 1) * d seconds, as long as every duration in force is at least d. */
  lemma RateBound(who: Key, mint: Key, s: Option<Cooling>, es: seq<Event>, d: nat, i: nat, j: nat)
    requires who != ZERO_KEY && NoDisable(es)
    requires s.Some? ==> s.value.sender == who && d <= s.value.duration
    requires forall k :: 0 <= k < |es| ==> !Shortens(es[k], d)
    requires i <= j < |Log(who, mint, Terms(s), s, es)|
    ensures var log := Log(who, mint, Terms(s), s, es);
            (j - i) * d <= log[j].at - log[i].at
  {
    Spacing(who, mint, s, es);
    DurationsInForce(who, mint, Terms(s), s, es, d);
    GapsAddUp(Log(who, mint, Terms(s), s, es), d, i, j);
  }

  /** Threshold and duration in force, read off the requests from the last one back: the
      last valid pair asked for, unless a disable came after it. */
  function InForce(start: Option<(u64, i64)>, es: seq<Event>): Option<(u64, i64)> {
    if es == [] then start else Asked(InForce(start, es[..|es| - 1]), es[|es| - 1])
  }

  lemma {:induction false} RunSnoc(who: Key, mint: Key, s: Option<Cooling>, es: seq<Event>, e: Event)
    ensures Run(who, mint, s, es + [e]) == Step(who, mint, Run(who, mint, s, es), e)
    decreases |es|
  {
    if es == [] {
      assert [e][1..] == [] && [] + [e] == [e];
    } else {
      assert (es + [e])[1..] == es[1..] + [e];
      RunSnoc(who, mint, Step(who, mint, s, es[0]), es[1..], e);
    }
  }

  /** The stored record is the owner's, and holds the terms in force. */
  lemma {:induction false} RunHoldsInForce(who: Key, mint: Key, s: Option<Cooling>, es: seq<Event>)
    requires who != ZERO_KEY && (s.Some? ==> s.value.sender == who)
    ensures var c := Run(who, mint, s, es);
            (c.Some? ==> c.value.sender == who) && Terms(c) == InForce(Terms(s), es)
    decreases |es|
  {
    if es != [] {
      var last := |es| - 1;
      assert es == es[..last] + [es[last]];
      RunHoldsInForce(who, mint, s, es[..last]);
      RunSnoc(who, mint, s, es[..last], es[last]);
    }
  }

  /** A large check is refused exactly when too little time has passed, counted in 64 bits. */
  lemma CheckRefused(c: Cooling, amount: u64, now: i64)
    ensures var elapsed := now - c.lastLarge;
            match Check(c, amount, now)
            case Ok(d) =>
              if amount >= c.threshold then c.duration <= elapsed < I64_HALF && d == c.(lastLarge := now) else d == c
            case Err(e) =>
              && amount >= c.threshold
              && (elapsed < c.duration || elapsed >= I64_HALF)
              && e == if -I64_HALF <= elapsed < I64_HALF then CooloffActive else Overflow
  {
  }

  /** What a configuration leaves: on the owner's record everything but the terms, on a first
      call a record of the caller's that remembers no large transfer. */
  lemma ConfiguringKeepsTheRest(s: Option<Cooling>, who: Key, mint: Key, threshold: u64, duration: i64, bump: byte)
    requires who != ZERO_KEY && (s.Some? ==> s.value.sender == who)
    ensures match Configure(s, who, mint, threshold, duration, bump)
            case Err(e) => e == (if threshold == 0 then ZeroThreshold else InvalidDuration)
                           && (threshold == 0 || duration < 1 || duration > 86_400)
            case Ok(c) =>
              && threshold > 0 && 1 <= duration <= 86_400 && Terms(Some(c)) == Some((threshold, duration)) && c.sender == who
              && (s.Some? ==> c.(threshold := s.value.threshold, duration := s.value.duration) == s.value)
              && (s == None ==> c.mint == mint && c.lastLarge == 0 && c.bump == bump)
  {
  }

  /** Below the threshold last asked for, and without one, the rule lets everything pass and
      keeps its record as it is. */
  lemma SmallAlwaysPasses(who: Key, mint: Key, s: Option<Cooling>, es: seq<Event>, amount: u64, now: i64)
    requires who != ZERO_KEY && (s.Some? ==> s.value.sender == who)
    ensures var c, terms := Run(who, mint, s, es), InForce(Terms(s), es);
            terms == None || amount < terms.value.0 ==> CheckOpt(c, amount, now) == Ok(c)
  {
    RunHoldsInForce(who, mint, s, es);
  }

  /** The gate from the other side: from a state of any run with clock readings that are
      not negative, a transfer at or above the threshold last asked for is refused only for
      coming sooner than the duration last asked for. */
  lemma RefusedOnlyForHaste(who: Key, mint: Key, s: Option<Cooling>, es: seq<Event>, amount: u64, now: i64)
    requires who != ZERO_KEY && (s.Some? ==> s.value.sender == who)
    requires forall i :: 0 <= i < |es| ==> es[i].at >= 0
    requires now >= 0 && (s.Some? ==> s.value.lastLarge >= 0)
    ensures var c, terms := Run(who, mint, s, es), InForce(Terms(s), es);
            && (c == None <==> terms == None)
            && (CheckOpt(c, amount, now).Ok? <==>
                 terms == None || amount < terms.value.0 || now - c.value.lastLarge >= terms.value.1)
  {
    RunHoldsInForce(who, mint, s, es);
    NeverNegative(who, mint, s, es);
  }

  lemma {:induction false} NeverNegative(who: Key, mint: Key, s: Option<Cooling>, es: seq<Event>)
    requires forall i :: 0 <= i < |es| ==> es[i].at >= 0
    requires s.Some? ==> s.value.lastLarge >= 0
    ensures var c := Run(who, mint, s, es); c.Some? ==> c.value.lastLarge >= 0
    decreases |es|
  {
    if es != [] {
      NeverNegative(who, mint, Step(who, mint, s, es[0]), es[1..]);
    }
  }

  /** Disabling forgets the history: after disabling and configuring again, the next
      large transfer passes exactly when the clock itself has reached the duration. */
  lemma DisableForgets(who: Key, mint: Key, c: Cooling, threshold: u64, duration: i64, bump: byte, amount: u64, now: i64)
    requires who != ZERO_KEY && c.sender == who && now >= 0
    requires Configure(Some(c), who, mint, threshold, duration, bump).Ok? && amount >= threshold
    ensures var s := Run(who, mint, Some(c), [Disable(now), Set(now, threshold, duration, bump)]);
            CheckOpt(s, amount, now).Ok? <==> now >= duration
    ensures var s := Run(who, mint, Some(c), [Set(now, threshold, duration, bump)]);
            CheckOpt(s, amount, now).Ok? <==> FitsI64(now - c.lastLarge) && now - c.lastLarge >= duration
  {
    var off, on := Disable(now), Set(now, threshold, duration, bump);
    assert [off, on][1..] == [on] && [on][1..] == [];
    assert Run(who, mint, None, [on]) == Step(who, mint, None, on);
    assert Run(who, mint, Some(c), [off, on]) == Run(who, mint, None, [on]);
  }
}
