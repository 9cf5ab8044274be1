/** Night mode: transfers are blocked during a window of UTC hours that may wrap midnight. */
module NightMode {
  import opened Base

  const DAY := 86_400

  datatype Window = Window(sender: Key, mint: Key, start: byte, end: byte, bump: byte)

  /** The hour of day by Rust's truncated remainder, as the program computes it. */
  function Hour(now: int): int {
    TruncRem(TruncRem(now, DAY) + DAY, DAY) / 3600
  }

  predicate InWindow(start: byte, end: byte, hour: int) {
    if start <= end then hour >= start && hour < end
    else hour >= start || hour < end
  }

  predicate Blocked(start: byte, end: byte, now: int) {
    InWindow(start, end, Hour(now))
  }

  function Check(start: byte, end: byte, now: i64): Result<()> {
    if Blocked(start, end, now) then Err(WithinBlockedWindow) else Ok(())
  }

  function CheckOpt(s: Option<Window>, now: i64): Result<()> {
    if s == None then Ok(()) else Check(s.value.start, s.value.end, now)
  }

  function Configure(sender: Key, mint: Key, start: byte, end: byte, bump: byte): Result<Window> {
    if start < 24 && end < 24 then Ok(Window(sender, mint, start, end, bump)) else Err(InvalidHour)
  }

  /** The Anchor account that `set_time_window` and `disable_time_window` work on. */
  class NightModeAccount {
    var initialized: bool
    var sender: Key
    var mint: Key
    var start: byte
    var end: byte
    var bump: byte

    ghost function State(): Option<Window>
      reads this
    {
      if initialized then Some(Window(sender, mint, start, end, bump)) else None
    }

    constructor ()
      ensures State() == None
    {
      initialized := false;
      sender, mint, start, end, bump := ZERO_KEY, ZERO_KEY, 0, 0, 0;
    }

    method SetTimeWindow(caller: Key, stedeMint: Key, startHour: byte, endHour: byte, newBump: byte)
      returns (r: Result<()>)
      modifies this
      ensures match Configure(caller, stedeMint, startHour, endHour, newBump)
              case Ok(w) => r == Ok(()) && State() == Some(w)
              case Err(e) => r == Err(e) && State() == old(State())
    {
      if !(startHour < 24 && endHour < 24) {
        return Err(InvalidHour);
      }
      initialized := true;
      sender, mint := caller, stedeMint;
      start, end := startHour, endHour;
      bump := newBump;
      return Ok(());
    }

    method DisableTimeWindow(caller: Key) returns (r: Result<()>)
      modifies this
      ensures r == (if old(State()) == None then Err(AccountMissing)
                    else if old(State()).value.sender != caller then Err(ConstraintViolated)
                    else Ok(()))
      ensures State() == if r.Ok? then None else old(State())
    {
      if !initialized {
        return Err(AccountMissing);
      }
      if sender != caller {
        return Err(ConstraintViolated);
      }
      initialized := false;
      return Ok(());
    }
  }

  // ---- Runs -------------------------------------------------------------------

  datatype Event = Set(start: byte, end: byte, bump: byte) | Disable

  function Step(who: Key, mint: Key, s: Option<Window>, e: Event): Option<Window> {
    match e
    case Set(start, end, bump) => (match Configure(who, mint, start, end, bump) case Ok(w) => Some(w) case Err(_) => s)
    case Disable => if s.Some? && s.value.sender == who then None else s
  }

  function Run(who: Key, mint: Key, s: Option<Window>, es: seq<Event>): Option<Window>
    decreases |es|
  {
    if es == [] then s else Run(who, mint, Step(who, mint, s, es[0]), es[1..])
  }

  /** The hours in force, read off the requests from the last one back: the last valid ones,
      unless a disable came after them; those of `start` if there was neither. */
  function InForce(start: Option<(byte, byte)>, es: seq<Event>): Option<(byte, byte)> {
    if es == [] then start
    else
      match es[|es| - 1]
      case Set(from, to, _) => if from < 24 && to < 24 then Some((from, to)) else InForce(start, es[..|es| - 1])
      case Disable => None
  }

  lemma {:induction false} HoursAreHours(start: Option<(byte, byte)>, es: seq<Event>)
    requires start.Some? ==> start.value.0 < 24 && start.value.1 < 24
    ensures var hours := InForce(start, es); hours.Some? ==> hours.value.0 < 24 && hours.value.1 < 24
    decreases |es|
  {
    if es != [] {
      HoursAreHours(start, es[..|es| - 1]);
    }
  }

  function Hours(s: Option<Window>): Option<(byte, byte)> {
    if s == None then None else Some((s.value.start, s.value.end))
  }

  lemma {:induction false} RunSnoc(who: Key, mint: Key, s: Option<Window>, es: seq<Event>, e: Event)
    ensures Run(who, mint, s, es + [e]) == Step(who, mint, Run(who, mint, s, es), e)
    decreases |es|
  {
    if es == [] {
      assert [e][1..] == [] && [] + [e] == [e];
    } else {
      assert (es + [e])[1..] == es[1..] + [e];
      RunSnoc(who, mint, Step(who, mint, s, es[0]), es[1..], e);
    }
  }

  /** The stored record is the owner's, and holds the hours in force. */
  lemma {:induction false} RunHoldsInForce(who: Key, mint: Key, s: Option<Window>, es: seq<Event>)
    requires s.Some? ==> s.value.sender == who
    ensures var w := Run(who, mint, s, es);
            (w.Some? ==> w.value.sender == who) && Hours(w) == InForce(Hours(s), es)
    decreases |es|
  {
    if es != [] {
      var last := |es| - 1;
      assert es == es[..last] + [es[last]];
      RunHoldsInForce(who, mint, s, es[..last]);
      RunSnoc(who, mint, s, es[..last], es[last]);
    }
  }

  // ---- Hours ------------------------------------------------------------------

  /** Before 1970 as after, the formula is the Euclidean hour of day. */
  lemma HourIsEuclidean(now: int)
    ensures Hour(now) == (now % DAY) / 3600
    ensures 0 <= Hour(now) < 24
  {
    var r := TruncRem(now, DAY);
    if now >= 0 {
      assert r == now % 86_400;
      assert (r + 86_400) % 86_400 == r;
    } else {
      assert r == -((-now) % 86_400);
      assert (r + 86_400) % 86_400 == now % 86_400;
    }
    assert TruncRem(r + DAY, DAY) == (r + 86_400) % 86_400;
  }

  /** Length of the window in hours, equal bounds meaning an empty one. */
  function Span(start: byte, end: byte): nat {
    (end - start) % 24
  }

  /** The two-branch test is one test on the circle of hours. */
  lemma WindowIsCyclic(start: byte, end: byte, hour: int)
    requires start < 24 && end < 24 && 0 <= hour < 24
    ensures InWindow(start, end, hour) <==> (hour - start) % 24 < Span(start, end)
  {
  }

  /** A check is refused exactly at the blocked hours, with one code; a configuration exactly
      for hours outside the day, with another; otherwise it is stored as asked, for the caller. */
  lemma Verdicts(start: byte, end: byte, now: i64, who: Key, mint: Key, bump: byte)
    ensures start < 24 && end < 24 ==>
              Check(start, end, now) == (if ((now % 86_400) / 3600 - start) % 24 < Span(start, end) then Err(WithinBlockedWindow) else Ok(()))
    ensures match Configure(who, mint, start, end, bump)
            case Err(e) => e == InvalidHour && (start >= 24 || end >= 24)
            case Ok(w) => start < 24 && end < 24 && w.sender == who && w.mint == mint && Hours(Some(w)) == Some((start, end)) && w.bump == bump
  {
    HourIsEuclidean(now);
    if start < 24 && end < 24 {
      WindowIsCyclic(start, end, Hour(now));
    }
  }

  // ---- Counting blocked seconds -----------------------------------------------

  function CountBlocked(start: byte, end: byte, t: int, n: nat): nat {
    if n == 0 then 0
    else CountBlocked(start, end, t, n - 1) + (if Blocked(start, end, t + n - 1) then 1 else 0)
  }

  lemma {:induction false} CountSplit(start: byte, end: byte, t: int, m: nat, n: nat)
    ensures CountBlocked(start, end, t, m + n)
         == CountBlocked(start, end, t, m) + CountBlocked(start, end, t + m, n)
    decreases n
  {
    if n > 0 {
      CountSplit(start, end, t, m, n - 1);
      assert t + (m + n) - 1 == (t + m) + n - 1;
    }
  }

  lemma {:induction false} CountUniform(start: byte, end: byte, t: int, n: nat, b: bool)
    requires forall u :: t <= u < t + n ==> Blocked(start, end, u) == b
    ensures CountBlocked(start, end, t, n) == if b then n else 0
    decreases n
  {
    if n > 0 {
      CountUniform(start, end, t, n - 1, b);
    }
  }

  lemma DailyPeriod(start: byte, end: byte, t: int)
    ensures Blocked(start, end, t + DAY) == Blocked(start, end, t)
  {
    assert Hour(t + DAY) == Hour(t) by {
      HourIsEuclidean(t);
      HourIsEuclidean(t + DAY);
      assert (t + DAY) % DAY == t % DAY;
    }
  }

  /** Sliding a day-long interval by one second loses what it gains. */
  lemma SlideByOne(start: byte, end: byte, t: int)
    ensures CountBlocked(start, end, t, DAY) == CountBlocked(start, end, t + 1, DAY)
  {
    CountSplit(start, end, t, 1, DAY - 1);
    CountSplit(start, end, t + 1, DAY - 1, 1);
    DailyPeriod(start, end, t);
    assert CountBlocked(start, end, t, 1) == CountBlocked(start, end, t, 0) + (if Blocked(start, end, t) then 1 else 0);
    assert CountBlocked(start, end, t + DAY, 1)
        == CountBlocked(start, end, t + DAY, 0) + (if Blocked(start, end, t + DAY) then 1 else 0);
  }

  lemma {:induction false} Slide(start: byte, end: byte, t: int, n: nat)
    ensures CountBlocked(start, end, t, DAY) == CountBlocked(start, end, t + n, DAY)
    decreases n
  {
    if n > 0 {
      Slide(start, end, t, n - 1);
      SlideByOne(start, end, t + n - 1);
    }
  }

  /** The day that begins with the window: first all blocked, then none. */
  lemma WindowDay(start: byte, end: byte)
    requires start < 24 && end < 24
    ensures CountBlocked(start, end, 3600 * start, DAY) == 3600 * Span(start, end)
  {
    var t, on := 3600 * start, 3600 * Span(start, end);
    forall u | t <= u < t + DAY ensures Blocked(start, end, u) <==> u < t + on {
      HourIsEuclidean(u);
      WindowIsCyclic(start, end, Hour(u));
      HoursFromStart(start, u - t);
    }
    CountSplit(start, end, t, on, DAY - on);
    CountUniform(start, end, t, on, true);
    CountUniform(start, end, t + on, DAY - on, false);
  }

  lemma HoursFromStart(start: byte, i: int)
    requires start < 24 && 0 <= i < DAY
    ensures ((((3600 * start + i) % DAY) / 3600) - start) % 24 == i / 3600
  {
    var h := start + i / 3600;
    assert 3600 * start + i == 3600 * h + i % 3600;
    if h < 24 {
      assert (3600 * start + i) % DAY == 3600 * h + i % 3600;
    } else {
      assert (3600 * start + i) % DAY == 3600 * (h - 24) + i % 3600;
    }
  }

  /** Any 86,400 consecutive seconds hold the same number of blocked ones. */
  lemma BlockedPerDay(start: byte, end: byte, t: int)
    requires start < 24 && end < 24
    ensures CountBlocked(start, end, t, DAY) == 3600 * Span(start, end)
  {
    var t0 := 3600 * start;
    WindowDay(start, end);
    if t <= t0 {
      Slide(start, end, t, t0 - t);
    } else {
      Slide(start, end, t0, t - t0);
    }
  }
}
