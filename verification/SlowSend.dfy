/**
 * Slow send: while configured, a recipient must have been registered at least the
 * configured delay ago. Disabling closes the configuration but keeps the contacts.
 */
module SlowSend {
  import opened Base

  const MIN_DELAY: i64 := 1
  const MAX_DELAY: i64 := 604_800

  datatype Config = Config(sender: Key, mint: Key, delay: i64, bump: byte)
  datatype Contact = Contact(firstAt: i64, bump: byte)

  function CheckOpt(config: Option<Config>, contact: Option<Contact>, now: i64): Result<()> {
    if config == None then Ok(())
    else if contact == None then Err(RecipientNotRegistered)
    else if !FitsI64(now - contact.value.firstAt) then Err(Overflow)
    else if now - contact.value.firstAt < config.value.delay then Err(WaitingPeriodActive)
    else Ok(())
  }

  const BLANK := Config(ZERO_KEY, ZERO_KEY, 0, 0)

  function Configure(s: Option<Config>, sender: Key, mint: Key, delay: i64, bump: byte): Result<Config> {
    if !(MIN_DELAY <= delay <= MAX_DELAY) then Err(InvalidDelay)
    else
      var c := if s.Some? then s.value else BLANK;
      var d := if c.sender == ZERO_KEY then c.(sender := sender, mint := mint, bump := bump) else c;
      Ok(d.(delay := delay))
  }

  /** What one sender has stored for one mint. */
  datatype Book = Book(config: Option<Config>, contacts: map<Key, Contact>) {
    function Of(r: Key): Option<Contact> {
      if r in contacts then Some(contacts[r]) else None
    }

    function Check(r: Key, now: i64): Result<()> {
      CheckOpt(config, Of(r), now)
    }
  }

  const EMPTY := Book(None, map[])

  /** The accounts that the slow send instructions of one sender and mint work on. */
  class SlowSendAccounts {
    var initialized: bool
    var sender: Key
    var mint: Key
    var delay: i64
    var bump: byte
    var contacts: map<Key, Contact>

    ghost function State(): Book
      reads this
    {
      Book(if initialized then Some(Config(sender, mint, delay, bump)) else None, contacts)
    }

    constructor ()
      ensures State() == EMPTY
    {
      initialized := false;
      sender, mint, delay, bump := ZERO_KEY, ZERO_KEY, 0, 0;
      contacts := map[];
    }

    method SetSlowSend(caller: Key, stedeMint: Key, seconds: i64, newBump: byte) returns (r: Result<()>)
      modifies this
      ensures match Configure(old(State()).config, caller, stedeMint, seconds, newBump)
              case Ok(c) => r == Ok(()) && State() == old(State()).(config := Some(c))
              case Err(e) => r == Err(e) && State() == old(State())
    {
      if seconds < MIN_DELAY || seconds > MAX_DELAY {
        return Err(InvalidDelay);
      }
      if !initialized {
        initialized := true;
        sender, mint, delay, bump := ZERO_KEY, ZERO_KEY, 0, 0;
      }
      if sender == ZERO_KEY {
        sender := caller;
        mint := stedeMint;
        bump := newBump;
      }
      delay := seconds;
      return Ok(());
    }

    method DisableSlowSend(caller: Key) returns (r: Result<()>)
      modifies this
      ensures r == (if old(State()).config == None then Err(AccountMissing)
                    else if old(State()).config.value.sender != caller then Err(ConstraintViolated)
                    else Ok(()))
      ensures State() == if r.Ok? then old(State()).(config := None) else old(State())
    {
      if !initialized {
        return Err(AccountMissing);
      }
      if sender != caller {
        return Err(ConstraintViolated);
      }
      initialized := false;
      return Ok(());
    }

    /** `init` on the contact: a second registration fails and changes nothing. */
    method RegisterRecipient(recipient: Key, now: i64, newBump: byte) returns (r: Result<()>)
      modifies this
      ensures r == if recipient in old(contacts) then Err(AlreadyInUse) else Ok(())
      ensures State() == if r.Ok?
                         then old(State()).(contacts := old(contacts)[recipient := Contact(now, newBump)])
                         else old(State())
    {
      if recipient in contacts {
        return Err(AlreadyInUse);
      }
      contacts := contacts[recipient := Contact(now, newBump)];
      return Ok(());
    }
  }

  // ---- Runs -------------------------------------------------------------------

  datatype Event =
    | Set(delay: i64, bump: byte)
    | Disable
    | Register(recipient: Key, at: i64, bump: byte)

  /** What an event does to the configuration, contacts aside. */
  function ConfigStep(who: Key, mint: Key, c: Option<Config>, e: Event): Option<Config> {
    match e
    case Set(delay, bump) => (match Configure(c, who, mint, delay, bump) case Ok(d) => Some(d) case Err(_) => c)
    case Disable => if c.Some? && c.value.sender == who then None else c
    case Register(_, _, _) => c
  }

  function Step(who: Key, mint: Key, b: Book, e: Event): Book {
    Book(ConfigStep(who, mint, b.config, e),
         if e.Register? && e.recipient !in b.contacts then b.contacts[e.recipient := Contact(e.at, e.bump)] else b.contacts)
  }

  function Run(who: Key, mint: Key, b: Book, es: seq<Event>): Book
    decreases |es|
  {
    if es == [] then b else Run(who, mint, Step(who, mint, b, es[0]), es[1..])
  }

  /** Times of the registrations of r that succeed. */
  function Registrations(who: Key, mint: Key, b: Book, es: seq<Event>, r: Key): seq<i64>
    decreases |es|
  {
    if es == [] then []
    else
      (if es[0].Register? && es[0].recipient == r && r !in b.contacts then [es[0].at] else [])
      + Registrations(who, mint, Step(who, mint, b, es[0]), es[1..], r)
  }

  /** A stored contact never changes again, whatever the sender does. */
  lemma {:induction false} WriteOnce(who: Key, mint: Key, b: Book, es: seq<Event>, r: Key)
    requires r in b.contacts
    ensures Run(who, mint, b, es).Of(r) == b.Of(r)
    ensures Registrations(who, mint, b, es, r) == []
    decreases |es|
  {
    if es != [] {
      WriteOnce(who, mint, Step(who, mint, b, es[0]), es[1..], r);
    }
  }

  /** The contact of r records its one successful registration, if there was one. */
  lemma {:induction false} ContactIsItsRegistration(who: Key, mint: Key, b: Book, es: seq<Event>, r: Key)
    requires r !in b.contacts
    ensures var times := Registrations(who, mint, b, es, r);
            match Run(who, mint, b, es).Of(r)
            case None => times == []
            case Some(c) => times == [c.firstAt]
    decreases |es|
  {
    if es != [] {
      var t := Step(who, mint, b, es[0]);
      if r in t.contacts {
        WriteOnce(who, mint, t, es[1..], r);
      } else {
        ContactIsItsRegistration(who, mint, t, es[1..], r);
      }
    }
  }

  function ConfigRun(who: Key, mint: Key, c: Option<Config>, es: seq<Event>): Option<Config>
    decreases |es|
  {
    if es == [] then c else ConfigRun(who, mint, ConfigStep(who, mint, c, es[0]), es[1..])
  }

  lemma {:induction false} RunsConfig(who: Key, mint: Key, b: Book, es: seq<Event>)
    ensures Run(who, mint, b, es).config == ConfigRun(who, mint, b.config, es)
    decreases |es|
  {
    if es != [] {
      RunsConfig(who, mint, Step(who, mint, b, es[0]), es[1..]);
    }
  }

  /** The delay in force, read off the requests from the last one back: the last one asked
      for between a second and a week, unless a disable came after it. */
  function InForce(start: Option<i64>, es: seq<Event>): Option<i64> {
    if es == [] then start
    else
      match es[|es| - 1]
      case Set(delay, _) => if 1 <= delay <= 604_800 then Some(delay) else InForce(start, es[..|es| - 1])
      case Disable => None
      case Register(_, _, _) => InForce(start, es[..|es| - 1])
  }

  function DelayOf(c: Option<Config>): Option<i64> {
    if c == None then None else Some(c.value.delay)
  }

  lemma {:induction false} ConfigRunSnoc(who: Key, mint: Key, c: Option<Config>, es: seq<Event>, e: Event)
    ensures ConfigRun(who, mint, c, es + [e]) == ConfigStep(who, mint, ConfigRun(who, mint, c, es), e)
    decreases |es|
  {
    if es == [] {
      assert [e][1..] == [] && [] + [e] == [e];
    } else {
      assert (es + [e])[1..] == es[1..] + [e];
      ConfigRunSnoc(who, mint, ConfigStep(who, mint, c, es[0]), es[1..], e);
    }
  }

  /** The stored configuration is the owner's, and holds the delay in force. */
  lemma {:induction false} RunHoldsInForce(who: Key, mint: Key, c: Option<Config>, es: seq<Event>)
    requires who != ZERO_KEY && (c.Some? ==> c.value.sender == who)
    ensures var d := ConfigRun(who, mint, c, es);
            (d.Some? ==> d.value.sender == who) && DelayOf(d) == InForce(DelayOf(c), es)
    decreases |es|
  {
    if es != [] {
      var last := |es| - 1;
      assert es == es[..last] + [es[last]];
      RunHoldsInForce(who, mint, c, es[..last]);
      ConfigRunSnoc(who, mint, c, es[..last], es[last]);
    }
  }

  /** A send is approved exactly when no delay is in force, or r was registered once, at
      least the delay last asked for ago. */
  lemma ApprovedIffAged(who: Key, mint: Key, es: seq<Event>, r: Key, now: i64)
    requires who != ZERO_KEY
    ensures var b, delay := Run(who, mint, EMPTY, es), InForce(None, es);
            var times := Registrations(who, mint, EMPTY, es, r);
            && |times| <= 1
            && (b.Check(r, now).Ok? <==>
                 || delay == None
                 || (|times| == 1 && delay.value <= now - times[0] < I64_HALF))
  {
    ContactIsItsRegistration(who, mint, EMPTY, es, r);
    DelayIsPositive(who, mint, EMPTY, es);
    RunsConfig(who, mint, EMPTY, es);
    RunHoldsInForce(who, mint, None, es);
  }

  /** Why a send is refused: never registered, registered too recently, or so long ago that
      the age leaves 64 bits. */
  lemma CheckRefused(config: Config, contact: Option<Contact>, now: i64)
    ensures match CheckOpt(Some(config), contact, now)
            case Ok(_) => contact.Some? && config.delay <= now - contact.value.firstAt < I64_HALF
            case Err(e) =>
              if contact == None then e == RecipientNotRegistered
              else if -I64_HALF <= now - contact.value.firstAt < I64_HALF then
                e == WaitingPeriodActive && now - contact.value.firstAt < config.delay
              else e == Overflow
  {
  }

  /** What a configuration leaves: on the owner's record everything but the delay, on a first
      call a record of the caller's. */
  lemma ConfiguringKeepsTheRest(s: Option<Config>, who: Key, mint: Key, delay: i64, bump: byte)
    requires who != ZERO_KEY && (s.Some? ==> s.value.sender == who)
    ensures match Configure(s, who, mint, delay, bump)
            case Err(e) => e == InvalidDelay && (delay < 1 || delay > 604_800)
            case Ok(c) =>
              && 1 <= delay <= 604_800 && c.delay == delay && c.sender == who
              && (s.Some? ==> c.(delay := s.value.delay) == s.value)
              && (s == None ==> c.mint == mint && c.bump == bump)
  {
  }

  lemma {:induction false} DelayIsPositive(who: Key, mint: Key, b: Book, es: seq<Event>)
    requires b.config.Some? ==> b.config.value.delay >= MIN_DELAY
    ensures var c := Run(who, mint, b, es).config;
            c.Some? ==> c.value.delay >= MIN_DELAY
    decreases |es|
  {
    if es != [] {
      DelayIsPositive(who, mint, Step(who, mint, b, es[0]), es[1..]);
    }
  }

  /** Once r passes under delay d, it passes at every later time, through disabling and
      enabling again, until a delay above d is configured; only an age beyond the i64
      range could stop it. */
  lemma {:induction false} KeepsPassing(who: Key, mint: Key, b: Book, es: seq<Event>, r: Key, at: i64, now: i64, d: i64)
    requires r in b.contacts && at <= now && d <= at - b.contacts[r].firstAt
    requires b.config.Some? ==> b.config.value.delay <= d
    requires forall i :: 0 <= i < |es| && es[i].Set? && MIN_DELAY <= es[i].delay <= MAX_DELAY ==> es[i].delay <= d
    ensures var t := Run(who, mint, b, es);
            t.Check(r, now).Ok? <==> t.config == None || FitsI64(now - b.contacts[r].firstAt)
    decreases |es|
  {
    if es != [] {
      KeepsPassing(who, mint, Step(who, mint, b, es[0]), es[1..], r, at, now, d);
    }
  }
}
