/** Machine integers, keys and results shared by every Stede program. */
module Base {
  const U64_RANGE := 0x1_0000_0000_0000_0000
  const I64_HALF := 0x8000_0000_0000_0000

  type byte = x: int | 0 <= x < 256
  type u64 = x: int | 0 <= x < U64_RANGE
  type i64 = x: int | -I64_HALF <= x < I64_HALF

  /** A public key: exactly 32 bytes. */
  type Key = k: seq<byte> | |k| == 32 witness seq(32, i => 0)

  /** `Pubkey::default()`. */
  const ZERO_KEY: Key := [0, 0, 0, 0, 0, 0, 0, 0, 0, 0, 0, 0, 0, 0, 0, 0,
                     0, 0, 0, 0, 0, 0, 0, 0, 0, 0, 0, 0, 0, 0, 0, 0]

  datatype Option<+T> = None | Some(value: T)

  datatype Result<+T> = Ok(value: T) | Err(error: Error) {
    predicate IsFailure() {
      Err?
    }

    function PropagateFailure<U>(): Result<U>
      requires Err?
    {
      Err(error)
    }

    function Extract(): T
      requires Ok?
    {
      value
    }
  }

  /** The error codes of the nine programs and the runtime errors they provoke. */
  datatype Error =
    // shared by the rules
    | InvalidConfigAccount | Overflow | DidNotDeserialize | OutOfBounds | ConstraintViolated
    // daily limit
    | DailyLimitExceeded | ZeroLimit
    // block list
    | RecipientBlocked | BlockListFull | AlreadyBlocked | NotBlocked | ZeroAddress
    // cool-off
    | CooloffActive | ZeroThreshold | InvalidDuration
    // slow send
    | RecipientNotRegistered | WaitingPeriodActive | InvalidDelay | InvalidDestination
    // night mode
    | WithinBlockedWindow | InvalidHour
    // friend gate
    | FriendSignatureRequired | ZeroFriend | FriendIsSelf | SysvarReadFailed
    // vault
    | Paused | ZeroAmount | InsufficientLocked | Unauthorized
    // handle registry
    | TooShort | TooLong | InvalidCharacters | StartsWithDigit | Reserved | NotOwner
    // system and token programs
    | AlreadyInUse | AccountMissing | InsufficientFunds | TokenOverflow

  function SatSub(a: nat, b: nat): nat {
    if a < b then 0 else a - b
  }

  /** Whether `i64::checked_sub` yields a value. */
  predicate FitsI64(x: int) {
    -I64_HALF <= x < I64_HALF
  }

  /** Rust's `%` on signed integers: the remainder takes the dividend's sign. */
  function TruncRem(a: int, b: int): int
    requires b > 0
  {
    if a >= 0 then a % b else -((-a) % b)
  }

  /** Sum of the values of a finite map. */
  ghost function SumMap<K>(m: map<K, nat>): nat
    decreases |m|
  {
    if m == map[] then 0
    else
      var k :| k in m;
      m[k] + SumMap(m - {k})
  }

  /** The choice of key in the recursion does not matter. */
  lemma {:induction false} SumMapSplit<K>(m: map<K, nat>, k: K)
    requires k in m
    ensures SumMap(m) == m[k] + SumMap(m - {k})
    decreases |m|
  {
    var j :| j in m && SumMap(m) == m[j] + SumMap(m - {j});
    if j != k {
      SumMapSplit(m - {j}, k);
      SumMapSplit(m - {k}, j);
      assert m - {j} - {k} == m - {k} - {j};
    }
  }

  function Get<K>(m: map<K, nat>, k: K): nat {
    if k in m then m[k] else 0
  }

  /** Setting one entry shifts the sum by the change of that entry. */
  lemma SumMapSet<K>(m: map<K, nat>, k: K, v: nat)
    ensures SumMap(m[k := v]) == SumMap(m) - Get(m, k) + v
  {
    var n := m[k := v];
    SumMapSplit(n, k);
    if k in m {
      SumMapSplit(m, k);
      assert n - {k} == m - {k};
    } else {
      assert n - {k} == m;
    }
  }

  /** No entry exceeds the sum. */
  lemma SumMapBound<K>(m: map<K, nat>, k: K)
    ensures Get(m, k) <= SumMap(m)
  {
    if k in m {
      SumMapSplit(m, k);
    }
  }

  /** The sum is zero exactly when every entry is. */
  lemma {:induction false} SumMapZero<K>(m: map<K, nat>)
    requires forall k :: k in m ==> m[k] == 0
    ensures SumMap(m) == 0
    decreases |m|
  {
    if m != map[] {
      var k :| k in m && SumMap(m) == m[k] + SumMap(m - {k});
      SumMapZero(m - {k});
    }
  }

  /** Moving x from one entry to another, the debit first. */
  function Move<K>(m: map<K, nat>, from: K, to: K, x: nat): map<K, nat>
    requires x <= Get(m, from)
  {
    var debited := m[from := Get(m, from) - x];
    debited[to := Get(debited, to) + x]
  }

  /** What an entry is after the move. */
  lemma MoveAt<K>(m: map<K, nat>, from: K, to: K, x: nat, k: K)
    requires x <= Get(m, from)
    ensures Get(Move(m, from, to, x), k) == Get(m, k) - (if k == from then x else 0) + (if k == to then x else 0)
  {
  }

  lemma MoveKeepsSum<K>(m: map<K, nat>, from: K, to: K, x: nat)
    requires x <= Get(m, from)
    ensures SumMap(Move(m, from, to, x)) == SumMap(m)
  {
    var debited := m[from := Get(m, from) - x];
    SumMapSet(m, from, Get(m, from) - x);
    SumMapSet(debited, to, Get(debited, to) + x);
  }
}
