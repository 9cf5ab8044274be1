/**
 * Account bytes: Anchor's eight-byte discriminator followed by the Borsh fields, the
 * decoders the rule programs write out by offset, and the write-back in place.
 */
module Records {
  import opened Base
  import opened Bytes
  import DailyLimit
  import BlockList
  import Cooloff
  import SlowSend
  import NightMode
  import FriendGate

  // The first eight bytes of SHA-256 of "account:" and the type's name.
  const DAILY_DISC: seq<byte> := [0xce, 0x04, 0x20, 0xef, 0xc9, 0xcc, 0x19, 0xe1]
  const BLOCKS_DISC: seq<byte> := [0x16, 0x59, 0xd6, 0xf7, 0x01, 0x96, 0xc8, 0xb2]
  const COOLOFF_DISC: seq<byte> := [0x63, 0x18, 0x77, 0xd6, 0xb9, 0x19, 0x43, 0xbf]
  const SLOW_DISC: seq<byte> := [0xa8, 0xa2, 0xb9, 0x20, 0xbd, 0xf7, 0x1c, 0x29]
  const CONTACT_DISC: seq<byte> := [0x47, 0x9d, 0xc1, 0xd1, 0x8f, 0x71, 0x90, 0xe2]
  const NIGHT_DISC: seq<byte> := [0x7c, 0xf6, 0x9c, 0x29, 0x0d, 0x72, 0x94, 0x59]
  const GATE_DISC: seq<byte> := [0x61, 0xd1, 0xb9, 0x9f, 0xf4, 0x69, 0x9c, 0xc9]

  // ---- Borsh serialization ------------------------------------------------------

  function Header(disc: seq<byte>, sender: Key, mint: Key): seq<byte> {
    disc + sender + mint
  }

  function EncodeDaily(d: DailyLimit.Daily): (s: seq<byte>)
    ensures |s| == 97
  {
    Header(DAILY_DISC, d.sender, d.mint) + LE(d.limit, 8) + LE(d.spent, 8) + LE(d.windowStart, 8) + [d.bump]
  }

  function EncodeCooling(c: Cooloff.Cooling): (s: seq<byte>)
    ensures |s| == 97
  {
    Header(COOLOFF_DISC, c.sender, c.mint) + LE(c.threshold, 8) + LE(c.duration, 8) + LE(c.lastLarge, 8) + [c.bump]
  }

  function Flatten(ks: seq<Key>): (s: seq<byte>)
    ensures |s| == 32 * |ks|
  {
    if ks == [] then [] else ks[0] + Flatten(ks[1..])
  }

  function EncodeBlocks(b: BlockList.Blocks): (s: seq<byte>)
    ensures |s| == 1098
  {
    Header(BLOCKS_DISC, b.sender, b.mint) + Flatten(b.blocked) + [b.count] + [b.bump]
  }

  function EncodeSlow(c: SlowSend.Config): (s: seq<byte>)
    ensures |s| == 81
  {
    Header(SLOW_DISC, c.sender, c.mint) + LE(c.delay, 8) + [c.bump]
  }

  function EncodeContact(c: SlowSend.Contact): (s: seq<byte>)
    ensures |s| == 17
  {
    CONTACT_DISC + LE(c.firstAt, 8) + [c.bump]
  }

  function EncodeNight(w: NightMode.Window): (s: seq<byte>)
    ensures |s| == 75
  {
    Header(NIGHT_DISC, w.sender, w.mint) + [w.start] + [w.end] + [w.bump]
  }

  function EncodeGate(g: FriendGate.Gate): (s: seq<byte>)
    ensures |s| == 113
  {
    Header(GATE_DISC, g.sender, g.mint) + LE(g.threshold, 8) + g.friend + [g.bump]
  }

  // ---- Decoders ------------------------------------------------------------------

  /** `try_deserialize`: discriminator, then as many bytes as the type needs. */
  function DecodeDaily(data: seq<byte>): Result<DailyLimit.Daily> {
    if |data| < 97 || data[..8] != DAILY_DISC then Err(DidNotDeserialize)
    else Ok(DailyLimit.Daily(data[8..40], data[40..72], DecodeU64(data[72..80]), DecodeU64(data[80..88]),
                             DecodeU64(data[88..96]), data[96]))
  }

  function DecodeCooling(data: seq<byte>): Result<Cooloff.Cooling> {
    if |data| < 97 || data[..8] != COOLOFF_DISC then Err(DidNotDeserialize)
    else Ok(Cooloff.Cooling(data[8..40], data[40..72], DecodeU64(data[72..80]), DecodeI64(data[80..88]),
                            DecodeI64(data[88..96]), data[96]))
  }

  function Chunks(data: seq<byte>, n: nat): (ks: seq<Key>)
    requires |data| == 32 * n
    ensures |ks| == n
    decreases n
  {
    if n == 0 then [] else [data[..32]] + Chunks(data[32..], n - 1)
  }

  function DecodeBlocks(data: seq<byte>): Result<BlockList.Blocks> {
    if |data| < 1098 || data[..8] != BLOCKS_DISC then Err(DidNotDeserialize)
    else Ok(BlockList.Blocks(data[8..40], data[40..72], Chunks(data[72..1096], 32), data[1096], data[1097]))
  }

  /** Slow send and the friend gate read their configuration by offset, unchecked but for length. */
  function ReadSlow(data: seq<byte>): Result<SlowSend.Config> {
    if |data| < 81 then Err(InvalidDestination)
    else Ok(SlowSend.Config(data[8..40], data[40..72], DecodeI64(data[72..80]), data[80]))
  }

  function ReadContact(data: seq<byte>): Result<i64> {
    if |data| < 16 then Err(RecipientNotRegistered) else Ok(DecodeI64(data[8..16]))
  }

  function ReadGate(data: seq<byte>): Result<FriendGate.Gate> {
    if |data| < 113 then Err(SysvarReadFailed)
    else Ok(FriendGate.Gate(data[8..40], data[40..72], DecodeU64(data[72..80]), data[80..112], data[112]))
  }

  /** Night mode indexes two bytes; a short account panics. */
  function ReadHours(data: seq<byte>): Result<(byte, byte)> {
    if |data| < 74 then Err(OutOfBounds) else Ok((data[72], data[73]))
  }

  /** `try_serialize` through a cursor over the account's bytes: the length stays. */
  function WriteBack(data: seq<byte>, bytes: seq<byte>): Result<seq<byte>> {
    if |bytes| > |data| then Err(DidNotDeserialize) else Ok(bytes + data[|bytes|..])
  }

  // ---- Round trips ---------------------------------------------------------------

  lemma HeaderFields(disc: seq<byte>, sender: Key, mint: Key, rest: seq<byte>)
    requires |disc| == 8
    ensures var s := Header(disc, sender, mint) + rest;
            s[..8] == disc && s[8..40] == sender && s[40..72] == mint && s[72..] == rest
  {
  }

  /** The same bytes, grouped from the right. */
  lemma Regrouped(h: seq<byte>, a: seq<byte>, b: seq<byte>, c: seq<byte>, d: seq<byte>, extra: seq<byte>)
    ensures h + a + b + c + d + extra == h + (a + (b + (c + (d + extra))))
  {
  }

  /** Cutting a tail into two fields. */
  lemma Cut(s: seq<byte>, at: nat, field: seq<byte>, rest: seq<byte>)
    requires at <= |s| && s[at..] == field + rest
    ensures s[at..at + |field|] == field && s[at + |field|..] == rest
    ensures |field| == 1 ==> s[at] == field[0]
  {
    assert s[at..at + |field|] == s[at..][..|field|];
    assert s[at + |field|..] == s[at..][|field|..];
    if |field| == 1 {
      assert s[at] == s[at..][0];
    }
  }

  // ---- The layouts in bytes: discriminator, sender and mint, then the fields ------

  lemma DailyLayout(d: DailyLimit.Daily)
    ensures EncodeDaily(d) == [206, 4, 32, 239, 201, 204, 25, 225] + d.sender + d.mint + LE(d.limit, 8) + LE(d.spent, 8) + LE(d.windowStart, 8) + [d.bump]
  {
    hide LE;
  }

  lemma CoolingLayout(c: Cooloff.Cooling)
    ensures EncodeCooling(c) == [99, 24, 119, 214, 185, 25, 67, 191] + c.sender + c.mint + LE(c.threshold, 8) + LE(c.duration, 8) + LE(c.lastLarge, 8) + [c.bump]
  {
    hide LE;
  }

  lemma BlocksLayout(b: BlockList.Blocks)
    ensures EncodeBlocks(b) == [22, 89, 214, 247, 1, 150, 200, 178] + b.sender + b.mint + Flatten(b.blocked) + [b.count] + [b.bump]
  {
    hide Flatten;
  }

  lemma SlowLayout(c: SlowSend.Config)
    ensures EncodeSlow(c) == [168, 162, 185, 32, 189, 247, 28, 41] + c.sender + c.mint + LE(c.delay, 8) + [c.bump]
  {
    hide LE;
  }

  lemma ContactLayout(c: SlowSend.Contact)
    ensures EncodeContact(c) == [71, 157, 193, 209, 143, 113, 144, 226] + LE(c.firstAt, 8) + [c.bump]
  {
    hide LE;
  }

  lemma NightLayout(w: NightMode.Window)
    ensures EncodeNight(w) == [124, 246, 156, 41, 13, 114, 148, 89] + w.sender + w.mint + [w.start] + [w.end] + [w.bump]
  {
  }

  lemma GateLayout(g: FriendGate.Gate)
    ensures EncodeGate(g) == [97, 209, 185, 159, 244, 105, 156, 201] + g.sender + g.mint + LE(g.threshold, 8) + g.friend + [g.bump]
  {
    hide LE;
  }

  /** Trailing bytes do not disturb a decoder. */
  lemma DailyRoundTrip(d: DailyLimit.Daily, extra: seq<byte>)
    ensures DecodeDaily(EncodeDaily(d) + extra) == Ok(d)
  {
    var s := EncodeDaily(d) + extra;
    var d3 := [d.bump] + extra;
    var d2 := LE(d.windowStart, 8) + d3;
    var d1 := LE(d.spent, 8) + d2;
    var d0 := LE(d.limit, 8) + d1;
    Regrouped(Header(DAILY_DISC, d.sender, d.mint), LE(d.limit, 8), LE(d.spent, 8), LE(d.windowStart, 8), [d.bump], extra);
    HeaderFields(DAILY_DISC, d.sender, d.mint, d0);
    Cut(s, 72, LE(d.limit, 8), d1);
    Cut(s, 80, LE(d.spent, 8), d2);
    Cut(s, 88, LE(d.windowStart, 8), d3);
    Cut(s, 96, [d.bump], extra);
    U64RoundTrip(d.limit);
    U64RoundTrip(d.spent);
    U64RoundTrip(d.windowStart);
  }

  lemma CoolingRoundTrip(c: Cooloff.Cooling, extra: seq<byte>)
    ensures DecodeCooling(EncodeCooling(c) + extra) == Ok(c)
  {
    var s := EncodeCooling(c) + extra;
    var d3 := [c.bump] + extra;
    var d2 := LE(c.lastLarge, 8) + d3;
    var d1 := LE(c.duration, 8) + d2;
    var d0 := LE(c.threshold, 8) + d1;
    Regrouped(Header(COOLOFF_DISC, c.sender, c.mint), LE(c.threshold, 8), LE(c.duration, 8), LE(c.lastLarge, 8), [c.bump], extra);
    HeaderFields(COOLOFF_DISC, c.sender, c.mint, d0);
    Cut(s, 72, LE(c.threshold, 8), d1);
    Cut(s, 80, LE(c.duration, 8), d2);
    Cut(s, 88, LE(c.lastLarge, 8), d3);
    Cut(s, 96, [c.bump], extra);
    U64RoundTrip(c.threshold);
    I64RoundTrip(c.duration);
    I64RoundTrip(c.lastLarge);
  }

  /** Five cuts put the first 97 bytes of an account back together. */
  lemma Fields97(data: seq<byte>)
    requires |data| >= 97
    ensures data[..97] == data[..8] + data[8..40] + data[40..72] + data[72..80] + data[80..88] + data[88..96] + [data[96]]
  {
  }

  /** An account the decoder accepts begins with the serialization of what it decodes to. */
  lemma DailyReencodes(data: seq<byte>)
    requires DecodeDaily(data).Ok?
    ensures EncodeDaily(DecodeDaily(data).value) == data[..97]
  {
    hide LE, DecodeU64;
    Fields97(data);
    WordsReencode(data[72..80]);
    WordsReencode(data[80..88]);
    WordsReencode(data[88..96]);
  }

  lemma CoolingReencodes(data: seq<byte>)
    requires DecodeCooling(data).Ok?
    ensures EncodeCooling(DecodeCooling(data).value) == data[..97]
  {
    hide LE, DecodeU64, DecodeI64;
    Fields97(data);
    WordsReencode(data[72..80]);
    WordsReencode(data[80..88]);
    WordsReencode(data[88..96]);
  }

  lemma {:induction false} ChunksOfFlatten(ks: seq<Key>)
    ensures Chunks(Flatten(ks), |ks|) == ks
  {
    if ks != [] {
      ChunksOfFlatten(ks[1..]);
      assert Flatten(ks)[..32] == ks[0] && Flatten(ks)[32..] == Flatten(ks[1..]);
    }
  }

  lemma BlocksRoundTrip(b: BlockList.Blocks, extra: seq<byte>)
    ensures DecodeBlocks(EncodeBlocks(b) + extra) == Ok(b)
  {
    var s := EncodeBlocks(b) + extra;
    var d2 := [b.bump] + extra;
    var d1 := [b.count] + d2;
    var d0 := Flatten(b.blocked) + d1;
    assert s == Header(BLOCKS_DISC, b.sender, b.mint) + d0;
    HeaderFields(BLOCKS_DISC, b.sender, b.mint, d0);
    Cut(s, 72, Flatten(b.blocked), d1);
    Cut(s, 1096, [b.count], d2);
    Cut(s, 1097, [b.bump], extra);
    ChunksOfFlatten(b.blocked);
  }

  lemma SlowRoundTrip(c: SlowSend.Config, extra: seq<byte>)
    ensures ReadSlow(EncodeSlow(c) + extra) == Ok(c)
  {
    var s := EncodeSlow(c) + extra;
    var d1 := [c.bump] + extra;
    var d0 := LE(c.delay, 8) + d1;
    assert s == Header(SLOW_DISC, c.sender, c.mint) + d0;
    HeaderFields(SLOW_DISC, c.sender, c.mint, d0);
    Cut(s, 72, LE(c.delay, 8), d1);
    Cut(s, 80, [c.bump], extra);
    I64RoundTrip(c.delay);
  }

  lemma ContactRoundTrip(c: SlowSend.Contact, extra: seq<byte>)
    ensures ReadContact(EncodeContact(c) + extra) == Ok(c.firstAt)
  {
    var s := EncodeContact(c) + extra;
    assert s[8..] == LE(c.firstAt, 8) + ([c.bump] + extra);
    Cut(s, 8, LE(c.firstAt, 8), [c.bump] + extra);
    I64RoundTrip(c.firstAt);
  }

  lemma GateRoundTrip(g: FriendGate.Gate, extra: seq<byte>)
    ensures ReadGate(EncodeGate(g) + extra) == Ok(g)
  {
    var s := EncodeGate(g) + extra;
    var d2 := [g.bump] + extra;
    var d1 := g.friend + d2;
    var d0 := LE(g.threshold, 8) + d1;
    assert s == Header(GATE_DISC, g.sender, g.mint) + d0;
    HeaderFields(GATE_DISC, g.sender, g.mint, d0);
    Cut(s, 72, LE(g.threshold, 8), d1);
    Cut(s, 80, g.friend, d2);
    Cut(s, 112, [g.bump], extra);
    U64RoundTrip(g.threshold);
  }

  lemma HoursRoundTrip(w: NightMode.Window, extra: seq<byte>)
    ensures ReadHours(EncodeNight(w) + extra) == Ok((w.start, w.end))
  {
  }

  /** Writing a changed record back keeps the length and whatever followed the record,
      and the account then decodes to the changed record. */
  lemma WriteBackRoundTrip(data: seq<byte>, d: DailyLimit.Daily, c: Cooloff.Cooling)
    ensures DecodeDaily(data).Ok? ==>
              var r := WriteBack(data, EncodeDaily(d));
              r.Ok? && |r.value| == |data| && r.value[97..] == data[97..] && DecodeDaily(r.value) == Ok(d)
    ensures DecodeCooling(data).Ok? ==>
              var r := WriteBack(data, EncodeCooling(c));
              r.Ok? && |r.value| == |data| && r.value[97..] == data[97..] && DecodeCooling(r.value) == Ok(c)
  {
    if |data| >= 97 {
      DailyRoundTrip(d, data[97..]);
      CoolingRoundTrip(c, data[97..]);
    }
  }
}
