/**
 The checkpoint file format, as a writer and a parser on values. The parser knows nothing of
 the size guards the decoder uses; that those guards are harmless is what the decoder is
 proved against. The two theorems at the end say that the format is a bijection between the
 checkpoints that encode and the byte strings that decode.
 */
module CheckpointFormat {
  import opened Common
  import opened Endian
  import opened GameState
  import opened Checkpoint
  import opened Checksum

  const HEADER_SIZE := 40
  const MAX_FILE_SIZE := 64 * 1024 * 1024
  const MAX_PAYLOAD_SIZE := MAX_FILE_SIZE - HEADER_SIZE
  const VERSION: u32 := 1
  const MAGIC: Bytes := ['L' as int, 'W' as int, 'C' as int, 'P' as int]

  datatype Error = InvalidCheckpoint | MalformedData | UnsupportedVersion | ChecksumMismatch | TooLarge

  // ---------------------------------------------------------------- writing

  function PhaseByte(p: Phase): byte {
    match p case Waiting => 0 case Running => 1 case Finished => 2
  }

  /** The bit pattern of a 32-bit two's complement integer. */
  function SignedBits(v: i32): u32 {
    v % U32_LIMIT
  }

  function MemberBytes(m: MemberRecord): Bytes {
    Big(m.playerId, 8) + (Big(|m.name|, 4) + m.name)
  }

  function PlayerBytes(p: Player): Bytes {
    Big(p.id, 8) + (Big(SignedBits(p.x), 4) + (Big(SignedBits(p.y), 4) + Big(SignedBits(p.hp), 4)))
  }

  /** The records one after the other. */
  function ManyBytes<T>(one: T -> Bytes, items: seq<T>): Bytes {
    if items == [] then [] else one(items[0]) + ManyBytes(one, items[1..])
  }

  function RoomHeadBytes(r: RoomRecord): Bytes {
    Big(r.roomId, 4) + (Big(r.capacity, 8) + (Big(r.nextPlayerId, 8)
      + ([PhaseByte(r.phase)] + (Big(r.tickId, 8) + Big(|r.members|, 4)))))
  }

  function RoomBodyBytes(r: RoomRecord): Bytes {
    ManyBytes(MemberBytes, r.members) + (Big(|r.players|, 4) + ManyBytes(PlayerBytes, r.players))
  }

  function RoomBytes(r: RoomRecord): Bytes {
    RoomHeadBytes(r) + RoomBodyBytes(r)
  }

  function SessionBytes(s: SessionRecord): Bytes {
    Big(|s.token|, 4) + (s.token + (Big(s.roomId, 4) + Big(s.playerId, 8)))
  }

  function Payload(c: ServerRecord): Bytes {
    ManyBytes(RoomBytes, c.rooms) + ManyBytes(SessionBytes, c.sessions)
  }

  function Header(c: ServerRecord, payload: Bytes): Bytes {
    MAGIC + (Big(VERSION, 4) + (Big(c.generation, 8) + (Big(|c.rooms|, 4) + (Big(|c.sessions|, 4)
      + (Big(|payload|, 8) + Big(Fnv1a(payload), 8))))))
  }

  /** The bytes of a checkpoint file, or why there are none. */
  ghost function Encoding(c: ServerRecord): Result<Bytes, Error> {
    if c.generation == 0 then Err(InvalidCheckpoint)
    else if |c.rooms| >= U32_LIMIT || |c.sessions| >= U32_LIMIT then Err(TooLarge)
    else if !ValidKeys(c) then Err(InvalidCheckpoint)
    else if |Payload(c)| > MAX_PAYLOAD_SIZE then Err(TooLarge)
    else Ok(Header(c, Payload(c)) + Payload(c))
  }

  // ---------------------------------------------------------------- parsing

  /** What was read, and the bytes after it. */
  datatype Parsed<+T> = Fail | Read(value: T, rest: Bytes) {
    predicate IsFailure() { Fail? }
    function PropagateFailure<U>(): Parsed<U> requires Fail? { Fail }
    function Extract(): (T, Bytes) requires Read? { (value, rest) }
  }

  function ParseU8(d: Bytes): Parsed<byte> {
    if |d| < 1 then Fail else Read(d[0], d[1..])
  }

  function ParseU32(d: Bytes): Parsed<u32> {
    if |d| < 4 then Fail else ValueFits(d[..4]); Read(Value(d[..4]), d[4..])
  }

  function ParseU64(d: Bytes): Parsed<u64> {
    if |d| < 8 then Fail else ValueFits(d[..8]); Read(Value(d[..8]), d[8..])
  }

  function ParseBlob(size: nat, d: Bytes): Parsed<Bytes> {
    if |d| < size then Fail else Read(d[..size], d[size..])
  }

  function PhaseOf(b: byte): Option<Phase> {
    match b case 0 => Some(Waiting) case 1 => Some(Running) case 2 => Some(Finished) case _ => None
  }

  function SignedValue(bits: u32): i32 {
    if bits < 0x8000_0000 then bits else bits - U32_LIMIT
  }

  function ParseMany<T>(parse: Bytes -> Parsed<T>, n: nat, d: Bytes): Parsed<seq<T>> {
    if n == 0 then Read([], d)
    else
      var (first, d1) :- parse(d);
      var (others, d2) :- ParseMany(parse, n - 1, d1);
      Read([first] + others, d2)
  }

  function ParseMember(d: Bytes): Parsed<MemberRecord> {
    var (id, d1) :- ParseU64(d);
    var (size, d2) :- ParseU32(d1);
    var (name, d3) :- ParseBlob(size, d2);
    Read(MemberRecord(id, name), d3)
  }

  function ParsePlayer(d: Bytes): Parsed<Player> {
    var (id, d1) :- ParseU64(d);
    var (x, d2) :- ParseU32(d1);
    var (y, d3) :- ParseU32(d2);
    var (hp, d4) :- ParseU32(d3);
    Read(Player(id, SignedValue(x), SignedValue(y), SignedValue(hp)), d4)
  }

  /** The fixed fields of a room as they stand in the file. */
  datatype RawRoom = RawRoom(id: u32, capacity: u64, next: u64, state: byte, tick: u64, memberCount: u32)

  function ParseRawRoom(d: Bytes): Parsed<RawRoom> {
    var (id, d1) :- ParseU32(d);
    var (capacity, d2) :- ParseU64(d1);
    var (next, d3) :- ParseU64(d2);
    var (state, d4) :- ParseU8(d3);
    var (tick, d5) :- ParseU64(d4);
    var (memberCount, d6) :- ParseU32(d5);
    Read(RawRoom(id, capacity, next, state, tick, memberCount), d6)
  }

  function RoomOf(raw: RawRoom, phase: Phase): RoomRecord {
    RoomRecord(raw.id, raw.capacity, raw.next, phase, raw.tick, [], [])
  }

  /** The members and players that follow the head. */
  function ParseRoomBody(head: RoomRecord, memberCount: nat, d: Bytes): Parsed<RoomRecord> {
    var (members, d1) :- ParseMany(ParseMember, memberCount, d);
    var (playerCount, d2) :- ParseU32(d1);
    var (players, d3) :- ParseMany(ParsePlayer, playerCount, d2);
    Read(head.(members := members, players := players), d3)
  }

  function ParseRoom(d: Bytes): Parsed<RoomRecord> {
    var (raw, d1) :- ParseRawRoom(d);
    match PhaseOf(raw.state)
    case None => Fail
    case Some(phase) => ParseRoomBody(RoomOf(raw, phase), raw.memberCount, d1)
  }

  function ParseSession(d: Bytes): Parsed<SessionRecord> {
    var (size, d1) :- ParseU32(d);
    var (token, d2) :- ParseBlob(size, d1);
    var (room, d3) :- ParseU32(d2);
    var (player, d4) :- ParseU64(d3);
    Read(SessionRecord(token, room, player), d4)
  }

  datatype HeaderFields = HeaderFields(
    version: u32, generation: u64, roomCount: u32, sessionCount: u32, payloadSize: u64, checksum: u64)

  /** The fixed fields after the magic. */
  function ParseHeader(d: Bytes): Parsed<HeaderFields> {
    var (version, d1) :- ParseU32(d);
    var (generation, d2) :- ParseU64(d1);
    var (roomCount, d3) :- ParseU32(d2);
    var (sessionCount, d4) :- ParseU32(d3);
    var (payloadSize, d5) :- ParseU64(d4);
    var (checksum, d6) :- ParseU64(d5);
    Read(HeaderFields(version, generation, roomCount, sessionCount, payloadSize, checksum), d6)
  }

  function ParsePayload(roomCount: nat, sessionCount: nat, d: Bytes): Parsed<(seq<RoomRecord>, seq<SessionRecord>)> {
    var (rooms, d1) :- ParseMany(ParseRoom, roomCount, d);
    var (sessions, d2) :- ParseMany(ParseSession, sessionCount, d1);
    if d2 == [] then Read((rooms, sessions), d2) else Fail
  }

  /** The checkpoint in a file, or why it is refused. */
  ghost function Decoding(d: Bytes): Result<ServerRecord, Error> {
    if |d| > MAX_FILE_SIZE then Err(TooLarge)
    else if |d| < HEADER_SIZE || d[..4] != MAGIC then Err(MalformedData)
    else
      match ParseHeader(d[4..HEADER_SIZE])
      case Fail => Err(MalformedData)
      case Read(h, _) =>
        var payload := d[HEADER_SIZE..];
        if h.version != VERSION then Err(UnsupportedVersion)
        else if h.generation == 0 then Err(InvalidCheckpoint)
        else if h.payloadSize != |payload| then Err(MalformedData)
        else if h.checksum != Fnv1a(payload) then Err(ChecksumMismatch)
        else
          match ParsePayload(h.roomCount, h.sessionCount, payload)
          case Fail => Err(MalformedData)
          case Read((rooms, sessions), _) =>
            var c := ServerRecord(h.generation, rooms, sessions);
            if ValidKeys(c) then Ok(c) else Err(InvalidCheckpoint)
  }

  lemma ValueFits(d: Bytes)
    ensures |d| == 4 ==> Value(d) < U32_LIMIT
    ensures |d| == 8 ==> Value(d) < U64_LIMIT
  {
    BigOfValue(d);
    Widths();
  }

  // ---------------------------------------------------------------- scalars: each parser inverts its writer

  lemma U32Forward(v: u32, rest: Bytes)
    ensures ParseU32(Big(v, 4) + rest) == Read(v, rest)
  {
    Widths();
    ValueOfBig(v, 4);
    assert (Big(v, 4) + rest)[..4] == Big(v, 4);
  }

  lemma U64Forward(v: u64, rest: Bytes)
    ensures ParseU64(Big(v, 8) + rest) == Read(v, rest)
  {
    Widths();
    ValueOfBig(v, 8);
    assert (Big(v, 8) + rest)[..8] == Big(v, 8);
  }

  lemma U32Backward(d: Bytes)
    requires ParseU32(d).Read?
    ensures d == Big(ParseU32(d).value, 4) + ParseU32(d).rest
  {
    BigOfValue(d[..4]);
  }

  lemma U64Backward(d: Bytes)
    requires ParseU64(d).Read?
    ensures d == Big(ParseU64(d).value, 8) + ParseU64(d).rest
  {
    BigOfValue(d[..8]);
  }

  lemma SignedRoundTrip(v: i32, bits: u32)
    ensures SignedValue(SignedBits(v)) == v && SignedBits(SignedValue(bits)) == bits
  {
  }

  lemma Regroup(a: Bytes, b: Bytes, rest: Bytes)
    ensures (a + b) + rest == a + (b + rest)
  {
  }

  /** Four parts peeled off one after the other are the four parts written one after the other. */
  lemma Assemble(d0: Bytes, d1: Bytes, d2: Bytes, d3: Bytes, d4: Bytes, a: Bytes, b: Bytes, c: Bytes, e: Bytes)
    requires d0 == a + d1 && d1 == b + d2 && d2 == c + d3 && d3 == e + d4
    ensures d0 == (a + (b + (c + e))) + d4
  {
  }

  // ---------------------------------------------------------------- records

  lemma MemberForward(m: MemberRecord, rest: Bytes)
    requires |m.name| < U32_LIMIT
    ensures ParseMember(MemberBytes(m) + rest) == Read(m, rest)
  {
    hide Big;
    var t2 := m.name + rest;
    var t1 := Big(|m.name|, 4) + t2;
    assert MemberBytes(m) + rest == Big(m.playerId, 8) + t1;
    U64Forward(m.playerId, t1);
    U32Forward(|m.name|, t2);
    assert t2[..|m.name|] == m.name && t2[|m.name|..] == rest;
  }

  lemma MemberBackward(d: Bytes)
    requires ParseMember(d).Read?
    ensures d == MemberBytes(ParseMember(d).value) + ParseMember(d).rest
    ensures |ParseMember(d).value.name| < U32_LIMIT
  {
    hide Big;
    var d1 := ParseU64(d).rest;
    var d2 := ParseU32(d1).rest;
    U64Backward(d);
    U32Backward(d1);
    var m := ParseMember(d).value;
    assert d2 == m.name + ParseMember(d).rest;
  }

  lemma PlayerForward(p: Player, rest: Bytes)
    ensures ParsePlayer(PlayerBytes(p) + rest) == Read(p, rest)
  {
    hide Big;
    var t3 := Big(SignedBits(p.hp), 4) + rest;
    var t2 := Big(SignedBits(p.y), 4) + t3;
    var t1 := Big(SignedBits(p.x), 4) + t2;
    assert PlayerBytes(p) + rest == Big(p.id, 8) + t1;
    U64Forward(p.id, t1);
    U32Forward(SignedBits(p.x), t2);
    U32Forward(SignedBits(p.y), t3);
    U32Forward(SignedBits(p.hp), rest);
  }

  lemma PlayerBackward(d: Bytes)
    requires ParsePlayer(d).Read?
    ensures d == PlayerBytes(ParsePlayer(d).value) + ParsePlayer(d).rest
  {
    hide Big;
    var d1 := ParseU64(d).rest;
    var d2 := ParseU32(d1).rest;
    var d3 := ParseU32(d2).rest;
    U64Backward(d);
    U32Backward(d1);
    U32Backward(d2);
    U32Backward(d3);
    SignedRoundTrip(0, ParseU32(d1).value);
    SignedRoundTrip(0, ParseU32(d2).value);
    SignedRoundTrip(0, ParseU32(d3).value);
  }

  lemma RoomHeadForward(r: RoomRecord, rest: Bytes)
    requires |r.members| < U32_LIMIT
    ensures var raw := RawRoom(r.roomId, r.capacity, r.nextPlayerId, PhaseByte(r.phase), r.tickId, |r.members|);
            ParseRawRoom(RoomHeadBytes(r) + rest) == Read(raw, rest)
  {
    hide Big;
    var t5 := Big(|r.members|, 4) + rest;
    var t4 := Big(r.tickId, 8) + t5;
    var t3 := [PhaseByte(r.phase)] + t4;
    var t2 := Big(r.nextPlayerId, 8) + t3;
    var t1 := Big(r.capacity, 8) + t2;
    assert RoomHeadBytes(r) + rest == Big(r.roomId, 4) + t1;
    U32Forward(r.roomId, t1);
    U64Forward(r.capacity, t2);
    U64Forward(r.nextPlayerId, t3);
    assert t3[1..] == t4;
    U64Forward(r.tickId, t5);
    U32Forward(|r.members|, rest);
  }

  lemma RoomHeadBackward(d: Bytes, r: RoomRecord)
    requires ParseRawRoom(d).Read? && PhaseOf(ParseRawRoom(d).value.state) == Some(r.phase)
    requires r.(members := [], players := []) == RoomOf(ParseRawRoom(d).value, r.phase)
    requires |r.members| == ParseRawRoom(d).value.memberCount
    ensures d == RoomHeadBytes(r) + ParseRawRoom(d).rest
  {
    hide Big, RoomHeadBytes, ParseU8, ParseU32, ParseU64, PhaseOf, PhaseByte;
    var d1 := ParseU32(d).rest;
    var d2 := ParseU64(d1).rest;
    var d3 := ParseU64(d2).rest;
    var d4 := ParseU8(d3).rest;
    var d5 := ParseU64(d4).rest;
    var d6 := ParseRawRoom(d).rest;
    assert d6 == ParseU32(d5).rest;
    assert d == Big(r.roomId, 4) + d1 by { U32Backward(d); }
    assert d1 == Big(r.capacity, 8) + d2 by { U64Backward(d1); }
    assert d2 == Big(r.nextPlayerId, 8) + d3 by { U64Backward(d2); }
    assert d3 == [PhaseByte(r.phase)] + d4 by { PhaseBackward(d3, r.phase); }
    assert d4 == Big(r.tickId, 8) + d5 by { U64Backward(d4); }
    assert d5 == Big(|r.members|, 4) + d6 by { U32Backward(d5); }
    hide *;
    HeadOfParts(d, d1, d2, d3, d4, d5, d6, r);
  }

  lemma PhaseBackward(d: Bytes, phase: Phase)
    requires ParseU8(d).Read? && PhaseOf(ParseU8(d).value) == Some(phase)
    ensures d == [PhaseByte(phase)] + ParseU8(d).rest
  {
  }

  lemma HeadOfParts(d: Bytes, d1: Bytes, d2: Bytes, d3: Bytes, d4: Bytes, d5: Bytes, d6: Bytes, r: RoomRecord)
    requires |r.members| < U32_LIMIT
    requires d == Big(r.roomId, 4) + d1 && d1 == Big(r.capacity, 8) + d2 && d2 == Big(r.nextPlayerId, 8) + d3
    requires d3 == [PhaseByte(r.phase)] + d4 && d4 == Big(r.tickId, 8) + d5 && d5 == Big(|r.members|, 4) + d6
    ensures d == RoomHeadBytes(r) + d6
  {
    var tail := [PhaseByte(r.phase)] + (Big(r.tickId, 8) + Big(|r.members|, 4));
    assert RoomHeadBytes(r) == Big(r.roomId, 4) + (Big(r.capacity, 8) + (Big(r.nextPlayerId, 8) + tail));
    hide *;
    Regroup(Big(r.tickId, 8), Big(|r.members|, 4), d6);
    Regroup([PhaseByte(r.phase)], Big(r.tickId, 8) + Big(|r.members|, 4), d6);
    Assemble(d, d1, d2, d3, d6, Big(r.roomId, 4), Big(r.capacity, 8), Big(r.nextPlayerId, 8), tail);
  }

  lemma SessionForward(s: SessionRecord, rest: Bytes)
    requires |s.token| < U32_LIMIT
    ensures ParseSession(SessionBytes(s) + rest) == Read(s, rest)
  {
    hide Big;
    var t3 := Big(s.playerId, 8) + rest;
    var t2 := Big(s.roomId, 4) + t3;
    var t1 := s.token + t2;
    assert SessionBytes(s) + rest == Big(|s.token|, 4) + t1;
    U32Forward(|s.token|, t1);
    assert t1[..|s.token|] == s.token && t1[|s.token|..] == t2;
    U32Forward(s.roomId, t3);
    U64Forward(s.playerId, rest);
  }

  lemma SessionBackward(d: Bytes)
    requires ParseSession(d).Read?
    ensures d == SessionBytes(ParseSession(d).value) + ParseSession(d).rest
    ensures |ParseSession(d).value.token| < U32_LIMIT
  {
    hide Big;
    var d1 := ParseU32(d).rest;
    var size := ParseU32(d).value;
    var d2 := d1[size..];
    var d3 := ParseU32(d2).rest;
    var s, rest := ParseSession(d).value, ParseSession(d).rest;
    U32Backward(d);
    assert d1 == s.token + d2;
    U32Backward(d2);
    U64Backward(d3);
    Assemble(d, d1, d2, d3, rest, Big(size, 4), s.token, Big(s.roomId, 4), Big(s.playerId, 8));
  }

  // ---------------------------------------------------------------- lists of records

  /** `parse` reads back exactly what `one` wrote, and nothing it did not write. */
  ghost predicate Inverts<T(!new)>(one: T -> Bytes, parse: Bytes -> Parsed<T>, fits: T -> bool) {
    && (forall v: T, rest: Bytes :: fits(v) ==> parse(one(v) + rest) == Read(v, rest))
    && (forall d: Bytes :: parse(d).Read? ==> fits(parse(d).value) && d == one(parse(d).value) + parse(d).rest)
  }

  lemma {:induction false} ManyForward<T(!new)>(
      one: T -> Bytes, parse: Bytes -> Parsed<T>, fits: T -> bool, items: seq<T>, rest: Bytes)
    requires Inverts(one, parse, fits)
    requires forall i :: 0 <= i < |items| ==> fits(items[i])
    ensures ParseMany(parse, |items|, ManyBytes(one, items) + rest) == Read(items, rest)
  {
    if items == [] {
      assert ManyBytes(one, items) + rest == rest;
    } else {
      var tail := ManyBytes(one, items[1..]) + rest;
      assert ManyBytes(one, items) + rest == one(items[0]) + tail;
      assert parse(one(items[0]) + tail) == Read(items[0], tail);
      assert [items[0]] + items[1..] == items;
      ManyForward(one, parse, fits, items[1..], rest);
    }
  }

  lemma {:induction false} ManyBackward<T(!new)>(
      one: T -> Bytes, parse: Bytes -> Parsed<T>, fits: T -> bool, n: nat, d: Bytes)
    requires Inverts(one, parse, fits)
    requires ParseMany(parse, n, d).Read?
    ensures var p := ParseMany(parse, n, d);
            |p.value| == n && (forall v :: v in p.value ==> fits(v)) && d == ManyBytes(one, p.value) + p.rest
  {
    if n > 0 {
      var first := parse(d);
      ManyBackward(one, parse, fits, n - 1, first.rest);
      var others := ParseMany(parse, n - 1, first.rest);
      assert ([first.value] + others.value)[1..] == others.value;
      Regroup(one(first.value), ManyBytes(one, others.value), others.rest);
    }
  }

  predicate MemberFits(m: MemberRecord) { |m.name| < U32_LIMIT }
  predicate PlayerFits(p: Player) { true }
  predicate SessionFits(s: SessionRecord) { |s.token| < U32_LIMIT }
  predicate RoomFits(r: RoomRecord) {
    |r.members| < U32_LIMIT && |r.players| < U32_LIMIT && forall i :: 0 <= i < |r.members| ==> MemberFits(r.members[i])
  }

  lemma MembersInvert()
    ensures Inverts(MemberBytes, ParseMember, MemberFits)
  {
    forall m: MemberRecord, rest: Bytes | MemberFits(m) ensures ParseMember(MemberBytes(m) + rest) == Read(m, rest) {
      MemberForward(m, rest);
    }
    forall d: Bytes | ParseMember(d).Read?
      ensures MemberFits(ParseMember(d).value) && d == MemberBytes(ParseMember(d).value) + ParseMember(d).rest
    {
      MemberBackward(d);
    }
  }

  lemma PlayersInvert()
    ensures Inverts(PlayerBytes, ParsePlayer, PlayerFits)
  {
    forall p: Player, rest: Bytes ensures ParsePlayer(PlayerBytes(p) + rest) == Read(p, rest) {
      PlayerForward(p, rest);
    }
    forall d: Bytes | ParsePlayer(d).Read? ensures d == PlayerBytes(ParsePlayer(d).value) + ParsePlayer(d).rest {
      PlayerBackward(d);
    }
  }

  lemma SessionsInvert()
    ensures Inverts(SessionBytes, ParseSession, SessionFits)
  {
    forall s: SessionRecord, rest: Bytes | SessionFits(s) ensures ParseSession(SessionBytes(s) + rest) == Read(s, rest) {
      SessionForward(s, rest);
    }
    forall d: Bytes | ParseSession(d).Read?
      ensures SessionFits(ParseSession(d).value) && d == SessionBytes(ParseSession(d).value) + ParseSession(d).rest
    {
      SessionBackward(d);
    }
  }

  lemma MembersForward(ms: seq<MemberRecord>, rest: Bytes)
    requires forall i :: 0 <= i < |ms| ==> MemberFits(ms[i])
    ensures ParseMany(ParseMember, |ms|, ManyBytes(MemberBytes, ms) + rest) == Read(ms, rest)
  {
    MembersInvert();
    ManyForward(MemberBytes, ParseMember, MemberFits, ms, rest);
  }

  lemma MembersBackward(n: nat, d: Bytes)
    requires ParseMany(ParseMember, n, d).Read?
    ensures var p := ParseMany(ParseMember, n, d);
            |p.value| == n && (forall m :: m in p.value ==> MemberFits(m)) && d == ManyBytes(MemberBytes, p.value) + p.rest
  {
    MembersInvert();
    ManyBackward(MemberBytes, ParseMember, MemberFits, n, d);
  }

  lemma PlayersForward(ps: seq<Player>, rest: Bytes)
    ensures ParseMany(ParsePlayer, |ps|, ManyBytes(PlayerBytes, ps) + rest) == Read(ps, rest)
  {
    PlayersInvert();
    ManyForward(PlayerBytes, ParsePlayer, PlayerFits, ps, rest);
  }

  lemma PlayersBackward(n: nat, d: Bytes)
    requires ParseMany(ParsePlayer, n, d).Read?
    ensures var p := ParseMany(ParsePlayer, n, d);
            |p.value| == n && d == ManyBytes(PlayerBytes, p.value) + p.rest
  {
    PlayersInvert();
    ManyBackward(PlayerBytes, ParsePlayer, PlayerFits, n, d);
  }

  lemma RoomBodyForward(head: RoomRecord, r: RoomRecord, rest: Bytes)
    requires RoomFits(r) && head == r.(members := [], players := [])
    ensures ParseRoomBody(head, |r.members|, RoomBodyBytes(r) + rest) == Read(r, rest)
  {
    hide Big;
    var t2 := ManyBytes(PlayerBytes, r.players) + rest;
    var t1 := Big(|r.players|, 4) + t2;
    assert RoomBodyBytes(r) + rest == ManyBytes(MemberBytes, r.members) + t1;
    MembersForward(r.members, t1);
    U32Forward(|r.players|, t2);
    PlayersForward(r.players, rest);
  }

  lemma HeadThenBody(d: Bytes, phase: Phase)
    requires ParseRawRoom(d).Read? && PhaseOf(ParseRawRoom(d).value.state) == Some(phase)
    ensures var raw := ParseRawRoom(d).value;
            ParseRoom(d) == ParseRoomBody(RoomOf(raw, phase), raw.memberCount, ParseRawRoom(d).rest)
  {
    hide ParseRawRoom, ParseRoomBody, PhaseOf;
  }

  lemma RoomForward(r: RoomRecord, rest: Bytes)
    requires RoomFits(r)
    ensures ParseRoom(RoomBytes(r) + rest) == Read(r, rest)
  {
    hide Big, RoomHeadBytes, RoomBodyBytes, ParseRawRoom, ParseRoomBody, ParseMany, ParseRoom;
    Regroup(RoomHeadBytes(r), RoomBodyBytes(r), rest);
    RoomHeadForward(r, RoomBodyBytes(r) + rest);
    RoomBodyForward(r.(members := [], players := []), r, rest);
    HeadThenBody(RoomBytes(r) + rest, r.phase);
  }

  lemma RoomBodyBackward(head: RoomRecord, memberCount: nat, d: Bytes)
    requires ParseRoomBody(head, memberCount, d).Read?
    ensures var p := ParseRoomBody(head, memberCount, d);
            && d == RoomBodyBytes(p.value) + p.rest
            && |p.value.members| == memberCount && |p.value.players| < U32_LIMIT
            && (forall i :: 0 <= i < memberCount ==> MemberFits(p.value.members[i]))
  {
    hide Big;
    var members := ParseMany(ParseMember, memberCount, d);
    var count := ParseU32(members.rest);
    MembersBackward(memberCount, d);
    U32Backward(members.rest);
    PlayersBackward(count.value, count.rest);
    var rest := ParseMany(ParsePlayer, count.value, count.rest).rest;
    Assemble(d, members.rest, count.rest, rest, rest,
             ManyBytes(MemberBytes, members.value), Big(count.value, 4),
             ManyBytes(PlayerBytes, ParseMany(ParsePlayer, count.value, count.rest).value), []);
  }

  lemma RoomBackward(d: Bytes)
    requires ParseRoom(d).Read?
    ensures RoomFits(ParseRoom(d).value)
    ensures d == RoomBytes(ParseRoom(d).value) + ParseRoom(d).rest
  {
    hide Big;
    var Read(raw, d1) := ParseRawRoom(d);
    RoomBodyBackward(RoomOf(raw, PhaseOf(raw.state).value), raw.memberCount, d1);
    RoomHeadBackward(d, ParseRoom(d).value);
  }

  lemma RoomsInvert()
    ensures Inverts(RoomBytes, ParseRoom, RoomFits)
  {
    forall r: RoomRecord, rest: Bytes | RoomFits(r) ensures ParseRoom(RoomBytes(r) + rest) == Read(r, rest) {
      RoomForward(r, rest);
    }
    forall d: Bytes | ParseRoom(d).Read?
      ensures RoomFits(ParseRoom(d).value) && d == RoomBytes(ParseRoom(d).value) + ParseRoom(d).rest
    {
      RoomBackward(d);
    }
  }

  // ---------------------------------------------------------------- the file

  lemma HeaderForward(c: ServerRecord, payload: Bytes)
    requires |c.rooms| < U32_LIMIT && |c.sessions| < U32_LIMIT && |payload| <= MAX_PAYLOAD_SIZE
    ensures var h := Header(c, payload);
            && |h| == HEADER_SIZE && h[..4] == MAGIC
            && ParseHeader(h[4..])
              == Read(HeaderFields(VERSION, c.generation, |c.rooms|, |c.sessions|, |payload|, Fnv1a(payload)), [])
  {
    hide Big;
    var t5 := Big(Fnv1a(payload), 8);
    var t4 := Big(|payload|, 8) + t5;
    var t3 := Big(|c.sessions|, 4) + t4;
    var t2 := Big(|c.rooms|, 4) + t3;
    var t1 := Big(c.generation, 8) + t2;
    assert Header(c, payload)[4..] == Big(VERSION, 4) + t1;
    U32Forward(VERSION, t1);
    U64Forward(c.generation, t2);
    U32Forward(|c.rooms|, t3);
    U32Forward(|c.sessions|, t4);
    U64Forward(|payload|, t5);
    assert t5 == t5 + [];
    U64Forward(Fnv1a(payload), []);
  }

  lemma HeaderBackward(d: Bytes)
    requires |d| == HEADER_SIZE - 4
    ensures ParseHeader(d).Read?
    ensures var h := ParseHeader(d).value;
            d == Big(h.version, 4) + (Big(h.generation, 8) + (Big(h.roomCount, 4) + (Big(h.sessionCount, 4)
                   + (Big(h.payloadSize, 8) + Big(h.checksum, 8)))))
  {
    hide Big;
    var d1 := ParseU32(d).rest;
    var d2 := ParseU64(d1).rest;
    var d3 := ParseU32(d2).rest;
    var d4 := ParseU32(d3).rest;
    var d5 := ParseU64(d4).rest;
    U32Backward(d);
    U64Backward(d1);
    U32Backward(d2);
    U32Backward(d3);
    U64Backward(d4);
    U64Backward(d5);
  }

  /** A list whose bytes stay within the payload limit cannot overflow any of its counters. */
  lemma {:induction false} SmallListsFit<T>(one: T -> Bytes, items: seq<T>, i: nat)
    requires i < |items|
    ensures |one(items[i])| <= |ManyBytes(one, items)|
  {
    if i > 0 {
      SmallListsFit(one, items[1..], i - 1);
    }
  }

  lemma {:induction false} ManyLength<T>(one: T -> Bytes, items: seq<T>, size: nat)
    requires forall v :: v in items ==> |one(v)| >= size
    ensures |ManyBytes(one, items)| >= size * |items|
  {
    if items != [] {
      ManyLength(one, items[1..], size);
      assert size * |items| == size + size * (|items| - 1);
      assert items[0] in items;
    }
  }

  lemma RoomWithinLimitFits(r: RoomRecord)
    requires |RoomBytes(r)| <= MAX_PAYLOAD_SIZE
    ensures RoomFits(r)
  {
    ManyLength(MemberBytes, r.members, 1);
    ManyLength(PlayerBytes, r.players, 1);
    forall i | 0 <= i < |r.members| ensures MemberFits(r.members[i]) {
      SmallListsFit(MemberBytes, r.members, i);
    }
  }

  lemma PayloadFits(c: ServerRecord)
    requires |Payload(c)| <= MAX_PAYLOAD_SIZE
    ensures forall i :: 0 <= i < |c.rooms| ==> RoomFits(c.rooms[i])
    ensures forall i :: 0 <= i < |c.sessions| ==> SessionFits(c.sessions[i])
  {
    forall i | 0 <= i < |c.rooms| ensures RoomFits(c.rooms[i]) {
      SmallListsFit(RoomBytes, c.rooms, i);
      RoomWithinLimitFits(c.rooms[i]);
    }
    forall i | 0 <= i < |c.sessions| ensures SessionFits(c.sessions[i]) {
      SmallListsFit(SessionBytes, c.sessions, i);
    }
  }

  lemma PayloadForward(c: ServerRecord)
    requires |Payload(c)| <= MAX_PAYLOAD_SIZE
    ensures ParsePayload(|c.rooms|, |c.sessions|, Payload(c)) == Read((c.rooms, c.sessions), [])
  {
    PayloadFits(c);
    RoomsInvert();
    ManyForward(RoomBytes, ParseRoom, RoomFits, c.rooms, ManyBytes(SessionBytes, c.sessions));
    SessionsInvert();
    var t := ManyBytes(SessionBytes, c.sessions);
    assert t == t + [];
    ManyForward(SessionBytes, ParseSession, SessionFits, c.sessions, []);
  }

  lemma PayloadBackward(roomCount: nat, sessionCount: nat, d: Bytes, c: ServerRecord)
    requires ParsePayload(roomCount, sessionCount, d).Read?
    requires ParsePayload(roomCount, sessionCount, d).value == (c.rooms, c.sessions)
    ensures |c.rooms| == roomCount && |c.sessions| == sessionCount && d == Payload(c)
  {
    var rooms := ParseMany(ParseRoom, roomCount, d);
    RoomsInvert();
    SessionsInvert();
    hide Inverts, ParseMany, ManyBytes, ParseRoom, ParseSession, RoomBytes, SessionBytes, RoomFits, SessionFits;
    ManyBackward(RoomBytes, ParseRoom, RoomFits, roomCount, d);
    ManyBackward(SessionBytes, ParseSession, SessionFits, sessionCount, rooms.rest);
  }

  /** Decoding undoes every successful encoding. */
  lemma DecodeUndoesEncode(c: ServerRecord)
    requires Encoding(c).Ok?
    ensures Decoding(Encoding(c).value) == Ok(c)
  {
    hide Big;
    var payload := Payload(c);
    var d := Encoding(c).value;
    HeaderForward(c, payload);
    assert d[..4] == Header(c, payload)[..4];
    assert d[4..HEADER_SIZE] == Header(c, payload)[4..];
    assert d[HEADER_SIZE..] == payload;
    PayloadForward(c);
  }

  /** A byte string that decodes is exactly what its checkpoint encodes to. */
  lemma EncodeUndoesDecode(d: Bytes)
    requires Decoding(d).Ok?
    ensures Encoding(Decoding(d).value) == Ok(d)
  {
    hide Big;
    var c := Decoding(d).value;
    var fields, payload := d[4..HEADER_SIZE], d[HEADER_SIZE..];
    HeaderBackward(fields);
    var h := ParseHeader(fields).value;
    PayloadBackward(h.roomCount, h.sessionCount, payload, c);
    HeaderIs(c, fields);
    ThreeParts(d);
  }

  lemma ThreeParts(d: Bytes)
    requires |d| >= HEADER_SIZE
    ensures d == (d[..4] + d[4..HEADER_SIZE]) + d[HEADER_SIZE..]
  {
  }

  lemma HeaderIs(c: ServerRecord, fields: Bytes)
    requires |fields| == HEADER_SIZE - 4 && |c.rooms| < U32_LIMIT && |c.sessions| < U32_LIMIT && |Payload(c)| < U64_LIMIT
    requires ParseHeader(fields).Read?
    requires ParseHeader(fields).value
          == HeaderFields(VERSION, c.generation, |c.rooms|, |c.sessions|, |Payload(c)|, Fnv1a(Payload(c)))
    ensures Header(c, Payload(c)) == MAGIC + fields
  {
    hide Big;
    HeaderBackward(fields);
  }

  /** No proper prefix and no proper extension of a checkpoint file is a checkpoint file. */
  lemma CutOrExtendedIsRefused(c: ServerRecord, other: Bytes)
    requires Encoding(c).Ok? && other != Encoding(c).value
    requires other <= Encoding(c).value || Encoding(c).value <= other
    ensures Decoding(other) in {Err(MalformedData), Err(TooLarge)}
  {
    hide Big;
    var d := Encoding(c).value;
    if HEADER_SIZE <= |other| <= MAX_FILE_SIZE {
      HeaderForward(c, Payload(c));
      assert other[..4] == Header(c, Payload(c))[..4];
      assert other[4..HEADER_SIZE] == Header(c, Payload(c))[4..];
      assert |other| != |d|;
    }
  }

  /** Changing any single payload byte of a checkpoint file is always noticed. */
  lemma CorruptedByteIsNoticed(c: ServerRecord, i: nat, b: byte)
    requires Encoding(c).Ok? && HEADER_SIZE <= i < |Encoding(c).value| && b != Encoding(c).value[i]
    ensures Decoding(Encoding(c).value[i := b]) == Err(ChecksumMismatch)
  {
    hide Big;
    var d := Encoding(c).value;
    var payload := Payload(c);
    HeaderForward(c, payload);
    var bad := d[i := b];
    assert bad[..4] == Header(c, payload)[..4];
    assert bad[4..HEADER_SIZE] == Header(c, payload)[4..];
    assert bad[HEADER_SIZE..] == payload[i - HEADER_SIZE := b];
    OneByteChange(payload, i - HEADER_SIZE, b);
  }
}
