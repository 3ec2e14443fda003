/**
 The checkpoint encoder and decoder as the server runs them: byte strings grown under a size
 limit, a reader with a position, size guards on every count. Both are proved to compute the
 format of `CheckpointFormat`, so both theorems proved there hold of them; in particular the
 guards never turn away a file that would have decoded.
 */
module CheckpointCodec {
  import opened Common
  import opened Endian
  import opened Ordering
  import opened GameState
  import opened Checkpoint
  import Checksums = Checksum
  import opened CheckpointFormat

  const MIN_ROOM_RECORD_SIZE := 37
  const MIN_MEMBER_RECORD_SIZE := 12
  const GAME_STATE_RECORD_SIZE := 20
  const MIN_SESSION_RECORD_SIZE := 16

  // ---------------------------------------------------------------- keys

  /** Room ids, tokens and identities are collected in sets; a second insertion is a duplicate. */
  method ValidCheckpointKeys(c: ServerRecord) returns (ok: bool)
    ensures ok <==> ValidKeys(c)
  {
    var roomIds: set<u32> := {};
    for i := 0 to |c.rooms|
      invariant ValidRoomKeys(c.rooms[..i])
      invariant forall id :: id in roomIds <==> exists j :: 0 <= j < i && c.rooms[j].roomId == id
    {
      if c.rooms[i].roomId in roomIds {
        return false;
      }
      roomIds := roomIds + {c.rooms[i].roomId};
    }
    assert c.rooms[..|c.rooms|] == c.rooms;
    var tokens: set<Bytes> := {};
    var identities: set<(u32, u64)> := {};
    for i := 0 to |c.sessions|
      invariant ValidSessionKeys(c.sessions[..i])
      invariant forall t :: t in tokens <==> exists j :: 0 <= j < i && c.sessions[j].token == t
      invariant forall p :: p in identities <==> exists j :: 0 <= j < i && (c.sessions[j].roomId, c.sessions[j].playerId) == p
    {
      var s := c.sessions[i];
      var wellFormed := ValidSessionToken(s.token);
      if !wellFormed || s.token in tokens || (s.roomId, s.playerId) in identities {
        return false;
      }
      tokens := tokens + {s.token};
      identities := identities + {(s.roomId, s.playerId)};
    }
    assert c.sessions[..|c.sessions|] == c.sessions;
    ok := true;
  }

  method ValidSessionToken(token: Bytes) returns (ok: bool)
    ensures ok <==> ValidToken(token)
  {
    if |token| != SESSION_TOKEN_SIZE {
      return false;
    }
    for i := 0 to |token|
      invariant forall j :: 0 <= j < i ==> LowerHex(token[j])
    {
      if !LowerHex(token[i]) {
        return false;
      }
    }
    ok := true;
  }

  // ---------------------------------------------------------------- appending under a limit

  method AppendBytes(data: Bytes, source: Bytes, limit: nat) returns (ok: bool, grown: Bytes)
    ensures ok <==> |data| + |source| <= limit
    ensures ok ==> grown == data + source
  {
    if !(|source| <= limit && |data| <= limit - |source|) {
      return false, data;
    }
    return true, data + source;
  }

  method AppendU8(data: Bytes, value: byte, limit: nat) returns (ok: bool, grown: Bytes)
    ensures ok <==> |data| + 1 <= limit
    ensures ok ==> grown == data + [value]
  {
    if !(1 <= limit && |data| <= limit - 1) {
      return false, data;
    }
    return true, data + [value];
  }

  /** The shift loop of `append_u32` and `append_u64`: `width` bytes, highest first. */
  method AppendBig(data: Bytes, value: nat, width: nat, limit: nat) returns (ok: bool, grown: Bytes)
    requires value < Pow256(width) && width > 0
    ensures ok <==> |data| + width <= limit
    ensures ok ==> grown == data + Big(value, width)
  {
    grown := data;
    var i := 0;
    while i < width
      invariant i <= width
      invariant i > 0 ==> |data| + i <= limit
      invariant grown == data + Big(ShiftRight(value, width - i), i)
    {
      NextByte(value, width, i);
      var appended, more := AppendU8(grown, ShiftRight(value, width - i - 1) % 256, limit);
      if !appended {
        return false, grown;
      }
      grown := more;
      i := i + 1;
    }
    ok := true;
  }

  method AppendU32(data: Bytes, value: u32, limit: nat) returns (ok: bool, grown: Bytes)
    ensures ok <==> |data| + 4 <= limit
    ensures ok ==> grown == data + Big(value, 4)
  {
    Widths();
    ok, grown := AppendBig(data, value, 4, limit);
  }

  method AppendU64(data: Bytes, value: u64, limit: nat) returns (ok: bool, grown: Bytes)
    ensures ok <==> |data| + 8 <= limit
    ensures ok ==> grown == data + Big(value, 8)
  {
    Widths();
    ok, grown := AppendBig(data, value, 8, limit);
  }

  // ---------------------------------------------------------------- encoding

  method EncodeMember(payload: Bytes, m: MemberRecord) returns (ok: bool, grown: Bytes)
    ensures ok <==> |payload + MemberBytes(m)| <= MAX_PAYLOAD_SIZE
    ensures ok ==> grown == payload + MemberBytes(m)
  {
    if |m.name| >= U32_LIMIT {
      return false, payload;
    }
    ok, grown := AppendU64(payload, m.playerId, MAX_PAYLOAD_SIZE);
    if ok {
      ok, grown := AppendU32(grown, |m.name|, MAX_PAYLOAD_SIZE);
    }
    if ok {
      ok, grown := AppendBytes(grown, m.name, MAX_PAYLOAD_SIZE);
    }
  }

  method EncodePlayer(payload: Bytes, p: Player) returns (ok: bool, grown: Bytes)
    ensures ok <==> |payload + PlayerBytes(p)| <= MAX_PAYLOAD_SIZE
    ensures ok ==> grown == payload + PlayerBytes(p)
  {
    ok, grown := AppendU64(payload, p.id, MAX_PAYLOAD_SIZE);
    if ok {
      ok, grown := AppendU32(grown, SignedBits(p.x), MAX_PAYLOAD_SIZE);
    }
    if ok {
      ok, grown := AppendU32(grown, SignedBits(p.y), MAX_PAYLOAD_SIZE);
    }
    if ok {
      ok, grown := AppendU32(grown, SignedBits(p.hp), MAX_PAYLOAD_SIZE);
    }
  }

  method EncodeRoomHead(payload: Bytes, r: RoomRecord) returns (ok: bool, grown: Bytes)
    requires |r.members| < U32_LIMIT
    ensures ok <==> |payload + RoomHeadBytes(r)| <= MAX_PAYLOAD_SIZE
    ensures ok ==> grown == payload + RoomHeadBytes(r)
  {
    ok, grown := AppendU32(payload, r.roomId, MAX_PAYLOAD_SIZE);
    if ok {
      ok, grown := AppendU64(grown, r.capacity, MAX_PAYLOAD_SIZE);
    }
    if ok {
      ok, grown := AppendU64(grown, r.nextPlayerId, MAX_PAYLOAD_SIZE);
    }
    if ok {
      ok, grown := AppendU8(grown, PhaseByte(r.phase), MAX_PAYLOAD_SIZE);
    }
    if ok {
      ok, grown := AppendU64(grown, r.tickId, MAX_PAYLOAD_SIZE);
    }
    if ok {
      ok, grown := AppendU32(grown, |r.members|, MAX_PAYLOAD_SIZE);
    }
  }

  /** Writing one more record at the end; once the limit is passed, no later record helps. */
  lemma {:induction false} OneMore<T>(one: T -> Bytes, items: seq<T>, i: nat)
    requires i < |items|
    ensures ManyBytes(one, items[..i + 1]) == ManyBytes(one, items[..i]) + one(items[i])
    ensures |ManyBytes(one, items[..i + 1])| <= |ManyBytes(one, items)|
  {
    if i == 0 {
      assert items[..1][1..] == [] && items[..1][0] == items[0];
    } else {
      OneMore(one, items[1..], i - 1);
      assert items[..i + 1][1..] == items[1..][..i] && items[..i][1..] == items[1..][..i - 1];
    }
  }

  /** The same behind bytes that are already there. */
  lemma OneMoreBehind<T>(before: Bytes, one: T -> Bytes, items: seq<T>, i: nat)
    requires i < |items|
    ensures before + ManyBytes(one, items[..i + 1]) == (before + ManyBytes(one, items[..i])) + one(items[i])
    ensures |before + ManyBytes(one, items[..i + 1])| <= |before + ManyBytes(one, items)|
  {
    OneMore(one, items, i);
  }

  lemma NoneAndAll<T>(before: Bytes, one: T -> Bytes, items: seq<T>)
    ensures before + ManyBytes(one, items[..0]) == before
    ensures ManyBytes(one, items[..|items|]) == ManyBytes(one, items)
  {
    assert items[..|items|] == items;
  }

  method EncodeMembers(payload: Bytes, members: seq<MemberRecord>) returns (ok: bool, grown: Bytes)
    requires |payload| <= MAX_PAYLOAD_SIZE
    ensures ok <==> |payload + ManyBytes(MemberBytes, members)| <= MAX_PAYLOAD_SIZE
    ensures ok ==> grown == payload + ManyBytes(MemberBytes, members)
  {
    grown := payload;
    NoneAndAll(payload, MemberBytes, members);
    hide ManyBytes, MemberBytes;
    for i := 0 to |members|
      invariant grown == payload + ManyBytes(MemberBytes, members[..i]) && |grown| <= MAX_PAYLOAD_SIZE
    {
      OneMoreBehind(payload, MemberBytes, members, i);
      ok, grown := EncodeMember(grown, members[i]);
      if !ok {
        return;
      }
    }
    ok := true;
  }

  method EncodePlayers(payload: Bytes, players: seq<Player>) returns (ok: bool, grown: Bytes)
    requires |payload| <= MAX_PAYLOAD_SIZE
    ensures ok <==> |payload + ManyBytes(PlayerBytes, players)| <= MAX_PAYLOAD_SIZE
    ensures ok ==> grown == payload + ManyBytes(PlayerBytes, players)
  {
    grown := payload;
    NoneAndAll(payload, PlayerBytes, players);
    hide ManyBytes, PlayerBytes;
    for i := 0 to |players|
      invariant grown == payload + ManyBytes(PlayerBytes, players[..i]) && |grown| <= MAX_PAYLOAD_SIZE
    {
      OneMoreBehind(payload, PlayerBytes, players, i);
      ok, grown := EncodePlayer(grown, players[i]);
      if !ok {
        return;
      }
    }
    ok := true;
  }

  method EncodeRoom(payload: Bytes, r: RoomRecord) returns (ok: bool, grown: Bytes)
    requires |payload| <= MAX_PAYLOAD_SIZE
    ensures ok <==> |payload + RoomBytes(r)| <= MAX_PAYLOAD_SIZE
    ensures ok ==> grown == payload + RoomBytes(r)
  {
    if |r.members| >= U32_LIMIT || |r.players| >= U32_LIMIT {
      ManyLength(MemberBytes, r.members, 1);
      ManyLength(PlayerBytes, r.players, 1);
      return false, payload;
    }
    ok, grown := EncodeRoomHead(payload, r);
    if ok {
      ok, grown := EncodeMembers(grown, r.members);
    }
    if ok {
      ok, grown := AppendU32(grown, |r.players|, MAX_PAYLOAD_SIZE);
    }
    if ok {
      ok, grown := EncodePlayers(grown, r.players);
    }
    SplitRoom(payload, r);
  }

  lemma SplitRoom(payload: Bytes, r: RoomRecord)
    ensures payload + RoomBytes(r)
         == payload + RoomHeadBytes(r) + ManyBytes(MemberBytes, r.members)
            + Big(|r.players|, 4) + ManyBytes(PlayerBytes, r.players)
  {
  }

  method EncodeSession(payload: Bytes, s: SessionRecord) returns (ok: bool, grown: Bytes)
    ensures ok <==> |payload + SessionBytes(s)| <= MAX_PAYLOAD_SIZE
    ensures ok ==> grown == payload + SessionBytes(s)
  {
    if |s.token| >= U32_LIMIT {
      return false, payload;
    }
    ok, grown := AppendU32(payload, |s.token|, MAX_PAYLOAD_SIZE);
    if ok {
      ok, grown := AppendBytes(grown, s.token, MAX_PAYLOAD_SIZE);
    }
    if ok {
      ok, grown := AppendU32(grown, s.roomId, MAX_PAYLOAD_SIZE);
    }
    if ok {
      ok, grown := AppendU64(grown, s.playerId, MAX_PAYLOAD_SIZE);
    }
  }

  method EncodePayload(c: ServerRecord) returns (ok: bool, payload: Bytes)
    ensures ok <==> |Payload(c)| <= MAX_PAYLOAD_SIZE
    ensures ok ==> payload == Payload(c)
  {
    payload := [];
    NoneAndAll([], RoomBytes, c.rooms);
    hide ManyBytes, RoomBytes, SessionBytes;
    for i := 0 to |c.rooms|
      invariant payload == ManyBytes(RoomBytes, c.rooms[..i]) && |payload| <= MAX_PAYLOAD_SIZE
    {
      OneMore(RoomBytes, c.rooms, i);
      ok, payload := EncodeRoom(payload, c.rooms[i]);
      if !ok {
        return;
      }
    }
    ghost var rooms := payload;
    NoneAndAll(rooms, SessionBytes, c.sessions);
    for i := 0 to |c.sessions|
      invariant payload == rooms + ManyBytes(SessionBytes, c.sessions[..i]) && |payload| <= MAX_PAYLOAD_SIZE
    {
      OneMoreBehind(rooms, SessionBytes, c.sessions, i);
      ok, payload := EncodeSession(payload, c.sessions[i]);
      if !ok {
        return;
      }
    }
    ok := true;
  }

  method Encode(c: ServerRecord) returns (r: Result<Bytes, Error>)
    ensures r == Encoding(c)
  {
    hide Big, ManyBytes, Checksums.Hash;
    if c.generation == 0 {
      return Err(InvalidCheckpoint);
    }
    if |c.rooms| >= U32_LIMIT || |c.sessions| >= U32_LIMIT {
      return Err(TooLarge);
    }
    var validKeys := ValidCheckpointKeys(c);
    if !validKeys {
      return Err(InvalidCheckpoint);
    }
    var ok, payload := EncodePayload(c);
    if !ok {
      return Err(TooLarge);
    }
    assert payload[0..|payload|] == payload;
    var payloadChecksum := Checksums.Checksum(payload, 0, |payload|);
    var result: Bytes;
    ok, result := EncodeHeader(c, |payload|, payloadChecksum);
    if ok {
      ok, result := AppendBytes(result, payload, MAX_FILE_SIZE);
    }
    if !ok {
      return Err(TooLarge);
    }
    r := Ok(result);
  }

  method EncodeHeader(c: ServerRecord, payloadSize: u64, payloadChecksum: u64) returns (ok: bool, grown: Bytes)
    requires |c.rooms| < U32_LIMIT && |c.sessions| < U32_LIMIT
    ensures ok && |grown| == HEADER_SIZE
    ensures grown == MAGIC + (Big(VERSION, 4) + (Big(c.generation, 8) + (Big(|c.rooms|, 4) + (Big(|c.sessions|, 4)
                       + (Big(payloadSize, 8) + Big(payloadChecksum, 8))))))
  {
    hide Big;
    ok, grown := AppendBytes([], MAGIC, MAX_FILE_SIZE);
    if ok { ok, grown := AppendU32(grown, VERSION, MAX_FILE_SIZE); }
    if ok { ok, grown := AppendU64(grown, c.generation, MAX_FILE_SIZE); }
    if ok { ok, grown := AppendU32(grown, |c.rooms|, MAX_FILE_SIZE); }
    if ok { ok, grown := AppendU32(grown, |c.sessions|, MAX_FILE_SIZE); }
    if ok { ok, grown := AppendU64(grown, payloadSize, MAX_FILE_SIZE); }
    if ok { ok, grown := AppendU64(grown, payloadChecksum, MAX_FILE_SIZE); }
  }

  // ---------------------------------------------------------------- reading

  /** Reads `data[begin..end]` from front to back. */
  class Reader {
    const data: Bytes
    const end: nat
    var position: nat

    ghost predicate Valid()
      reads this
    {
      position <= end <= |data|
    }

    ghost function Rest(): Bytes
      requires Valid()
      reads this
    {
      data[position..end]
    }

    constructor (data: Bytes, begin: nat, end: nat)
      requires begin <= end <= |data|
      ensures Valid() && this.data == data && this.end == end && position == begin
      ensures Rest() == data[begin..end]
    {
      this.data := data;
      this.position := begin;
      this.end := end;
    }

    method Remaining() returns (n: nat)
      requires Valid()
      ensures n == |Rest()|
    {
      n := end - position;
    }

    method Finished() returns (done: bool)
      requires Valid()
      ensures done <==> Rest() == []
    {
      done := position == end;
    }

    method ReadU8() returns (ok: bool, value: byte)
      requires Valid()
      modifies this
      ensures Valid() && ParseU8(old(Rest())) == Outcome(ok, value, Rest())
    {
      var remaining := Remaining();
      if remaining < 1 {
        return false, 0;
      }
      value := data[position];
      position := position + 1;
      ok := true;
    }

    /** The byte loop shared by `read_u32` and `read_u64`. */
    method ReadBig(width: nat) returns (value: nat)
      requires Valid() && width <= |Rest()|
      modifies this
      ensures Valid() && Rest() == old(Rest())[width..]
      ensures value == Value(old(Rest())[..width])
    {
      value := 0;
      ghost var before := Rest();
      for i := 0 to width
        invariant Valid() && position == old(position) + i
        invariant value == Value(before[..i])
      {
        assert before[..i + 1][..i] == before[..i];
        value := value * 256 + data[position];
        position := position + 1;
      }
    }

    method ReadU32() returns (ok: bool, value: u32)
      requires Valid()
      modifies this
      ensures Valid() && ParseU32(old(Rest())) == Outcome(ok, value, Rest())
    {
      var remaining := Remaining();
      if remaining < 4 {
        return false, 0;
      }
      ValueFits(Rest()[..4]);
      value := ReadBig(4);
      ok := true;
    }

    method ReadU64() returns (ok: bool, value: u64)
      requires Valid()
      modifies this
      ensures Valid() && ParseU64(old(Rest())) == Outcome(ok, value, Rest())
    {
      var remaining := Remaining();
      if remaining < 8 {
        return false, 0;
      }
      ValueFits(Rest()[..8]);
      value := ReadBig(8);
      ok := true;
    }

    method ReadString(size: u32) returns (ok: bool, value: Bytes)
      requires Valid()
      modifies this
      ensures Valid() && ParseBlob(size, old(Rest())) == Outcome(ok, value, Rest())
    {
      var remaining := Remaining();
      if remaining < size {
        return false, [];
      }
      value := data[position..position + size];
      assert value == Rest()[..size];
      position := position + size;
      ok := true;
    }
  }

  function Outcome<T>(ok: bool, value: T, rest: Bytes): Parsed<T> {
    if ok then Read(value, rest) else Fail
  }

  method ByteToRoomState(value: byte) returns (ok: bool, phase: Phase)
    ensures PhaseOf(value) == if ok then Some(phase) else None
    ensures ok <==> value in {PhaseByte(Waiting), PhaseByte(Running), PhaseByte(Finished)}
    ensures ok ==> PhaseByte(phase) == value
  {
    match value
    case 0 => return true, Waiting;
    case 1 => return true, Running;
    case 2 => return true, Finished;
    case _ => return false, Waiting;
  }

  // ---------------------------------------------------------------- decoding

  /** The items read so far, then whatever the rest of the list turns out to be. */
  function Continue<T>(sofar: seq<T>, p: Parsed<seq<T>>): Parsed<seq<T>> {
    match p case Fail => Fail case Read(items, rest) => Read(sofar + items, rest)
  }

  lemma ReadNothingYet<T>(p: Parsed<seq<T>>)
    ensures Continue([], p) == p
  {
    if p.Read? { assert [] + p.value == p.value; }
  }

  lemma ReadEverything<T>(parse: Bytes -> Parsed<T>, sofar: seq<T>, d: Bytes)
    ensures Continue(sofar, ParseMany(parse, 0, d)) == Read(sofar, d)
  {
    assert sofar + [] == sofar;
  }

  lemma ReadOneMore<T>(parse: Bytes -> Parsed<T>, sofar: seq<T>, n: nat, d: Bytes)
    requires n > 0
    ensures Continue(sofar, ParseMany(parse, n, d)) ==
      match parse(d)
      case Fail => Fail
      case Read(item, rest) => Continue(sofar + [item], ParseMany(parse, n - 1, rest))
  {
    if parse(d).Read? {
      var later := ParseMany(parse, n - 1, parse(d).rest);
      if later.Read? {
        assert sofar + ([parse(d).value] + later.value) == sofar + [parse(d).value] + later.value;
      }
    }
  }

  method DecodeMember(reader: Reader) returns (ok: bool, m: MemberRecord)
    requires reader.Valid()
    modifies reader
    ensures reader.Valid() && ParseMember(old(reader.Rest())) == Outcome(ok, m, reader.Rest())
  {
    m := MemberRecord(0, []);
    var id, size, name;
    ok, id := reader.ReadU64();
    if ok {
      ok, size := reader.ReadU32();
    }
    if ok {
      ok, name := reader.ReadString(size);
    }
    if ok {
      m := MemberRecord(id, name);
    }
  }

  method DecodePlayer(reader: Reader) returns (ok: bool, p: Player)
    requires reader.Valid()
    modifies reader
    ensures reader.Valid() && ParsePlayer(old(reader.Rest())) == Outcome(ok, p, reader.Rest())
  {
    p := Player(0, 0, 0, 0);
    var id, x, y, hp;
    ok, id := reader.ReadU64();
    if ok {
      ok, x := reader.ReadU32();
    }
    if ok {
      ok, y := reader.ReadU32();
    }
    if ok {
      ok, hp := reader.ReadU32();
    }
    if ok {
      p := Player(id, SignedValue(x), SignedValue(y), SignedValue(hp));
    }
  }

  method DecodeSession(reader: Reader) returns (ok: bool, s: SessionRecord)
    requires reader.Valid()
    modifies reader
    ensures reader.Valid() && ParseSession(old(reader.Rest())) == Outcome(ok, s, reader.Rest())
  {
    s := SessionRecord([], 0, 0);
    var size, token, room, player;
    ok, size := reader.ReadU32();
    if ok {
      ok, token := reader.ReadString(size);
    }
    if ok {
      ok, room := reader.ReadU32();
    }
    if ok {
      ok, player := reader.ReadU64();
    }
    if ok {
      s := SessionRecord(token, room, player);
    }
  }

  method DecodeRawRoom(reader: Reader) returns (ok: bool, raw: RawRoom)
    requires reader.Valid()
    modifies reader
    ensures reader.Valid() && ParseRawRoom(old(reader.Rest())) == Outcome(ok, raw, reader.Rest())
  {
    raw := RawRoom(0, 0, 0, 0, 0, 0);
    var id, capacity, next, state, tick, memberCount;
    ok, id := reader.ReadU32();
    if !ok {
      return;
    }
    ok, capacity := reader.ReadU64();
    if !ok {
      return;
    }
    ok, next := reader.ReadU64();
    if !ok {
      return;
    }
    ok, state := reader.ReadU8();
    if !ok {
      return;
    }
    ok, tick := reader.ReadU64();
    if !ok {
      return;
    }
    ok, memberCount := reader.ReadU32();
    if !ok {
      return;
    }
    raw := RawRoom(id, capacity, next, state, tick, memberCount);
  }

  /** A room whose declared member count cannot fit in the bytes left does not parse. */
  lemma MemberGuard(head: RoomRecord, n: nat, d: Bytes)
    requires ParseRoomBody(head, n, d).Read?
    ensures |d| >= 4 && n <= (|d| - 4) / MIN_MEMBER_RECORD_SIZE
  {
    var members := ParseMany(ParseMember, n, d);
    MembersBackward(n, d);
    ManyLength(MemberBytes, members.value, MIN_MEMBER_RECORD_SIZE);
  }

  lemma PlayerGuard(n: nat, d: Bytes)
    requires ParseMany(ParsePlayer, n, d).Read?
    ensures n <= |d| / GAME_STATE_RECORD_SIZE
  {
    PlayersBackward(n, d);
    ManyLength(PlayerBytes, ParseMany(ParsePlayer, n, d).value, GAME_STATE_RECORD_SIZE);
  }

  lemma RoomGuard(n: nat, d: Bytes)
    requires ParseMany(ParseRoom, n, d).Read?
    ensures n <= |d| / MIN_ROOM_RECORD_SIZE
  {
    RoomsInvert();
    ManyBackward(RoomBytes, ParseRoom, RoomFits, n, d);
    ManyLength(RoomBytes, ParseMany(ParseRoom, n, d).value, MIN_ROOM_RECORD_SIZE);
  }

  lemma SessionGuard(n: nat, d: Bytes)
    requires ParseMany(ParseSession, n, d).Read?
    ensures n <= |d| / MIN_SESSION_RECORD_SIZE
  {
    SessionsInvert();
    ManyBackward(SessionBytes, ParseSession, SessionFits, n, d);
    ManyLength(SessionBytes, ParseMany(ParseSession, n, d).value, MIN_SESSION_RECORD_SIZE);
  }

  method DecodeMembers(reader: Reader, n: nat) returns (ok: bool, members: seq<MemberRecord>)
    requires reader.Valid()
    modifies reader
    ensures reader.Valid() && ParseMany(ParseMember, n, old(reader.Rest())) == Outcome(ok, members, reader.Rest())
  {
    members := [];
    ghost var goal := ParseMany(ParseMember, n, reader.Rest());
    ReadNothingYet(goal);
    hide ParseMember, ParseMany, Continue;
    for i := 0 to n
      invariant reader.Valid()
      invariant goal == Continue(members, ParseMany(ParseMember, n - i, reader.Rest()))
    {
      ReadOneMore(ParseMember, members, n - i, reader.Rest());
      var m;
      ok, m := DecodeMember(reader);
      if !ok {
        return;
      }
      members := members + [m];
    }
    ReadEverything(ParseMember, members, reader.Rest());
    ok := true;
  }

  method DecodePlayers(reader: Reader, n: nat) returns (ok: bool, players: seq<Player>)
    requires reader.Valid()
    modifies reader
    ensures reader.Valid() && ParseMany(ParsePlayer, n, old(reader.Rest())) == Outcome(ok, players, reader.Rest())
  {
    players := [];
    ghost var goal := ParseMany(ParsePlayer, n, reader.Rest());
    ReadNothingYet(goal);
    hide ParsePlayer, ParseMany, Continue;
    for i := 0 to n
      invariant reader.Valid()
      invariant goal == Continue(players, ParseMany(ParsePlayer, n - i, reader.Rest()))
    {
      ReadOneMore(ParsePlayer, players, n - i, reader.Rest());
      var p;
      ok, p := DecodePlayer(reader);
      if !ok {
        return;
      }
      players := players + [p];
    }
    ReadEverything(ParsePlayer, players, reader.Rest());
    ok := true;
  }

  method DecodeRoomBody(reader: Reader, head: RoomRecord, memberCount: u32) returns (ok: bool, room: RoomRecord)
    requires reader.Valid()
    modifies reader
    ensures reader.Valid()
    ensures ParseRoomBody(head, memberCount, old(reader.Rest())) == Outcome(ok, room, reader.Rest())
  {
    room := head;
    ghost var start := reader.Rest();
    var remaining := reader.Remaining();
    if remaining < 4 || memberCount > (remaining - 4) / MIN_MEMBER_RECORD_SIZE {
      if ParseRoomBody(head, memberCount, start).Read? {
        MemberGuard(head, memberCount, start);
      }
      return false, room;
    }
    var members, playerCount, players;
    ok, members := DecodeMembers(reader, memberCount);
    if !ok {
      return;
    }
    ok, playerCount := reader.ReadU32();
    if !ok {
      return;
    }
    remaining := reader.Remaining();
    if playerCount > remaining / GAME_STATE_RECORD_SIZE {
      if ParseMany(ParsePlayer, playerCount, reader.Rest()).Read? {
        PlayerGuard(playerCount, reader.Rest());
      }
      return false, room;
    }
    ok, players := DecodePlayers(reader, playerCount);
    if ok {
      room := head.(members := members, players := players);
    }
  }

  method DecodeRoom(reader: Reader) returns (ok: bool, room: RoomRecord)
    requires reader.Valid()
    modifies reader
    ensures reader.Valid() && ParseRoom(old(reader.Rest())) == Outcome(ok, room, reader.Rest())
  {
    room := RoomRecord(0, 0, 0, Waiting, 0, [], []);
    var raw, phase;
    ok, raw := DecodeRawRoom(reader);
    if ok {
      ok, phase := ByteToRoomState(raw.state);
    }
    if ok {
      ok, room := DecodeRoomBody(reader, RoomOf(raw, phase), raw.memberCount);
    }
  }

  method ReadRooms(reader: Reader, n: u32) returns (ok: bool, rooms: seq<RoomRecord>)
    requires reader.Valid()
    modifies reader
    ensures reader.Valid() && ParseMany(ParseRoom, n, old(reader.Rest())) == Outcome(ok, rooms, reader.Rest())
  {
    rooms := [];
    ghost var goal := ParseMany(ParseRoom, n, reader.Rest());
    ReadNothingYet(goal);
    hide ParseRoom, ParseMany, Continue;
    for i := 0 to n
      invariant reader.Valid()
      invariant goal == Continue(rooms, ParseMany(ParseRoom, n - i, reader.Rest()))
    {
      ReadOneMore(ParseRoom, rooms, n - i, reader.Rest());
      var room;
      ok, room := DecodeRoom(reader);
      if !ok {
        return;
      }
      rooms := rooms + [room];
    }
    ReadEverything(ParseRoom, rooms, reader.Rest());
    ok := true;
  }

  method DecodeRooms(reader: Reader, n: u32) returns (ok: bool, rooms: seq<RoomRecord>)
    requires reader.Valid()
    modifies reader
    ensures reader.Valid() && ParseMany(ParseRoom, n, old(reader.Rest())) == Outcome(ok, rooms, reader.Rest())
  {
    var remaining := reader.Remaining();
    if n > remaining / MIN_ROOM_RECORD_SIZE {
      if ParseMany(ParseRoom, n, reader.Rest()).Read? {
        RoomGuard(n, reader.Rest());
      }
      return false, [];
    }
    ok, rooms := ReadRooms(reader, n);
  }

  method ReadSessions(reader: Reader, n: u32) returns (ok: bool, sessions: seq<SessionRecord>)
    requires reader.Valid()
    modifies reader
    ensures reader.Valid() && ParseMany(ParseSession, n, old(reader.Rest())) == Outcome(ok, sessions, reader.Rest())
  {
    sessions := [];
    ghost var goal := ParseMany(ParseSession, n, reader.Rest());
    ReadNothingYet(goal);
    hide ParseSession, ParseMany, Continue;
    for i := 0 to n
      invariant reader.Valid()
      invariant goal == Continue(sessions, ParseMany(ParseSession, n - i, reader.Rest()))
    {
      ReadOneMore(ParseSession, sessions, n - i, reader.Rest());
      var s;
      ok, s := DecodeSession(reader);
      if !ok {
        return;
      }
      sessions := sessions + [s];
    }
    ReadEverything(ParseSession, sessions, reader.Rest());
    ok := true;
  }

  method DecodeSessions(reader: Reader, n: u32) returns (ok: bool, sessions: seq<SessionRecord>)
    requires reader.Valid()
    modifies reader
    ensures reader.Valid() && ParseMany(ParseSession, n, old(reader.Rest())) == Outcome(ok, sessions, reader.Rest())
  {
    var remaining := reader.Remaining();
    if n > remaining / MIN_SESSION_RECORD_SIZE {
      if ParseMany(ParseSession, n, reader.Rest()).Read? {
        SessionGuard(n, reader.Rest());
      }
      return false, [];
    }
    ok, sessions := ReadSessions(reader, n);
  }

  method DecodePayload(data: Bytes, roomCount: u32, sessionCount: u32)
    returns (ok: bool, rooms: seq<RoomRecord>, sessions: seq<SessionRecord>)
    requires HEADER_SIZE <= |data|
    ensures ParsePayload(roomCount, sessionCount, data[HEADER_SIZE..]) == Outcome(ok, (rooms, sessions), [])
  {
    sessions := [];
    var reader := new Reader(data, HEADER_SIZE, |data|);
    assert reader.Rest() == data[HEADER_SIZE..];
    ok, rooms := DecodeRooms(reader, roomCount);
    if ok {
      ok, sessions := DecodeSessions(reader, sessionCount);
    }
    if ok {
      ok := reader.Finished();
    }
  }

  method DecodeHeader(data: Bytes) returns (h: HeaderFields)
    requires HEADER_SIZE <= |data|
    ensures ParseHeader(data[4..HEADER_SIZE]) == Read(h, [])
  {
    var header := new Reader(data, 4, HEADER_SIZE);
    var ok, version := header.ReadU32();
    var generation, roomCount, sessionCount, payloadSize, checksum;
    ok, generation := header.ReadU64();
    ok, roomCount := header.ReadU32();
    ok, sessionCount := header.ReadU32();
    ok, payloadSize := header.ReadU64();
    ok, checksum := header.ReadU64();
    h := HeaderFields(version, generation, roomCount, sessionCount, payloadSize, checksum);
  }

  method Decode(data: Bytes) returns (r: Result<ServerRecord, Error>)
    ensures r == Decoding(data)
  {
    if |data| > MAX_FILE_SIZE {
      return Err(TooLarge);
    }
    if |data| < HEADER_SIZE {
      return Err(MalformedData);
    }
    if data[..4] != MAGIC {
      return Err(MalformedData);
    }
    var h := DecodeHeader(data);
    if h.version != VERSION {
      return Err(UnsupportedVersion);
    }
    if h.generation == 0 {
      return Err(InvalidCheckpoint);
    }
    var actualSize := |data| - HEADER_SIZE;
    if h.payloadSize != actualSize {
      return Err(MalformedData);
    }
    var actualChecksum := Checksums.Checksum(data, HEADER_SIZE, actualSize);
    assert data[HEADER_SIZE..HEADER_SIZE + actualSize] == data[HEADER_SIZE..];
    if h.checksum != actualChecksum {
      return Err(ChecksumMismatch);
    }
    var ok, rooms, sessions := DecodePayload(data, h.roomCount, h.sessionCount);
    if !ok {
      return Err(MalformedData);
    }
    var temp := ServerRecord(h.generation, rooms, sessions);
    var validKeys := ValidCheckpointKeys(temp);
    if !validKeys {
      return Err(InvalidCheckpoint);
    }
    r := Ok(temp);
  }
}
