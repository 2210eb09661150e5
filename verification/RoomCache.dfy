/** The room a context is in: the cache filled from join replies, the answers built from it, and the peer table. */
module RoomCache {
  import opened Options
  import opened Widths
  import opened OnlineIds

  // ---- The server's messages ----

  datatype GroupMsg = GroupMsg(
    id: u32, hasPasswd: bool, hasLabel: bool, labelBytes: seq<u8>, slotCount: u32, numMembers: u32)
  datatype BinMsg = BinMsg(id: u32, data: seq<u8>, updateDate: u64, updateMemberId: u32)

  /** `addr` is the address already parsed from its dotted form. */
  datatype MemberMsg = MemberMsg(
    npid: seq<u8>, memberId: u32, teamId: u32, isOwner: bool, bins: seq<BinMsg>, joinDate: u64, natType: u32,
    flagAttr: u32, addr: u32, port: u32, groupId: u32, accountId: u64, platform: u32)

  datatype RoomMsg = RoomMsg(
    publicSlots: u32, privateSlots: u32, openPublicSlots: u32, openPrivateSlots: u32, maxSlot: u32,
    serverId: u32, worldId: u32, lobbyId: u32, roomId: u64, passwdSlotMask: u64, joinedSlotMask: u32, flags: u32,
    groups: seq<GroupMsg>, bins: seq<BinMsg>)

  datatype JoinReply = JoinReply(room: RoomMsg, members: seq<MemberMsg>, meMemberId: u32, ownerMemberId: u32)

  // ---- What the game is shown ----

  datatype Scalars = Scalars(
    publicSlots: u16, privateSlots: u16, openPublicSlots: u16, openPrivateSlots: u16, maxSlot: u16,
    serverId: u16, worldId: u32, lobbyId: u64, roomId: u64, passwdSlotMask: u64, joinedSlotMask: u64, flags: u32)

  datatype RoomGroup = RoomGroup(
    id: u8, hasPasswd: bool, hasLabel: bool, labelBytes: seq<u8>, slots: u32, groupMembers: u32)
  datatype RoomBin = RoomBin(id: u16, lastUpdate: u64, memberId: u16, data: seq<u8>)
  datatype MemberBin = MemberBin(id: u16, lastUpdate: u64, data: seq<u8>)

  /** `group` is the place of the member's group in the room's list. */
  datatype MemberData = MemberData(
    joinDate: u64, npId: seq<u8>, memberId: u16, teamId: u8, natType: u8, flagAttr: u32,
    group: Option<nat>, bins: seq<MemberBin>)

  datatype RoomData = RoomData(scalars: Scalars, groups: seq<RoomGroup>, bins: seq<RoomBin>)

  /** `me` and `owner` are places in `members`. */
  datatype Answer = Answer(room: RoomData, members: seq<MemberData>, me: Option<nat>, owner: Option<nat>)

  // ---- The cache ----

  datatype MemberCache = MemberCache(
    npId: seq<u8>, accountId: u64, platform: u32, joinDate: u64, memberId: u16, teamId: u8, groupId: u8, natType: u8,
    flagAttr: u32, addr: u32, port: u16, bins: map<u16, MemberBin>)

  datatype RoomEntry = RoomEntry(
    scalars: Scalars, owner: bool, signalingMainMember: u16, bins: seq<RoomBin>,
    groups: map<nat, RoomGroup>, members: map<nat, MemberCache>)

  datatype Peer = Peer(memberId: u16, addr: u32, port: u16, status: int, onlineId: seq<u8>)

  datatype State = State(
    roomId: u64, myMemberId: u16, isRoomOwner: bool, rooms: map<u64, RoomEntry>, peers: map<nat, Peer>)

  const Init := State(0, 0, false, map[], map[])

  const INACTIVE: int := 0
  const PENDING: int := 1
  const ACTIVE: int := 2
  const OWNER_FLAG: u32 := 0x8000_0000

  // ---- Conversions ----

  function Label(b: seq<u8>): (l: seq<u8>)
    ensures |l| == 8
  {
    if |b| >= 8 then b[..8] else b + seq(8 - |b|, _ => 0)
  }

  function Htons(port: u16): u16 {
    port % 256 * 256 + port / 256
  }

  predicate HasOwnerFlag(flags: u32) {
    flags >= OWNER_FLAG
  }

  function WithOwnerFlag(flags: u32): u32 {
    if HasOwnerFlag(flags) then flags else flags + OWNER_FLAG
  }

  function ScalarsOf(r: RoomMsg): Scalars {
    Scalars(ToU16(r.publicSlots), ToU16(r.privateSlots), ToU16(r.openPublicSlots), ToU16(r.openPrivateSlots),
            ToU16(r.maxSlot), ToU16(r.serverId), r.worldId, r.lobbyId, r.roomId, r.passwdSlotMask, r.joinedSlotMask,
            r.flags)
  }

  function GroupOf(g: GroupMsg): RoomGroup {
    RoomGroup(ToU8(g.id), g.hasPasswd, g.hasLabel, Label(g.labelBytes), g.slotCount, g.numMembers)
  }

  function GroupsOf(gs: seq<GroupMsg>): seq<RoomGroup> {
    seq(|gs|, i requires 0 <= i < |gs| => GroupOf(gs[i]))
  }

  function RoomBinOf(b: BinMsg): RoomBin {
    RoomBin(ToU16(b.id), b.updateDate, ToU16(b.updateMemberId), b.data)
  }

  function RoomBinsOf(bs: seq<BinMsg>): seq<RoomBin> {
    seq(|bs|, i requires 0 <= i < |bs| => RoomBinOf(bs[i]))
  }

  function MemberBinsOf(bs: seq<BinMsg>): seq<MemberBin> {
    seq(|bs|, i requires 0 <= i < |bs| => MemberBin(ToU16(bs[i].id), bs[i].updateDate, bs[i].data))
  }

  function BinMap(bs: seq<MemberBin>): map<u16, MemberBin> {
    if bs == [] then map[] else BinMap(bs[..|bs| - 1])[bs[|bs| - 1].id := bs[|bs| - 1]]
  }

  function CachedMember(m: MemberMsg): MemberCache {
    MemberCache(OnlineId(m.npid), m.accountId, m.platform, m.joinDate, ToU16(m.memberId), ToU8(m.teamId),
                ToU8(m.groupId), ToU8(m.natType), m.flagAttr, m.addr, Htons(ToU16(m.port)),
                BinMap(MemberBinsOf(m.bins)))
  }

  function PeerOf(m: MemberMsg): Peer {
    Peer(ToU16(m.memberId), m.addr, Htons(ToU16(m.port)), INACTIVE, OnlineId(m.npid))
  }

  // ---- Filling the cache ----

  /** Assigning each value to its key in turn: the last one wins. */
  function KeyedMap<V>(keys: seq<nat>, vals: seq<V>): map<nat, V>
    requires |keys| == |vals|
  {
    if keys == [] then map[]
    else
      var n := |keys| - 1;
      KeyedMap(keys[..n], vals[..n])[keys[n] := vals[n]]
  }

  function GroupIds(gs: seq<RoomGroup>): seq<nat> {
    seq(|gs|, i requires 0 <= i < |gs| => gs[i].id)
  }

  function GroupMap(gs: seq<RoomGroup>): map<nat, RoomGroup> {
    KeyedMap(GroupIds(gs), gs)
  }

  function MemberIds(ms: seq<MemberMsg>): seq<nat> {
    seq(|ms|, i requires 0 <= i < |ms| => ToU16(ms[i].memberId))
  }

  function CachedMembers(ms: seq<MemberMsg>): seq<MemberCache> {
    seq(|ms|, i requires 0 <= i < |ms| => CachedMember(ms[i]))
  }

  function MemberMap(ms: seq<MemberMsg>): map<nat, MemberCache> {
    KeyedMap(MemberIds(ms), CachedMembers(ms))
  }

  lemma MemberMapStep(ms: seq<MemberMsg>)
    requires ms != []
    ensures var n := |ms| - 1;
            MemberMap(ms) == MemberMap(ms[..n])[ToU16(ms[n].memberId) := CachedMember(ms[n])]
  {
    hide CachedMember;
    var n := |ms| - 1;
    assert MemberIds(ms)[..n] == MemberIds(ms[..n]);
    assert CachedMembers(ms)[..n] == CachedMembers(ms[..n]);
  }

  /** Everybody but myself. */
  function PeerMap(ms: seq<MemberMsg>, me: u16): map<nat, Peer> {
    if ms == [] then map[]
    else
      var last := ms[|ms| - 1];
      var front := PeerMap(ms[..|ms| - 1], me);
      if ToU16(last.memberId) == me then front else front[ToU16(last.memberId) := PeerOf(last)]
  }

  function EntryOf(r: JoinReply): RoomEntry {
    RoomEntry(ScalarsOf(r.room), r.meMemberId == r.ownerMemberId, ToU16(r.ownerMemberId), RoomBinsOf(r.room.bins),
              GroupMap(GroupsOf(r.room.groups)), MemberMap(r.members))
  }

  function Join(s: State, r: JoinReply): State {
    var id := r.room.roomId;
    var kept := if s.roomId != 0 && s.roomId != id then s.rooms - {s.roomId} else s.rooms;
    State(id, ToU16(r.meMemberId), r.meMemberId == r.ownerMemberId, kept[id := EntryOf(r)],
          PeerMap(r.members, ToU16(r.meMemberId)))
  }

  function Leave(s: State, roomId: u64): State {
    if s.roomId == roomId then State(0, 0, false, s.rooms - {roomId}, map[]) else s
  }

  /** The announcement of a joining member carries its attributes without their dates. */
  function Undated(m: MemberMsg): MemberMsg {
    m.(bins := UndatedBins(m.bins))
  }

  function UndatedBins(bs: seq<BinMsg>): seq<BinMsg> {
    seq(|bs|, i requires 0 <= i < |bs| => bs[i].(updateDate := 0))
  }

  /** A member joined or left, as announced by the server. */
  function MemberJoined(s: State, roomId: u64, m: MemberMsg): State {
    if roomId !in s.rooms then s
    else
      var entry := s.rooms[roomId];
      var id := ToU16(m.memberId);
      s.(rooms := s.rooms[roomId := entry.(members := entry.members[id := CachedMember(Undated(m))])],
         peers := s.peers[id := PeerOf(m)])
  }

  function MemberLeft(s: State, roomId: u64, id: u16): State {
    if roomId !in s.rooms || id !in s.rooms[roomId].members then s
    else
      var entry := s.rooms[roomId];
      s.(rooms := s.rooms[roomId := entry.(members := entry.members - {id})], peers := s.peers - {id})
  }

  /** The first attribute with this id replaced, or a new one at the end. */
  function PutBin(bins: seq<RoomBin>, b: RoomBin): seq<RoomBin> {
    if bins == [] then [b]
    else if bins[0].id == b.id then [b] + bins[1..]
    else [bins[0]] + PutBin(bins[1..], b)
  }

  function PutBins(bins: seq<RoomBin>, updates: seq<RoomBin>): seq<RoomBin> {
    if updates == [] then bins
    else
      var n := |updates| - 1;
      PutBin(PutBins(bins, updates[..n]), updates[n])
  }

  /** The server announces new flags, a new slot mask or none, and some attributes of a room. */
  function RoomUpdated(s: State, roomId: u64, flags: u32, mask: Option<u64>, bins: seq<BinMsg>): State {
    if roomId !in s.rooms then s
    else
      var entry := s.rooms[roomId];
      var newMask := if mask.Some? then mask.value else entry.scalars.passwdSlotMask;
      s.(rooms := s.rooms[roomId := entry.(scalars := entry.scalars.(flags := flags, passwdSlotMask := newMask),
                                           bins := PutBins(entry.bins, RoomBinsOf(bins)))])
  }

  function PutMemberBins(bins: map<u16, MemberBin>, updates: seq<MemberBin>): map<u16, MemberBin> {
    if updates == [] then bins
    else
      var n := |updates| - 1;
      PutMemberBins(bins, updates[..n])[updates[n].id := updates[n]]
  }

  /** The server announces a member's team, flags, group and some attributes. */
  function MemberUpdated(s: State, roomId: u64, m: MemberMsg): State {
    var id := ToU16(m.memberId);
    if !InRoom(s, roomId, id) then s
    else
      var entry := s.rooms[roomId];
      var old' := entry.members[id];
      var new' := old'.(teamId := ToU8(m.teamId), flagAttr := m.flagAttr, groupId := ToU8(m.groupId),
                        bins := PutMemberBins(old'.bins, MemberBinsOf(m.bins)));
      s.(rooms := s.rooms[roomId := entry.(members := entry.members[id := new'])])
  }

  datatype Endpoint = Endpoint(addr: u32, port: u16)

  /** The signalling handler writes what it knows of a connection. It chose whom to write about earlier, under a lock
      it has given up since. */
  function PeerWritten(s: State, id: u16, at: Endpoint, status: int): State {
    var onlineId := if id in s.peers then s.peers[id].onlineId else [];
    s.(peers := s.peers[id := Peer(id, at.addr, at.port, status, onlineId)])
  }

  /** The connection of a peer died. */
  function PeerDied(s: State, id: u16): State {
    if id !in s.peers then s else s.(peers := s.peers[id := s.peers[id].(status := INACTIVE)])
  }

  datatype StatusAnswer = StatusAnswer(status: int, peer: Option<Peer>)

  predicate InRoom(s: State, roomId: u64, id: u16) {
    roomId in s.rooms && id in s.rooms[roomId].members
  }

  /** A status query adds the peer it asks about. */
  function AfterStatus(s: State, roomId: u64, id: u16): State {
    if !InRoom(s, roomId, id) || id in s.peers then s
    else
      var m := s.rooms[roomId].members[id];
      s.(peers := s.peers[id := Peer(id, m.addr, m.port, PENDING, m.npId)])
  }

  function StatusOf(s: State, roomId: u64, id: u16): StatusAnswer {
    if !InRoom(s, roomId, id) then StatusAnswer(INACTIVE, None)
    else
      var p := AfterStatus(s, roomId, id).peers[id];
      StatusAnswer(if p.status == ACTIVE then ACTIVE else PENDING, Some(p))
  }

  // ---- Runs ----

  datatype Op =
    | JoinOp(reply: JoinReply)
    | LeaveOp(roomId: u64)
    | StatusOp(roomId: u64, id: u16)
    | MemberJoinedOp(roomId: u64, member: MemberMsg)
    | MemberLeftOp(roomId: u64, id: u16)
    | RoomUpdatedOp(roomId: u64, flags: u32, mask: Option<u64>, bins: seq<BinMsg>)
    | MemberUpdatedOp(roomId: u64, member: MemberMsg)
    | PeerWriteOp(id: u16, at: Endpoint, status: int)
    | PeerDiedOp(id: u16)

  function Apply(s: State, op: Op): State {
    match op
    case JoinOp(r) => Join(s, r)
    case LeaveOp(id) => Leave(s, id)
    case StatusOp(room, id) => AfterStatus(s, room, id)
    case MemberJoinedOp(room, m) => MemberJoined(s, room, m)
    case MemberLeftOp(room, id) => MemberLeft(s, room, id)
    case RoomUpdatedOp(room, flags, mask, bins) => RoomUpdated(s, room, flags, mask, bins)
    case MemberUpdatedOp(room, m) => MemberUpdated(s, room, m)
    case PeerWriteOp(id, at, status) => PeerWritten(s, id, at, status)
    case PeerDiedOp(id) => PeerDied(s, id)
  }

  function Run(s: State, ops: seq<Op>): State
    decreases |ops|
  {
    if ops == [] then s else Run(Apply(s, ops[0]), ops[1..])
  }

  datatype Note = Note(at: Endpoint, status: int)

  /** The peers whose entry the signalling handler wrote last, and what it wrote; a connection that died since is
      inactive. */
  function Noted(s: State, op: Op, w: map<nat, Note>): map<nat, Note> {
    match op
    case JoinOp(_) => map[]
    case LeaveOp(room) => if room == s.roomId then map[] else w
    case MemberJoinedOp(room, m) => if room in s.rooms then w - {ToU16(m.memberId)} else w
    case MemberLeftOp(room, id) => if InRoom(s, room, id) then w - {id} else w
    case PeerWriteOp(id, at, status) => w[id := Note(at, status)]
    case PeerDiedOp(id) => if id in w then w[id := Note(w[id].at, INACTIVE)] else w
    case _ => w
  }

  function Written(s: State, ops: seq<Op>, w: map<nat, Note>): map<nat, Note>
    decreases |ops|
  {
    if ops == [] then w else Written(Apply(s, ops[0]), ops[1..], Noted(s, ops[0], w))
  }

  function Members(s: State): map<nat, MemberCache> {
    if s.roomId in s.rooms then s.rooms[s.roomId].members else map[]
  }

  predicate IsMember(p: Peer, id: nat, members: map<nat, MemberCache>) {
    && id in members && p.memberId == id
    && p.addr == members[id].addr && p.port == members[id].port && p.onlineId == members[id].npId
    && p.status != ACTIVE
  }

  ghost predicate PeersAreMembers(peers: map<nat, Peer>, members: map<nat, MemberCache>) {
    forall id :: id in peers ==> IsMember(peers[id], id, members)
  }

  predicate IsWritten(p: Peer, id: nat, n: Note) {
    p.memberId == id && p.addr == n.at.addr && p.port == n.at.port && p.status == n.status
  }

  /** Each peer is a member under that member's address and not yet connected, or was written last by the signalling
      handler. */
  ghost predicate PeersAreKnown(peers: map<nat, Peer>, members: map<nat, MemberCache>, w: map<nat, Note>) {
    && w.Keys <= peers.Keys
    && forall id :: id in peers ==>
         if id in w then IsWritten(peers[id], id, w[id]) else IsMember(peers[id], id, members)
  }

  /** Outside a room no room is cached; inside, exactly that room. */
  ghost predicate Inv(s: State, w: map<nat, Note>) {
    && s.rooms.Keys == (if s.roomId == 0 then {} else {s.roomId})
    && PeersAreKnown(s.peers, Members(s), w)
  }

  lemma {:induction false} MembersAndPeers(ms: seq<MemberMsg>, me: u16)
    ensures PeersAreMembers(PeerMap(ms, me), MemberMap(ms))
    ensures PeerMap(ms, me).Keys == MemberMap(ms).Keys - {me}
  {
    if ms != [] {
      MembersAndPeers(ms[..|ms| - 1], me);
      MemberMapStep(ms);
      hide MemberMap;
    }
  }

  /** Replies about room zero are the only ones that break the cache, and they always do. */
  lemma JoinKeepsCache(s: State, w: map<nat, Note>, r: JoinReply)
    requires Inv(s, w)
    ensures Inv(Join(s, r), map[]) <==> r.room.roomId != 0
    ensures Join(s, r).peers.Keys == MemberMap(r.members).Keys - {ToU16(r.meMemberId)}
  {
    hide MemberMap, PeerMap;
    MembersAndPeers(r.members, ToU16(r.meMemberId));
    assert r.room.roomId in Join(s, r).rooms;
  }

  /** After a reply about room zero, the next one leaves two rooms in the cache. */
  lemma RoomZeroIsNeverForgotten(zero: JoinReply, five: JoinReply)
    requires zero.room.roomId == 0 && five.room.roomId == 5
    ensures Run(Init, [JoinOp(zero), JoinOp(five)]).rooms.Keys == {0, 5}
  {
    var ops := [JoinOp(zero), JoinOp(five)];
    assert ops[1..] == [JoinOp(five)] && ops[1..][1..] == [];
    var s1 := Join(Init, zero);
    assert s1.rooms.Keys == {0};
    assert Run(s1, ops[1..]) == Join(s1, five);
  }

  lemma AnnouncedEndpoint(m: MemberMsg)
    ensures var c, p := CachedMember(Undated(m)), PeerOf(m);
            c.addr == p.addr && c.port == p.port && c.npId == p.onlineId && p.memberId == ToU16(m.memberId)
  {
  }

  lemma KnownAfterJoin(peers: map<nat, Peer>, members: map<nat, MemberCache>, w: map<nat, Note>, id: nat,
                       p: Peer, c: MemberCache)
    requires PeersAreKnown(peers, members, w) && IsMember(p, id, map[id := c])
    ensures PeersAreKnown(peers[id := p], members[id := c], w - {id})
  {
  }

  lemma KnownAfterLeave(peers: map<nat, Peer>, members: map<nat, MemberCache>, w: map<nat, Note>, id: nat)
    requires PeersAreKnown(peers, members, w)
    ensures PeersAreKnown(peers - {id}, members - {id}, w - {id})
  {
  }

  lemma JoinedKeeps(s: State, w: map<nat, Note>, roomId: u64, m: MemberMsg)
    requires Inv(s, w)
    ensures Inv(MemberJoined(s, roomId, m), Noted(s, MemberJoinedOp(roomId, m), w))
  {
    AnnouncedEndpoint(m);
    var t, id: nat := MemberJoined(s, roomId, m), ToU16(m.memberId);
    var c, p := CachedMember(Undated(m)), PeerOf(m);
    hide CachedMember, PeerOf, Undated, PeersAreKnown;
    if roomId in s.rooms {
      KnownAfterJoin(s.peers, Members(s), w, id, p, c);
      assert Members(t) == Members(s)[id := c] && t.peers == s.peers[id := p] && t.roomId == s.roomId;
      assert t.rooms.Keys == s.rooms.Keys;
      hide MemberJoined, Members;
    }
  }

  lemma LeftKeeps(s: State, w: map<nat, Note>, roomId: u64, id: u16)
    requires Inv(s, w)
    ensures Inv(MemberLeft(s, roomId, id), Noted(s, MemberLeftOp(roomId, id), w))
  {
    var t := MemberLeft(s, roomId, id);
    hide PeersAreKnown;
    if InRoom(s, roomId, id) {
      KnownAfterLeave(s.peers, Members(s), w, id);
      assert Members(t) == Members(s) - {id} && t.peers == s.peers - {id} && t.roomId == s.roomId;
      assert t.rooms.Keys == s.rooms.Keys;
      hide MemberLeft, Members;
    }
  }

  lemma UpdateKeeps(s: State, op: Op, w: map<nat, Note>)
    requires Inv(s, w) && (op.MemberUpdatedOp? || op.RoomUpdatedOp?)
    ensures Inv(Apply(s, op), Noted(s, op, w))
  {
    hide PutMemberBins, PutBins, MemberBinsOf, RoomBinsOf;
  }

  lemma WriteKeeps(s: State, op: Op, w: map<nat, Note>)
    requires Inv(s, w) && (op.PeerWriteOp? || op.PeerDiedOp?)
    ensures Inv(Apply(s, op), Noted(s, op, w))
  {
  }

  lemma PeerKeeps(s: State, op: Op, w: map<nat, Note>)
    requires Inv(s, w) && (op.LeaveOp? || op.StatusOp?)
    ensures Inv(Apply(s, op), Noted(s, op, w))
  {
  }

  lemma StepPreserves(s: State, op: Op, w: map<nat, Note>)
    requires Inv(s, w) && (op.JoinOp? ==> op.reply.room.roomId != 0)
    ensures Inv(Apply(s, op), Noted(s, op, w))
  {
    if op.JoinOp? {
      JoinKeepsCache(s, w, op.reply);
    } else if op.MemberJoinedOp? {
      JoinedKeeps(s, w, op.roomId, op.member);
    } else if op.MemberLeftOp? {
      LeftKeeps(s, w, op.roomId, op.id);
    } else if op.MemberUpdatedOp? || op.RoomUpdatedOp? {
      UpdateKeeps(s, op, w);
    } else if op.PeerWriteOp? || op.PeerDiedOp? {
      WriteKeeps(s, op, w);
    } else {
      PeerKeeps(s, op, w);
    }
    hide Inv;
  }

  lemma {:induction false} RunPreserves(s: State, ops: seq<Op>, w: map<nat, Note>)
    requires Inv(s, w) && forall op :: op in ops && op.JoinOp? ==> op.reply.room.roomId != 0
    ensures Inv(Run(s, ops), Written(s, ops, w))
    decreases |ops|
  {
    if ops != [] {
      assert ops[0] in ops;
      StepPreserves(s, ops[0], w);
      assert forall op :: op in ops[1..] ==> op in ops;
      hide Apply, Noted, Inv;
      RunPreserves(Apply(s, ops[0]), ops[1..], Noted(s, ops[0], w));
    }
  }

  /** Who is in which room, by the messages alone. */
  datatype Occupancy = Occupancy(room: u64, ids: set<nat>)

  function Occupied(o: Occupancy, op: Op): Occupancy {
    match op
    case JoinOp(r) => Occupancy(r.room.roomId, set m | m in r.members :: ToU16(m.memberId))
    case LeaveOp(room) => if room == o.room then Occupancy(0, {}) else o
    case MemberJoinedOp(room, m) => if room == o.room != 0 then o.(ids := o.ids + {ToU16(m.memberId)}) else o
    case MemberLeftOp(room, id) => if room == o.room then o.(ids := o.ids - {id}) else o
    case _ => o
  }

  function OccupiedAfter(o: Occupancy, ops: seq<Op>): Occupancy
    decreases |ops|
  {
    if ops == [] then o else OccupiedAfter(Occupied(o, ops[0]), ops[1..])
  }

  lemma JoinOccupies(r: JoinReply)
    ensures MemberMap(r.members).Keys == set m | m in r.members :: ToU16(m.memberId)
  {
    var ids, vals := MemberIds(r.members), CachedMembers(r.members);
    assert |ids| == |vals|;
    hide CachedMembers, KeyedMap;
    forall k ensures k in MemberMap(r.members) <==> exists m :: m in r.members && ToU16(m.memberId) == k {
      KeysIn(ids, vals, k);
      if k in ids {
        var i :| 0 <= i < |ids| && ids[i] == k;
        assert r.members[i] in r.members;
      }
      if m :| m in r.members && ToU16(m.memberId) == k {
        var i :| 0 <= i < |r.members| && r.members[i] == m;
        assert ids[i] == k;
      }
    }
  }

  ghost predicate Occupies(s: State, o: Occupancy) {
    s.roomId == o.room && Members(s).Keys == o.ids
  }

  lemma StepOccupies(s: State, op: Op, w: map<nat, Note>, o: Occupancy)
    requires Inv(s, w) && Occupies(s, o) && (op.JoinOp? ==> op.reply.room.roomId != 0)
    ensures Occupies(Apply(s, op), Occupied(o, op))
  {
    hide PeersAreKnown, MemberMap, CachedMember, PeerMap, PutBins, PutMemberBins;
    if op.JoinOp? {
      JoinOccupies(op.reply);
      assert Members(Apply(s, op)) == MemberMap(op.reply.members);
    }
  }

  lemma {:induction false} RunOccupies(s: State, ops: seq<Op>, w: map<nat, Note>, o: Occupancy)
    requires Inv(s, w) && Occupies(s, o) && forall op :: op in ops && op.JoinOp? ==> op.reply.room.roomId != 0
    ensures Occupies(Run(s, ops), OccupiedAfter(o, ops))
    decreases |ops|
  {
    if ops != [] {
      assert ops[0] in ops;
      StepPreserves(s, ops[0], w);
      StepOccupies(s, ops[0], w, o);
      assert forall op :: op in ops[1..] ==> op in ops;
      hide Apply, Noted, Inv, Occupies, Occupied;
      RunOccupies(Apply(s, ops[0]), ops[1..], Noted(s, ops[0], w), Occupied(o, ops[0]));
    }
  }

  /** Over every run: leaving the room empties both maps; status is inactive exactly for those who are not in the
      current room, and active exactly for those in it whose connection the signalling handler last wrote as active
      and which has not died since; a status comes with the address the server gave for that member, unless the
      handler was the last to write that peer: then with the one it wrote. Only such a peer may be no member. */
  lemma CacheFollowsTheRoom(ops: seq<Op>, roomId: u64, id: u16)
    requires forall op :: op in ops && op.JoinOp? ==> op.reply.room.roomId != 0
    ensures var s, w, o := Run(Init, ops), Written(Init, ops, map[]), OccupiedAfter(Occupancy(0, {}), ops);
            var answer := StatusOf(s, roomId, id);
            && s.roomId == o.room && Members(s).Keys == o.ids
            && s.rooms.Keys == (if o.room == 0 then {} else {o.room})
            && Leave(s, s.roomId) == Init
            && (answer.status == INACTIVE <==> roomId == 0 || roomId != o.room || id !in o.ids)
            && (answer.status == ACTIVE <==>
                  roomId != 0 && roomId == o.room && id in o.ids && id in w && w[id].status == ACTIVE)
            && answer.status in {INACTIVE, PENDING, ACTIVE}
            && (answer.peer.Some? <==> answer.status != INACTIVE)
            && (answer.status != INACTIVE ==>
                  && answer.peer.value.memberId == id
                  && Endpoint(answer.peer.value.addr, answer.peer.value.port) ==
                       if id in w then w[id].at else EndpointOf(Members(s)[id]))
            && s.peers.Keys - o.ids == w.Keys - o.ids
  {
    RunPreserves(Init, ops, map[]);
    RunOccupies(Init, ops, map[], Occupancy(0, {}));
    var s := Run(Init, ops);
    assert s.roomId != 0 ==> s.rooms - {s.roomId} == map[];
    hide Run, Written, OccupiedAfter;
  }

  /** Only such writes make the difference. */
  lemma {:induction false} OnlyWritesAreWritten(s: State, ops: seq<Op>, w: map<nat, Note>, id: u16)
    requires id in Written(s, ops, w)
    ensures var n := Written(s, ops, w)[id];
            || (id in w && w[id].at == n.at && (n.status == INACTIVE || w[id].status == n.status))
            || exists status :: PeerWriteOp(id, n.at, status) in ops && (n.status == INACTIVE || n.status == status)
    decreases |ops|
  {
    if ops != [] {
      var op, v := ops[0], Noted(s, ops[0], w);
      OnlyWritesAreWritten(Apply(s, op), ops[1..], v, id);
      assert ops == [op] + ops[1..];
      hide Written, Apply;
      if op.PeerWriteOp? && op.id == id {
        assert PeerWriteOp(id, op.at, op.status) in ops;
      }
    }
  }

  /** A write changes one peer only, and keeps the name of a known one; so does the death of a connection, which adds
      nobody; a status query adds a pending peer, and changes none that is there. */
  lemma OnePeerChanges(s: State, roomId: u64, id: u16, at: Endpoint, status: int)
    ensures var t := PeerWritten(s, id, at, status);
            && t.(peers := s.peers) == s && t.peers.Keys == s.peers.Keys + {id}
            && (forall k :: k in s.peers && k != id ==> t.peers[k] == s.peers[k])
            && (id in s.peers ==> t.peers[id].onlineId == s.peers[id].onlineId)
    ensures var t := PeerDied(s, id);
            && t.(peers := s.peers) == s && t.peers.Keys == s.peers.Keys
            && (forall k :: k in s.peers && k != id ==> t.peers[k] == s.peers[k])
            && (id in s.peers ==> t.peers[id] == s.peers[id].(status := INACTIVE))
    ensures var t := AfterStatus(s, roomId, id);
            && t.(peers := s.peers) == s && t.peers.Keys == s.peers.Keys + (if InRoom(s, roomId, id) then {id} else {})
            && (forall k :: k in s.peers ==> t.peers[k] == s.peers[k])
            && (InRoom(s, roomId, id) && id !in s.peers ==> t.peers[id].status == PENDING)
  {
  }

  function EndpointOf(m: MemberCache): Endpoint {
    Endpoint(m.addr, m.port)
  }

  /** A room is left and another joined between the choice of a peer and the write: a member of the new room who has
      the id of one of the old room is found at the other's address. */
  lemma LateWriteMisdirects(a: JoinReply, b: JoinReply, id: u16)
    requires a.room.roomId != 0 && b.room.roomId != 0
    requires id in MemberMap(a.members) && id in MemberMap(b.members)
    ensures var old' := EndpointOf(MemberMap(a.members)[id]);
            var s1 := Join(Init, a);
            var s3 := Join(Leave(s1, a.room.roomId), b);
            var answer := StatusOf(PeerWritten(s3, id, old', PENDING), b.room.roomId, id);
            && InRoom(s1, a.room.roomId, id) && Members(s3)[id] == MemberMap(b.members)[id]
            && answer.peer.Some? && Endpoint(answer.peer.value.addr, answer.peer.value.port) == old'
  {
    hide MemberMap, PeerMap;
  }

  /** A member leaves in between: the write brings the peer back, without a member. */
  lemma LateWriteRevives(s: State, id: u16, at: Endpoint, status: int)
    requires id in Members(s) && s.roomId in s.rooms
    ensures var t := PeerWritten(MemberLeft(s, s.roomId, id), id, at, status);
            id in t.peers && id !in Members(t)
  {
  }

  // ---- Answers ----

  function FindGroup(gs: seq<RoomGroup>, id: u8): Option<nat> {
    if gs == [] then None
    else
      var before := FindGroup(gs[..|gs| - 1], id);
      if before.Some? then before else if gs[|gs| - 1].id == id then Some(|gs| - 1) else None
  }

  function ShownMember(m: MemberMsg, groups: seq<RoomGroup>): MemberData {
    MemberData(m.joinDate, OnlineId(m.npid), ToU16(m.memberId), ToU8(m.teamId), ToU8(m.natType),
               if m.isOwner then WithOwnerFlag(m.flagAttr) else m.flagAttr,
               FindGroup(groups, ToU8(m.groupId)), MemberBinsOf(m.bins))
  }

  function ShownMembers(ms: seq<MemberMsg>, groups: seq<RoomGroup>): seq<MemberData> {
    seq(|ms|, i requires 0 <= i < |ms| => ShownMember(ms[i], groups))
  }

  /** The last member with this id. */
  function LastWithId(ms: seq<MemberData>, id: u16): Option<nat> {
    if ms == [] then None
    else if ms[|ms| - 1].memberId == id then Some(|ms| - 1) else LastWithId(ms[..|ms| - 1], id)
  }

  function LastOwner(ms: seq<MemberData>): Option<nat> {
    if ms == [] then None
    else if HasOwnerFlag(ms[|ms| - 1].flagAttr) then Some(|ms| - 1) else LastOwner(ms[..|ms| - 1])
  }

  /** The answer to the join itself, straight from the reply. */
  function JoinAnswer(r: JoinReply): Answer {
    var groups := GroupsOf(r.room.groups);
    var members := ShownMembers(r.members, groups);
    Answer(RoomData(ScalarsOf(r.room), groups, RoomBinsOf(r.room.bins)), members,
           LastWithId(members, ToU16(r.meMemberId)), LastWithId(members, ToU16(r.ownerMemberId)))
  }

  /** A map's values in ascending key order, keys below `hi`. */
  function InOrder<V>(m: map<nat, V>, hi: nat): seq<V> {
    if hi == 0 then []
    else InOrder(m, hi - 1) + (if hi - 1 in m then [m[hi - 1]] else [])
  }

  function CachedMemberShown(mc: MemberCache): MemberData {
    MemberData(mc.joinDate, mc.npId, mc.memberId, mc.teamId, mc.natType, mc.flagAttr, None, [])
  }

  function ShownFromCache(ms: seq<MemberCache>): seq<MemberData> {
    seq(|ms|, i requires 0 <= i < |ms| => CachedMemberShown(ms[i]))
  }

  /** The query copies id, date and bytes of a room attribute, not who updated it. */
  function QueriedBins(bs: seq<RoomBin>): seq<RoomBin> {
    seq(|bs|, i requires 0 <= i < |bs| => bs[i].(memberId := 0))
  }

  const GROUP_IDS: nat := 0x100
  const MEMBER_IDS: nat := 0x1_0000

  /** The answer to a later query, from the cache alone. */
  function QueryAnswer(s: State, roomId: u64): Option<Answer> {
    if roomId !in s.rooms then None
    else
      var rc := s.rooms[roomId];
      var members := ShownFromCache(InOrder(rc.members, MEMBER_IDS));
      Some(Answer(RoomData(rc.scalars, InOrder(rc.groups, GROUP_IDS), QueriedBins(rc.bins)), members,
                  LastWithId(members, s.myMemberId), LastOwner(members)))
  }

  // ---- What the answer to a join shows ----

  ghost predicate ScalarsShow(x: Scalars, m: RoomMsg) {
    && x.publicSlots == m.publicSlots % 0x1_0000 && x.privateSlots == m.privateSlots % 0x1_0000
    && x.openPublicSlots == m.openPublicSlots % 0x1_0000 && x.openPrivateSlots == m.openPrivateSlots % 0x1_0000
    && x.maxSlot == m.maxSlot % 0x1_0000 && x.serverId == m.serverId % 0x1_0000
    && x.worldId == m.worldId && x.lobbyId == m.lobbyId && x.roomId == m.roomId
    && x.passwdSlotMask == m.passwdSlotMask && x.joinedSlotMask == m.joinedSlotMask && x.flags == m.flags
  }

  /** The label has eight bytes, filled up with zeros. */
  ghost predicate GroupShows(g: RoomGroup, m: GroupMsg) {
    && g.id == m.id % 0x100 && g.hasPasswd == m.hasPasswd && g.hasLabel == m.hasLabel
    && g.slots == m.slotCount && g.groupMembers == m.numMembers && |g.labelBytes| == 8
    && forall i :: 0 <= i < 8 ==> g.labelBytes[i] == if i < |m.labelBytes| then m.labelBytes[i] else 0
  }

  ghost predicate RoomBinShows(b: RoomBin, m: BinMsg) {
    && b.id == m.id % 0x1_0000 && b.lastUpdate == m.updateDate && b.memberId == m.updateMemberId % 0x1_0000
    && b.data == m.data
  }

  ghost predicate MemberBinShows(b: MemberBin, m: BinMsg) {
    b.id == m.id % 0x1_0000 && b.lastUpdate == m.updateDate && b.data == m.data
  }

  /** The owner's flag is the top bit; the group is the place of the first with the member's group id. */
  ghost predicate MemberShows(d: MemberData, m: MemberMsg, groups: seq<GroupMsg>) {
    && d.joinDate == m.joinDate && d.npId == OnlineId(m.npid) && d.memberId == m.memberId % 0x1_0000
    && d.teamId == m.teamId % 0x100 && d.natType == m.natType % 0x100
    && d.flagAttr % 0x8000_0000 == m.flagAttr % 0x8000_0000
    && (d.flagAttr >= 0x8000_0000 <==> m.isOwner || m.flagAttr >= 0x8000_0000)
    && (d.group.None? <==> forall i :: 0 <= i < |groups| ==> groups[i].id % 0x100 != m.groupId % 0x100)
    && (d.group.Some? ==>
          && d.group.value < |groups| && groups[d.group.value].id % 0x100 == m.groupId % 0x100
          && forall i :: 0 <= i < d.group.value ==> groups[i].id % 0x100 != m.groupId % 0x100)
    && |d.bins| == |m.bins| && forall i :: 0 <= i < |m.bins| ==> MemberBinShows(d.bins[i], m.bins[i])
  }

  /** The last member with an id, if there is one. */
  ghost predicate IsLastWith(place: Option<nat>, ms: seq<MemberMsg>, id: u32) {
    && (place.None? <==> forall i :: 0 <= i < |ms| ==> ms[i].memberId % 0x1_0000 != id % 0x1_0000)
    && (place.Some? ==>
          && place.value < |ms| && ms[place.value].memberId % 0x1_0000 == id % 0x1_0000
          && forall i :: place.value < i < |ms| ==> ms[i].memberId % 0x1_0000 != id % 0x1_0000)
  }

  /** Field by field, the answer to a join is the reply, cut to the widths of the game's structures. */
  lemma JoinShowsTheReply(r: JoinReply)
    ensures var a := JoinAnswer(r);
            && ScalarsShow(a.room.scalars, r.room)
            && |a.room.groups| == |r.room.groups| && |a.room.bins| == |r.room.bins| && |a.members| == |r.members|
            && (forall i :: 0 <= i < |r.room.groups| ==> GroupShows(a.room.groups[i], r.room.groups[i]))
            && (forall i :: 0 <= i < |r.room.bins| ==> RoomBinShows(a.room.bins[i], r.room.bins[i]))
            && (forall i :: 0 <= i < |r.members| ==> MemberShows(a.members[i], r.members[i], r.room.groups))
            && IsLastWith(a.me, r.members, r.meMemberId) && IsLastWith(a.owner, r.members, r.ownerMemberId)
  {
    var a := JoinAnswer(r);
    hide LastWithId, FindGroup, MemberShows, IsLastWith, Label, OnlineId;
    forall i | 0 <= i < |r.room.groups| ensures GroupShows(a.room.groups[i], r.room.groups[i]) {
      LabelShows(r.room.groups[i].labelBytes);
    }
    forall i | 0 <= i < |r.members|
      ensures MemberShows(a.members[i], r.members[i], r.room.groups)
      ensures a.members[i].memberId == r.members[i].memberId % 0x1_0000
    {
      MemberIsShown(r.members[i], r.room.groups);
    }
    PlaceIsLast(r, a.me, r.meMemberId);
    PlaceIsLast(r, a.owner, r.ownerMemberId);
  }

  lemma PlaceIsLast(r: JoinReply, place: Option<nat>, id: u32)
    requires place == LastWithId(JoinAnswer(r).members, ToU16(id))
    ensures IsLastWith(place, r.members, id)
  {
    var ms := JoinAnswer(r).members;
    LastWithIdHolds(ms, ToU16(id));
    hide LastWithId, FindGroup, Label, OnlineId, GroupsOf;
    forall i | 0 <= i < |r.members| ensures ms[i].memberId == r.members[i].memberId % 0x1_0000 {
    }
  }

  lemma LabelShows(b: seq<u8>)
    ensures forall i :: 0 <= i < 8 ==> Label(b)[i] == if i < |b| then b[i] else 0
  {
  }

  lemma MemberIsShown(m: MemberMsg, groups: seq<GroupMsg>)
    ensures MemberShows(ShownMember(m, GroupsOf(groups)), m, groups)
  {
    var gs := GroupsOf(groups);
    FindGroupHolds(gs, ToU8(m.groupId));
    hide FindGroup, Label, OnlineId;
    forall i | 0 <= i < |groups| ensures gs[i].id == groups[i].id % 0x100 {
    }
  }

  /** The context remembers whether I am the owner, and who is; leaving forgets it. */
  lemma JoinNamesTheOwner(s: State, r: JoinReply)
    ensures var t := Join(s, r);
            && t.myMemberId == r.meMemberId % 0x1_0000
            && (t.isRoomOwner <==> r.meMemberId == r.ownerMemberId)
            && t.rooms[r.room.roomId].signalingMainMember == r.ownerMemberId % 0x1_0000
            && t.rooms[r.room.roomId].owner == t.isRoomOwner
  {
    hide KeyedMap, MemberMap, PeerMap, GroupMap;
  }

  // ---- Agreement of the two answers ----

  lemma {:induction false} InOrderHolds<V>(m: map<nat, V>, hi: nat)
    ensures forall k :: k in m && k < hi ==> m[k] in InOrder(m, hi)
    ensures forall v :: v in InOrder(m, hi) ==> exists k :: k in m && k < hi && m[k] == v
    ensures |InOrder(m, hi)| == |set k | k in m && k < hi|
  {
    var keys := set k | k in m && k < hi;
    if hi == 0 {
      assert keys == {};
    } else {
      InOrderHolds(m, hi - 1);
      var fewer := set k | k in m && k < hi - 1;
      if hi - 1 in m {
        assert keys == fewer + {hi - 1};
      } else {
        assert keys == fewer;
      }
    }
  }

  /** A map whose entries know their key, read in order, is strictly ascending in it. */
  lemma {:induction false} InOrderAscends<V>(m: map<nat, V>, hi: nat, key: V -> nat)
    requires forall k :: k in m ==> key(m[k]) == k
    ensures forall i, j :: 0 <= i < j < |InOrder(m, hi)| ==> key(InOrder(m, hi)[i]) < key(InOrder(m, hi)[j])
  {
    if hi > 0 {
      InOrderAscends(m, hi - 1, key);
      InOrderHolds(m, hi - 1);
      var front := InOrder(m, hi - 1);
      forall i | 0 <= i < |front| ensures key(front[i]) < hi - 1 {
        assert front[i] in front;
      }
    }
  }

  ghost predicate Distinct(keys: seq<nat>) {
    forall i, j :: 0 <= i < j < |keys| ==> keys[i] != keys[j]
  }

  /** A map update by its effect on membership and size. */
  lemma UpdateKeys<V>(m: map<nat, V>, k: nat, v: V)
    ensures m[k := v].Keys == m.Keys + {k}
    ensures |m[k := v]| == if k in m then |m| else |m| + 1
  {
  }

  /** Its keys are the keys assigned, and each holds a value from some place with that key. */
  lemma {:induction false} KeyedMapFrom<V>(keys: seq<nat>, vals: seq<V>)
    requires |keys| == |vals|
    ensures forall i :: 0 <= i < |keys| ==> keys[i] in KeyedMap(keys, vals)
    ensures forall k :: k in KeyedMap(keys, vals) ==>
              exists i :: 0 <= i < |keys| && keys[i] == k && KeyedMap(keys, vals)[k] == vals[i]
  {
    if keys != [] {
      var n := |keys| - 1;
      KeyedMapFrom(keys[..n], vals[..n]);
      var m, w := KeyedMap(keys[..n], vals[..n]), KeyedMap(keys, vals);
      assert w == m[keys[n] := vals[n]];
      hide KeyedMap;
      forall i | 0 <= i < |keys| ensures keys[i] in w {
        if i < n { assert keys[..n][i] in m; }
      }
      forall k | k in w ensures exists i :: 0 <= i < |keys| && keys[i] == k && w[k] == vals[i] {
        if k != keys[n] {
          var i :| 0 <= i < n && keys[..n][i] == k && m[k] == vals[..n][i];
          assert keys[i] == k;
        }
      }
    }
  }

  lemma DistinctFront(keys: seq<nat>)
    requires keys != []
    ensures Distinct(keys) <==> Distinct(keys[..|keys| - 1]) && keys[|keys| - 1] !in keys[..|keys| - 1]
  {
  }

  lemma KeysIn<V>(keys: seq<nat>, vals: seq<V>, k: nat)
    requires |keys| == |vals|
    ensures k in KeyedMap(keys, vals) <==> k in keys
  {
  }

  /** As many entries as there were assignments exactly if no key was repeated. */
  lemma {:induction false} KeyedMapCount<V>(keys: seq<nat>, vals: seq<V>)
    requires |keys| == |vals|
    ensures |KeyedMap(keys, vals)| <= |keys|
    ensures |KeyedMap(keys, vals)| == |keys| <==> Distinct(keys)
  {
    if keys != [] {
      hide Distinct;
      var n := |keys| - 1;
      KeyedMapCount(keys[..n], vals[..n]);
      KeysIn(keys[..n], vals[..n], keys[n]);
      UpdateKeys(KeyedMap(keys[..n], vals[..n]), keys[n], vals[n]);
      DistinctFront(keys);
    }
  }

  /** With distinct keys every place keeps its value. */
  lemma KeyedMapKeeps<V>(keys: seq<nat>, vals: seq<V>, i: nat)
    requires |keys| == |vals| && i < |keys| && Distinct(keys)
    ensures keys[i] in KeyedMap(keys, vals) && KeyedMap(keys, vals)[keys[i]] == vals[i]
  {
  }

  lemma {:induction false} LastWithIdHolds(ms: seq<MemberData>, id: u16)
    ensures LastWithId(ms, id).None? <==> forall i :: 0 <= i < |ms| ==> ms[i].memberId != id
    ensures LastWithId(ms, id).Some? ==>
              var k := LastWithId(ms, id).value;
              k < |ms| && ms[k].memberId == id && forall i :: k < i < |ms| ==> ms[i].memberId != id
  {
    if ms != [] && ms[|ms| - 1].memberId != id {
      LastWithIdHolds(ms[..|ms| - 1], id);
    }
  }

  /** The fields of a member that both answers carry. */
  ghost predicate SameMember(a: MemberData, b: MemberData) {
    && a.memberId == b.memberId && a.joinDate == b.joinDate && a.npId == b.npId
    && a.teamId == b.teamId && a.natType == b.natType
  }

  ghost predicate Among(a: MemberData, ms: seq<MemberData>) {
    exists j :: 0 <= j < |ms| && SameMember(a, ms[j])
  }

  lemma AllKeysBelow<V>(m: map<nat, V>, hi: nat)
    requires forall k :: k in m ==> k < hi
    ensures (set k | k in m && k < hi) == m.Keys
    ensures |InOrder(m, hi)| == |m|
  {
    InOrderHolds(m, hi);
    assert (set k | k in m && k < hi) == m.Keys;
  }

  /** The room fields and the internal attributes' ids, dates and bytes survive the cache for every reply. The groups
      of the query are among the reply's and ascend by id; they are all of them exactly if the ids are distinct. */
  lemma QueryAgreesOnRoom(s: State, r: JoinReply)
    ensures var q := QueryAnswer(Join(s, r), r.room.roomId);
            var a := JoinAnswer(r);
            && q.Some?
            && q.value.room.scalars == a.room.scalars
            && |q.value.room.bins| == |a.room.bins|
            && (forall i :: 0 <= i < |a.room.bins| ==> q.value.room.bins[i] == a.room.bins[i].(memberId := 0))
            && (forall g :: g in q.value.room.groups ==> g in a.room.groups)
            && (forall i, j :: 0 <= i < j < |q.value.room.groups| ==>
                  q.value.room.groups[i].id < q.value.room.groups[j].id)
            && (|q.value.room.groups| == |a.room.groups| <==> Distinct(GroupIds(a.room.groups)))
            && (Distinct(GroupIds(a.room.groups)) ==> forall g :: g in a.room.groups ==> g in q.value.room.groups)
  {
    hide KeyedMap, InOrder, PeerMap, MemberMap, LastWithId, LastOwner, GroupsOf, GroupMap, GroupIds;
    hide ShownMember, Distinct;
    GroupsSurvive(GroupsOf(r.room.groups));
  }

  lemma GroupsSurvive(gs: seq<RoomGroup>)
    ensures var q := InOrder(GroupMap(gs), GROUP_IDS);
            && (forall g :: g in q ==> g in gs)
            && (forall i, j :: 0 <= i < j < |q| ==> q[i].id < q[j].id)
            && (|q| == |gs| <==> Distinct(GroupIds(gs)))
            && (Distinct(GroupIds(gs)) ==> forall g :: g in gs ==> g in q)
  {
    hide KeyedMap, InOrder;
    var m: map<nat, RoomGroup> := GroupMap(gs);
    KeyedMapFrom(GroupIds(gs), gs);
    forall k | k in m ensures m[k].id == k && k < GROUP_IDS && m[k] in gs {
      var i :| 0 <= i < |gs| && GroupIds(gs)[i] == k && m[k] == gs[i];
    }
    KeyedMapCount(GroupIds(gs), gs);
    InOrderHolds(m, GROUP_IDS);
    AllKeysBelow(m, GROUP_IDS);
    InOrderAscends(m, GROUP_IDS, (g: RoomGroup) => g.id);
    if Distinct(GroupIds(gs)) {
      forall g | g in gs ensures g in InOrder(m, GROUP_IDS) {
        var i :| 0 <= i < |gs| && gs[i] == g;
        KeyedMapKeeps(GroupIds(gs), gs, i);
        assert m[GroupIds(gs)[i]] == g;
      }
    }
  }

  /** What the query shows of a member. */
  function Recalled(m: MemberMsg): MemberData {
    CachedMemberShown(CachedMember(m))
  }

  function RecalledMembers(ms: seq<MemberMsg>): seq<MemberData> {
    ShownFromCache(InOrder(MemberMap(ms), MEMBER_IDS))
  }

  lemma MemberKeysBelow(ms: seq<MemberMsg>)
    ensures forall k :: k in MemberMap(ms) ==> k < MEMBER_IDS && MemberMap(ms)[k].memberId == k
  {
    hide KeyedMap;
    KeyedMapFrom(MemberIds(ms), CachedMembers(ms));
  }

  /** Everybody the query shows came with the reply, in ascending order of their ids. */
  lemma RecalledFrom(ms: seq<MemberMsg>, j: nat)
    requires j < |RecalledMembers(ms)|
    ensures exists i :: 0 <= i < |ms| && RecalledMembers(ms)[j] == Recalled(ms[i])
    ensures forall k :: j < k < |RecalledMembers(ms)| ==>
              RecalledMembers(ms)[j].memberId < RecalledMembers(ms)[k].memberId
  {
    hide KeyedMap, InOrder, CachedMember;
    var m := MemberMap(ms);
    KeyedMapFrom(MemberIds(ms), CachedMembers(ms));
    MemberKeysBelow(ms);
    InOrderHolds(m, MEMBER_IDS);
    InOrderAscends(m, MEMBER_IDS, (mc: MemberCache) => mc.memberId);
    hide MemberMap;
    var mc := InOrder(m, MEMBER_IDS)[j];
    assert mc in InOrder(m, MEMBER_IDS);
    var k :| k in m && k < MEMBER_IDS && m[k] == mc;
    var i :| 0 <= i < |ms| && MemberIds(ms)[i] == k && m[k] == CachedMembers(ms)[i];
    assert RecalledMembers(ms)[j] == Recalled(ms[i]);
  }

  /** With distinct ids nobody is lost. */
  lemma RecallsAll(ms: seq<MemberMsg>, i: nat)
    requires Distinct(MemberIds(ms)) && i < |ms|
    ensures exists j :: 0 <= j < |RecalledMembers(ms)| && RecalledMembers(ms)[j] == Recalled(ms[i])
  {
    hide KeyedMap, InOrder, CachedMember;
    var m := MemberMap(ms);
    KeyedMapKeeps(MemberIds(ms), CachedMembers(ms), i);
    MemberKeysBelow(ms);
    InOrderHolds(m, MEMBER_IDS);
    hide MemberMap;
    var key := MemberIds(ms)[i];
    assert m[key] in InOrder(m, MEMBER_IDS);
    var j :| 0 <= j < |InOrder(m, MEMBER_IDS)| && InOrder(m, MEMBER_IDS)[j] == m[key];
    assert RecalledMembers(ms)[j] == Recalled(ms[i]);
  }

  lemma RecalledCount(ms: seq<MemberMsg>)
    ensures |RecalledMembers(ms)| == |ms| <==> Distinct(MemberIds(ms))
  {
    hide KeyedMap, InOrder, CachedMember;
    KeyedMapCount(MemberIds(ms), CachedMembers(ms));
    MemberKeysBelow(ms);
    AllKeysBelow(MemberMap(ms), MEMBER_IDS);
  }

  lemma RecalledSame(m: MemberMsg, groups: seq<RoomGroup>)
    ensures SameMember(ShownMember(m, groups), Recalled(m))
    ensures Recalled(m).memberId == ToU16(m.memberId) && Recalled(m).flagAttr == m.flagAttr
  {
  }

  /** The same one, or none in both. */
  ghost predicate SameChoice(ms: seq<MemberData>, a: Option<nat>, shown: seq<MemberData>, q: Option<nat>) {
    && (q.None? <==> a.None?)
    && (a.Some? ==> a.value < |ms| && q.value < |shown| && SameMember(ms[a.value], shown[q.value]))
  }

  lemma SameMe(r: JoinReply, me: u16)
    requires Distinct(MemberIds(r.members))
    ensures var ms, shown := JoinAnswer(r).members, RecalledMembers(r.members);
            SameChoice(ms, LastWithId(ms, me), shown, LastWithId(shown, me))
  {
    var gs := GroupsOf(r.room.groups);
    var ms, shown := JoinAnswer(r).members, RecalledMembers(r.members);
    hide LastWithId, GroupsOf, ShownMember, RecalledMembers, Recalled;
    var a, q := LastWithId(ms, me), LastWithId(shown, me);
    LastWithIdHolds(ms, me);
    LastWithIdHolds(shown, me);
    if a.Some? {
      RecallsAll(r.members, a.value);
      RecalledSame(r.members[a.value], gs);
    }
    if q.Some? {
      RecalledFrom(r.members, q.value);
      var i :| 0 <= i < |r.members| && shown[q.value] == Recalled(r.members[i]);
      RecalledSame(r.members[i], gs);
      assert ms[i].memberId == me;
      MembersDiffer(r, i, a.value);
    }
  }

  lemma MembersDiffer(r: JoinReply, i: nat, j: nat)
    requires Distinct(MemberIds(r.members)) && i < |r.members| && j < |r.members|
    requires var ms := JoinAnswer(r).members; ms[i].memberId == ms[j].memberId
    ensures i == j
  {
    hide Label, OnlineId, GroupsOf;
    var ids := MemberIds(r.members);
    assert ids[i] == ids[j];
  }

  lemma QueryIsRecall(s: State, r: JoinReply)
    ensures var q := QueryAnswer(Join(s, r), r.room.roomId);
            var shown := RecalledMembers(r.members);
            && q.Some? && q.value.members == shown
            && q.value.me == LastWithId(shown, ToU16(r.meMemberId)) && q.value.owner == LastOwner(shown)
  {
  }

  /** Members: the query shows as many as the reply exactly if their ids are distinct, and then the same ones in
      ascending order of their ids, with the same member as `me`. */
  lemma QueryAgreesOnMembers(s: State, r: JoinReply)
    ensures var q := QueryAnswer(Join(s, r), r.room.roomId);
            var a := JoinAnswer(r);
            && q.Some?
            && (|q.value.members| == |a.members| <==> Distinct(MemberIds(r.members)))
            && (forall i, j :: 0 <= i < j < |q.value.members| ==>
                  q.value.members[i].memberId < q.value.members[j].memberId)
            && (Distinct(MemberIds(r.members)) ==>
                  && (forall i :: 0 <= i < |a.members| ==> Among(a.members[i], q.value.members))
                  && SameChoice(a.members, a.me, q.value.members, q.value.me))
  {
    QueryIsRecall(s, r);
    RecalledCount(r.members);
    var gs := GroupsOf(r.room.groups);
    var a := JoinAnswer(r);
    var shown := RecalledMembers(r.members);
    hide QueryAnswer, LastWithId, GroupsOf, ShownMember, Recalled, RecalledMembers, SameChoice;
    forall j | 0 <= j < |shown|
      ensures forall k :: j < k < |shown| ==> shown[j].memberId < shown[k].memberId
    {
      RecalledFrom(r.members, j);
    }
    if Distinct(MemberIds(r.members)) {
      forall i | 0 <= i < |a.members| ensures Among(a.members[i], shown) {
        RecallsAll(r.members, i);
        RecalledSame(r.members[i], gs);
      }
      SameMe(r, ToU16(r.meMemberId));
    }
  }

  /** What the query leaves out of a member: with distinct ids, the entry with the member's id has the flags of the join
      answer exactly if an owner was flagged as such, its group exactly if it is in none of the room's groups, and its
      attributes exactly if it has none. */
  lemma QueryDropsTheRest(s: State, r: JoinReply, i: nat, j: nat)
    requires Distinct(MemberIds(r.members)) && i < |r.members|
    requires QueryAnswer(Join(s, r), r.room.roomId).Some?
    requires var q := QueryAnswer(Join(s, r), r.room.roomId).value.members;
             j < |q| && q[j].memberId == ToU16(r.members[i].memberId)
    ensures var m, a, q := r.members[i], JoinAnswer(r), QueryAnswer(Join(s, r), r.room.roomId).value.members[j];
            && SameMember(a.members[i], q)
            && (a.members[i].flagAttr == q.flagAttr <==> (m.isOwner ==> HasOwnerFlag(m.flagAttr)))
            && (a.members[i].group == q.group <==> forall g :: g in a.room.groups ==> g.id != ToU8(m.groupId))
            && (a.members[i].bins == q.bins <==> m.bins == [])
  {
    QueryIsRecall(s, r);
    hide QueryAnswer;
    RecalledFrom(r.members, j);
    var shown := RecalledMembers(r.members);
    var k :| 0 <= k < |r.members| && shown[j] == Recalled(r.members[k]);
    hide RecalledMembers, Distinct;
    RecalledSame(r.members[k], []);
    SameIdSamePlace(r.members, i, k);
    ShownAgainstRecalled(r.members[i], GroupsOf(r.room.groups));
  }

  lemma SameIdSamePlace(ms: seq<MemberMsg>, i: nat, k: nat)
    requires Distinct(MemberIds(ms)) && i < |ms| && k < |ms| && ToU16(ms[i].memberId) == ToU16(ms[k].memberId)
    ensures i == k
  {
    assert MemberIds(ms)[i] == MemberIds(ms)[k];
  }

  lemma ShownAgainstRecalled(m: MemberMsg, groups: seq<RoomGroup>)
    ensures var a, q := ShownMember(m, groups), Recalled(m);
            && SameMember(a, q)
            && (a.flagAttr == q.flagAttr <==> (m.isOwner ==> HasOwnerFlag(m.flagAttr)))
            && (a.group == q.group <==> forall g :: g in groups ==> g.id != ToU8(m.groupId))
            && (a.bins == q.bins <==> m.bins == [])
  {
    RecalledSame(m, groups);
    FindGroupHolds(groups, ToU8(m.groupId));
    hide FindGroup, BinMap, OnlineId;
    if ShownMember(m, groups).group.Some? {
      assert groups[FindGroup(groups, ToU8(m.groupId)).value] in groups;
    }
    assert |MemberBinsOf(m.bins)| == |m.bins|;
  }

  // ---- What the announcements of the server change in the answer ----

  /** The first attribute with this id. */
  function BinWith(bins: seq<RoomBin>, id: u16): Option<RoomBin> {
    if bins == [] then None else if bins[0].id == id then Some(bins[0]) else BinWith(bins[1..], id)
  }

  function LastBinWith(bins: seq<RoomBin>, id: u16): Option<RoomBin> {
    if bins == [] then None
    else
      var n := |bins| - 1;
      if bins[n].id == id then Some(bins[n]) else LastBinWith(bins[..n], id)
  }

  function BinIds(bins: seq<RoomBin>): seq<nat> {
    seq(|bins|, i requires 0 <= i < |bins| => bins[i].id)
  }

  lemma {:induction false} PutBinFound(bins: seq<RoomBin>, b: RoomBin, id: u16)
    ensures BinWith(PutBin(bins, b), id) == if b.id == id then Some(b) else BinWith(bins, id)
  {
    if bins != [] {
      var head, tail := bins[0], bins[1..];
      if head.id == b.id {
        assert ([b] + tail)[1..] == tail;
      } else {
        PutBinFound(tail, b, id);
        assert ([head] + PutBin(tail, b))[1..] == PutBin(tail, b);
      }
    }
  }

  lemma BinIdsFirst(head: RoomBin, tail: seq<RoomBin>)
    ensures BinIds([head] + tail) == [head.id] + BinIds(tail)
  {
  }

  /** Known ids keep their places; a new one comes last. */
  lemma {:induction false} PutBinIds(bins: seq<RoomBin>, b: RoomBin)
    ensures BinIds(PutBin(bins, b)) == if b.id in BinIds(bins) then BinIds(bins) else BinIds(bins) + [b.id]
  {
    if bins != [] {
      var head, tail := bins[0], bins[1..];
      assert bins == [head] + tail;
      BinIdsFirst(head, tail);
      BinIdsFirst(b, tail);
      BinIdsFirst(head, PutBin(tail, b));
      if head.id != b.id {
        PutBinIds(tail, b);
      }
      hide BinIds;
    }
  }

  /** Of several updates of one attribute the last counts; attributes not updated stay, and nothing is listed twice. */
  lemma {:induction false} PutBinsHolds(bins: seq<RoomBin>, updates: seq<RoomBin>, id: u16)
    ensures var last := LastBinWith(updates, id);
            BinWith(PutBins(bins, updates), id) == if last.Some? then last else BinWith(bins, id)
    ensures BinIds(bins) <= BinIds(PutBins(bins, updates))
    ensures Distinct(BinIds(bins)) ==> Distinct(BinIds(PutBins(bins, updates)))
  {
    if updates != [] {
      var n := |updates| - 1;
      PutBinsHolds(bins, updates[..n], id);
      PutBinFound(PutBins(bins, updates[..n]), updates[n], id);
      PutBinIds(PutBins(bins, updates[..n]), updates[n]);
      hide PutBin, BinWith, BinIds;
    }
  }

  lemma {:induction false} QueriedBinWith(bins: seq<RoomBin>, id: u16)
    ensures BinWith(QueriedBins(bins), id) ==
              var b := BinWith(bins, id);
              if b.None? then None else Some(b.value.(memberId := 0))
  {
    if bins != [] {
      assert QueriedBins(bins)[1..] == QueriedBins(bins[1..]);
      QueriedBinWith(bins[1..], id);
    }
  }

  /** After an announced room update the query answers the new flags and mask and, per attribute, its last update or
      else what it answered before; groups, members, me and owner stay. */
  lemma RoomUpdateIsAnswered(s: State, roomId: u64, flags: u32, mask: Option<u64>, bins: seq<BinMsg>, id: u16)
    requires roomId in s.rooms
    ensures var q, q' := QueryAnswer(s, roomId).value, QueryAnswer(RoomUpdated(s, roomId, flags, mask, bins), roomId);
            var update := LastBinWith(RoomBinsOf(bins), id);
            && q'.Some?
            && (q'.value.members, q'.value.me, q'.value.owner) == (q.members, q.me, q.owner)
            && q'.value.room.groups == q.room.groups
            && q'.value.room.scalars == q.room.scalars.(
                 flags := flags, passwdSlotMask := if mask.Some? then mask.value else q.room.scalars.passwdSlotMask)
            && BinWith(q'.value.room.bins, id) ==
                 if update.Some? then Some(update.value.(memberId := 0)) else BinWith(q.room.bins, id)
  {
    var old', updates := s.rooms[roomId].bins, RoomBinsOf(bins);
    PutBinsHolds(old', updates, id);
    QueriedBinWith(old', id);
    QueriedBinWith(PutBins(old', updates), id);
    hide BinWith, PutBins, LastBinWith, InOrder, LastWithId, LastOwner, RoomBinsOf, QueriedBins;
  }

  /** A key's place in ascending order is the number of smaller keys. */
  lemma {:induction false} InOrderUpdate<V>(m: map<nat, V>, hi: nat, k: nat, v: V)
    requires k in m && k < hi
    ensures |InOrder(m, k)| < |InOrder(m, hi)|
    ensures InOrder(m[k := v], hi) == InOrder(m, hi)[|InOrder(m, k)| := v]
    ensures InOrder(m, hi)[|InOrder(m, k)|] == m[k]
  {
    if k == hi - 1 {
      InOrderSame(m, k, v, k);
    } else {
      InOrderUpdate(m, hi - 1, k, v);
    }
  }

  lemma {:induction false} InOrderSame<V>(m: map<nat, V>, k: nat, v: V, hi: nat)
    requires hi <= k
    ensures InOrder(m[k := v], hi) == InOrder(m, hi)
  {
    if hi > 0 {
      InOrderSame(m, k, v, hi - 1);
    }
  }

  lemma {:induction false} LastWithIdByIds(a: seq<MemberData>, b: seq<MemberData>, id: u16)
    requires |a| == |b| && forall i :: 0 <= i < |a| ==> a[i].memberId == b[i].memberId
    ensures LastWithId(a, id) == LastWithId(b, id)
  {
    if a != [] {
      LastWithIdByIds(a[..|a| - 1], b[..|b| - 1], id);
    }
  }

  /** After an announced update of a member the query answers that member, at the same place, with the new team and
      flags; the room, the other members and me stay. */
  lemma MemberUpdateIsAnswered(s: State, roomId: u64, m: MemberMsg)
    requires InRoom(s, roomId, ToU16(m.memberId))
    ensures var q, q' := QueryAnswer(s, roomId).value, QueryAnswer(MemberUpdated(s, roomId, m), roomId);
            var k := |InOrder(s.rooms[roomId].members, ToU16(m.memberId))|;
            && q'.Some? && q'.value.room == q.room && q'.value.me == q.me
            && k < |q.members|
            && q.members[k] == CachedMemberShown(s.rooms[roomId].members[ToU16(m.memberId)])
            && q'.value.members == q.members[k := q.members[k].(teamId := ToU8(m.teamId), flagAttr := m.flagAttr)]
  {
    var members, id: nat := s.rooms[roomId].members, ToU16(m.memberId);
    var t := MemberUpdated(s, roomId, m);
    var new' := t.rooms[roomId].members[id];
    assert t.rooms[roomId].members == members[id := new'];
    InOrderUpdate(members, MEMBER_IDS, id, new');
    hide InOrder, PutMemberBins, MemberBinsOf, MemberUpdated, LastWithId, LastOwner;
    var q, q' := QueryAnswer(s, roomId).value, QueryAnswer(t, roomId).value;
    LastWithIdByIds(q.members, q'.members, s.myMemberId);
  }

  /** Status queries, writes of the signalling handler, and messages about other rooms. */
  predicate Elsewhere(op: Op, roomId: u64) {
    match op
    case JoinOp(_) => false
    case LeaveOp(id) => id != roomId
    case StatusOp(_, _) => true
    case MemberJoinedOp(id, _) => id != roomId
    case MemberLeftOp(id, _) => id != roomId
    case RoomUpdatedOp(id, _, _, _) => id != roomId
    case MemberUpdatedOp(id, _) => id != roomId
    case PeerWriteOp(_, _, _) => true
    case PeerDiedOp(_) => true
  }

  /** The answer for the current room, and with it the agreement with the reply, lasts over all of them. */
  lemma {:induction false} AnswerLasts(s: State, ops: seq<Op>)
    requires forall op :: op in ops ==> Elsewhere(op, s.roomId)
    ensures Run(s, ops).roomId == s.roomId && QueryAnswer(Run(s, ops), s.roomId) == QueryAnswer(s, s.roomId)
    decreases |ops|
  {
    if ops != [] {
      assert ops[0] in ops && forall op :: op in ops[1..] ==> op in ops;
      AnswerLastsStep(s, ops[0]);
      hide Apply, QueryAnswer, Elsewhere;
      AnswerLasts(Apply(s, ops[0]), ops[1..]);
    }
  }

  lemma AnswerLastsStep(s: State, op: Op)
    requires Elsewhere(op, s.roomId)
    ensures Apply(s, op).roomId == s.roomId && QueryAnswer(Apply(s, op), s.roomId) == QueryAnswer(s, s.roomId)
  {
    hide InOrder, LastWithId, LastOwner, CachedMember;
  }

  // ---- The owner ----

  lemma {:induction false} LastOwnerHolds(ms: seq<MemberData>)
    ensures LastOwner(ms).None? <==> forall i :: 0 <= i < |ms| ==> !HasOwnerFlag(ms[i].flagAttr)
    ensures LastOwner(ms).Some? ==>
              var k := LastOwner(ms).value;
              k < |ms| && HasOwnerFlag(ms[k].flagAttr) && forall i :: k < i < |ms| ==> !HasOwnerFlag(ms[i].flagAttr)
  {
    if ms != [] && !HasOwnerFlag(ms[|ms| - 1].flagAttr) {
      LastOwnerHolds(ms[..|ms| - 1]);
    }
  }

  /** Either nobody is flagged and nobody has the owner's id, or the flagged member of highest id has it. */
  ghost predicate FlagsNameTheOwner(ms: seq<MemberMsg>, owner: u16) {
    || (forall i :: 0 <= i < |ms| ==> !HasOwnerFlag(ms[i].flagAttr) && ToU16(ms[i].memberId) != owner)
    || (exists k :: 0 <= k < |ms| && HasOwnerFlag(ms[k].flagAttr) && ToU16(ms[k].memberId) == owner
                    && forall i :: 0 <= i < |ms| && HasOwnerFlag(ms[i].flagAttr) ==> ToU16(ms[i].memberId) <= owner)
  }

  lemma NobodyFlagged(ms: seq<MemberMsg>)
    requires Distinct(MemberIds(ms))
    ensures LastOwner(RecalledMembers(ms)).None? <==> forall i :: 0 <= i < |ms| ==> !HasOwnerFlag(ms[i].flagAttr)
  {
    var shown := RecalledMembers(ms);
    LastOwnerHolds(shown);
    hide LastOwner, RecalledMembers, Recalled, HasOwnerFlag, Distinct;
    forall i | 0 <= i < |ms| && HasOwnerFlag(ms[i].flagAttr) ensures LastOwner(shown).Some? {
      RecallsAll(ms, i);
      RecalledSame(ms[i], []);
    }
    if LastOwner(shown).Some? {
      RecalledFrom(ms, LastOwner(shown).value);
      var i :| 0 <= i < |ms| && shown[LastOwner(shown).value] == Recalled(ms[i]);
      RecalledSame(ms[i], []);
    }
  }

  /** The flagged member of highest id. */
  lemma HighestFlagged(ms: seq<MemberMsg>) returns (k: nat)
    requires Distinct(MemberIds(ms)) && LastOwner(RecalledMembers(ms)).Some?
    ensures LastOwner(RecalledMembers(ms)).value < |RecalledMembers(ms)|
    ensures k < |ms| && RecalledMembers(ms)[LastOwner(RecalledMembers(ms)).value] == Recalled(ms[k])
    ensures HasOwnerFlag(ms[k].flagAttr)
    ensures forall i :: 0 <= i < |ms| && HasOwnerFlag(ms[i].flagAttr) ==> ToU16(ms[i].memberId) <= ToU16(ms[k].memberId)
  {
    var shown := RecalledMembers(ms);
    LastOwnerHolds(shown);
    hide LastOwner, RecalledMembers, Recalled, HasOwnerFlag, Distinct;
    var q := LastOwner(shown).value;
    RecalledFrom(ms, q);
    k :| 0 <= k < |ms| && shown[q] == Recalled(ms[k]);
    RecalledSame(ms[k], []);
    forall i | 0 <= i < |ms| && HasOwnerFlag(ms[i].flagAttr) ensures ToU16(ms[i].memberId) <= ToU16(ms[k].memberId) {
      RecallsAll(ms, i);
      var j :| 0 <= j < |shown| && shown[j] == Recalled(ms[i]);
      RecalledSame(ms[i], []);
      if j < q { RecalledFrom(ms, j); }
    }
  }

  /** The join's answer finds the owner by id, the query by a flag in the raw member record; they agree exactly if
      the reply's flags name the owner. */
  lemma QueryAgreesOnOwner(s: State, r: JoinReply)
    requires Distinct(MemberIds(r.members))
    ensures var q := QueryAnswer(Join(s, r), r.room.roomId);
            var a := JoinAnswer(r);
            && q.Some?
            && (SameChoice(a.members, a.owner, q.value.members, q.value.owner) <==>
                  FlagsNameTheOwner(r.members, ToU16(r.ownerMemberId)))
  {
    QueryIsRecall(s, r);
    hide QueryAnswer;
    OwnersCompared(r);
  }

  lemma OwnersCompared(r: JoinReply)
    requires Distinct(MemberIds(r.members))
    ensures var a, shown := JoinAnswer(r), RecalledMembers(r.members);
            SameChoice(a.members, a.owner, shown, LastOwner(shown)) <==>
              FlagsNameTheOwner(r.members, ToU16(r.ownerMemberId))
  {
    var a, shown, owner := JoinAnswer(r), RecalledMembers(r.members), ToU16(r.ownerMemberId);
    LastWithIdHolds(a.members, owner);
    NobodyFlagged(r.members);
    forall i | 0 <= i < |r.members| ensures a.members[i].memberId == ToU16(r.members[i].memberId) {
    }
    hide RecalledMembers, LastOwner, LastWithId, HasOwnerFlag, Distinct, GroupsOf;
    if LastOwner(shown).Some? {
      var k := HighestFlagged(r.members);
      var gs := GroupsOf(r.room.groups);
      RecalledSame(r.members[k], gs);
      if a.owner.Some? {
        RecalledSame(r.members[a.owner.value], gs);
        if r.members[k].memberId % 0x1_0000 == owner {
          MembersDiffer(r, k, a.owner.value);
        }
      }
    }
  }

  /** A member marked as owner whose attributes lack the flag: the join names it, a later query names nobody. */
  lemma OwnerCanBeForgotten(s: State, r: JoinReply, m: MemberMsg)
    requires r.members == [m] && m.isOwner && m.flagAttr == 0 && m.memberId == r.ownerMemberId == 1
    ensures JoinAnswer(r).owner == Some(0) && HasOwnerFlag(JoinAnswer(r).members[0].flagAttr)
    ensures QueryAnswer(Join(s, r), r.room.roomId).Some? && QueryAnswer(Join(s, r), r.room.roomId).value.owner.None?
  {
    QueryIsRecall(s, r);
    NobodyFlagged(r.members);
  }

  // ---- Addresses ----

  /** After a join a status query gives every member the address of the reply, with the port's bytes swapped. */
  lemma JoinedMembersHaveTheirAddresses(s: State, r: JoinReply, i: nat)
    requires Distinct(MemberIds(r.members)) && i < |r.members|
    ensures var m := r.members[i];
            var a := StatusOf(Join(s, r), r.room.roomId, ToU16(m.memberId));
            && a.status == PENDING && a.peer.Some?
            && a.peer.value.memberId == ToU16(m.memberId) && a.peer.value.addr == m.addr
            && a.peer.value.port / 256 == m.port % 256 && a.peer.value.port % 256 == m.port / 256 % 256
            && a.peer.value.onlineId == OnlineId(m.npid)
  {
    hide KeyedMap, PeerMap, BinMap, InOrder, GroupMap, Label;
    MembersAndPeers(r.members, ToU16(r.meMemberId));
    KeyedMapKeeps(MemberIds(r.members), CachedMembers(r.members), i);
    PeersStartInactive(r.members, ToU16(r.meMemberId));
    PortSwapped(r.members[i].port);
  }

  lemma {:induction false} PeersStartInactive(ms: seq<MemberMsg>, me: u16)
    ensures forall id :: id in PeerMap(ms, me) ==> PeerMap(ms, me)[id].status == INACTIVE
  {
    if ms != [] {
      PeersStartInactive(ms[..|ms| - 1], me);
    }
  }

  lemma PortSwapped(port: u32)
    ensures Htons(ToU16(port)) / 256 == port % 256 && Htons(ToU16(port)) % 256 == port / 256 % 256
  {
    var p, q: nat := ToU16(port), port / 0x1_0000;
    var high, low: nat := p / 256, p % 256;
    assert port == 256 * (256 * q + high) + low;
    Bytes(256 * q + high, low);
    Bytes(q, high);
    Bytes(low, high);
  }

  lemma Bytes(high: nat, low: nat)
    requires low < 256
    ensures (256 * high + low) / 256 == high && (256 * high + low) % 256 == low
  {
  }

  // ---- The same operations on a context object, in place ----

  lemma FrontOfPrefix<T>(xs: seq<T>, i: nat)
    requires i < |xs|
    ensures xs[..i + 1] == xs[..i] + [xs[i]] && xs[..i + 1][..i] == xs[..i] && xs[..i + 1][i] == xs[i]
  {
  }

  method GroupById(gs: seq<RoomGroup>) returns (m: map<nat, RoomGroup>)
    ensures m == GroupMap(gs)
  {
    m := map[];
    for i := 0 to |gs|
      invariant m == GroupMap(gs[..i])
    {
      FrontOfPrefix(gs, i);
      assert GroupIds(gs[..i + 1])[..i] == GroupIds(gs[..i]);
      m := m[gs[i].id := gs[i]];
    }
    assert gs[..|gs|] == gs;
  }

  method CacheMemberBins(bs: seq<BinMsg>) returns (m: map<u16, MemberBin>)
    ensures m == BinMap(MemberBinsOf(bs))
  {
    m := map[];
    for i := 0 to |bs|
      invariant m == BinMap(MemberBinsOf(bs[..i]))
    {
      FrontOfPrefix(bs, i);
      assert MemberBinsOf(bs[..i + 1])[..i] == MemberBinsOf(bs[..i]);
      m := m[ToU16(bs[i].id) := MemberBin(ToU16(bs[i].id), bs[i].updateDate, bs[i].data)];
    }
    assert bs[..|bs|] == bs;
  }

  /** The attributes of an announced member keep the date zero. */
  method CacheEventBins(bs: seq<BinMsg>) returns (m: map<u16, MemberBin>)
    ensures m == BinMap(MemberBinsOf(UndatedBins(bs)))
  {
    m := map[];
    for i := 0 to |bs|
      invariant m == BinMap(MemberBinsOf(UndatedBins(bs[..i])))
    {
      FrontOfPrefix(bs, i);
      assert MemberBinsOf(UndatedBins(bs[..i + 1]))[..i] == MemberBinsOf(UndatedBins(bs[..i]));
      m := m[ToU16(bs[i].id) := MemberBin(ToU16(bs[i].id), 0, bs[i].data)];
    }
    assert bs[..|bs|] == bs;
  }

  lemma {:induction false} FindGroupHolds(gs: seq<RoomGroup>, id: u8)
    ensures FindGroup(gs, id).None? <==> forall i :: 0 <= i < |gs| ==> gs[i].id != id
    ensures FindGroup(gs, id).Some? ==>
              var k := FindGroup(gs, id).value;
              k < |gs| && gs[k].id == id && forall i :: 0 <= i < k ==> gs[i].id != id
  {
    if gs != [] {
      FindGroupHolds(gs[..|gs| - 1], id);
    }
  }

  /** The first group with this id. */
  method FindPayloadGroup(gs: seq<RoomGroup>, id: u8) returns (place: Option<nat>)
    ensures place == FindGroup(gs, id)
  {
    hide FindGroup;
    FindGroupHolds(gs, id);
    for i := 0 to |gs|
      invariant forall j :: 0 <= j < i ==> gs[j].id != id
    {
      if gs[i].id == id {
        return Some(i);
      }
    }
    place := None;
  }

  method MarkLast(ms: seq<MemberData>, id: u16) returns (place: Option<nat>)
    ensures place == LastWithId(ms, id)
  {
    place := None;
    for i := 0 to |ms|
      invariant place == LastWithId(ms[..i], id)
    {
      FrontOfPrefix(ms, i);
      if ms[i].memberId == id {
        place := Some(i);
      }
    }
    assert ms[..|ms|] == ms;
  }

  method MarkOwner(ms: seq<MemberData>) returns (place: Option<nat>)
    ensures place == LastOwner(ms)
  {
    place := None;
    for i := 0 to |ms|
      invariant place == LastOwner(ms[..i])
    {
      FrontOfPrefix(ms, i);
      if HasOwnerFlag(ms[i].flagAttr) {
        place := Some(i);
      }
    }
    assert ms[..|ms|] == ms;
  }

  method ShowMembers(ms: seq<MemberMsg>, groups: seq<RoomGroup>) returns (shown: seq<MemberData>)
    ensures shown == ShownMembers(ms, groups)
  {
    shown := [];
    for i := 0 to |ms|
      invariant shown == ShownMembers(ms[..i], groups)
    {
      FrontOfPrefix(ms, i);
      var m := ms[i];
      var place := FindPayloadGroup(groups, ToU8(m.groupId));
      var flags := m.flagAttr;
      if m.isOwner {
        flags := WithOwnerFlag(flags);
      }
      shown := shown + [MemberData(m.joinDate, OnlineId(m.npid), ToU16(m.memberId), ToU8(m.teamId), ToU8(m.natType),
                                   flags, place, MemberBinsOf(m.bins))];
    }
    assert ms[..|ms|] == ms;
  }

  method CopyGroups(src: seq<GroupMsg>) returns (groups: seq<RoomGroup>)
    ensures groups == GroupsOf(src)
  {
    hide Label;
    groups := [];
    for i := 0 to |src|
      invariant groups == GroupsOf(src[..i])
    {
      var g := src[i];
      groups := groups + [RoomGroup(ToU8(g.id), g.hasPasswd, g.hasLabel, Label(g.labelBytes), g.slotCount,
                                    g.numMembers)];
    }
    assert src[..|src|] == src;
  }

  method CopyRoomBins(src: seq<BinMsg>) returns (bins: seq<RoomBin>)
    ensures bins == RoomBinsOf(src)
  {
    bins := [];
    for i := 0 to |src|
      invariant bins == RoomBinsOf(src[..i])
    {
      bins := bins + [RoomBin(ToU16(src[i].id), src[i].updateDate, ToU16(src[i].updateMemberId), src[i].data)];
    }
    assert src[..|src|] == src;
  }

  /** The first with the id is replaced. */
  lemma {:induction false} PutBinReplaces(bins: seq<RoomBin>, b: RoomBin, i: nat)
    requires i < |bins| && bins[i].id == b.id && forall j :: 0 <= j < i ==> bins[j].id != b.id
    ensures PutBin(bins, b) == bins[i := b]
  {
    if i > 0 {
      PutBinReplaces(bins[1..], b, i - 1);
      assert bins[i := b] == [bins[0]] + bins[1..][i - 1 := b];
    }
  }

  lemma {:induction false} PutBinAdds(bins: seq<RoomBin>, b: RoomBin)
    requires forall j :: 0 <= j < |bins| ==> bins[j].id != b.id
    ensures PutBin(bins, b) == bins + [b]
  {
    if bins != [] {
      PutBinAdds(bins[1..], b);
      assert bins + [b] == [bins[0]] + (bins[1..] + [b]);
    }
  }

  method ReplaceOrAdd(bins: seq<RoomBin>, b: RoomBin) returns (put: seq<RoomBin>)
    ensures put == PutBin(bins, b)
  {
    hide PutBin;
    for i := 0 to |bins|
      invariant forall j :: 0 <= j < i ==> bins[j].id != b.id
    {
      if bins[i].id == b.id {
        PutBinReplaces(bins, b, i);
        return bins[i := b];
      }
    }
    PutBinAdds(bins, b);
    put := bins + [b];
  }

  method CopyQueriedBins(src: seq<RoomBin>) returns (bins: seq<RoomBin>)
    ensures bins == QueriedBins(src)
  {
    bins := [];
    for i := 0 to |src|
      invariant bins == QueriedBins(src[..i])
    {
      bins := bins + [RoomBin(src[i].id, src[i].lastUpdate, 0, src[i].data)];
    }
    assert src[..|src|] == src;
  }

  /** Reading a map in ascending key order, as an ordered map is iterated. */
  method ReadInOrder<V>(m: map<nat, V>, hi: nat) returns (vs: seq<V>)
    ensures vs == InOrder(m, hi)
  {
    vs := [];
    for k := 0 to hi
      invariant vs == InOrder(m, k)
    {
      if k in m {
        vs := vs + [m[k]];
      }
    }
  }

  class RoomContext {
    var roomId: u64
    var myMemberId: u16
    var isRoomOwner: bool
    var rooms: map<u64, RoomEntry>
    var peers: map<nat, Peer>

    ghost function View(): State
      reads this
    {
      State(roomId, myMemberId, isRoomOwner, rooms, peers)
    }

    constructor ()
      ensures View() == Init
    {
      roomId, myMemberId, isRoomOwner, rooms, peers := 0, 0, false, map[], map[];
    }

    method CacheMembers(ms: seq<MemberMsg>) returns (members: map<nat, MemberCache>)
      modifies this`peers
      ensures members == MemberMap(ms) && peers == PeerMap(ms, myMemberId)
    {
      peers := map[];
      members := map[];
      for i := 0 to |ms|
        invariant members == MemberMap(ms[..i]) && peers == PeerMap(ms[..i], myMemberId)
      {
        FrontOfPrefix(ms, i);
        MemberMapStep(ms[..i + 1]);
        var m := ms[i];
        var id := ToU16(m.memberId);
        var bins := CacheMemberBins(m.bins);
        hide KeyedMap, MemberMap, BinMap;
        var mc := MemberCache(OnlineId(m.npid), m.accountId, m.platform, m.joinDate, id, ToU8(m.teamId),
                              ToU8(m.groupId), ToU8(m.natType), m.flagAttr, m.addr, Htons(ToU16(m.port)), bins);
        members := members[id := mc];
        if id != myMemberId {
          peers := peers[id := Peer(id, mc.addr, mc.port, INACTIVE, OnlineId(m.npid))];
        }
      }
      assert ms[..|ms|] == ms;
    }

    method BuildCreateJoinRoomPayload(r: JoinReply) returns (a: Answer)
      modifies this
      ensures View() == Join(old(View()), r)
      ensures a == JoinAnswer(r)
    {
      hide KeyedMap, MemberMap, GroupMap, PeerMap, LastWithId, ScalarsOf, Label;
      var groups := CopyGroups(r.room.groups);
      var bins := CopyRoomBins(r.room.bins);
      var scalars := ScalarsOf(r.room);
      var id := r.room.roomId;
      if roomId != 0 && roomId != id {
        rooms := rooms - {roomId};
      }
      roomId := id;
      myMemberId := ToU16(r.meMemberId);
      isRoomOwner := r.meMemberId == r.ownerMemberId;
      var groupMap := GroupById(groups);
      var members := CacheMembers(r.members);
      rooms := rooms[id := RoomEntry(scalars, isRoomOwner, ToU16(r.ownerMemberId), bins, groupMap, members)];

      var shown := ShowMembers(r.members, groups);
      var me := MarkLast(shown, ToU16(r.meMemberId));
      var owner := MarkLast(shown, ToU16(r.ownerMemberId));
      a := Answer(RoomData(scalars, groups, bins), shown, me, owner);
    }

    /** The answer names the room left, whichever it is. */
    method BuildLeaveRoomPayload(id: u64) returns (responseRoomId: u64)
      modifies this
      ensures View() == Leave(old(View()), id) && responseRoomId == id
    {
      responseRoomId := id;
      if roomId == id {
        rooms := rooms - {roomId};
        peers := map[];
        roomId, myMemberId, isRoomOwner := 0, 0, false;
      }
    }

    method BuildGetRoomDataInternalPayload(id: u64) returns (a: Option<Answer>)
      ensures a == QueryAnswer(View(), id)
    {
      if id !in rooms {
        return None;
      }
      var rc := rooms[id];
      var groups := ReadInOrder(rc.groups, GROUP_IDS);
      var cached := ReadInOrder(rc.members, MEMBER_IDS);
      hide InOrder, LastWithId, LastOwner;
      var members: seq<MemberData> := [];
      for i := 0 to |cached|
        invariant members == ShownFromCache(cached[..i])
      {
        FrontOfPrefix(cached, i);
        members := members + [CachedMemberShown(cached[i])];
      }
      assert cached[..|cached|] == cached;
      var me := MarkLast(members, myMemberId);
      var owner := MarkOwner(members);
      var bins := CopyQueriedBins(rc.bins);
      a := Some(Answer(RoomData(rc.scalars, groups, bins), members, me, owner));
    }

    method SignalingGetConnectionStatus(id: u64, member: u16) returns (answer: StatusAnswer)
      modifies this`peers
      ensures View() == AfterStatus(old(View()), id, member)
      ensures answer == StatusOf(old(View()), id, member)
    {
      if id !in rooms || member !in rooms[id].members {
        return StatusAnswer(INACTIVE, None);
      }
      if member !in peers {
        var m := rooms[id].members[member];
        peers := peers[member := Peer(member, m.addr, m.port, PENDING, m.npId)];
      }
      var p := peers[member];
      answer := StatusAnswer(if p.status == ACTIVE then ACTIVE else PENDING, Some(p));
    }

    method MemberJoinedEvent(id: u64, m: MemberMsg)
      modifies this
      ensures View() == MemberJoined(old(View()), id, m)
    {
      if id !in rooms {
        return;
      }
      var entry, member := rooms[id], ToU16(m.memberId);
      var bins := CacheEventBins(m.bins);
      hide BinMap, MemberBinsOf;
      var mc := MemberCache(OnlineId(m.npid), m.accountId, m.platform, m.joinDate, member, ToU8(m.teamId),
                            ToU8(m.groupId), ToU8(m.natType), m.flagAttr, m.addr, Htons(ToU16(m.port)), bins);
      rooms := rooms[id := entry.(members := entry.members[member := mc])];
      peers := peers[member := Peer(member, mc.addr, mc.port, INACTIVE, mc.npId)];
    }

    /** The announced attributes replace those with the same id, or are added. */
    method RoomDataUpdatedEvent(id: u64, flags: u32, mask: Option<u64>, attrs: seq<BinMsg>)
      modifies this`rooms
      ensures View() == RoomUpdated(old(View()), id, flags, mask, attrs)
    {
      if id !in rooms {
        return;
      }
      var entry := rooms[id];
      var scalars := entry.scalars.(flags := flags);
      if mask.Some? {
        scalars := scalars.(passwdSlotMask := mask.value);
      }
      var bins := entry.bins;
      for i := 0 to |attrs|
        invariant View() == old(View())
        invariant bins == PutBins(entry.bins, RoomBinsOf(attrs[..i]))
      {
        FrontOfPrefix(attrs, i);
        assert RoomBinsOf(attrs[..i + 1])[..i] == RoomBinsOf(attrs[..i]);
        bins := ReplaceOrAdd(bins, RoomBinOf(attrs[i]));
      }
      assert attrs[..|attrs|] == attrs;
      rooms := rooms[id := entry.(scalars := scalars, bins := bins)];
    }

    method MemberDataUpdatedEvent(id: u64, m: MemberMsg)
      modifies this`rooms
      ensures View() == MemberUpdated(old(View()), id, m)
    {
      var member := ToU16(m.memberId);
      if id !in rooms || member !in rooms[id].members {
        return;
      }
      var entry := rooms[id];
      var mc := entry.members[member];
      var bins := mc.bins;
      for i := 0 to |m.bins|
        invariant View() == old(View())
        invariant bins == PutMemberBins(mc.bins, MemberBinsOf(m.bins[..i]))
      {
        FrontOfPrefix(m.bins, i);
        assert MemberBinsOf(m.bins[..i + 1])[..i] == MemberBinsOf(m.bins[..i]);
        bins := bins[ToU16(m.bins[i].id) := MemberBin(ToU16(m.bins[i].id), m.bins[i].updateDate, m.bins[i].data)];
      }
      assert m.bins[..|m.bins|] == m.bins;
      mc := mc.(teamId := ToU8(m.teamId), flagAttr := m.flagAttr, groupId := ToU8(m.groupId), bins := bins);
      rooms := rooms[id := entry.(members := entry.members[member := mc])];
    }

    /** The write of the signalling handler. */
    method WritePeer(member: u16, at: Endpoint, status: int)
      modifies this`peers
      ensures View() == PeerWritten(old(View()), member, at, status)
    {
      var peer := if member in peers then peers[member] else Peer(0, 0, 0, INACTIVE, []);
      peers := peers[member := peer.(memberId := member, addr := at.addr, port := at.port, status := status)];
    }

    method MemberLeftEvent(id: u64, member: u16)
      modifies this
      ensures View() == MemberLeft(old(View()), id, member)
    {
      if id !in rooms || member !in rooms[id].members {
        return;
      }
      var entry := rooms[id];
      rooms := rooms[id := entry.(members := entry.members - {member})];
      peers := peers - {member};
    }
  }
}
