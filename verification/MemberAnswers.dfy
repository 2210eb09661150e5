/** The cached data of one member, as a query about that member answers it, and what the server's messages make of
    these answers. */
module MemberAnswers {
  import opened Options
  import opened Widths
  import opened OnlineIds
  import opened RoomCache

  /** The account variant names the member by account instead. */
  datatype Identity = ByNpId(npId: seq<u8>) | ByAccount(onlineId: seq<u8>, accountId: u64, platform: u32)

  datatype MemberAnswer = MemberAnswer(
    joinDate: u64, identity: Identity, memberId: u16, teamId: u8, natType: u8, flagAttr: u32,
    group: Option<RoomGroup>, bins: seq<MemberBin>)

  const ATTRIBUTE_IDS: nat := 0x1_0000

  // ---- The answer ----

  function KeysInOrder<V>(m: map<nat, V>, hi: nat): seq<nat> {
    if hi == 0 then [] else KeysInOrder(m, hi - 1) + (if hi - 1 in m then [hi - 1] else [])
  }

  /** An attribute the member does not have is answered without bytes. */
  function AttributeOf(bins: map<u16, MemberBin>, id: u16): MemberBin {
    if id in bins then MemberBin(id, bins[id].lastUpdate, bins[id].data) else MemberBin(id, 0, [])
  }

  function AttributesOf(bins: map<u16, MemberBin>, ids: seq<nat>): seq<MemberBin> {
    seq(|ids|, i requires 0 <= i < |ids| => AttributeOf(bins, ToU16(ids[i])))
  }

  function GroupOfMember(entry: RoomEntry, mc: MemberCache): Option<RoomGroup> {
    if mc.groupId != 0 && mc.groupId in entry.groups then Some(entry.groups[mc.groupId]) else None
  }

  /** `attrIds` are the attributes asked for; none means all of them. */
  function AnswerAbout(s: State, roomId: u64, id: u16, attrIds: seq<u16>, withAccount: bool): Option<MemberAnswer> {
    if !InRoom(s, roomId, id) then None
    else
      var entry := s.rooms[roomId];
      var mc := entry.members[id];
      var ids: seq<nat> := if attrIds == [] then KeysInOrder(mc.bins, ATTRIBUTE_IDS) else attrIds;
      Some(MemberAnswer(
        mc.joinDate, if withAccount then ByAccount(mc.npId, mc.accountId, mc.platform) else ByNpId(mc.npId),
        mc.memberId, mc.teamId, mc.natType, mc.flagAttr, GroupOfMember(entry, mc), AttributesOf(mc.bins, ids)))
  }

  // ---- Attributes ----

  /** The last of the attributes with this id. */
  ghost predicate Latest(bs: seq<BinMsg>, id: u16, j: nat) {
    && j < |bs| && bs[j].id % 0x1_0000 == id
    && forall k :: j < k < |bs| ==> bs[k].id % 0x1_0000 != id
  }

  ghost predicate Mentions(bs: seq<BinMsg>, id: u16) {
    exists j :: Latest(bs, id, j)
  }

  ghost predicate OverriddenAt(bins: map<u16, MemberBin>, bs: seq<BinMsg>, before: map<u16, MemberBin>, id: u16) {
    && (id in bins <==> Mentions(bs, id) || id in before)
    && (forall j: nat :: Latest(bs, id, j) ==> id in bins && bins[id] == MemberBin(id, bs[j].updateDate, bs[j].data))
    && (id in before && !Mentions(bs, id) ==> id in bins && bins[id] == before[id])
  }

  /** Each attribute of the message, as last mentioned there, and otherwise what was there before. */
  ghost predicate Overrides(bins: map<u16, MemberBin>, bs: seq<BinMsg>, before: map<u16, MemberBin>) {
    forall id: u16 :: OverriddenAt(bins, bs, before, id)
  }

  lemma {:induction false} PutMemberBinsOverrides(before: map<u16, MemberBin>, bs: seq<BinMsg>)
    ensures Overrides(PutMemberBins(before, MemberBinsOf(bs)), bs, before)
  {
    if bs != [] {
      var n := |bs| - 1;
      PutMemberBinsOverrides(before, bs[..n]);
      var front := PutMemberBins(before, MemberBinsOf(bs[..n]));
      assert MemberBinsOf(bs)[..n] == MemberBinsOf(bs[..n]);
      var last := MemberBinsOf(bs)[n];
      assert PutMemberBins(before, MemberBinsOf(bs)) == front[last.id := last];
      assert last == MemberBin(ToU16(bs[n].id), bs[n].updateDate, bs[n].data);
      var bins := front[last.id := last];
      hide PutMemberBins, MemberBinsOf, OverriddenAt;
      forall id: u16 ensures OverriddenAt(bins, bs, before, id) {
        assert OverriddenAt(front, bs[..n], before, id);
        OverriddenStep(front, bs, before, last, id);
      }
    } else {
      assert PutMemberBins(before, MemberBinsOf(bs)) == before;
      hide PutMemberBins;
    }
  }

  lemma LatestStep(bs: seq<BinMsg>, id: u16)
    requires bs != []
    ensures var n := |bs| - 1;
            && (bs[n].id % 0x1_0000 == id ==> Mentions(bs, id) && forall j: nat :: Latest(bs, id, j) <==> j == n)
            && (bs[n].id % 0x1_0000 != id ==>
                  && (Mentions(bs, id) <==> Mentions(bs[..n], id))
                  && forall j: nat :: Latest(bs, id, j) <==> Latest(bs[..n], id, j))
  {
    var n := |bs| - 1;
    if bs[n].id % 0x1_0000 == id {
      assert Latest(bs, id, n);
    } else {
      forall j: nat ensures Latest(bs, id, j) <==> Latest(bs[..n], id, j) {
      }
      hide Latest;
    }
  }

  lemma OverriddenStep(front: map<u16, MemberBin>, bs: seq<BinMsg>, before: map<u16, MemberBin>, last: MemberBin,
                       id: u16)
    requires bs != [] && OverriddenAt(front, bs[..|bs| - 1], before, id)
    requires var m := bs[|bs| - 1]; last == MemberBin(ToU16(m.id), m.updateDate, m.data)
    ensures OverriddenAt(front[last.id := last], bs, before, id)
  {
    LatestStep(bs, id);
    forall j: nat | Latest(bs, id, j) ensures j < |bs| && (last.id != id ==> j < |bs| - 1) {
    }
    hide Latest, Mentions;
  }

  lemma {:induction false} BinMapIsPut(bs: seq<MemberBin>)
    ensures BinMap(bs) == PutMemberBins(map[], bs)
  {
    if bs != [] {
      BinMapIsPut(bs[..|bs| - 1]);
    }
  }

  lemma {:induction false} KeysInOrderHolds<V>(m: map<nat, V>, hi: nat)
    ensures var ks := KeysInOrder(m, hi);
            && (forall k :: k in ks <==> k in m && k < hi)
            && (forall i, j :: 0 <= i < j < |ks| ==> ks[i] < ks[j])
  {
    if hi > 0 {
      KeysInOrderHolds(m, hi - 1);
      var front := KeysInOrder(m, hi - 1);
      forall i | 0 <= i < |front| ensures front[i] < hi - 1 { assert front[i] in front; }
    }
  }

  // ---- What the answers say ----

  /** The fields of the answer, by a message about the member. */
  ghost predicate Describes(a: MemberAnswer, m: MemberMsg, withAccount: bool) {
    && a.joinDate == m.joinDate && a.memberId == m.memberId % 0x1_0000 && a.teamId == m.teamId % 0x100
    && a.natType == m.natType % 0x100 && a.flagAttr == m.flagAttr
    && a.identity ==
         if withAccount then ByAccount(OnlineId(m.npid), m.accountId, m.platform) else ByNpId(OnlineId(m.npid))
  }

  /** The attributes answered are those asked for, in that order, or else all there are, by ascending id. */
  ghost predicate Lists(bins: seq<MemberBin>, attrIds: seq<u16>, all: map<u16, MemberBin>) {
    && (attrIds != [] ==>
          |bins| == |attrIds| && forall i :: 0 <= i < |bins| ==> bins[i].id == attrIds[i])
    && (attrIds == [] ==>
          && (forall i, j :: 0 <= i < j < |bins| ==> bins[i].id < bins[j].id)
          && (forall id :: id in all <==> exists i :: 0 <= i < |bins| && bins[i].id == id))
    && (forall i :: 0 <= i < |bins| ==>
          && (bins[i].id in all ==>
                bins[i].lastUpdate == all[bins[i].id].lastUpdate && bins[i].data == all[bins[i].id].data)
          && (bins[i].id !in all ==> bins[i].lastUpdate == 0 && bins[i].data == []))
  }

  lemma AllAreListed(all: map<u16, MemberBin>, bins: seq<MemberBin>)
    requires bins == AttributesOf(all, KeysInOrder(all, ATTRIBUTE_IDS))
    ensures forall i, j :: 0 <= i < j < |bins| ==> bins[i].id < bins[j].id
    ensures forall id :: id in all <==> exists i :: 0 <= i < |bins| && bins[i].id == id
  {
    var ks := KeysInOrder(all, ATTRIBUTE_IDS);
    KeysInOrderHolds(all, ATTRIBUTE_IDS);
    hide KeysInOrder;
    forall i | 0 <= i < |ks| ensures ks[i] in all && bins[i].id == ks[i] {
      assert ks[i] in ks;
    }
    forall id | id in all ensures exists i :: 0 <= i < |bins| && bins[i].id == id {
      assert id in ks;
      var i :| 0 <= i < |ks| && ks[i] == id;
      assert bins[i].id == id;
    }
  }

  lemma AnswerLists(all: map<u16, MemberBin>, attrIds: seq<u16>)
    ensures var ids: seq<nat> := if attrIds == [] then KeysInOrder(all, ATTRIBUTE_IDS) else attrIds;
            Lists(AttributesOf(all, ids), attrIds, all)
  {
    hide KeysInOrder;
    if attrIds == [] {
      AllAreListed(all, AttributesOf(all, KeysInOrder(all, ATTRIBUTE_IDS)));
    }
  }

  /** The group is the last in the reply with the member's group id; zero means none. */
  ghost predicate GroupIsThat(g: Option<RoomGroup>, groupId: u32, groups: seq<GroupMsg>) {
    && (g.None? <==> groupId % 0x100 == 0 || forall i :: 0 <= i < |groups| ==> groups[i].id % 0x100 != groupId % 0x100)
    && (g.Some? ==> exists i :: 0 <= i < |groups| && GroupShows(g.value, groups[i]) && g.value.id == groupId % 0x100
                      && forall k :: i < k < |groups| ==> groups[k].id % 0x100 != groupId % 0x100)
  }

  lemma {:induction false} KeyedMapLast<V>(keys: seq<nat>, vals: seq<V>, k: nat)
    requires |keys| == |vals| && k in KeyedMap(keys, vals)
    ensures exists i :: 0 <= i < |keys| && keys[i] == k && KeyedMap(keys, vals)[k] == vals[i]
                        && forall j :: i < j < |keys| ==> keys[j] != k
  {
    var n := |keys| - 1;
    if keys[n] != k {
      KeyedMapLast(keys[..n], vals[..n], k);
      var i :| 0 <= i < n && keys[..n][i] == k && KeyedMap(keys[..n], vals[..n])[k] == vals[..n][i]
               && forall j :: i < j < n ==> keys[..n][j] != k;
      assert keys[i] == k && KeyedMap(keys, vals)[k] == vals[i];
    }
  }

  lemma LastGroup(groups: seq<GroupMsg>, id: u8)
    ensures id in GroupMap(GroupsOf(groups)) <==> exists i :: 0 <= i < |groups| && groups[i].id % 0x100 == id
    ensures id in GroupMap(GroupsOf(groups)) ==>
              exists i :: 0 <= i < |groups| && GroupMap(GroupsOf(groups))[id] == GroupOf(groups[i])
                          && groups[i].id % 0x100 == id
                          && forall k :: i < k < |groups| ==> groups[k].id % 0x100 != id
  {
    var gs := GroupsOf(groups);
    var ids := GroupIds(gs);
    assert |ids| == |gs| == |groups|;
    forall i | 0 <= i < |ids| ensures ids[i] == groups[i].id % 0x100 && gs[i] == GroupOf(groups[i]) {
    }
    hide GroupsOf, GroupIds, KeyedMap, GroupOf;
    KeysIn(ids, gs, id);
    if id in ids {
      var i :| 0 <= i < |ids| && ids[i] == id;
      assert groups[i].id % 0x100 == id;
      KeyedMapLast(ids, gs, id);
    }
  }

  lemma GroupOfReply(r: JoinReply, groupId: u32, mc: MemberCache)
    requires mc.groupId == groupId % 0x100
    ensures GroupIsThat(GroupOfMember(EntryOf(r), mc), groupId, r.room.groups)
  {
    LastGroup(r.room.groups, mc.groupId);
    assert EntryOf(r).groups == GroupMap(GroupsOf(r.room.groups));
    hide GroupMap, GroupsOf, EntryOf, GroupShows, Label;
    var g := GroupOfMember(EntryOf(r), mc);
    if g.Some? {
      var i :| 0 <= i < |r.room.groups| && g.value == GroupOf(r.room.groups[i])
               && r.room.groups[i].id % 0x100 == mc.groupId
               && forall k :: i < k < |r.room.groups| ==> r.room.groups[k].id % 0x100 != mc.groupId;
      GroupIsShown(r.room.groups[i]);
    }
  }

  lemma GroupIsShown(m: GroupMsg)
    ensures GroupShows(GroupOf(m), m)
  {
    LabelShows(m.labelBytes);
  }

  /** A member as some message announced it. */
  lemma CachedIsDescribed(s: State, roomId: u64, id: u16, m: MemberMsg, attrIds: seq<u16>, withAccount: bool)
    requires InRoom(s, roomId, id) && s.rooms[roomId].members[id] == CachedMember(m)
    ensures var a := AnswerAbout(s, roomId, id, attrIds, withAccount);
            && a.Some? && Describes(a.value, m, withAccount)
            && Lists(a.value.bins, attrIds, s.rooms[roomId].members[id].bins)
            && Overrides(s.rooms[roomId].members[id].bins, m.bins, map[])
            && a.value.group == GroupOfMember(s.rooms[roomId], CachedMember(m))
            && CachedMember(m).groupId == m.groupId % 0x100
  {
    AnswerLists(CachedMember(m).bins, attrIds);
    BinMapIsPut(MemberBinsOf(m.bins));
    PutMemberBinsOverrides(map[], m.bins);
    hide BinMap, PutMemberBins, MemberBinsOf, Lists, Overrides, KeysInOrder, AttributesOf, OnlineId, GroupOfMember;
  }

  /** After a join with distinct ids, a query about a member answers what the reply said of it: all fields, the group,
      and of each attribute the last mention. */
  lemma JoinedIsAnswered(s: State, r: JoinReply, i: nat, attrIds: seq<u16>, withAccount: bool)
    requires Distinct(MemberIds(r.members)) && i < |r.members|
    ensures var m, t := r.members[i], Join(s, r);
            var id := ToU16(m.memberId);
            var a := AnswerAbout(t, r.room.roomId, id, attrIds, withAccount);
            && InRoom(t, r.room.roomId, id) && a.Some? && Describes(a.value, m, withAccount)
            && GroupIsThat(a.value.group, m.groupId, r.room.groups)
            && Lists(a.value.bins, attrIds, t.rooms[r.room.roomId].members[id].bins)
            && Overrides(t.rooms[r.room.roomId].members[id].bins, m.bins, map[])
  {
    var m := r.members[i];
    KeyedMapKeeps(MemberIds(r.members), CachedMembers(r.members), i);
    assert MemberMap(r.members)[ToU16(m.memberId)] == CachedMember(m);
    assert Join(s, r).rooms[r.room.roomId] == EntryOf(r);
    assert EntryOf(r).members == MemberMap(r.members);
    hide KeyedMap, MemberMap, PeerMap, CachedMember, Distinct, EntryOf, Describes, Lists, Overrides, AnswerAbout;
    CachedIsDescribed(Join(s, r), r.room.roomId, ToU16(m.memberId), m, attrIds, withAccount);
    GroupOfReply(r, m.groupId, CachedMember(m));
    hide GroupIsThat, GroupOfMember, Join;
  }

  /** After a member was announced, a query answers what the announcement said, the attributes without dates; other
      members' answers stay. */
  lemma AnnouncedIsAnswered(s: State, roomId: u64, m: MemberMsg, attrIds: seq<u16>, withAccount: bool)
    requires roomId in s.rooms
    ensures var t, id := MemberJoined(s, roomId, m), ToU16(m.memberId);
            && InRoom(t, roomId, id)
            && var a, bins := AnswerAbout(t, roomId, id, attrIds, withAccount), t.rooms[roomId].members[id].bins;
               && a.Some? && Describes(a.value, m, withAccount) && Lists(a.value.bins, attrIds, bins)
               && (forall k :: k in bins <==> Mentions(m.bins, k))
               && (forall k: u16, j: nat :: Latest(m.bins, k, j) ==>
                     k in bins && bins[k] == MemberBin(k, 0, m.bins[j].data))
    ensures forall k: u16 :: k != ToU16(m.memberId) ==>
              AnswerAbout(MemberJoined(s, roomId, m), roomId, k, attrIds, withAccount) ==
              AnswerAbout(s, roomId, k, attrIds, withAccount)
  {
    var t, id := MemberJoined(s, roomId, m), ToU16(m.memberId);
    var u := Undated(m);
    UndatedLatest(m.bins);
    assert u.bins == UndatedBins(m.bins) && u.memberId == m.memberId;
    hide CachedMember, Lists, Overrides, KeysInOrder, AttributesOf, OnlineId, Latest, Mentions, UndatedBins;
    CachedIsDescribed(t, roomId, id, u, attrIds, withAccount);
    OverridesNothing(t.rooms[roomId].members[id].bins, u.bins);
  }

  /** And a status query answers its address, with the port's bytes swapped. */
  lemma AnnouncedHasItsAddress(s: State, roomId: u64, m: MemberMsg)
    requires roomId in s.rooms
    ensures var st := StatusOf(MemberJoined(s, roomId, m), roomId, ToU16(m.memberId));
            && st.status == PENDING && st.peer.Some? && st.peer.value.addr == m.addr
            && st.peer.value.port / 256 == m.port % 256 && st.peer.value.port % 256 == m.port / 256 % 256
            && st.peer.value.onlineId == OnlineId(m.npid)
  {
    PortSwapped(m.port);
    hide CachedMember, OnlineId, Htons;
  }

  lemma OverridesNothing(bins: map<u16, MemberBin>, bs: seq<BinMsg>)
    requires Overrides(bins, bs, map[])
    ensures forall id :: id in bins <==> Mentions(bs, id)
    ensures forall id: u16, j: nat :: Latest(bs, id, j) ==>
              id in bins && bins[id] == MemberBin(id, bs[j].updateDate, bs[j].data)
  {
    hide Mentions;
    forall id: u16
      ensures id in bins <==> Mentions(bs, id)
      ensures forall j: nat :: Latest(bs, id, j) ==>
                id in bins && bins[id] == MemberBin(id, bs[j].updateDate, bs[j].data)
    {
      assert OverriddenAt(bins, bs, map[], id);
    }
  }

  lemma UndatedLatest(bs: seq<BinMsg>)
    ensures |UndatedBins(bs)| == |bs|
    ensures forall j :: 0 <= j < |bs| ==> UndatedBins(bs)[j].updateDate == 0 && UndatedBins(bs)[j].data == bs[j].data
    ensures forall id: u16, j: nat :: Latest(UndatedBins(bs), id, j) <==> Latest(bs, id, j)
    ensures forall id: u16 :: Mentions(UndatedBins(bs), id) <==> Mentions(bs, id)
  {
    assert forall j :: 0 <= j < |bs| ==> UndatedBins(bs)[j].id == bs[j].id;
    forall id: u16, j: nat ensures Latest(UndatedBins(bs), id, j) <==> Latest(bs, id, j) {
    }
    hide Latest;
  }

  /** After an announced update of a member, a query about it answers the new team, flags and group, of each attribute
      the last mention or else what it was before, and everything else unchanged. */
  lemma UpdatedIsAnswered(s: State, roomId: u64, m: MemberMsg, attrIds: seq<u16>, withAccount: bool)
    requires InRoom(s, roomId, ToU16(m.memberId))
    ensures var t, id := MemberUpdated(s, roomId, m), ToU16(m.memberId);
            && InRoom(t, roomId, id)
            && var before, after := s.rooms[roomId].members[id], t.rooms[roomId].members[id];
               var b := AnswerAbout(s, roomId, id, attrIds, withAccount);
               var a := AnswerAbout(t, roomId, id, attrIds, withAccount);
               && a.Some? && b.Some? && Lists(a.value.bins, attrIds, after.bins)
               && Overrides(after.bins, m.bins, before.bins)
               && a.value == b.value.(teamId := ToU8(m.teamId), flagAttr := m.flagAttr, bins := a.value.bins,
                    group := if m.groupId % 0x100 != 0 && m.groupId % 0x100 in s.rooms[roomId].groups
                             then Some(s.rooms[roomId].groups[m.groupId % 0x100]) else None)
  {
    var id := ToU16(m.memberId);
    AnswerLists(MemberUpdated(s, roomId, m).rooms[roomId].members[id].bins, attrIds);
    PutMemberBinsOverrides(s.rooms[roomId].members[id].bins, m.bins);
    hide PutMemberBins, Lists, Overrides, KeysInOrder, AttributesOf, MemberBinsOf;
  }

  /** A query about all members of a cached room answers exactly its members, each once. */
  lemma QueryShowsMembers(s: State, roomId: u64)
    requires roomId in s.rooms && forall id :: id in s.rooms[roomId].members ==> id < MEMBER_IDS
    ensures var members, q := s.rooms[roomId].members, QueryAnswer(s, roomId);
            && q.Some? && |q.value.members| == |members|
            && (forall id :: id in members ==> CachedMemberShown(members[id]) in q.value.members)
            && (forall d :: d in q.value.members ==>
                  exists id :: id in members && d == CachedMemberShown(members[id]))
  {
    var members := s.rooms[roomId].members;
    InOrderHolds(members, MEMBER_IDS);
    AllKeysBelow(members, MEMBER_IDS);
    hide InOrder;
    var cached := InOrder(members, MEMBER_IDS);
    var shown := ShownFromCache(cached);
    forall id | id in members ensures CachedMemberShown(members[id]) in shown {
      var j :| 0 <= j < |cached| && cached[j] == members[id];
      assert shown[j] == CachedMemberShown(members[id]);
    }
    forall d | d in shown ensures exists id :: id in members && d == CachedMemberShown(members[id]) {
      var j :| 0 <= j < |shown| && shown[j] == d;
      assert cached[j] in cached;
    }
  }

  /** So it shows an announced member from then on, until that member leaves. */
  lemma QueryShowsAnnounced(s: State, roomId: u64, m: MemberMsg)
    requires roomId in s.rooms && forall id :: id in s.rooms[roomId].members ==> id < MEMBER_IDS
    ensures var id := ToU16(m.memberId);
            var q, q' := QueryAnswer(s, roomId), QueryAnswer(MemberJoined(s, roomId, m), roomId);
            var gone := QueryAnswer(MemberLeft(MemberJoined(s, roomId, m), roomId, id), roomId);
            && q.Some? && q'.Some? && gone.Some?
            && |q'.value.members| == |q.value.members| + (if id in s.rooms[roomId].members then 0 else 1)
            && |gone.value.members| == |q'.value.members| - 1
            && MemberData(m.joinDate, OnlineId(m.npid), id, ToU8(m.teamId), ToU8(m.natType), m.flagAttr, None, [])
                 in q'.value.members
            && forall d :: d in q.value.members ==>
                 d in q'.value.members || (id in s.rooms[roomId].members
                                           && d == CachedMemberShown(s.rooms[roomId].members[id]))
  {
    var members, id: nat := s.rooms[roomId].members, ToU16(m.memberId);
    var t := MemberJoined(s, roomId, m);
    var c := CachedMember(Undated(m));
    QueryShowsMembers(s, roomId);
    QueryShowsMembers(t, roomId);
    assert CachedMemberShown(c) == MemberData(m.joinDate, OnlineId(m.npid), ToU16(m.memberId), ToU8(m.teamId),
                                              ToU8(m.natType), m.flagAttr, None, []);
    hide QueryAnswer, CachedMember, CachedMemberShown, OnlineId;
    assert t.rooms[roomId].members == members[id := c];
    UpdateKeys(members, id, c);
    var u := MemberLeft(t, roomId, ToU16(m.memberId));
    assert u.rooms[roomId].members == members[id := c] - {id};
    assert |members[id := c] - {id}| == |members[id := c]| - 1 by { RemoveKey(members[id := c], id); }
    QueryShowsMembers(u, roomId);
  }

  lemma RemoveKey<V>(m: map<nat, V>, k: nat)
    requires k in m
    ensures |m - {k}| == |m| - 1
  {
    assert m == (m - {k})[k := m[k]];
  }

  // ---- The builder ----

  method BuildGetRoomMemberDataInternalPayload(ctx: RoomContext, roomId: u64, id: u16, attrIds: seq<u16>,
                                               withAccount: bool) returns (a: Option<MemberAnswer>)
    ensures a == AnswerAbout(ctx.View(), roomId, id, attrIds, withAccount)
  {
    if roomId !in ctx.rooms || id !in ctx.rooms[roomId].members {
      return None;
    }
    var room := ctx.rooms[roomId];
    var member := room.members[id];
    var group := None;
    if member.groupId != 0 && member.groupId in room.groups {
      group := Some(room.groups[member.groupId]);
    }
    var ids: seq<nat> := attrIds;
    if attrIds == [] {
      ids := CollectKeys(member.bins);
    }
    hide KeysInOrder;
    var bins: seq<MemberBin> := [];
    for i := 0 to |ids|
      invariant bins == AttributesOf(member.bins, ids[..i])
    {
      var attr := ToU16(ids[i]);
      assert ids[..i + 1] == ids[..i] + [ids[i]];
      if attr !in member.bins {
        bins := bins + [MemberBin(attr, 0, [])];
      } else {
        bins := bins + [MemberBin(attr, member.bins[attr].lastUpdate, member.bins[attr].data)];
      }
    }
    assert ids[..|ids|] == ids;
    var identity := if withAccount then ByAccount(member.npId, member.accountId, member.platform)
                    else ByNpId(member.npId);
    a := Some(MemberAnswer(member.joinDate, identity, member.memberId, member.teamId, member.natType, member.flagAttr,
                           group, bins));
  }

  method CollectKeys(bins: map<u16, MemberBin>) returns (ids: seq<nat>)
    ensures ids == KeysInOrder(bins, ATTRIBUTE_IDS)
  {
    ids := [];
    for k := 0 to ATTRIBUTE_IDS
      invariant ids == KeysInOrder(bins, k)
    {
      if k in bins {
        ids := ids + [k];
      }
    }
  }
}
