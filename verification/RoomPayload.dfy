/** Search and user-list replies laid out for the game: many growing vectors, each room or user pointing to its own
    slice of them. The pointers are taken while the vectors grow, so everything rests on the reservation. */
module RoomPayload {
  import opened Options
  import opened Widths
  import opened OnlineIds

  // ---- Vectors and pointers into them ----

  /** `epoch` counts the reallocations; a pointer remembers the epoch it was taken in. */
  datatype Vec<T> = Vec(items: seq<T>, capacity: nat, epoch: nat)

  datatype Ptr = Ptr(epoch: nat, index: nat)

  function Clear<T>(v: Vec<T>): Vec<T> {
    v.(items := [])
  }

  function Reserve<T>(v: Vec<T>, n: nat): Vec<T> {
    if n <= v.capacity then v else v.(capacity := n, epoch := v.epoch + 1)
  }

  function EmplaceBack<T>(v: Vec<T>, x: T): Vec<T> {
    if |v.items| < v.capacity then v.(items := v.items + [x])
    else Vec(v.items + [x], 2 * |v.items| + 1, v.epoch + 1)
  }

  predicate Live<T>(v: Vec<T>, p: Ptr) {
    p.epoch == v.epoch && p.index < |v.items|
  }

  /** Why the reservation matters: growing a full vector leaves every earlier pointer dangling. */
  lemma GrowingInvalidates<T>(v: Vec<T>, x: T, p: Ptr)
    requires Live(v, p)
    ensures Live(EmplaceBack(v, x), p) <==> |v.items| < v.capacity
  {
  }

  // ---- The server's reply ----

  datatype Group = Group(id: u32, hasPasswd: bool, slotCount: u32, numMembers: u32)
  datatype IntAttr = IntAttr(id: u32, value: u32)
  datatype BinAttr = BinAttr(id: u32, data: seq<u8>)

  datatype Room = Room(
    maxSlot: u32, curMembers: u32, flags: u32, serverId: u32, worldId: u32, lobbyId: u64, roomId: u64,
    passwdSlotMask: u64, joinedSlotMask: u64,
    publicSlots: u32, privateSlots: u32, openPublicSlots: u32, openPrivateSlots: u32,
    groups: seq<Group>, searchInts: seq<IntAttr>, searchBins: seq<BinAttr>, extBins: seq<BinAttr>,
    ownerNpid: seq<u8>, ownerAccountId: u64, ownerPlatform: u32)

  // ---- The game's structures ----

  datatype GroupInfo = GroupInfo(id: u8, hasPasswd: bool, slots: u32, groupMembers: u32)
  datatype IntInfo = IntInfo(id: u16, num: u32)

  /** `data` is the buffer the attribute points to, by its place in the buffer list; none stands for null. */
  datatype BinInfo = BinInfo(id: u16, data: Option<nat>, dataSize: nat)

  datatype Scalars = Scalars(
    maxSlot: u16, curMembers: u16, flags: u32, serverId: u16, worldId: u32, lobbyId: u64, roomId: u64,
    passwdSlotMask: u64, joinedSlotMask: u64,
    publicSlots: u16, privateSlots: u16, openPublicSlots: u16, openPrivateSlots: u16)

  /** `Plain` points to the owner's id; `WithAccount` carries the owner's account in the room itself. */
  datatype Owner = Plain(npId: Option<Ptr>) | WithAccount(onlineId: seq<u8>, accountId: u64, platform: u32)

  datatype RoomInfo = RoomInfo(
    next: Option<nat>, scalars: Scalars, owner: Owner,
    group: Option<Ptr>, groups: nat, searchInt: Option<Ptr>, searchInts: nat,
    searchBin: Option<Ptr>, searchBins: nat, extBin: Option<Ptr>, extBins: nat)

  /** The vectors rooms point into. */
  datatype Storage = Storage(
    groups: Vec<GroupInfo>, ints: Vec<IntInfo>, bins: Vec<BinInfo>, buffers: Vec<seq<u8>>, owners: Vec<seq<u8>>)

  // ---- Reading a slice back ----

  /** Following the pointer yields an item for each source entry, in order; an empty slice is a null pointer. */
  ghost predicate SliceIs<T, S>(v: Vec<T>, first: Option<Ptr>, count: nat, src: seq<S>, shows: (T, S) -> bool) {
    && count == |src|
    && (first.None? <==> count == 0)
    && (first.Some? ==>
          && Live(v, first.value) && first.value.index + count <= |v.items|
          && forall k :: 0 <= k < count ==> shows(v.items[first.value.index + k], src[k]))
  }

  ghost predicate GroupIs(g: GroupInfo, src: Group) {
    && g.id == src.id % 0x100 && g.hasPasswd == src.hasPasswd
    && g.slots == src.slotCount && g.groupMembers == src.numMembers
  }

  ghost predicate IntIs(x: IntInfo, src: IntAttr) {
    x.id == src.id % 0x1_0000 && x.num == src.value
  }

  ghost predicate BinIs(buffers: seq<seq<u8>>, b: BinInfo, a: BinAttr) {
    && b.id == a.id % 0x1_0000 && b.dataSize == |a.data|
    && (b.data.None? <==> a.data == [])
    && (b.data.Some? ==> b.data.value < |buffers| && buffers[b.data.value] == a.data)
  }

  ghost predicate BinsAre(bins: Vec<BinInfo>, buffers: Vec<seq<u8>>, first: Option<Ptr>, count: nat,
                          src: seq<BinAttr>) {
    && count == |src|
    && (first.None? <==> count == 0)
    && (first.Some? ==>
          && Live(bins, first.value) && first.value.index + count <= |bins.items|
          && forall k :: 0 <= k < count ==> BinIs(buffers.items, bins.items[first.value.index + k], src[k]))
  }

  ghost predicate OwnerIs(st: Storage, owner: Owner, r: Room) {
    match owner
    case Plain(p) =>
      && (p.None? <==> r.ownerNpid == [])
      && (p.Some? ==> Live(st.owners, p.value) && st.owners.items[p.value.index] == OnlineId(r.ownerNpid))
    case WithAccount(onlineId, accountId, platform) =>
      onlineId == OnlineId(r.ownerNpid) && accountId == r.ownerAccountId && platform == r.ownerPlatform
  }

  /** Each field is the reply's, cut to sixteen bits where the game's field has no more. */
  ghost predicate ScalarsAre(s: Scalars, r: Room) {
    && s.maxSlot == r.maxSlot % 0x1_0000 && s.curMembers == r.curMembers % 0x1_0000 && s.flags == r.flags
    && s.serverId == r.serverId % 0x1_0000 && s.worldId == r.worldId && s.lobbyId == r.lobbyId && s.roomId == r.roomId
    && s.passwdSlotMask == r.passwdSlotMask && s.joinedSlotMask == r.joinedSlotMask
    && s.publicSlots == r.publicSlots % 0x1_0000 && s.privateSlots == r.privateSlots % 0x1_0000
    && s.openPublicSlots == r.openPublicSlots % 0x1_0000 && s.openPrivateSlots == r.openPrivateSlots % 0x1_0000
  }

  /** Everything the reply said about r can be read through `out`. */
  ghost predicate RoomReadsBack(st: Storage, out: RoomInfo, r: Room) {
    && ScalarsAre(out.scalars, r)
    && OwnerIs(st, out.owner, r)
    && SliceIs(st.groups, out.group, out.groups, r.groups, GroupIs)
    && SliceIs(st.ints, out.searchInt, out.searchInts, r.searchInts, IntIs)
    && BinsAre(st.bins, st.buffers, out.searchBin, out.searchBins, r.searchBins)
    && BinsAre(st.bins, st.buffers, out.extBin, out.extBins, r.extBins)
  }

  /** w grew out of v without moving. */
  ghost predicate Extends<T>(v: Vec<T>, w: Vec<T>) {
    v.epoch == w.epoch && v.capacity == w.capacity && v.items <= w.items
  }

  ghost predicate StorageExtends(s: Storage, t: Storage) {
    && Extends(s.groups, t.groups) && Extends(s.ints, t.ints) && Extends(s.bins, t.bins)
    && Extends(s.buffers, t.buffers) && Extends(s.owners, t.owners)
  }

  lemma BinsStay(b: Vec<BinInfo>, u: Vec<seq<u8>>, b': Vec<BinInfo>, u': Vec<seq<u8>>,
                 first: Option<Ptr>, count: nat, src: seq<BinAttr>)
    requires Extends(b, b') && Extends(u, u') && BinsAre(b, u, first, count, src)
    ensures BinsAre(b', u', first, count, src)
  {
  }

  lemma RoomStays(s: Storage, t: Storage, out: RoomInfo, r: Room)
    requires StorageExtends(s, t) && RoomReadsBack(s, out, r)
    ensures RoomReadsBack(t, out, r)
  {
  }

  function Link(i: nat, n: nat): Option<nat> {
    if i + 1 < n then Some(i + 1) else None
  }

  /** The first k rooms of the reply are done: readable, of the right kind, and linked to their successors. */
  ghost predicate RoomsDone(st: Storage, outs: seq<RoomInfo>, src: seq<Room>, k: nat, withAccount: bool) {
    k <= |outs| && k <= |src| &&
    forall i :: 0 <= i < k ==>
      && RoomReadsBack(st, outs[i], src[i])
      && outs[i].owner.WithAccount? == withAccount && outs[i].next == Link(i, |src|)
  }

  lemma RoomsStay(s: Storage, t: Storage, outs: seq<RoomInfo>, out: RoomInfo, src: seq<Room>, withAccount: bool)
    requires StorageExtends(s, t) && |outs| < |src| && RoomsDone(s, outs, src, |outs|, withAccount)
    requires RoomReadsBack(t, out, src[|outs|]) && out.owner.WithAccount? == withAccount
    requires out.next == Link(|outs|, |src|)
    ensures RoomsDone(t, outs + [out], src, |outs| + 1, withAccount)
  {
    hide RoomReadsBack, StorageExtends;
    forall i | 0 <= i < |outs| ensures RoomReadsBack(t, outs[i], src[i]) {
      RoomStays(s, t, outs[i], src[i]);
    }
  }

  // ---- How much a reply needs ----

  datatype Counts = Counts(groups: nat, ints: nat, bins: nat, owners: nat)

  function RoomCounts(r: Room): Counts {
    Counts(|r.groups|, |r.searchInts|, |r.searchBins| + |r.extBins|, if r.ownerNpid == [] then 0 else 1)
  }

  function Plus(a: Counts, b: Counts): Counts {
    Counts(a.groups + b.groups, a.ints + b.ints, a.bins + b.bins, a.owners + b.owners)
  }

  function TotalCounts(rooms: seq<Room>): Counts {
    if rooms == [] then Counts(0, 0, 0, 0) else Plus(TotalCounts(rooms[..|rooms| - 1]), RoomCounts(rooms[|rooms| - 1]))
  }

  ghost predicate AtMost(a: Counts, b: Counts) {
    a.groups <= b.groups && a.ints <= b.ints && a.bins <= b.bins && a.owners <= b.owners
  }

  lemma {:induction false} PrefixNeedsLess(rooms: seq<Room>, i: nat)
    requires i <= |rooms|
    ensures AtMost(TotalCounts(rooms[..i]), TotalCounts(rooms))
    decreases |rooms| - i
  {
    if i == |rooms| {
      assert rooms[..i] == rooms;
    } else {
      PrefixNeedsLess(rooms, i + 1);
      assert rooms[..i + 1][..i] == rooms[..i];
    }
  }

  // ---- Appending one slice ----

  method AppendGroups(v: Vec<GroupInfo>, src: seq<Group>) returns (w: Vec<GroupInfo>, first: Option<Ptr>)
    requires |v.items| + |src| <= v.capacity
    ensures Extends(v, w) && |w.items| == |v.items| + |src|
    ensures SliceIs(w, first, |src|, src, GroupIs)
  {
    w, first := v, None;
    var g := 0;
    while g < |src|
      invariant g <= |src| && Extends(v, w)
      invariant |w.items| == |v.items| + g
      invariant forall k :: 0 <= k < g ==> GroupIs(w.items[|v.items| + k], src[k])
      invariant first == if g == 0 then None else Some(Ptr(v.epoch, |v.items|))
    {
      w := EmplaceBack(w, GroupInfo(ToU8(src[g].id), src[g].hasPasswd, src[g].slotCount, src[g].numMembers));
      if first.None? {
        first := Some(Ptr(w.epoch, |w.items| - 1));
      }
      g := g + 1;
    }
  }

  method AppendInts(v: Vec<IntInfo>, src: seq<IntAttr>) returns (w: Vec<IntInfo>, first: Option<Ptr>)
    requires |v.items| + |src| <= v.capacity
    ensures Extends(v, w) && |w.items| == |v.items| + |src|
    ensures SliceIs(w, first, |src|, src, IntIs)
  {
    w, first := v, None;
    var a := 0;
    while a < |src|
      invariant a <= |src| && Extends(v, w)
      invariant |w.items| == |v.items| + a
      invariant forall k :: 0 <= k < a ==> IntIs(w.items[|v.items| + k], src[k])
      invariant first == if a == 0 then None else Some(Ptr(v.epoch, |v.items|))
    {
      w := EmplaceBack(w, IntInfo(ToU16(src[a].id), src[a].value));
      if first.None? {
        first := Some(Ptr(w.epoch, |w.items| - 1));
      }
      a := a + 1;
    }
  }

  /** Binary attributes: each copies its bytes into a new buffer and points to it, unless there are none. */
  method AppendBins(bins: Vec<BinInfo>, buffers: Vec<seq<u8>>, src: seq<BinAttr>)
    returns (bins': Vec<BinInfo>, buffers': Vec<seq<u8>>, first: Option<Ptr>)
    requires |bins.items| + |src| <= bins.capacity && |buffers.items| + |src| <= buffers.capacity
    ensures Extends(bins, bins') && Extends(buffers, buffers')
    ensures |bins'.items| == |bins.items| + |src| && |buffers'.items| == |buffers.items| + |src|
    ensures BinsAre(bins', buffers', first, |src|, src)
  {
    bins', buffers', first := bins, buffers, None;
    var a := 0;
    while a < |src|
      invariant a <= |src| && Extends(bins, bins') && Extends(buffers, buffers')
      invariant |bins'.items| == |bins.items| + a && |buffers'.items| == |buffers.items| + a
      invariant forall k :: 0 <= k < a ==> BinIs(buffers'.items, bins'.items[|bins.items| + k], src[k])
      invariant first == if a == 0 then None else Some(Ptr(bins.epoch, |bins.items|))
    {
      ghost var b, u := bins', buffers';
      buffers' := EmplaceBack(buffers', src[a].data);
      var data := if src[a].data == [] then None else Some(|buffers'.items| - 1);
      bins' := EmplaceBack(bins', BinInfo(ToU16(src[a].id), data, |src[a].data|));
      assert BinIs(buffers'.items, bins'.items[|bins.items| + a], src[a]);
      forall k | 0 <= k < a ensures BinIs(buffers'.items, bins'.items[|bins.items| + k], src[k]) {
        assert BinIs(u.items, b.items[|bins.items| + k], src[k]);
      }
      if first.None? {
        first := Some(Ptr(bins'.epoch, |bins'.items| - 1));
      }
      a := a + 1;
    }
  }

  // ---- The builders ----

  /** The search reply as the game sees it. */
  datatype SearchResponse = SearchResponse(rangeStart: u32, rangeTotal: u32, rangeResults: u32, head: Option<nat>)

  class CallbackPayload {
    var storage: Storage
    var rooms: seq<RoomInfo>
    var response: Option<SearchResponse>

    constructor ()
    {
      storage := Storage(Vec([], 0, 0), Vec([], 0, 0), Vec([], 0, 0), Vec([], 0, 0), Vec([], 0, 0));
      rooms, response := [], None;
    }

    method ReserveExternalRoomPayloadStorage(src: seq<Room>)
      modifies this`storage
      ensures var need, s, t := TotalCounts(src), old(storage), storage;
              && t.groups == Reserve(s.groups, need.groups) && t.ints == Reserve(s.ints, need.ints)
              && t.bins == Reserve(s.bins, need.bins) && t.buffers == Reserve(s.buffers, need.bins)
              && t.owners == Reserve(s.owners, need.owners)
    {
      var groups: nat, ints: nat, bins: nat, buffers: nat, owners: nat := 0, 0, 0, 0, 0;
      var i := 0;
      while i < |src|
        invariant i <= |src|
        invariant Counts(groups, ints, bins, owners) == TotalCounts(src[..i]) && buffers == bins
      {
        var r := src[i];
        assert src[..i + 1][..i] == src[..i];
        groups := groups + |r.groups|;
        ints := ints + |r.searchInts|;
        var roomBins := |r.searchBins| + |r.extBins|;
        bins := bins + roomBins;
        buffers := buffers + roomBins;
        if r.ownerNpid != [] {
          owners := owners + 1;
        }
        i := i + 1;
      }
      assert src[..i] == src;
      storage := Storage(Reserve(storage.groups, groups), Reserve(storage.ints, ints), Reserve(storage.bins, bins),
                         Reserve(storage.buffers, buffers), Reserve(storage.owners, owners));
    }

    method Reset()
      modifies this
      ensures rooms == [] && response == None
      ensures storage == var s := old(storage);
                         Storage(Clear(s.groups), Clear(s.ints), Clear(s.bins), Clear(s.buffers), Clear(s.owners))
    {
      storage := Storage(Clear(storage.groups), Clear(storage.ints), Clear(storage.bins), Clear(storage.buffers),
                         Clear(storage.owners));
      rooms, response := [], None;
    }

    /** The vectors hold exactly `used`, and there is room for what the reservation foresaw. */
    ghost predicate Filled(used: Counts, reserved: Counts)
      reads this
    {
      && |storage.groups.items| == used.groups && reserved.groups <= storage.groups.capacity
      && |storage.ints.items| == used.ints && reserved.ints <= storage.ints.capacity
      && |storage.bins.items| == used.bins && reserved.bins <= storage.bins.capacity
      && |storage.buffers.items| == used.bins && reserved.bins <= storage.buffers.capacity
      && |storage.owners.items| == used.owners && reserved.owners <= storage.owners.capacity
    }

    /** One room of the reply, appended behind the earlier ones. */
    method AppendRoom(r: Room, next: Option<nat>, withAccount: bool, ghost used: Counts, ghost reserved: Counts)
      returns (out: RoomInfo)
      requires Filled(used, reserved)
      requires AtMost(Plus(used, RoomCounts(r)), reserved)
      modifies this`storage
      ensures StorageExtends(old(storage), storage)
      ensures var more := Plus(used, RoomCounts(r));
              Filled(if withAccount then more.(owners := used.owners) else more, reserved)
      ensures out.next == next && out.owner.WithAccount? == withAccount && RoomReadsBack(storage, out, r)
    {
      var scalars := Scalars(
        ToU16(r.maxSlot), ToU16(r.curMembers), r.flags, ToU16(r.serverId), r.worldId, r.lobbyId, r.roomId,
        r.passwdSlotMask, r.joinedSlotMask,
        ToU16(r.publicSlots), ToU16(r.privateSlots), ToU16(r.openPublicSlots), ToU16(r.openPrivateSlots));
      var owners := storage.owners;
      var owner;
      if withAccount {
        var npid := if r.ownerNpid == [] then [] else OnlineId(r.ownerNpid);
        owner := WithAccount(npid, r.ownerAccountId, r.ownerPlatform);
      } else if r.ownerNpid != [] {
        owners := EmplaceBack(owners, OnlineId(r.ownerNpid));
        owner := Plain(Some(Ptr(owners.epoch, |owners.items| - 1)));
      } else {
        owner := Plain(None);
      }
      var groups, group := AppendGroups(storage.groups, r.groups);
      var ints, searchInt := AppendInts(storage.ints, r.searchInts);
      var bins1, buffers1, searchBin := AppendBins(storage.bins, storage.buffers, r.searchBins);
      var bins2, buffers2, extBin := AppendBins(bins1, buffers1, r.extBins);
      BinsStay(bins1, buffers1, bins2, buffers2, searchBin, |r.searchBins|, r.searchBins);
      storage := Storage(groups, ints, bins2, buffers2, owners);
      out := RoomInfo(next, scalars, owner, group, |r.groups|, searchInt, |r.searchInts|,
                      searchBin, |r.searchBins|, extBin, |r.extBins|);
    }

    /** BuildSearchRoomPayload and its account variant; the room-list replies fill the same structures.
        Every pointer taken on the way is still good at the end, every room's slices read back that room's items in
        order, the vectors hold exactly what was reserved for, and the links chain all rooms. */
    method BuildSearchRoomPayload(src: seq<Room>, start: u32, total: u32, results: u32, withAccount: bool)
      modifies this
      ensures |rooms| == |src| && RoomsDone(storage, rooms, src, |src|, withAccount)
      ensures Filled(UsedBy(src, withAccount), TotalCounts(src))
      ensures response == Some(SearchResponse(start, total, results, if src == [] then None else Some(0)))
    {
      hide RoomReadsBack, StorageExtends, RoomsDone, RoomCounts, Plus, AtMost;
      Reset();
      ReserveExternalRoomPayloadStorage(src);
      ghost var need := TotalCounts(src);
      NothingDone(storage, rooms, src, withAccount);
      var i := 0;
      while i < |src|
        invariant i == |rooms| <= |src|
        invariant Filled(UsedBy(src[..i], withAccount), need)
        invariant RoomsDone(storage, rooms, src, i, withAccount)
      {
        UsedGrows(src, i, withAccount);
        ghost var before := storage;
        var out := AppendRoom(src[i], if i + 1 < |src| then Some(i + 1) else None, withAccount,
                              UsedBy(src[..i], withAccount), need);
        RoomsStay(before, storage, rooms, out, src, withAccount);
        rooms := rooms + [out];
        i := i + 1;
      }
      assert src[..i] == src;
      response := Some(SearchResponse(start, total, results, if |rooms| == 0 then None else Some(0)));
    }
  }

  /** What these rooms put into the vectors; the account variant reserves for owner ids but stores none. */
  function UsedBy(rooms: seq<Room>, withAccount: bool): Counts {
    var c := TotalCounts(rooms);
    if withAccount then c.(owners := 0) else c
  }

  /** The reservation is used up exactly, unless the account variant finds an owner id in the reply. */
  lemma {:induction false} ReservesExactly(rooms: seq<Room>, withAccount: bool)
    ensures UsedBy(rooms, withAccount) == TotalCounts(rooms) <==>
              !withAccount || forall i :: 0 <= i < |rooms| ==> rooms[i].ownerNpid == []
    ensures TotalCounts(rooms).owners > 0 <==> exists i :: 0 <= i < |rooms| && rooms[i].ownerNpid != []
  {
    if rooms != [] {
      var n := |rooms| - 1;
      ReservesExactly(rooms[..n], withAccount);
      assert TotalCounts(rooms).owners == TotalCounts(rooms[..n]).owners + if rooms[n].ownerNpid == [] then 0 else 1;
      hide TotalCounts;
      assert forall i :: 0 <= i < n ==> rooms[..n][i] == rooms[i];
    }
  }

  lemma UsedGrows(src: seq<Room>, i: nat, withAccount: bool)
    requires i < |src|
    ensures var used := UsedBy(src[..i], withAccount);
            var more := Plus(used, RoomCounts(src[i]));
            && AtMost(more, TotalCounts(src))
            && UsedBy(src[..i + 1], withAccount) == if withAccount then more.(owners := used.owners) else more
  {
    PrefixNeedsLess(src, i + 1);
    TotalGrows(src, i);
    hide TotalCounts;
  }

  lemma TotalGrows(src: seq<Room>, i: nat)
    requires i < |src|
    ensures TotalCounts(src[..i + 1]) == Plus(TotalCounts(src[..i]), RoomCounts(src[i]))
  {
    assert src[..i + 1][..i] == src[..i];
  }

  lemma NothingDone(st: Storage, outs: seq<RoomInfo>, src: seq<Room>, withAccount: bool)
    ensures RoomsDone(st, outs, src, 0, withAccount)
  {
  }

  /** The places visited by following `next`, also one outside the rooms. */
  function Chain(rooms: seq<RoomInfo>, from: Option<nat>, fuel: nat): seq<nat>
    decreases fuel
  {
    if from.None? || fuel == 0 then []
    else [from.value] + if from.value < |rooms| then Chain(rooms, rooms[from.value].next, fuel - 1) else []
  }

  lemma ChainStep(rooms: seq<RoomInfo>, k: nat, fuel: nat)
    requires k < |rooms| && fuel > 0
    ensures Chain(rooms, Some(k), fuel) == [k] + Chain(rooms, rooms[k].next, fuel - 1)
  {
  }

  function Upward(k: nat, n: nat): seq<nat> {
    seq(n, i => k + i)
  }

  lemma UpwardStep(k: nat, n: nat)
    requires n > 0
    ensures Upward(k, n) == [k] + Upward(k + 1, n - 1)
  {
  }

  /** Following `next` from room k visits k, k + 1, ... and ends with the last room. */
  lemma {:induction false} ChainVisitsAll(rooms: seq<RoomInfo>, k: nat, fuel: nat)
    requires k <= |rooms| && fuel > |rooms| - k
    requires forall i :: 0 <= i < |rooms| ==> rooms[i].next == Link(i, |rooms|)
    ensures Chain(rooms, if k < |rooms| then Some(k) else None, fuel) == Upward(k, |rooms| - k)
    decreases |rooms| - k
  {
    if k < |rooms| {
      ChainVisitsAll(rooms, k + 1, fuel - 1);
      ChainStep(rooms, k, fuel);
      UpwardStep(k, |rooms| - k);
      assert rooms[k].next == Link(k, |rooms|);
    }
    hide Upward;
  }

  // ---- The user list ----

  datatype User = User(npid: seq<u8>, bins: seq<BinAttr>)
  datatype UserInfo = UserInfo(next: Option<nat>, npId: seq<u8>, bin: Option<Ptr>, bins: nat)

  function TotalBins(users: seq<User>): nat {
    if users == [] then 0 else TotalBins(users[..|users| - 1]) + |users[|users| - 1].bins|
  }

  lemma {:induction false} PrefixHasFewerBins(users: seq<User>, i: nat)
    requires i <= |users|
    ensures TotalBins(users[..i]) <= TotalBins(users)
    decreases |users| - i
  {
    if i == |users| {
      assert users[..i] == users;
    } else {
      PrefixHasFewerBins(users, i + 1);
      assert users[..i + 1][..i] == users[..i];
    }
  }

  ghost predicate UsersDone(bins: Vec<BinInfo>, buffers: Vec<seq<u8>>, outs: seq<UserInfo>, users: seq<User>, k: nat) {
    k <= |outs| && k <= |users| &&
    forall i :: 0 <= i < k ==>
      && outs[i].npId == OnlineId(users[i].npid) && BinsAre(bins, buffers, outs[i].bin, outs[i].bins, users[i].bins)
      && outs[i].next == Link(i, |users|)
  }

  lemma UsersStay(b: Vec<BinInfo>, u: Vec<seq<u8>>, b': Vec<BinInfo>, u': Vec<seq<u8>>,
                  outs: seq<UserInfo>, out: UserInfo, users: seq<User>)
    requires Extends(b, b') && Extends(u, u') && |outs| < |users| && UsersDone(b, u, outs, users, |outs|)
    requires BinsAre(b', u', out.bin, out.bins, users[|outs|].bins)
    requires out.npId == OnlineId(users[|outs|].npid) && out.next == Link(|outs|, |users|)
    ensures UsersDone(b', u', outs + [out], users, |outs| + 1)
  {
  }

  lemma BinsGrow(users: seq<User>, i: nat)
    requires i < |users|
    ensures TotalBins(users[..i + 1]) == TotalBins(users[..i]) + |users[i].bins|
    ensures TotalBins(users[..i + 1]) <= TotalBins(users)
  {
    assert users[..i + 1][..i] == users[..i];
    PrefixHasFewerBins(users, i + 1);
  }

  /** The user list as the game sees it: where it starts, and how many there are. */
  datatype UserListResponse = UserListResponse(head: Option<nat>, userInfoNum: nat)

  method BuildGetUserInfoListPayload(users: seq<User>, bins0: Vec<BinInfo>, buffers0: Vec<seq<u8>>)
    returns (response: UserListResponse, infos: seq<UserInfo>, bins: Vec<BinInfo>, buffers: Vec<seq<u8>>)
    ensures response == UserListResponse(if users == [] then None else Some(0), |users|)
    ensures |infos| == |users| && |bins.items| == |buffers.items| == TotalBins(users)
    ensures UsersDone(bins, buffers, infos, users, |users|)
  {
    hide BinsAre, UsersDone;
    var total: nat := 0;
    var i := 0;
    while i < |users|
      invariant i <= |users| && total == TotalBins(users[..i])
    {
      BinsGrow(users, i);
      total := total + |users[i].bins|;
      i := i + 1;
    }
    assert users[..i] == users;
    infos, bins, buffers := [], Reserve(Clear(bins0), total), Reserve(Clear(buffers0), total);
    assert UsersDone(bins, buffers, infos, users, 0) by { NoUsersDone(bins, buffers, infos, users); }
    i := 0;
    while i < |users|
      invariant i == |infos| <= |users|
      invariant |bins.items| == |buffers.items| == TotalBins(users[..i])
      invariant total <= bins.capacity && total <= buffers.capacity
      invariant UsersDone(bins, buffers, infos, users, i)
    {
      BinsGrow(users, i);
      var u := users[i];
      var bins', buffers', first := AppendBins(bins, buffers, u.bins);
      var out := UserInfo(if i + 1 < |users| then Some(i + 1) else None, OnlineId(u.npid), first, |u.bins|);
      UsersStay(bins, buffers, bins', buffers', infos, out, users);
      bins, buffers, infos := bins', buffers', infos + [out];
      i := i + 1;
    }
    assert users[..i] == users;
    response := UserListResponse(if |infos| == 0 then None else Some(0), |infos|);
  }

  lemma NoUsersDone(bins: Vec<BinInfo>, buffers: Vec<seq<u8>>, outs: seq<UserInfo>, users: seq<User>)
    ensures UsersDone(bins, buffers, outs, users, 0)
  {
  }
}
