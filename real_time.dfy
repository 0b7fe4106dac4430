/** The websocket side: clients join and leave rooms, and one iteration of
    each broadcast loop computes a payload from the stored snapshots and
    sends it to the members of a room. Socket session ids are strings, and
    `time.time()` is the parameter `clock`. */
module RealTime {
  import opened Common
  import opened Grouping
  import opened AptosPool
  import opened Pools

  type Sid = string

  /** The room of the overall statistics; a pool's room is its address. */
  const OverallStatsRoom: string := "overall_stats"

  type Rooms = map<string, set<Sid>>

  function Members(rooms: Rooms, room: string): set<Sid> {
    if room in rooms then rooms[room] else {}
  }

  /** `join_room`: the client is added to `room`; no other room changes. */
  function Joined(rooms: Rooms, sid: Sid, room: string): (r: Rooms)
    ensures Members(r, room) == Members(rooms, room) + {sid}
    ensures forall other :: other != room ==> Members(r, other) == Members(rooms, other)
  {
    rooms[room := Members(rooms, room) + {sid}]
  }

  /** `leave_room`: the client is removed from `room`; no other room
      changes. */
  function Left(rooms: Rooms, sid: Sid, room: string): (r: Rooms)
    ensures Members(r, room) == Members(rooms, room) - {sid}
    ensures forall other :: other != room ==> Members(r, other) == Members(rooms, other)
  {
    rooms[room := Members(rooms, room) - {sid}]
  }

  /** Leaving undoes joining for the client, and leaves the other members
      of the room as they were. */
  lemma LeaveAfterJoin(rooms: Rooms, sid: Sid, room: string)
    ensures sid !in Members(Left(Joined(rooms, sid, room), sid, room), room)
    ensures Members(Left(Joined(rooms, sid, room), sid, room), room) == Members(rooms, room) - {sid}
    ensures sid !in Members(rooms, room) ==> Members(Left(Joined(rooms, sid, room), sid, room), room) == Members(rooms, room)
  {
  }

  /** Joining twice is joining once. */
  lemma JoinIdempotent(rooms: Rooms, sid: Sid, room: string)
    ensures Members(Joined(Joined(rooms, sid, room), sid, room), room) == Members(Joined(rooms, sid, room), room)
  {
  }

  /** The `overall_stats` payload. */
  datatype OverallStats = OverallStats(
    totalTvl: real, totalVolumeDay: real, totalPools: nat, totalProviders: nat, timestamp: real)

  /** The `pool_update` payload. */
  datatype PoolUpdate = PoolUpdate(poolAddress: string, tvl: real, volumeDay: real, feesDay: real, timestamp: real)

  datatype Payload =
    | ConnectionResponse(data: string)
    | Stats(stats: OverallStats)
    | Update(update: PoolUpdate)

  /** One message sent: its event name, its payload, and the clients it
      reaches (the members of its room, or the requesting client). */
  datatype Emission = Emission(event: string, payload: Payload, recipients: set<Sid>)

  function RowTvl(p: Pool): real { p.tvl }
  function RowVolumeDay(p: Pool): real { p.volumeDay }
  function RowAddress(p: Pool): string { p.poolAddress }
  function RowProvider(p: Pool): string { p.provider }

  function Addresses(rows: seq<Pool>): set<string> {
    set i | 0 <= i < |rows| :: rows[i].poolAddress
  }

  function ProviderSet(rows: seq<Pool>): set<string> {
    set i | 0 <= i < |rows| :: rows[i].provider
  }

  /** The overall statistics over every stored row (all snapshots, not
      only the latest per pool): the two `SUM`s, and the two
      `COUNT(DISTINCT ...)`s, which list each address or provider once,
      so they are the numbers of distinct pools and providers. */
  function OverallStatsOf(rows: seq<Pool>, clock: real): (s: OverallStats)
    ensures s.totalTvl == Sum(rows, RowTvl) && s.totalVolumeDay == Sum(rows, RowVolumeDay)
    ensures s.totalPools == |Addresses(rows)| && s.totalProviders == |ProviderSet(rows)|
    ensures s.timestamp == clock
  {
    KeysOfCount(rows, RowAddress);
    KeysOfCount(rows, RowProvider);
    KeySets(rows);
    OverallStats(Sum(rows, RowTvl), Sum(rows, RowVolumeDay),
      |KeysOf(rows, RowAddress)|, |KeysOf(rows, RowProvider)|, clock)
  }

  lemma KeySets(rows: seq<Pool>)
    ensures KeySet(rows, RowAddress) == Addresses(rows)
    ensures KeySet(rows, RowProvider) == ProviderSet(rows)
  {
    forall i | 0 <= i < |rows| ensures RowAddress(rows[i]) == rows[i].poolAddress && RowProvider(rows[i]) == rows[i].provider {
    }
  }

  lemma AddressesSnoc(rows: seq<Pool>, p: Pool)
    ensures Addresses(rows + [p]) == Addresses(rows) + {p.poolAddress}
    ensures ProviderSet(rows + [p]) == ProviderSet(rows) + {p.provider}
  {
    var s := rows + [p];
    assert forall i :: 0 <= i < |rows| ==> s[i] == rows[i];
    assert s[|rows|] == p;
    forall x | x in Addresses(s) ensures x in Addresses(rows) + {p.poolAddress} {
      var i :| 0 <= i < |s| && s[i].poolAddress == x;
      if i < |rows| {
        assert rows[i].poolAddress == x;
      }
    }
    forall x | x in ProviderSet(s) ensures x in ProviderSet(rows) + {p.provider} {
      var i :| 0 <= i < |s| && s[i].provider == x;
      if i < |rows| {
        assert rows[i].provider == x;
      }
    }
  }

  /** Storing one more snapshot adds its amounts to the totals, and counts
      a pool or a provider once more only when it is new. */
  lemma OverallStatsSnoc(rows: seq<Pool>, p: Pool, clock: real)
    ensures var before, after := OverallStatsOf(rows, clock), OverallStatsOf(rows + [p], clock);
      after.totalTvl == before.totalTvl + p.tvl
      && after.totalVolumeDay == before.totalVolumeDay + p.volumeDay
      && after.totalPools == before.totalPools + (if p.poolAddress in Addresses(rows) then 0 else 1)
      && after.totalProviders == before.totalProviders + (if p.provider in ProviderSet(rows) then 0 else 1)
  {
    SumSnoc(rows, p, RowTvl);
    SumSnoc(rows, p, RowVolumeDay);
    AddressesSnoc(rows, p);
    if p.poolAddress !in Addresses(rows) {
      assert Addresses(rows) !! {p.poolAddress};
    } else {
      assert Addresses(rows) + {p.poolAddress} == Addresses(rows);
    }
    if p.provider !in ProviderSet(rows) {
      assert ProviderSet(rows) !! {p.provider};
    } else {
      assert ProviderSet(rows) + {p.provider} == ProviderSet(rows);
    }
  }

  /** There are never more pools than rows, and at least one pool and one
      provider once a row is stored. */
  lemma {:induction false} OverallStatsBounds(rows: seq<Pool>, clock: real)
    ensures OverallStatsOf(rows, clock).totalPools <= |rows|
    ensures OverallStatsOf(rows, clock).totalProviders <= |rows|
    ensures rows != [] ==> OverallStatsOf(rows, clock).totalPools >= 1 && OverallStatsOf(rows, clock).totalProviders >= 1
  {
    if rows != [] {
      var init := rows[..|rows| - 1];
      assert rows == init + [rows[|rows| - 1]];
      OverallStatsBounds(init, clock);
      OverallStatsSnoc(init, rows[|rows| - 1], clock);
    } else {
      assert Addresses(rows) == {};
      assert ProviderSet(rows) == {};
    }
  }

  /** One iteration of `emit_pool_data`: the newest row of the pool, or
      nothing to publish when the pool has no row. */
  function PoolPayload(rows: seq<Pool>, addr: string, clock: real): (u: Option<PoolUpdate>)
    ensures u.Some? <==> exists i :: 0 <= i < |rows| && rows[i].poolAddress == addr
    ensures u.Some? ==> exists i :: (0 <= i < |rows| && rows[i].poolAddress == addr && IsLatest(rows, rows[i])
      && u.value == PoolUpdate(addr, rows[i].tvl, rows[i].volumeDay, rows[i].feesDay, clock))
  {
    var newest := NewestFirst(rows, addr);
    NewestFirstHead(rows, addr);
    if newest == [] then None
    else
      var pool := newest[0];
      Some(PoolUpdate(pool.poolAddress, pool.tvl, pool.volumeDay, pool.feesDay, clock))
  }

  /** The socket server: room membership and the messages sent so far. */
  class Hub {
    var rooms: Rooms
    var sent: seq<Emission>

    constructor ()
      ensures rooms == map[] && sent == []
    {
      rooms := map[];
      sent := [];
    }

    method Join(sid: Sid, room: string)
      modifies this
      ensures rooms == Joined(old(rooms), sid, room) && sent == old(sent)
    {
      rooms := Joined(rooms, sid, room);
    }

    method Leave(sid: Sid, room: string)
      modifies this
      ensures rooms == Left(old(rooms), sid, room) && sent == old(sent)
    {
      rooms := Left(rooms, sid, room);
    }

    /** `handle_connect`: answers the connecting client only. */
    method HandleConnect(sid: Sid)
      modifies this
      ensures rooms == old(rooms)
      ensures sent == old(sent) + [Emission("connection_response", ConnectionResponse("Connected"), {sid})]
    {
      sent := sent + [Emission("connection_response", ConnectionResponse("Connected"), {sid})];
    }

    /** One iteration of `emit_overall_stats`: one message to the members
      of the `overall_stats` room. */
    method EmitOverallStatsOnce(rows: seq<Pool>, clock: real)
      modifies this
      ensures rooms == old(rooms)
      ensures sent == old(sent) + [Emission("overall_stats", Stats(OverallStatsOf(rows, clock)), Members(rooms, OverallStatsRoom))]
    {
      var data := OverallStatsOf(rows, clock);
      sent := sent + [Emission("overall_stats", Stats(data), Members(rooms, OverallStatsRoom))];
    }

    /** One iteration of `emit_pool_data`: one message to the pool's room
      when the pool has a row, and nothing otherwise. */
    method EmitPoolDataOnce(rows: seq<Pool>, addr: string, clock: real)
      modifies this
      ensures rooms == old(rooms)
      ensures PoolPayload(rows, addr, clock).None? ==> sent == old(sent)
      ensures PoolPayload(rows, addr, clock).Some? ==>
        sent == old(sent) + [Emission("pool_update", Update(PoolPayload(rows, addr, clock).value), Members(rooms, addr))]
    {
      var pool := PoolPayload(rows, addr, clock);
      if pool.Some? {
        sent := sent + [Emission("pool_update", Update(pool.value), Members(rooms, addr))];
      }
    }

    /** `handle_subscribe_overall_stats`: join, then the first iteration,
      which therefore reaches the subscriber. */
    method HandleSubscribeOverallStats(sid: Sid, rows: seq<Pool>, clock: real)
      modifies this
      ensures rooms == Joined(old(rooms), sid, OverallStatsRoom)
      ensures sent == old(sent) + [Emission("overall_stats", Stats(OverallStatsOf(rows, clock)), Members(rooms, OverallStatsRoom))]
      ensures sid in sent[|sent| - 1].recipients
    {
      Join(sid, OverallStatsRoom);
      EmitOverallStatsOnce(rows, clock);
    }

    method HandleUnsubscribeOverallStats(sid: Sid)
      modifies this
      ensures rooms == Left(old(rooms), sid, OverallStatsRoom) && sent == old(sent)
      ensures sid !in Members(rooms, OverallStatsRoom)
    {
      Leave(sid, OverallStatsRoom);
    }

    /** `handle_subscribe_pool`: `data['pool_address']` names the room; a
      message without it raises before anything happens, and the error
      handler only logs. */
    method HandleSubscribePool(sid: Sid, data: map<string, string>, rows: seq<Pool>, clock: real)
      modifies this
      ensures "pool_address" !in data ==> rooms == old(rooms) && sent == old(sent)
      ensures "pool_address" in data ==> var addr := data["pool_address"];
        rooms == Joined(old(rooms), sid, addr)
        && (PoolPayload(rows, addr, clock).None? ==> sent == old(sent))
        && (PoolPayload(rows, addr, clock).Some? ==>
              sent == old(sent) + [Emission("pool_update", Update(PoolPayload(rows, addr, clock).value), Members(rooms, addr))]
              && sid in sent[|sent| - 1].recipients)
    {
      if "pool_address" !in data {
        return;
      }
      var poolAddress := data["pool_address"];
      Join(sid, poolAddress);
      EmitPoolDataOnce(rows, poolAddress, clock);
    }

    method HandleUnsubscribePool(sid: Sid, data: map<string, string>)
      modifies this
      ensures "pool_address" !in data ==> rooms == old(rooms) && sent == old(sent)
      ensures "pool_address" in data ==>
        rooms == Left(old(rooms), sid, data["pool_address"]) && sent == old(sent)
        && sid !in Members(rooms, data["pool_address"])
    {
      if "pool_address" !in data {
        return;
      }
      var poolAddress := data["pool_address"];
      Leave(sid, poolAddress);
    }
  }
}
