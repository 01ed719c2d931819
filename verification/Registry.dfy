/** The state behind `ClientDataManager` and what each of its operations does to it.

    A queue pointer of the source is a handle (`Queue`); `inbox` counts the `Update` messages
    waiting in the priority bag of each queue. */
module Registry {
  import opened Common

  type Queue = nat

  datatype Position = Position(latitude: real, longitude: real, time: int)

  /** A client one follows, with the name and the time of the last position already sent on. */
  datatype Watcher = Watcher(id: int, time: int, name: string)

  function RemoveId(ids: seq<int>, id: int): seq<int> {
    if ids == [] then [] else (if ids[0] == id then [] else [ids[0]]) + RemoveId(ids[1..], id)
  }

  function RemoveWatchers(ws: seq<Watcher>, id: int): seq<Watcher> {
    if ws == [] then [] else (if ws[0].id == id then [] else [ws[0]]) + RemoveWatchers(ws[1..], id)
  }

  datatype ClientData = ClientData(
    publicKey: Bytes,
    name: string,
    positions: seq<Position>,
    followers: seq<int>,      // to whom the location is sent
    following: seq<Watcher>)  // who send their location
  {
    function AddFollower(id: int): ClientData {
      this.(followers := followers + [id])
    }

    function RemoveFollower(id: int): ClientData {
      this.(followers := RemoveId(followers, id))
    }

    function StartFollowing(id: int): ClientData {
      this.(following := following + [Watcher(id, 0, "")])
    }

    function StopFollowing(id: int): ClientData {
      this.(following := RemoveWatchers(following, id))
    }

    function SetName(n: string): ClientData {
      this.(name := n)
    }

    function AddPosition(latitude: real, longitude: real, time: int): ClientData {
      this.(positions := positions + [Position(latitude, longitude, time)])
    }
  }

  type Clients = map<int, ClientData>

  datatype Registry = Registry(
    nextId: int,                 // a 16-bit short
    ids: map<Bytes, int>,
    names: map<string, int>,
    data: Clients,
    queues: map<int, Queue>,
    inbox: map<Queue, nat>)
  {
    function Pending(q: Queue): nat {
      if q in inbox then inbox[q] else 0
    }
  }

  const EMPTY_REGISTRY := Registry(1, map[], map[], map[], map[], map[])

  const MAX_SHORT := 0x7fff

  /** `short` arithmetic: the successor of the largest value is the smallest one. */
  function NextShort(i: int): int {
    if i == MAX_SHORT then -0x8000 else i + 1
  }

  // ---- identities ------------------------------------------------------------------------

  /** `addClient`; `insert` leaves an entry that is already there as it is. */
  function AddClient(r: Registry, key: Bytes): (Registry, int) {
    (r.(ids := if key in r.ids then r.ids else r.ids[key := r.nextId],
        data := if r.nextId in r.data then r.data else r.data[r.nextId := ClientData(key, "", [], [], [])],
        nextId := NextShort(r.nextId)),
     r.nextId)
  }

  function InsertQueue(r: Registry, id: int, q: Queue): Registry {
    if id in r.queues then r else r.(queues := r.queues[id := q])
  }

  function RegisterClient(r: Registry, key: Bytes, q: Queue): (Registry, int) {
    var (r', id) := if key in r.ids then (r, r.ids[key]) else AddClient(r, key);
    (InsertQueue(r', id, q), id)
  }

  function Unregister(r: Registry, id: int): Registry {
    r.(queues := r.queues - {id})
  }

  // ---- notifications ---------------------------------------------------------------------

  /** Posts `Update` to the queue of client `id`, if it has one. */
  function Notify(r: Registry, id: int): Registry {
    if id in r.queues then r.(inbox := r.inbox[r.queues[id] := r.Pending(r.queues[id]) + 1]) else r
  }

  function NotifyAll(r: Registry, ids: seq<int>): Registry
    decreases |ids|
  {
    if ids == [] then r else NotifyAll(Notify(r, ids[0]), ids[1..])
  }

  // ---- the follower graph ----------------------------------------------------------------

  function AddFollower(r: Registry, myId: int, followerId: int): Registry
    requires myId in r.data && followerId in r.data
  {
    var d := r.data[myId := r.data[myId].AddFollower(followerId)];
    var d' := d[followerId := d[followerId].StartFollowing(myId)];
    Notify(r.(data := d'), followerId)
  }

  function RemoveFollower(r: Registry, myId: int, followerId: int): Registry
    requires myId in r.data && followerId in r.data
  {
    var d := r.data[myId := r.data[myId].RemoveFollower(followerId)];
    r.(data := d[followerId := d[followerId].StopFollowing(myId)])
  }

  function StopFollowing(r: Registry, myId: int, followingId: int): Registry
    requires myId in r.data && followingId in r.data
  {
    var d := r.data[myId := r.data[myId].StopFollowing(followingId)];
    r.(data := d[followingId := d[followingId].RemoveFollower(myId)])
  }

  // ---- names -----------------------------------------------------------------------------

  /** Zero stands for "no such name". */
  function GetNameId(r: Registry, name: string): int {
    if name in r.names then r.names[name] else 0
  }

  /** The renaming, before the notifications. */
  function WithName(r: Registry, myId: int, name: string): Registry
    requires myId in r.data
  {
    var names := if r.data[myId].name != "" then r.names - {r.data[myId].name} else r.names;
    r.(names := names[name := myId], data := r.data[myId := r.data[myId].SetName(name)])
  }

  function SetName(r: Registry, myId: int, name: string): (Registry, bool)
    requires myId in r.data
  {
    if name in r.names then (r, r.data[myId].name == name)
    else (NotifyAll(WithName(r, myId, name), r.data[myId].followers), true)
  }

  // ---- positions -------------------------------------------------------------------------

  /** The new position, before the notifications. */
  function WithPosition(r: Registry, myId: int, latitude: real, longitude: real, time: int): Registry
    requires myId in r.data
  {
    r.(data := r.data[myId := r.data[myId].AddPosition(latitude, longitude, time)])
  }

  function AddPosition(r: Registry, myId: int, latitude: real, longitude: real, time: int): Registry
    requires myId in r.data
  {
    NotifyAll(WithPosition(r, myId, latitude, longitude, time), r.data[myId].followers)
  }

  // ---- what a client has not been told yet -----------------------------------------------

  predicate NameNews(w: Watcher, d: ClientData) {
    d.name != "" && d.name != w.name
  }

  predicate PositionNews(w: Watcher, d: ClientData) {
    d.positions != [] && d.name != "" && d.positions[|d.positions| - 1].time > w.time
  }

  /** The positions `getNewPositions` copies for one watcher: its iterator is never stepped
      back, so the last position comes once when it is the only one and three times otherwise. */
  function Emitted(w: Watcher, d: ClientData): seq<Position> {
    if !PositionNews(w, d) then []
    else
      var last := d.positions[|d.positions| - 1];
      if |d.positions| == 1 then [last] else [last, last, last]
  }

  function Max(a: int, b: int): int {
    if a > b then a else b
  }

  /** The watcher after its positions were copied. */
  function Advanced(w: Watcher, d: ClientData): Watcher {
    if d.positions == [] || d.name == "" then w
    else w.(time := Max(w.time, if PositionNews(w, d) then Max(0, d.positions[|d.positions| - 1].time) else 0))
  }

  predicate Known(ws: seq<Watcher>, data: Clients) {
    forall i :: 0 <= i < |ws| ==> ws[i].id in data
  }

  function Tag(id: int, ps: seq<Position>): seq<(int, Position)> {
    seq(|ps|, i requires 0 <= i < |ps| => (id, ps[i]))
  }

  function PositionsFor(ws: seq<Watcher>, data: Clients): seq<(int, Position)>
    requires Known(ws, data)
  {
    if ws == [] then []
    else
      assert Known(ws[1..], data);
      Tag(ws[0].id, Emitted(ws[0], data[ws[0].id])) + PositionsFor(ws[1..], data)
  }

  function AdvancedAll(ws: seq<Watcher>, data: Clients): (r: seq<Watcher>)
    requires Known(ws, data)
    ensures |r| == |ws|
    ensures forall i :: 0 <= i < |ws| ==> r[i] == Advanced(ws[i], data[ws[i].id])
  {
    seq(|ws|, i requires 0 <= i < |ws| => Advanced(ws[i], data[ws[i].id]))
  }

  function GetNewPositions(r: Registry, id: int): (Registry, seq<(int, Position)>)
    requires id in r.data && Known(r.data[id].following, r.data)
  {
    var ws := r.data[id].following;
    (r.(data := r.data[id := r.data[id].(following := AdvancedAll(ws, r.data))]), PositionsFor(ws, r.data))
  }

  function Renamed(w: Watcher, d: ClientData): Watcher {
    if NameNews(w, d) then w.(name := d.name) else w
  }

  function NamesFor(ws: seq<Watcher>, data: Clients): seq<(int, string)>
    requires Known(ws, data)
  {
    if ws == [] then []
    else
      assert Known(ws[1..], data);
      var d := data[ws[0].id];
      (if NameNews(ws[0], d) then [(ws[0].id, d.name)] else []) + NamesFor(ws[1..], data)
  }

  function RenamedAll(ws: seq<Watcher>, data: Clients): (r: seq<Watcher>)
    requires Known(ws, data)
    ensures |r| == |ws|
    ensures forall i :: 0 <= i < |ws| ==> r[i] == Renamed(ws[i], data[ws[i].id])
  {
    seq(|ws|, i requires 0 <= i < |ws| => Renamed(ws[i], data[ws[i].id]))
  }

  function GetNewNames(r: Registry, id: int): (Registry, seq<(int, string)>)
    requires id in r.data && Known(r.data[id].following, r.data)
  {
    var ws := r.data[id].following;
    (r.(data := r.data[id := r.data[id].(following := RenamedAll(ws, r.data))]), NamesFor(ws, r.data))
  }

  /** Something that a fetch by `id` would deliver. */
  predicate HasNews(r: Registry, id: int) {
    && id in r.data
    && exists i :: 0 <= i < |r.data[id].following| &&
         var w := r.data[id].following[i];
         w.id in r.data && (NameNews(w, r.data[w.id]) || PositionNews(w, r.data[w.id]))
  }
}
