/** What every operation of the registry keeps, and what the answers mean. */
module RegistryLaws {
  import opened Common
  import opened Registry

  // ---- multiplicities --------------------------------------------------------------------

  function WatchedIds(ws: seq<Watcher>): (ids: seq<int>)
    ensures |ids| == |ws| && forall i :: 0 <= i < |ws| ==> ids[i] == ws[i].id
  {
    seq(|ws|, i requires 0 <= i < |ws| => ws[i].id)
  }

  /** How often `f` stands in the follower list of `a`. */
  function Followers(r: Registry, a: int, f: int): nat
    requires a in r.data
  {
    multiset(r.data[a].followers)[f]
  }

  /** How many watchers for `a` client `f` holds. */
  function Watching(r: Registry, f: int, a: int): nat
    requires f in r.data
  {
    multiset(WatchedIds(r.data[f].following))[a]
  }

  lemma {:induction false} RemoveIdCounts(ids: seq<int>, id: int, x: int)
    ensures multiset(RemoveId(ids, id))[x] == if x == id then 0 else multiset(ids)[x]
  {
    if ids != [] {
      RemoveIdCounts(ids[1..], id, x);
      assert ids == [ids[0]] + ids[1..];
    }
  }

  lemma {:induction false} RemoveWatchersIds(ws: seq<Watcher>, id: int)
    ensures WatchedIds(RemoveWatchers(ws, id)) == RemoveId(WatchedIds(ws), id)
  {
    if ws != [] {
      RemoveWatchersIds(ws[1..], id);
      assert WatchedIds(ws)[1..] == WatchedIds(ws[1..]);
      var rest := RemoveWatchers(ws[1..], id);
      assert WatchedIds([ws[0]] + rest) == [ws[0].id] + WatchedIds(rest);
      assert [] + rest == rest;
    } else {
      assert WatchedIds([]) == [];
    }
  }

  lemma {:induction false} RemoveWatchersMembers(ws: seq<Watcher>, id: int)
    ensures forall w :: w in RemoveWatchers(ws, id) <==> w in ws && w.id != id
  {
    if ws != [] {
      RemoveWatchersMembers(ws[1..], id);
      assert forall w :: w in ws <==> w == ws[0] || w in ws[1..];
    }
  }

  lemma {:induction false} RemoveIdMembers(ids: seq<int>, id: int)
    ensures forall x :: x in RemoveId(ids, id) <==> x in ids && x != id
  {
    if ids != [] {
      RemoveIdMembers(ids[1..], id);
      assert forall x :: x in ids <==> x == ids[0] || x in ids[1..];
    }
  }

  // ---- consistency -----------------------------------------------------------------------

  function LastId(r: Registry): int {
    if r.nextId > 0 then r.nextId - 1 else MAX_SHORT
  }

  /** Keys and ids are in bijection, and the used ids are 1 to LastId. */
  ghost predicate IdsOk(r: Registry) {
    && (1 <= r.nextId <= MAX_SHORT || r.nextId == -0x8000)
    && (forall i :: i in r.data <==> 1 <= i <= LastId(r))
    && (forall k :: k in r.ids ==> r.ids[k] in r.data && r.data[r.ids[k]].publicKey == k)
    && (forall i :: i in r.data ==> r.data[i].publicKey in r.ids && r.ids[r.data[i].publicKey] == i)
  }

  /** The name index is the inverse of the current non-empty names. */
  ghost predicate NamesOk(r: Registry) {
    && (forall n :: n in r.names ==> r.names[n] in r.data && (n != "" ==> r.data[r.names[n]].name == n))
    && (forall i :: i in r.data && r.data[i].name != "" ==> r.data[i].name in r.names && r.names[r.data[i].name] == i)
  }

  /** Every id that is mentioned exists, and both directions of the graph agree, counted with
      multiplicity. */
  ghost predicate GraphOk(r: Registry) {
    && (forall a, f :: a in r.data && f in r.data[a].followers ==> f in r.data)
    && (forall f :: f in r.data ==> Known(r.data[f].following, r.data))
    && (forall a, f :: a in r.data && f in r.data ==> Followers(r, a, f) == Watching(r, f, a))
  }

  ghost predicate Consistent(r: Registry) {
    && IdsOk(r) && NamesOk(r) && GraphOk(r)
    && r.queues.Keys <= r.data.Keys
  }

  lemma EmptyIsConsistent()
    ensures Consistent(EMPTY_REGISTRY)
  {
  }

  // ---- notifications touch the inboxes only ------------------------------------------------

  ghost predicate Stored(r: Registry, q: Queue) {
    exists i :: i in r.queues && r.queues[i] == q
  }

  /** Equal but for the inboxes of stored queues, where nothing is lost. */
  ghost predicate OnlyPosts(r: Registry, r': Registry) {
    && r' == r.(inbox := r'.inbox)
    && (forall q: Queue :: r.Pending(q) <= r'.Pending(q))
    && (forall q: Queue :: !Stored(r, q) ==> r'.Pending(q) == r.Pending(q))
  }

  lemma {:induction false} NotifyAllPosts(r: Registry, ids: seq<int>)
    ensures OnlyPosts(r, NotifyAll(r, ids))
    decreases |ids|
  {
    if ids != [] {
      NotifyPosts(r, ids[0]);
      NotifyAllPosts(Notify(r, ids[0]), ids[1..]);
    }
  }

  lemma NotifyPosts(r: Registry, id: int)
    ensures OnlyPosts(r, Notify(r, id))
  {
  }

  /** Everybody notified who has a queue finds a notice. */
  lemma {:induction false} NotifyAllReaches(r: Registry, ids: seq<int>, id: int)
    requires id in ids && id in r.queues
    ensures NotifyAll(r, ids).Pending(r.queues[id]) > 0
    decreases |ids|
  {
    if id == ids[0] {
      NotifyAllPosts(Notify(r, id), ids[1..]);
    } else {
      NotifyAllReaches(Notify(r, ids[0]), ids[1..], id);
    }
  }

  /** How often the list names a client whose stored queue is q. */
  function Entries(r: Registry, ids: seq<int>, q: Queue): nat {
    if ids == [] then 0
    else (if ids[0] in r.queues && r.queues[ids[0]] == q then 1 else 0) + Entries(r, ids[1..], q)
  }

  /** Each entry of the list is worth one notice, in the queue stored for it. */
  lemma {:induction false} NotifyAllCounts(r: Registry, ids: seq<int>, q: Queue)
    ensures NotifyAll(r, ids).Pending(q) == r.Pending(q) + Entries(r, ids, q)
    decreases |ids|
  {
    if ids != [] {
      var r1 := Notify(r, ids[0]);
      NotifyAllCounts(r1, ids[1..], q);
      SameEntries(r, r1, ids[1..], q);
    }
  }

  lemma {:induction false} SameEntries(r: Registry, r1: Registry, ids: seq<int>, q: Queue)
    requires r1.queues == r.queues
    ensures Entries(r1, ids, q) == Entries(r, ids, q)
  {
    if ids != [] {
      SameEntries(r, r1, ids[1..], q);
    }
  }

  /** Consistency is a matter of the maps, not of the messages. */
  lemma PostsKeepConsistency(r: Registry, r': Registry)
    requires r' == r.(inbox := r'.inbox) && Consistent(r)
    ensures Consistent(r')
  {
    forall a, f | a in r'.data && f in r'.data ensures Followers(r', a, f) == Watching(r', f, a) {
      assert Followers(r, a, f) == Watching(r, f, a);
    }
  }

  // ---- what each operation keeps -----------------------------------------------------------

  lemma QueueKeepsConsistency(r: Registry, id: int, q: Queue)
    requires Consistent(r) && id in r.data
    ensures Consistent(InsertQueue(r, id, q))
  {
    SameEdges(r, InsertQueue(r, id, q));
    SameIds(r, InsertQueue(r, id, q));
  }

  lemma NewClientKeepsGraph(r: Registry, key: Bytes)
    requires Consistent(r) && r.nextId > 0
    ensures GraphOk(AddClient(r, key).0)
  {
    var m := AddClient(r, key).0;
    forall a, f | a in m.data && f in m.data ensures Followers(m, a, f) == Watching(m, f, a) {
      if a == r.nextId || f == r.nextId {
        assert a in r.data ==> f !in r.data[a].followers;
        assert f in r.data ==> Known(r.data[f].following, r.data);
      } else {
        assert Followers(r, a, f) == Watching(r, f, a);
      }
    }
    forall f | f in m.data ensures Known(m.data[f].following, m.data) {
      assert f in r.data ==> Known(r.data[f].following, r.data);
    }
  }

  lemma NewClientKeepsIndices(r: Registry, key: Bytes)
    requires IdsOk(r) && NamesOk(r) && key !in r.ids && r.nextId > 0
    ensures IdsOk(AddClient(r, key).0) && NamesOk(AddClient(r, key).0)
  {
  }

  /** Registration keeps consistency as long as ids fit a short. */
  lemma RegisterKeepsConsistency(r: Registry, key: Bytes, q: Queue)
    requires Consistent(r) && (key in r.ids || r.nextId > 0)
    ensures var (r', id) := RegisterClient(r, key, q);
      Consistent(r') && id in r'.data && r'.data[id].publicKey == key
  {
    if key in r.ids {
      QueueKeepsConsistency(r, r.ids[key], q);
    } else {
      NewClientKeepsGraph(r, key);
      NewClientKeepsIndices(r, key);
      QueueKeepsConsistency(AddClient(r, key).0, r.nextId, q);
    }
  }

  /** A known key gets its old id back and every stored client stays as it is; a new key gets a
      positive id exactly while ids fit a short. */
  lemma RegistrationIdentity(r: Registry, key: Bytes, q: Queue)
    requires Consistent(r)
    ensures var (r', id) := RegisterClient(r, key, q);
      && (key in r.ids ==> id == r.ids[key] && r' == r.(queues := r'.queues))
      && (key !in r.ids ==> id !in r.data && forall i :: i in r.data ==> i in r'.data && r'.data[i] == r.data[i])
      && (id > 0 <==> key in r.ids || r.nextId > 0)
      && r'.queues == (if id in r.queues then r.queues else r.queues[id := q])
      && r'.names == r.names && r'.inbox == r.inbox
      && (key !in r.ids ==> id in r'.data && r'.data[id] == ClientData(key, "", [], [], []))
  {
  }

  lemma UnregisterKeepsConsistency(r: Registry, id: int)
    requires Consistent(r)
    ensures Consistent(Unregister(r, id))
  {
    forall a, f | a in r.data && f in r.data
      ensures Followers(Unregister(r, id), a, f) == Watching(Unregister(r, id), f, a)
    {
      assert Followers(r, a, f) == Watching(r, f, a);
    }
  }

  /** The two updates of `addFollower`, before the notification. */
  function Linked(r: Registry, a: int, f: int): Registry
    requires a in r.data && f in r.data
  {
    var d := r.data[a := r.data[a].AddFollower(f)];
    r.(data := d[f := d[f].StartFollowing(a)])
  }

  lemma LinkedAddsFollower(r: Registry, a: int, f: int, x: int, y: int)
    requires a in r.data && f in r.data && x in r.data
    ensures Followers(Linked(r, a, f), x, y) == Followers(r, x, y) + if x == a && y == f then 1 else 0
  {
  }

  lemma LinkedAddsWatcher(r: Registry, a: int, f: int, x: int, y: int)
    requires a in r.data && f in r.data && y in r.data
    ensures Watching(Linked(r, a, f), y, x) == Watching(r, y, x) + if x == a && y == f then 1 else 0
  {
    var w := Watcher(a, 0, "");
    assert WatchedIds(r.data[f].following + [w]) == WatchedIds(r.data[f].following) + [a];
  }

  lemma AddFollowerPosts(r: Registry, a: int, f: int)
    requires a in r.data && f in r.data
    ensures OnlyPosts(Linked(r, a, f), AddFollower(r, a, f)) && AddFollower(r, a, f).data == Linked(r, a, f).data
  {
    NotifyPosts(Linked(r, a, f), f);
  }

  /** Following adds one edge, on both sides, and leaves every other edge as it was. */
  lemma AddFollowerAddsTheEdge(r: Registry, a: int, f: int, x: int, y: int)
    requires a in r.data && f in r.data && x in r.data && y in r.data
    ensures OnlyPosts(Linked(r, a, f), AddFollower(r, a, f)) && AddFollower(r, a, f).data == Linked(r, a, f).data
    ensures x in AddFollower(r, a, f).data && y in AddFollower(r, a, f).data
    ensures Followers(AddFollower(r, a, f), x, y) == Followers(r, x, y) + if x == a && y == f then 1 else 0
    ensures Watching(AddFollower(r, a, f), y, x) == Watching(r, y, x) + if x == a && y == f then 1 else 0
  {
    AddFollowerPosts(r, a, f);
    LinkedAddsFollower(r, a, f, x, y);
    LinkedAddsWatcher(r, a, f, x, y);
  }

  lemma LinkedKeepsGraph(r: Registry, a: int, f: int)
    requires GraphOk(r) && a in r.data && f in r.data
    ensures GraphOk(Linked(r, a, f))
  {
    var m := Linked(r, a, f);
    forall x, y | x in m.data && y in m.data ensures Followers(m, x, y) == Watching(m, y, x) {
      LinkedAddsFollower(r, a, f, x, y);
      LinkedAddsWatcher(r, a, f, x, y);
      assert Followers(r, x, y) == Watching(r, y, x);
    }
    LinkedKnows(r, a, f);
  }

  /** All ids mentioned still exist. */
  lemma LinkedKnows(r: Registry, a: int, f: int)
    requires GraphOk(r) && a in r.data && f in r.data
    ensures var m := Linked(r, a, f);
      && (forall x, y :: x in m.data && y in m.data[x].followers ==> y in m.data)
      && (forall g :: g in m.data ==> Known(m.data[g].following, m.data))
  {
    var m := Linked(r, a, f);
    forall g | g in m.data ensures Known(m.data[g].following, m.data) {
      assert Known(r.data[g].following, r.data);
    }
    forall x, y | x in m.data && y in m.data[x].followers ensures y in m.data {
      assert y == f || y in r.data[x].followers;
    }
  }

  lemma AddFollowerKeepsConsistency(r: Registry, a: int, f: int)
    requires Consistent(r) && a in r.data && f in r.data
    ensures Consistent(AddFollower(r, a, f))
  {
    LinkedKeepsGraph(r, a, f);
    SameIds(r, Linked(r, a, f));
    AddFollowerPosts(r, a, f);
    PostsKeepConsistency(Linked(r, a, f), AddFollower(r, a, f));
  }

  /** Changes that keep the keys, names and ids of the clients keep both indices. */
  lemma SameIds(r: Registry, m: Registry)
    requires IdsOk(r) && NamesOk(r) && m.ids == r.ids && m.names == r.names && m.nextId == r.nextId
    requires forall i :: i in r.data <==> i in m.data
    requires forall i :: i in r.data ==> m.data[i].publicKey == r.data[i].publicKey && m.data[i].name == r.data[i].name
    ensures IdsOk(m) && NamesOk(m)
  {
    forall n | n in m.names ensures m.names[n] in m.data && (n != "" ==> m.data[m.names[n]].name == n) {
      assert n in r.names;
      var i := r.names[n];
      assert i in r.data;
      assert i in m.data;
      assert m.names[n] == i;
      assert n != "" ==> m.data[i].name == n;
    }
  }

  /** Ceasing to follow removes all edges between the two, on both sides, and no other. */
  lemma StopFollowingCutsTheEdge(r: Registry, me: int, a: int, x: int, y: int)
    requires me in r.data && a in r.data && x in r.data && y in r.data
    ensures Followers(StopFollowing(r, me, a), x, y) == if x == a && y == me then 0 else Followers(r, x, y)
    ensures Watching(StopFollowing(r, me, a), y, x) == if x == a && y == me then 0 else Watching(r, y, x)
  {
    RemoveWatchersIds(r.data[me].following, a);
    RemoveIdCounts(WatchedIds(r.data[me].following), a, x);
    RemoveIdCounts(r.data[a].followers, me, y);
  }

  lemma CutKnows(r: Registry, me: int, a: int)
    requires GraphOk(r) && me in r.data && a in r.data
    ensures var m := StopFollowing(r, me, a);
      && (forall x, y :: x in m.data && y in m.data[x].followers ==> y in m.data)
      && (forall f :: f in m.data ==> Known(m.data[f].following, m.data))
  {
    var m := StopFollowing(r, me, a);
    RemoveIdMembers(r.data[a].followers, me);
    RemoveWatchersMembers(r.data[me].following, a);
    forall f | f in m.data ensures Known(m.data[f].following, m.data) {
      assert Known(r.data[f].following, r.data);
      forall i | 0 <= i < |m.data[f].following| ensures m.data[f].following[i].id in m.data {
        assert m.data[f].following[i] in r.data[f].following;
      }
    }
  }

  lemma StopFollowingKeepsConsistency(r: Registry, me: int, a: int)
    requires Consistent(r) && me in r.data && a in r.data
    ensures Consistent(StopFollowing(r, me, a))
  {
    var m := StopFollowing(r, me, a);
    assert GraphOk(m) by {
      forall x, y | x in m.data && y in m.data ensures Followers(m, x, y) == Watching(m, y, x) {
        assert Followers(r, x, y) == Watching(r, y, x);
        StopFollowingCutsTheEdge(r, me, a, x, y);
      }
      CutKnows(r, me, a);
    }
    SameIds(r, m);
  }

  /** `a` dropping its follower `f` and `f` ceasing to follow `a` lead to the same state. */
  lemma RemoveFollowerIsStopFollowing(r: Registry, a: int, f: int)
    requires a in r.data && f in r.data
    ensures RemoveFollower(r, a, f) == StopFollowing(r, f, a)
  {
    assert RemoveFollower(r, a, f).data == StopFollowing(r, f, a).data;
  }

  lemma SameEdges(r: Registry, m: Registry)
    requires GraphOk(r) && m.data.Keys == r.data.Keys
    requires forall i :: i in r.data ==>
      m.data[i].followers == r.data[i].followers && m.data[i].following == r.data[i].following
    ensures GraphOk(m)
  {
    assert forall i :: i in r.data <==> i in r.data.Keys;
    assert forall i :: i in m.data <==> i in m.data.Keys;
    forall x, y | x in m.data && y in m.data ensures Followers(m, x, y) == Watching(m, y, x) {
      assert Followers(r, x, y) == Watching(r, y, x);
    }
    forall f | f in m.data ensures Known(m.data[f].following, m.data) {
      assert Known(r.data[f].following, r.data);
    }
  }

  /** Taking over a free name keeps the index the inverse of the names. */
  lemma RenamingKeepsIndices(r: Registry, me: int, name: string)
    requires IdsOk(r) && NamesOk(r) && me in r.data && name !in r.names
    ensures IdsOk(WithName(r, me, name)) && NamesOk(WithName(r, me, name))
  {
  }

  lemma SetNameKeepsConsistency(r: Registry, me: int, name: string)
    requires Consistent(r) && me in r.data
    ensures Consistent(SetName(r, me, name).0)
  {
    if name !in r.names {
      var m := WithName(r, me, name);
      RenamingKeepsIndices(r, me, name);
      SameEdges(r, m);
      NotifyAllPosts(m, r.data[me].followers);
      PostsKeepConsistency(m, SetName(r, me, name).0);
    }
  }

  lemma AddPositionKeepsConsistency(r: Registry, me: int, latitude: real, longitude: real, time: int)
    requires Consistent(r) && me in r.data
    ensures Consistent(AddPosition(r, me, latitude, longitude, time))
  {
    var m := WithPosition(r, me, latitude, longitude, time);
    SameGraph(r, m);
    NotifyAllPosts(m, r.data[me].followers);
    PostsKeepConsistency(m, AddPosition(r, me, latitude, longitude, time));
  }

  /** Rewriting marks, cached names or positions leaves the graph and the indices alone. */
  lemma SameGraph(r: Registry, m: Registry)
    requires Consistent(r) && m == r.(data := m.data) && m.data.Keys == r.data.Keys
    requires forall i :: i in r.data ==>
      && m.data[i].publicKey == r.data[i].publicKey && m.data[i].name == r.data[i].name
      && m.data[i].followers == r.data[i].followers
      && WatchedIds(m.data[i].following) == WatchedIds(r.data[i].following)
    ensures Consistent(m)
  {
    forall x, y | x in m.data && y in m.data ensures Followers(m, x, y) == Watching(m, y, x) {
      assert Followers(r, x, y) == Watching(r, y, x);
    }
    forall f | f in m.data ensures Known(m.data[f].following, m.data) {
      assert Known(r.data[f].following, r.data);
      forall i | 0 <= i < |m.data[f].following| ensures m.data[f].following[i].id in m.data {
        assert WatchedIds(m.data[f].following)[i] == WatchedIds(r.data[f].following)[i];
      }
    }
    assert forall i :: i in r.data <==> i in r.data.Keys;
    assert forall i :: i in m.data <==> i in m.data.Keys;
    SameIds(r, m);
  }

  lemma GetNewNamesKeepsConsistency(r: Registry, id: int)
    requires Consistent(r) && id in r.data
    ensures Known(r.data[id].following, r.data)
    ensures Consistent(GetNewNames(r, id).0)
  {
    SameGraph(r, GetNewNames(r, id).0);
  }

  lemma GetNewPositionsKeepsConsistency(r: Registry, id: int)
    requires Consistent(r) && id in r.data
    ensures Known(r.data[id].following, r.data)
    ensures Consistent(GetNewPositions(r, id).0)
  {
    SameGraph(r, GetNewPositions(r, id).0);
  }

  // ---- names -------------------------------------------------------------------------------

  /** The first id from `i` on whose current name is `n`, found by looking at every client. */
  function Scan(r: Registry, n: string, i: int): int
    decreases LastId(r) + 1 - i
  {
    if i > LastId(r) then 0
    else if i in r.data && r.data[i].name == n then i
    else Scan(r, n, i + 1)
  }

  lemma {:induction false} ScanFinds(r: Registry, n: string, i: int)
    requires Consistent(r) && n != "" && 1 <= i
    requires n in r.names ==> i <= r.names[n]
    ensures Scan(r, n, i) == GetNameId(r, n)
    decreases LastId(r) + 1 - i
  {
    if i <= LastId(r) && r.data[i].name != n {
      ScanFinds(r, n, i + 1);
    }
  }

  /** For every non-empty name the index answers what a search through all clients would, and
      at most one client has the name. */
  lemma NameIndexIsScan(r: Registry, n: string)
    requires Consistent(r) && n != ""
    ensures GetNameId(r, n) == Scan(r, n, 1)
    ensures forall i, j :: i in r.data && j in r.data && r.data[i].name == n && r.data[j].name == n ==> i == j
    ensures forall i :: i in r.data ==> (GetNameId(r, n) == i <==> r.data[i].name == n)
  {
    ScanFinds(r, n, 1);
  }

  /** The empty name is the exception: its index entry survives the renaming of its owner. */
  lemma EmptyNameIndexGoesStale()
    ensures var r := RegisterClient(EMPTY_REGISTRY, [1], 0).0;
      var r' := SetName(SetName(r, 1, "").0, 1, "x").0;
      GetNameId(r', "") == 1 && r'.data[1].name == "x" && Scan(r', "", 1) == 0
  {
    var r := RegisterClient(EMPTY_REGISTRY, [1], 0).0;
    var r1 := SetName(r, 1, "").0;
    assert r1.data[1] == ClientData([1], "", [], [], []);
    var r' := SetName(r1, 1, "x").0;
    assert LastId(r') == 1;
    assert Scan(r', "", 2) == 0;
  }

  /** The entry of the empty name is never moved, and ceases to be true exactly when its owner takes a
      new name. */
  lemma EmptyNameStaysTrueIff(r: Registry, me: int, name: string)
    requires Consistent(r) && me in r.data && "" in r.names && r.data[r.names[""]].name == ""
    ensures var r' := SetName(r, me, name).0;
      && "" in r'.names && r'.names[""] == r.names[""] && r.names[""] in r'.data
      && (r'.data[r.names[""]].name == "" <==> !(me == r.names[""] && name !in r.names))
  {
    SetNameAnswer(r, me, name);
    NotifyAllPosts(WithName(r, me, name), r.data[me].followers);
  }

  /** `setName` succeeds exactly when the caller bears the name afterwards, and it takes over
      exactly the names that nobody holds; a refusal changes nothing. */
  lemma SetNameAnswer(r: Registry, me: int, name: string)
    requires Consistent(r) && me in r.data
    ensures var (r', ok) := SetName(r, me, name);
      && r'.data.Keys == r.data.Keys
      && (ok <==> r'.data[me].name == name)
      && (!ok ==> r' == r)
      && (name != "" ==> (ok <==> forall i :: i in r.data && i != me ==> r.data[i].name != name))
      && (forall i :: i in r.data && i != me ==> r'.data[i] == r.data[i])
  {
    NotifyAllPosts(WithName(r, me, name), r.data[me].followers);
    if name in r.names {
      var holder := r.names[name];
      assert holder in r.data && (name != "" ==> r.data[holder].name == name);
    } else {
      assert forall i :: i in r.data && r.data[i].name == name ==> name == "";
    }
  }

  // ---- fetching ----------------------------------------------------------------------------

  /** One `getNewNames` followed by one `getNewPositions`: what `update` does. */
  function Fetch(r: Registry, id: int): (Registry, seq<(int, string)>, seq<(int, Position)>)
    requires id in r.data && Known(r.data[id].following, r.data)
  {
    var (r1, names) := GetNewNames(r, id);
    assert Known(r1.data[id].following, r1.data);
    var (r2, positions) := GetNewPositions(r1, id);
    (r2, names, positions)
  }

  lemma FetchKeepsConsistency(r: Registry, id: int)
    requires Consistent(r) && id in r.data
    ensures Known(r.data[id].following, r.data)
    ensures Consistent(Fetch(r, id).0)
  {
    GetNewNamesKeepsConsistency(r, id);
    GetNewPositionsKeepsConsistency(GetNewNames(r, id).0, id);
  }

  /** What a fetch makes of each watcher; what there is to be told stays the same. */
  lemma FetchAdvances(r: Registry, id: int, i: nat)
    requires id in r.data && Known(r.data[id].following, r.data) && i < |r.data[id].following|
    ensures var r2 := Fetch(r, id).0;
      && id in r2.data && |r2.data[id].following| == |r.data[id].following|
      && var w := r.data[id].following[i];
      && r2.data[id].following[i] == Advanced(Renamed(w, r.data[w.id]), r.data[w.id])
      && w.id in r2.data && r2.data[w.id].name == r.data[w.id].name && r2.data[w.id].positions == r.data[w.id].positions
  {
    var r1 := GetNewNames(r, id).0;
    assert Known(r1.data[id].following, r1.data);
    var w := r.data[id].following[i];
    assert r1.data[id].following[i] == Renamed(w, r.data[w.id]);
  }

  /** After a fetch there is nothing left to deliver. */
  lemma FetchLeavesNoNews(r: Registry, id: int)
    requires Consistent(r) && id in r.data
    ensures Known(r.data[id].following, r.data)
    ensures !HasNews(Fetch(r, id).0, id)
  {
    var r2 := Fetch(r, id).0;
    assert r.data[id].following == [] ==> r2.data[id].following == [];
    forall i | 0 <= i < |r.data[id].following|
      ensures |r2.data[id].following| == |r.data[id].following| && NothingNew(r2.data[id].following[i], r2.data)
    {
      FetchedIsUpToDate(r, id, i);
    }
  }

  predicate NothingNew(w: Watcher, data: Clients) {
    w.id in data ==> !NameNews(w, data[w.id]) && !PositionNews(w, data[w.id])
  }

  lemma FetchedIsUpToDate(r: Registry, id: int, i: nat)
    requires id in r.data && Known(r.data[id].following, r.data) && i < |r.data[id].following|
    ensures var r2 := Fetch(r, id).0;
      && id in r2.data && |r2.data[id].following| == |r.data[id].following|
      && NothingNew(r2.data[id].following[i], r2.data)
  {
    FetchAdvances(r, id, i);
  }

  lemma {:induction false} NothingFor(ws: seq<Watcher>, data: Clients)
    requires Known(ws, data)
    ensures NamesFor(ws, data) == [] <==> forall i :: 0 <= i < |ws| ==> !NameNews(ws[i], data[ws[i].id])
    ensures PositionsFor(ws, data) == [] <==> forall i :: 0 <= i < |ws| ==> !PositionNews(ws[i], data[ws[i].id])
  {
    if ws != [] {
      NothingFor(ws[1..], data);
      assert forall i :: 1 <= i < |ws| ==> ws[i] == ws[1..][i - 1];
      assert forall i :: 0 <= i < |ws| - 1 ==> ws[1..][i] == ws[i + 1];
      var e := Emitted(ws[0], data[ws[0].id]);
      assert |Tag(ws[0].id, e)| == |e|;
    }
  }

  /** Caching names does not change which positions are news. */
  lemma PositionNewsAfterNames(r: Registry, id: int, i: nat)
    requires Consistent(r) && id in r.data && i < |r.data[id].following|
    ensures Known(r.data[id].following, r.data)
    ensures var r1 := GetNewNames(r, id).0;
      var w, w1 := r.data[id].following[i], r1.data[id].following[i];
      && w1.id == w.id && w1.time == w.time && w1.id in r1.data
      && (PositionNews(w, r.data[w.id]) <==> PositionNews(w1, r1.data[w1.id]))
  {
    var w := r.data[id].following[i];
    assert GetNewNames(r, id).0.data[id].following[i] == Renamed(w, r.data[w.id]);
  }

  lemma NamesDelivered(r: Registry, id: int)
    requires id in r.data && Known(r.data[id].following, r.data)
    ensures var ws := r.data[id].following;
      Fetch(r, id).1 == [] <==> forall i :: 0 <= i < |ws| ==> !NameNews(ws[i], r.data[ws[i].id])
  {
    NothingFor(r.data[id].following, r.data);
  }

  lemma PositionsDelivered(r: Registry, id: int)
    requires Consistent(r) && id in r.data
    ensures Known(r.data[id].following, r.data)
    ensures var ws := r.data[id].following;
      Fetch(r, id).2 == [] <==> forall i :: 0 <= i < |ws| ==> !PositionNews(ws[i], r.data[ws[i].id])
  {
    var ws, r1 := r.data[id].following, GetNewNames(r, id).0;
    var ws1 := r1.data[id].following;
    assert Known(ws1, r1.data);
    NothingFor(ws1, r1.data);
    forall i | 0 <= i < |ws|
      ensures PositionNews(ws[i], r.data[ws[i].id]) <==> PositionNews(ws1[i], r1.data[ws1[i].id])
    {
      PositionNewsAfterNames(r, id, i);
    }
  }

  /** A fetch delivers something exactly when there is news; so an immediately repeated fetch
      delivers nothing. */
  lemma FetchDeliversTheNews(r: Registry, id: int)
    requires Consistent(r) && id in r.data
    ensures Known(r.data[id].following, r.data)
    ensures HasNews(r, id) <==> Fetch(r, id).1 != [] || Fetch(r, id).2 != []
  {
    PositionsDelivered(r, id);
    NamesDelivered(r, id);
  }

  // ---- the iterator that is never stepped back ------------------------------------------------

  /** The up to `n` newest positions later than `mark`, newest first: what the loop of
      `getNewPositions` would collect if it stepped its iterator back. */
  function Newest(ps: seq<Position>, mark: int, n: nat): seq<Position>
    decreases n
  {
    if n == 0 || ps == [] || ps[|ps| - 1].time <= mark then []
    else [ps[|ps| - 1]] + Newest(ps[..|ps| - 1], mark, n - 1)
  }

  /** The three most recent positions come out exactly when there is at most one, the last is no
      news, or the last three are equal. */
  lemma EmittedIsNewestIff(w: Watcher, d: ClientData)
    requires d.name != ""
    ensures Emitted(w, d) == Newest(d.positions, w.time, 3) <==>
      var ps, n := d.positions, |d.positions|;
      || n <= 1
      || ps[n - 1].time <= w.time
      || (n >= 3 && ps[n - 2] == ps[n - 1] && ps[n - 3] == ps[n - 1])
  {
    var ps, n := d.positions, |d.positions|;
    if n >= 2 && ps[n - 1].time > w.time {
      var last := ps[n - 1];
      var tail := Newest(ps[..n - 1], w.time, 2);
      assert Newest(ps, w.time, 3) == [last] + tail;
      assert ps[..n - 1][n - 2] == ps[n - 2];
      if ps[n - 2].time > w.time {
        var tail2 := Newest(ps[..n - 1][..n - 2], w.time, 1);
        assert tail == [ps[n - 2]] + tail2;
        if n >= 3 {
          assert ps[..n - 1][..n - 2][n - 3] == ps[n - 3];
        }
        assert |tail2| <= 1;
        if Emitted(w, d) == Newest(ps, w.time, 3) {
          assert ([last] + ([ps[n - 2]] + tail2))[1] == ps[n - 2];
          assert |tail2| == 1;
          assert ([last] + ([ps[n - 2]] + tail2))[2] == tail2[0];
        }
      } else {
        assert tail == [];
      }
    }
  }

  /** Two positions are enough to see it: the older one is never sent. */
  lemma OlderPositionIsNotSent()
    ensures var older, newer := Position(1.0, 1.0, 1), Position(2.0, 2.0, 2);
      var d := ClientData([1], "x", [older, newer], [], []);
      Emitted(Watcher(1, 0, ""), d) == [newer, newer, newer] && Newest(d.positions, 0, 3) == [newer, older]
  {
    var older, newer := Position(1.0, 1.0, 1), Position(2.0, 2.0, 2);
    assert [older, newer][..1] == [older];
    assert Newest([older], 0, 2) == [older] + Newest([older][..0], 0, 1);
  }
}
