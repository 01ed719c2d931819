/** Sessions, the registry and the `Update` notifications together, over whole runs of the
    server thread.

    A session is named by its message queue.  Its id is 0 until the handshake has registered
    it.  Each event is one message handled by the server thread, which handles them one at a
    time. */
module Sessions {
  import opened Common
  import opened Registry
  import opened RegistryLaws

  /** `synced` records the clients that had no news when their queue was stored, or have been
      handed all of it since.  Whether the packets made of it are sent is the subject of module
      Outgoing. */
  datatype Sys = Sys(reg: Registry, sessions: map<Queue, int>, synced: set<int>)

  const BOOT := Sys(EMPTY_REGISTRY, map[], {})

  datatype Event =
    | Open(q: Queue)                   // a ProtocolClient is built around a fresh queue
    | Complete(q: Queue, key: Bytes)   // selfRegister at the end of the handshake
    | Destroy(q: Queue)                // ~ProtocolClient
    | Name(q: Queue, name: string)     // SET_NAME
    | Follow(q: Queue, name: string)   // ADD_FOLLOWER: the named client will see my location
    | Drop(q: Queue, name: string)     // REMOVE_FOLLOWER
    | Unfollow(q: Queue, name: string) // REMOVE_FOLLOWED
    | Locate(q: Queue, latitude: real, longitude: real, time: int) // MY_LOCATION
    | Update(q: Queue)                 // an Update message is taken out of the queue

  predicate Possible(s: Sys, e: Event) {
    match e
    case Open(q) => q !in s.sessions
    case Complete(q, _) => q in s.sessions && s.sessions[q] == 0
    case Destroy(q) => q in s.sessions
    case Update(q) => q in s.sessions && s.sessions[q] > 0 && s.reg.Pending(q) > 0
    case _ => e.q in s.sessions && s.sessions[e.q] > 0
  }

  /** A registration that needs a new id still finds a positive short. */
  predicate Fits(s: Sys, e: Event) {
    e.Complete? && e.key !in s.reg.ids ==> s.reg.nextId > 0
  }

  /** The operation of a registered client `me` on the registry; names that nobody bears are
      ignored.  Both ids always exist (see `Inv`), so the membership tests never decide. */
  function Act(r: Registry, me: int, e: Event): Registry {
    if me !in r.data then r else
    match e
    case Name(_, n) => SetName(r, me, n).0
    case Locate(_, latitude, longitude, time) => AddPosition(r, me, latitude, longitude, time)
    case Follow(_, n) =>
      var other := GetNameId(r, n);
      if other > 0 && other in r.data then AddFollower(r, me, other) else r
    case Drop(_, n) =>
      var other := GetNameId(r, n);
      if other > 0 && other in r.data then RemoveFollower(r, me, other) else r
    case Unfollow(_, n) =>
      var other := GetNameId(r, n);
      if other > 0 && other in r.data then StopFollowing(r, me, other) else r
    case _ => r
  }

  /** Takes one `Update` out of the queue. */
  function TakeUpdate(r: Registry, q: Queue): Registry
    requires r.Pending(q) > 0
  {
    r.(inbox := r.inbox[q := r.inbox[q] - 1])
  }

  ghost function Step(s: Sys, e: Event): Sys
    requires Possible(s, e)
  {
    match e
    case Open(q) => s.(reg := s.reg.(inbox := s.reg.inbox[q := 0]), sessions := s.sessions[q := 0])
    case Complete(q, key) =>
      var (r, id) := RegisterClient(s.reg, key, q);
      Sys(r, s.sessions[q := id],
          if id in s.reg.queues then s.synced else if HasNews(r, id) then s.synced - {id} else s.synced + {id})
    case Destroy(q) =>
      var id := s.sessions[q];
      Sys(if id > 0 then Unregister(s.reg, id) else s.reg, s.sessions - {q}, s.synced - {id})
    case Update(q) =>
      var r, id := TakeUpdate(s.reg, q), s.sessions[q];
      if id in r.data && Known(r.data[id].following, r.data)
      then s.(reg := Fetch(r, id).0, synced := s.synced + {id}) else s.(reg := r)
    case _ => s.(reg := Act(s.reg, s.sessions[e.q], e))
  }

  /** The events are possible one after the other, ids fit, and `t` is where they lead. */
  ghost predicate Run(s: Sys, es: seq<Event>, t: Sys)
    decreases |es|
  {
    if es == [] then s == t
    else Possible(s, es[0]) && Fits(s, es[0]) && Run(Step(s, es[0]), es[1..], t)
  }

  // ---- the invariant -------------------------------------------------------------------------

  /** Stored queues belong to live sessions of the client they are stored for. */
  ghost predicate QueuesAreLive(s: Sys) {
    forall i :: i in s.reg.queues ==> s.reg.queues[i] in s.sessions && s.sessions[s.reg.queues[i]] == i
  }

  /** Whoever is in step and has news is about to be told. */
  ghost predicate NoMissedUpdate(s: Sys) {
    forall f :: f in s.reg.queues && f in s.synced && HasNews(s.reg, f) ==> s.reg.Pending(s.reg.queues[f]) > 0
  }

  ghost predicate Inv(s: Sys) {
    && Consistent(s.reg)
    && (forall q :: q in s.sessions ==> s.sessions[q] == 0 || s.sessions[q] in s.reg.data)
    && QueuesAreLive(s)
    && NoMissedUpdate(s)
    && UnregisteredAreSilent(s)
  }

  /** Nothing is posted to a session before it has registered. */
  ghost predicate UnregisteredAreSilent(s: Sys) {
    forall q :: q in s.sessions && s.sessions[q] == 0 ==> s.reg.Pending(q) == 0
  }

  /** An operation covers its consequences: it takes no notice away, posts to stored queues only, and
      whoever has news afterwards had news before or has a notice. */
  ghost predicate Covers(r: Registry, r': Registry) {
    && r'.queues == r.queues && r'.data.Keys == r.data.Keys
    && (forall q: Queue :: r.Pending(q) <= r'.Pending(q))
    && (forall q: Queue :: !Stored(r, q) ==> r'.Pending(q) == r.Pending(q))
    && (forall g :: g in r'.queues && HasNews(r', g) ==> HasNews(r, g) || r'.Pending(r'.queues[g]) > 0)
  }

  /** Watching is symmetric to being followed, so notifying the followers of `a` reaches every
      client that holds a watcher for `a`. */
  lemma WatcherIsFollower(r: Registry, f: int, i: nat)
    requires Consistent(r) && f in r.data && i < |r.data[f].following|
    ensures var a := r.data[f].following[i].id; a in r.data && f in r.data[a].followers
  {
    assert Known(r.data[f].following, r.data);
    var a := r.data[f].following[i].id;
    assert WatchedIds(r.data[f].following)[i] == a;
    assert Watching(r, f, a) > 0;
    assert Followers(r, a, f) == Watching(r, f, a);
  }

  /** A change to `me` alone, of which all followers of `me` are notified. */
  lemma NotifiedChangeIsCovered(r: Registry, m: Registry, me: int)
    requires Consistent(r) && me in r.data
    requires m.queues == r.queues && m.inbox == r.inbox && m.data.Keys == r.data.Keys
    requires forall i :: i in r.data && i != me ==> m.data[i] == r.data[i]
    requires m.data[me].followers == r.data[me].followers && m.data[me].following == r.data[me].following
    ensures Covers(r, NotifyAll(m, m.data[me].followers))
  {
    var r' := NotifyAll(m, m.data[me].followers);
    NotifyAllPosts(m, m.data[me].followers);
    forall g | g in r'.queues && HasNews(r', g) ensures HasNews(r, g) || r'.Pending(r'.queues[g]) > 0 {
      var i := SomeNews(r', g);
      assert r'.data[g].following == r.data[g].following;
      if r.data[g].following[i].id == me {
        WatcherIsFollower(r, g, i);
        NotifyAllReaches(m, m.data[me].followers, g);
      }
    }
  }

  lemma SomeNews(r: Registry, g: int) returns (i: nat)
    requires HasNews(r, g)
    ensures i < |r.data[g].following| && r.data[g].following[i].id in r.data
    ensures var w := r.data[g].following[i]; NameNews(w, r.data[w.id]) || PositionNews(w, r.data[w.id])
  {
    i :| 0 <= i < |r.data[g].following| &&
      var w := r.data[g].following[i];
      w.id in r.data && (NameNews(w, r.data[w.id]) || PositionNews(w, r.data[w.id]));
  }

  /** What a client could be told is as before. */
  predicate SameFacts(d: ClientData, d': ClientData) {
    d'.name == d.name && d'.positions == d.positions
  }

  /** With the same facts, a client with no other watchers than before has no other news. */
  lemma NewsShrink(r: Registry, r': Registry, g: int)
    requires r'.data.Keys == r.data.Keys
    requires forall i :: i in r.data ==> SameFacts(r.data[i], r'.data[i])
    requires g in r.data ==> forall w :: w in r'.data[g].following ==> w in r.data[g].following
    ensures HasNews(r', g) ==> HasNews(r, g)
  {
    if HasNews(r', g) {
      var i := SomeNews(r', g);
      var w := r'.data[g].following[i];
      assert w in r.data[g].following;
      assert SameFacts(r.data[w.id], r'.data[w.id]);
    }
  }

  lemma FollowIsCovered(r: Registry, me: int, f: int)
    requires me in r.data && f in r.data
    ensures Covers(r, AddFollower(r, me, f))
  {
    var r' := AddFollower(r, me, f);
    AddFollowerPosts(r, me, f);
    forall g | g in r'.queues && HasNews(r', g) ensures HasNews(r, g) || r'.Pending(r'.queues[g]) > 0 {
      if g != f {
        FollowIsNoNews(r, me, f, g);
      }
    }
  }

  /** A new follower makes news for nobody else. */
  lemma FollowIsNoNews(r: Registry, me: int, f: int, g: int)
    requires me in r.data && f in r.data && g != f
    ensures HasNews(AddFollower(r, me, f), g) ==> HasNews(r, g)
  {
    AddFollowerPosts(r, me, f);
    assert forall i :: i in r.data ==> SameFacts(r.data[i], Linked(r, me, f).data[i]);
    NewsShrink(r, AddFollower(r, me, f), g);
  }

  lemma UnfollowIsCovered(r: Registry, me: int, a: int)
    requires me in r.data && a in r.data
    ensures Covers(r, StopFollowing(r, me, a))
  {
    var r' := StopFollowing(r, me, a);
    RemoveWatchersMembers(r.data[me].following, a);
    assert forall i :: i in r.data ==> SameFacts(r.data[i], r'.data[i]);
    forall g | g in r'.queues && HasNews(r', g) ensures HasNews(r, g) {
      NewsShrink(r, r', g);
    }
  }

  lemma NameIsCovered(r: Registry, me: int, n: string)
    requires Consistent(r) && me in r.data
    ensures Consistent(SetName(r, me, n).0) && Covers(r, SetName(r, me, n).0)
  {
    SetNameKeepsConsistency(r, me, n);
    if n !in r.names {
      NotifiedChangeIsCovered(r, WithName(r, me, n), me);
    }
  }

  lemma PositionIsCovered(r: Registry, me: int, latitude: real, longitude: real, time: int)
    requires Consistent(r) && me in r.data
    ensures Consistent(AddPosition(r, me, latitude, longitude, time))
    ensures Covers(r, AddPosition(r, me, latitude, longitude, time))
  {
    AddPositionKeepsConsistency(r, me, latitude, longitude, time);
    NotifiedChangeIsCovered(r, WithPosition(r, me, latitude, longitude, time), me);
  }

  lemma FollowIsKept(r: Registry, me: int, other: int)
    requires Consistent(r) && me in r.data && other in r.data
    ensures Consistent(AddFollower(r, me, other)) && Covers(r, AddFollower(r, me, other))
  {
    AddFollowerKeepsConsistency(r, me, other);
    FollowIsCovered(r, me, other);
  }

  lemma UnfollowIsKept(r: Registry, me: int, other: int)
    requires Consistent(r) && me in r.data && other in r.data
    ensures Consistent(StopFollowing(r, me, other)) && Covers(r, StopFollowing(r, me, other))
    ensures RemoveFollower(r, other, me) == StopFollowing(r, me, other)
  {
    StopFollowingKeepsConsistency(r, me, other);
    UnfollowIsCovered(r, me, other);
    RemoveFollowerIsStopFollowing(r, other, me);
  }

  lemma NothingIsCovered(r: Registry)
    ensures Covers(r, r)
  {
  }

  /** Every operation of a registered client keeps the maps consistent and covers its news. */
  lemma ActIsCovered(r: Registry, me: int, e: Event)
    requires Consistent(r) && me in r.data
    ensures Consistent(Act(r, me, e)) && Covers(r, Act(r, me, e))
  {
    NothingIsCovered(r);
    match e {
      case Name(_, n) => NameIsCovered(r, me, n);
      case Locate(_, latitude, longitude, time) => PositionIsCovered(r, me, latitude, longitude, time);
      case Follow(_, n) =>
        if GetNameId(r, n) in r.data {
          FollowIsKept(r, me, GetNameId(r, n));
        }
      case Drop(_, n) =>
        if GetNameId(r, n) in r.data {
          UnfollowIsKept(r, GetNameId(r, n), me);
        }
      case Unfollow(_, n) =>
        if GetNameId(r, n) in r.data {
          UnfollowIsKept(r, me, GetNameId(r, n));
        }
      case _ =>
    }
  }

  /** The watchers of `f` after a command: as before, or one more, or those for one client removed. */
  lemma FollowingAfterAct(r: Registry, me: int, e: Event, f: int)
    requires me in r.data && f in r.data
    ensures Act(r, me, e).data.Keys == r.data.Keys
    ensures var ws, ws' := r.data[f].following, Act(r, me, e).data[f].following;
      || ws' == ws
      || (e.Follow? && GetNameId(r, e.name) == f && ws' == ws + [Watcher(me, 0, "")])
      || (e.Unfollow? && me == f && ws' == RemoveWatchers(ws, GetNameId(r, e.name)))
      || (e.Drop? && GetNameId(r, e.name) == f && ws' == RemoveWatchers(ws, me))
  {
    match e {
      case Name(_, n) => NotifyAllPosts(WithName(r, me, n), r.data[me].followers);
      case Locate(_, latitude, longitude, time) =>
        NotifyAllPosts(WithPosition(r, me, latitude, longitude, time), r.data[me].followers);
      case Follow(_, n) =>
        if GetNameId(r, n) in r.data {
          AddFollowerPosts(r, me, GetNameId(r, n));
        }
      case Drop(_, n) =>
        if GetNameId(r, n) in r.data {
          RemoveFollowerIsStopFollowing(r, me, GetNameId(r, n));
        }
      case _ =>
    }
  }

  // ---- every event keeps the invariant --------------------------------------------------------

  lemma OpenKeepsInv(s: Sys, e: Event)
    requires Inv(s) && Possible(s, e) && e.Open?
    ensures Inv(Step(s, e))
  {
    var t := Step(s, e);
    PostsKeepConsistency(s.reg, t.reg);
    forall f | f in t.reg.queues && f in t.synced && HasNews(t.reg, f) ensures t.reg.Pending(t.reg.queues[f]) > 0 {
      assert HasNews(s.reg, f);
    }
  }

  /** A registration gives no old client news. */
  lemma RegistrationIsNoNews(r: Registry, key: Bytes, q: Queue, g: int)
    requires Consistent(r) && g in r.data
    ensures HasNews(RegisterClient(r, key, q).0, g) ==> HasNews(r, g)
  {
    var r' := RegisterClient(r, key, q).0;
    RegistrationIdentity(r, key, q);
    if HasNews(r', g) {
      var i := SomeNews(r', g);
      assert Known(r.data[g].following, r.data);
      assert r.data[g].following[i].id in r.data;
    }
  }

  lemma CompleteMissesNothing(s: Sys, e: Event)
    requires Inv(s) && Possible(s, e) && e.Complete? && Fits(s, e)
    ensures NoMissedUpdate(Step(s, e))
  {
    var t := Step(s, e);
    RegistrationIdentity(s.reg, e.key, e.q);
    forall f | f in t.reg.queues && f in t.synced && HasNews(t.reg, f) ensures t.reg.Pending(t.reg.queues[f]) > 0 {
      assert f in s.reg.queues.Keys;
      RegistrationIsNoNews(s.reg, e.key, e.q, f);
    }
  }

  lemma CompleteKeepsInv(s: Sys, e: Event)
    requires Inv(s) && Possible(s, e) && e.Complete? && Fits(s, e)
    ensures Inv(Step(s, e))
  {
    RegistrationIdentity(s.reg, e.key, e.q);
    RegisterKeepsConsistency(s.reg, e.key, e.q);
    CompleteMissesNothing(s, e);
  }

  lemma DestroyKeepsInv(s: Sys, e: Event)
    requires Inv(s) && Possible(s, e) && e.Destroy?
    ensures Inv(Step(s, e))
  {
    var t := Step(s, e);
    UnregisterKeepsConsistency(s.reg, s.sessions[e.q]);
    forall f | f in t.reg.queues && f in t.synced && HasNews(t.reg, f) ensures t.reg.Pending(t.reg.queues[f]) > 0 {
      assert HasNews(s.reg, f);
    }
  }

  /** A fetch by `id` changes nobody else's news. */
  lemma FetchIsNoNews(r: Registry, id: int, g: int)
    requires Consistent(r) && id in r.data && g != id
    ensures Known(r.data[id].following, r.data)
    ensures HasNews(Fetch(r, id).0, g) ==> HasNews(r, g)
  {
    NewsShrink(r, Fetch(r, id).0, g);
  }

  lemma UpdateMissesNothing(s: Sys, e: Event)
    requires Inv(s) && Possible(s, e) && e.Update?
    ensures NoMissedUpdate(Step(s, e))
  {
    var t, r, id := Step(s, e), TakeUpdate(s.reg, e.q), s.sessions[e.q];
    PostsKeepConsistency(s.reg, r);
    FetchLeavesNoNews(r, id);
    forall f | f in t.reg.queues && f in t.synced && HasNews(t.reg, f) ensures t.reg.Pending(t.reg.queues[f]) > 0 {
      FetchIsNoNews(r, id, f);
      assert HasNews(s.reg, f);
    }
  }

  lemma UpdateKeepsInv(s: Sys, e: Event)
    requires Inv(s) && Possible(s, e) && e.Update?
    ensures Inv(Step(s, e))
  {
    var r := TakeUpdate(s.reg, e.q);
    PostsKeepConsistency(s.reg, r);
    FetchKeepsConsistency(r, s.sessions[e.q]);
    UpdateMissesNothing(s, e);
  }

  lemma CoveredKeepsInv(s: Sys, r': Registry)
    requires Inv(s) && Consistent(r') && Covers(s.reg, r')
    ensures Inv(s.(reg := r'))
  {
    forall q | q in s.sessions && s.sessions[q] == 0 ensures r'.Pending(q) == 0 {
      assert !Stored(s.reg, q);
    }
  }

  lemma StepKeepsInv(s: Sys, e: Event)
    requires Inv(s) && Possible(s, e) && Fits(s, e)
    ensures Inv(Step(s, e))
  {
    match e {
      case Open(_) => OpenKeepsInv(s, e);
      case Complete(_, _) => CompleteKeepsInv(s, e);
      case Destroy(_) => DestroyKeepsInv(s, e);
      case Update(_) => UpdateKeepsInv(s, e);
      case _ =>
        ActIsCovered(s.reg, s.sessions[e.q], e);
        CoveredKeepsInv(s, Act(s.reg, s.sessions[e.q], e));
    }
  }

  lemma {:induction false} RunKeepsInv(s: Sys, es: seq<Event>, t: Sys)
    requires Inv(s) && Run(s, es, t)
    ensures Inv(t)
    decreases |es|
  {
    if es != [] {
      StepKeepsInv(s, es[0]);
      RunKeepsInv(Step(s, es[0]), es[1..], t);
    }
  }

  // ---- main results over whole runs -------------------------------------------------------------

  /** Over every run from boot, while ids fit a short: the maps stay consistent, every id that a command
      is passed exists, no queue of a destroyed session is kept, and a client that had nothing to be
      told when its queue was stored, or has fetched since, always finds an `Update` when there is
      something to fetch. */
  lemma EveryRun(es: seq<Event>, t: Sys, f: int)
    requires Run(BOOT, es, t)
    ensures Consistent(t.reg)
    ensures forall q :: q in t.sessions && t.sessions[q] > 0 ==> t.sessions[q] in t.reg.data
    ensures forall n :: GetNameId(t.reg, n) > 0 ==> GetNameId(t.reg, n) in t.reg.data
    ensures f in t.reg.queues ==> t.reg.queues[f] in t.sessions && t.sessions[t.reg.queues[f]] == f
    ensures f in t.reg.queues && f in t.synced && HasNews(t.reg, f) ==> t.reg.Pending(t.reg.queues[f]) > 0
  {
    EmptyIsConsistent();
    assert Inv(BOOT);
    RunKeepsInv(BOOT, es, t);
  }

  /** At the moment a fresh queue is stored, the client will be told of what it has missed exactly
      when it has missed nothing: registration itself posts no `Update`. */
  lemma ReconnectionIsCoveredIff(s: Sys, q: Queue, key: Bytes)
    requires Inv(s) && Possible(s, Complete(q, key)) && key in s.reg.ids && s.reg.ids[key] !in s.reg.queues
    ensures var t, f := Step(s, Complete(q, key)), s.reg.ids[key];
      && f in t.reg.queues && t.reg.queues[f] == q
      && ((HasNews(t.reg, f) ==> t.reg.Pending(q) > 0) <==> !HasNews(s.reg, f))
  {
    var t, f := Step(s, Complete(q, key)), s.reg.ids[key];
    assert t.reg.data == s.reg.data;
  }

  /** A session's queue is the one that receives its client's updates exactly when no queue was
      stored for the client before: a second session with the same key gets none. */
  lemma SecondSessionIsDeafIff(s: Sys, q: Queue, key: Bytes)
    requires Inv(s) && Possible(s, Complete(q, key)) && Fits(s, Complete(q, key))
    ensures var t := Step(s, Complete(q, key));
      var id := t.sessions[q];
      && id in t.reg.queues
      && (t.reg.queues[id] == q <==> key !in s.reg.ids || id !in s.reg.queues)
  {
    RegistrationIdentity(s.reg, key, q);
  }

  /** The end of a session takes away the stored queue of another live session exactly when the queue
      stored for its client is not its own. */
  lemma DestructionCutsOffIff(s: Sys, q: Queue)
    requires Inv(s) && Possible(s, Destroy(q))
    ensures var t, id := Step(s, Destroy(q)), s.sessions[q];
      (exists i :: i in s.reg.queues && i !in t.reg.queues && s.reg.queues[i] in t.sessions) <==>
        id in s.reg.queues && s.reg.queues[id] != q
  {
    var t, id := Step(s, Destroy(q)), s.sessions[q];
    if id in s.reg.queues && s.reg.queues[id] != q {
      assert s.reg.queues[id] in t.sessions && id !in t.reg.queues;
    }
  }

  /** A session that registers and ends leaves its queue stored exactly when its registration needed a
      new id and the ids no longer fit. */
  lemma QueueOutlivesSessionIff(s: Sys, q: Queue, key: Bytes)
    requires Inv(s) && Possible(s, Complete(q, key))
    ensures var t := Step(s, Complete(q, key));
      && Possible(t, Destroy(q))
      && (Stored(Step(t, Destroy(q)).reg, q) <==> !Fits(s, Complete(q, key)))
  {
    RegistrationIdentity(s.reg, key, q);
    var t := Step(s, Complete(q, key));
    var id, u := t.sessions[q], Step(t, Destroy(q));
    assert !Stored(s.reg, q);
    if Fits(s, Complete(q, key)) {
      CompleteKeepsInv(s, Complete(q, key));
      DestroyKeepsInv(t, Destroy(q));
      assert q !in u.sessions;
    } else {
      assert id !in s.reg.queues by {
        assert id in s.reg.queues.Keys ==> id in s.reg.data;
      }
      assert id in u.reg.queues && u.reg.queues[id] == q;
    }
  }

  /** The events are possible one after the other, whether ids fit or not. */
  ghost predicate AnyRun(s: Sys, es: seq<Event>)
    decreases |es|
  {
    es != [] ==> Possible(s, es[0]) && AnyRun(Step(s, es[0]), es[1..])
  }

  ghost predicate FitsThroughout(s: Sys, es: seq<Event>)
    decreases |es|
  {
    es != [] && Possible(s, es[0]) ==> Fits(s, es[0]) && FitsThroughout(Step(s, es[0]), es[1..])
  }

  ghost predicate ConsistentThroughout(s: Sys, es: seq<Event>)
    decreases |es|
  {
    Consistent(s.reg) && (es != [] && Possible(s, es[0]) ==> ConsistentThroughout(Step(s, es[0]), es[1..]))
  }

  /** A registration that no longer fits breaks the maps. */
  lemma UnfitIsInconsistent(s: Sys, e: Event)
    requires Inv(s) && Possible(s, e) && !Fits(s, e)
    ensures !Consistent(Step(s, e).reg)
  {
    RegistrationIdentity(s.reg, e.key, e.q);
    var t := Step(s, e);
    assert s.reg.nextId in t.reg.data;
    assert s.reg.nextId <= 0;
  }

  /** Over any run from boot the maps are consistent in all states exactly while ids fit. */
  lemma {:induction false} ConsistentIffFits(s: Sys, es: seq<Event>)
    requires Inv(s) && AnyRun(s, es)
    ensures ConsistentThroughout(s, es) <==> FitsThroughout(s, es)
    decreases |es|
  {
    if es != [] {
      if Fits(s, es[0]) {
        StepKeepsInv(s, es[0]);
        ConsistentIffFits(Step(s, es[0]), es[1..]);
      } else {
        UnfitIsInconsistent(s, es[0]);
      }
    }
  }

  // ---- using up the ids ----------------------------------------------------------------------------

  ghost predicate Reached(s: Sys) {
    exists es :: Run(BOOT, es, s)
  }

  lemma {:induction false} RunGoesOn(s: Sys, es: seq<Event>, t: Sys, e: Event)
    requires Run(s, es, t) && Possible(t, e) && Fits(t, e)
    ensures Run(s, es + [e], Step(t, e))
    decreases |es|
  {
    if es == [] {
      assert ([] + [e])[1..] == [];
    } else {
      assert (es + [e])[1..] == es[1..] + [e];
      RunGoesOn(Step(s, es[0]), es[1..], t, e);
    }
  }

  lemma Goes(t: Sys, e: Event)
    requires Reached(t) && Possible(t, e) && Fits(t, e)
    ensures Reached(Step(t, e))
  {
    var es :| Run(BOOT, es, t);
    RunGoesOn(BOOT, es, t, e);
  }

  /** Clients with the keys [], [0], [0, 0] and so on have come and gone. */
  ghost predicate Visited(s: Sys, n: nat) {
    && Reached(s) && s.sessions == map[] && s.reg.queues == map[]
    && s.reg.nextId == (if n < MAX_SHORT then n + 1 else -0x8000)
    && forall key :: key in s.reg.ids ==> |key| < n
  }

  /** One client more registers and leaves. */
  lemma OneVisitMore(s: Sys, n: nat) returns (t: Sys)
    requires Visited(s, n) && n < MAX_SHORT
    ensures Visited(t, n + 1)
  {
    Goes(s, Open(0));
    var s1 := Step(s, Open(0));
    Goes(s1, Complete(0, Zeros(n)));
    var s2 := Step(s1, Complete(0, Zeros(n)));
    Goes(s2, Destroy(0));
    t := Step(s2, Destroy(0));
    assert t.sessions == map[];
    assert t.reg.queues == map[];
  }

  /** The ids can be used up, and then the queue of the next client outlives its session. */
  lemma IdsRunOut() returns (s: Sys, t: Sys, i: int)
    ensures Reached(s) && Possible(s, Complete(0, Zeros(MAX_SHORT))) && t == Step(s, Complete(0, Zeros(MAX_SHORT)))
    ensures Possible(t, Destroy(0))
    ensures var u := Step(t, Destroy(0)); i in u.reg.queues && u.reg.queues[i] == 0 && u.sessions == map[]
  {
    var v := BOOT;
    assert Run(BOOT, [], BOOT);
    for n := 0 to MAX_SHORT
      invariant Visited(v, n)
    {
      v := OneVisitMore(v, n);
    }
    Goes(v, Open(0));
    s := Step(v, Open(0));
    t := Step(s, Complete(0, Zeros(MAX_SHORT)));
    i := t.sessions[0];
    assert i == -0x8000;
    assert Step(t, Destroy(0)).sessions == map[];
  }

  // ---- concrete runs -----------------------------------------------------------------------------

  const ALONE := ClientData([1], "a", [], [1], [Watcher(1, 0, "")])

  /** A client that follows itself leaves before fetching and comes back. */
  function ComingBack(): seq<Event> {
    [Open(0), Complete(0, [1]), Name(0, "a"), Follow(0, "a"), Destroy(0), Open(1), Complete(1, [1])]
  }

  function ComingBackState(k: nat): Sys {
    var key: Bytes := [1];
    var ids := map[key := 1];
    var names := map["a" := 1];
    match k
    case 0 => BOOT
    case 1 => Sys(Registry(1, map[], map[], map[], map[], map[0 := 0]), map[0 := 0], {})
    case 2 =>
      var data := map[1 := ClientData(key, "", [], [], [])];
      Sys(Registry(2, ids, map[], data, map[1 := 0], map[0 := 0]), map[0 := 1], {1})
    case 3 =>
      var data := map[1 := ClientData(key, "a", [], [], [])];
      Sys(Registry(2, ids, names, data, map[1 := 0], map[0 := 0]), map[0 := 1], {1})
    case 4 => Sys(Registry(2, ids, names, map[1 := ALONE], map[1 := 0], map[0 := 1]), map[0 := 1], {1})
    case 5 => Sys(Registry(2, ids, names, map[1 := ALONE], map[], map[0 := 1]), map[], {})
    case 6 => Sys(Registry(2, ids, names, map[1 := ALONE], map[], map[0 := 1, 1 := 0]), map[1 := 0], {})
    case _ => Sys(Registry(2, ids, names, map[1 := ALONE], map[1 := 1], map[0 := 1, 1 := 0]), map[1 := 1], {})
  }

  /** Equality of systems, map by map. */
  lemma SameSys(s: Sys, t: Sys)
    requires s.sessions == t.sessions && s.synced == t.synced && s.reg.nextId == t.reg.nextId
    requires s.reg.ids == t.reg.ids && s.reg.names == t.reg.names && s.reg.data == t.reg.data
    requires s.reg.queues == t.reg.queues && s.reg.inbox == t.reg.inbox
    ensures s == t
  {
  }

  lemma ComingBackStarts(k: nat)
    requires k < 3
    ensures var s, e := ComingBackState(k), ComingBack()[k];
      Possible(s, e) && Fits(s, e) && Step(s, e) == ComingBackState(k + 1)
  {
    SameSys(Step(ComingBackState(k), ComingBack()[k]), ComingBackState(k + 1));
  }

  lemma ComingBackFollows()
    ensures var s, e := ComingBackState(3), ComingBack()[3];
      Possible(s, e) && Fits(s, e) && Step(s, e) == ComingBackState(4)
  {
    var s, t := ComingBackState(3), ComingBackState(4);
    assert GetNameId(s.reg, "a") == 1;
    assert Linked(s.reg, 1, 1).data[1] == ALONE;
    assert Linked(s.reg, 1, 1).data == t.reg.data;
    SameSys(Step(s, ComingBack()[3]), t);
  }

  lemma ComingBackReturns(k: nat)
    requires 4 <= k < 7
    ensures var s, e := ComingBackState(k), ComingBack()[k];
      Possible(s, e) && Fits(s, e) && Step(s, e) == ComingBackState(k + 1)
  {
    var s := ComingBackState(k);
    if k == 6 {
      assert NameNews(ALONE.following[0], s.reg.data[1]);
      assert HasNews(RegisterClient(s.reg, [1], 1).0, 1);
    }
    SameSys(Step(s, ComingBack()[k]), ComingBackState(k + 1));
  }

  lemma ComingBackStep(k: nat)
    requires k < 7
    ensures var s, e := ComingBackState(k), ComingBack()[k];
      Possible(s, e) && Fits(s, e) && Step(s, e) == ComingBackState(k + 1)
  {
    if k < 3 {
      ComingBackStarts(k);
    } else if k == 3 {
      ComingBackFollows();
    } else {
      ComingBackReturns(k);
    }
  }

  lemma {:induction false} ComingBackRun(k: nat)
    requires k <= 7
    ensures Run(ComingBackState(k), ComingBack()[k..], ComingBackState(7))
    decreases 7 - k
  {
    if k < 7 {
      ComingBackStep(k);
      ComingBackRun(k + 1);
      assert ComingBack()[k..][1..] == ComingBack()[k + 1..];
    }
  }

  lemma ComingBackEnds(t: Sys)
    requires t == ComingBackState(7)
    ensures 1 in t.reg.queues && HasNews(t.reg, 1) && t.reg.Pending(t.reg.queues[1]) == 0
  {
    assert NameNews(t.reg.data[1].following[0], t.reg.data[1]);
  }

  /** An `Update` that was due when the old session died is lost: the new session has news and
      nothing tells it so. */
  lemma ReconnectionLosesAnUpdate(es: seq<Event>, t: Sys)
    requires es == ComingBack()[0..] && t == ComingBackState(7)
    ensures Run(BOOT, es, t) && 1 in t.reg.queues && HasNews(t.reg, 1) && t.reg.Pending(t.reg.queues[1]) == 0
  {
    ComingBackRun(0);
    ComingBackEnds(t);
  }

  /** A second session of the same client ends while the first goes on. */
  function TwoSessions(): seq<Event> {
    [Open(0), Complete(0, [1]), Open(1), Complete(1, [1]), Destroy(1)]
  }

  function TwoSessionsState(k: nat): Sys {
    var key: Bytes := [1];
    var ids, data := map[key := 1], map[1 := ClientData(key, "", [], [], [])];
    match k
    case 0 => BOOT
    case 1 => Sys(Registry(1, map[], map[], map[], map[], map[0 := 0]), map[0 := 0], {})
    case 2 => Sys(Registry(2, ids, map[], data, map[1 := 0], map[0 := 0]), map[0 := 1], {1})
    case 3 => Sys(Registry(2, ids, map[], data, map[1 := 0], map[0 := 0, 1 := 0]), map[0 := 1, 1 := 0], {1})
    case 4 => Sys(Registry(2, ids, map[], data, map[1 := 0], map[0 := 0, 1 := 0]), map[0 := 1, 1 := 1], {1})
    case _ => Sys(Registry(2, ids, map[], data, map[], map[0 := 0, 1 := 0]), map[0 := 1], {})
  }

  lemma TwoSessionsStep(k: nat)
    requires k < 5
    ensures var s, e := TwoSessionsState(k), TwoSessions()[k];
      Possible(s, e) && Fits(s, e) && Step(s, e) == TwoSessionsState(k + 1)
  {
    if k < 3 {
      TwoSessionsBegin(k);
    } else {
      TwoSessionsEnd(k);
    }
  }

  lemma TwoSessionsBegin(k: nat)
    requires k < 3
    ensures var s, e := TwoSessionsState(k), TwoSessions()[k];
      Possible(s, e) && Fits(s, e) && Step(s, e) == TwoSessionsState(k + 1)
  {
    SameSys(Step(TwoSessionsState(k), TwoSessions()[k]), TwoSessionsState(k + 1));
  }

  lemma TwoSessionsEnd(k: nat)
    requires 3 <= k < 5
    ensures var s, e := TwoSessionsState(k), TwoSessions()[k];
      Possible(s, e) && Fits(s, e) && Step(s, e) == TwoSessionsState(k + 1)
  {
    SameSys(Step(TwoSessionsState(k), TwoSessions()[k]), TwoSessionsState(k + 1));
  }

  lemma {:induction false} TwoSessionsRun(k: nat)
    requires k <= 5
    ensures Run(TwoSessionsState(k), TwoSessions()[k..], TwoSessionsState(5))
    decreases 5 - k
  {
    if k < 5 {
      TwoSessionsStep(k);
      TwoSessionsRun(k + 1);
      assert TwoSessions()[k..][1..] == TwoSessions()[k + 1..];
    }
  }

  /** The end of the second session unregisters the first, which is alive and will get no update. */
  lemma SecondSessionCutsOffTheFirst(es: seq<Event>, t: Sys)
    requires es == TwoSessions()[0..] && t == TwoSessionsState(5)
    ensures Run(BOOT, es, t) && 0 in t.sessions && t.sessions[0] == 1 && 1 !in t.reg.queues
  {
    TwoSessionsRun(0);
  }
}
