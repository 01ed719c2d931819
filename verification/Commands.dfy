/** What a client's commands come to: the packet, the operation on the registry, the answer, and what
    other clients are told. */
module Commands {
  import opened Common
  import opened Packets
  import opened Registry
  import opened RegistryLaws
  import opened Sessions
  import opened NamesFirst
  import Protocol

  /** `toString`: one character for each byte. */
  function Text(bytes: Bytes): string {
    seq(|bytes|, i requires 0 <= i < |bytes| => bytes[i] as char)
  }

  lemma TextIsInjective(a: Bytes, b: Bytes)
    ensures Text(a) == Text(b) <==> a == b
  {
    if Text(a) == Text(b) {
      assert |a| == |b|;
      forall i | 0 <= i < |a| ensures a[i] == b[i] {
        assert Text(a)[i] == Text(b)[i];
      }
    }
  }

  /** The command in a packet of session q; `locate` reads a location. */
  function Command(q: Queue, c: Content, locate: Bytes -> (real, real, int)): Option<Event> {
    match c.kind
    case SET_NAME => Some(Name(q, Text(c.payload)))
    case ADD_FOLLOWER => Some(Follow(q, Text(c.payload)))
    case REMOVE_FOLLOWER => Some(Drop(q, Text(c.payload)))
    case REMOVE_FOLLOWED => Some(Unfollow(q, Text(c.payload)))
    case MY_LOCATION =>
      if |c.payload| != 16 then None
      else
        var (latitude, longitude, time) := locate(c.payload);
        Some(Locate(q, latitude, longitude, time))
    case _ => None
  }

  /** The registry after client `me` sent the packet. */
  function Executed(r: Registry, me: int, q: Queue, c: Content, locate: Bytes -> (real, real, int)): Registry {
    var e := Command(q, c, locate);
    if e.Some? then Act(r, me, e.value) else r
  }

  // ---- names --------------------------------------------------------------------------------------------

  /** The answer to SET_NAME is true: ACK_OK goes out exactly when the client bears the name afterwards,
      and ACK_ERR otherwise. */
  lemma AnswerIsTrue(s: Protocol.Server, r: Registry, q: Queue, payload: Bytes, locate: Bytes -> (real, real, int))
    requires Consistent(r) && s.id in r.data && s.stage == Protocol.StableCommunication
    ensures var c := Content(SET_NAME, payload);
      var t := Protocol.StableStep(s, Some(c), SetName(r, s.id, Text(payload)).1);
      var r' := Executed(r, s.id, q, c, locate);
      && |t.outbox| == |s.outbox| + 1 && s.id in r'.data
      && (t.outbox[|s.outbox|].content.kind == ACK_OK <==> r'.data[s.id].name == Text(payload))
      && (t.outbox[|s.outbox|].content.kind == ACK_ERR <==> r'.data[s.id].name != Text(payload))
  {
    SetNameAnswer(r, s.id, Text(payload));
    Protocol.OnlyNamesAreAnswered(s, Some(Content(SET_NAME, payload)), SetName(r, s.id, Text(payload)).1);
  }

  // ---- following -----------------------------------------------------------------------------------------

  /** Afterwards `f` holds n watchers for `a`, and stands as often in the list of `a`; every other pair is
      as before. */
  ghost predicate OnlyEdge(r: Registry, r': Registry, f: int, a: int, n: nat) {
    && r'.data.Keys == r.data.Keys && f in r.data && a in r.data
    && Watching(r', f, a) == n && Followers(r', a, f) == n
    && forall x, y :: x in r.data && y in r.data && !(x == f && y == a) ==>
         Watching(r', x, y) == Watching(r, x, y) && Followers(r', y, x) == Followers(r, y, x)
  }

  /** ADD_FOLLOWER with somebody's name makes that client a follower of the sender once more. */
  lemma AddFollowerFollows(r: Registry, me: int, q: Queue, payload: Bytes, locate: Bytes -> (real, real, int))
    requires Consistent(r) && me in r.data && GetNameId(r, Text(payload)) > 0
    ensures var o := GetNameId(r, Text(payload));
      && o in r.data
      && OnlyEdge(r, Executed(r, me, q, Content(ADD_FOLLOWER, payload), locate), o, me, Watching(r, o, me) + 1)
  {
    AddLeavesOtherEdges(r, me, GetNameId(r, Text(payload)));
  }

  lemma AddLeavesOtherEdges(r: Registry, me: int, o: int)
    requires Consistent(r) && me in r.data && o in r.data
    ensures OnlyEdge(r, AddFollower(r, me, o), o, me, Watching(r, o, me) + 1)
  {
    var r' := AddFollower(r, me, o);
    AddFollowerAddsTheEdge(r, me, o, me, o);
    assert Followers(r, me, o) == Watching(r, o, me);
    forall x, y | x in r.data && y in r.data && !(x == o && y == me)
      ensures Watching(r', x, y) == Watching(r, x, y) && Followers(r', y, x) == Followers(r, y, x)
    {
      AddFollowerAddsTheEdge(r, me, o, y, x);
    }
  }

  /** REMOVE_FOLLOWED with somebody's name: the sender follows that client no more. */
  lemma RemoveFollowedUnfollows(r: Registry, me: int, q: Queue, payload: Bytes, locate: Bytes -> (real, real, int))
    requires Consistent(r) && me in r.data && GetNameId(r, Text(payload)) > 0
    ensures var o := GetNameId(r, Text(payload));
      OnlyEdge(r, Executed(r, me, q, Content(REMOVE_FOLLOWED, payload), locate), me, o, 0)
  {
    RemovalIs(r, me, q, Content(REMOVE_FOLLOWED, payload), locate);
    StopLeavesOtherEdges(r, me, GetNameId(r, Text(payload)));
  }

  lemma RemovalIs(r: Registry, me: int, q: Queue, c: Content, locate: Bytes -> (real, real, int))
    requires GetNameId(r, Text(c.payload)) > 0 && GetNameId(r, Text(c.payload)) in r.data && me in r.data
    ensures c.kind == REMOVE_FOLLOWED ==>
      Executed(r, me, q, c, locate) == StopFollowing(r, me, GetNameId(r, Text(c.payload)))
    ensures c.kind == REMOVE_FOLLOWER ==>
      Executed(r, me, q, c, locate) == RemoveFollower(r, me, GetNameId(r, Text(c.payload)))
  {
  }

  /** REMOVE_FOLLOWER with somebody's name: that client follows the sender no more. */
  lemma RemoveFollowerDrops(r: Registry, me: int, q: Queue, payload: Bytes, locate: Bytes -> (real, real, int))
    requires Consistent(r) && me in r.data && GetNameId(r, Text(payload)) > 0
    ensures var o := GetNameId(r, Text(payload));
      OnlyEdge(r, Executed(r, me, q, Content(REMOVE_FOLLOWER, payload), locate), o, me, 0)
  {
    RemovalIs(r, me, q, Content(REMOVE_FOLLOWER, payload), locate);
    RemoveLeavesOtherEdges(r, me, GetNameId(r, Text(payload)));
  }

  lemma RemoveLeavesOtherEdges(r: Registry, me: int, o: int)
    requires me in r.data && o in r.data
    ensures OnlyEdge(r, RemoveFollower(r, me, o), o, me, 0)
  {
    RemoveFollowerIsStopFollowing(r, me, o);
    StopLeavesOtherEdges(r, o, me);
  }

  lemma StopLeavesOtherEdges(r: Registry, f: int, a: int)
    requires f in r.data && a in r.data
    ensures OnlyEdge(r, StopFollowing(r, f, a), f, a, 0)
  {
    var r' := StopFollowing(r, f, a);
    StopFollowingCutsTheEdge(r, f, a, a, f);
    forall x, y | x in r.data && y in r.data && !(x == f && y == a)
      ensures Watching(r', x, y) == Watching(r, x, y) && Followers(r', y, x) == Followers(r, y, x)
    {
      StopFollowingCutsTheEdge(r, f, a, y, x);
    }
  }

  /** Packets that name nobody, and packets that are no commands, change nothing. */
  lemma OthersChangeNothing(r: Registry, me: int, q: Queue, c: Content, locate: Bytes -> (real, real, int))
    requires c.kind == ADD_FOLLOWER || c.kind == REMOVE_FOLLOWER || c.kind == REMOVE_FOLLOWED ==>
      GetNameId(r, Text(c.payload)) <= 0
    requires c.kind != SET_NAME && (c.kind == MY_LOCATION ==> |c.payload| != 16)
    ensures Executed(r, me, q, c, locate) == r
  {
  }

  // ---- updates -------------------------------------------------------------------------------------------

  /** An `Update` that is handled is gone from the queue of its session, and from no other; beyond that
      it changes what its client has been told, and nothing else. */
  lemma UpdateTakesOneNotice(s: Sys, q: Queue)
    requires Consistent(s.reg) && Possible(s, Update(q)) && s.sessions[q] in s.reg.data
    ensures var r, r', f := s.reg, Step(s, Update(q)).reg, s.sessions[q];
      && r'.Pending(q) == r.Pending(q) - 1 && (forall p: Queue :: p != q ==> r'.Pending(p) == r.Pending(p))
      && r'.(data := r.data, inbox := r.inbox) == r && r'.data.Keys == r.data.Keys
      && (forall i :: i in r.data && i != f ==> r'.data[i] == r.data[i])
      && r'.data[f].(following := []) == r.data[f].(following := [])
  {
  }

  // ---- locations -----------------------------------------------------------------------------------------

  /** MY_LOCATION puts one position, with the latitude, longitude and time that were sent, behind those of
      the sender, and touches nobody else; and that position is what every watcher is handed, if any. */
  lemma LocationIsStored(r: Registry, me: int, q: Queue, payload: Bytes, locate: Bytes -> (real, real, int))
    requires me in r.data && |payload| == 16
    ensures var r' := Executed(r, me, q, Content(MY_LOCATION, payload), locate);
      var (latitude, longitude, time) := locate(payload);
      && r'.data.Keys == r.data.Keys && (forall i :: i in r.data && i != me ==> r'.data[i] == r.data[i])
      && r'.data[me].(positions := []) == r.data[me].(positions := [])
      && r'.data[me].positions == r.data[me].positions + [Position(latitude, longitude, time)]
      && forall w: Watcher, p :: p in Emitted(w, r'.data[me]) ==>
           p.latitude == latitude && p.longitude == longitude && p.time == time
  {
    var (latitude, longitude, time) := locate(payload);
    NotifyAllPosts(WithPosition(r, me, latitude, longitude, time), r.data[me].followers);
  }

  /** So the next fetch of every follower with an older mark hands out just this position of the sender,
      if the sender is named. */
  lemma LocationReachesFollowers(r: Registry, me: int, q: Queue, payload: Bytes, locate: Bytes -> (real, real, int),
                                 f: int, i: nat)
    requires Consistent(r) && me in r.data && r.data[me].name != "" && |payload| == 16
    requires f in r.data && i < |r.data[f].following| && r.data[f].following[i].id == me
    requires r.data[f].following[i].time < locate(payload).2
    ensures var r' := Executed(r, me, q, Content(MY_LOCATION, payload), locate);
      var (latitude, longitude, time) := locate(payload);
      && f in r'.data && Known(r'.data[f].following, r'.data)
      && (me, Position(latitude, longitude, time)) in Fetch(r', f).2
      && forall p :: (me, p) in Fetch(r', f).2 ==> p == Position(latitude, longitude, time)
  {
    var r' := Executed(r, me, q, Content(MY_LOCATION, payload), locate);
    var (latitude, longitude, time) := locate(payload);
    AddPositionKeepsConsistency(r, me, latitude, longitude, time);
    LocationIsStored(r, me, q, payload, locate);
    assert Known(r'.data[f].following, r'.data);
    assert r'.data[f].following == r.data[f].following;
    var last := Position(latitude, longitude, time);
    assert r'.data[me].positions[|r'.data[me].positions| - 1] == last;
    FetchedExactly(r', f, me, last);
    assert TellsPosition(r'.data[f].following[i], r'.data, me, last);
    forall p | (me, p) in Fetch(r', f).2 ensures p == last {
      FetchedExactly(r', f, me, p);
    }
  }

  /** The positions that a fetch hands out, in terms of the watchers before it. */
  lemma FetchedExactly(r: Registry, f: int, a: int, p: Position)
    requires f in r.data && Known(r.data[f].following, r.data)
    ensures (a, p) in Fetch(r, f).2 <==>
      exists i :: 0 <= i < |r.data[f].following| && TellsPosition(r.data[f].following[i], r.data, a, p)
  {
    var ws, r1 := r.data[f].following, GetNewNames(r, f).0;
    var ws1 := r1.data[f].following;
    assert Known(ws1, r1.data);
    PositionsForExactly(ws1, r1.data, a, p);
    forall i | 0 <= i < |ws|
      ensures |ws1| == |ws| && (TellsPosition(ws1[i], r1.data, a, p) <==> TellsPosition(ws[i], r.data, a, p))
    {
      NamesLeavePositions(r, f, i, a);
    }
    assert ws == [] ==> ws1 == [];
  }
}
