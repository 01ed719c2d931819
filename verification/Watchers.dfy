/** The marks are kept watcher by watcher: what each watcher hands out only ever gets newer, however
    often its owner follows the same client again. */
module Watchers {
  import opened Registry
  import opened RegistryLaws
  import opened Sessions
  import opened Watermarks

  /** The watchers for `a`, in the order in which they were made. */
  function WatchersFor(ws: seq<Watcher>, a: int): seq<Watcher> {
    if ws == [] then [] else (if ws[0].id == a then [ws[0]] else []) + WatchersFor(ws[1..], a)
  }

  lemma {:induction false} WatchersForAppend(ws: seq<Watcher>, w: Watcher, a: int)
    ensures WatchersFor(ws + [w], a) == WatchersFor(ws, a) + if w.id == a then [w] else []
  {
    if ws == [] {
      assert ws + [w] == [w];
      assert WatchersFor([w], a) == (if w.id == a then [w] else []) + WatchersFor([], a);
    } else {
      assert (ws + [w])[1..] == ws[1..] + [w];
      WatchersForAppend(ws[1..], w, a);
      var head := if ws[0].id == a then [ws[0]] else [];
      var last := if w.id == a then [w] else [];
      var rest := WatchersFor(ws[1..], a);
      assert head + (rest + last) == (head + rest) + last;
    }
  }

  lemma {:induction false} WatchersForRemove(ws: seq<Watcher>, id: int, a: int)
    ensures WatchersFor(RemoveWatchers(ws, id), a) == if a == id then [] else WatchersFor(ws, a)
  {
    if ws != [] {
      WatchersForRemove(ws[1..], id, a);
      var rest := RemoveWatchers(ws[1..], id);
      assert [] + rest == rest;
      assert ([ws[0]] + rest)[1..] == rest;
    }
  }

  /** A watcher after a fetch that found the data `d`. */
  function Fetched(w: Watcher, d: ClientData): Watcher {
    Advanced(Renamed(w, d), d)
  }

  lemma {:induction false} WatchersForFetched(ws: seq<Watcher>, ws': seq<Watcher>, data: Clients, a: int)
    requires Known(ws, data) && a in data && |ws'| == |ws|
    requires forall i :: 0 <= i < |ws| ==> ws'[i] == Fetched(ws[i], data[ws[i].id])
    ensures var v, v' := WatchersFor(ws, a), WatchersFor(ws', a);
      |v'| == |v| && forall k :: 0 <= k < |v| ==> v'[k] == Fetched(v[k], data[a])
  {
    if ws != [] {
      forall i | 0 <= i < |ws| - 1 ensures ws'[1..][i] == Fetched(ws[1..][i], data[ws[1..][i].id]) {
        assert ws'[i + 1] == Fetched(ws[i + 1], data[ws[i + 1].id]);
      }
      assert Known(ws[1..], data);
      WatchersForFetched(ws[1..], ws'[1..], data, a);
    }
  }

  // ---- a delivery is made of what its watchers hand out ----------------------------------------------

  function AllEmitted(ws: seq<Watcher>, d: ClientData): seq<Position> {
    if ws == [] then [] else Emitted(ws[0], d) + AllEmitted(ws[1..], d)
  }

  lemma {:induction false} HandedOutByWatchers(ws: seq<Watcher>, data: Clients, a: int)
    requires Known(ws, data) && a in data
    ensures OfClient(PositionsFor(ws, data), a) == AllEmitted(WatchersFor(ws, a), data[a])
  {
    if ws != [] {
      assert Known(ws[1..], data);
      HandedOutByWatchers(ws[1..], data, a);
      var first := Emitted(ws[0], data[ws[0].id]);
      OfClientAppend(Tag(ws[0].id, first), PositionsFor(ws[1..], data), a);
      OfClientTag(ws[0].id, first, a);
      var rest := WatchersFor(ws[1..], a);
      if ws[0].id == a {
        assert ([ws[0]] + rest)[1..] == rest;
      } else {
        assert [] + rest == rest;
        assert [] + AllEmitted(rest, data[a]) == AllEmitted(rest, data[a]);
      }
    }
  }

  /** What watchers hand out is a matter of their marks and of the names and positions. */
  lemma {:induction false} EmittedAlike(ws: seq<Watcher>, ws': seq<Watcher>, d: ClientData, d': ClientData)
    requires |ws'| == |ws| && d'.name == d.name && d'.positions == d.positions
    requires forall i :: 0 <= i < |ws| ==> ws'[i].time == ws[i].time
    ensures AllEmitted(ws', d') == AllEmitted(ws, d)
  {
    if ws != [] {
      assert forall i :: 0 <= i < |ws| - 1 ==> ws'[1..][i] == ws'[i + 1] && ws[1..][i] == ws[i + 1];
      EmittedAlike(ws[1..], ws'[1..], d, d');
    }
  }

  lemma {:induction false} WatchersForAlike(ws: seq<Watcher>, ws': seq<Watcher>, a: int)
    requires |ws'| == |ws| && forall i :: 0 <= i < |ws| ==> ws'[i].id == ws[i].id && ws'[i].time == ws[i].time
    ensures var v, v' := WatchersFor(ws, a), WatchersFor(ws', a);
      |v'| == |v| && forall k :: 0 <= k < |v| ==> v'[k].time == v[k].time
  {
    if ws != [] {
      assert forall i :: 0 <= i < |ws| - 1 ==> ws'[1..][i] == ws'[i + 1] && ws[1..][i] == ws[i + 1];
      WatchersForAlike(ws[1..], ws'[1..], a);
    }
  }

  lemma FetchByWatchers(r: Registry, f: int, a: int)
    requires f in r.data && a in r.data && Known(r.data[f].following, r.data)
    ensures OfClient(Fetch(r, f).2, a) == AllEmitted(WatchersFor(r.data[f].following, a), r.data[a])
  {
    var ws := r.data[f].following;
    var r1 := GetNewNames(r, f).0;
    var ws1 := r1.data[f].following;
    assert ws1 == RenamedAll(ws, r.data);
    assert Known(ws1, r1.data);
    assert OfClient(PositionsFor(ws1, r1.data), a) == AllEmitted(WatchersFor(ws1, a), r1.data[a]) by {
      HandedOutByWatchers(ws1, r1.data, a);
    }
    WatchersForAlike(ws, ws1, a);
    EmittedAlike(WatchersFor(ws, a), WatchersFor(ws1, a), r.data[a], r1.data[a]);
  }

  /** An `Update` hands out to its client about `a` what the watchers for `a` hand out, in their order. */
  lemma DeliveredByWatchers(s: Sys, e: Event, f: int, a: int)
    requires Inv(s) && Possible(s, e) && e.Update? && s.sessions[e.q] == f && a in s.reg.data
    ensures Delivered(s, e, f, a) == AllEmitted(WatchersFor(s.reg.data[f].following, a), s.reg.data[a])
  {
    var r := TakeUpdate(s.reg, e.q);
    assert Known(r.data[f].following, s.reg.data);
    FetchByWatchers(r, f, a);
  }

  // ---- the marks of one watcher --------------------------------------------------------------------------

  /** What the k-th watcher of `f` for `a` hands out in event `e`. */
  ghost function EmittedBy(s: Sys, e: Event, f: int, a: int, k: nat): seq<Position>
    requires Possible(s, e)
  {
    if e.Update? && s.sessions[e.q] == f && f in s.reg.data && a in s.reg.data
       && k < |WatchersFor(s.reg.data[f].following, a)|
    then Emitted(WatchersFor(s.reg.data[f].following, a)[k], s.reg.data[a]) else []
  }

  /** The k-th watcher of `f` for `a` exists and has seen everything up to `mark`. */
  ghost predicate HasMark(r: Registry, f: int, a: int, k: nat, mark: int) {
    && f in r.data && a in r.data && k < |WatchersFor(r.data[f].following, a)|
    && WatchersFor(r.data[f].following, a)[k].time >= mark
  }

  /** The event ends that `f` follows `a`, which removes all its watchers for `a` at once. */
  predicate Cuts(s: Sys, e: Event, f: int, a: int)
    requires Possible(s, e)
  {
    || (e.Unfollow? && s.sessions[e.q] == f && GetNameId(s.reg, e.name) == a)
    || (e.Drop? && s.sessions[e.q] == a && GetNameId(s.reg, e.name) == f)
  }

  /** Commands other than the one that cuts leave the k-th watcher as it is, a second follow included. */
  lemma ActKeepsWatcher(r: Registry, me: int, e: Event, f: int, a: int, k: nat, mark: int)
    requires me in r.data && HasMark(r, f, a, k, mark)
    requires !(e.Unfollow? && me == f && GetNameId(r, e.name) == a)
    requires !(e.Drop? && me == a && GetNameId(r, e.name) == f)
    ensures HasMark(Act(r, me, e), f, a, k, mark)
  {
    var ws := r.data[f].following;
    FollowingAfterAct(r, me, e, f);
    WatchersForAppend(ws, Watcher(me, 0, ""), a);
    WatchersForRemove(ws, me, a);
    if e.Unfollow? {
      WatchersForRemove(ws, GetNameId(r, e.name), a);
    }
  }

  lemma FetchAdvancesAll(r: Registry, f: int, a: int)
    requires f in r.data && a in r.data && Known(r.data[f].following, r.data)
    ensures var r2 := Fetch(r, f).0;
      && f in r2.data && a in r2.data
      && var v, v' := WatchersFor(r.data[f].following, a), WatchersFor(r2.data[f].following, a);
         |v'| == |v| && forall k :: 0 <= k < |v| ==> v'[k] == Fetched(v[k], r.data[a])
  {
    var r2 := Fetch(r, f).0;
    var ws, ws2 := r.data[f].following, r2.data[f].following;
    forall i | 0 <= i < |ws| ensures |ws2| == |ws| && ws2[i] == Fetched(ws[i], r.data[ws[i].id]) {
      FetchAdvances(r, f, i);
    }
    assert ws == [] ==> ws2 == [];
    WatchersForFetched(ws, ws2, r.data, a);
  }

  /** A fetch by `f` takes the k-th watcher past everything it hands out. */
  lemma FetchAdvancesWatcher(r: Registry, f: int, a: int, k: nat, mark: int)
    requires f in r.data && Known(r.data[f].following, r.data) && HasMark(r, f, a, k, mark)
    ensures HasMark(Fetch(r, f).0, f, a, k, mark)
    ensures forall p :: p in Emitted(WatchersFor(r.data[f].following, a)[k], r.data[a]) ==>
      p.time > mark && HasMark(Fetch(r, f).0, f, a, k, p.time)
  {
    FetchAdvancesAll(r, f, a);
  }

  /** One event hands out through the k-th watcher only what is past its mark, and takes the mark there. */
  lemma StepEmitsNewer(s: Sys, e: Event, f: int, a: int, k: nat, mark: int)
    requires Inv(s) && Possible(s, e) && Fits(s, e) && HasMark(s.reg, f, a, k, mark)
    ensures !Cuts(s, e, f, a) ==> HasMark(Step(s, e).reg, f, a, k, mark)
    ensures forall p :: p in EmittedBy(s, e, f, a, k) ==> p.time > mark && HasMark(Step(s, e).reg, f, a, k, p.time)
  {
    match e {
      case Open(_) =>
      case Complete(q, key) => RegistrationIdentity(s.reg, key, q);
      case Destroy(_) =>
      case Update(q) =>
        var r := TakeUpdate(s.reg, q);
        assert Known(r.data[s.sessions[q]].following, r.data);
        if s.sessions[q] == f {
          FetchAdvancesWatcher(r, f, a, k, mark);
        } else {
          assert Fetch(r, s.sessions[q]).0.data[f] == r.data[f];
        }
      case _ =>
        if !Cuts(s, e, f, a) {
          ActKeepsWatcher(s.reg, s.sessions[e.q], e, f, a, k, mark);
        }
    }
  }

  // ---- whole runs --------------------------------------------------------------------------------------

  /** No event of the run ends that `f` follows `a`. */
  ghost predicate NeverCuts(s: Sys, es: seq<Event>, f: int, a: int)
    decreases |es|
  {
    es != [] && Possible(s, es[0]) ==> !Cuts(s, es[0], f, a) && NeverCuts(Step(s, es[0]), es[1..], f, a)
  }

  lemma {:induction false} WatcherStays(s: Sys, es: seq<Event>, t: Sys, f: int, a: int, k: nat, mark: int)
    requires Inv(s) && Run(s, es, t) && NeverCuts(s, es, f, a) && HasMark(s.reg, f, a, k, mark)
    ensures Inv(t) && HasMark(t.reg, f, a, k, mark)
    decreases |es|
  {
    if es != [] {
      StepKeepsInv(s, es[0]);
      StepEmitsNewer(s, es[0], f, a, k, mark);
      WatcherStays(Step(s, es[0]), es[1..], t, f, a, k, mark);
    }
  }

  /** What an event hands out through a watcher takes its mark as far as the newest of it. */
  lemma WatcherMarkIsTaken(s: Sys, e: Event, f: int, a: int, k: nat) returns (mark: int)
    requires Inv(s) && Possible(s, e) && Fits(s, e) && EmittedBy(s, e, f, a, k) != []
    ensures forall p :: p in EmittedBy(s, e, f, a, k) ==> p.time <= mark
    ensures HasMark(Step(s, e).reg, f, a, k, mark)
  {
    StepEmitsNewer(s, e, f, a, k, WatchersFor(s.reg.data[f].following, a)[k].time);
    mark := Latest(EmittedBy(s, e, f, a, k));
  }

  /** Two events of a run, `e` in state s and `e'` in state t, with the events `es` between them.  Each
      watcher hands out strictly newer positions by `e'` than by `e`, however often `f` was made a
      follower of `a` again, as long as `f` did not cease to follow `a` in between. */
  lemma WatcherOnlyGetsNewer(s: Sys, e: Event, es: seq<Event>, t: Sys, e': Event, f: int, a: int, k: nat)
    requires Inv(s) && Possible(s, e) && Fits(s, e)
    requires Run(Step(s, e), es, t) && NeverCuts(Step(s, e), es, f, a)
    requires Possible(t, e') && Fits(t, e')
    ensures forall p, q :: p in EmittedBy(s, e, f, a, k) && q in EmittedBy(t, e', f, a, k) ==> p.time < q.time
  {
    if EmittedBy(s, e, f, a, k) != [] {
      var mark := WatcherMarkIsTaken(s, e, f, a, k);
      StepKeepsInv(s, e);
      WatcherStays(Step(s, e), es, t, f, a, k, mark);
      StepEmitsNewer(t, e', f, a, k, mark);
    }
  }

  // ---- following again ----------------------------------------------------------------------------------

  /** Whatever `f` has been handed before: once `a`, named and last seen at a time past 0, has made it a
      follower again, the next `Update` hands out that position. */
  lemma FollowingAgainHandsOutLast(s: Sys, q: Queue, mine: Queue, n: string)
    requires Inv(s) && Possible(s, Follow(mine, n)) && GetNameId(s.reg, n) in s.reg.queues
    requires q == s.reg.queues[GetNameId(s.reg, n)] && s.sessions[mine] in s.reg.data
    requires var d := s.reg.data[s.sessions[mine]];
      d.name != "" && d.positions != [] && d.positions[|d.positions| - 1].time > 0
    ensures var a, f, t := s.sessions[mine], GetNameId(s.reg, n), Step(s, Follow(mine, n));
      && Possible(t, Update(q))
      && s.reg.data[a].positions[|s.reg.data[a].positions| - 1] in Delivered(t, Update(q), f, a)
  {
    var a, f, e := s.sessions[mine], GetNameId(s.reg, n), Follow(mine, n);
    var t := Step(s, e);
    FollowMakesAWatcher(s, mine, n);
    StepKeepsInv(s, e);
    DeliveredByWatchers(t, Update(q), f, a);
    NewWatcherEmits(s.reg.data[f].following, t.reg.data[a], a);
  }

  lemma NewWatcherEmits(ws: seq<Watcher>, d: ClientData, a: int)
    requires d.name != "" && d.positions != [] && d.positions[|d.positions| - 1].time > 0
    ensures d.positions[|d.positions| - 1] in AllEmitted(WatchersFor(ws + [Watcher(a, 0, "")], a), d)
  {
    var w := Watcher(a, 0, "");
    WatchersForAppend(ws, w, a);
    AllEmittedAppend(WatchersFor(ws, a), w, d);
    assert d.positions[|d.positions| - 1] in Emitted(w, d);
  }

  lemma FollowMakesAWatcher(s: Sys, mine: Queue, n: string)
    requires Inv(s) && Possible(s, Follow(mine, n)) && GetNameId(s.reg, n) in s.reg.queues
    requires s.sessions[mine] in s.reg.data
    ensures var a, f, t := s.sessions[mine], GetNameId(s.reg, n), Step(s, Follow(mine, n));
      && f in s.reg.data && a in t.reg.data && f in t.reg.data
      && t.reg.data[f].following == s.reg.data[f].following + [Watcher(a, 0, "")]
      && t.reg.data[a].name == s.reg.data[a].name && t.reg.data[a].positions == s.reg.data[a].positions
      && Possible(t, Update(s.reg.queues[f])) && t.sessions[s.reg.queues[f]] == f
  {
    var a, f := s.sessions[mine], GetNameId(s.reg, n);
    assert f in s.reg.queues.Keys;
    AddFollowerPosts(s.reg, a, f);
    assert s.sessions[s.reg.queues[f]] == f;
  }

  lemma {:induction false} AllEmittedAppend(ws: seq<Watcher>, w: Watcher, d: ClientData)
    ensures AllEmitted(ws + [w], d) == AllEmitted(ws, d) + Emitted(w, d)
  {
    if ws == [] {
      assert ws + [w] == [w];
      assert AllEmitted([w], d) == Emitted(w, d) + AllEmitted([], d);
      assert Emitted(w, d) + [] == Emitted(w, d);
    } else {
      assert (ws + [w])[1..] == ws[1..] + [w];
      AllEmittedAppend(ws[1..], w, d);
      var head, rest, last := Emitted(ws[0], d), AllEmitted(ws[1..], d), Emitted(w, d);
      assert head + (rest + last) == (head + rest) + last;
    }
  }

  lemma ComingBackReached(n: nat)
    requires n <= 7
    ensures Reached(ComingBackState(n)) && Inv(ComingBackState(n))
  {
    EmptyIsConsistent();
    assert Inv(BOOT) && Run(BOOT, [], BOOT);
    for k := 0 to n
      invariant Reached(ComingBackState(k)) && Inv(ComingBackState(k))
    {
      NextReached(k);
    }
  }

  lemma NextReached(k: nat)
    requires k < 7 && Reached(ComingBackState(k)) && Inv(ComingBackState(k))
    ensures Reached(ComingBackState(k + 1)) && Inv(ComingBackState(k + 1))
  {
    ComingBackStep(k);
    Goes(ComingBackState(k), ComingBack()[k]);
    StepKeepsInv(ComingBackState(k), ComingBack()[k]);
  }

  /** A client that follows itself, has sent its position and is about to be handed it. */
  lemma Located() returns (s: Sys)
    ensures Reached(s) && Inv(s) && s.sessions == map[0 := 1] && s.reg.Pending(0) > 0
    ensures s.reg.queues == map[1 := 0] && GetNameId(s.reg, "a") == 1 && s.reg.data.Keys == {1}
    ensures s.reg.data[1] == ALONE.(positions := [Position(0.0, 0.0, 5)])
  {
    ComingBackReached(4);
    var before, e := ComingBackState(4), Locate(0, 0.0, 0.0, 5);
    Goes(before, e);
    StepKeepsInv(before, e);
    s := Step(before, e);
    LocatedFacts(before, s);
  }

  lemma LocatedFacts(before: Sys, s: Sys)
    requires before == ComingBackState(4) && Possible(before, Locate(0, 0.0, 0.0, 5))
    requires s == Step(before, Locate(0, 0.0, 0.0, 5))
    ensures s.sessions == map[0 := 1] && s.reg.Pending(0) > 0
    ensures s.reg.queues == map[1 := 0] && GetNameId(s.reg, "a") == 1 && s.reg.data.Keys == {1}
    ensures s.reg.data[1] == ALONE.(positions := [Position(0.0, 0.0, 5)])
  {
    var m := WithPosition(before.reg, 1, 0.0, 0.0, 5);
    assert ALONE.followers == [1];
    NotifyAllPosts(m, [1]);
    NotifyAllReaches(m, [1], 1);
  }

  /** So there is a run in which a position is handed out, the client is followed again, and the same
      position is handed out again. */
  lemma FollowingAgainRepeats() returns (s: Sys, t: Sys, p: Position)
    ensures Reached(s) && Possible(s, Update(0)) && p in Delivered(s, Update(0), 1, 1)
    ensures Possible(Step(s, Update(0)), Follow(0, "a")) && t == Step(Step(s, Update(0)), Follow(0, "a"))
    ensures Reached(t) && Possible(t, Update(0)) && p in Delivered(t, Update(0), 1, 1)
  {
    s := Located();
    p := Position(0.0, 0.0, 5);
    DeliveredByWatchers(s, Update(0), 1, 1);
    var w := Watcher(1, 0, "");
    assert WatchersFor([w], 1) == [w] + WatchersFor([], 1) == [w];
    assert AllEmitted([w], s.reg.data[1]) == Emitted(w, s.reg.data[1]) + AllEmitted([], s.reg.data[1]);
    assert p in Emitted(w, s.reg.data[1]);
    Goes(s, Update(0));
    StepKeepsInv(s, Update(0));
    var s1 := Step(s, Update(0));
    UpdateLeavesFacts(s, 0);
    Goes(s1, Follow(0, "a"));
    t := Step(s1, Follow(0, "a"));
    FollowingAgainHandsOutLast(s1, 0, 0, "a");
  }

  /** An `Update` changes neither names nor positions nor queues nor sessions. */
  lemma UpdateLeavesFacts(s: Sys, q: Queue)
    requires Inv(s) && Possible(s, Update(q))
    ensures var t := Step(s, Update(q));
      && t.sessions == s.sessions && t.reg.names == s.reg.names && t.reg.queues == s.reg.queues
      && t.reg.data.Keys == s.reg.data.Keys
      && forall i :: i in s.reg.data ==>
           t.reg.data[i].name == s.reg.data[i].name && t.reg.data[i].positions == s.reg.data[i].positions
  {
  }
}
