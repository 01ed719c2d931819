/** What a client is sent about the clients it follows, over whole runs: positions only ever get
    newer. */
module Watermarks {
  import opened Registry
  import opened RegistryLaws
  import opened Sessions

  /** The positions of client `a` among those delivered. */
  function OfClient(ps: seq<(int, Position)>, a: int): seq<Position> {
    if ps == [] then []
    else if ps[0].0 == a then [ps[0].1] + OfClient(ps[1..], a)
    else OfClient(ps[1..], a)
  }

  lemma {:induction false} OfClientAppend(ps: seq<(int, Position)>, qs: seq<(int, Position)>, a: int)
    ensures OfClient(ps + qs, a) == OfClient(ps, a) + OfClient(qs, a)
  {
    if ps == [] {
      assert ps + qs == qs;
    } else {
      assert (ps + qs)[1..] == ps[1..] + qs;
      OfClientAppend(ps[1..], qs, a);
      var head, left, right := [ps[0].1], OfClient(ps[1..], a), OfClient(qs, a);
      assert head + (left + right) == (head + left) + right;
    }
  }

  lemma {:induction false} OfClientTag(id: int, ps: seq<Position>, a: int)
    ensures OfClient(Tag(id, ps), a) == if id == a then ps else []
  {
    if ps != [] {
      assert Tag(id, ps)[1..] == Tag(id, ps[1..]);
      OfClientTag(id, ps[1..], a);
    }
  }

  /** All watchers of `f` for `a` have seen everything up to `mark`. */
  predicate MarksAtLeast(ws: seq<Watcher>, a: int, mark: int) {
    forall i :: 0 <= i < |ws| && ws[i].id == a ==> ws[i].time >= mark
  }

  /** All of `ps` are the last position of the named client `a`, and newer than `mark`. */
  ghost predicate LastAndNewer(ps: seq<Position>, data: Clients, a: int, mark: int) {
    forall p :: p in ps ==>
      && a in data && data[a].positions != [] && data[a].name != ""
      && p == data[a].positions[|data[a].positions| - 1] && p.time > mark
  }

  lemma OneWatcher(w: Watcher, data: Clients, a: int, mark: int)
    requires w.id in data && (w.id == a ==> w.time >= mark)
    ensures LastAndNewer(OfClient(Tag(w.id, Emitted(w, data[w.id])), a), data, a, mark)
    ensures |OfClient(Tag(w.id, Emitted(w, data[w.id])), a)| <= if w.id == a then 3 else 0
  {
    OfClientTag(w.id, Emitted(w, data[w.id]), a);
  }

  /** One call delivers, for each watcher of `a`, at most three positions, all of them the last
      position of `a`, and newer than every mark it starts from. */
  lemma {:induction false} OneCall(ws: seq<Watcher>, data: Clients, a: int, mark: int)
    requires Known(ws, data) && MarksAtLeast(ws, a, mark)
    ensures LastAndNewer(OfClient(PositionsFor(ws, data), a), data, a, mark)
    ensures |OfClient(PositionsFor(ws, data), a)| <= 3 * multiset(WatchedIds(ws))[a]
  {
    if ws != [] {
      assert Known(ws[1..], data) && MarksAtLeast(ws[1..], a, mark);
      OneCall(ws[1..], data, a, mark);
      var first := Tag(ws[0].id, Emitted(ws[0], data[ws[0].id]));
      OfClientAppend(first, PositionsFor(ws[1..], data), a);
      OneWatcher(ws[0], data, a, mark);
      assert WatchedIds(ws) == [ws[0].id] + WatchedIds(ws[1..]);
    }
  }

  /** After the call no watcher is behind the last position of a named client, and no mark has
      gone down. */
  lemma MarksRise(ws: seq<Watcher>, data: Clients, a: int, mark: int)
    requires Known(ws, data) && MarksAtLeast(ws, a, mark)
    ensures MarksAtLeast(AdvancedAll(ws, data), a, mark)
    ensures a in data && data[a].positions != [] && data[a].name != "" ==>
      MarksAtLeast(AdvancedAll(ws, data), a, data[a].positions[|data[a].positions| - 1].time)
  {
  }

  /** The positions of `a` that event `e` delivers to `f`. */
  ghost function Delivered(s: Sys, e: Event, f: int, a: int): seq<Position>
    requires Possible(s, e)
  {
    if e.Update? && s.sessions[e.q] == f && f in s.reg.data && Known(s.reg.data[f].following, s.reg.data)
    then OfClient(Fetch(TakeUpdate(s.reg, e.q), f).2, a) else []
  }

  /** The event makes `f` a follower of `a` once more, which starts a watcher from time 0. */
  predicate Refollows(s: Sys, e: Event, f: int, a: int)
    requires Possible(s, e)
  {
    e.Follow? && s.sessions[e.q] == a && GetNameId(s.reg, e.name) == f
  }

  ghost predicate Marked(r: Registry, f: int, a: int, mark: int) {
    f in r.data ==> MarksAtLeast(r.data[f].following, a, mark)
  }

  lemma ActKeepsMarks(r: Registry, me: int, e: Event, f: int, a: int, mark: int)
    requires me in r.data && Marked(r, f, a, mark)
    requires !(e.Follow? && me == a && GetNameId(r, e.name) == f)
    ensures Marked(Act(r, me, e), f, a, mark)
  {
    if f in r.data {
      FollowingAfterAct(r, me, e, f);
      RemovalKeepsMarks(r.data[f].following, me, a, mark);
      RemovalKeepsMarks(r.data[f].following, if e.Unfollow? then GetNameId(r, e.name) else me, a, mark);
    } else {
      FollowingAfterAct(r, me, e, me);
    }
  }

  lemma RemovalKeepsMarks(ws: seq<Watcher>, id: int, a: int, mark: int)
    requires MarksAtLeast(ws, a, mark)
    ensures MarksAtLeast(RemoveWatchers(ws, id), a, mark)
  {
    RemoveWatchersMembers(ws, id);
    var ws' := RemoveWatchers(ws, id);
    forall i | 0 <= i < |ws'| && ws'[i].id == a ensures ws'[i].time >= mark {
      assert ws'[i] in ws;
    }
  }

  lemma FetchKeepsMarks(r: Registry, id: int, f: int, a: int, mark: int)
    requires Consistent(r) && id in r.data && Marked(r, f, a, mark)
    ensures Known(r.data[id].following, r.data)
    ensures Marked(Fetch(r, id).0, f, a, mark)
    ensures f == id ==>
      forall p :: p in OfClient(Fetch(r, id).2, a) ==> p.time > mark && Marked(Fetch(r, id).0, f, a, p.time)
  {
    if f == id {
      OwnFetchRaisesMarks(r, f, a, mark);
    }
  }

  lemma OwnFetchRaisesMarks(r: Registry, f: int, a: int, mark: int)
    requires f in r.data && Known(r.data[f].following, r.data) && Marked(r, f, a, mark)
    ensures Marked(Fetch(r, f).0, f, a, mark)
    ensures forall p :: p in OfClient(Fetch(r, f).2, a) ==> p.time > mark && Marked(Fetch(r, f).0, f, a, p.time)
  {
    var r1 := GetNewNames(r, f).0;
    var ws1 := r1.data[f].following;
    assert Known(ws1, r1.data) && MarksAtLeast(ws1, a, mark);
    OneCall(ws1, r1.data, a, mark);
    MarksRise(ws1, r1.data, a, mark);
  }

  /** A step keeps a mark exactly when it does not start a new watcher, whose mark is 0. */
  lemma MarkedAfterStepIff(s: Sys, e: Event, f: int, a: int, mark: int)
    requires Inv(s) && Possible(s, e) && Fits(s, e) && f in s.reg.data && Marked(s.reg, f, a, mark)
    ensures Marked(Step(s, e).reg, f, a, mark) <==> !Refollows(s, e, f, a) || mark <= 0
  {
    if Refollows(s, e, f, a) {
      var t := Step(s, e);
      assert t.reg.data == Linked(s.reg, a, f).data;
      var before, after := s.reg.data[f].following, t.reg.data[f].following;
      assert after == before + [Watcher(a, 0, "")];
      assert after[|before|].time == 0;
    } else {
      StepDeliversNewer(s, e, f, a, mark);
    }
  }

  /** One event delivers only positions newer than the mark, and raises the mark to them. */
  lemma StepDeliversNewer(s: Sys, e: Event, f: int, a: int, mark: int)
    requires Inv(s) && Possible(s, e) && Fits(s, e) && Marked(s.reg, f, a, mark)
    ensures !Refollows(s, e, f, a) ==> Marked(Step(s, e).reg, f, a, mark)
    ensures forall p :: p in Delivered(s, e, f, a) ==> p.time > mark && Marked(Step(s, e).reg, f, a, p.time)
  {
    match e {
      case Open(_) =>
      case Complete(q, key) => RegistrationIdentity(s.reg, key, q);
      case Destroy(_) =>
      case Update(q) =>
        var r := TakeUpdate(s.reg, q);
        PostsKeepConsistency(s.reg, r);
        FetchKeepsMarks(r, s.sessions[q], f, a, mark);
      case _ =>
        if !Refollows(s, e, f, a) {
          ActKeepsMarks(s.reg, s.sessions[e.q], e, f, a, mark);
        }
    }
  }

  // ---- whole runs --------------------------------------------------------------------------------------

  /** No event of the run makes `f` a follower of `a` again. */
  ghost predicate NeverRefollows(s: Sys, es: seq<Event>, f: int, a: int)
    decreases |es|
  {
    es != [] && Possible(s, es[0]) ==> !Refollows(s, es[0], f, a) && NeverRefollows(Step(s, es[0]), es[1..], f, a)
  }

  lemma {:induction false} MarkStays(s: Sys, es: seq<Event>, t: Sys, f: int, a: int, mark: int)
    requires Inv(s) && Run(s, es, t) && NeverRefollows(s, es, f, a) && Marked(s.reg, f, a, mark)
    ensures Inv(t) && Marked(t.reg, f, a, mark)
    decreases |es|
  {
    if es != [] {
      StepKeepsInv(s, es[0]);
      StepDeliversNewer(s, es[0], f, a, mark);
      MarkStays(Step(s, es[0]), es[1..], t, f, a, mark);
    }
  }

  /** What an event hands out takes the mark as far as the newest of it. */
  lemma MarkIsTaken(s: Sys, e: Event, f: int, a: int) returns (mark: int)
    requires Inv(s) && Possible(s, e) && Fits(s, e) && Delivered(s, e, f, a) != []
    ensures forall p :: p in Delivered(s, e, f, a) ==> p.time <= mark
    ensures Marked(Step(s, e).reg, f, a, mark)
  {
    StepDeliversNewer(s, e, f, a, LowestMark(s.reg, f));
    mark := Latest(Delivered(s, e, f, a));
  }

  /** The newest time among the positions. */
  function Latest(ps: seq<Position>): (m: int)
    ensures forall p :: p in ps ==> p.time <= m
    ensures ps != [] ==> exists p :: p in ps && p.time == m
  {
    if ps == [] then 0
    else if |ps| == 1 then ps[0].time
    else
      var m := Latest(ps[1..]);
      assert forall p :: p in ps <==> p == ps[0] || p in ps[1..];
      if ps[0].time > m then ps[0].time else m
  }

  /** Two events of a run, `e` in state s and `e'` in state t, with the events `es` between them.  If
      those do not make `f` a follower of `a` again, every position of `a` that `e'` hands out to `f` is
      strictly newer than all that `e` did, whatever happened before and happens after. */
  lemma PositionsOnlyGetNewer(s: Sys, e: Event, es: seq<Event>, t: Sys, e': Event, f: int, a: int)
    requires Inv(s) && Possible(s, e) && Fits(s, e)
    requires Run(Step(s, e), es, t) && NeverRefollows(Step(s, e), es, f, a)
    requires Possible(t, e') && Fits(t, e')
    ensures forall p, q :: p in Delivered(s, e, f, a) && q in Delivered(t, e', f, a) ==> p.time < q.time
  {
    if Delivered(s, e, f, a) != [] {
      var mark := MarkIsTaken(s, e, f, a);
      StepKeepsInv(s, e);
      MarkStays(Step(s, e), es, t, f, a, mark);
      StepDeliversNewer(t, e', f, a, mark);
    }
  }

  /** Some time that no mark of `f` is below. */
  function LowestMark(r: Registry, f: int): (m: int)
    ensures forall a :: Marked(r, f, a, m)
  {
    if f in r.data then Lowest(r.data[f].following) else 0
  }

  function Lowest(ws: seq<Watcher>): (m: int)
    ensures forall i :: 0 <= i < |ws| ==> ws[i].time >= m
  {
    if ws == [] then 0
    else
      var m := Lowest(ws[1..]);
      assert forall i :: 1 <= i < |ws| ==> ws[i] == ws[1..][i - 1];
      if ws[0].time < m then ws[0].time else m
  }
}
