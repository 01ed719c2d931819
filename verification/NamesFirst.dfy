/** What the data manager hands out to `update`, and the packets that are queued for it: no position of
    a client comes without its name, handed out before or in the same fetch.  Whether the packets are
    sent is the subject of module Outgoing. */
module NamesFirst {
  import opened Common
  import opened Registry
  import opened RegistryLaws
  import opened Sessions
  import opened Packets

  // ---- the packets of one update ---------------------------------------------------------------

  /** How ids, names and positions become bytes is a matter of object representation. */
  datatype Codec = Codec(name: (int, string) -> Bytes, position: (int, Position) -> Bytes)

  function NamePackets(names: seq<(int, string)>, codec: Codec): (packets: seq<Content>)
    ensures |packets| == |names|
    ensures forall i :: 0 <= i < |names| ==> packets[i] == Content(NEW_FOLLOWED, codec.name(names[i].0, names[i].1))
  {
    seq(|names|, i requires 0 <= i < |names| => Content(NEW_FOLLOWED, codec.name(names[i].0, names[i].1)))
  }

  function PositionPackets(positions: seq<(int, Position)>, codec: Codec): (packets: seq<Content>)
    ensures |packets| == |positions|
    ensures forall i :: 0 <= i < |positions| ==>
      packets[i] == Content(LOCATION, codec.position(positions[i].0, positions[i].1))
  {
    seq(|positions|, i requires 0 <= i < |positions| =>
      Content(LOCATION, codec.position(positions[i].0, positions[i].1)))
  }

  /** The loops of `update`: a packet for each new name, then one for each new position. */
  function NewsPackets(names: seq<(int, string)>, positions: seq<(int, Position)>, codec: Codec): (news: seq<Content>)
    ensures |news| == |names| + |positions|
    ensures forall i :: 0 <= i < |names| ==> news[i] == Content(NEW_FOLLOWED, codec.name(names[i].0, names[i].1))
    ensures forall i :: 0 <= i < |positions| ==>
      news[|names| + i] == Content(LOCATION, codec.position(positions[i].0, positions[i].1))
    ensures forall k :: 0 <= k < |news| ==> IsNews(news[k])
  {
    NamePackets(names, codec) + PositionPackets(positions, codec)
  }

  /** The same with the queue `remainingPackets` updated in place. */
  method QueueNews(remaining: seq<Content>, names: seq<(int, string)>, positions: seq<(int, Position)>, codec: Codec)
    returns (remainingPackets: seq<Content>)
    ensures remainingPackets == remaining + NewsPackets(names, positions, codec)
  {
    remainingPackets := remaining;
    ghost var news := NewsPackets(names, positions, codec);
    for i := 0 to |names|
      invariant remainingPackets == remaining + news[..i]
    {
      remainingPackets := remainingPackets + [Content(NEW_FOLLOWED, codec.name(names[i].0, names[i].1))];
    }
    for i := 0 to |positions|
      invariant remainingPackets == remaining + news[..|names| + i]
    {
      remainingPackets := remainingPackets + [Content(LOCATION, codec.position(positions[i].0, positions[i].1))];
    }
    assert news[..|names| + |positions|] == news;
  }

  // ---- what one fetch delivers -------------------------------------------------------------------

  /** Watcher `w` is for `a`, of whom it has not been told the name `n`. */
  predicate TellsName(w: Watcher, data: Clients, a: int, n: string) {
    w.id == a && a in data && n == data[a].name && n != "" && w.name != n
  }

  /** Watcher `w` is for the named client `a`, whose last position `p` is past its mark. */
  predicate TellsPosition(w: Watcher, data: Clients, a: int, p: Position) {
    && w.id == a && a in data && data[a].name != "" && data[a].positions != []
    && p == data[a].positions[|data[a].positions| - 1] && p.time > w.time
  }

  /** The names that come out are exactly those that some watcher has not been told. */
  lemma {:induction false} NamesForExactly(ws: seq<Watcher>, data: Clients, a: int, n: string)
    requires Known(ws, data)
    ensures (a, n) in NamesFor(ws, data) <==> exists i :: 0 <= i < |ws| && TellsName(ws[i], data, a, n)
  {
    if ws != [] {
      NamesForExactly(ws[1..], data, a, n);
      assert forall i :: 1 <= i < |ws| ==> ws[i] == ws[1..][i - 1];
      assert forall i :: 0 <= i < |ws| - 1 ==> ws[1..][i] == ws[i + 1];
      assert (a, n) in NamesFor(ws, data) <==> TellsName(ws[0], data, a, n) || (a, n) in NamesFor(ws[1..], data);
    }
  }

  lemma TagHas(id: int, ps: seq<Position>, a: int, p: Position)
    ensures (a, p) in Tag(id, ps) <==> id == a && p in ps
  {
    if id == a && p in ps {
      var i :| 0 <= i < |ps| && ps[i] == p;
      assert Tag(id, ps)[i] == (a, p);
    }
  }

  /** The positions that come out are exactly the last ones of named clients that are past the mark of
      some watcher. */
  lemma {:induction false} PositionsForExactly(ws: seq<Watcher>, data: Clients, a: int, p: Position)
    requires Known(ws, data)
    ensures (a, p) in PositionsFor(ws, data) <==> exists i :: 0 <= i < |ws| && TellsPosition(ws[i], data, a, p)
  {
    if ws != [] {
      PositionsForExactly(ws[1..], data, a, p);
      assert forall i :: 1 <= i < |ws| ==> ws[i] == ws[1..][i - 1];
      assert forall i :: 0 <= i < |ws| - 1 ==> ws[1..][i] == ws[i + 1];
      var d := data[ws[0].id];
      TagHas(ws[0].id, Emitted(ws[0], d), a, p);
      assert p in Emitted(ws[0], d) <==> PositionNews(ws[0], d) && p == d.positions[|d.positions| - 1];
    }
  }

  /** The names that the watchers of `f` have cached are all among `told`. */
  ghost predicate Cached(r: Registry, f: int, told: iset<(int, string)>) {
    f in r.data ==> forall w :: w in r.data[f].following ==> w.name == "" || (w.id, w.name) in told
  }

  function Members(names: seq<(int, string)>): iset<(int, string)> {
    iset x | x in names
  }

  /** Every client located is named, and its current name is among `told`. */
  ghost predicate AllNamed(r: Registry, positions: seq<(int, Position)>, told: iset<(int, string)>) {
    forall a, p :: (a, p) in positions ==> a in r.data && r.data[a].name != "" && (a, r.data[a].name) in told
  }

  lemma FetchNames(r: Registry, id: int, told: iset<(int, string)>)
    requires id in r.data && Known(r.data[id].following, r.data) && Cached(r, id, told)
    ensures var (r2, names, positions) := Fetch(r, id);
      Cached(r2, id, told + Members(names)) && AllNamed(r, positions, told + Members(names))
  {
    var (r2, names, positions) := Fetch(r, id);
    var all := told + Members(names);
    var ws := r.data[id].following;
    forall i | 0 <= i < |ws| ensures |r2.data[id].following| == |ws| && Told(r2.data[id].following[i], all) {
      FetchAdvances(r, id, i);
      assert ws[i] in ws;
      if NameNews(ws[i], r.data[ws[i].id]) {
        assert TellsName(ws[i], r.data, ws[i].id, r.data[ws[i].id].name);
        NamesForExactly(ws, r.data, ws[i].id, r.data[ws[i].id].name);
      }
    }
    assert ws == [] ==> r2.data[id].following == [];
    forall a, p | (a, p) in positions ensures a in r.data && r.data[a].name != "" && (a, r.data[a].name) in all {
      FetchLocates(r, id, a, p);
      var i :| 0 <= i < |ws| && ws[i].id == a && PositionNews(ws[i], r.data[a]);
      assert ws[i] in ws;
      if NameNews(ws[i], r.data[a]) {
        assert TellsName(ws[i], r.data, a, r.data[a].name);
        NamesForExactly(ws, r.data, a, r.data[a].name);
      }
    }
  }

  ghost predicate Told(w: Watcher, told: iset<(int, string)>) {
    w.name == "" || (w.id, w.name) in told
  }

  lemma FetchLocates(r: Registry, id: int, a: int, p: Position)
    requires id in r.data && Known(r.data[id].following, r.data) && (a, p) in Fetch(r, id).2
    ensures a in r.data
    ensures var ws := r.data[id].following;
      exists i :: 0 <= i < |ws| && ws[i].id == a && PositionNews(ws[i], r.data[a])
  {
    var r1 := GetNewNames(r, id).0;
    var ws1 := r1.data[id].following;
    assert Known(ws1, r1.data);
    PositionsForExactly(ws1, r1.data, a, p);
    var i :| 0 <= i < |ws1| && TellsPosition(ws1[i], r1.data, a, p);
    NamesLeavePositions(r, id, i, a);
    assert PositionNews(r.data[id].following[i], r.data[a]);
  }

  /** Caching names leaves marks, names and positions alone. */
  lemma NamesLeavePositions(r: Registry, id: int, i: nat, a: int)
    requires id in r.data && Known(r.data[id].following, r.data) && i < |r.data[id].following|
    ensures var r1 := GetNewNames(r, id).0;
      && id in r1.data && |r1.data[id].following| == |r.data[id].following|
      && r1.data[id].following[i].id == r.data[id].following[i].id
      && r1.data[id].following[i].time == r.data[id].following[i].time
      && (a in r1.data <==> a in r.data)
      && (a in r.data ==> r1.data[a].name == r.data[a].name && r1.data[a].positions == r.data[a].positions)
  {
    var w := r.data[id].following[i];
    assert RenamedAll(r.data[id].following, r.data)[i] == Renamed(w, r.data[w.id]);
  }

  // ---- whole runs ----------------------------------------------------------------------------------

  ghost predicate Fetches(s: Sys, e: Event, f: int)
    requires Possible(s, e)
  {
    e.Update? && s.sessions[e.q] == f && f in s.reg.data && Known(s.reg.data[f].following, s.reg.data)
  }

  /** The names and the positions that event `e` delivers to `f`. */
  ghost function NamesIn(s: Sys, e: Event, f: int): seq<(int, string)>
    requires Possible(s, e)
  {
    if Fetches(s, e, f) then Fetch(TakeUpdate(s.reg, e.q), f).1 else []
  }

  ghost function PositionsIn(s: Sys, e: Event, f: int): seq<(int, Position)>
    requires Possible(s, e)
  {
    if Fetches(s, e, f) then Fetch(TakeUpdate(s.reg, e.q), f).2 else []
  }

  /** In every event of the run, whenever a position of somebody is handed out for `f`, so was its
      current name, at the latest in the same event. */
  ghost predicate NamedBeforeLocated(s: Sys, es: seq<Event>, f: int, told: iset<(int, string)>)
    decreases |es|
  {
    es != [] && Possible(s, es[0]) ==>
      && AllNamed(s.reg, PositionsIn(s, es[0], f), told + Members(NamesIn(s, es[0], f)))
      && NamedBeforeLocated(Step(s, es[0]), es[1..], f, told + Members(NamesIn(s, es[0], f)))
  }

  lemma ActKeepsCached(r: Registry, me: int, e: Event, f: int, told: iset<(int, string)>)
    requires me in r.data && Cached(r, f, told)
    ensures Cached(Act(r, me, e), f, told)
  {
    if f in r.data {
      FollowingAfterAct(r, me, e, f);
      RemoveWatchersMembers(r.data[f].following, me);
      if e.Unfollow? {
        RemoveWatchersMembers(r.data[f].following, GetNameId(r, e.name));
      }
    } else {
      FollowingAfterAct(r, me, e, me);
    }
  }

  lemma UpdateNames(s: Sys, e: Event, f: int, told: iset<(int, string)>)
    requires Inv(s) && Possible(s, e) && e.Update? && Cached(s.reg, f, told)
    ensures Cached(Step(s, e).reg, f, told + Members(NamesIn(s, e, f)))
    ensures AllNamed(s.reg, PositionsIn(s, e, f), told + Members(NamesIn(s, e, f)))
  {
    var r, id := TakeUpdate(s.reg, e.q), s.sessions[e.q];
    assert Known(r.data[id].following, r.data);
    if id == f {
      FetchNames(r, f, told);
    } else {
      assert f in r.data ==> Fetch(r, id).0.data[f] == r.data[f];
    }
  }

  lemma StepNames(s: Sys, e: Event, f: int, told: iset<(int, string)>)
    requires Inv(s) && Possible(s, e) && Fits(s, e) && Cached(s.reg, f, told)
    ensures Cached(Step(s, e).reg, f, told + Members(NamesIn(s, e, f)))
    ensures AllNamed(s.reg, PositionsIn(s, e, f), told + Members(NamesIn(s, e, f)))
  {
    match e {
      case Open(_) =>
      case Complete(q, key) => RegistrationIdentity(s.reg, key, q);
      case Destroy(_) =>
      case Update(_) => UpdateNames(s, e, f, told);
      case _ => ActKeepsCached(s.reg, s.sessions[e.q], e, f, told);
    }
  }

  lemma {:induction false} RunNames(s: Sys, es: seq<Event>, t: Sys, f: int, told: iset<(int, string)>)
    requires Inv(s) && Run(s, es, t) && Cached(s.reg, f, told)
    ensures NamedBeforeLocated(s, es, f, told)
    decreases |es|
  {
    if es != [] {
      StepNames(s, es[0], f, told);
      StepKeepsInv(s, es[0]);
      RunNames(Step(s, es[0]), es[1..], t, f, told + Members(NamesIn(s, es[0], f)));
    }
  }

  /** Over every run from boot, while ids fit, the data manager never hands out for a client the position of somebody
      whose current name it has not handed out for that client. */
  lemma NobodyIsHandedOutUnnamed(es: seq<Event>, t: Sys, f: int)
    requires Run(BOOT, es, t)
    ensures NamedBeforeLocated(BOOT, es, f, iset{})
  {
    EmptyIsConsistent();
    assert Inv(BOOT);
    RunNames(BOOT, es, t, f, iset{});
  }
}
