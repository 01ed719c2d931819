/** A run in which a client is sent the position of somebody whose current name it is never sent: a
    session is destroyed with NEW_FOLLOWED in its queue. */
module LostName {
  import opened Common
  import opened Registry
  import opened RegistryLaws
  import opened Sessions
  import opened NamesFirst
  import opened Outgoing
  import Watchers

  const FIRST := Position(0.0, 0.0, 5)
  const SECOND := Position(0.0, 0.0, 6)

  /** A client that follows itself. */
  function Self(name: string, positions: seq<Position>, w: Watcher): ClientData {
    ClientData([1], name, positions, [1], [w])
  }

  function OnlySelf(name: string, positions: seq<Position>, w: Watcher, queues: map<int, Queue>, inbox: map<Queue,
                    nat>): Registry {
    var key: seq<Byte> := [1];
    Registry(2, map[key := 1], map[name := 1], map[1 := Self(name, positions, w)], queues, inbox)
  }

  /** The names and positions of an only client, fetched by itself. */
  lemma FetchOfOne(r: Registry, name: string, positions: seq<Position>, w: Watcher)
    requires r.data == map[1 := Self(name, positions, w)] && w.id == 1
    ensures Known(r.data[1].following, r.data)
    ensures Fetch(r, 1).0.data == map[1 := Self(name, positions, Watchers.Fetched(w, r.data[1]))]
    ensures Fetch(r, 1).0 == r.(data := Fetch(r, 1).0.data)
    ensures Fetch(r, 1).1 == if NameNews(w, r.data[1]) then [(1, name)] else []
    ensures Fetch(r, 1).2 == Tag(1, Emitted(w, r.data[1]))
  {
    NamesOfOne(r, name, positions, w);
    var r1 := GetNewNames(r, 1).0;
    PositionsOfOne(r1, name, positions, Renamed(w, r.data[1]));
  }

  lemma NamesOfOne(r: Registry, name: string, positions: seq<Position>, w: Watcher)
    requires r.data == map[1 := Self(name, positions, w)] && w.id == 1
    ensures Known(r.data[1].following, r.data)
    ensures GetNewNames(r, 1).0 == r.(data := map[1 := Self(name, positions, Renamed(w, r.data[1]))])
    ensures GetNewNames(r, 1).1 == if NameNews(w, r.data[1]) then [(1, name)] else []
  {
    var w1 := Renamed(w, r.data[1]);
    assert RenamedAll([w], r.data) == [w1];
    assert NamesFor([w], r.data) == (if NameNews(w, r.data[1]) then [(1, name)] else []) + NamesFor([], r.data);
    assert GetNewNames(r, 1).0.data == map[1 := Self(name, positions, w1)];
  }

  lemma PositionsOfOne(r: Registry, name: string, positions: seq<Position>, w: Watcher)
    requires r.data == map[1 := Self(name, positions, w)] && w.id == 1
    ensures Known(r.data[1].following, r.data)
    ensures GetNewPositions(r, 1).0 == r.(data := map[1 := Self(name, positions, Advanced(w, r.data[1]))])
    ensures GetNewPositions(r, 1).1 == Tag(1, Emitted(w, r.data[1]))
  {
    var w1 := Advanced(w, r.data[1]);
    assert AdvancedAll([w], r.data) == [w1];
    PositionsForOne(w, r.data);
    assert GetNewPositions(r, 1).0.data == map[1 := Self(name, positions, w1)];
  }

  lemma PositionsForOne(w: Watcher, data: Clients)
    requires w.id in data
    ensures Known([w], data) && PositionsFor([w], data) == Tag(w.id, Emitted(w, data[w.id]))
  {
    assert PositionsFor([w], data) == Tag(w.id, Emitted(w, data[w.id])) + PositionsFor([], data);
  }

  lemma UpdateOfOne(s: Sys, q: Queue, name: string, positions: seq<Position>, w: Watcher)
    requires Possible(s, Update(q)) && s.sessions[q] == 1 && w.id == 1
    requires s.reg.data == map[1 := Self(name, positions, w)]
    ensures Step(s, Update(q)) == s.(
      reg := s.reg.(data := map[1 := Self(name, positions, Watchers.Fetched(w, s.reg.data[1]))],
                    inbox := s.reg.inbox[q := s.reg.inbox[q] - 1]),
      synced := s.synced + {1})
    ensures NamesIn(s, Update(q), 1) == if NameNews(w, s.reg.data[1]) then [(1, name)] else []
    ensures PositionsIn(s, Update(q), 1) == Tag(1, Emitted(w, s.reg.data[1]))
  {
    FetchOfOne(TakeUpdate(s.reg, q), name, positions, w);
  }

  // ---- the run ---------------------------------------------------------------------------------------------

  function LostSys(k: nat): Sys {
    match k
    case 0 => Sys(OnlySelf("a", [FIRST], Watcher(1, 0, ""), map[1 := 0], map[0 := 2]), map[0 := 1], {1})
    case 1 => Sys(OnlySelf("a", [FIRST], Watcher(1, 5, "a"), map[1 := 0], map[0 := 1]), map[0 := 1], {1})
    case 2 => Sys(OnlySelf("b", [FIRST], Watcher(1, 5, "a"), map[1 := 0], map[0 := 2]), map[0 := 1], {1})
    case 3 => Sys(OnlySelf("b", [FIRST], Watcher(1, 5, "b"), map[1 := 0], map[0 := 1]), map[0 := 1], {1})
    case 4 => Sys(OnlySelf("b", [FIRST], Watcher(1, 5, "b"), map[], map[0 := 1]), map[], {})
    case 5 => Sys(OnlySelf("b", [FIRST], Watcher(1, 5, "b"), map[], map[0 := 1, 1 := 0]), map[1 := 0], {})
    case 6 => Sys(OnlySelf("b", [FIRST], Watcher(1, 5, "b"), map[1 := 1], map[0 := 1, 1 := 0]), map[1 := 1], {1})
    case 7 =>
      Sys(OnlySelf("b", [FIRST, SECOND], Watcher(1, 5, "b"), map[1 := 1], map[0 := 1, 1 := 1]), map[1 := 1], {1})
    case _ =>
      Sys(OnlySelf("b", [FIRST, SECOND], Watcher(1, 6, "b"), map[1 := 1], map[0 := 1, 1 := 0]), map[1 := 1], {1})
  }

  function LostEvents(): seq<Event> {
    [Update(0), Name(0, "b"), Update(0), Destroy(0), Open(1), Complete(1, [1]), Locate(1, 0.0, 0.0, 6), Update(1)]
  }

  /** Event k is an `Update` of the only client. */
  lemma FetchStep(k: nat, name: string, positions: seq<Position>, w: Watcher, w': Watcher)
    requires k < 8 && LostEvents()[k].Update? && Possible(LostSys(k), LostEvents()[k])
    requires LostSys(k).sessions[LostEvents()[k].q] == 1 && LostSys(k).synced == {1}
    requires LostSys(k).reg.data == map[1 := Self(name, positions, w)] && w.id == 1
    requires w' == Watchers.Fetched(w, Self(name, positions, w))
    requires LostSys(k + 1) == LostSys(k).(reg := LostSys(k).reg.(
      data := map[1 := Self(name, positions, w')],
      inbox := LostSys(k).reg.inbox[LostEvents()[k].q := LostSys(k).reg.inbox[LostEvents()[k].q] - 1]))
    ensures Step(LostSys(k), LostEvents()[k]) == LostSys(k + 1)
    ensures NamesIn(LostSys(k), LostEvents()[k], 1) == if name != "" && name != w.name then [(1, name)] else []
    ensures PositionsIn(LostSys(k), LostEvents()[k], 1) == Tag(1, Emitted(w, Self(name, positions, w)))
  {
    UpdateOfOne(LostSys(k), LostEvents()[k].q, name, positions, w);
    assert {1} + {1} == {1};
  }

  lemma FirstFetch()
    ensures var s, e := LostSys(0), LostEvents()[0];
      && Possible(s, e) && Step(s, e) == LostSys(1)
      && NamesIn(s, e, 1) == [(1, "a")] && PositionsIn(s, e, 1) == [(1, FIRST)]
  {
    FetchStep(0, "a", [FIRST], Watcher(1, 0, ""), Watcher(1, 5, "a"));
  }

  lemma SecondFetch()
    ensures var s, e := LostSys(2), LostEvents()[2];
      && Possible(s, e) && Step(s, e) == LostSys(3)
      && NamesIn(s, e, 1) == [(1, "b")] && PositionsIn(s, e, 1) == []
  {
    FetchStep(2, "b", [FIRST], Watcher(1, 5, "a"), Watcher(1, 5, "b"));
  }

  lemma LastFetch()
    ensures var s, e := LostSys(7), LostEvents()[7];
      && Possible(s, e) && Step(s, e) == LostSys(8)
      && NamesIn(s, e, 1) == [] && PositionsIn(s, e, 1) == [(1, SECOND), (1, SECOND), (1, SECOND)]
  {
    FetchStep(7, "b", [FIRST, SECOND], Watcher(1, 5, "b"), Watcher(1, 6, "b"));
  }

  lemma RenameStep()
    ensures Possible(LostSys(1), LostEvents()[1]) && Step(LostSys(1), LostEvents()[1]) == LostSys(2)
  {
    var s := LostSys(1);
    RenamedReg();
    NotifyOne(WithName(s.reg, 1, "b"), 1);
    assert Step(s, LostEvents()[1]) == s.(reg := Notify(WithName(s.reg, 1, "b"), 1));
  }

  lemma RenamedReg()
    ensures Notify(WithName(LostSys(1).reg, 1, "b"), 1) == LostSys(2).reg
  {
    var m := WithName(LostSys(1).reg, 1, "b");
    assert m.names == map["b" := 1];
    assert m.data == LostSys(2).reg.data;
    assert Notify(m, 1).inbox == LostSys(2).reg.inbox;
  }

  lemma NotifyOne(r: Registry, id: int)
    ensures NotifyAll(r, [id]) == Notify(r, id)
  {
    assert NotifyAll(r, [id]) == NotifyAll(Notify(r, id), []);
  }

  lemma LeaveAndReturnSteps(k: nat)
    requires 3 <= k < 6
    ensures var s, e := LostSys(k), LostEvents()[k];
      Possible(s, e) && Fits(s, e) && Step(s, e) == LostSys(k + 1)
  {
    SameSys(Step(LostSys(k), LostEvents()[k]), LostSys(k + 1));
  }

  lemma LocateStep()
    ensures Possible(LostSys(6), LostEvents()[6]) && Step(LostSys(6), LostEvents()[6]) == LostSys(7)
  {
    var s, t := LostSys(6), LostSys(7);
    var m := WithPosition(s.reg, 1, 0.0, 0.0, 6);
    NotifyOne(m, 1);
    assert m.data[1] == t.reg.data[1] by {
      assert [FIRST] + [SECOND] == [FIRST, SECOND];
    }
    assert Step(s, LostEvents()[6]).reg.data == m.data;
    SameSys(Step(s, LostEvents()[6]), t);
  }

  /** What waits and what was sent: (1, "b") is queued by the third event and dies with the fourth. */
  function LostNet(k: nat): Net {
    var log1 := [(1, Named(1, "a"))];
    var log3 := log1 + [(1, Located(1, FIRST, "a", true))];
    match k
    case 0 => Net(LostSys(0), map[0 := []], [])
    case 1 => Net(LostSys(1), map[0 := [Located(1, FIRST, "a", true)]], log1)
    case 2 => Net(LostSys(2), map[0 := [Located(1, FIRST, "a", true)]], log1)
    case 3 => Net(LostSys(3), map[0 := [Named(1, "b")]], log3)
    case 4 => Net(LostSys(4), map[], log3)
    case 5 => Net(LostSys(5), map[1 := []], log3)
    case 6 => Net(LostSys(6), map[1 := []], log3)
    case 7 => Net(LostSys(7), map[1 := []], log3)
    case _ =>
      var note := Located(1, SECOND, "b", false);
      Net(LostSys(8), map[1 := [note, note]], log3 + [(1, note)])
  }

  lemma LostMove(k: nat)
    requires k < 8
    ensures CanMove(LostNet(k), Handle(LostEvents()[k])) && Go(LostNet(k), Handle(LostEvents()[k])) == LostNet(k + 1)
  {
    if k == 0 {
      FirstFetchMove();
    } else if k == 2 {
      SecondFetchMove();
    } else if k == 7 {
      LastFetchMove();
    } else {
      OtherMove(k);
    }
  }

  lemma OtherMove(k: nat)
    requires k < 8 && k != 0 && k != 2 && k != 7
    ensures CanMove(LostNet(k), Handle(LostEvents()[k]))
    ensures Go(LostNet(k), Handle(LostEvents()[k])) == LostNet(k + 1)
  {
    if k == 1 {
      RenameStep();
      SendsNothing(k);
    } else if k == 6 {
      LocateStep();
      SendsNothing(k);
    } else {
      LeaveAndReturnMove(k);
    }
  }

  lemma SendsNothing(k: nat)
    requires k == 1 || k == 6
    requires Possible(LostSys(k), LostEvents()[k]) && Step(LostSys(k), LostEvents()[k]) == LostSys(k + 1)
    ensures CanMove(LostNet(k), Handle(LostEvents()[k]))
    ensures Go(LostNet(k), Handle(LostEvents()[k])) == LostNet(k + 1)
  {
  }

  lemma LeaveAndReturnMove(k: nat)
    requires 3 <= k < 6
    ensures CanMove(LostNet(k), Handle(LostEvents()[k]))
    ensures Go(LostNet(k), Handle(LostEvents()[k])) == LostNet(k + 1)
  {
    LeaveAndReturnSteps(k);
    assert Go(LostNet(k), Handle(LostEvents()[k])).remaining == LostNet(k + 1).remaining;
  }

  lemma FirstFetchMove()
    ensures CanMove(LostNet(0), Handle(LostEvents()[0])) && Go(LostNet(0), Handle(LostEvents()[0])) == LostNet(1)
  {
    FirstFetch();
    assert News(LostNet(0), 0) == [Named(1, "a"), Located(1, FIRST, "a", true)];
    FirstRelease(LostNet(0).(sys := LostSys(1)), News(LostNet(0), 0));
  }

  lemma SecondFetchMove()
    ensures CanMove(LostNet(2), Handle(LostEvents()[2])) && Go(LostNet(2), Handle(LostEvents()[2])) == LostNet(3)
  {
    SecondFetch();
    assert News(LostNet(2), 0) == [Named(1, "b")];
    SecondRelease(LostNet(2).(sys := LostSys(3)), News(LostNet(2), 0));
  }

  lemma LastFetchMove()
    ensures CanMove(LostNet(7), Handle(LostEvents()[7])) && Go(LostNet(7), Handle(LostEvents()[7])) == LostNet(8)
  {
    LastFetch();
    var note := Located(1, SECOND, "b", false);
    assert News(LostNet(7), 1) == [note, note, note];
    LastRelease(LostNet(7).(sys := LostSys(8)), News(LostNet(7), 1));
  }

  lemma FirstRelease(next: Net, news: seq<Note>)
    requires next == LostNet(0).(sys := LostSys(1)) && news == [Named(1, "a"), Located(1, FIRST, "a", true)]
    ensures Release(next, 0, [] + news) == LostNet(1)
  {
    assert ([] + news)[1..] == [Located(1, FIRST, "a", true)];
    assert Release(next, 0, [] + news).remaining == LostNet(1).remaining;
  }

  lemma SecondRelease(next: Net, news: seq<Note>)
    requires next == LostNet(2).(sys := LostSys(3)) && news == [Named(1, "b")]
    ensures Release(next, 0, [Located(1, FIRST, "a", true)] + news) == LostNet(3)
  {
    assert ([Located(1, FIRST, "a", true)] + news)[1..] == news;
    assert Release(next, 0, [Located(1, FIRST, "a", true)] + news).remaining == LostNet(3).remaining;
  }

  lemma LastRelease(next: Net, news: seq<Note>)
    requires next == LostNet(7).(sys := LostSys(8))
    requires news == [Located(1, SECOND, "b", false), Located(1, SECOND, "b", false), Located(1, SECOND, "b", false)]
    ensures Release(next, 1, [] + news) == LostNet(8)
  {
    assert ([] + news)[1..] == [Located(1, SECOND, "b", false), Located(1, SECOND, "b", false)];
    assert Release(next, 1, [] + news).remaining == LostNet(8).remaining;
  }

  // ---- from boot ---------------------------------------------------------------------------------------------

  ghost predicate NetReached(net: Net) {
    exists ms :: NetRun(START, ms, net)
  }

  lemma {:induction false} NetRunGoesOn(net: Net, ms: seq<Move>, t: Net, m: Move)
    requires NetRun(net, ms, t) && CanMove(t, m)
    ensures NetRun(net, ms + [m], Go(t, m))
    decreases |ms|
  {
    if ms == [] {
      assert ([] + [m])[1..] == [];
    } else {
      assert (ms + [m])[1..] == ms[1..] + [m];
      NetRunGoesOn(Go(net, ms[0]), ms[1..], t, m);
    }
  }

  lemma NetGoes(net: Net, m: Move)
    requires NetReached(net) && CanMove(net, m)
    ensures NetReached(Go(net, m))
  {
    var ms :| NetRun(START, ms, net);
    NetRunGoesOn(START, ms, net, m);
  }

  function FirstNet(k: nat): Net {
    Net(ComingBackState(k), if k == 0 then map[] else map[0 := []], [])
  }

  lemma FirstMove(k: nat)
    requires k < 4
    ensures CanMove(FirstNet(k), Handle(ComingBack()[k])) && Go(FirstNet(k), Handle(ComingBack()[k])) == FirstNet(k + 1)
  {
    ComingBackStep(k);
    assert Go(FirstNet(k), Handle(ComingBack()[k])).remaining == FirstNet(k + 1).remaining;
  }

  lemma FirstLocation()
    ensures var e := Locate(0, 0.0, 0.0, 5);
      CanMove(FirstNet(4), Handle(e)) && Go(FirstNet(4), Handle(e)) == LostNet(0)
  {
    var s, e := ComingBackState(4), Locate(0, 0.0, 0.0, 5);
    var m := WithPosition(s.reg, 1, 0.0, 0.0, 5);
    NotifyOne(m, 1);
    assert m.data[1] == LostSys(0).reg.data[1] by {
      assert [] + [FIRST] == [FIRST];
    }
    assert Step(s, e).reg.data == m.data;
    SameSys(Step(s, e), LostSys(0));
  }

  lemma LostNetIsReached()
    ensures NetReached(LostNet(8))
  {
    assert NetRun(START, [], START) && START == FirstNet(0);
    for k := 0 to 4
      invariant NetReached(FirstNet(k))
    {
      FirstMove(k);
      NetGoes(FirstNet(k), Handle(ComingBack()[k]));
    }
    FirstLocation();
    NetGoes(FirstNet(4), Handle(Locate(0, 0.0, 0.0, 5)));
    for k := 0 to 8
      invariant NetReached(LostNet(k))
    {
      LostMove(k);
      NetGoes(LostNet(k), Handle(LostEvents()[k]));
    }
  }

  /** Somebody's position has been sent to client 1, and its name at that time neither was nor waits to
      be; what loses the name is the destruction of the session in which it waits. */
  lemma NameIsLost() returns (net: Net)
    ensures NetReached(net) && (1, Located(1, SECOND, "b", false)) in net.log && !OnRecord(net, 1, (1, "b"))
    ensures CanMove(LostNet(3), Handle(Destroy(0))) && LosesName(LostNet(3), Handle(Destroy(0)), 1)
  {
    net := LostNet(8);
    LostNetIsReached();
    PositionIsSent();
    NameIsNotOnRecord();
    DestructionLosesName();
  }

  lemma PositionIsSent()
    ensures (1, Located(1, SECOND, "b", false)) in LostNet(8).log
  {
    assert LostNet(8).log[2] == (1, Located(1, SECOND, "b", false));
  }

  lemma DestructionLosesName()
    ensures CanMove(LostNet(3), Handle(Destroy(0))) && LosesName(LostNet(3), Handle(Destroy(0)), 1)
  {
    LostMove(3);
    var before := LostNet(3);
    var w := before.sys.reg.data[1].following[0];
    assert w == Watcher(1, 5, "b") && Holds(Waiting(before, 0), (1, "b"));
    assert (1, "b") in LeftBehind(before, Handle(Destroy(0)), 1);
  }

  lemma NameIsNotOnRecord()
    ensures !OnRecord(LostNet(8), 1, (1, "b")) && Possible(LostSys(3), Destroy(0))
  {
  }
}
