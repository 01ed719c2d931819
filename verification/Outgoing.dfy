/** What is really sent to a client.  One packet leaves for each `Update` or `PacketSend` message; the
    rest waits in the session and dies with it, while the data manager takes the names it has handed
    out for known. */
module Outgoing {
  import opened Common
  import opened Registry
  import opened RegistryLaws
  import opened Sessions
  import opened NamesFirst
  import opened Packets
  import Protocol

  /** A packet for a client: somebody's name, or a position together with the name that its owner bore
      when it was fetched.  `named` records whether that name had been sent to the client then, waited
      in the session, or was news to some watcher. */
  datatype Note = Named(who: int, name: string) | Located(who: int, at: Position, called: string, named: bool)

  /** `remaining` is the queue of each session; `log` is what was passed to `sendPacket`, with the id of
      the client it was for. */
  datatype Net = Net(sys: Sys, remaining: map<Queue, seq<Note>>, log: seq<(int, Note)>)

  const START := Net(BOOT, map[], [])

  datatype Move = Handle(e: Event) | PacketSent(q: Queue)

  predicate CanMove(net: Net, m: Move) {
    match m
    case Handle(e) => Possible(net.sys, e) && Fits(net.sys, e)
    case PacketSent(q) => q in net.sys.sessions
  }

  function Names(names: seq<(int, string)>): (notes: seq<Note>)
    ensures |notes| == |names| && forall i :: 0 <= i < |names| ==> notes[i] == Named(names[i].0, names[i].1)
  {
    seq(|names|, i requires 0 <= i < |names| => Named(names[i].0, names[i].1))
  }

  function NameOf(data: Clients, a: int): string {
    if a in data then data[a].name else ""
  }

  function Positions(positions: seq<(int, Position)>, data: Clients, named: set<int>): (notes: seq<Note>)
    ensures |notes| == |positions|
    ensures forall i :: 0 <= i < |positions| ==>
      notes[i] == Located(positions[i].0, positions[i].1, NameOf(data, positions[i].0), positions[i].0 in named)
  {
    seq(|positions|, i requires 0 <= i < |positions| =>
      Located(positions[i].0, positions[i].1, NameOf(data, positions[i].0), positions[i].0 in named))
  }

  /** The name of `a` was sent to the client of session q, waits in the session, or is news to one of
      the client's watchers for `a`: something that can be told before an `Update`. */
  ghost predicate GoesNamed(net: Net, q: Queue, a: int)
    requires q in net.sys.sessions
  {
    var f, x := net.sys.sessions[q], (a, NameOf(net.sys.reg.data, a));
    || SentName(net.log, f, x) || Holds(Waiting(net, q), x)
    || (f in net.sys.reg.data && exists w :: w in net.sys.reg.data[f].following && w.id == a && w.name != x.1)
  }

  /** What `update` queues: names, then positions. */
  ghost function News(net: Net, q: Queue): seq<Note>
    requires Possible(net.sys, Update(q))
  {
    var s, f := net.sys, net.sys.sessions[q];
    var named := set a | a in s.reg.data && GoesNamed(net, q, a);
    Names(NamesIn(s, Update(q), f)) + Positions(PositionsIn(s, Update(q), f), s.reg.data, named)
  }

  /** `sendRemainingData` with `notes` in the queue of session q. */
  function Release(net: Net, q: Queue, notes: seq<Note>): Net
    requires q in net.sys.sessions
  {
    if notes == [] then net.(remaining := net.remaining[q := []])
    else net.(remaining := net.remaining[q := notes[1..]], log := net.log + [(net.sys.sessions[q], notes[0])])
  }

  function Waiting(net: Net, q: Queue): seq<Note> {
    if q in net.remaining then net.remaining[q] else []
  }

  ghost function Go(net: Net, m: Move): Net
    requires CanMove(net, m)
  {
    match m
    case PacketSent(q) => Release(net, q, Waiting(net, q))
    case Handle(e) =>
      var next := net.(sys := Step(net.sys, e));
      match e
      case Open(q) => next.(remaining := net.remaining[q := []])
      case Destroy(q) => next.(remaining := net.remaining - {q})
      case Update(q) => Release(next, q, Waiting(net, q) + News(net, q))
      case _ => next
  }

  ghost predicate NetRun(net: Net, ms: seq<Move>, t: Net)
    decreases |ms|
  {
    if ms == [] then net == t else CanMove(net, ms[0]) && NetRun(Go(net, ms[0]), ms[1..], t)
  }

  ghost predicate NetInv(net: Net) {
    Inv(net.sys) && QueuesOk(net.sys.sessions, net.remaining)
  }

  /** Every session has a queue, empty before it has registered. */
  ghost predicate QueuesOk(sessions: map<Queue, int>, remaining: map<Queue, seq<Note>>) {
    && (forall q :: q in remaining <==> q in sessions)
    && forall q :: q in sessions && sessions[q] == 0 ==> remaining[q] == []
  }

  lemma GoKeepsInv(net: Net, m: Move)
    requires NetInv(net) && CanMove(net, m)
    ensures NetInv(Go(net, m))
  {
    if m.Handle? {
      StepKeepsInv(net.sys, m.e);
      HandlingKeepsQueues(net, m.e);
    }
  }

  lemma SessionsAfter(s: Sys, e: Event)
    requires Possible(s, e)
    ensures match e
      case Open(q) => Step(s, e).sessions == s.sessions[q := 0]
      case Complete(q, _) => Step(s, e).sessions == s.sessions[q := Step(s, e).sessions[q]]
      case Destroy(q) => Step(s, e).sessions == s.sessions - {q}
      case _ => Step(s, e).sessions == s.sessions
  {
  }

  lemma QueuesAfter(net: Net, e: Event)
    requires CanMove(net, Handle(e))
    ensures var t := Go(net, Handle(e));
      match e
      case Open(q) => t.remaining == net.remaining[q := []]
      case Destroy(q) => t.remaining == net.remaining - {q}
      case Update(q) => t.remaining == net.remaining[q := Waiting(t, q)]
      case _ => t.remaining == net.remaining
    ensures Go(net, Handle(e)).sys == Step(net.sys, e)
  {
  }

  lemma HandlingKeepsQueues(net: Net, e: Event)
    requires CanMove(net, Handle(e)) && QueuesOk(net.sys.sessions, net.remaining)
    ensures QueuesOk(Go(net, Handle(e)).sys.sessions, Go(net, Handle(e)).remaining)
  {
    SessionsAfter(net.sys, e);
    QueuesAfter(net, e);
  }

  // ---- one session is a ProtocolClient ---------------------------------------------------------------

  function ContentOf(n: Note, codec: Codec): Content {
    match n
    case Named(who, name) => Content(NEW_FOLLOWED, codec.name(who, name))
    case Located(who, at, _, _) => Content(LOCATION, codec.position(who, at))
  }

  function AllBytes(notes: seq<Note>, codec: Codec): (bytes: seq<Content>)
    ensures |bytes| == |notes| && forall i :: 0 <= i < |notes| ==> bytes[i] == ContentOf(notes[i], codec)
  {
    seq(|notes|, i requires 0 <= i < |notes| => ContentOf(notes[i], codec))
  }

  /** `t` has sent what server `u` has sent, after `net` and `server`, and has the same left to send. */
  ghost predicate SendsAlike(net: Net, server: Protocol.Server, q: Queue, t: Net, u: Protocol.Server, codec: Codec)
    requires q in net.sys.sessions
  {
    && u.remaining == AllBytes(Waiting(t, q), codec)
    && |net.log| <= |t.log| && |t.log| - |net.log| == |u.outbox| - |server.outbox|
    && forall k :: |net.log| <= k < |t.log| ==>
         && t.log[k].0 == net.sys.sessions[q]
         && u.outbox[|server.outbox| + k - |net.log|].content == ContentOf(t.log[k].1, codec)
  }

  lemma ReleaseIsSending(net: Net, q: Queue, notes: seq<Note>, server: Protocol.Server, codec: Codec)
    requires q in net.sys.sessions && server.remaining == AllBytes(notes, codec)
    ensures SendsAlike(net, server, q, Release(net, q, notes), Protocol.SendRemainingData(server), codec)
  {
    if notes != [] {
      assert server.remaining[1..] == AllBytes(notes[1..], codec);
    }
  }

  /** The queue of session q and what it sends are those of a server in StableCommunication that
      handles the same `Update`. */
  lemma SessionIsProtocolClient(net: Net, q: Queue, server: Protocol.Server, codec: Codec)
    requires CanMove(net, Handle(Update(q)))
    requires server.stage == Protocol.StableCommunication && server.remaining == AllBytes(Waiting(net, q), codec)
    ensures var f := net.sys.sessions[q];
      var packets := NewsPackets(NamesIn(net.sys, Update(q), f), PositionsIn(net.sys, Update(q), f), codec);
      SendsAlike(net, server, q, Go(net, Handle(Update(q))), Protocol.UpdateStep(server, packets), codec)
  {
    var f := net.sys.sessions[q];
    var packets := NewsPackets(NamesIn(net.sys, Update(q), f), PositionsIn(net.sys, Update(q), f), codec);
    var all := Waiting(net, q) + News(net, q);
    NewsAreBytes(net, q, codec);
    var queued := server.(remaining := server.remaining + packets);
    AllBytesAppend(Waiting(net, q), News(net, q), codec);
    var next := net.(sys := Step(net.sys, Update(q)));
    assert next.sys.sessions == net.sys.sessions by {
      SessionsAfter(net.sys, Update(q));
    }
    ReleaseIsSending(next, q, all, queued, codec);
    assert Protocol.UpdateStep(server, packets) == Protocol.SendRemainingData(queued);
    assert Go(net, Handle(Update(q))) == Release(next, q, all);
  }

  lemma NewsAreBytes(net: Net, q: Queue, codec: Codec)
    requires Possible(net.sys, Update(q))
    ensures var s, f := net.sys, net.sys.sessions[q];
      NewsPackets(NamesIn(s, Update(q), f), PositionsIn(s, Update(q), f), codec) == AllBytes(News(net, q), codec)
  {
    var s, f := net.sys, net.sys.sessions[q];
    var names, positions := NamesIn(s, Update(q), f), PositionsIn(s, Update(q), f);
    var named := set a | a in s.reg.data && GoesNamed(net, q, a);
    NamesAreBytes(names, codec);
    PositionsAreBytes(positions, s.reg.data, named, codec);
    AllBytesAppend(Names(names), Positions(positions, s.reg.data, named), codec);
  }

  lemma NamesAreBytes(names: seq<(int, string)>, codec: Codec)
    ensures NamePackets(names, codec) == AllBytes(Names(names), codec)
  {
  }

  lemma PositionsAreBytes(positions: seq<(int, Position)>, data: Clients, named: set<int>, codec: Codec)
    ensures PositionPackets(positions, codec) == AllBytes(Positions(positions, data, named), codec)
  {
  }

  lemma AllBytesAppend(a: seq<Note>, b: seq<Note>, codec: Codec)
    ensures AllBytes(a + b, codec) == AllBytes(a, codec) + AllBytes(b, codec)
  {
  }

  // ---- names on record ---------------------------------------------------------------------------------

  predicate SentName(log: seq<(int, Note)>, f: int, x: (int, string)) {
    (f, Named(x.0, x.1)) in log
  }

  predicate Holds(notes: seq<Note>, x: (int, string)) {
    Named(x.0, x.1) in notes
  }

  /** A session of `f` other than q has the name in its queue. */
  ghost predicate WaitsBeside(net: Net, q: Queue, f: int, x: (int, string)) {
    exists p :: p != q && p in net.sys.sessions && net.sys.sessions[p] == f && Holds(Waiting(net, p), x)
  }

  /** The names that were sent to `f` or wait to be sent to it. */
  ghost predicate OnRecord(net: Net, f: int, x: (int, string)) {
    || SentName(net.log, f, x)
    || exists p :: p in net.sys.sessions && net.sys.sessions[p] == f && Holds(Waiting(net, p), x)
  }

  /** The names on record, or astray. */
  ghost function Record(net: Net, f: int, astray: iset<(int, string)>): iset<(int, string)> {
    iset x | OnRecord(net, f, x) || x in astray
  }

  /** What a move leaves behind: a destruction, the names that waited in the session and nowhere else; an
      `Update`, the names that wait in another session of the same client only. */
  ghost function LeftBehind(net: Net, m: Move, f: int): iset<(int, string)>
    requires CanMove(net, m)
  {
    if m.Handle? && m.e.Destroy? && net.sys.sessions[m.e.q] == f then
      iset x | Holds(Waiting(net, m.e.q), x) && !SentName(net.log, f, x) && !WaitsBeside(net, m.e.q, f, x)
    else if m.Handle? && m.e.Update? && net.sys.sessions[m.e.q] == f then
      iset x | WaitsBeside(net, m.e.q, f, x) && !SentName(net.log, f, x) && !Holds(Waiting(net, m.e.q), x)
    else iset{}
  }

  // ---- the order of what is sent -------------------------------------------------------------------------

  /** Each position in the log came after its name, or the name went astray. */
  ghost predicate LogOrdered(log: seq<(int, Note)>, f: int, astray: iset<(int, string)>) {
    forall k :: 0 <= k < |log| && log[k].0 == f && log[k].1.Located? ==>
      SentName(log[..k], f, (log[k].1.who, log[k].1.called)) || (log[k].1.who, log[k].1.called) in astray
  }

  /** Each position in a queue of `f` will come after its name. */
  ghost predicate QueueOrdered(log: seq<(int, Note)>, notes: seq<Note>, f: int, astray: iset<(int, string)>) {
    forall k :: 0 <= k < |notes| && notes[k].Located? ==>
      var x := (notes[k].who, notes[k].called);
      SentName(log, f, x) || Holds(notes[..k], x) || x in astray
  }

  ghost predicate Ordered(net: Net, f: int, astray: iset<(int, string)>) {
    && LogOrdered(net.log, f, astray)
    && (forall q :: q in net.sys.sessions && net.sys.sessions[q] == f ==>
          QueueOrdered(net.log, Waiting(net, q), f, astray))
    && Cached(net.sys.reg, f, Record(net, f, astray))
  }

  /** Sending the first note keeps the order, in the log and in the queue. */
  lemma ReleaseKeepsOrder(log: seq<(int, Note)>, notes: seq<Note>, f: int, astray: iset<(int, string)>)
    requires LogOrdered(log, f, astray) && QueueOrdered(log, notes, f, astray) && notes != []
    ensures LogOrdered(log + [(f, notes[0])], f, astray)
    ensures QueueOrdered(log + [(f, notes[0])], notes[1..], f, astray)
  {
    var log' := log + [(f, notes[0])];
    forall k | 0 <= k < |log'| && log'[k].0 == f && log'[k].1.Located?
      ensures SentName(log'[..k], f, (log'[k].1.who, log'[k].1.called)) || (log'[k].1.who, log'[k].1.called) in astray
    {
      assert log'[..k] == log[..k];
      assert k == |log| ==> log[..k] == log && notes[..0] == [];
    }
    forall k | 0 <= k < |notes[1..]| && notes[1..][k].Located?
      ensures var x := (notes[1..][k].who, notes[1..][k].called);
        SentName(log', f, x) || Holds(notes[1..][..k], x) || x in astray
    {
      assert notes[1..][k] == notes[k + 1];
      assert notes[..k + 1] == [notes[0]] + notes[1..][..k];
      assert log'[|log|] == (f, notes[0]);
    }
  }

  /** What is sent to somebody else, or on record more than before, does not matter. */
  lemma OthersKeepOrder(log: seq<(int, Note)>, entry: (int, Note), notes: seq<Note>, f: int,
                        astray: iset<(int, string)>)
    requires LogOrdered(log, f, astray) && QueueOrdered(log, notes, f, astray)
    ensures entry.0 != f ==> LogOrdered(log + [entry], f, astray)
    ensures QueueOrdered(log + [entry], notes, f, astray)
  {
    var log' := log + [entry];
    forall k | entry.0 != f && 0 <= k < |log'| && log'[k].0 == f && log'[k].1.Located?
      ensures SentName(log'[..k], f, (log'[k].1.who, log'[k].1.called)) || (log'[k].1.who, log'[k].1.called) in astray
    {
      assert log'[..k] == log[..k];
    }
  }

  lemma MoreAstray(log: seq<(int, Note)>, notes: seq<Note>, f: int, astray: iset<(int, string)>,
                   more: iset<(int, string)>)
    requires LogOrdered(log, f, astray) && QueueOrdered(log, notes, f, astray) && astray <= more
    ensures LogOrdered(log, f, more) && QueueOrdered(log, notes, f, more)
  {
  }

  /** A queue stays ordered when positions are added whose names are sent, queued, astray, or added
      before them. */
  lemma NewsKeepOrder(net: Net, q: Queue, f: int, astray: iset<(int, string)>, told: iset<(int, string)>)
    requires Possible(net.sys, Update(q)) && f == net.sys.sessions[q]
    requires QueueOrdered(net.log, Waiting(net, q), f, astray)
    requires AllNamed(net.sys.reg, PositionsIn(net.sys, Update(q), f), told + Members(NamesIn(net.sys, Update(q), f)))
    requires forall x :: x in told ==> SentName(net.log, f, x) || Holds(Waiting(net, q), x) || x in astray
    ensures QueueOrdered(net.log, Waiting(net, q) + News(net, q), f, astray)
  {
    var before, notes := Waiting(net, q), Waiting(net, q) + News(net, q);
    forall k | 0 <= k < |notes| && notes[k].Located?
      ensures var x := (notes[k].who, notes[k].called);
        SentName(net.log, f, x) || Holds(notes[..k], x) || x in astray
    {
      var x := (notes[k].who, notes[k].called);
      if k < |before| {
        assert notes[..k] == before[..k];
      } else {
        NewPositionIsNamed(net, q, k, told);
        if Holds(before, x) {
          HeldBeforeMore(before, News(net, q), k, x);
        }
      }
    }
  }

  lemma NewPositionIsNamed(net: Net, q: Queue, k: nat, told: iset<(int, string)>)
    requires Possible(net.sys, Update(q)) && |Waiting(net, q)| <= k < |Waiting(net, q) + News(net, q)|
    requires var f := net.sys.sessions[q];
      AllNamed(net.sys.reg, PositionsIn(net.sys, Update(q), f), told + Members(NamesIn(net.sys, Update(q), f)))
    requires (Waiting(net, q) + News(net, q))[k].Located?
    ensures var n := (Waiting(net, q) + News(net, q))[k];
      (n.who, n.called) in told || Holds((Waiting(net, q) + News(net, q))[..k], (n.who, n.called))
  {
    var n := News(net, q)[k - |Waiting(net, q)|];
    NoteIsPosition(net, q, k - |Waiting(net, q)|);
    HeldBefore(net, q, k, (n.who, n.called));
    NameIsNotedIff(net, q, (n.who, n.called));
  }

  lemma HeldBeforeMore(a: seq<Note>, b: seq<Note>, k: nat, x: (int, string))
    requires |a| <= k <= |a + b| && Holds(a, x)
    ensures Holds((a + b)[..k], x)
  {
    var i :| 0 <= i < |a| && a[i] == Named(x.0, x.1);
    assert (a + b)[..k][i] == a[i];
  }

  /** A position among the news was handed out, and is called what its owner is called. */
  lemma NoteIsPosition(net: Net, q: Queue, i: nat)
    requires Possible(net.sys, Update(q)) && i < |News(net, q)| && News(net, q)[i].Located?
    ensures var n := News(net, q)[i];
      && i >= |NamesIn(net.sys, Update(q), net.sys.sessions[q])|
      && (n.who, n.at) in PositionsIn(net.sys, Update(q), net.sys.sessions[q])
      && n.called == NameOf(net.sys.reg.data, n.who)
      && (n.who in net.sys.reg.data ==> (n.named <==> GoesNamed(net, q, n.who)))
  {
    var names := NamesIn(net.sys, Update(q), net.sys.sessions[q]);
    var positions := PositionsIn(net.sys, Update(q), net.sys.sessions[q]);
    assert i >= |names|;
    assert positions[i - |names|] in positions;
  }

  /** All names in the queue and among the news stand before the new positions. */
  lemma HeldBefore(net: Net, q: Queue, k: nat, x: (int, string))
    requires Possible(net.sys, Update(q))
    requires |Waiting(net, q)| + |NamesIn(net.sys, Update(q), net.sys.sessions[q])| <= k
    requires k <= |Waiting(net, q) + News(net, q)|
    ensures Holds((Waiting(net, q) + News(net, q))[..k], x) <==> Holds(Waiting(net, q), x) || Holds(News(net, q), x)
  {
    var w, news := Waiting(net, q), News(net, q);
    NamesStandFirst(w, news, |NamesIn(net.sys, Update(q), net.sys.sessions[q])|, k, x);
  }

  lemma NamesStandFirst(w: seq<Note>, news: seq<Note>, n: nat, k: nat, x: (int, string))
    requires |w| + n <= k <= |w + news| && forall j :: n <= j < |news| ==> news[j].Located?
    ensures Holds((w + news)[..k], x) <==> Holds(w, x) || Holds(news, x)
  {
    assert (w + news)[..k] == w + news[..k - |w|];
    if Holds(news, x) {
      var j :| 0 <= j < |news| && news[j] == Named(x.0, x.1);
      assert news[..k - |w|][j] == news[j];
    }
  }

  // ---- every move keeps the order --------------------------------------------------------------------------

  /** More names on record are as good. */
  lemma CachedByMore(r: Registry, f: int, told: iset<(int, string)>, more: iset<(int, string)>)
    requires Cached(r, f, told) && forall x :: x in told ==> x in more
    ensures Cached(r, f, more)
  {
  }

  lemma ReleasedIsRecorded(net: Net, q: Queue, notes: seq<Note>, f: int, x: (int, string))
    requires q in net.sys.sessions && net.sys.sessions[q] == f && Holds(notes, x)
    ensures OnRecord(Release(net, q, notes), f, x)
  {
    var t := Release(net, q, notes);
    var i :| 0 <= i < |notes| && notes[i] == Named(x.0, x.1);
    if i == 0 {
      assert t.log[|net.log|] == (f, notes[0]);
    } else {
      assert t.remaining[q][i - 1] == notes[i];
      assert Holds(Waiting(t, q), x);
    }
  }

  /** No move but a destruction takes a name off the record. */
  lemma RecordGrows(net: Net, m: Move, f: int, x: (int, string))
    requires NetInv(net) && CanMove(net, m) && OnRecord(net, f, x)
    requires m.Handle? && m.e.Destroy? && net.sys.sessions[m.e.q] == f ==>
      SentName(net.log, f, x) || WaitsBeside(net, m.e.q, f, x)
    ensures OnRecord(Go(net, m), f, x)
  {
    var t := Go(net, m);
    if SentName(net.log, f, x) {
      assert net.log <= t.log;
    } else {
      var p :| p in net.sys.sessions && net.sys.sessions[p] == f && Holds(Waiting(net, p), x)
        && (m.Handle? && m.e.Destroy? ==> p != m.e.q);
      RecordOfOneGrows(net, m, f, x, p);
    }
  }

  lemma RecordOfOneGrows(net: Net, m: Move, f: int, x: (int, string), p: Queue)
    requires NetInv(net) && CanMove(net, m)
    requires p in net.sys.sessions && net.sys.sessions[p] == f && Holds(Waiting(net, p), x)
    requires m.Handle? && m.e.Destroy? ==> p != m.e.q
    ensures OnRecord(Go(net, m), f, x)
  {
    if m.PacketSent? && m.q == p {
      ReleasedIsRecorded(net, p, Waiting(net, p), f, x);
    } else if m.Handle? && m.e.Update? && m.e.q == p {
      UpdateRecords(net, p, x);
    } else {
      OthersKeepWaiting(net, m, p);
      assert Holds(Waiting(Go(net, m), p), x);
    }
  }

  lemma UpdateRecords(net: Net, q: Queue, x: (int, string))
    requires CanMove(net, Handle(Update(q))) && Holds(Waiting(net, q) + News(net, q), x)
    ensures OnRecord(Go(net, Handle(Update(q))), net.sys.sessions[q], x)
  {
    SessionsAfter(net.sys, Update(q));
    var next := net.(sys := Step(net.sys, Update(q)));
    ReleasedIsRecorded(next, q, Waiting(net, q) + News(net, q), net.sys.sessions[q], x);
  }

  /** A registered session that does not release and is not destroyed keeps id and queue. */
  lemma OthersKeepWaiting(net: Net, m: Move, p: Queue)
    requires NetInv(net) && CanMove(net, m) && p in net.sys.sessions && Waiting(net, p) != []
    requires m.PacketSent? ==> m.q != p
    requires m.Handle? && (m.e.Destroy? || m.e.Update?) ==> m.e.q != p
    ensures var t := Go(net, m);
      p in t.sys.sessions && t.sys.sessions[p] == net.sys.sessions[p] && Waiting(t, p) == Waiting(net, p)
  {
    if m.Handle? {
      SessionsAfter(net.sys, m.e);
      QueuesAfter(net, m.e);
    }
  }

  /** What an `Update` hands out is on record. */
  lemma NewNamesAreRecorded(net: Net, q: Queue, x: (int, string))
    requires NetInv(net) && CanMove(net, Handle(Update(q))) && x in NamesIn(net.sys, Update(q), net.sys.sessions[q])
    ensures OnRecord(Go(net, Handle(Update(q))), net.sys.sessions[q], x)
  {
    NameIsNotedIff(net, q, x);
    var notes := News(net, q);
    var j :| 0 <= j < |notes| && notes[j] == Named(x.0, x.1);
    assert (Waiting(net, q) + notes)[|Waiting(net, q)| + j] == notes[j];
    UpdateRecords(net, q, x);
  }

  lemma GoKeepsCached(net: Net, m: Move, f: int, astray: iset<(int, string)>)
    requires NetInv(net) && CanMove(net, m) && Cached(net.sys.reg, f, Record(net, f, astray))
    ensures Cached(Go(net, m).sys.reg, f, Record(Go(net, m), f, astray + LeftBehind(net, m, f)))
  {
    var t, more := Go(net, m), astray + LeftBehind(net, m, f);
    var told := Record(net, f, astray);
    forall x | x in told ensures x in Record(t, f, more) {
      if OnRecord(net, f, x) && x !in LeftBehind(net, m, f) {
        RecordGrows(net, m, f, x);
      }
    }
    if m.Handle? {
      StepNames(net.sys, m.e, f, told);
      var names := NamesIn(net.sys, m.e, f);
      forall x | x in names ensures x in Record(t, f, more) {
        NewNamesAreRecorded(net, m.e.q, x);
      }
      CachedByMore(t.sys.reg, f, told + Members(names), Record(t, f, more));
    } else {
      CachedByMore(t.sys.reg, f, told, Record(t, f, more));
    }
  }

  lemma GoKeepsLog(net: Net, m: Move, f: int, astray: iset<(int, string)>)
    requires NetInv(net) && CanMove(net, m) && Ordered(net, f, astray)
    ensures var t, more := Go(net, m), astray + LeftBehind(net, m, f);
      LogOrdered(t.log, f, more) &&
      forall q :: q in t.sys.sessions && t.sys.sessions[q] == f ==> QueueOrdered(t.log, Waiting(t, q), f, more)
  {
    var t, more := Go(net, m), astray + LeftBehind(net, m, f);
    LogKeepsOrder(net, m, f, astray, more);
    forall q | q in t.sys.sessions && t.sys.sessions[q] == f ensures QueueOrdered(t.log, Waiting(t, q), f, more) {
      QueueKeepsOrder(net, m, f, astray, more, q);
    }
  }

  /** The notes that the move has session q release from, if it does. */
  ghost function Released(net: Net, m: Move): (r: Option<(Queue, seq<Note>)>)
    requires CanMove(net, m)
  {
    if m.PacketSent? then Some((m.q, Waiting(net, m.q)))
    else if m.e.Update? then Some((m.e.q, Waiting(net, m.e.q) + News(net, m.e.q)))
    else None
  }

  lemma ReleasedIsOrdered(net: Net, m: Move, f: int, astray: iset<(int, string)>, more: iset<(int, string)>)
    requires NetInv(net) && CanMove(net, m) && Ordered(net, f, astray) && more == astray + LeftBehind(net, m, f)
    requires Released(net, m).Some? && net.sys.sessions[Released(net, m).value.0] == f
    ensures QueueOrdered(net.log, Released(net, m).value.1, f, more)
  {
    var q := Released(net, m).value.0;
    MoreAstray(net.log, Waiting(net, q), f, astray, more);
    if m.Handle? {
      var told := Record(net, f, astray);
      StepNames(net.sys, m.e, f, told);
      NewsKeepOrder(net, q, f, more, told);
    }
  }

  lemma LogKeepsOrder(net: Net, m: Move, f: int, astray: iset<(int, string)>, more: iset<(int, string)>)
    requires NetInv(net) && CanMove(net, m) && Ordered(net, f, astray) && more == astray + LeftBehind(net, m, f)
    ensures LogOrdered(Go(net, m).log, f, more)
  {
    var r := Released(net, m);
    MoreAstray(net.log, [], f, astray, more);
    if r.Some? && r.value.1 != [] {
      var g, notes := net.sys.sessions[r.value.0], r.value.1;
      assert Go(net, m).log == net.log + [(g, notes[0])];
      if g == f {
        ReleasedIsOrdered(net, m, f, astray, more);
        ReleaseKeepsOrder(net.log, notes, f, more);
      } else {
        OthersKeepOrder(net.log, (g, notes[0]), [], f, more);
      }
    }
  }

  lemma QueueKeepsOrder(net: Net, m: Move, f: int, astray: iset<(int, string)>, more: iset<(int, string)>, q: Queue)
    requires NetInv(net) && CanMove(net, m) && Ordered(net, f, astray) && more == astray + LeftBehind(net, m, f)
    requires q in Go(net, m).sys.sessions && Go(net, m).sys.sessions[q] == f
    ensures QueueOrdered(Go(net, m).log, Waiting(Go(net, m), q), f, more)
  {
    var t, r := Go(net, m), Released(net, m);
    MoreAstray(net.log, [], f, astray, more);
    if r.Some? && r.value.0 == q {
      ReleasedIsOrdered(net, m, f, astray, more);
      if r.value.1 != [] {
        ReleaseKeepsOrder(net.log, r.value.1, f, more);
      }
    } else {
      WaitingIsOrdered(net, m, f, astray, more, q);
      if r.Some? && r.value.1 != [] {
        OthersKeepOrder(net.log, (net.sys.sessions[r.value.0], r.value.1[0]), Waiting(t, q), f, more);
      }
    }
  }

  lemma WaitingIsOrdered(net: Net, m: Move, f: int, astray: iset<(int, string)>, more: iset<(int, string)>, q: Queue)
    requires NetInv(net) && CanMove(net, m) && Ordered(net, f, astray) && astray <= more
    requires q in Go(net, m).sys.sessions && Go(net, m).sys.sessions[q] == f
    requires Released(net, m).None? || Released(net, m).value.0 != q
    ensures QueueOrdered(net.log, Waiting(Go(net, m), q), f, more)
  {
    if m.Handle? {
      SessionsAfter(net.sys, m.e);
      QueuesAfter(net, m.e);
    }
    if q in net.sys.sessions && net.sys.sessions[q] == f && Waiting(Go(net, m), q) == Waiting(net, q) {
      MoreAstray(net.log, Waiting(net, q), f, astray, more);
    } else {
      assert Waiting(Go(net, m), q) == [];
    }
  }

  // ---- whole runs ------------------------------------------------------------------------------------------

  /** All that the moves of a run leave behind. */
  ghost function Astray(net: Net, ms: seq<Move>, f: int): iset<(int, string)>
    decreases |ms|
  {
    if ms == [] || !CanMove(net, ms[0]) then iset{}
    else LeftBehind(net, ms[0], f) + Astray(Go(net, ms[0]), ms[1..], f)
  }

  lemma {:induction false} RunKeepsOrder(net: Net, ms: seq<Move>, t: Net, f: int, astray: iset<(int, string)>)
    requires NetInv(net) && NetRun(net, ms, t) && Ordered(net, f, astray)
    ensures NetInv(t) && Ordered(t, f, astray + Astray(net, ms, f))
    decreases |ms|
  {
    if ms == [] {
      assert astray + iset{} == astray;
    } else {
      var next, left := Go(net, ms[0]), LeftBehind(net, ms[0], f);
      GoKeepsOrder(net, ms[0], f, astray);
      RunKeepsOrder(next, ms[1..], t, f, astray + left);
      AddingAstray(astray, left, Astray(next, ms[1..], f));
    }
  }

  lemma AddingAstray(a: iset<(int, string)>, b: iset<(int, string)>, c: iset<(int, string)>)
    ensures (a + b) + c == a + (b + c)
  {
  }

  lemma GoKeepsOrder(net: Net, m: Move, f: int, astray: iset<(int, string)>)
    requires NetInv(net) && CanMove(net, m) && Ordered(net, f, astray)
    ensures NetInv(Go(net, m)) && Ordered(Go(net, m), f, astray + LeftBehind(net, m, f))
  {
    GoKeepsInv(net, m);
    GoKeepsCached(net, m, f, astray);
    GoKeepsLog(net, m, f, astray);
  }

  /** Over every run from boot, while ids fit: whenever a position has been sent to a client, the name that its owner
      bore when it was fetched has been sent to the client before, unless that name was left behind, in
      the queue of a session that was destroyed or of a second session. */
  lemma LocatedWereNamed(ms: seq<Move>, t: Net, f: int, k: nat)
    requires NetRun(START, ms, t) && k < |t.log| && t.log[k].0 == f && t.log[k].1.Located?
    ensures (f, Named(t.log[k].1.who, t.log[k].1.called)) in t.log[..k]
         || (t.log[k].1.who, t.log[k].1.called) in Astray(START, ms, f)
  {
    StartIsOrdered(f);
    RunKeepsOrder(START, ms, t, f, iset{});
    assert iset{} + Astray(START, ms, f) == Astray(START, ms, f);
  }

  lemma StartIsOrdered(f: int)
    ensures NetInv(START) && Ordered(START, f, iset{})
  {
    EmptyIsConsistent();
    assert Inv(BOOT);
  }

  // ---- exactly when names are lost ---------------------------------------------------------------------------

  /** Every name that the data manager takes `f` to know was sent to it or waits to be sent. */
  ghost predicate Accounted(net: Net, f: int) {
    Cached(net.sys.reg, f, Record(net, f, iset{}))
  }

  /** A session of `f` is destroyed with a name in its queue that `f` is taken to know, that was never
      sent to `f`, and that no other session of `f` will send. */
  ghost predicate LosesName(net: Net, m: Move, f: int)
    requires CanMove(net, m)
  {
    && m.Handle? && m.e.Destroy? && net.sys.sessions[m.e.q] == f && f in net.sys.reg.data
    && exists w :: w in net.sys.reg.data[f].following && w.name != "" && (w.id, w.name) in LeftBehind(net, m, f)
  }

  /** A move keeps the names accounted for exactly when it is not such a destruction. */
  lemma GoKeepsAccountIff(net: Net, m: Move, f: int)
    requires NetInv(net) && CanMove(net, m) && Accounted(net, f)
    ensures Accounted(Go(net, m), f) <==> !LosesName(net, m, f)
  {
    var t := Go(net, m);
    if m.Handle? && m.e.Destroy? && net.sys.sessions[m.e.q] == f {
      assert t.sys.reg.data == net.sys.reg.data;
      if f in net.sys.reg.data {
        forall w | w in net.sys.reg.data[f].following && w.name != ""
          ensures OnRecord(t, f, (w.id, w.name)) <==> (w.id, w.name) !in LeftBehind(net, m, f)
        {
          assert (w.id, w.name) in Record(net, f, iset{});
          DestructionKeepsRecordIff(net, m.e.q, f, (w.id, w.name));
        }
      }
    } else {
      RecordSurvives(net, m, f);
    }
  }

  lemma DestructionKeepsRecordIff(net: Net, q: Queue, f: int, x: (int, string))
    requires NetInv(net) && CanMove(net, Handle(Destroy(q))) && net.sys.sessions[q] == f && OnRecord(net, f, x)
    ensures OnRecord(Go(net, Handle(Destroy(q))), f, x) <==> x !in LeftBehind(net, Handle(Destroy(q)), f)
  {
    var m := Handle(Destroy(q));
    var t := Go(net, m);
    if x !in LeftBehind(net, m, f) {
      RecordGrows(net, m, f, x);
    } else {
      forall p | p in t.sys.sessions && t.sys.sessions[p] == f ensures !Holds(Waiting(t, p), x) {
        assert p != q && Waiting(t, p) == Waiting(net, p);
      }
    }
  }

  lemma RecordSurvives(net: Net, m: Move, f: int)
    requires NetInv(net) && CanMove(net, m) && Accounted(net, f)
    requires !(m.Handle? && m.e.Destroy? && net.sys.sessions[m.e.q] == f)
    ensures Accounted(Go(net, m), f)
  {
    var t, told := Go(net, m), Record(net, f, iset{});
    forall x | x in told ensures x in Record(t, f, iset{}) {
      RecordGrows(net, m, f, x);
    }
    if m.Handle? {
      StepNames(net.sys, m.e, f, told);
      var names := NamesIn(net.sys, m.e, f);
      forall x | x in names ensures x in Record(t, f, iset{}) {
        NewNamesAreRecorded(net, m.e.q, x);
      }
      CachedByMore(t.sys.reg, f, told + Members(names), Record(t, f, iset{}));
    } else {
      CachedByMore(t.sys.reg, f, told, Record(t, f, iset{}));
    }
  }

  ghost predicate AccountedThroughout(net: Net, ms: seq<Move>, f: int)
    decreases |ms|
  {
    Accounted(net, f) && (ms != [] && CanMove(net, ms[0]) ==> AccountedThroughout(Go(net, ms[0]), ms[1..], f))
  }

  ghost predicate NeverLosesName(net: Net, ms: seq<Move>, f: int)
    decreases |ms|
  {
    ms != [] && CanMove(net, ms[0]) ==> !LosesName(net, ms[0], f) && NeverLosesName(Go(net, ms[0]), ms[1..], f)
  }

  lemma {:induction false} AccountedIffNeverLost(net: Net, ms: seq<Move>, t: Net, f: int)
    requires NetInv(net) && NetRun(net, ms, t) && Accounted(net, f)
    ensures AccountedThroughout(net, ms, f) <==> NeverLosesName(net, ms, f)
    decreases |ms|
  {
    if ms != [] {
      GoKeepsAccountIff(net, ms[0], f);
      if !LosesName(net, ms[0], f) {
        GoKeepsInv(net, ms[0]);
        AccountedIffNeverLost(Go(net, ms[0]), ms[1..], t, f);
      }
    }
  }

  /** Over every run from boot, while ids fit, what the data manager takes a client to know is always sent or waiting
      exactly when no session of it is destroyed with the only copy of such a name in its queue. */
  lemma NamesReachTheirClientIff(ms: seq<Move>, t: Net, f: int)
    requires NetRun(START, ms, t)
    ensures AccountedThroughout(START, ms, f) <==> NeverLosesName(START, ms, f)
  {
    StartIsOrdered(f);
    AccountedIffNeverLost(START, ms, t, f);
  }

  /** An `Update` that hands out a position of `a`: its name has been sent, or is in the queue with it,
      exactly when it was sent before, waits in this session, or is news to some watcher for `a`. */
  lemma LocatedIsNamedIff(net: Net, q: Queue, a: int, p: Position)
    requires NetInv(net) && CanMove(net, Handle(Update(q)))
    requires (a, p) in PositionsIn(net.sys, Update(q), net.sys.sessions[q])
    ensures a in net.sys.reg.data && net.sys.sessions[q] in net.sys.reg.data
    ensures var f, x := net.sys.sessions[q], (a, net.sys.reg.data[a].name);
      && Located(a, p, x.1, GoesNamed(net, q, a)) in News(net, q)
      && (SentName(net.log, f, x) || Holds(Waiting(net, q), x) || Holds(News(net, q), x) <==> GoesNamed(net, q, a))
  {
    var s, f := net.sys, net.sys.sessions[q];
    FetchedIsFollowed(s, q, a, p);
    PositionIsNoted(net, q, a, p);
    var x := (a, s.reg.data[a].name);
    NameIsNotedIff(net, q, x);
    NameIsHandedOutIff(s, q, x);
  }

  lemma FetchedIsFollowed(s: Sys, q: Queue, a: int, p: Position)
    requires Inv(s) && Possible(s, Update(q)) && (a, p) in PositionsIn(s, Update(q), s.sessions[q])
    ensures s.sessions[q] in s.reg.data && a in s.reg.data && s.reg.data[a].name != ""
  {
    var r := TakeUpdate(s.reg, q);
    assert Known(r.data[s.sessions[q]].following, r.data);
    FetchLocates(r, s.sessions[q], a, p);
  }

  lemma NameIsHandedOutIff(s: Sys, q: Queue, x: (int, string))
    requires Inv(s) && Possible(s, Update(q)) && x.0 in s.reg.data && x.1 == s.reg.data[x.0].name && x.1 != ""
    requires s.sessions[q] in s.reg.data
    ensures x in NamesIn(s, Update(q), s.sessions[q]) <==>
      exists w :: w in s.reg.data[s.sessions[q]].following && w.id == x.0 && w.name != x.1
  {
    var r, f := TakeUpdate(s.reg, q), s.sessions[q];
    var ws := r.data[f].following;
    assert Known(ws, r.data);
    NamesForExactly(ws, r.data, x.0, x.1);
    if w :| w in ws && w.id == x.0 && w.name != x.1 {
      var i :| 0 <= i < |ws| && ws[i] == w;
      assert TellsName(ws[i], r.data, x.0, x.1);
    }
  }

  lemma PositionIsNoted(net: Net, q: Queue, a: int, p: Position)
    requires Possible(net.sys, Update(q)) && (a, p) in PositionsIn(net.sys, Update(q), net.sys.sessions[q])
    requires a in net.sys.reg.data
    ensures Located(a, p, net.sys.reg.data[a].name, GoesNamed(net, q, a)) in News(net, q)
  {
    var names := NamesIn(net.sys, Update(q), net.sys.sessions[q]);
    var positions := PositionsIn(net.sys, Update(q), net.sys.sessions[q]);
    var i :| 0 <= i < |positions| && positions[i] == (a, p);
    assert News(net, q)[|names| + i] == Located(a, p, net.sys.reg.data[a].name, GoesNamed(net, q, a));
  }

  lemma NameIsNotedIff(net: Net, q: Queue, x: (int, string))
    requires Possible(net.sys, Update(q))
    ensures Holds(News(net, q), x) <==> x in NamesIn(net.sys, Update(q), net.sys.sessions[q])
  {
    var names := NamesIn(net.sys, Update(q), net.sys.sessions[q]);
    if x in names {
      var i :| 0 <= i < |names| && names[i] == x;
      assert News(net, q)[i] == Named(x.0, x.1);
    }
  }

  // ---- one session at a time ---------------------------------------------------------------------------------

  /** In the log, a position comes after its name exactly when it is marked so. */
  ghost predicate LogExact(log: seq<(int, Note)>, f: int) {
    forall k :: 0 <= k < |log| && log[k].0 == f && log[k].1.Located? ==>
      (SentName(log[..k], f, (log[k].1.who, log[k].1.called)) <==> log[k].1.named)
  }

  /** In a queue, a position will come after its name exactly when it is marked so. */
  ghost predicate QueueExact(log: seq<(int, Note)>, notes: seq<Note>, f: int) {
    forall k :: 0 <= k < |notes| && notes[k].Located? ==> NotedExactly(log, notes, f, k)
  }

  ghost predicate NotedExactly(log: seq<(int, Note)>, notes: seq<Note>, f: int, k: nat)
    requires k < |notes| && notes[k].Located?
  {
    var x := (notes[k].who, notes[k].called);
    SentName(log, f, x) || Holds(notes[..k], x) <==> notes[k].named
  }

  ghost predicate Exact(net: Net, f: int) {
    && LogExact(net.log, f)
    && forall q :: q in net.sys.sessions && net.sys.sessions[q] == f ==> QueueExact(net.log, Waiting(net, q), f)
  }

  lemma SentMore(log: seq<(int, Note)>, entry: (int, Note), f: int, x: (int, string))
    ensures SentName(log + [entry], f, x) <==> SentName(log, f, x) || entry == (f, Named(x.0, x.1))
  {
  }

  lemma LogStaysExact(log: seq<(int, Note)>, entry: (int, Note), f: int)
    requires LogExact(log, f)
    requires entry.0 == f && entry.1.Located? ==> (SentName(log, f, (entry.1.who, entry.1.called)) <==> entry.1.named)
    ensures LogExact(log + [entry], f)
  {
    var log' := log + [entry];
    forall k | 0 <= k < |log'| && log'[k].0 == f && log'[k].1.Located?
      ensures SentName(log'[..k], f, (log'[k].1.who, log'[k].1.called)) <==> log'[k].1.named
    {
      assert log'[..k] == log[..k];
      assert k == |log| ==> log[..k] == log;
    }
  }

  lemma ReleaseKeepsExact(log: seq<(int, Note)>, notes: seq<Note>, f: int)
    requires LogExact(log, f) && QueueExact(log, notes, f) && notes != []
    ensures LogExact(log + [(f, notes[0])], f) && QueueExact(log + [(f, notes[0])], notes[1..], f)
  {
    assert notes[..0] == [];
    assert notes[0].Located? ==> NotedExactly(log, notes, f, 0);
    LogStaysExact(log, (f, notes[0]), f);
    forall k | 0 <= k < |notes[1..]| && notes[1..][k].Located?
      ensures NotedExactly(log + [(f, notes[0])], notes[1..], f, k)
    {
      var x := (notes[1..][k].who, notes[1..][k].called);
      assert NotedExactly(log, notes, f, k + 1);
      SentMore(log, (f, notes[0]), f, x);
      assert notes[..k + 1] == [notes[0]] + notes[1..][..k];
    }
  }

  lemma OtherEntryKeepsExact(log: seq<(int, Note)>, entry: (int, Note), notes: seq<Note>, f: int)
    requires LogExact(log, f) && QueueExact(log, notes, f) && entry.0 != f
    ensures LogExact(log + [entry], f) && QueueExact(log + [entry], notes, f)
  {
    LogStaysExact(log, entry, f);
    forall k | 0 <= k < |notes| && notes[k].Located? ensures NotedExactly(log + [entry], notes, f, k) {
      assert NotedExactly(log, notes, f, k);
      SentMore(log, entry, f, (notes[k].who, notes[k].called));
    }
  }

  lemma NewsKeepExact(net: Net, q: Queue)
    requires NetInv(net) && CanMove(net, Handle(Update(q))) && QueueExact(net.log, Waiting(net, q), net.sys.sessions[q])
    ensures QueueExact(net.log, Waiting(net, q) + News(net, q), net.sys.sessions[q])
  {
    var f, before, news := net.sys.sessions[q], Waiting(net, q), News(net, q);
    forall i | 0 <= i < |news| && news[i].Located?
      ensures (before + news)[|before| + i].Located? && NotedExactly(net.log, before + news, f, |before| + i)
    {
      NewPositionIsExact(net, q, i);
    }
    LongerQueueIsExact(net.log, before, news, f);
  }

  lemma LongerQueueIsExact(log: seq<(int, Note)>, before: seq<Note>, news: seq<Note>, f: int)
    requires QueueExact(log, before, f)
    requires forall i :: 0 <= i < |news| && news[i].Located? ==>
      (before + news)[|before| + i].Located? && NotedExactly(log, before + news, f, |before| + i)
    ensures QueueExact(log, before + news, f)
  {
    var notes := before + news;
    forall k | 0 <= k < |notes| && notes[k].Located? ensures NotedExactly(log, notes, f, k) {
      if k < |before| {
        assert notes[..k] == before[..k];
        assert NotedExactly(log, before, f, k);
      } else {
        assert news[k - |before|].Located?;
      }
    }
  }

  lemma NewPositionIsExact(net: Net, q: Queue, i: nat)
    requires NetInv(net) && CanMove(net, Handle(Update(q))) && i < |News(net, q)| && News(net, q)[i].Located?
    ensures var n, notes := News(net, q)[i], Waiting(net, q) + News(net, q);
      NotedExactly(net.log, notes, net.sys.sessions[q], |Waiting(net, q)| + i)
  {
    var n := News(net, q)[i];
    NoteIsPosition(net, q, i);
    LocatedIsNamedIff(net, q, n.who, n.at);
    HeldBefore(net, q, |Waiting(net, q)| + i, (n.who, n.called));
  }

  /** No two live sessions are of client `f`. */
  ghost predicate OneSession(net: Net, f: int) {
    var ids := net.sys.sessions;
    forall p, q :: p in ids && q in ids && ids[p] == f && ids[q] == f ==> p == q
  }

  lemma ReleasedIsExact(net: Net, m: Move, f: int)
    requires NetInv(net) && CanMove(net, m) && Exact(net, f)
    requires Released(net, m).Some? && net.sys.sessions[Released(net, m).value.0] == f
    ensures QueueExact(net.log, Released(net, m).value.1, f)
  {
    if m.Handle? {
      NewsKeepExact(net, m.e.q);
    }
  }

  lemma GoKeepsExact(net: Net, m: Move, f: int)
    requires NetInv(net) && CanMove(net, m) && Exact(net, f) && OneSession(Go(net, m), f)
    ensures Exact(Go(net, m), f)
  {
    var t, r := Go(net, m), Released(net, m);
    GoKeepsLogExact(net, m, f);
    forall q | q in t.sys.sessions && t.sys.sessions[q] == f ensures QueueExact(t.log, Waiting(t, q), f) {
      if r.Some? && r.value.0 == q {
        ReleasedIsExact(net, m, f);
        if r.value.1 != [] {
          ReleaseKeepsExact(net.log, r.value.1, f);
        }
      } else {
        WaitingIsExact(net, m, f, q);
        if r.Some? && r.value.1 != [] {
          assert net.sys.sessions[r.value.0] != f;
          OtherEntryKeepsExact(net.log, (net.sys.sessions[r.value.0], r.value.1[0]), Waiting(t, q), f);
        }
      }
    }
  }

  lemma GoKeepsLogExact(net: Net, m: Move, f: int)
    requires NetInv(net) && CanMove(net, m) && Exact(net, f)
    ensures LogExact(Go(net, m).log, f)
  {
    var r := Released(net, m);
    if r.Some? && r.value.1 != [] {
      var g, notes := net.sys.sessions[r.value.0], r.value.1;
      if g == f {
        ReleasedIsExact(net, m, f);
        ReleaseKeepsExact(net.log, notes, f);
      } else {
        LogStaysExact(net.log, (g, notes[0]), f);
      }
    }
  }

  lemma WaitingIsExact(net: Net, m: Move, f: int, q: Queue)
    requires NetInv(net) && CanMove(net, m) && Exact(net, f)
    requires q in Go(net, m).sys.sessions && Go(net, m).sys.sessions[q] == f
    requires Released(net, m).None? || Released(net, m).value.0 != q
    ensures QueueExact(net.log, Waiting(Go(net, m), q), f)
  {
    if m.Handle? {
      SessionsAfter(net.sys, m.e);
      QueuesAfter(net, m.e);
    }
    if !(q in net.sys.sessions && net.sys.sessions[q] == f && Waiting(Go(net, m), q) == Waiting(net, q)) {
      assert Waiting(Go(net, m), q) == [];
    }
  }

  ghost predicate OneSessionThroughout(net: Net, ms: seq<Move>, f: int)
    decreases |ms|
  {
    OneSession(net, f) && (ms != [] && CanMove(net, ms[0]) ==> OneSessionThroughout(Go(net, ms[0]), ms[1..], f))
  }

  lemma {:induction false} RunKeepsExact(net: Net, ms: seq<Move>, t: Net, f: int)
    requires NetInv(net) && NetRun(net, ms, t) && Exact(net, f) && OneSessionThroughout(net, ms, f)
    ensures Exact(t, f)
    decreases |ms|
  {
    if ms != [] {
      GoKeepsInv(net, ms[0]);
      GoKeepsExact(net, ms[0], f);
      RunKeepsExact(Go(net, ms[0]), ms[1..], t, f);
    }
  }

  /** Over every run from boot, while ids fit, in which a client never has two sessions at once: a
      position sent to the client comes after the name that its owner bore when it was fetched exactly
      when, at the fetch, that name had been sent, waited in the session, or was news to some watcher. */
  lemma LocatedAreNamedExactly(ms: seq<Move>, t: Net, f: int, k: nat)
    requires NetRun(START, ms, t) && OneSessionThroughout(START, ms, f)
    requires k < |t.log| && t.log[k].0 == f && t.log[k].1.Located?
    ensures (f, Named(t.log[k].1.who, t.log[k].1.called)) in t.log[..k] <==> t.log[k].1.named
  {
    StartIsOrdered(f);
    RunKeepsExact(START, ms, t, f);
  }
}
