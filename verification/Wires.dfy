/** Sessions with their connections: what `sendPacket` is given goes into the outgoing buffer at once,
    whatever is in it, and from there onto the wire as the socket permits. */
module Wires {
  import opened Common
  import opened Sessions
  import opened Outgoing
  import opened Framing
  import opened LostName
  import opened Buffers

  /** What a session passes to `sendPacket`: a note that waited its turn, or an answer given at once. */
  datatype Item = Queued(note: Note) | Answered(bytes: Bytes)

  /** The sending half of a connection, with all that was passed to it. */
  datatype Line = Line(tx: Tx, items: seq<Item>)

  datatype Link = Link(net: Net, lines: map<Queue, Line>)

  type Queue = Registry.Queue

  const UNPLUGGED := Link(START, map[])

  datatype Act = Move(m: Move) | Answer(q: Queue, bytes: Bytes) | Transmit(q: Queue, n: nat, broken: bool)

  /** `frame` gives the encrypted bytes of a note. */
  function FrameOf(i: Item, frame: Note -> Bytes): Bytes {
    match i
    case Queued(note) => frame(note)
    case Answered(bytes) => bytes
  }

  function Frames(items: seq<Item>, frame: Note -> Bytes): (fs: seq<Bytes>)
    ensures |fs| == |items| && forall i :: 0 <= i < |items| ==> fs[i] == FrameOf(items[i], frame)
  {
    seq(|items|, i requires 0 <= i < |items| => FrameOf(items[i], frame))
  }

  predicate CanAct(link: Link, a: Act) {
    match a
    case Move(m) => CanMove(link.net, m)
    case Answer(q, _) => q in link.net.sys.sessions && q in link.lines
    case Transmit(q, n, _) => q in link.lines && n <= |Prefixed(link.lines[q].tx).buffer.bytes|
  }

  function Passed(line: Line, item: Item, frame: Note -> Bytes): Line {
    Line(Accept(line.tx, FrameOf(item, frame)), line.items + [item])
  }

  ghost function LinkStep(link: Link, a: Act, frame: Note -> Bytes): Link
    requires CanAct(link, a)
  {
    match a
    case Answer(q, bytes) => link.(lines := link.lines[q := Passed(link.lines[q], Answered(bytes), frame)])
    case Transmit(q, n, broken) =>
      link.(lines := link.lines[q := link.lines[q].(tx := Send(link.lines[q].tx, n, broken))])
    case Move(m) =>
      var r := Released(link.net, m);
      var lines :=
        if r.Some? && r.value.1 != [] && r.value.0 in link.lines
        then link.lines[r.value.0 := Passed(link.lines[r.value.0], Queued(r.value.1[0]), frame)] else link.lines;
      Link(Go(link.net, m),
           if m.Handle? && m.e.Open? then lines[m.e.q := Line(IDLE_TX, [])]
           else if m.Handle? && m.e.Destroy? then lines - {m.e.q} else lines)
  }

  /** The session to whose buffer the act adds a frame, if it does. */
  ghost function AddsTo(link: Link, a: Act): Option<Queue>
    requires CanAct(link, a)
  {
    match a
    case Answer(q, _) => Some(q)
    case Transmit(_, _, _) => None
    case Move(m) =>
      var r := Released(link.net, m);
      if r.Some? && r.value.1 != [] then Some(r.value.0) else None
  }

  /** No frame is added to a buffer that still holds one. */
  ghost predicate OnIdle(link: Link, a: Act)
    requires CanAct(link, a)
  {
    var q := AddsTo(link, a);
    q.Some? && q.value in link.lines ==> link.lines[q.value].tx.buffer.stage == Empty
  }

  ghost predicate LinkRun(link: Link, acts: seq<Act>, frame: Note -> Bytes, t: Link)
    decreases |acts|
  {
    if acts == [] then link == t
    else CanAct(link, acts[0]) && LinkRun(LinkStep(link, acts[0], frame), acts[1..], frame, t)
  }

  ghost predicate AllOnIdle(link: Link, acts: seq<Act>, frame: Note -> Bytes)
    decreases |acts|
  {
    acts != [] && CanAct(link, acts[0]) ==>
      OnIdle(link, acts[0]) && AllOnIdle(LinkStep(link, acts[0], frame), acts[1..], frame)
  }

  predicate NothingQueued(items: seq<Item>) {
    forall i :: 0 <= i < |items| ==> items[i].Answered?
  }

  /** What is on the wire and what is outstanding are the frames of the items; those that came from the
      queue are in the log, for the client of the session; and before it has registered there are none. */
  ghost predicate LineOk(line: Line, id: int, log: seq<(int, Note)>, frame: Note -> Bytes) {
    && Conserved(line.tx, Frames(line.items, frame))
    && (forall i :: 0 <= i < |line.items| && line.items[i].Queued? ==> (id, line.items[i].note) in log)
    && (id == 0 ==> NothingQueued(line.items))
  }

  ghost predicate LinesOk(link: Link, frame: Note -> Bytes) {
    NetInv(link.net) && AllOk(link.lines, link.net.sys.sessions, link.net.log, frame)
  }

  ghost predicate AllOk(lines: map<Queue, Line>, sessions: map<Queue, int>, log: seq<(int, Note)>,
                        frame: Note -> Bytes) {
    && (forall q :: q in sessions <==> q in lines)
    && (forall q :: q in lines ==> LineOk(lines[q], sessions[q], log, frame))
  }

  /** Adding a frame to an idle buffer keeps the frames apart. */
  lemma PassingIsOk(line: Line, item: Item, id: int, log: seq<(int, Note)>, frame: Note -> Bytes)
    requires LineOk(line, id, log, frame) && line.tx.buffer.stage == Empty
    requires item.Queued? ==> id != 0 && (id, item.note) in log
    ensures LineOk(Passed(line, item, frame), id, log, frame)
  {
    AcceptWhenIdle(line.tx, Frames(line.items, frame), FrameOf(item, frame));
    assert Frames(line.items + [item], frame) == Frames(line.items, frame) + [FrameOf(item, frame)];
  }

  /** A longer log is as good, and so is the id that a session gets at last. */
  lemma LineStaysOk(line: Line, id: int, id': int, log: seq<(int, Note)>, log': seq<(int, Note)>, frame: Note -> Bytes)
    requires LineOk(line, id, log, frame) && log <= log' && (id' == id || id == 0)
    ensures LineOk(line, id', log', frame)
  {
    forall i | 0 <= i < |line.items| && line.items[i].Queued? ensures (id', line.items[i].note) in log' {
      assert line.items[i].Answered? || id' == id;
    }
  }

  lemma NewLineIsOk(id: int, log: seq<(int, Note)>, frame: Note -> Bytes)
    ensures LineOk(Line(IDLE_TX, []), id, log, frame)
  {
    assert Frames([], frame) == [];
  }

  /** What a move does to the log, to a session that was there, and to one that was not. */
  lemma MoveFacts(net: Net, m: Move, q: Queue)
    requires NetInv(net) && CanMove(net, m) && q in Go(net, m).sys.sessions
    ensures var t, r := Go(net, m), Released(net, m);
      && net.log <= t.log
      && (q !in net.sys.sessions ==> m.Handle? && m.e.Open? && m.e.q == q)
      && (q in net.sys.sessions && !(m.Handle? && m.e.Open? && m.e.q == q) ==>
            t.sys.sessions[q] == net.sys.sessions[q] || net.sys.sessions[q] == 0)
      && (r.Some? && r.value.1 != [] ==>
            && r.value.0 in net.sys.sessions && net.sys.sessions[r.value.0] != 0
            && (net.sys.sessions[r.value.0], r.value.1[0]) in t.log)
  {
    var t, r := Go(net, m), Released(net, m);
    if m.Handle? {
      SessionsAfter(net.sys, m.e);
    }
    if r.Some? && r.value.1 != [] {
      assert t.log == net.log + [(net.sys.sessions[r.value.0], r.value.1[0])];
      assert t.log[|net.log|] == (net.sys.sessions[r.value.0], r.value.1[0]);
    }
  }

  /** The line of a session after a move: new, with one frame more, or as it was. */
  lemma LineAfterMove(link: Link, m: Move, frame: Note -> Bytes, q: Queue)
    requires CanAct(link, Move(m)) && ((m.Handle? && m.e.Open? && m.e.q == q) || q in link.lines)
    requires !(m.Handle? && m.e.Destroy? && m.e.q == q)
    ensures var t, r := LinkStep(link, Move(m), frame), Released(link.net, m);
      && q in t.lines && t.net == Go(link.net, m)
      && t.lines[q] == (if m.Handle? && m.e.Open? && m.e.q == q then Line(IDLE_TX, [])
                        else if r.Some? && r.value.1 != [] && r.value.0 == q
                             then Passed(link.lines[q], Queued(r.value.1[0]), frame)
                        else link.lines[q])
  {
  }

  lemma MoveKeepsLine(link: Link, m: Move, frame: Note -> Bytes, q: Queue)
    requires NetInv(link.net) && CanAct(link, Move(m)) && OnIdle(link, Move(m))
    requires q in Go(link.net, m).sys.sessions
    requires q in link.net.sys.sessions <==> q in link.lines
    requires q in link.lines ==> LineOk(link.lines[q], link.net.sys.sessions[q], link.net.log, frame)
    requires !(m.Handle? && m.e.Destroy? && m.e.q == q)
    ensures var t := LinkStep(link, Move(m), frame);
      q in t.lines && LineOk(t.lines[q], Go(link.net, m).sys.sessions[q], Go(link.net, m).log, frame)
  {
    var t, r := Go(link.net, m), Released(link.net, m);
    MoveFacts(link.net, m, q);
    LineAfterMove(link, m, frame, q);
    if m.Handle? && m.e.Open? && m.e.q == q {
      NewLineIsOk(t.sys.sessions[q], t.log, frame);
    } else {
      LineStaysOk(link.lines[q], link.net.sys.sessions[q], t.sys.sessions[q], link.net.log, t.log, frame);
      if r.Some? && r.value.1 != [] && r.value.0 == q {
        PassingIsOk(link.lines[q], Queued(r.value.1[0]), t.sys.sessions[q], t.log, frame);
      }
    }
  }

  /** A session is there after a move if it was opened by it, or was there and not destroyed by it. */
  predicate Survives(m: Move, q: Queue, before: bool) {
    (m.Handle? && m.e.Open? && m.e.q == q) || (before && !(m.Handle? && m.e.Destroy? && m.e.q == q))
  }

  lemma SessionsAfterMove(net: Net, m: Move, q: Queue)
    requires CanMove(net, m)
    ensures q in Go(net, m).sys.sessions <==> Survives(m, q, q in net.sys.sessions)
  {
    if m.Handle? {
      SessionsAfter(net.sys, m.e);
    }
  }

  lemma LinesAfterMove(link: Link, m: Move, frame: Note -> Bytes, q: Queue)
    requires CanAct(link, Move(m))
    ensures q in LinkStep(link, Move(m), frame).lines <==> Survives(m, q, q in link.lines)
  {
  }

  lemma DestroyedIsGone(net: Net, m: Move)
    requires CanMove(net, m) && m.Handle? && m.e.Destroy?
    ensures m.e.q !in Go(net, m).sys.sessions
  {
    SessionsAfter(net.sys, m.e);
  }

  lemma MoveKeepsLines(link: Link, m: Move, frame: Note -> Bytes)
    requires LinesOk(link, frame) && CanAct(link, Move(m)) && OnIdle(link, Move(m))
    ensures LinesOk(LinkStep(link, Move(m), frame), frame)
  {
    var t := LinkStep(link, Move(m), frame);
    GoKeepsInv(link.net, m);
    assert t.net == Go(link.net, m);
    forall q: Queue ensures q in t.net.sys.sessions <==> q in t.lines {
      SessionsAfterMove(link.net, m, q);
      LinesAfterMove(link, m, frame, q);
    }
    forall q | q in t.lines ensures LineOk(t.lines[q], t.net.sys.sessions[q], t.net.log, frame) {
      if m.Handle? && m.e.Destroy? {
        DestroyedIsGone(link.net, m);
      }
      MoveKeepsLine(link, m, frame, q);
    }
  }

  lemma OneLineChanges(link: Link, q: Queue, line: Line, frame: Note -> Bytes)
    requires LinesOk(link, frame) && q in link.lines
    requires LineOk(line, link.net.sys.sessions[q], link.net.log, frame)
    ensures LinesOk(link.(lines := link.lines[q := line]), frame)
  {
    OneChanges(link.lines, link.net.sys.sessions, link.net.log, q, line, frame);
  }

  lemma OneChanges(lines: map<Queue, Line>, sessions: map<Queue, int>, log: seq<(int, Note)>, q: Queue, line: Line,
                   frame: Note -> Bytes)
    requires AllOk(lines, sessions, log, frame) && q in lines && LineOk(line, sessions[q], log, frame)
    ensures AllOk(lines[q := line], sessions, log, frame)
  {
  }

  lemma AnswerKeepsLines(link: Link, q: Queue, bytes: Bytes, frame: Note -> Bytes)
    requires LinesOk(link, frame) && CanAct(link, Answer(q, bytes)) && OnIdle(link, Answer(q, bytes))
    ensures LinesOk(LinkStep(link, Answer(q, bytes), frame), frame)
  {
    PassingIsOk(link.lines[q], Answered(bytes), link.net.sys.sessions[q], link.net.log, frame);
    OneLineChanges(link, q, Passed(link.lines[q], Answered(bytes), frame), frame);
  }

  lemma TransmitKeepsLines(link: Link, q: Queue, n: nat, broken: bool, frame: Note -> Bytes)
    requires LinesOk(link, frame) && CanAct(link, Transmit(q, n, broken))
    ensures LinesOk(LinkStep(link, Transmit(q, n, broken), frame), frame)
  {
    var line := link.lines[q];
    SendConserves(line.tx, Frames(line.items, frame), n, broken);
    OneLineChanges(link, q, line.(tx := Send(line.tx, n, broken)), frame);
  }

  lemma ActKeepsLines(link: Link, a: Act, frame: Note -> Bytes)
    requires LinesOk(link, frame) && CanAct(link, a) && OnIdle(link, a)
    ensures LinesOk(LinkStep(link, a, frame), frame)
  {
    match a {
      case Answer(q, bytes) => AnswerKeepsLines(link, q, bytes, frame);
      case Transmit(q, n, broken) => TransmitKeepsLines(link, q, n, broken, frame);
      case Move(m) => MoveKeepsLines(link, m, frame);
    }
  }

  lemma {:induction false} RunKeepsLines(link: Link, acts: seq<Act>, frame: Note -> Bytes, t: Link)
    requires LinesOk(link, frame) && LinkRun(link, acts, frame, t) && AllOnIdle(link, acts, frame)
    ensures LinesOk(t, frame)
    decreases |acts|
  {
    if acts != [] {
      ActKeepsLines(link, acts[0], frame);
      RunKeepsLines(LinkStep(link, acts[0], frame), acts[1..], frame, t);
    }
  }

  /** Over every run from boot, while ids fit, in which no frame is added to a buffer that still holds
      one: the wire of each session carries the frames of what was passed to it, all of them once the
      buffer is empty; and what came from the queue is in the log for the client of the session. */
  lemma WireCarriesLog(acts: seq<Act>, frame: Note -> Bytes, t: Link, q: Queue)
    requires LinkRun(UNPLUGGED, acts, frame, t) && AllOnIdle(UNPLUGGED, acts, frame) && q in t.lines
    ensures q in t.net.sys.sessions
    ensures var line, f := t.lines[q], t.net.sys.sessions[q];
      && line.tx.wire <= Encode(Frames(line.items, frame))
      && (line.tx.buffer.stage == Empty ==> line.tx.wire == Encode(Frames(line.items, frame)))
      && forall i :: 0 <= i < |line.items| && line.items[i].Queued? ==> (f, line.items[i].note) in t.net.log
  {
    NothingIsPlugged(frame);
    RunKeepsLines(UNPLUGGED, acts, frame, t);
    LineCarries(t.lines[q], Frames(t.lines[q].items, frame));
  }

  lemma NothingIsPlugged(frame: Note -> Bytes)
    ensures LinesOk(UNPLUGGED, frame)
  {
    StartIsOrdered(0);
  }

  lemma LineCarries(line: Line, frames: seq<Bytes>)
    requires Conserved(line.tx, frames)
    ensures line.tx.wire <= Encode(frames) && (line.tx.buffer.stage == Empty ==> line.tx.wire == Encode(frames))
  {
    assert line.tx.wire + [] == line.tx.wire;
  }

  // ---- a second update on a busy line -----------------------------------------------------------------------

  ghost predicate LinkReached(link: Link, frame: Note -> Bytes) {
    exists acts :: LinkRun(UNPLUGGED, acts, frame, link)
  }

  lemma {:induction false} LinkRunGoesOn(link: Link, acts: seq<Act>, t: Link, a: Act, frame: Note -> Bytes)
    requires LinkRun(link, acts, frame, t) && CanAct(t, a)
    ensures LinkRun(link, acts + [a], frame, LinkStep(t, a, frame))
    decreases |acts|
  {
    if acts == [] {
      assert ([] + [a])[1..] == [];
    } else {
      assert (acts + [a])[1..] == acts[1..] + [a];
      LinkRunGoesOn(LinkStep(link, acts[0], frame), acts[1..], t, a, frame);
    }
  }

  lemma LinkGoes(link: Link, a: Act, frame: Note -> Bytes)
    requires LinkReached(link, frame) && CanAct(link, a)
    ensures LinkReached(LinkStep(link, a, frame), frame)
  {
    var acts :| LinkRun(UNPLUGGED, acts, frame, link);
    LinkRunGoesOn(UNPLUGGED, acts, link, a, frame);
  }

  /** Nothing has been sent in the session yet. */
  lemma QuietLine(frame: Note -> Bytes)
    ensures LinkReached(Link(LostNet(0), map[0 := Line(IDLE_TX, [])]), frame)
  {
    assert LinkRun(UNPLUGGED, [], frame, UNPLUGGED);
    assert UNPLUGGED == Link(FirstNet(0), map[]);
    LinkGoes(UNPLUGGED, Move(Handle(ComingBack()[0])), frame);
    FirstMove(0);
    assert LinkStep(UNPLUGGED, Move(Handle(ComingBack()[0])), frame) == Link(FirstNet(1), map[0 := Line(IDLE_TX, [])]);
    for k := 1 to 4
      invariant LinkReached(Link(FirstNet(k), map[0 := Line(IDLE_TX, [])]), frame)
    {
      var link := Link(FirstNet(k), map[0 := Line(IDLE_TX, [])]);
      FirstMove(k);
      LinkGoes(link, Move(Handle(ComingBack()[k])), frame);
      QuietStep(k, frame);
    }
    FirstLocation();
    LinkGoes(Link(FirstNet(4), map[0 := Line(IDLE_TX, [])]), Move(Handle(Locate(0, 0.0, 0.0, 5))), frame);
  }

  lemma QuietStep(k: nat, frame: Note -> Bytes)
    requires 1 <= k < 4
    ensures CanMove(FirstNet(k), Handle(ComingBack()[k]))
    ensures LinkStep(Link(FirstNet(k), map[0 := Line(IDLE_TX, [])]), Move(Handle(ComingBack()[k])), frame) ==
            Link(FirstNet(k + 1), map[0 := Line(IDLE_TX, [])])
  {
    FirstMove(k);
  }

  /** In a run from boot the second `Update` finds the frame of the first half sent: its own frame goes
      into the same buffer, and the wire will not carry the two frames. */
  lemma SecondUpdateMeetsHalfSentFrame(frame: Note -> Bytes) returns (link: Link, t: Link)
    requires forall n :: 1 <= |frame(n)| < 0xfffe
    ensures LinkReached(link, frame) && CanAct(link, Move(Handle(Update(0)))) && !OnIdle(link, Move(Handle(Update(0))))
    ensures t == LinkStep(link, Move(Handle(Update(0))), frame) && 0 in t.lines
    ensures t.lines[0].items == [Queued(Named(1, "a")), Queued(Located(1, FIRST, "a", true))]
    ensures !InFrames(t.lines[0].tx, Frames(t.lines[0].items, frame))
  {
    link := BusyLine(frame);
    SecondUpdateAccepts(link, frame);
    t := LinkStep(link, Move(Handle(Update(0))), frame);
    var one, two := frame(Named(1, "a")), frame(Located(1, FIRST, "a", true));
    TwoFramesInOne(one, two, t.lines[0].tx);
    assert Frames(t.lines[0].items, frame) == [one, two];
  }

  lemma SecondUpdateAccepts(link: Link, frame: Note -> Bytes)
    requires link.net == LostNet(2) && 0 in link.lines && link.lines[0].tx.buffer.stage == Sending
    requires link.lines[0].items == [Queued(Named(1, "a"))]
    ensures CanAct(link, Move(Handle(Update(0)))) && !OnIdle(link, Move(Handle(Update(0))))
    ensures var t, second := LinkStep(link, Move(Handle(Update(0))), frame), Located(1, FIRST, "a", true);
      && 0 in t.lines && t.lines[0].tx == Accept(link.lines[0].tx, frame(second))
      && t.lines[0].items == [Queued(Named(1, "a")), Queued(second)]
  {
    LostMove(2);
    assert Released(link.net, Handle(Update(0))).value.1[0] == Located(1, FIRST, "a", true);
    LineAfterMove(link, Handle(Update(0)), frame, 0);
  }

  /** The first `Update` has put its frame into the buffer, and the socket has taken nothing. */
  lemma BusyLine(frame: Note -> Bytes) returns (link: Link)
    requires forall n :: 1 <= |frame(n)| < 0xfffe
    ensures LinkReached(link, frame) && link.net == LostNet(2) && 0 in link.lines
    ensures var one := Header(|frame(Named(1, "a"))|) + frame(Named(1, "a"));
      link.lines == map[0 := Line(Tx(View(one, |one|, Sending), [], false, []), [Queued(Named(1, "a"))])]
  {
    QuietLine(frame);
    link := Link(LostNet(0), map[0 := Line(IDLE_TX, [])]);
    FirstUpdateAccepts(frame);
    LinkGoes(link, Move(Handle(Update(0))), frame);
    link := LinkStep(link, Move(Handle(Update(0))), frame);
    SocketTakesNothing(link, frame(Named(1, "a")), frame);
    LinkGoes(link, Transmit(0, 0, false), frame);
    link := LinkStep(link, Transmit(0, 0, false), frame);
    RenameSendsNothing(link, frame);
    LinkGoes(link, Move(Handle(Name(0, "b"))), frame);
    link := LinkStep(link, Move(Handle(Name(0, "b"))), frame);
  }

  lemma FirstUpdateAccepts(frame: Note -> Bytes)
    ensures var link, f := Link(LostNet(0), map[0 := Line(IDLE_TX, [])]), frame(Named(1, "a"));
      && CanAct(link, Move(Handle(Update(0))))
      && LinkStep(link, Move(Handle(Update(0))), frame) ==
         Link(LostNet(1), map[0 := Line(Tx(View(f, 0, Full), [], false, []), [Queued(Named(1, "a"))])])
  {
    var link, f := Link(LostNet(0), map[0 := Line(IDLE_TX, [])]), frame(Named(1, "a"));
    LostMove(0);
    FirstFetch();
    assert Released(link.net, Handle(Update(0))).value.1[0] == Named(1, "a");
    PassedOnIdle(Queued(Named(1, "a")), frame);
    assert LinkStep(link, Move(Handle(Update(0))), frame).lines ==
           map[0 := Line(Tx(View(f, 0, Full), [], false, []), [Queued(Named(1, "a"))])];
  }

  lemma PassedOnIdle(item: Item, frame: Note -> Bytes)
    ensures Passed(Line(IDLE_TX, []), item, frame) ==
            Line(Tx(View(FrameOf(item, frame), 0, Full), [], false, []), [item])
  {
    assert [] + FrameOf(item, frame) == FrameOf(item, frame);
  }

  lemma SocketTakesNothing(link: Link, f: Bytes, frame: Note -> Bytes)
    requires f != []
    requires link == Link(LostNet(1), map[0 := Line(Tx(View(f, 0, Full), [], false, []), [Queued(Named(1, "a"))])])
    ensures var one := Header(|f|) + f;
      && CanAct(link, Transmit(0, 0, false))
      && LinkStep(link, Transmit(0, 0, false), frame) ==
         Link(LostNet(1), map[0 := Line(Tx(View(one, |one|, Sending), [], false, []), [Queued(Named(1, "a"))])])
  {
    var one := Header(|f|) + f;
    assert Send(link.lines[0].tx, 0, false) == Tx(View(one, |one|, Sending), [], false, []) by {
      assert one[0..] == one && [] + one[..0] == [];
    }
    assert LinkStep(link, Transmit(0, 0, false), frame).lines ==
           map[0 := Line(Tx(View(one, |one|, Sending), [], false, []), [Queued(Named(1, "a"))])];
  }

  lemma RenameSendsNothing(link: Link, frame: Note -> Bytes)
    requires link.net == LostNet(1)
    ensures CanAct(link, Move(Handle(Name(0, "b"))))
    ensures LinkStep(link, Move(Handle(Name(0, "b"))), frame) == Link(LostNet(2), link.lines)
  {
    assert LostEvents()[1] == Name(0, "b");
    LostMove(1);
    HandlingSendsNothing(link, Name(0, "b"), frame);
  }

  /** Only an `Update` makes a session send from its queue. */
  lemma HandlingSendsNothing(link: Link, e: Event, frame: Note -> Bytes)
    requires CanMove(link.net, Handle(e)) && !e.Open? && !e.Destroy? && !e.Update?
    ensures LinkStep(link, Move(Handle(e)), frame) == Link(Go(link.net, Handle(e)), link.lines)
  {
  }

  /** Two frames of which the second came into the buffer of the first begin with the wrong length. */
  lemma TwoFramesInOne(one: Bytes, two: Bytes, tx: Tx)
    requires 1 <= |one| < 0xfffe && 1 <= |two| < 0xfffe
    requires tx.wire == [] && tx.buffer.stage == Full && tx.buffer.bytes == (Header(|one|) + one) + two
    ensures !InFrames(tx, [one, two])
  {
    var n := |tx.buffer.bytes|;
    assert Encode([one, two]) == Frame(one) + Encode([two]);
    assert Encode([one, two])[..2] == Header(|one|);
    assert (tx.wire + Outstanding(tx.buffer))[..2] == Header(n);
    HeaderRoundTrip(n);
    HeaderRoundTrip(|one|);
  }
}
