/** The class `ClientBuffer` with the two calls of `SimpleClient` on it.  The socket is an
    adversary: its answers are parameters.  Each method is proved to carry out the step of the
    same name in module Framing. */
module ClientBuffers {
  import opened Common
  import opened Buffers
  import opened SocketReads
  import F = Framing

  /** The answers of successive `::send` calls: how many bytes were taken, or a failure. */
  datatype SendAnswer = Taken(n: nat) | Blocked | Broken

  /** How many bytes of the chunks go out, and whether the connection breaks: chunk after chunk, without a
      call for an empty one, until one is not taken whole. */
  function SentBy(chunks: seq<Bytes>, answers: seq<SendAnswer>): (nat, bool)
    decreases |chunks|
  {
    if Flatten(chunks) == [] then (0, false)
    else if chunks[0] == [] then SentBy(chunks[1..], answers)
    else if answers == [] then (0, false)
    else
      match answers[0]
      case Taken(n) =>
        if n < |chunks[0]| then (n, false)
        else
          var (more, broken) := SentBy(chunks[1..], answers[1..]);
          (|chunks[0]| + more, broken)
      case Blocked => (0, false)
      case Broken => (0, true)
  }

  function NonEmpty(chunks: seq<Bytes>): seq<Bytes> {
    if chunks == [] then [] else (if chunks[0] == [] then [] else [chunks[0]]) + NonEmpty(chunks[1..])
  }

  lemma {:induction false} NonEmptyFlat(chunks: seq<Bytes>)
    ensures Flatten(NonEmpty(chunks)) == Flatten(chunks)
    ensures Flatten(chunks) == [] <==> NonEmpty(chunks) == []
  {
    if chunks != [] {
      NonEmptyFlat(chunks[1..]);
      var rest := NonEmpty(chunks[1..]);
      if chunks[0] == [] {
        assert [] + rest == rest && [] + Flatten(chunks[1..]) == Flatten(chunks[1..]);
      } else {
        assert ([chunks[0]] + rest)[1..] == rest;
      }
    }
  }

  /** Answer i takes chunk i whole. */
  predicate TakesWhole(chunks: seq<Bytes>, answers: seq<SendAnswer>, i: nat) {
    i < |chunks| && i < |answers| && answers[i].Taken? && answers[i].n >= |chunks[i]|
  }

  /** The first k chunks with bytes are taken whole and the next is not, if there is one; what it is
      answered says how much of it goes, and whether the connection breaks. */
  lemma {:induction false} SentByMeans(chunks: seq<Bytes>, answers: seq<SendAnswer>) returns (k: nat)
    ensures var full := NonEmpty(chunks);
      && k <= |full| && (forall i :: 0 <= i < k ==> TakesWhole(full, answers, i)) && !TakesWhole(full, answers, k)
      && SentBy(chunks, answers).0 == |Flatten(full[..k])| +
           (if k < |full| && k < |answers| && answers[k].Taken? then answers[k].n else 0)
      && (SentBy(chunks, answers).1 <==> k < |full| && k < |answers| && answers[k].Broken?)
    decreases |chunks|
  {
    var full := NonEmpty(chunks);
    NonEmptyFlat(chunks);
    assert full[..0] == [];
    if full == [] {
      k := 0;
    } else if chunks[0] == [] {
      k := SentByMeans(chunks[1..], answers);
      assert [] + NonEmpty(chunks[1..]) == NonEmpty(chunks[1..]);
    } else {
      assert full[0] == chunks[0] && full[1..] == NonEmpty(chunks[1..]);
      if TakesWhole(full, answers, 0) {
        var j := SentByMeans(chunks[1..], answers[1..]);
        k := j + 1;
        assert full[..k][1..] == full[1..][..j];
        assert forall i :: 0 <= i < |answers| - 1 ==> answers[1..][i] == answers[i + 1];
        assert forall i :: 0 <= i < |full| - 1 ==> full[1..][i] == full[i + 1];
        forall i | 0 <= i < k ensures TakesWhole(full, answers, i) {
          assert i > 0 ==> TakesWhole(full[1..], answers[1..], i - 1);
        }
        assert TakesWhole(full, answers, k) ==> TakesWhole(full[1..], answers[1..], j);
      } else {
        k := 0;
      }
    }
  }

  class ClientBuffer {
    const bufferIn: Buffer
    const bufferOut: Buffer
    var close: bool
    var posts: seq<F.Post>
    ghost var wire: Bytes

    ghost predicate Valid()
      reads this, bufferIn, bufferOut
    {
      bufferIn != bufferOut && bufferIn.Valid() && bufferOut.Valid()
    }

    function RxView(): F.Rx
      reads this, bufferIn
    {
      F.Rx(bufferIn.State(), close, posts)
    }

    ghost function TxView(): F.Tx
      reads this, bufferOut
    {
      F.Tx(bufferOut.State(), wire, close, posts)
    }

    constructor ()
      ensures Valid() && fresh(bufferIn) && fresh(bufferOut)
      ensures RxView() == F.IDLE_RX && TxView() == F.IDLE_TX
    {
      bufferIn := new Buffer();
      bufferOut := new Buffer();
      close, posts, wire := false, [], [];
    }

    /** The first block of `recv()`. */
    method RecvHeader(script: seq<Answer>) returns (rest: seq<Answer>)
      requires Valid() && F.RxInv(RxView())
      requires !close && bufferIn.stage == Empty ==> Plausible(2, script)
      modifies this`close, bufferIn
      ensures Valid() && (RxView(), rest) == F.ReadHeader(old(RxView()), script, Shrinking)
    {
      rest := script;
      if !close && bufferIn.stage == Empty {
        var bytes, closed;
        bytes, closed, rest := RecvBytes(2, script);
        close := closed;
        if bytes != [] {
          bufferIn.SetMaxSize(F.HeaderValue(bytes));
          bufferIn.SetStage(Receiving);
        }
      }
    }

    /** The second block of `recv()`; the size asked for never goes below zero. */
    method RecvPayload(script: seq<Answer>)
      requires Valid() && F.RxInv(RxView())
      requires !close && bufferIn.stage == Receiving ==> Plausible(bufferIn.bufferMaxSize - bufferIn.bufferSize, script)
      modifies this`close, this`posts, bufferIn
      ensures Valid() && RxView() == F.ReadPayload(old(RxView()), script, Shrinking)
    {
      if !close && bufferIn.stage == Receiving {
        var bytes, closed, rest := RecvBytes(bufferIn.bufferMaxSize - bufferIn.bufferSize, script);
        close := closed;
        if bytes != [] {
          Append(bytes);
        }
      }
    }

    /** What arrived goes behind the partial frame, which may complete it. */
    method Append(bytes: Bytes)
      requires Valid()
      modifies this`posts, bufferIn
      ensures Valid() && close == old(close)
      ensures RxView() == F.Appended(old(RxView()), bytes)
    {
      bufferIn.PushBack(bytes);
      if bufferIn.bufferMaxSize == bufferIn.bufferSize {
        bufferIn.SetStage(Full);
        posts := posts + [F.PacketReceive];
      }
    }

    method Recv(script: seq<Answer>)
      requires Valid() && F.RxInv(RxView())
      requires !close && bufferIn.stage == Empty ==> Plausible(2, script)
      requires var (rx, rest) := F.ReadHeader(RxView(), script, Shrinking);
        !rx.closed && rx.buffer.stage == Receiving ==> Plausible(rx.buffer.max - |rx.buffer.bytes|, rest)
      modifies this`close, this`posts, bufferIn
      ensures Valid() && RxView() == F.Recv(old(RxView()), script, Shrinking) && F.RxInv(RxView())
    {
      F.RecvKeepsInv(RxView(), script, Shrinking);
      var rest := RecvHeader(script);
      RecvPayload(rest);
      if close {
        posts := posts + [F.Close];
      }
    }

    /** One `::send` of a chunk: what is left of it. */
    method SendChunk(chunk: Bytes, answers: seq<SendAnswer>) returns (left: Bytes, rest: seq<SendAnswer>)
      requires !close
      modifies this`close, this`wire
      ensures chunk == [] || answers == [] ==> left == chunk && rest == answers && !close
      ensures chunk != [] && answers != [] ==>
        && rest == answers[1..] && (close <==> answers[0].Broken?)
        && left == chunk[if answers[0].Taken? then Min(answers[0].n, |chunk|) else 0..]
      ensures wire == old(wire) + chunk[..|chunk| - |left|]
    {
      left, rest := chunk, answers;
      if chunk != [] && answers != [] {
        rest := answers[1..];
        match answers[0] {
          case Taken(n) =>
            var count := Min(n, |chunk|);
            left := chunk[count..];
            wire := wire + chunk[..count];
          case Blocked =>
          case Broken => close := true;
        }
      }
    }

    /** One round of the loop of `send()`; `again` when there is more to send. */
    method SendRound(answers: seq<SendAnswer>) returns (k: nat, rest: seq<SendAnswer>, again: bool)
      requires Valid() && !close && bufferOut.stage == Sending && bufferOut.bufferSize > 0
      modifies this`close, this`posts, this`wire, bufferOut
      ensures Valid() && k <= |old(bufferOut.Flat())|
      ensures TxView() == F.Transmitted(old(TxView()), k, close)
      ensures again ==> !close && bufferOut.stage == Sending && bufferOut.bufferSize > 0
      ensures again ==> |rest| <= |answers| && |bufferOut.chunks| < |old(bufferOut.chunks)|
      ensures SentBy(old(bufferOut.chunks), answers) ==
              if again then (k + SentBy(bufferOut.chunks, rest).0, SentBy(bufferOut.chunks, rest).1) else (k, close)
    {
      ghost var before := bufferOut.Flat();
      var chunk := bufferOut.PopChunk();
      ghost var tail := bufferOut.Flat();
      var left;
      left, rest := SendChunk(chunk.value, answers);
      k := |chunk.value| - |left|;
      SplitChunk(before, chunk.value, tail, k);
      assert left == chunk.value[k..];
      again := false;
      if left != [] {
        bufferOut.PushFront(left);
      } else if bufferOut.bufferSize == 0 {
        assert left + tail == [];
        bufferOut.SetStage(Empty);
        posts := posts + [F.PacketSend];
      } else {
        assert left + tail == tail;
        again := true;
      }
    }

    static lemma SplitChunk(before: Bytes, chunk: Bytes, tail: Bytes, k: nat)
      requires before == chunk + tail && k <= |chunk|
      ensures before[..k] == chunk[..k] && before[k..] == chunk[k..] + tail
    {
    }

    /** The first block of `send()`. */
    method SendHeader()
      requires Valid()
      modifies bufferOut
      ensures Valid() && TxView() == F.Prefixed(old(TxView()))
      ensures !close ==> bufferOut.chunks == old(Queued())
    {
      if !close && bufferOut.stage == Full {
        bufferOut.PushFront(F.Header(bufferOut.bufferSize));
        bufferOut.SetMaxSize(bufferOut.bufferSize);
        bufferOut.SetStage(Sending);
      }
    }

    /** The chunks that `send()` starts from. */
    function Queued(): seq<Bytes>
      reads this, bufferOut
    {
      if bufferOut.stage == Full then [F.Header(bufferOut.bufferSize)] + bufferOut.chunks else bufferOut.chunks
    }

    /** One round more, after `sent` bytes. */
    method SendOn(ghost p: F.Tx, sent: nat, answers: seq<SendAnswer>)
      returns (total: nat, rest: seq<SendAnswer>, again: bool)
      requires Valid() && !close && bufferOut.stage == Sending && bufferOut.bufferSize > 0
      requires sent <= |p.buffer.bytes| && TxView() == F.Transmitted(p, sent, false)
      requires p.buffer.stage == Sending && !p.closed
      modifies this`close, this`posts, this`wire, bufferOut
      ensures Valid() && total <= |p.buffer.bytes| && TxView() == F.Transmitted(p, total, close)
      ensures again ==> !close && bufferOut.stage == Sending && bufferOut.bufferSize > 0
      ensures again ==> |rest| <= |answers| && |bufferOut.chunks| < |old(bufferOut.chunks)|
      ensures var was := SentBy(old(bufferOut.chunks), answers);
        (sent + was.0, was.1) ==
        if again then (total + SentBy(bufferOut.chunks, rest).0, SentBy(bufferOut.chunks, rest).1) else (total, close)
    {
      var k;
      k, rest, again := SendRound(answers);
      F.TransmittedTwice(p, sent, k, close);
      total := sent + k;
    }

    /** `send()`: the bytes that the answers take leave the buffer, from the front and in order; and the
        connection closes exactly when the chunk that is not taken whole is answered with an error. */
    method Send(answers: seq<SendAnswer>) returns (sent: nat)
      requires Valid() && (bufferOut.stage == Sending ==> bufferOut.bufferSize > 0)
      modifies this`close, this`posts, this`wire, bufferOut
      ensures Valid() && sent <= |F.Prefixed(old(TxView())).buffer.bytes|
      ensures TxView() == F.Send(old(TxView()), sent, close)
      ensures !old(close) && (old(bufferOut.stage) == Full || old(bufferOut.stage) == Sending) ==>
        (sent, close) == SentBy(old(Queued()), answers)
    {
      SendHeader();
      ghost var p, all := TxView(), SentBy(bufferOut.chunks, answers);
      sent := 0;
      if close || bufferOut.stage != Sending {
        return;
      }
      var rest := answers;
      var again := true;
      F.TransmittedNothing(p);
      while again
        invariant Valid() && sent <= |p.buffer.bytes|
        invariant TxView() == F.Transmitted(p, sent, close)
        invariant again ==> !close && bufferOut.stage == Sending && bufferOut.bufferSize > 0
        invariant all ==
          if again then (sent + SentBy(bufferOut.chunks, rest).0, SentBy(bufferOut.chunks, rest).1) else (sent, close)
        decreases again, |bufferOut.chunks|
      {
        sent, rest, again := SendOn(p, sent, rest);
      }
    }

    /** `SimpleClient::sendData`. */
    method SendData(bytes: Bytes, answers: seq<SendAnswer>) returns (sent: nat)
      requires Valid()
      modifies this`close, this`posts, this`wire, bufferOut
      ensures Valid() && sent <= |F.Prefixed(F.Accept(old(TxView()), bytes)).buffer.bytes|
      ensures TxView() == F.Send(F.Accept(old(TxView()), bytes), sent, close)
      ensures !old(close) ==> var chunks := old(bufferOut.chunks) + [bytes];
        (sent, close) == SentBy([F.Header(|Flatten(chunks)|)] + chunks, answers)
    {
      bufferOut.PushBack(bytes);
      bufferOut.SetStage(Full);
      assert TxView() == F.Accept(old(TxView()), bytes);
      sent := Send(answers);
    }

    /** `SimpleClient::recvData`. */
    method RecvData() returns (bytes: Bytes)
      requires Valid()
      modifies bufferIn
      ensures Valid() && (RxView(), bytes) == F.Take(old(RxView()))
    {
      bytes := bufferIn.PopAll();
      bufferIn.SetStage(Empty);
    }
  }
}
