/** `ClientBuffer::recv(n)`: collecting up to n bytes from a non-blocking socket that may answer
    anything. */
module SocketReads {
  import opened Common
  import Buffers

  /** The answers of successive `::recv` calls; data of length 0 is `Eof`. */
  datatype Answer = Got(data: Bytes) | Again | Eof | Fault

  /** No call returns more than it asked for. */
  predicate Plausible(asked: nat, script: seq<Answer>) {
    asked > 0 && script != [] && script[0].Got? ==>
      1 <= |script[0].data| <= asked && Plausible(asked - |script[0].data|, script[1..])
  }

  /** What a whole `recv(n)` took from the socket; `kept` is the size to which the vector had been
      cut before the last `::recv`. */
  datatype Outcome = Outcome(received: Bytes, kept: nat, closed: bool, rest: seq<Answer>)

  /** A socket with nothing more to say answers EAGAIN. */
  function Drain(remaining: nat, script: seq<Answer>): (o: Outcome)
    requires Plausible(remaining, script)
    ensures |o.received| <= remaining
    decreases |script|
  {
    if remaining == 0 then Outcome([], 0, false, script)
    else if script == [] then Outcome([], remaining, false, [])
    else
      match script[0]
      case Again => Outcome([], remaining, false, script[1..])
      case Eof => Outcome([], remaining, true, script[1..])
      case Fault => Outcome([], remaining, true, script[1..])
      case Got(data) =>
        if |data| == remaining then Outcome(data, remaining, false, script[1..])
        else
          var o := Drain(remaining - |data|, script[1..]);
          o.(received := data + o.received)
  }

  /** The data of answers, one after the other. */
  function Datas(script: seq<Answer>): Bytes {
    if script == [] then [] else (if script[0].Got? then script[0].data else []) + Datas(script[1..])
  }

  /** `recv(n)` uses k answers of data, all of which it receives; then, unless those filled the request
      or no answer is left, one that ends it, and that closes the connection exactly when it is end of
      file or an error other than EAGAIN. */
  ghost predicate Uses(n: nat, script: seq<Answer>, k: nat)
    requires Plausible(n, script)
  {
    && k <= |script| && (forall i :: 0 <= i < k ==> script[i].Got?)
    && var o, data := Drain(n, script), Datas(script[..k]);
       var ends := |data| < n && k < |script|;
       && o.received == data
       && o.rest == script[if ends then k + 1 else k..]
       && (ends ==> !script[k].Got?)
       && (o.closed <==> ends && (script[k].Eof? || script[k].Fault?))
  }

  lemma {:induction false} DrainMeans(n: nat, script: seq<Answer>)
    requires Plausible(n, script)
    ensures exists k: nat :: Uses(n, script, k)
    decreases |script|
  {
    if n == 0 || script == [] || !script[0].Got? {
      assert Uses(n, script, 0);
    } else if |script[0].data| == n {
      assert script[..1][1..] == [];
      assert Uses(n, script, 1);
    } else {
      DrainMeans(n - |script[0].data|, script[1..]);
      var j: nat :| Uses(n - |script[0].data|, script[1..], j);
      OneMore(n, script, j);
    }
  }

  lemma OneMore(n: nat, script: seq<Answer>, j: nat)
    requires Plausible(n, script) && script != [] && script[0].Got? && |script[0].data| < n
    requires Uses(n - |script[0].data|, script[1..], j)
    ensures Uses(n, script, j + 1)
  {
    assert script[..j + 1][1..] == script[1..][..j];
    forall i | 1 <= i < j + 1 ensures script[i].Got? {
      assert script[i] == script[1..][i - 1];
    }
  }

  /** What `recv(n)` returns: only the bytes that fell inside the shrunk vector survive, the final
      `resize` fills the others with zeros.  Nothing when the connection is closed. */
  function Returned(o: Outcome): Bytes {
    if o.closed then []
    else
      var kept := Min(o.kept, |o.received|);
      o.received[..kept] + Zeros(|o.received| - kept)
  }

  /** The vector of `recv(n)`: cut at each retry, as written, or left at its n bytes, as intended. */
  datatype Vector = Shrinking | Whole

  /** What `recv(n)` returns with either vector. */
  function Handed(o: Outcome, v: Vector): Bytes {
    if o.closed then [] else if v == Whole then o.received else Returned(o)
  }

  /** `got` has been read, `rest` is to come, and together they make the outcome `o`. */
  ghost predicate OnTheWay(o: Outcome, got: Bytes, remaining: nat, size: nat, rest: seq<Answer>) {
    && Plausible(remaining, rest)
    && var d := Drain(remaining, rest);
       o == if remaining == 0 then Outcome(got, size, false, rest) else d.(received := got + d.received)
  }

  lemma GotMore(o: Outcome, got: Bytes, remaining: nat, size: nat, rest: seq<Answer>)
    requires remaining > 0 && OnTheWay(o, got, remaining, size, rest) && rest != [] && rest[0].Got?
    ensures 1 <= |rest[0].data| <= remaining
    ensures OnTheWay(o, got + rest[0].data, remaining - |rest[0].data|, remaining, rest[1..])
  {
    var data := rest[0].data;
    if |data| < remaining {
      var d := Drain(remaining - |data|, rest[1..]);
      assert got + (data + d.received) == (got + data) + d.received;
    }
  }

  lemma NoMore(o: Outcome, got: Bytes, remaining: nat, size: nat, rest: seq<Answer>)
    requires remaining > 0 && OnTheWay(o, got, remaining, size, rest) && (rest == [] || !rest[0].Got?)
    ensures o == Outcome(got, remaining, rest != [] && !rest[0].Again?, if rest == [] then [] else rest[1..])
  {
    assert got + [] == got;
  }

  /** What the first `count` bytes of the room hold. */
  ghost predicate Holds(buffer: array<Byte>, got: Bytes)
    reads buffer
  {
    |got| <= buffer.Length && buffer[..|got|] == got
  }

  /** `::recv` writes behind what is already there. */
  method Store(buffer: array<Byte>, ghost got: Bytes, at: nat, data: Bytes)
    requires Holds(buffer, got) && |got| == at && at + |data| <= buffer.Length
    modifies buffer
    ensures Holds(buffer, got + data)
  {
    Buffers.Buffer.CopyInto(buffer, at, data, |data|);
    assert buffer[..at + |data|] == buffer[..at] + buffer[at..at + |data|];
  }

  /** One round of the loop that gets data. */
  method OneRecv(buffer: array<Byte>, ghost o: Outcome, ghost got: Bytes, remaining: nat, ghost size: nat,
                 rest: seq<Answer>)
    returns (ghost more: Bytes, left: nat)
    requires Holds(buffer, got) && |got| + remaining == buffer.Length && remaining > 0
    requires OnTheWay(o, got, remaining, size, rest) && rest != [] && rest[0].Got?
    modifies buffer
    ensures Holds(buffer, more) && |more| + left == buffer.Length && OnTheWay(o, more, left, remaining, rest[1..])
  {
    var data := rest[0].data;
    GotMore(o, got, remaining, size, rest);
    Store(buffer, got, buffer.Length - remaining, data);
    more := got + data;
    left := remaining - |data|;
  }

  /** The final `resize` of a vector of `size` bytes to `total` bytes. */
  method Resize(buffer: array<Byte>, ghost got: Bytes, size: nat, total: nat) returns (bytes: Bytes)
    requires Holds(buffer, got) && |got| == total
    ensures bytes == got[..Min(size, total)] + Zeros(total - Min(size, total))
  {
    var kept := Min(size, total);
    bytes := buffer[..kept] + Zeros(total - kept);
    assert got[..kept] == buffer[..kept];
  }

  /** The loop as written: `buffer` has room for n bytes, of which `size` belong to the vector. */
  method RecvBytes(n: nat, script: seq<Answer>) returns (bytes: Bytes, closed: bool, rest: seq<Answer>)
    requires Plausible(n, script)
    ensures bytes == Returned(Drain(n, script))
    ensures closed == Drain(n, script).closed && rest == Drain(n, script).rest
  {
    var buffer := new Byte[n];
    var size, remaining := n, n;
    closed, rest := false, script;
    ghost var got: Bytes := [];
    ghost var o := Drain(n, script);
    assert OnTheWay(o, got, remaining, size, rest) by {
      assert [] + o.received == o.received;
    }
    while remaining > 0
      invariant 0 <= remaining && |got| + remaining == n == buffer.Length && Holds(buffer, got)
      invariant !closed && OnTheWay(o, got, remaining, size, rest)
      decreases |rest|
    {
      size := remaining;
      if rest == [] || !rest[0].Got? {
        NoMore(o, got, remaining, size, rest);
        if rest != [] {
          closed := !rest[0].Again?;
          rest := rest[1..];
        }
        break;
      }
      got, remaining := OneRecv(buffer, o, got, remaining, size, rest);
      rest := rest[1..];
    }
    assert o == Outcome(got, size, closed, rest);
    if closed {
      return [], closed, rest;
    }
    bytes := Resize(buffer, got, size, n - remaining);
  }

  /** The first read brings everything that was asked for. */
  predicate FilledAtOnce(n: nat, script: seq<Answer>) {
    script != [] && script[0].Got? && |script[0].data| == n
  }

  lemma {:induction false} KeptIs(n: nat, script: seq<Answer>)
    requires Plausible(n, script) && !Drain(n, script).closed
    ensures var o := Drain(n, script);
      && (|o.received| < n ==> o.kept == n - |o.received|)
      && (|o.received| == n ==> o.kept <= n && (o.kept == n <==> n == 0 || FilledAtOnce(n, script)))
    decreases |script|
  {
    if n > 0 && script != [] && script[0].Got? && |script[0].data| < n {
      KeptIs(n - |script[0].data|, script[1..]);
    }
  }

  /** The sizes alone guarantee that nothing is lost. */
  predicate Faithful(n: nat, script: seq<Answer>)
    requires Plausible(n, script)
  {
    n == 0 || FilledAtOnce(n, script) || 2 * |Drain(n, script).received| <= n
  }

  /** `recv(n)` returns the bytes it received exactly when they came in one read, or are at most
      half of what was asked for, or happen to be zero from the cut on. */
  lemma ReturnedIsReceivedIff(n: nat, script: seq<Answer>)
    requires Plausible(n, script) && !Drain(n, script).closed
    ensures var o := Drain(n, script);
      Returned(o) == o.received <==>
        || Faithful(n, script)
        || forall i :: o.kept <= i < |o.received| ==> o.received[i] == 0
  {
    KeptIs(n, script);
    var o := Drain(n, script);
    var kept := Min(o.kept, |o.received|);
    assert Returned(o)[..kept] == o.received[..kept];
    forall i | kept <= i < |o.received| ensures Returned(o)[i] == 0 {
    }
    assert Returned(o) == o.received <==> forall i :: kept <= i < |o.received| ==> o.received[i] == 0 by {
      if forall i :: kept <= i < |o.received| ==> o.received[i] == 0 {
        assert forall i :: 0 <= i < |o.received| ==> Returned(o)[i] == o.received[i];
      }
    }
  }

  /** Either the vector is not cut, or the sizes alone guarantee that nothing is lost, or what is lost
      happens to be zeros. */
  predicate Undamaged(n: nat, script: seq<Answer>, v: Vector)
    requires Plausible(n, script)
  {
    var o := Drain(n, script);
    v == Whole || Faithful(n, script) || forall i :: o.kept <= i < |o.received| ==> o.received[i] == 0
  }

  lemma HandedIsReceivedIff(n: nat, script: seq<Answer>, v: Vector)
    requires Plausible(n, script) && !Drain(n, script).closed
    ensures Handed(Drain(n, script), v) == Drain(n, script).received <==> Undamaged(n, script, v)
    ensures |Handed(Drain(n, script), v)| == |Drain(n, script).received|
  {
    ReturnedIsReceivedIff(n, script);
  }

  /** Two bytes survive exactly when they came at once or the second one is zero. */
  lemma TwoBytesSurviveIff(script: seq<Answer>)
    requires Plausible(2, script) && !Drain(2, script).closed && |Drain(2, script).received| == 2
    ensures Undamaged(2, script, Shrinking) <==> FilledAtOnce(2, script) || Drain(2, script).received[1] == 0
  {
    KeptIs(2, script);
    KeptIsPositive(2, script);
  }

  lemma {:induction false} KeptIsPositive(n: nat, script: seq<Answer>)
    requires n > 0 && Plausible(n, script)
    ensures Drain(n, script).kept > 0
    decreases |script|
  {
    if script != [] && script[0].Got? && |script[0].data| < n {
      KeptIsPositive(n - |script[0].data|, script[1..]);
    }
  }

  /** Three bytes that arrive as two and one are returned with the first one alone intact. */
  lemma SplitReadCorrupts()
    ensures var script := [Got([1, 2]), Got([3])];
      && Plausible(3, script)
      && Drain(3, script).received == [1, 2, 3] && Returned(Drain(3, script)) == [1, 0, 0]
  {
    var script := [Got([1, 2]), Got([3])];
    assert script[1..] == [Got([3])];
    assert Drain(1, script[1..]) == Outcome([3], 1, false, []);
    assert Drain(3, script).received == [1, 2] + [3];
    assert Drain(3, script).kept == 1;
  }
}
