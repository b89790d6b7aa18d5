/**
 * `WebSocketClient` in main.cpp: the `connected` flag and how Receive puts a
 * message back together from the buffers WinHttpWebSocketReceive hands it.
 * The stream of buffers the server will deliver is `env.incoming`.
 */
module WebSocket {
  import opened Host

  /** What one call of Receive comes to. */
  datatype Delivery =
    | Delivered(msg: string)  // Receive returned true with this message
    | Dropped                 // Receive returned false
    | Pending                 // the stream ran out mid-message: the call has not returned yet

  /** The reassembly of one message from a stream of buffers, and how many buffers it read. */
  datatype Reassembly = Got(msg: string, used: nat) | Lost(used: nat) | Blocked

  /** The loop condition of Receive: another read follows a full buffer or a UTF-8 fragment. */
  predicate More(c: Chunk)
    requires c.Frame?
  {
    |c.data| == BufferSize || c.kind == Utf8Fragment
  }

  /** The text carried by a series of buffers, in order. */
  function Join(cs: seq<Chunk>): string {
    if cs == [] then [] else (if cs[0].Frame? then cs[0].data else []) + Join(cs[1..])
  }

  /** A buffer Receive appends and then reads past. */
  predicate Continues(c: Chunk) {
    c.Frame? && c.kind != CloseFrame && More(c)
  }

  /** A buffer that ends the message Receive is building. */
  predicate Completes(c: Chunk) {
    c.Frame? && c.kind != CloseFrame && !More(c)
  }

  /** The same outcome, counting one more buffer read before it. */
  function After(r: Reassembly, k: nat): Reassembly {
    match r
    case Got(m, u) => Got(m, u + k)
    case Lost(u) => Lost(u + k)
    case Blocked => Blocked
  }

  /**
   * Receive's loop over the stream `cs`, with `acc` already read: a failed
   * read or a close buffer loses the message, a buffer that does not call for
   * another read completes it, and a stream that runs out while the message
   * goes on blocks.
   */
  function ReassembleFrom(cs: seq<Chunk>, acc: string): (r: Reassembly)
    ensures !r.Blocked? ==> 1 <= r.used <= |cs|
    decreases |cs|
  {
    if cs == [] then Blocked
    else if cs[0].ReceiveFailed? || cs[0].kind == CloseFrame then Lost(1)
    else if !More(cs[0]) then Got(acc + cs[0].data, 1)
    else After(ReassembleFrom(cs[1..], acc + cs[0].data), 1)
  }

  /**
   * A delivered message is what was read before plus the text of the buffers
   * used: every one of them but the last continues the message and the last
   * completes it.
   */
  lemma {:induction false} DeliveredMeaning(cs: seq<Chunk>, acc: string)
    requires ReassembleFrom(cs, acc).Got?
    ensures var r := ReassembleFrom(cs, acc);
            r.msg == acc + Join(cs[..r.used])
            && (forall k :: 0 <= k < r.used - 1 ==> Continues(cs[k]))
            && Completes(cs[r.used - 1])
    decreases |cs|
  {
    if !More(cs[0]) {
      assert cs[..1] == [cs[0]];
      assert Join([cs[0]]) == cs[0].data + Join([]);
    } else {
      var r := ReassembleFrom(cs[1..], acc + cs[0].data);
      DeliveredMeaning(cs[1..], acc + cs[0].data);
      assert forall k :: 1 <= k <= r.used ==> cs[k] == cs[1..][k - 1];
      assert cs[..r.used + 1][1..] == cs[1..][..r.used];
      assert Join(cs[..r.used + 1]) == cs[0].data + Join(cs[1..][..r.used]);
    }
  }

  /** A lost message ends at a failed read or a close buffer, after buffers that all continued it. */
  lemma {:induction false} LostMeaning(cs: seq<Chunk>, acc: string)
    requires ReassembleFrom(cs, acc).Lost?
    ensures var r := ReassembleFrom(cs, acc);
            (forall k :: 0 <= k < r.used - 1 ==> Continues(cs[k]))
            && (cs[r.used - 1].ReceiveFailed? || cs[r.used - 1].kind == CloseFrame)
    decreases |cs|
  {
    if !(cs[0].ReceiveFailed? || cs[0].kind == CloseFrame) {
      var r := ReassembleFrom(cs[1..], acc + cs[0].data);
      LostMeaning(cs[1..], acc + cs[0].data);
      assert forall k :: 1 <= k <= r.used ==> cs[k] == cs[1..][k - 1];
    }
  }

  /** The loop blocks exactly when every buffer in sight continues the message. */
  lemma {:induction false} BlockedMeaning(cs: seq<Chunk>, acc: string)
    ensures ReassembleFrom(cs, acc).Blocked? <==> forall k :: 0 <= k < |cs| ==> Continues(cs[k])
    decreases |cs|
  {
    if cs != [] && Continues(cs[0]) {
      BlockedMeaning(cs[1..], acc + cs[0].data);
      assert forall k :: 1 <= k < |cs| ==> cs[k] == cs[1..][k - 1];
    }
  }

  /** The message Receive is after, read from the start of the stream. */
  function Reassemble(cs: seq<Chunk>): Reassembly {
    ReassembleFrom(cs, "")
  }

  /**
   * Once Receive returns, what came after the buffers it used does not
   * matter: a longer look-ahead gives the same outcome.
   */
  lemma {:induction false} ReassembleExtend(cs: seq<Chunk>, extra: seq<Chunk>, acc: string)
    requires !ReassembleFrom(cs, acc).Blocked?
    ensures ReassembleFrom(cs + extra, acc) == ReassembleFrom(cs, acc)
    decreases |cs|
  {
    assert (cs + extra)[0] == cs[0];
    if cs[0].Frame? && cs[0].kind != CloseFrame && More(cs[0]) {
      assert (cs + extra)[1..] == cs[1..] + extra;
      ReassembleExtend(cs[1..], extra, acc + cs[0].data);
    }
  }

  /** The UTF-8 fragments of one message. */
  function Fragments(ds: seq<Buffer>): (cs: seq<Chunk>)
    ensures |cs| == |ds|
  {
    if ds == [] then [] else [Frame(Utf8Fragment, ds[0])] + Fragments(ds[1..])
  }

  function Concat(ds: seq<Buffer>): string {
    if ds == [] then [] else ds[0] + Concat(ds[1..])
  }

  /**
   * A message sent as fragments followed by a final buffer shorter than the
   * receive buffer comes back whole, whatever follows it.
   */
  lemma {:induction false} FragmentsJoined(ds: seq<Buffer>, last: Buffer, rest: seq<Chunk>, acc: string)
    requires |last| < BufferSize
    ensures ReassembleFrom(Fragments(ds) + [Frame(Utf8Message, last)] + rest, acc)
            == Got(acc + Concat(ds) + last, |ds| + 1)
    decreases |ds|
  {
    var cs := Fragments(ds) + [Frame(Utf8Message, last)] + rest;
    if ds == [] {
      assert cs[0] == Frame(Utf8Message, last);
    } else {
      assert cs[0] == Frame(Utf8Fragment, ds[0]);
      assert cs[1..] == Fragments(ds[1..]) + [Frame(Utf8Message, last)] + rest;
      FragmentsJoined(ds[1..], last, rest, acc + ds[0]);
      assert acc + ds[0] + Concat(ds[1..]) + last == acc + Concat(ds) + last;
    }
  }

  /**
   * A complete message of exactly 4096 bytes is not recognised as complete:
   * the loop reads on and joins the next message to it.
   */
  lemma FullBufferJoinsNext(d1: Buffer, d2: Buffer)
    requires |d1| == BufferSize && |d2| < BufferSize
    ensures Reassemble([Frame(Utf8Message, d1), Frame(Utf8Message, d2)]) == Got(d1 + d2, 2)
  {
    var cs := [Frame(Utf8Message, d1), Frame(Utf8Message, d2)];
    assert More(cs[0]) && "" + d1 == d1;
    assert cs[1..] == [Frame(Utf8Message, d2)];
    assert ReassembleFrom(cs[1..], d1) == Got(d1 + d2, 1);
  }

  /** WebSocketClient: the WinHTTP handles are left out; `connected` is kept. */
  class WebSocketClient {
    const env: Env
    var connected: bool

    constructor (env: Env)
      ensures this.env == env && !connected
    {
      this.env := env;
      connected := false;
    }

    /** Close: the handles are released and the client is no longer connected. */
    method Close()
      modifies this`connected
      ensures !connected
    {
      connected := false;
    }

    /**
     * Connect: the WinHTTP chain up to the upgrade. A failure leaves
     * `connected` as it was.
     */
    method Connect() returns (ok: bool)
      modifies this`connected, env`log
      ensures env.log == old(env.log) + [OpenSocket(ok)]
      ensures connected == (old(connected) || ok)
    {
      ok := env.Open();
      if ok {
        connected := true;
      }
    }

    /** Send: nothing goes out unless connected. */
    method Send(msg: string) returns (ok: bool)
      modifies env`log
      ensures !connected ==> !ok && env.log == old(env.log)
      ensures connected ==> env.log == old(env.log) + [SendText(msg, ok)]
    {
      if !connected {
        return false;
      }
      ok := env.Send(msg);
    }

    /**
     * Receive: read buffers while the last was full or a UTF-8 fragment. A
     * failed read or a close buffer closes the client.
     */
    method Receive() returns (d: Delivery)
      modifies this`connected, env`incoming
      ensures !old(connected) ==> d == Dropped && !connected && env.incoming == old(env.incoming)
      ensures old(connected) ==>
                var r := Reassemble(old(env.incoming));
                match r
                case Got(m, u) => d == Delivered(m) && connected && env.incoming == old(env.incoming)[u..]
                case Lost(u) => d == Dropped && !connected && env.incoming == old(env.incoming)[u..]
                case Blocked => d == Pending && connected && env.incoming == old(env.incoming)
    {
      if !connected {
        return Dropped;
      }
      var cs := env.incoming;
      var full := "";
      var i := 0;
      var more := true;
      while more
        invariant 0 <= i <= |cs| && cs == env.incoming == old(env.incoming) && connected
        invariant more ==> Reassemble(cs) == After(ReassembleFrom(cs[i..], full), i)
        invariant !more ==> Reassemble(cs) == Got(full, i)
        decreases |cs| - i + (if more then 1 else 0)
      {
        if i == |cs| {
          assert cs[i..] == [];
          return Pending;
        }
        var c := cs[i];
        assert cs[i..][0] == c && cs[i..][1..] == cs[i + 1..];
        if c.ReceiveFailed? || c.kind == CloseFrame {
          env.Consume(i + 1);
          Close();
          return Dropped;
        }
        full := full + c.data;
        i := i + 1;
        more := |c.data| == BufferSize || c.kind == Utf8Fragment;
      }
      env.Consume(i);
      d := Delivered(full);
    }
  }
}
