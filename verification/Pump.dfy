/**
 One direction of the session's byte pump (internal/runtime/session.go:404-488; carrierToTarget and
 targetToCarrier are the same loop with different ends). What the reader and the writer do is scripted:
 any sequence of reads and writes that obeys io.Reader and io.Writer.
 */
module Pump {
  import opened Units

  const DEFAULT_CHUNK := 32 * 1024

  datatype Err = Nil | Eof | Failed

  /** Bytes that a reader has ready, and the error that comes with the last of them. */
  datatype Chunk = Chunk(data: seq<byte>, err: Err)

  /** All bytes before the first error, in order; a reader that runs dry is at EOF. */
  function Stream(script: seq<Chunk>): seq<byte> {
    if script == [] then []
    else if script[0].err != Nil then script[0].data
    else script[0].data + Stream(script[1..])
  }

  function End(script: seq<Chunk>): Err {
    if script == [] then Eof else if script[0].err != Nil then script[0].err else End(script[1..])
  }

  function Size(script: seq<Chunk>): nat {
    if script == [] then 0 else 1 + |script[0].data| + Size(script[1..])
  }

  /** The script after n bytes of its first chunk were read, with more of them to come. */
  function Rest(script: seq<Chunk>, n: nat): seq<Chunk>
    requires script != [] && n <= |script[0].data|
  {
    [script[0].(data := script[0].data[n..])] + script[1..]
  }

  lemma First(c: Chunk, rest: seq<Chunk>)
    ensures Stream([c] + rest) == c.data + if c.err == Nil then Stream(rest) else []
    ensures End([c] + rest) == if c.err == Nil then End(rest) else c.err
    ensures Size([c] + rest) == 1 + |c.data| + Size(rest)
  {
    assert ([c] + rest)[1..] == rest;
  }

  lemma Taken(script: seq<Chunk>, n: nat)
    requires script != [] && n <= |script[0].data|
    ensures Stream(script) == script[0].data[..n] + Stream(Rest(script, n))
    ensures End(Rest(script, n)) == End(script) && Size(Rest(script, n)) == Size(script) - n
  {
    hide Stream, End, Size;
    var c := script[0];
    First(c, script[1..]);
    First(c.(data := c.data[n..]), script[1..]);
    assert script == [c] + script[1..];
    assert c.data == c.data[..n] + c.data[n..];
  }

  class Reader {
    var script: seq<Chunk>

    constructor (script: seq<Chunk>)
      ensures this.script == script
    {
      this.script := script;
    }

    /** A read may fill less than the buffer, give no bytes, or give bytes together with an error. */
    method Read(buf: array<byte>) returns (n: nat, err: Err)
      requires buf.Length > 0
      modifies this, buf
      ensures n <= buf.Length
      ensures Stream(old(script)) == buf[..n] + (if err == Nil then Stream(script) else [])
      ensures if err == Nil then End(script) == End(old(script)) else err == End(old(script))
      ensures err == Nil ==> Size(script) < Size(old(script))
    {
      if script == [] {
        return 0, Eof;
      }
      var c := script[0];
      n := if |c.data| <= buf.Length then |c.data| else buf.Length;
      forall i | 0 <= i < n {
        buf[i] := c.data[i];
      }
      assert buf[..n] == c.data[..n];
      if n == |c.data| {
        assert script == [c] + script[1..] && c.data[..n] == c.data;
        First(c, script[1..]);
        err := c.err;
        script := script[1..];
      } else {
        Taken(script, n);
        err := Nil;
        script := Rest(script, n);
      }
    }
  }

  /** What one Write does: at most how many bytes it takes, and whether it reports an error. */
  datatype Taking = Taking(most: nat, fails: bool)

  class Writer {
    const halfCloses: bool // has a CloseWrite method
    var script: seq<Taking>
    var received: seq<byte>
    var halfClosedAt: seq<nat> // how many bytes had been received at each CloseWrite
    ghost var lost: bool       // some Write reported an error with bytes left over

    constructor (script: seq<Taking>, halfCloses: bool)
      ensures this.script == script && this.halfCloses == halfCloses && received == [] && halfClosedAt == [] && !lost
    {
      this.script, this.halfCloses, received, halfClosedAt, lost := script, halfCloses, [], [], false;
    }

    /** Writes buf[from..to]; a short write without an error still makes progress. */
    method Write(buf: array<byte>, from: nat, to: nat) returns (w: nat, failed: bool)
      requires from < to <= buf.Length
      modifies this
      ensures w <= to - from && (w == 0 ==> failed)
      ensures received == old(received) + buf[from..from + w] && halfClosedAt == old(halfClosedAt)
      ensures lost == (old(lost) || (failed && w < to - from))
    {
      var take := if script == [] then Taking(to - from, false) else script[0];
      w := if take.most < to - from then take.most else to - from;
      failed := take.fails;
      if w == 0 && !failed {
        w := 1;
      }
      script := if script == [] then [] else script[1..];
      received := received + buf[from..from + w];
      lost := lost || (failed && w < to - from);
    }

    method CloseWrite()
      modifies this
      ensures received == old(received) && halfClosedAt == old(halfClosedAt) + [|received|] && lost == old(lost)
    {
      halfClosedAt := halfClosedAt + [|received|];
    }
  }

  /** Delivers all n bytes, or a proper prefix of them and an error. */
  method WriteAll(sink: Writer, buf: array<byte>, n: nat) returns (failed: bool)
    requires n <= buf.Length && !sink.lost
    modifies sink
    ensures old(sink.received) <= sink.received <= old(sink.received) + buf[..n]
    ensures failed <==> sink.received != old(sink.received) + buf[..n]
    ensures sink.lost == failed && sink.halfClosedAt == old(sink.halfClosedAt)
  {
    var written := 0;
    while written < n
      invariant written <= n && !sink.lost
      invariant sink.received == old(sink.received) + buf[..written] && sink.halfClosedAt == old(sink.halfClosedAt)
      decreases n - written
    {
      var w, werr := sink.Write(buf, written, n);
      assert buf[..written] + buf[written..written + w] == buf[..written + w];
      written := written + w;
      if werr {
        assert sink.received == old(sink.received) + buf[..written];
        assert written < n ==> |sink.received| != |old(sink.received) + buf[..n]|;
        return written < n;
      }
    }
    return false;
  }

  class Counter {
    var value: int

    constructor ()
      ensures value == 0
    {
      value := 0;
    }
  }

  /**
   Clean exactly when the source ends with EOF and no write loses bytes. A clean direction has delivered
   the whole stream in order, counted it, and half-closed once, after its last byte. A failing one has
   delivered a prefix and counted no more than that, half-closes nothing and requests the stop.
   */
  method Copy(source: Reader, sink: Writer, count: Counter) returns (clean: bool, stop: bool)
    requires !sink.lost
    modifies source, sink, count
    ensures clean <==> End(old(source.script)) == Eof && !sink.lost
    ensures stop == !clean
    ensures clean ==> sink.received == old(sink.received) + Stream(old(source.script))
    ensures clean ==> count.value == old(count.value) + |Stream(old(source.script))|
    ensures sink.halfClosedAt == old(sink.halfClosedAt) + if clean && sink.halfCloses then [|sink.received|] else []
    ensures old(sink.received) <= sink.received <= old(sink.received) + Stream(old(source.script))
    ensures 0 <= count.value - old(count.value) <= |sink.received| - |old(sink.received)|
    ensures !sink.lost ==> sink.received == old(sink.received) + Stream(old(source.script))
  {
    var buf := new byte[DEFAULT_CHUNK];
    ghost var all := Stream(old(source.script));
    ghost var done: seq<byte> := [];
    while true
      invariant fresh(buf) && !sink.lost
      invariant sink.received == old(sink.received) + done && sink.halfClosedAt == old(sink.halfClosedAt)
      invariant count.value == old(count.value) + |done|
      invariant all == done + Stream(source.script)
      invariant End(source.script) == End(old(source.script))
      decreases Size(source.script)
    {
      var n, err := source.Read(buf);
      ghost var got := buf[..n];
      ghost var rest := if err == Nil then Stream(source.script) else [];
      Regroup(done, got, rest, old(sink.received));
      if n > 0 {
        var failed := WriteAll(sink, buf, n);
        if failed {
          return false, true;
        }
        count.value := count.value + n;
      }
      done := done + got;
      if n > 0 && err == Nil {
        continue;
      }
      if err == Eof {
        if sink.halfCloses {
          sink.CloseWrite();
        }
        return true, false;
      }
      if err != Nil {
        return false, true;
      }
    }
  }

  lemma Regroup(done: seq<byte>, got: seq<byte>, rest: seq<byte>, before: seq<byte>)
    ensures done + (got + rest) == (done + got) + rest
    ensures before + (done + got) == (before + done) + got
    ensures before + done + got <= before + (done + (got + rest))
  {}
}
