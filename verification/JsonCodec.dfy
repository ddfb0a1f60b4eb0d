/** The codec object: one file-transfer table shared by all connections, and the
    decoding loop over a connection's input buffer. */
module JsonCodecs {
  import opened Options
  import opened Buffers
  import opened CodecSpec

  type ConnId = nat

  datatype Transfer = Transfer(name: string, fileSize: nat, written: Bytes)

  class JsonCodec {
    const env: Env
    var transfers: map<ConnId, Transfer>
    var logs: map<ConnId, seq<Event>>
    // connections whose onMessage let an exception escape; nothing runs after that
    var escaped: set<ConnId>

    constructor (env: Env)
      ensures this.env == env
      ensures forall conn: ConnId :: View(conn, []) == FRESH
    {
      this.env := env;
      transfers := map[];
      logs := map[];
      escaped := {};
    }

    function Log(conn: ConnId): seq<Event>
      reads this
    {
      if conn in logs then logs[conn] else []
    }

    function ModeOf(conn: ConnId): Mode
      reads this
    {
      if conn in escaped then Dead
      else if conn in transfers then var t := transfers[conn]; File(t.name, t.fileSize, t.written)
      else Lines
    }

    /** One connection's share of the codec, over the bytes in its input buffer. */
    function View(conn: ConnId, input: Bytes): Conn
      reads this
    {
      Conn(ModeOf(conn), Log(conn), input)
    }

    method Emit(conn: ConnId, events: seq<Event>)
      modifies `logs
      ensures Log(conn) == old(Log(conn)) + events
      ensures forall other :: other != conn ==> Log(other) == old(Log(other))
    {
      logs := logs[conn := Log(conn) + events];
    }

    /** Decodes everything that is complete, and touches no other connection. */
    method OnMessage(conn: ConnId, buf: Buffer)
      requires buf.Valid()
      modifies this, buf
      ensures buf.Valid() && buf.data == old(buf.data)
      ensures View(conn, buf.Contents()) == Run(env, old(View(conn, buf.Contents())))
      ensures forall other :: other != conn ==> View(other, []) == old(View(other, []))
    {
      if conn in escaped {
        return;
      }
      var done := false;
      while !done && buf.Readable() > 0
        invariant buf.Valid() && buf.data == old(buf.data) && (done || conn !in escaped)
        invariant (if done then View(conn, buf.Contents()) else Run(env, View(conn, buf.Contents())))
               == Run(env, old(View(conn, buf.Contents())))
        invariant forall other :: other != conn ==> View(other, []) == old(View(other, []))
        decreases !done, |buf.Contents()|, ModeRank(ModeOf(conn))
      {
        ghost var before := View(conn, buf.Contents());
        var stuck;
        stuck, done := Iterate(conn, buf);
        if stuck {
          break;
        }
        assert Run(env, before) == if done then Step(env, before).0 else Run(env, Step(env, before).0);
      }
    }

    /** One iteration of the loop: `stuck` means that no complete line has arrived yet,
        `done` that `onMessage` is left. */
    method Iterate(conn: ConnId, buf: Buffer) returns (stuck: bool, done: bool)
      requires buf.Valid() && buf.Readable() > 0 && conn !in escaped
      modifies this, buf
      ensures buf.Valid() && buf.data == old(buf.data) && (done || conn !in escaped)
      ensures stuck <==> !CanStep(old(View(conn, buf.Contents())))
      ensures stuck ==> !done && View(conn, buf.Contents()) == old(View(conn, buf.Contents()))
      ensures !stuck ==> (View(conn, buf.Contents()), done) == Step(env, old(View(conn, buf.Contents())))
      ensures forall other :: other != conn ==> View(other, []) == old(View(other, []))
    {
      stuck, done := false, false;
      if conn !in transfers {
        var crlf := buf.FindCRLF();
        if crlf.None? {
          return true, false;
        }
        var line := buf.Peek(crlf.value);
        buf.RetrieveUntil(crlf.value + 2);
        done := OnLine(conn, line, buf.Contents());
      } else {
        OnData(conn, buf);
      }
    }

    /** The body of the loop while a file is being received. */
    method OnData(conn: ConnId, buf: Buffer)
      requires buf.Valid() && conn in transfers && conn !in escaped
      modifies this, buf
      ensures buf.Valid() && buf.data == old(buf.data) && conn !in escaped
      ensures View(conn, buf.Contents()) == HandleData(old(View(conn, buf.Contents())))
      ensures forall other :: other != conn ==> View(other, []) == old(View(other, []))
    {
      var t := transfers[conn];
      var n := Min(buf.Readable(), t.fileSize);
      var data := buf.Peek(n);
      buf.Retrieve(n);
      t := t.(fileSize := t.fileSize - n, written := t.written + data);
      transfers := transfers[conn := t];
      if t.fileSize == 0 {
        transfers := transfers - {conn};
        Emit(conn, [FileClosed(t.name, t.written)]);
      }
    }

    /** The body of the loop for one complete line; true means `onMessage` is left. */
    method OnLine(conn: ConnId, line: Bytes, ghost rest: Bytes) returns (done: bool)
      requires conn !in transfers && conn !in escaped
      modifies this
      ensures (View(conn, rest), done) == HandleLine(env, old(View(conn, rest)), line)
      ensures done || conn !in escaped
      ensures forall other :: other != conn ==> View(other, []) == old(View(other, []))
    {
      done := false;
      match Classify(env, line) {
        case NotJson =>
          Emit(conn, [ParseFailed]);
        case NoField =>
          Emit(conn, [Escaped]);
          escaped := escaped + {conn};
          done := true;
        case StartFile(name, size) =>
          if env.opens(name) {
            transfers := transfers[conn := Transfer(name, size, [])];
            Emit(conn, [FileOpened(name, size)]);
            Emit(conn, Watch(env, HeartbeatOff));
          } else {
            Emit(conn, [OpenFailed(name)]);
            done := true;
          }
        case EndFile =>
          transfers := transfers - {conn};
          Emit(conn, Watch(env, HeartbeatOn));
        case Deliver(js) =>
          Emit(conn, [Callback(js)]);
      }
    }
  }

  /** The connection's read handler: each chunk goes behind the bytes already in the
      buffer, then `onMessage` runs.  No other connection notices. */
  method Serve(codec: JsonCodec, conn: ConnId, buf: Buffer, chunks: seq<Bytes>)
    requires buf.Valid()
    modifies codec, buf, buf.data
    ensures buf.Valid()
    ensures codec.View(conn, buf.Contents()) == FeedAll(codec.env, old(codec.View(conn, buf.Contents())), chunks)
    ensures forall other :: other != conn ==> codec.View(other, []) == old(codec.View(other, []))
  {
    var i := 0;
    while i < |chunks|
      invariant i <= |chunks| && buf.Valid() && (buf.data == old(buf.data) || fresh(buf.data))
      invariant FeedAll(codec.env, codec.View(conn, buf.Contents()), chunks[i..])
             == FeedAll(codec.env, old(codec.View(conn, buf.Contents())), chunks)
      invariant forall other :: other != conn ==> codec.View(other, []) == old(codec.View(other, []))
    {
      assert chunks[i..][0] == chunks[i] && chunks[i..][1..] == chunks[i + 1..];
      buf.Append(chunks[i]);
      codec.OnMessage(conn, buf);
      i := i + 1;
    }
  }
}
