/** What `JsonCodec::onMessage` computes, as a function of the bytes still in the
    input buffer and the file-transfer state of one connection.  The server and
    the client codec differ only in the message id that starts a file and in the
    server's heartbeat bookkeeping. */
module CodecSpec {
  import opened Options
  import opened Buffers

  const SEND_FILE: int := 71
  const SEND_FILE_END: int := 72
  const SEND_FILE_SERVER: int := 75

  /** The fields of a message the codec looks at; `rest` is everything else. */
  datatype Json = Json(msgid: Option<int>, filename: Option<string>, filesize: Option<nat>, rest: Bytes)

  datatype Role = Server | Client

  /** The codec's surroundings: the JSON library and the file system. */
  datatype Env = Env(role: Role, parse: Bytes -> Option<Json>, dump: Json -> Bytes, opens: string -> bool)

  function FileId(role: Role): int {
    if role.Server? then SEND_FILE else SEND_FILE_SERVER
  }

  /** What one complete line asks for.  A missing field raises a type error, which
      the handler around the line does not catch. */
  datatype Line = NotJson | NoField | StartFile(name: string, size: nat) | EndFile | Deliver(js: Json)

  function Classify(env: Env, line: Bytes): Line {
    match env.parse(line)
    case None => NotJson
    case Some(js) =>
      if js.msgid.None? then NoField
      else if js.msgid.value == FileId(env.role) then
        if js.filename.None? || js.filesize.None? then NoField
        else StartFile(js.filename.value, js.filesize.value)
      else if js.msgid.value == SEND_FILE_END then EndFile
      else Deliver(js)
  }

  datatype Event =
    | Callback(js: Json)
    | FileOpened(name: string, size: nat)
    | FileClosed(name: string, contents: Bytes)
    | OpenFailed(name: string)    // the connection is shut down
    | ParseFailed                 // the connection is shut down
    | HeartbeatOff                // the server stops watching the connection
    | HeartbeatOn
    | Escaped                     // an exception left onMessage and ends the process

  datatype Mode =
    | Lines
    | File(name: string, remaining: nat, got: Bytes)
    | Dead

  datatype Conn = Conn(mode: Mode, events: seq<Event>, input: Bytes)

  const FRESH := Conn(Lines, [], [])

  function Watch(env: Env, e: Event): seq<Event> {
    if env.role.Server? then [e] else []
  }

  function Min(a: nat, b: nat): nat {
    if a <= b then a else b
  }

  /** Whether the loop goes round once more. */
  predicate CanStep(c: Conn) {
    match c.mode
    case Lines => FirstCrlf(c.input).Some?
    case File(_, _, _) => c.input != []
    case Dead => false
  }

  /** A complete line has been cut off: `c.input` is what follows it. */
  function HandleLine(env: Env, c: Conn, line: Bytes): (Conn, bool) {
    match Classify(env, line)
    case NotJson => (c.(events := c.events + [ParseFailed]), false)
    case NoField => (c.(events := c.events + [Escaped], mode := Dead), true)
    case EndFile => (c.(events := c.events + Watch(env, HeartbeatOn)), false)
    case Deliver(js) => (c.(events := c.events + [Callback(js)]), false)
    case StartFile(name, size) =>
      if env.opens(name) then
        (c.(events := c.events + [FileOpened(name, size)] + Watch(env, HeartbeatOff), mode := File(name, size, [])), false)
      else
        (c.(events := c.events + [OpenFailed(name)]), true)
  }

  function HandleData(c: Conn): Conn
    requires c.mode.File?
  {
    var n := Min(|c.input|, c.mode.remaining);
    var got := c.mode.got + c.input[..n];
    var rest := c.input[n..];
    if c.mode.remaining == n then
      Conn(Lines, c.events + [FileClosed(c.mode.name, got)], rest)
    else
      Conn(File(c.mode.name, c.mode.remaining - n, got), c.events, rest)
  }

  function ModeRank(m: Mode): nat {
    if m.File? then 1 else 0
  }

  /** One iteration of the loop, and whether it returns from `onMessage`.  It either
      consumes bytes or, for a file with nothing left to come, leaves file mode. */
  function Step(env: Env, c: Conn): (r: (Conn, bool))
    requires CanStep(c)
    ensures |r.0.input| < |c.input| || (|r.0.input| == |c.input| && ModeRank(r.0.mode) < ModeRank(c.mode))
  {
    if c.mode.Lines? then
      var k := FirstCrlf(c.input).value;
      HandleLine(env, c.(input := c.input[k + 2..]), c.input[..k])
    else
      (HandleData(c), false)
  }

  /** One call of `onMessage`. */
  function Run(env: Env, c: Conn): Conn
    decreases |c.input|, ModeRank(c.mode)
  {
    if !CanStep(c) then c else
      var (next, done) := Step(env, c);
      if done then next else Run(env, next)
  }

  /** More bytes arrive behind those in the buffer. */
  function Behind(c: Conn, t: Bytes): Conn {
    c.(input := c.input + t)
  }

  /** A chunk arrives and `onMessage` is called. */
  function Feed(env: Env, c: Conn, chunk: Bytes): Conn {
    Run(env, Behind(c, chunk))
  }

  function FeedAll(env: Env, c: Conn, chunks: seq<Bytes>): Conn
    decreases |chunks|
  {
    if chunks == [] then c else FeedAll(env, Feed(env, c, chunks[0]), chunks[1..])
  }

  function Flatten(chunks: seq<Bytes>): Bytes
  {
    if chunks == [] then [] else chunks[0] + Flatten(chunks[1..])
  }

  /** A line as it can be cut from a stream: no CR LF before its end. */
  predicate Framed(line: Bytes) {
    FirstCrlf(line + CRLF) == Some(|line|)
  }

  /** Every file a well-framed line can name can be opened. */
  ghost predicate AllOpen(env: Env) {
    forall line: Bytes :: Framed(line) && Classify(env, line).StartFile? ==> env.opens(Classify(env, line).name)
  }

  /** How a stream is cut does not matter, from any state. */
  ghost predicate Independent(env: Env) {
    forall c: Conn, s: Bytes, t: Bytes :: Feed(env, Feed(env, c, s), t) == Feed(env, c, s + t)
  }

  lemma CutLineIsFramed(s: Bytes)
    requires FirstCrlf(s).Some?
    ensures Framed(s[..FirstCrlf(s).value])
  {
    var k := FirstCrlf(s).value;
    var line := s[..k];
    assert s[..k + 2] == line + CRLF;
    assert CrlfAt(line + CRLF, k);
    assert forall j: nat :: j < k ==> (CrlfAt(line + CRLF, j) <==> CrlfAt(s, j));
  }

  /** In line mode more bytes behind the buffer do not change an iteration. */
  lemma LineStepCommutes(env: Env, c: Conn, t: Bytes)
    requires CanStep(c) && c.mode.Lines?
    ensures CanStep(Behind(c, t))
    ensures Step(env, Behind(c, t)) == (Behind(Step(env, c).0, t), Step(env, c).1)
  {
    FirstCrlfStable(c.input, t);
    var k := FirstCrlf(c.input).value;
    assert (c.input + t)[..k] == c.input[..k];
    assert (c.input + t)[k + 2..] == c.input[k + 2..] + t;
  }

  lemma FileStepCommutes(env: Env, c: Conn, t: Bytes)
    requires CanStep(c) && c.mode.File? && c.mode.remaining <= |c.input|
    ensures Step(env, Behind(c, t)) == (Behind(Step(env, c).0, t), false)
  {
    var n := c.mode.remaining;
    assert (c.input + t)[..n] == c.input[..n] && (c.input + t)[n..] == c.input[n..] + t;
  }

  /** `onMessage` is left by a return (or an exception) and not by the end of the loop. */
  predicate Returned(env: Env, c: Conn)
    decreases |c.input|, ModeRank(c.mode)
  {
    CanStep(c) && (Step(env, c).1 || Returned(env, Step(env, c).0))
  }

  /** A run that ends with the loop goes on, with more bytes behind what it left, like
      the run over all of them; one that returns leaves the further bytes untouched. */
  lemma {:induction false} RunExtends(env: Env, c: Conn, t: Bytes)
    ensures !Returned(env, c) ==> Run(env, Behind(c, t)) == Run(env, Behind(Run(env, c), t))
    ensures Returned(env, c) ==> Run(env, Behind(c, t)) == Behind(Run(env, c), t)
    decreases |c.input|, ModeRank(c.mode)
  {
    if !CanStep(c) {
    } else {
      var next := Step(env, c).0;
      if c.mode.Lines? {
        LineStepCommutes(env, c, t);
        if !Step(env, c).1 { RunExtends(env, next, t); }
      } else {
        RunExtends(env, next, t);
        if c.mode.remaining <= |c.input| {
          FileStepCommutes(env, c, t);
        } else {
          SplitFileData(c, t);
          assert Behind(next, t).input == t;
          assert Behind(c, []) == c;
          assert Run(env, Behind(c, t)) == Run(env, Behind(next, t));
        }
      }
    }
  }

  /** A chunk that ends inside a file and the next chunk write what both would write at once. */
  lemma SplitFileData(c: Conn, t: Bytes)
    requires c.mode.File? && |c.input| < c.mode.remaining
    ensures t != [] ==> HandleData(Behind(c, t)) == HandleData(Behind(HandleData(c), t))
    ensures HandleData(c).input == [] && HandleData(c).mode.File?
  {
    var s, got := c.input, c.mode.got;
    assert s[..|s|] == s;
    var m := Min(|t|, c.mode.remaining - |s|);
    SplitSlice(s, t, m);
    assert [] + t == t;
    assert got + (s + t[..m]) == (got + s) + t[..m];
  }

  lemma SplitSlice(s: Bytes, t: Bytes, m: nat)
    requires m <= |t|
    ensures (s + t)[..|s| + m] == s + t[..m] && (s + t)[|s| + m..] == t[m..]
  {
  }

  /** A run that could make a step makes one, and ends somewhere else. */
  lemma {:induction false} RunMoves(env: Env, c: Conn)
    ensures |Run(env, c).input| <= |c.input|
    ensures CanStep(c) ==> Run(env, c) != c
    ensures CanStep(c) && |Run(env, c).input| == |c.input| ==> ModeRank(Run(env, c).mode) < ModeRank(c.mode)
    decreases |c.input|, ModeRank(c.mode)
  {
    if !CanStep(c) || Step(env, c).1 {
    } else {
      RunMoves(env, Step(env, c).0);
    }
  }

  lemma BehindBoth(c: Conn, s: Bytes, t: Bytes)
    ensures Behind(Behind(c, s), t) == Behind(c, s + t)
  {
    assert c.input + s + t == c.input + (s + t);
  }

  /** Exactly which cuts show, whatever the state and the bytes: one after a failed open
      that leaves, with the bytes to come, something the loop could go on with. */
  lemma CutShowsExactlyWhen(env: Env, c: Conn, s: Bytes, t: Bytes)
    ensures Feed(env, Feed(env, c, s), t) != Feed(env, c, s + t) <==>
      Returned(env, Behind(c, s)) && CanStep(Behind(Feed(env, c, s), t))
  {
    RunExtends(env, Behind(c, s), t);
    BehindBoth(c, s, t);
    RunMoves(env, Behind(Feed(env, c, s), t));
  }

  /** Fragmentation independence: when the whole stream leaves nothing the loop could
      go on with, any cutting of it gives the same callbacks, files, final mode and
      leftover bytes as the whole stream at once. */
  lemma {:induction false} AnyCutting(env: Env, c: Conn, chunks: seq<Bytes>)
    requires chunks != [] && !CanStep(Feed(env, c, Flatten(chunks)))
    ensures FeedAll(env, c, chunks) == Feed(env, c, Flatten(chunks))
    decreases |chunks|
  {
    var head, tail := chunks[0], chunks[1..];
    if tail == [] {
      assert Flatten(chunks) == head;
    } else {
      RunExtends(env, Behind(c, head), Flatten(tail));
      assert c.input + head + Flatten(tail) == c.input + Flatten(chunks);
      AnyCutting(env, Feed(env, c, head), tail);
    }
  }

  /** When files open, nothing is ever left that the loop could go on with. */
  lemma {:induction false} OpenFilesSettle(env: Env, c: Conn)
    requires AllOpen(env)
    ensures !CanStep(Run(env, c))
    decreases |c.input|, ModeRank(c.mode)
  {
    if !CanStep(c) {
    } else {
      if c.mode.Lines? { CutLineIsFramed(c.input); }
      if !Step(env, c).1 { OpenFilesSettle(env, Step(env, c).0); }
    }
  }

  lemma OpenFilesHideCuts(env: Env, c: Conn, s: Bytes, t: Bytes)
    requires AllOpen(env)
    ensures Feed(env, Feed(env, c, s), t) == Feed(env, c, s + t)
  {
    RunExtends(env, Behind(c, s), t);
    OpenFilesSettle(env, Behind(c, s + t));
    BehindBoth(c, s, t);
  }

  /** Fragmentation independence for every stream and every cutting, when files open. */
  lemma AnyCuttingWhenAllOpen(env: Env, c: Conn, chunks: seq<Bytes>)
    requires AllOpen(env) && chunks != []
    ensures FeedAll(env, c, chunks) == Feed(env, c, Flatten(chunks))
  {
    OpenFilesSettle(env, Behind(c, Flatten(chunks)));
    AnyCutting(env, c, chunks);
  }

  /** Cuts never show exactly when no open can fail: a failed open returns in mid-buffer,
      so what follows waits for the next chunk. */
  lemma IndependentExactlyWhenAllOpen(env: Env)
    ensures Independent(env) <==> AllOpen(env)
  {
    if AllOpen(env) {
      forall c: Conn, s: Bytes, t: Bytes
        ensures Feed(env, Feed(env, c, s), t) == Feed(env, c, s + t)
      {
        OpenFilesHideCuts(env, c, s, t);
      }
    } else {
      var line: Bytes :| Framed(line) && Classify(env, line).StartFile? && !env.opens(Classify(env, line).name);
      FailedOpenBreaksIndependence(env, line);
    }
  }

  lemma FailedOpenBreaksIndependence(env: Env, line: Bytes)
    requires Framed(line) && Classify(env, line).StartFile? && !env.opens(Classify(env, line).name)
    ensures var s := line + CRLF; Feed(env, Feed(env, FRESH, s), s) != Feed(env, FRESH, s + s)
  {
    var s := line + CRLF;
    var name := Classify(env, line).name;
    RunFailedOpen(env, [], line, []);
    RunFailedOpen(env, [], line, s);
    assert s + [] == s;
    assert Feed(env, FRESH, s) == Conn(Lines, [] + [OpenFailed(name)], []) by { assert [] + s == s; }
    assert Feed(env, FRESH, s + s) == Conn(Lines, [] + [OpenFailed(name)], s) by { assert [] + (s + s) == s + s; }
    RunFailedOpen(env, [] + [OpenFailed(name)], line, []);
    assert Feed(env, Feed(env, FRESH, s), s).input == [] by { assert [] + s == s; }
  }

  lemma RunFailedOpen(env: Env, events: seq<Event>, line: Bytes, rest: Bytes)
    requires Framed(line) && Classify(env, line).StartFile? && !env.opens(Classify(env, line).name)
    ensures Run(env, Conn(Lines, events, line + CRLF + rest)) == Conn(Lines, events + [OpenFailed(Classify(env, line).name)], rest)
  {
    var c := Conn(Lines, events, line + CRLF + rest);
    FirstCrlfStable(line + CRLF, rest);
    assert c.input[..|line|] == line && c.input[|line| + 2..] == rest;
  }

  // ----- Round trip -----

  /** What a peer sends: a message, a whole file, or any other line, such as one that is no
      JSON, an end line without a file, or a message that some other writer spelt. */
  datatype Item = Message(js: Json) | Upload(name: string, contents: Bytes) | RawLine(line: Bytes)

  /** The id by which each sender announces a file to this receiver. */
  function AnnounceId(receiver: Role): int {
    match receiver
    case Server => SEND_FILE
    case Client => SEND_FILE_SERVER
  }

  function Metadata(receiver: Role, name: string, size: nat): Json {
    Json(Some(AnnounceId(receiver)), Some(name), Some(size), [])
  }

  const END_MARK := Json(Some(SEND_FILE_END), None, None, [])

  function EncodeItem(env: Env, item: Item): Bytes {
    match item
    case Message(js) => env.dump(js) + CRLF
    case Upload(name, contents) =>
      env.dump(Metadata(env.role, name, |contents|)) + CRLF + contents + env.dump(END_MARK) + CRLF
    case RawLine(line) => line + CRLF
  }

  function Encode(env: Env, items: seq<Item>): Bytes {
    if items == [] then [] else EncodeItem(env, items[0]) + Encode(env, items[1..])
  }

  /** What the receiver must make of an item. */
  function ItemEvents(env: Env, item: Item): seq<Event> {
    match item
    case Message(js) => [Callback(js)]
    case Upload(name, contents) =>
      if env.role.Server? then [FileOpened(name, |contents|), HeartbeatOff, FileClosed(name, contents), HeartbeatOn]
      else [FileOpened(name, |contents|), FileClosed(name, contents)]
    case RawLine(line) =>
      match env.parse(line)
      case None => [ParseFailed]
      case Some(js) =>
        if js.msgid != Some(SEND_FILE_END) then [Callback(js)]
        else if env.role.Server? then [HeartbeatOn] else []
  }

  function AllEvents(env: Env, items: seq<Item>): seq<Event> {
    if items == [] then [] else ItemEvents(env, items[0]) + AllEvents(env, items[1..])
  }

  /** The JSON library reads back what it wrote, and compact output holds no CR. */
  ghost predicate Faithful(env: Env) {
    forall js: Json :: env.parse(env.dump(js)) == Some(js) && CR !in env.dump(js)
  }

  /** An ordinary message has an id, and not one of the two the codec keeps for itself; a
      file can be opened; any other line is a line, and neither announces a file nor lacks
      an id. */
  predicate Ordinary(env: Env, item: Item) {
    match item
    case Message(js) =>
      js.msgid.Some? && js.msgid.value != AnnounceId(env.role) && js.msgid.value != SEND_FILE_END
    case Upload(name, _) => env.opens(name)
    case RawLine(line) =>
      Framed(line) && match env.parse(line) case None => true case Some(js) => js.msgid.Some? && js.msgid.value != AnnounceId(env.role)
  }

  /** A line that is no JSON costs nothing but itself: the connection is shut down, and
      everything behind the line is decoded as if the line had not been there. */
  lemma RunBadLine(env: Env, events: seq<Event>, line: Bytes, rest: Bytes)
    requires Framed(line) && env.parse(line).None?
    ensures Run(env, Conn(Lines, events, line + CRLF + rest)) == Run(env, Conn(Lines, events + [ParseFailed], rest))
  {
    CutLine(env, events, line, rest);
  }

  /** JSON without the fields that are asked for ends everything: nothing behind it is
      looked at, on this call or any later one. */
  lemma RunEscape(env: Env, events: seq<Event>, line: Bytes, rest: Bytes, js: Json, more: Bytes)
    requires Framed(line) && env.parse(line) == Some(js)
    requires js.msgid.None? || (js.msgid.value == AnnounceId(env.role) && (js.filename.None? || js.filesize.None?))
    ensures var c := Conn(Dead, events + [Escaped], rest);
      Run(env, Conn(Lines, events, line + CRLF + rest)) == c && Feed(env, c, more) == Behind(c, more)
  {
    CutLine(env, events, line, rest);
  }

  lemma RunRawLine(env: Env, events: seq<Event>, line: Bytes, rest: Bytes)
    requires Ordinary(env, RawLine(line))
    ensures Run(env, Conn(Lines, events, line + CRLF + rest))
         == Run(env, Conn(Lines, events + ItemEvents(env, RawLine(line)), rest))
  {
    CutLine(env, events, line, rest);
    RawLineStep(env, Conn(Lines, events, rest), line);
    RunOnce(env, Conn(Lines, events, line + CRLF + rest), Conn(Lines, events + ItemEvents(env, RawLine(line)), rest));
  }

  lemma RawLineStep(env: Env, c: Conn, line: Bytes)
    requires c.mode.Lines? && Ordinary(env, RawLine(line))
    ensures HandleLine(env, c, line) == (c.(events := c.events + ItemEvents(env, RawLine(line))), false)
  {
  }

  /** One iteration takes the first line off. */
  lemma CutLine(env: Env, events: seq<Event>, line: Bytes, rest: Bytes)
    requires Framed(line)
    ensures var c := Conn(Lines, events, line + CRLF + rest);
      CanStep(c) && Step(env, c) == HandleLine(env, Conn(Lines, events, rest), line)
  {
    var c := Conn(Lines, events, line + CRLF + rest);
    FirstCrlfStable(line + CRLF, rest);
    assert c.input[..|line|] == line && c.input[|line| + 2..] == rest;
  }

  lemma RunLine(env: Env, c: Conn, js: Json, rest: Bytes)
    requires Faithful(env) && c.mode.Lines? && c.input == env.dump(js) + CRLF + rest
    ensures CanStep(c) && Step(env, c) == HandleLine(env, c.(input := rest), env.dump(js))
  {
    var line := env.dump(js);
    assert CrlfAt(c.input, |line|);
    assert forall j: nat :: j < |line| ==> c.input[j] == line[j] && c.input[j] != CR;
    assert c.input[..|line|] == line && c.input[|line| + 2..] == rest;
  }

  ghost predicate StepsTo(env: Env, c: Conn, next: Conn) {
    CanStep(c) && Step(env, c) == (next, false)
  }

  /** A file announced with its exact size is received whole in one iteration. */
  lemma RunFile(env: Env, events: seq<Event>, name: string, contents: Bytes, last: Bytes)
    requires last != []
    ensures StepsTo(env, Conn(File(name, |contents|, []), events, contents + last),
                         Conn(Lines, events + [FileClosed(name, contents)], last))
  {
    var input := contents + last;
    assert input[..|contents|] == contents && input[|contents|..] == last;
    assert [] + contents == contents;
  }

  lemma RunMetadata(env: Env, events: seq<Event>, name: string, size: nat, rest: Bytes)
    requires Faithful(env) && env.opens(name)
    ensures StepsTo(env, Conn(Lines, events, env.dump(Metadata(env.role, name, size)) + CRLF + rest),
                         Conn(File(name, size, []), events + [FileOpened(name, size)] + Watch(env, HeartbeatOff), rest))
  {
    RunLine(env, Conn(Lines, events, env.dump(Metadata(env.role, name, size)) + CRLF + rest), Metadata(env.role, name, size), rest);
  }

  lemma RunEndMark(env: Env, events: seq<Event>, rest: Bytes)
    requires Faithful(env)
    ensures StepsTo(env, Conn(Lines, events, env.dump(END_MARK) + CRLF + rest), Conn(Lines, events + Watch(env, HeartbeatOn), rest))
  {
    RunLine(env, Conn(Lines, events, env.dump(END_MARK) + CRLF + rest), END_MARK, rest);
  }

  lemma RunItem(env: Env, events: seq<Event>, item: Item, rest: Bytes)
    requires Faithful(env) && Ordinary(env, item)
    ensures Run(env, Conn(Lines, events, EncodeItem(env, item) + rest)) == Run(env, Conn(Lines, events + ItemEvents(env, item), rest))
  {
    var c := Conn(Lines, events, EncodeItem(env, item) + rest);
    match item
    case Message(js) =>
      RunLine(env, c, js, rest);
    case Upload(name, contents) =>
      RunUpload(env, events, name, contents, rest);
    case RawLine(line) =>
      RunRawLine(env, events, line, rest);
  }

  lemma RunOnce(env: Env, c: Conn, next: Conn)
    requires StepsTo(env, c, next)
    ensures Run(env, c) == Run(env, next)
  {
  }

  lemma Regroup<T>(a: seq<T>, b: seq<T>, c: seq<T>, d: seq<T>, e: seq<T>, rest: seq<T>)
    ensures a + b + c + d + e + rest == (a + b) + (c + ((d + e) + rest))
  {
  }

  /** The file bytes and the end line, once the metadata line has been handled. */
  lemma RunBody(env: Env, events: seq<Event>, name: string, contents: Bytes, rest: Bytes)
    requires Faithful(env)
    ensures Run(env, Conn(File(name, |contents|, []), events, contents + (env.dump(END_MARK) + CRLF + rest)))
         == Run(env, Conn(Lines, events + [FileClosed(name, contents)] + Watch(env, HeartbeatOn), rest))
  {
    var last := env.dump(END_MARK) + CRLF + rest;
    var mid := events + [FileClosed(name, contents)];
    RunFile(env, events, name, contents, last);
    RunOnce(env, Conn(File(name, |contents|, []), events, contents + last), Conn(Lines, mid, last));
    RunEndMark(env, mid, rest);
    RunOnce(env, Conn(Lines, mid, last), Conn(Lines, mid + Watch(env, HeartbeatOn), rest));
  }

  lemma UploadEvents(env: Env, events: seq<Event>, name: string, contents: Bytes)
    ensures events + [FileOpened(name, |contents|)] + Watch(env, HeartbeatOff) + [FileClosed(name, contents)] + Watch(env, HeartbeatOn)
         == events + ItemEvents(env, Upload(name, contents))
  {
  }

  lemma RunUpload(env: Env, events: seq<Event>, name: string, contents: Bytes, rest: Bytes)
    requires Faithful(env) && env.opens(name)
    ensures var item := Upload(name, contents);
      Run(env, Conn(Lines, events, EncodeItem(env, item) + rest)) == Run(env, Conn(Lines, events + ItemEvents(env, item), rest))
  {
    var meta, end := env.dump(Metadata(env.role, name, |contents|)), env.dump(END_MARK);
    var body := contents + (end + CRLF + rest);
    var started := events + [FileOpened(name, |contents|)] + Watch(env, HeartbeatOff);
    RunMetadata(env, events, name, |contents|, body);
    RunOnce(env, Conn(Lines, events, meta + CRLF + body), Conn(File(name, |contents|, []), started, body));
    RunBody(env, started, name, contents, rest);
    Regroup(meta, CRLF, contents, end, CRLF, rest);
    UploadEvents(env, events, name, contents);
  }

  lemma {:induction false} RunEncoded(env: Env, events: seq<Event>, items: seq<Item>)
    requires Faithful(env)
    requires forall item :: item in items ==> Ordinary(env, item)
    ensures Run(env, Conn(Lines, events, Encode(env, items))) == Conn(Lines, events + AllEvents(env, items), [])
    decreases |items|
  {
    if items == [] {
    } else {
      var item, rest := items[0], items[1..];
      var mid := events + ItemEvents(env, item);
      RunItem(env, events, item, Encode(env, rest));
      RunEncoded(env, mid, rest);
      JoinEvents(env, events, items);
      assert Run(env, Conn(Lines, events, Encode(env, items))) == Run(env, Conn(Lines, mid, Encode(env, rest)));
    }
  }

  lemma JoinEvents(env: Env, events: seq<Event>, items: seq<Item>)
    requires items != []
    ensures events + ItemEvents(env, items[0]) + AllEvents(env, items[1..]) == events + AllEvents(env, items)
  {
  }

  lemma EncodingIsVisible(env: Env, items: seq<Item>)
    ensures items != [] ==> |Encode(env, items)| >= 2
  {
    if items != [] {
      assert |EncodeItem(env, items[0])| >= 2;
    }
  }

  /** Round trip: however the network cuts the encoding of any list of messages, files and
      other lines, the codec delivers that list, in order, with every file intact and one
      shutdown for each line that is no JSON. */
  lemma {:induction false} RoundTrip(env: Env, items: seq<Item>, chunks: seq<Bytes>)
    requires Faithful(env)
    requires forall item :: item in items ==> Ordinary(env, item)
    requires Flatten(chunks) == Encode(env, items)
    ensures FeedAll(env, FRESH, chunks) == Conn(Lines, AllEvents(env, items), [])
  {
    RunEncoded(env, [], items);
    assert [] + AllEvents(env, items) == AllEvents(env, items);
    if chunks != [] {
      assert [] + Flatten(chunks) == Flatten(chunks);
      AnyCutting(env, FRESH, chunks);
    } else {
      EncodingIsVisible(env, items);
    }
  }
}
