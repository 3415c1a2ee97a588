/**
 The chunked upload of problem packages: PackHandler (src/handlers/pack.py) on the server and
 pack.send (src/static/pack.js) in the browser. MD5 is an arbitrary function of the bytes.
 */
module PackUpload {
  import opened Wrappers

  type Bytes = seq<bv8>
  type Hash = Bytes -> string

  const CHUNK_MAX: int := 65536

  function LowerChar(c: char): char {
    if 'A' <= c <= 'Z' then (c as int + 32) as char else c
  }

  function Lower(s: string): (r: string)
    ensures |r| == |s|
  {
    seq(|s|, i requires 0 <= i < |s| => LowerChar(s[i]))
  }

  /** Equal up to the case of ASCII letters. */
  ghost predicate SameLetters(a: string, b: string) {
    |a| == |b| && forall i :: 0 <= i < |a| ==> SameLetter(a[i], b[i])
  }

  ghost predicate SameLetter(c: char, d: char) {
    || c == d
    || ('A' <= c <= 'Z' && d as int == c as int + 32)
    || ('A' <= d <= 'Z' && c as int == d as int + 32)
  }

  lemma LowerExactly(a: string, b: string)
    ensures Lower(a) == Lower(b) <==> SameLetters(a, b)
  {
    assert forall c, d :: LowerChar(c) == LowerChar(d) <==> SameLetter(c, d);
    assert forall i :: 0 <= i < |a| ==> Lower(a)[i] == LowerChar(a[i]);
    assert forall i :: 0 <= i < |b| ==> Lower(b)[i] == LowerChar(b[i]);
    hide LowerChar, SameLetter, Lower;
    if Lower(a) == Lower(b) {
      assert forall i :: 0 <= i < |a| ==> LowerChar(a[i]) == LowerChar(b[i]);
    }
  }

  lemma LowerAlways()
    ensures forall a, b :: Lower(a) == Lower(b) <==> SameLetters(a, b)
  {
    forall a, b
      ensures Lower(a) == Lower(b) <==> SameLetters(a, b)
    {
      LowerExactly(a, b);
    }
  }

  // ---------------------------------------------------------------- the server

  /** A header has at least a well-formed token; its other fields may be missing. */
  datatype Message =
    | Header(token: string, size: Option<int>, md5: Option<string>)
    | Malformed
    | Data(bytes: Bytes)

  datatype ServerState = HDR | DATA

  /**
   `pending` is the header whose token is being looked up while on_message is suspended; `stored`
   is the content of tmp/{pack_token}, None when there is no such file.
   */
  datatype Server = Server(
    state: ServerState, pending: Option<Message>, open: bool, remain: int, hashed: Bytes, receivedMd5: string,
    stored: Option<Bytes>, closed: bool)

  const FRESH_SERVER: Server := Server(HDR, None, false, 0, [], "", None, false)

  /** What the token store and the file system answer. */
  datatype Environment = Environment(tokenKnown: bool, canOpen: bool)

  /** The handler answers with a status, or fails its own assertion. */
  datatype Reply = Status(text: string) | AssertionFailed

  /** No reply means that on_message has been suspended. */
  datatype Served = Served(server: Server, reply: Option<Reply>)

  function ReceiveData(s: Server, bytes: Bytes, hash: Hash): Served {
    if !s.open || s.stored.None? then Served(s, Some(AssertionFailed))
    else if |bytes| > CHUNK_MAX || |bytes| > s.remain then
      Served(s.(open := false, stored := None), Some(Status("Echunk")))
    else
      var s1 := s.(stored := Some(s.stored.value + bytes), remain := s.remain - |bytes|, hashed := s.hashed + bytes);
      if s1.remain != 0 then Served(s1, Some(Status("S")))
      else if Lower(hash(s1.hashed)) != Lower(s1.receivedMd5) then
        Served(s1.(open := false, stored := None), Some(Status("Ehash")))
      else Served(s1.(open := false), Some(Status("S")))
  }

  /** PackHandler.on_message up to its end or to the token lookup. */
  function Receive(s: Server, msg: Message, hash: Hash): Served {
    match s.state
    case DATA => ReceiveData(s, if msg.Data? then msg.bytes else [], hash)
    case HDR =>
      if msg.Header? then Served(s.(pending := Some(msg)), None)
      else Served(s.(closed := true), Some(Status("Eparam")))
  }

  /** PackHandler.on_message after the token lookup. */
  function Resume(s: Server, env: Environment): Served {
    match s.pending
    case Some(Header(_, size, md5)) =>
      var s0 := s.(pending := None);
      if !env.tokenKnown then Served(s0.(closed := true), Some(Status("Etoken")))
      else if size.None? then Served(s0.(closed := true), Some(Status("Eparam")))
      else if md5.None? then Served(s0.(remain := size.value, closed := true), Some(Status("Eparam")))
      else
        var s1 := s0.(remain := size.value, receivedMd5 := md5.value);
        if !env.canOpen then Served(s1.(closed := true), Some(Status("Eio")))
        else Served(s1.(stored := Some([]), open := true, state := DATA), Some(Status("S")))
    case _ => Served(s, None)
  }

  /** PackHandler.on_close */
  function Closed(s: Server): Server {
    s.(open := false, closed := true, stored := if s.remain > 0 then None else s.stored)
  }

  /**
   A data message while the file is open: it is taken exactly when it is neither longer than 65536 bytes
   nor longer than what remains, and the hash is right if nothing remains then; otherwise the file is gone.
   */
  lemma ChunkOutcome(s: Server, bytes: Bytes, hash: Hash)
    requires s.state.DATA? && s.open && s.stored.Some?
    ensures var fits := |bytes| <= 65536 && |bytes| <= s.remain;
            var complete := |bytes| == s.remain;
            var Served(s', reply) := Receive(s, Data(bytes), hash);
            && (reply == Some(Status("S")) <==> fits && (complete ==> SameLetters(hash(s.hashed + bytes), s.receivedMd5)))
            && (reply == Some(Status("Echunk")) <==> !fits)
            && (reply == Some(Status("Ehash")) <==> fits && complete && !SameLetters(hash(s.hashed + bytes), s.receivedMd5))
            && (if reply == Some(Status("S")) then
                  && s'.stored == Some(s.stored.value + bytes) && s'.hashed == s.hashed + bytes
                  && s'.remain == s.remain - |bytes| && (s'.open <==> !complete)
                else
                  s'.stored.None? && !s'.open)
            && s'.state.DATA? && s'.closed == s.closed
  {
    LowerExactly(hash(s.hashed + bytes), s.receivedMd5);
    hide Lower, SameLetters;
  }

  /** Before a header has been accepted: another header is looked up, and everything else ends the connection. */
  lemma FirstMessageOutcome(s: Server, msg: Message, hash: Hash)
    requires s.state.HDR?
    ensures var Served(s', reply) := Receive(s, msg, hash);
            && s'.stored == s.stored && s'.state.HDR?
            && (msg.Header? ==> reply == None && s'.pending == Some(msg) && s'.closed == s.closed)
            && (!msg.Header? ==> reply == Some(Status("Eparam")) && s'.pending == s.pending && s'.closed)
  {
  }

  /** The answer to a header, and that nothing is stored unless it is S. */
  lemma HeaderOutcome(token: string, size: Option<int>, md5: Option<string>, env: Environment)
    ensures var s := FRESH_SERVER.(pending := Some(Header(token, size, md5)));
            var Served(s', reply) := Resume(s, env);
            && (reply == Some(Status("S")) <==> env.tokenKnown && size.Some? && md5.Some? && env.canOpen)
            && (reply == Some(Status("Etoken")) <==> !env.tokenKnown)
            && (reply == Some(Status("Eparam")) <==> env.tokenKnown && (size.None? || md5.None?))
            && (reply == Some(Status("Eio")) <==> env.tokenKnown && size.Some? && md5.Some? && !env.canOpen)
            && s'.pending.None?
            && (env.tokenKnown && size.Some? ==> s'.remain == size.value)
            && (if reply == Some(Status("S")) then
                  s'.state.DATA? && s'.open && s'.stored == Some([]) && Some(s'.remain) == size && Some(s'.receivedMd5) == md5 && !s'.closed
                else
                  s'.state.HDR? && !s'.open && s'.stored.None? && s'.closed)
  {
  }

  /** PackHandler with its fields updated in place. */
  class PackHandler {
    var state: ServerState
    var pending: Option<Message>
    var open: bool
    var remain: int
    var hashed: Bytes
    var receivedMd5: string
    var stored: Option<Bytes>
    var closed: bool

    function Value(): Server
      reads this
    {
      Server(state, pending, open, remain, hashed, receivedMd5, stored, closed)
    }

    constructor ()
      ensures Value() == FRESH_SERVER
    {
      state, pending, open, remain, hashed, receivedMd5, stored, closed := HDR, None, false, 0, [], "", None, false;
    }

    method OnMessage(msg: Message, hash: Hash) returns (reply: Option<Reply>)
      modifies this
      ensures Served(Value(), reply) == Receive(old(Value()), msg, hash)
    {
      if state == DATA {
        if !open || stored.None? {
          return Some(AssertionFailed);
        }
        var bytes := if msg.Data? then msg.bytes else [];
        var size := |bytes|;
        if size > CHUNK_MAX || size > remain {
          open := false;
          stored := None;
          return Some(Status("Echunk"));
        }
        stored := Some(stored.value + bytes);
        remain := remain - size;
        hashed := hashed + bytes;
        if remain == 0 {
          open := false;
          if Lower(hash(hashed)) != Lower(receivedMd5) {
            stored := None;
            return Some(Status("Ehash"));
          }
        }
        return Some(Status("S"));
      }
      if !msg.Header? {
        closed := true;
        return Some(Status("Eparam"));
      }
      pending := Some(msg);
      return None;
    }

    /** The rest of on_message once the token lookup has answered. */
    method OnLookupAnswer(env: Environment) returns (reply: Option<Reply>)
      requires pending.Some? && pending.value.Header?
      modifies this
      ensures Served(Value(), reply) == Resume(old(Value()), env)
    {
      var hdr := pending.value;
      pending := None;
      if !env.tokenKnown {
        closed := true;
        return Some(Status("Etoken"));
      }
      if hdr.size.None? {
        closed := true;
        return Some(Status("Eparam"));
      }
      remain := hdr.size.value;
      if hdr.md5.None? {
        closed := true;
        return Some(Status("Eparam"));
      }
      receivedMd5 := hdr.md5.value;
      if !env.canOpen {
        closed := true;
        return Some(Status("Eio"));
      }
      stored := Some([]);
      open := true;
      state := DATA;
      return Some(Status("S"));
    }

    method OnClose()
      modifies this
      ensures Value() == Closed(old(Value()))
    {
      open := false;
      closed := true;
      if remain > 0 {
        stored := None;
      }
    }
  }

  // ---------------------------------------------------------------- the client

  datatype Promise = Pending | Resolved | Rejected

  datatype Client = Client(file: Bytes, off: nat, remain: int, promise: Promise)

  function FreshClient(file: Bytes): Client { Client(file, 0, |file|, Pending) }

  predicate InFile(c: Client) { c.remain == |c.file| - c.off && c.off <= |c.file| }

  function ChunkSize(c: Client): nat
    requires InFile(c)
  {
    if c.remain <= CHUNK_MAX then c.remain else CHUNK_MAX
  }

  /** ws.onmessage: the next chunk, if one is sent. */
  function NextChunk(c: Client, status: string): Option<Bytes>
    requires InFile(c)
  {
    if status != "" && status[0] == 'E' then None
    else if c.remain > 0 then Some(c.file[c.off..c.off + ChunkSize(c)])
    else None
  }

  function AfterStatus(c: Client, status: string): Client
    requires InFile(c)
  {
    if status != "" && status[0] == 'E' then c.(promise := Rejected)
    else if c.remain > 0 then c.(off := c.off + ChunkSize(c), remain := c.remain - ChunkSize(c))
    else c.(promise := Resolved)
  }

  /** The variables of pack.send that its callbacks share. */
  class Upload {
    const file: Bytes
    var off: nat
    var remain: int
    var promise: Promise

    function Value(): Client
      reads this
    {
      Client(file, off, remain, promise)
    }

    constructor (file: Bytes)
      ensures Value() == FreshClient(file) && InFile(Value())
    {
      this.file := file;
      off, remain, promise := 0, |file|, Pending;
    }

    method OnMessage(status: string) returns (chunk: Option<Bytes>)
      requires InFile(Value())
      modifies this
      ensures chunk == NextChunk(old(Value()), status)
      ensures Value() == AfterStatus(old(Value()), status) && InFile(Value())
    {
      chunk := None;
      if status != "" && status[0] == 'E' {
        promise := Rejected;
      } else if remain > 0 {
        var size := if remain <= CHUNK_MAX then remain else CHUNK_MAX;
        chunk := Some(file[off..off + size]);
        off := off + size;
        remain := remain - size;
      } else {
        promise := Resolved;
      }
    }
  }

  // ---------------------------------------------------------------- the two together

  /** The websocket keeps messages in order; `sent` counts data messages. */
  datatype World = World(client: Client, server: Server, up: seq<Message>, down: seq<Reply>, sent: nat, connected: bool)

  datatype Event = ServerReceives | LookupAnswered(env: Environment) | ClientReceives | Disconnect

  /**
   Messages are handled one after the other, also those that come in after the handler has closed the
   connection; a suspended handler resumes even after on_close, but can no longer reply.
   */
  ghost predicate Step(w: World, event: Event, w': World, hash: Hash) {
    match event
    case ServerReceives =>
      && w.connected && w.up != [] && w.server.pending.None?
      && var r := Receive(w.server, w.up[0], hash);
         w' == w.(server := r.server, up := w.up[1..], down := if r.reply.Some? then w.down + [r.reply.value] else w.down)
    case LookupAnswered(env) =>
      && w.server.pending.Some?
      && var r := Resume(w.server, env);
         w' == w.(server := r.server, down := if w.connected && r.reply.Some? then w.down + [r.reply.value] else w.down)
    case ClientReceives =>
      && w.connected && w.down != [] && w.down[0].Status? && w.client.promise.Pending? && InFile(w.client)
      && var chunk := NextChunk(w.client, w.down[0].text);
         w' == w.(client := AfterStatus(w.client, w.down[0].text), down := w.down[1..],
                  up := if chunk.Some? then w.up + [Data(chunk.value)] else w.up,
                  sent := if chunk.Some? then w.sent + 1 else w.sent)
    case Disconnect =>
      w.connected && w' == w.(server := Closed(w.server), connected := false)
  }

  /** The browser has hashed the file and sent the header. */
  ghost predicate Init(w: World, hash: Hash) {
    exists file, token :: w == Started(file, token, hash)
  }

  ghost function Started(file: Bytes, token: string, hash: Hash): World {
    World(FreshClient(file), FRESH_SERVER, [Header(token, Some(|file|), Some(hash(file)))], [], 0, true)
  }

  ghost predicate Run(worlds: seq<World>, events: seq<Event>, hash: Hash) {
    && |worlds| == |events| + 1
    && Init(worlds[0], hash)
    && forall i :: 0 <= i < |events| ==> Step(worlds[i], events[i], worlds[i + 1], hash)
  }

  /** The server has opened the file and taken the first n bytes. */
  ghost predicate Received(s: Server, file: Bytes, n: int, hash: Hash) {
    && 0 <= n <= |file|
    && s.state.DATA? && s.pending.None? && !s.closed
    && s.stored == Some(file[..n]) && s.hashed == file[..n]
    && s.remain == |file| - n
    && s.receivedMd5 == hash(file)
    && (n < |file| ==> s.open)
  }

  ghost predicate ChunksCounted(w: World) {
    && InFile(w.client)
    && w.client.off == (if w.sent * CHUNK_MAX <= |w.client.file| then w.sent * CHUNK_MAX else |w.client.file|)
    && (w.sent > 0 ==> (w.sent - 1) * CHUNK_MAX < |w.client.file|)
  }

  ghost predicate Announces(msg: Message, file: Bytes, hash: Hash) {
    msg.Header? && msg.size == Some(|file|) && msg.md5 == Some(hash(file))
  }

  ghost predicate HeaderOnItsWay(w: World, hash: Hash) {
    && w.server == FRESH_SERVER && w.sent == 0 && w.client.promise.Pending?
    && w.down == [] && |w.up| == 1 && Announces(w.up[0], w.client.file, hash)
  }

  /** The header is being processed; nothing has been stored. */
  ghost predicate LookingUp(w: World, hash: Hash) {
    && w.server.pending.Some? && w.server.(pending := None) == FRESH_SERVER && w.sent == 0 && w.client.promise.Pending?
    && w.down == [] && w.up == [] && Announces(w.server.pending.value, w.client.file, hash)
  }

  ghost predicate ChunkOnItsWay(w: World, hash: Hash) {
    && InFile(w.client) && w.client.promise.Pending? && w.down == [] && |w.up| == 1 && w.up[0].Data?
    && 0 < |w.up[0].bytes| <= CHUNK_MAX && |w.up[0].bytes| <= w.client.off
    && w.up[0].bytes == w.client.file[w.client.off - |w.up[0].bytes|..w.client.off]
    && Received(w.server, w.client.file, w.client.off - |w.up[0].bytes|, hash)
  }

  ghost predicate ReplyOnItsWay(w: World, hash: Hash) {
    && w.client.promise.Pending? && w.up == [] && w.down == [Status("S")]
    && Received(w.server, w.client.file, w.client.off, hash)
  }

  ghost predicate Finished(w: World, hash: Hash) {
    && w.client.promise.Resolved? && w.up == [] && w.down == []
    && w.client.off == |w.client.file|
    && Received(w.server, w.client.file, w.client.off, hash)
  }

  /** The token was unknown or the file could not be opened; nothing has been stored. */
  ghost predicate Refused(w: World) {
    && w.server.closed && w.server.pending.None? && w.server.stored.None? && w.sent == 0 && w.up == []
    && ((w.client.promise.Pending? && (w.down == [Status("Etoken")] || w.down == [Status("Eio")]))
        || (w.client.promise.Rejected? && w.down == []))
  }

  ghost predicate Phase(w: World, hash: Hash) {
    HeaderOnItsWay(w, hash) || LookingUp(w, hash) || ChunkOnItsWay(w, hash) || ReplyOnItsWay(w, hash) || Finished(w, hash) || Refused(w)
  }

  /** The stored file is the source or absent, and it is the source when that was promised. */
  ghost predicate CompleteOrGone(w: World) {
    && (w.server.stored.None? || w.server.stored == Some(w.client.file))
    && (w.client.promise.Resolved? ==> w.server.stored == Some(w.client.file) && w.client.off == |w.client.file|)
  }

  /** The connection was lost during the token lookup, which has not answered yet. */
  ghost predicate LookingUpInVain(w: World, hash: Hash) {
    && w.server.pending.Some? && w.server.(pending := None, closed := false) == FRESH_SERVER && w.server.closed
    && w.client.promise.Pending? && Announces(w.server.pending.value, w.client.file, hash)
  }

  /** The suspended handler has opened the file although nobody is there to fill or remove it. */
  ghost predicate EmptyFileLeft(w: World) {
    w.server.pending.None? && w.server.stored == Some([]) && w.client.promise.Pending?
  }

  ghost predicate Invariant(w: World, hash: Hash) {
    && ChunksCounted(w)
    && if w.connected then Phase(w, hash)
       else LookingUpInVain(w, hash) || (w.server.pending.None? && (CompleteOrGone(w) || EmptyFileLeft(w)))
  }

  lemma InitHolds(w: World, hash: Hash)
    requires Init(w, hash)
    ensures Invariant(w, hash)
  {
    assert HeaderOnItsWay(w, hash);
  }

  /** The lookup is answered: the file is opened and empty, or the upload is refused. */
  lemma HeaderAnswered(w: World, env: Environment, w': World, hash: Hash)
    requires LookingUp(w, hash) && w.connected && Step(w, LookupAnswered(env), w', hash) && ChunksCounted(w)
    ensures ReplyOnItsWay(w', hash) || Refused(w')
  {
    assert w.client.file[..0] == [];
    if env.tokenKnown && env.canOpen {
      assert Received(w'.server, w.client.file, 0, hash);
      assert w'.down == [Status("S")];
    }
  }

  /** A chunk from the client is never rejected, and appends exactly its bytes. */
  lemma ChunkAccepted(w: World, w': World, hash: Hash)
    requires ChunkOnItsWay(w, hash) && Step(w, ServerReceives, w', hash)
    ensures ReplyOnItsWay(w', hash)
  {
    var file, off, bytes := w.client.file, w.client.off, w.up[0].bytes;
    assert file[..off - |bytes|] + file[off - |bytes|..off] == file[..off];
    if off == |file| {
      assert file[..off] == file;
    }
  }

  /** Every chunk but the last has CHUNK_MAX bytes. */
  lemma StatusCounted(w: World, w': World, hash: Hash)
    requires ReplyOnItsWay(w, hash) && ChunksCounted(w) && Step(w, ClientReceives, w', hash)
    ensures ChunksCounted(w')
  {
    hide Received;
    assert w.down == [Status("S")];
    if w.client.remain > 0 {
      assert w'.sent * CHUNK_MAX == w.sent * CHUNK_MAX + CHUNK_MAX;
    }
  }

  /** On an S the client sends the next chunk, or is done when nothing remains. */
  lemma StatusAnswered(w: World, w': World, hash: Hash)
    requires ReplyOnItsWay(w, hash) && InFile(w.client) && Step(w, ClientReceives, w', hash)
    ensures ChunkOnItsWay(w', hash) || Finished(w', hash)
  {
    hide Received;
    if w.client.remain > 0 {
      assert w'.up[0].bytes == w.client.file[w.client.off..w.client.off + ChunkSize(w.client)];
    }
  }

  lemma DisconnectLeavesNoPart(w: World, w': World, hash: Hash)
    requires Phase(w, hash) && ChunksCounted(w) && Step(w, Disconnect, w', hash)
    ensures w.server.pending.Some? ==> LookingUpInVain(w', hash)
    ensures w.server.pending.None? ==> w'.server.pending.None? && CompleteOrGone(w')
  {
    var file := w.client.file;
    if w.server.stored.Some? && w.server.remain <= 0 {
      assert file[..|file|] == file;
    }
  }

  lemma StepPreserves(w: World, event: Event, w': World, hash: Hash)
    requires Invariant(w, hash) && Step(w, event, w', hash)
    ensures Invariant(w', hash)
  {
    hide Received;
    match event
    case Disconnect => DisconnectLeavesNoPart(w, w', hash);
    case ServerReceives =>
      if HeaderOnItsWay(w, hash) {
        assert LookingUp(w', hash);
      } else {
        assert ChunkOnItsWay(w, hash) by {
          PendingOnlyInLookup(w, hash);
        }
        ChunkAccepted(w, w', hash);
      }
    case LookupAnswered(env) =>
      if w.connected {
        PendingOnlyInLookup(w, hash);
        HeaderAnswered(w, env, w', hash);
      } else {
        assert LookingUpInVain(w, hash);
        assert CompleteOrGone(w') || EmptyFileLeft(w');
      }
    case ClientReceives =>
      if ReplyOnItsWay(w, hash) {
        StatusCounted(w, w', hash);
        StatusAnswered(w, w', hash);
      } else {
        assert Refused(w);
        assert Refused(w');
      }
  }

  lemma PendingOnlyInLookup(w: World, hash: Hash)
    requires Phase(w, hash)
    ensures w.server.pending.Some? <==> LookingUp(w, hash)
  {
  }

  lemma {:induction false} ReachableHolds(worlds: seq<World>, events: seq<Event>, hash: Hash, k: nat)
    requires Run(worlds, events, hash) && k < |worlds|
    ensures Invariant(worlds[k], hash)
  {
    if k == 0 {
      InitHolds(worlds[0], hash);
    } else {
      ReachableHolds(worlds, events, hash, k - 1);
      assert Step(worlds[k - 1], events[k - 1], worlds[k - 1 + 1], hash);
      StepPreserves(worlds[k - 1], events[k - 1], worlds[k], hash);
    }
  }

  /** In every reachable state the bytes written and the server's remain add up to the file size. */
  lemma WrittenPlusRemain(worlds: seq<World>, events: seq<Event>, hash: Hash, k: nat)
    requires Run(worlds, events, hash) && k < |worlds|
    requires worlds[k].connected && worlds[k].server.state.DATA? && worlds[k].server.stored.Some?
    ensures |worlds[k].server.stored.value| + worlds[k].server.remain == |worlds[k].client.file|
    ensures worlds[k].server.stored.value <= worlds[k].client.file
  {
    ReachableHolds(worlds, events, hash, k);
  }

  /** No chunk is ever rejected, whatever the hash function is. */
  lemma NoChunkRejected(worlds: seq<World>, events: seq<Event>, hash: Hash, k: nat)
    requires Run(worlds, events, hash) && k < |worlds| && worlds[k].connected
    ensures forall r :: r in worlds[k].down ==> r in {Status("S"), Status("Etoken"), Status("Eio")}
  {
    ReachableHolds(worlds, events, hash, k);
  }

  function CeilDiv(a: nat, b: int): int
    requires b > 0
  {
    (a + b - 1) / b
  }

  /** When the client resolves, the stored file is the source, sent in ceil(size / 65536) messages. */
  lemma ResolvedMeansStored(worlds: seq<World>, events: seq<Event>, hash: Hash, k: nat)
    requires Run(worlds, events, hash) && k < |worlds| && worlds[k].client.promise.Resolved?
    ensures worlds[k].server.stored == Some(worlds[k].client.file)
    ensures worlds[k].sent == CeilDiv(|worlds[k].client.file|, CHUNK_MAX)
  {
    ReachableHolds(worlds, events, hash, k);
    var w := worlds[k];
    assert w.client.file[..|w.client.file|] == w.client.file;
  }

  // ---------------------------------------------------------------- after a disconnect

  /** The lookup finds the token and the file can be opened. */
  predicate Opens(event: Event) {
    event.LookupAnswered? && event.env.tokenKnown && event.env.canOpen
  }

  /** The suspended handler has opened the file between steps d and k. */
  ghost predicate OpenedIn(events: seq<Event>, d: nat, k: nat)
    requires k <= |events|
  {
    exists j :: d < j < k && Opens(events[j])
  }

  lemma OpenedInOneMore(events: seq<Event>, d: nat, k: nat)
    requires d < k < |events|
    ensures OpenedIn(events, d, k + 1) <==> OpenedIn(events, d, k) || Opens(events[k])
  {
    hide Opens;
  }

  /** What has become of the file, `hasOpened` telling whether the suspended handler has opened it since. */
  ghost predicate Left(cut: World, w: World, hasOpened: bool, hash: Hash) {
    && !w.connected && w.client.file == cut.client.file
    && if cut.server.pending.None? then w.server.pending.None? && CompleteOrGone(w) && !hasOpened
       else if hasOpened then EmptyFileLeft(w)
       else w.server.stored.None? && w.client.promise.Pending? && (w.server.pending.Some? ==> LookingUpInVain(w, hash))
  }

  lemma LeftAtOnce(cut: World, w: World, hash: Hash)
    requires Invariant(cut, hash) && Step(cut, Disconnect, w, hash)
    ensures Left(cut, w, false, hash)
  {
    PendingOnlyInLookup(cut, hash);
    DisconnectLeavesNoPart(cut, w, hash);
  }

  lemma LeftStep(cut: World, w: World, event: Event, w': World, hasOpened: bool, hash: Hash)
    requires Left(cut, w, hasOpened, hash) && Step(w, event, w', hash)
    ensures Left(cut, w', hasOpened || Opens(event), hash)
  {
    hide Started;
    assert event.LookupAnswered?;
  }

  lemma {:induction false} AfterDisconnect(worlds: seq<World>, events: seq<Event>, hash: Hash, d: nat, k: nat)
    requires Run(worlds, events, hash) && d < k < |worlds| && events[d] == Disconnect
    ensures Left(worlds[d], worlds[k], OpenedIn(events, d, k), hash)
    decreases k
  {
    hide Left, Opens;
    var since := OpenedIn(events, d, k - 1);
    assert Step(worlds[k - 1], events[k - 1], worlds[k - 1 + 1], hash);
    hide Step;
    if k == d + 1 {
      ReachableHolds(worlds, events, hash, d);
      LeftAtOnce(worlds[d], worlds[k], hash);
    } else {
      AfterDisconnect(worlds, events, hash, d, k - 1);
      LeftStep(worlds[d], worlds[k - 1], events[k - 1], worlds[k], since, hash);
      OpenedInOneMore(events, d, k - 1);
    }
  }

  /**
   After a disconnect the stored file is complete or gone exactly when the source is empty, or the
   disconnect did not find the server in the token lookup, or that lookup has not gone on to open
   the file.
   */
  lemma CompleteOrGoneExactly(worlds: seq<World>, events: seq<Event>, hash: Hash, d: nat, k: nat)
    requires Run(worlds, events, hash) && d < k < |worlds| && events[d] == Disconnect
    ensures CompleteOrGone(worlds[k]) <==>
              || worlds[k].client.file == []
              || worlds[d].server.pending.None?
              || !OpenedIn(events, d, k)
  {
    AfterDisconnect(worlds, events, hash, d, k);
  }

  /** A connection lost during the token lookup: an empty file stays behind a nonempty upload. */
  lemma LostDuringLookupLeavesEmptyFile(file: Bytes, token: string, hash: Hash) returns (worlds: seq<World>, events: seq<Event>)
    requires file != []
    ensures Run(worlds, events, hash) && worlds[0] == Started(file, token, hash)
    ensures var last := worlds[|worlds| - 1]; !last.connected && last.server.stored == Some([]) && !CompleteOrGone(last)
  {
    var w0 := Started(file, token, hash);
    var w1 := w0.(server := FRESH_SERVER.(pending := Some(w0.up[0])), up := []);
    var w2 := w1.(server := Closed(w1.server), connected := false);
    var w3 := w2.(server := Resume(w2.server, Environment(true, true)).server);
    worlds, events := [w0, w1, w2, w3], [ServerReceives, Disconnect, LookupAnswered(Environment(true, true))];
    assert Step(w0, ServerReceives, w1, hash);
    assert Step(w1, Disconnect, w2, hash);
    assert Step(w2, LookupAnswered(Environment(true, true)), w3, hash);
  }

  // ---------------------------------------------------------------- any client at all

  /** A message may still arrive after the handler has closed the connection, as long as the peer has not answered the close. */
  datatype ServerEvent = Receives(msg: Message) | Answered(env: Environment) | Closes

  ghost predicate ServerStep(s: Server, event: ServerEvent, s': Server, reply: Option<Reply>, hash: Hash) {
    match event
    case Receives(msg) => s.pending.None? && Served(s', reply) == Receive(s, msg, hash)
    case Answered(env) => s.pending.Some? && Served(s', reply) == Resume(s, env)
    case Closes => s' == Closed(s) && reply == None
  }

  /** The replies of the server to an arbitrary sequence of messages on one connection. */
  ghost predicate ServerRun(servers: seq<Server>, events: seq<ServerEvent>, replies: seq<Option<Reply>>, hash: Hash) {
    && |servers| == |events| + 1 && |replies| == |events|
    && servers[0] == FRESH_SERVER
    && forall i :: 0 <= i < |events| ==> ServerStep(servers[i], events[i], servers[i + 1], replies[i], hash)
  }

  /** While the file is there it holds the bytes that have been hashed. */
  ghost predicate FileIsHashed(s: Server) {
    && (s.open ==> s.state.DATA? && s.stored == Some(s.hashed))
    && (s.state.HDR? ==> !s.open && s.hashed == [] && s.stored.None?)
    && (s.stored.Some? ==> s.stored == Some(s.hashed))
    && (s.pending.Some? ==> s.pending.value.Header? && s.state.HDR?)
  }

  lemma {:induction false} ServerKeepsHash(servers: seq<Server>, events: seq<ServerEvent>, replies: seq<Option<Reply>>, hash: Hash, k: nat)
    requires ServerRun(servers, events, replies, hash) && k < |servers|
    ensures FileIsHashed(servers[k])
  {
    if k > 0 {
      ServerKeepsHash(servers, events, replies, hash, k - 1);
      assert ServerStep(servers[k - 1], events[k - 1], servers[k - 1 + 1], replies[k - 1], hash);
    }
  }

  /** Whatever a client sends: a data message that completes the file is accepted only if the hash matches. */
  lemma CompletedOnlyIfHashMatches(servers: seq<Server>, events: seq<ServerEvent>, replies: seq<Option<Reply>>, hash: Hash, k: nat)
    requires ServerRun(servers, events, replies, hash) && k < |events| && events[k].Receives?
    requires servers[k].state.DATA? && replies[k] == Some(Status("S")) && servers[k + 1].remain == 0
    ensures servers[k + 1].stored.Some? && SameLetters(hash(servers[k + 1].stored.value), servers[k + 1].receivedMd5)
  {
    if servers[k + 1].stored.Some? {
      LowerExactly(hash(servers[k + 1].stored.value), servers[k + 1].receivedMd5);
    }
    hide SameLetters;
    ServerKeepsHash(servers, events, replies, hash, k);
    assert ServerStep(servers[k], events[k], servers[k + 1], replies[k], hash);
  }

  ghost predicate HashMatches(bytes: Bytes, md5: string, hash: Hash) {
    SameLetters(hash(bytes), md5)
  }

  /** The possible fates of a file that has been opened for `size` bytes with hash `md5`. */
  ghost predicate Fate(s: Server, size: int, md5: string, hash: Hash) {
    && s.state.DATA? && s.pending.None? && s.receivedMd5 == md5
    && if s.open then
         && s.stored == Some(s.hashed) && s.remain + |s.hashed| == size
         && (s.hashed != [] ==> s.remain > 0)
       else
         || s.stored.None?
         || HashMatches(s.stored.value, md5, hash)
         || (s.stored == Some([]) && size <= 0)
  }

  lemma {:induction false} FateIsKept(servers: seq<Server>, events: seq<ServerEvent>, replies: seq<Option<Reply>>, hash: Hash,
                                      h: nat, k: nat, size: int, md5: string)
    requires ServerRun(servers, events, replies, hash) && h <= k < |servers|
    requires Fate(servers[h], size, md5, hash)
    ensures Fate(servers[k], size, md5, hash)
    decreases k
  {
    if h < k {
      LowerAlways();
      hide Lower, SameLetters;
      FateIsKept(servers, events, replies, hash, h, k - 1, size, md5);
      assert ServerStep(servers[k - 1], events[k - 1], servers[k - 1 + 1], replies[k - 1], hash);
    }
  }

  /**
   Whatever a client sends after its file has been opened at step h: what a disconnect leaves is
   nothing, or a file with the announced hash, or the empty file of a header that announced no bytes.
   */
  lemma WhatDisconnectLeaves(servers: seq<Server>, events: seq<ServerEvent>, replies: seq<Option<Reply>>, hash: Hash,
                             h: nat, d: nat, header: Message)
    requires ServerRun(servers, events, replies, hash) && h < d < |events| && events[d].Closes?
    requires servers[h].pending == Some(header) && events[h] == Answered(Environment(true, true))
    requires header.Header? && header.size.Some? && header.md5.Some?
    ensures var stored := servers[d + 1].stored;
            || stored.None?
            || HashMatches(stored.value, header.md5.value, hash)
            || (stored == Some([]) && header.size.value <= 0)
  {
    ServerKeepsHash(servers, events, replies, hash, h);
    assert ServerStep(servers[h], events[h], servers[h + 1], replies[h], hash);
    assert Fate(servers[h + 1], header.size.value, header.md5.value, hash);
    FateIsKept(servers, events, replies, hash, h + 1, d + 1, header.size.value, header.md5.value);
    assert ServerStep(servers[d], events[d], servers[d + 1], replies[d], hash);
  }

  /** A header that announces no bytes leaves a file whose hash was never compared. */
  lemma EmptyAnnouncementIsNotCompared(token: string, size: int, md5: string, hash: Hash)
    returns (servers: seq<Server>, events: seq<ServerEvent>, replies: seq<Option<Reply>>)
    requires size <= 0 && !HashMatches([], md5, hash)
    ensures ServerRun(servers, events, replies, hash) && events != [] && events[0] == Receives(Header(token, Some(size), Some(md5)))
    ensures var last := servers[|servers| - 1]; last.closed && last.stored == Some([]) && !HashMatches(last.stored.value, md5, hash)
  {
    var header, env := Header(token, Some(size), Some(md5)), Environment(true, true);
    var s0 := FRESH_SERVER;
    var s1 := s0.(pending := Some(header));
    var s2 := Resume(s1, env).server;
    var s3 := Closed(s2);
    servers, events, replies := [s0, s1, s2, s3], [Receives(header), Answered(env), Closes], [None, Some(Status("S")), None];
    assert ServerStep(s0, events[0], s1, replies[0], hash);
    assert ServerStep(s1, events[1], s2, replies[1], hash);
    assert ServerStep(s2, events[2], s3, replies[2], hash);
  }
}
