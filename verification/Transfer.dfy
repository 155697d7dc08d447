/**
 Bytes on their way: the chunked upload from client to store, and the chunked
 download from store through the gateway.
 */
module Transfer {
  import opened Text

  const CHUNK_SIZE: nat := 64 * 1024

  // ---- Readers ----

  datatype Status = More | Eof | Broken

  // What one call of Read gives: any data, together with how it ended.
  datatype ReadResult = ReadResult(data: Bytes, status: Status)

  // A reader is the list of results it is going to give; after them it is at its
  // end for good.
  predicate Sized(script: seq<ReadResult>) { forall i :: 0 <= i < |script| ==> |script[i].data| <= CHUNK_SIZE }

  // After the end there is nothing more.
  predicate Obedient(script: seq<ReadResult>) {
    forall i, j :: 0 <= i < j < |script| && script[i].status.Eof? ==> script[j] == ReadResult([], Eof)
  }

  // The bytes behind a reader, up to its end or to an error.
  function Content(script: seq<ReadResult>): Bytes {
    if script == [] then []
    else script[0].data + if script[0].status.More? then Content(script[1..]) else []
  }

  // It reaches its end without an error.
  predicate Readable(script: seq<ReadResult>) {
    script != [] ==> !script[0].status.Broken? && (script[0].status.More? ==> Readable(script[1..]))
  }

  // An empty read before the end.
  predicate NoEmptyRead(script: seq<ReadResult>) {
    forall i :: 0 <= i < |script| ==> !(script[i].data == [] && script[i].status.More?)
  }

  function Concat(chunks: seq<Bytes>): Bytes {
    if chunks == [] then [] else chunks[0] + Concat(chunks[1..])
  }

  class Reader {
    var script: seq<ReadResult>

    constructor (script: seq<ReadResult>)
      ensures this.script == script
    {
      this.script := script;
    }

    // Fills the front of the buffer, over whatever was there.
    method Read(buffer: array<Byte>) returns (n: nat, status: Status)
      requires buffer.Length == CHUNK_SIZE && Sized(script)
      modifies this, buffer
      ensures n <= buffer.Length
      ensures old(script) == [] ==> script == [] && n == 0 && status == Eof
      ensures old(script) != [] ==> script == old(script)[1..] && ReadResult(buffer[..n], status) == old(script)[0]
    {
      if script == [] {
        return 0, Eof;
      }
      var r := script[0];
      n, status := |r.data|, r.status;
      forall i | 0 <= i < n {
        buffer[i] := r.data[i];
      }
      assert buffer[..n] == r.data;
      script := script[1..];
    }
  }

  // A stream that takes `room` more messages before sending fails.
  class Stream<M> {
    var sent: seq<M>
    var room: nat

    constructor (room: nat)
      ensures sent == [] && this.room == room
    {
      sent, this.room := [], room;
    }

    method Send(m: M) returns (ok: bool)
      modifies this
      ensures ok <==> old(room) > 0
      ensures ok ==> sent == old(sent) + [m] && room == old(room) - 1
      ensures !ok ==> sent == old(sent) && room == old(room)
    {
      ok := room > 0;
      if ok {
        sent, room := sent + [m], room - 1;
      }
    }
  }

  // ---- Upload, client side ----

  datatype Message = Initial(entryName: string, isDelta: bool) | Data(chunk: Bytes)

  // The chunks the client takes from the reader: up to the first empty read, end
  // or not; an error ends it too, and then its bytes are dropped.
  function Taken(script: seq<ReadResult>): seq<Bytes> {
    if script == [] || script[0].status.Broken? || script[0].data == [] then []
    else [script[0].data] + Taken(script[1..])
  }

  // It stopped at an empty read rather than at an error.
  predicate Completes(script: seq<ReadResult>) {
    script != [] ==> !script[0].status.Broken? && (script[0].data != [] ==> Completes(script[1..]))
  }

  // What is left unread then.
  function Unread(script: seq<ReadResult>): seq<ReadResult> {
    if script == [] || script[0].status.Broken? || script[0].data == [] then script else Unread(script[1..])
  }

  function DataOf(chunks: seq<Bytes>): (r: seq<Message>)
    ensures |r| == |chunks| && forall i :: 0 <= i < |r| ==> r[i] == Data(chunks[i])
  {
    seq(|chunks|, i requires 0 <= i < |chunks| => Data(chunks[i]))
  }

  // Everything sent before sending fails.
  function Fitting<M>(messages: seq<M>, room: nat): seq<M> {
    if |messages| <= room then messages else messages[..room]
  }

  lemma DataOfFirst(c: Bytes, rest: seq<Bytes>)
    ensures DataOf([c] + rest) == [Data(c)] + DataOf(rest)
  {
  }

  // Sending one more of a list of messages.
  lemma OneMoreSent<M>(all: seq<M>, i: nat, m: M, rest: seq<M>)
    requires i <= |all| && all[i..] == [m] + rest
    ensures i < |all| && all[..i + 1] == all[..i] + [m] && all[i + 1..] == rest
  {
    assert all[i..][0] == m && all[i..][1..] == rest;
  }

  lemma AllSent<M>(all: seq<M>, i: nat)
    requires i <= |all| && all[i..] == []
    ensures all[..i] == all && i == |all|
  {
  }

  method UnscannedUpload(reader: Reader, stream: Stream<Message>, entryName: string, isDelta: bool) returns (ok: bool)
    requires Sized(reader.script)
    modifies reader, stream
    ensures var messages := [Initial(entryName, isDelta)] + DataOf(Taken(old(reader.script)));
      && stream.sent == old(stream.sent) + Fitting(messages, old(stream.room))
      && (ok <==> Completes(old(reader.script)) && |messages| <= old(stream.room))
  {
    hide DataOf;
    ghost var all := [Initial(entryName, isDelta)] + DataOf(Taken(reader.script));
    ghost var before, room, was := stream.sent, stream.room, reader.script;
    ok := stream.Send(Initial(entryName, isDelta));
    if !ok {
      assert before + all[..0] == before;
      return false;
    }
    var buffer := new Byte[CHUNK_SIZE];
    ghost var i := 1;
    assert all[..1] == [Initial(entryName, isDelta)];
    while true
      invariant 1 <= i <= |all| && i + stream.room == room && stream.sent == before + all[..i]
      invariant Sized(reader.script) && all[i..] == DataOf(Taken(reader.script))
      invariant Completes(was) <==> Completes(reader.script)
      decreases |reader.script|
    {
      var n, status := reader.Read(buffer);
      if status.Broken? {
        AllSent(all, i);
        return false;
      }
      if n == 0 {
        AllSent(all, i);
        return true;
      }
      DataOfFirst(buffer[..n], Taken(reader.script));
      OneMoreSent(all, i, Data(buffer[..n]), DataOf(Taken(reader.script)));
      ok := stream.Send(Data(buffer[..n]));
      if !ok {
        return false;
      }
      i := i + 1;
    }
  }

  // ---- Upload, server side ----

  datatype File = File(bytes: Bytes, digest: string)

  // The bytes of messages that are all data.
  function BytesOf(messages: seq<Message>): Option<Bytes> {
    if messages == [] then Some([])
    else
      var rest := BytesOf(messages[1..]);
      if messages[0].Data? && rest.Some? then Some(messages[0].chunk + rest.value) else None
  }

  function After(front: Bytes, rest: Option<Bytes>): Option<Bytes> {
    if rest.Some? then Some(front + rest.value) else None
  }

  lemma NextChunk(messages: seq<Message>, i: nat, front: Bytes)
    requires i < |messages|
    ensures After(front, BytesOf(messages[i..]))
      == if messages[i].Data? then After(front + messages[i].chunk, BytesOf(messages[i + 1..])) else None
  {
    assert messages[i..][1..] == messages[i + 1..];
    var rest := BytesOf(messages[i + 1..]);
    if messages[i].Data? && rest.Some? {
      Regroup(front, messages[i].chunk, rest.value);
    }
  }

  // Only an initial message, then data, on a stream that was closed properly gives
  // a file: all the bytes, and the hash of the whole.
  function Received(messages: seq<Message>, closed: bool, hash: Bytes -> string): Option<File> {
    if messages == [] || !messages[0].Initial? || !closed then None
    else
      var bytes := BytesOf(messages[1..]);
      if bytes.Some? then Some(File(bytes.value, hash(bytes.value))) else None
  }

  // The file and the running hash grow together.
  method ReceiveUpload(messages: seq<Message>, closed: bool, hash: Bytes -> string) returns (file: Option<File>)
    ensures file == Received(messages, closed, hash)
  {
    if messages == [] || !messages[0].Initial? {
      return None;
    }
    var outFile, hashed: Bytes := [], [];
    var rest := messages[1..];
    assert rest[0..] == rest && (BytesOf(rest).Some? ==> [] + BytesOf(rest).value == BytesOf(rest).value);
    for i := 0 to |rest|
      invariant hashed == outFile && BytesOf(rest) == After(outFile, BytesOf(rest[i..]))
    {
      NextChunk(rest, i, outFile);
      if !rest[i].Data? {
        return None;
      }
      outFile := outFile + rest[i].chunk;
      hashed := hashed + rest[i].chunk;
    }
    if !closed {
      return None;
    }
    assert rest[|rest|..] == [] && outFile + [] == outFile;
    return Some(File(outFile, hash(hashed)));
  }

  // ---- Upload, end to end ----

  lemma {:induction false} BytesOfData(chunks: seq<Bytes>)
    ensures BytesOf(DataOf(chunks)) == Some(Concat(chunks))
  {
    if chunks != [] {
      BytesOfData(chunks[1..]);
      assert DataOf(chunks)[1..] == DataOf(chunks[1..]);
    } else {
      assert DataOf(chunks) == [];
    }
  }

  lemma ConcatFirst(c: Bytes, rest: seq<Bytes>)
    ensures Concat([c] + rest) == c + Concat(rest)
  {
    assert ([c] + rest)[1..] == rest;
  }

  lemma Regroup(a: Bytes, b: Bytes, c: Bytes)
    ensures a + (b + c) == (a + b) + c
  {
  }

  lemma Onwards(script: seq<ReadResult>)
    requires Obedient(script) && script != []
    ensures Obedient(script[1..])
    ensures script[0].status.Eof? ==>
        Content(script[1..]) == [] && Taken(script[1..]) == [] && Unread(script[1..]) == script[1..]
  {
  }

  // Until the client stops it takes the bytes one for one.
  lemma {:induction false} TakenThenUnread(script: seq<ReadResult>)
    requires Obedient(script) && Completes(script)
    ensures Content(script) == Concat(Taken(script)) + Content(Unread(script))
  {
    hide Obedient;
    if script != [] && script[0].data != [] {
      var d, rest := script[0].data, script[1..];
      Onwards(script);
      TakenThenUnread(rest);
      ConcatFirst(d, Taken(rest));
      assert Content(script) == d + Content(rest);
      Regroup(d, Concat(Taken(rest)), Content(Unread(rest)));
    }
  }

  // The server's file is the source exactly when nothing followed the first
  // empty read; it has that file's hash, and the upload counts as complete,
  // either way.
  lemma UploadedExactly(script: seq<ReadResult>, entryName: string, isDelta: bool, hash: Bytes -> string)
    requires Obedient(script) && Completes(script)
    ensures var messages := [Initial(entryName, isDelta)] + DataOf(Taken(script));
      var file := Concat(Taken(script));
      && Received(messages, true, hash) == Some(File(file, hash(file)))
      && (file == Content(script) <==> Content(Unread(script)) == [])
  {
    BytesOfData(Taken(script));
    TakenThenUnread(script);
    assert ([Initial(entryName, isDelta)] + DataOf(Taken(script)))[1..] == DataOf(Taken(script));
    var file, rest := Concat(Taken(script)), Content(Unread(script));
    assert |file + rest| == |file| + |rest|;
    if rest == [] {
      assert file + rest == file;
    }
  }

  // The chunks taken are the reads up to the first that is empty or broken, and the
  // upload is complete exactly if there is none or it is not broken.
  lemma {:induction false} TakenExactly(script: seq<ReadResult>)
    ensures |Taken(script)| <= |script| && Unread(script) == script[|Taken(script)|..]
    ensures forall i :: 0 <= i < |Taken(script)| ==>
      Taken(script)[i] == script[i].data != [] && !script[i].status.Broken?
    ensures |Taken(script)| < |script| ==>
      script[|Taken(script)|].data == [] || script[|Taken(script)|].status.Broken?
    ensures Completes(script) <==> |Taken(script)| == |script| || !script[|Taken(script)|].status.Broken?
  {
    if script != [] && !script[0].status.Broken? && script[0].data != [] {
      TakenExactly(script[1..]);
      assert forall i :: 0 <= i < |script| - 1 ==> script[1..][i] == script[i + 1];
    }
  }

  // A reader has an error before its end exactly if some read is broken that no
  // end precedes.
  lemma {:induction false} ReadableExactly(script: seq<ReadResult>)
    ensures Readable(script) <==>
      forall i :: 0 <= i < |script| && script[i].status.Broken? ==>
        exists j :: 0 <= j < i && !script[j].status.More?
  {
    if script != [] {
      var rest := script[1..];
      ReadableExactly(rest);
      assert forall i :: 0 <= i < |rest| ==> rest[i] == script[i + 1];
      if script[0].status.More? {
        if Readable(script) {
          forall i | 0 <= i < |script| && script[i].status.Broken?
            ensures exists j :: 0 <= j < i && !script[j].status.More?
          {
            assert rest[i - 1].status.Broken?;
            var j :| 0 <= j < i - 1 && !rest[j].status.More?;
            assert !script[j + 1].status.More?;
          }
        } else {
          var i :| 0 <= i < |rest| && rest[i].status.Broken? && forall j :: 0 <= j < i ==> rest[j].status.More?;
          assert script[i + 1].status.Broken?;
          assert forall j :: 0 < j < i + 1 ==> script[j] == rest[j - 1];
        }
      }
    }
  }

  // For readers that end when they say so and give no empty read before, the upload
  // is complete exactly if the reader has no error.
  lemma {:induction false} CompletesExactly(script: seq<ReadResult>)
    requires Obedient(script) && NoEmptyRead(script)
    ensures Completes(script) <==> Readable(script)
  {
    if script != [] && !script[0].status.Broken? && script[0].data != [] {
      Onwards(script);
      if script[0].status.Eof? {
        assert script[1..] == [] || script[1..][0] == script[1];
      }
      CompletesExactly(script[1..]);
    }
  }

  // All the bytes of a reader, read by read.
  function AllData(script: seq<ReadResult>): seq<Bytes> {
    seq(|script|, i requires 0 <= i < |script| => script[i].data)
  }

  // Without an error that is its content.
  lemma {:induction false} ContentIsAllData(script: seq<ReadResult>)
    requires Obedient(script) && Readable(script)
    ensures Content(script) == Concat(AllData(script))
  {
    if script != [] {
      var rest := script[1..];
      Onwards(script);
      assert AllData(script) == [script[0].data] + AllData(rest);
      ConcatFirst(script[0].data, AllData(rest));
      if script[0].status.More? {
        ContentIsAllData(rest);
      } else {
        assert forall i :: 0 <= i < |rest| ==> rest[i] == script[i + 1];
        NoData(AllData(rest));
      }
    }
  }

  lemma {:induction false} NoData(chunks: seq<Bytes>)
    requires forall i :: 0 <= i < |chunks| ==> chunks[i] == []
    ensures Concat(chunks) == []
  {
    if chunks != [] {
      NoData(chunks[1..]);
    }
  }

  // Every chunk of an upload has one to 64 Ki bytes.
  lemma TakenChunksFit(script: seq<ReadResult>)
    requires Sized(script)
    ensures forall i :: 0 <= i < |Taken(script)| ==> 1 <= |Taken(script)[i]| <= 65536
  {
    TakenExactly(script);
  }

  // A file comes exactly of one initial message, then data only, on a stream that
  // was closed; it is the chunks in order, with the hash of the whole.
  lemma ReceivedExactly(messages: seq<Message>, closed: bool, hash: Bytes -> string)
    ensures Received(messages, closed, hash).Some? <==>
      closed && messages != [] && messages[0].Initial? && forall i :: 1 <= i < |messages| ==> messages[i].Data?
    ensures closed && messages != [] && messages[0].Initial? ==>
      forall chunks :: messages[1..] == DataOf(chunks) ==>
        Received(messages, closed, hash) == Some(File(Concat(chunks), hash(Concat(chunks))))
  {
    if messages != [] {
      BytesExactly(messages[1..]);
      assert forall i :: 1 <= i < |messages| ==> messages[i] == messages[1..][i - 1];
      assert forall i :: 0 <= i < |messages| - 1 ==> messages[1..][i] == messages[i + 1];
    }
    forall chunks ensures BytesOf(DataOf(chunks)) == Some(Concat(chunks)) {
      BytesOfData(chunks);
    }
  }

  lemma {:induction false} BytesExactly(messages: seq<Message>)
    ensures BytesOf(messages).Some? <==> forall i :: 0 <= i < |messages| ==> messages[i].Data?
  {
    if messages != [] {
      BytesExactly(messages[1..]);
      assert forall i :: 1 <= i < |messages| ==> messages[i] == messages[1..][i - 1];
      assert forall i :: 0 <= i < |messages| - 1 ==> messages[1..][i] == messages[i + 1];
    }
  }

  // For a reader that gives no empty read before its end, the transfer is the
  // identity, however the bytes were split and whether or not the last of them
  // came together with the end.
  lemma {:induction false} UploadIsIdentity(script: seq<ReadResult>)
    requires Obedient(script) && Readable(script) && NoEmptyRead(script)
    ensures Completes(script) && Concat(Taken(script)) == Content(script)
  {
    if script != [] && script[0].data != [] {
      ConcatFirst(script[0].data, Taken(script[1..]));
      if script[0].status.Eof? {
        Onwards(script);
        assert Completes(script[1..]);
      } else {
        UploadIsIdentity(script[1..]);
      }
    }
  }

  // One empty read in the middle, which the io.Reader contract allows, cuts the
  // snap short without any error.
  lemma EmptyReadTruncates()
    ensures var script := [ReadResult("a", More), ReadResult([], More), ReadResult("b", Eof)];
      Obedient(script) && Readable(script) && Completes(script)
      && Content(script) == "ab" && Concat(Taken(script)) == "a"
  {
    var script := [ReadResult("a", More), ReadResult([], More), ReadResult("b", Eof)];
    assert script[1..] == [ReadResult([], More), ReadResult("b", Eof)];
    assert script[1..][1..] == [ReadResult("b", Eof)];
    assert Taken(script[1..]) == [] && Taken(script) == ["a"];
    assert Content(script[1..][1..]) == "b" + [];
    assert Content(script[1..]) == [] + "b";
    assert Concat(["a"][1..]) == [];
    assert Readable(script[1..][1..]) && Readable(script[1..]);
  }

  // ---- Download ----

  datatype Download = Revision(id: string) | Chunk(bytes: Bytes)

  // The server sends every non-empty read, the one that comes with the end or
  // with an error included, and does not mind empty ones.
  function Served(script: seq<ReadResult>): seq<Bytes> {
    if script == [] then []
    else
      var rest := if script[0].status.More? then Served(script[1..]) else [];
      if script[0].data == [] then rest else [script[0].data] + rest
  }

  function ChunksOf(chunks: seq<Bytes>): (r: seq<Download>)
    ensures |r| == |chunks| && forall i :: 0 <= i < |r| ==> r[i] == Chunk(chunks[i])
  {
    seq(|chunks|, i requires 0 <= i < |chunks| => Chunk(chunks[i]))
  }

  method SnapDownload(reader: Reader, stream: Stream<Download>, id: string) returns (ok: bool)
    requires Sized(reader.script)
    modifies reader, stream
    ensures var messages := [Revision(id)] + ChunksOf(Served(old(reader.script)));
      && stream.sent == old(stream.sent) + Fitting(messages, old(stream.room))
      && (ok <==> Readable(old(reader.script)) && |messages| <= old(stream.room))
  {
    hide ChunksOf;
    ghost var all := [Revision(id)] + ChunksOf(Served(reader.script));
    ghost var before, room, was := stream.sent, stream.room, reader.script;
    var buffer := new Byte[CHUNK_SIZE];
    ok := stream.Send(Revision(id));
    if !ok {
      assert before + all[..0] == before;
      return false;
    }
    ghost var i := 1;
    assert all[..1] == [Revision(id)];
    while true
      invariant 1 <= i <= |all| && i + stream.room == room && stream.sent == before + all[..i]
      invariant Sized(reader.script) && all[i..] == ChunksOf(Served(reader.script))
      invariant Readable(was) <==> Readable(reader.script)
      decreases |reader.script|
    {
      ghost var script := reader.script;
      var n, status := reader.Read(buffer);
      ghost var rest := if status.More? then Served(reader.script) else [];
      if n > 0 {
        ChunksOfFirst(buffer[..n], rest);
        OneMoreSent(all, i, Chunk(buffer[..n]), ChunksOf(rest));
        ok := stream.Send(Chunk(buffer[..n]));
        if !ok {
          return false;
        }
        i := i + 1;
      }
      assert all[i..] == ChunksOf(rest);
      if status.Eof? {
        AllSent(all, i);
        return true;
      }
      if status.Broken? {
        AllSent(all, i);
        return false;
      }
    }
  }

  lemma ChunksOfFirst(c: Bytes, rest: seq<Bytes>)
    ensures ChunksOf([c] + rest) == [Chunk(c)] + ChunksOf(rest)
  {
  }

  // Every message but the first is a chunk with one to 64 Ki bytes.
  lemma {:induction false} ServedChunksFit(script: seq<ReadResult>)
    requires Sized(script)
    ensures forall i :: 0 <= i < |Served(script)| ==> 1 <= |Served(script)[i]| <= 65536
  {
    if script != [] && script[0].status.More? {
      ServedChunksFit(script[1..]);
    }
  }

  lemma {:induction false} ConcatAppend(a: seq<Bytes>, b: seq<Bytes>)
    ensures Concat(a + b) == Concat(a) + Concat(b)
  {
    if a == [] {
      assert a + b == b;
    } else {
      ConcatAppend(a[1..], b);
      assert (a + b)[0] == a[0] && (a + b)[1..] == a[1..] + b;
      Regroup(a[0], Concat(a[1..]), Concat(b));
    }
  }

  // The chunks are the object, cut up.
  lemma {:induction false} ServedIsContent(script: seq<ReadResult>)
    ensures Concat(Served(script)) == Content(script)
  {
    if script != [] {
      var rest := if script[0].status.More? then Served(script[1..]) else [];
      ConcatFirst(script[0].data, rest);
      if script[0].status.More? {
        ServedIsContent(script[1..]);
      }
    }
  }

  // ---- The gateway ----

  // Payloads in order.
  function Payloads(messages: seq<Download>): seq<Bytes> {
    if messages == [] then []
    else (if messages[0].Chunk? then [messages[0].bytes] else []) + Payloads(messages[1..])
  }

  // Copies each payload to the HTTP client as it comes, and stops when a write
  // fails.
  method Relay(messages: seq<Download>, body: Stream<Bytes>)
    modifies body
    ensures body.sent == old(body.sent) + Fitting(Payloads(messages), old(body.room))
  {
    hide Payloads;
    ghost var all := Payloads(messages);
    assert messages[0..] == messages;
    ghost var before, room := body.sent, body.room;
    ghost var w := 0;
    for i := 0 to |messages|
      invariant w <= |all| && w + body.room == room && body.sent == before + all[..w]
      invariant all[w..] == Payloads(messages[i..])
    {
      NextPayload(messages, i);
      if messages[i].Chunk? {
        OneMoreSent(all, w, messages[i].bytes, Payloads(messages[i + 1..]));
        var ok := body.Send(messages[i].bytes);
        if !ok {
          return;
        }
        w := w + 1;
      }
    }
    assert messages[|messages|..] == [];
    NoPayloads();
    AllSent(all, w);
  }

  lemma NextPayload(messages: seq<Download>, i: nat)
    requires i < |messages|
    ensures var rest := Payloads(messages[i + 1..]);
      Payloads(messages[i..]) == if messages[i].Chunk? then [messages[i].bytes] + rest else rest
  {
    assert messages[i..][1..] == messages[i + 1..];
  }

  lemma NoPayloads()
    ensures Payloads([]) == []
  {
  }

  lemma {:induction false} PayloadsOfChunks(chunks: seq<Bytes>)
    ensures Payloads(ChunksOf(chunks)) == chunks
  {
    if chunks != [] {
      PayloadsOfChunks(chunks[1..]);
      assert ChunksOf(chunks)[1..] == ChunksOf(chunks[1..]);
    }
  }

  // A stream cut short carries the first chunks.
  lemma PayloadsOfFront(id: string, chunks: seq<Bytes>, room: nat)
    ensures Payloads(Fitting([Revision(id)] + ChunksOf(chunks), room))
        == Fitting(chunks, if room == 0 then 0 else room - 1)
  {
    var front := Fitting(chunks, if room == 0 then 0 else room - 1);
    var sent := Fitting([Revision(id)] + ChunksOf(chunks), room);
    PayloadsOfChunks(front);
    if room == 0 {
      assert sent == [];
    } else {
      assert sent == [Revision(id)] + ChunksOf(front);
      assert sent[1..] == ChunksOf(front);
    }
  }

  lemma FrontOfConcat(chunks: seq<Bytes>, n: nat)
    requires n <= |chunks|
    ensures Concat(chunks[..n]) <= Concat(chunks)
  {
    ConcatAppend(chunks[..n], chunks[n..]);
    assert chunks[..n] + chunks[n..] == chunks;
  }

  // What the HTTP client gets of an object: all of it when every message and
  // every write went through, and a front part of it otherwise.
  lemma RelayedBytes(script: seq<ReadResult>, id: string, room: nat, bodyRoom: nat)
    ensures var messages := [Revision(id)] + ChunksOf(Served(script));
      var body := Concat(Fitting(Payloads(Fitting(messages, room)), bodyRoom));
      && body <= Content(script)
      && (|messages| <= room && |Served(script)| <= bodyRoom ==> body == Content(script))
  {
    var chunks := Served(script);
    ServedIsContent(script);
    PayloadsOfFront(id, chunks, room);
    var arrived := Fitting(chunks, if room == 0 then 0 else room - 1);
    var written := Fitting(arrived, bodyRoom);
    assert written == chunks[..|written|];
    FrontOfConcat(chunks, |written|);
  }
}
