/**
 One snap all the way: from the publisher's reader through the upload stream, the
 revision store and the download stream to the HTTP client.
 */
module EndToEnd {
  import opened Text
  import opened RevisionModel
  import opened RevisionInvariants
  import opened RevisionHistory
  import opened RevisionResults
  import T = Transfer

  // ---- From staging to upload ----

  // The RPC is about the staged file `key`.
  predicate Names(rpc: Rpc, key: string) {
    match rpc
    case RegisterSnapName(_, _, _) => false
    case PutUnscanned(k, _) => k == key
    case AddRevision(up) => up.key == key
    case ApplyUploadDelta(req) => req.deltaKey == key || req.resultKey == key
  }

  lemma OthersLeaveFile(db: Db, rpc: Rpc, env: Env, codec: Codec, hash: Bytes -> string, key: string)
    requires RpcFits(db, rpc, env) && !Names(rpc, key)
    ensures SameObject(db.unscanned, Step(db, rpc, env, codec, hash).0.unscanned, key)
  {
    match rpc
    case RegisterSnapName(name, dryRun, accountOk) =>
    case PutUnscanned(k, bytes) =>
    case AddRevision(up) =>
      UploadIsConsumed(db, up, env, codec);
    case ApplyUploadDelta(req) =>
      DeltaUploadIsConsumed(db, req, env, codec, hash);
  }

  // Event i stages the bytes and no event before j is about that file.
  ghost predicate Staged(events: seq<Event>, i: nat, j: nat, key: string, bytes: Bytes) {
    && i < j <= |events| && events[i].rpc == PutUnscanned(key, bytes)
    && forall m :: i < m < j ==> !Names(events[m].rpc, key)
  }

  lemma {:induction false} StagedStays(
      states: seq<Db>, events: seq<Event>, codec: Codec, hash: Bytes -> string, i: nat, j: nat,
      key: string, bytes: Bytes)
    requires IsHistory(states, events, codec, hash) && Staged(events, i, j, key, bytes)
    ensures key in states[j].unscanned && states[j].unscanned[key] == bytes
  {
    hide RevisionModel.Step;
    if j == i + 1 {
      PutsFile(states[i], events[i], codec, hash, key, bytes);
      assert states[i + 1] == After(states[i], events[i], codec, hash);
    } else {
      StagedStays(states, events, codec, hash, i, j - 1, key, bytes);
      OthersLeaveFile(states[j - 1], events[j - 1].rpc, events[j - 1].env, codec, hash, key);
      assert states[j - 1 + 1] == After(states[j - 1], events[j - 1], codec, hash);
    }
  }

  lemma PutsFile(db: Db, ev: Event, codec: Codec, hash: Bytes -> string, key: string, bytes: Bytes)
    requires ev.rpc == PutUnscanned(key, bytes)
    ensures After(db, ev, codec, hash).unscanned == db.unscanned[key := bytes]
  {
  }

  // ---- All the way ----

  // What the upload client sends of a source it could send completely.
  function Sent(source: seq<T.ReadResult>, name: string): seq<T.Message> {
    [T.Initial(name, false)] + T.DataOf(T.Taken(source))
  }

  // Event j records the staged file under its digest and succeeds.
  ghost predicate Recorded(states: seq<Db>, events: seq<Event>, codec: Codec, hash: Bytes -> string,
      j: nat, key: string, sha: string)
  {
    && IsHistory(states, events, codec, hash) && j < |events| && events[j].rpc.AddRevision?
    && events[j].rpc.up.key == key && events[j].rpc.up.sha == sha && WantedOf(events[j].rpc.up) != []
    && Step(states[j], events[j].rpc, events[j].env, codec, hash).1.Stored?
  }

  // Row r of a later state belongs to the revision event j recorded.
  ghost predicate RowOf(states: seq<Db>, events: seq<Event>, codec: Codec, hash: Bytes -> string,
      j: nat, k: nat, r: nat)
    requires IsHistory(states, events, codec, hash) && j < |events| && k < |states|
  {
    && events[j].rpc.AddRevision? && r < |states[k].rows|
    && Find(states[j].entries, events[j].rpc.up.name) == Some(states[k].rows[r].entry)
    && Step(states[j], events[j].rpc, events[j].env, codec, hash).1 == Stored(states[k].rows[r].sequence)
  }

  // The body an HTTP client gets of an object read as `stored`, when the stream
  // takes `room` messages and the client `bodyRoom` writes.
  function Body(stored: seq<T.ReadResult>, id: string, room: nat, bodyRoom: nat): Bytes {
    T.Concat(T.Fitting(T.Payloads(T.Fitting([T.Revision(id)] + T.ChunksOf(T.Served(stored)), room)), bodyRoom))
  }

  // What arrives is what was sent, and the row carries its digest: for any way the
  // publisher's reader splits the snap, any RPCs before, between and after staging
  // and recording that do not name the file, any row of the revision and any way
  // the object's reader splits it.
  lemma DownloadIsUpload(
      source: seq<T.ReadResult>, name: string, file: T.File, states: seq<Db>, events: seq<Event>, codec: Codec,
      hash: Bytes -> string, i: nat, j: nat, k: nat, key: string, r: nat,
      stored: seq<T.ReadResult>, id: string, room: nat, bodyRoom: nat)
    requires T.Obedient(source) && T.Readable(source) && T.NoEmptyRead(source)
    requires T.Received(Sent(source, name), true, hash) == Some(file)
    requires Good(states, events, codec, hash) && j < k < |states|
    requires Staged(events, i, j, key, file.bytes) && Recorded(states, events, codec, hash, j, key, file.digest)
    requires RowOf(states, events, codec, hash, j, k, r)
    requires Download(states[k], r).Some? ==> T.Content(stored) == Download(states[k], r).value
    requires |T.Served(stored)| < room && |T.Served(stored)| <= bodyRoom
    ensures Download(states[k], r).Some? && states[k].rows[r].sha == hash(T.Content(source))
    ensures Body(stored, id, room, bodyRoom) == T.Content(source)
  {
    hide RevisionModel.Step;
    T.UploadIsIdentity(source);
    T.UploadedExactly(source, name, false, hash);
    StagedStays(states, events, codec, hash, i, j, key, file.bytes);
    UploadIsKept(states, events, codec, hash, j, k);
    T.RelayedBytes(stored, id, room, bodyRoom);
  }
}
