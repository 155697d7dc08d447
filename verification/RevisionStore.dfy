/**
 The store's RPCs on mutable tables and buckets, step by step as the service runs
 them. Each is tied to the function of RevisionModel whose properties are proved.
 */
module RevisionStore {
  import opened Text
  import opened RevisionModel
  import C = Channels
  import P = ObjectPaths

  function AsProgress(db: Db, failure: Option<Failure>, last: Option<nat>): Progress {
    if failure.Some? then Stopped(db, failure.value) else Going(db, last)
  }

  lemma PairsUpTo(inputs: seq<string>, order: seq<string>, i: nat)
    requires i < |order|
    ensures |C.Pairs(inputs, order[..i + 1])| == |C.Pairs(inputs, order[..i])| + |C.ChannelsOf(inputs, order[i])|
  {
    assert order[..i + 1][..i] == order[..i];
  }

  lemma PairsOfTrack(inputs: seq<string>, order: seq<string>, i: nat)
    requires i < |order| && C.IsOrder(inputs, order)
    ensures var j, names := |C.Pairs(inputs, order[..i])|, C.ChannelsOf(inputs, order[i]);
      && names != [] && j + |names| <= |C.Pairs(inputs, order)| && |C.Pairs(inputs, order[..i + 1])| == j + |names|
      && forall k :: 0 <= k < |names| ==> C.Pairs(inputs, order)[j + k] == C.Target(order[i], names[k])
  {
    hide C.Pairs, C.ChannelsOf;
    var names := C.ChannelsOf(inputs, order[i]);
    assert order[i] in order;
    PairsUpTo(inputs, order, i);
    forall k | 0 <= k < |names|
      ensures |C.Pairs(inputs, order[..i])| + k < |C.Pairs(inputs, order)|
      ensures C.Pairs(inputs, order)[|C.Pairs(inputs, order[..i])| + k] == C.Target(order[i], names[k])
    {
      C.PairAt(inputs, order, i, k);
    }
    C.PairAt(inputs, order, i, |names| - 1);
  }

  lemma NoPairs(inputs: seq<string>)
    ensures C.Pairs(inputs, []) == []
  {
  }

  class Store {
    var entries: seq<string>
    var tracks: seq<Track>
    var channels: seq<Channel>
    var rows: seq<Row>
    var deltas: seq<Delta>
    var unscanned: Bucket
    var snaps: Bucket
    var deltaObjects: Bucket

    function State(): Db
      reads this
    {
      Db(entries, tracks, channels, rows, deltas, unscanned, snaps, deltaObjects)
    }

    constructor ()
      ensures State() == EMPTY
    {
      entries, tracks, channels, rows, deltas := [], [], [], [], [];
      unscanned, snaps, deltaObjects := map[], map[], map[];
    }

    // ---- Registration ----

    method AddDefaultChannels(track: nat, env: Env) returns (ok: bool)
      modifies this`channels
      ensures (State(), ok) == AddDefaults(old(State()), track, |DEFAULT_CHANNELS|, env)
    {
      for k := 0 to |DEFAULT_CHANNELS|
        invariant (State(), true) == AddDefaults(old(State()), track, k, env)
      {
        if env.TakesEffect(AddDefault(k)) {
          channels := channels + [Channel(track, DEFAULT_CHANNELS[k])];
        }
        if !env.Ok(AddDefault(k)) {
          AddDefaultsStops(old(State()), track, k + 1, env);
          return false;
        }
      }
      return true;
    }

    method RegisterSnapName(name: string, dryRun: bool, accountOk: bool, env: Env) returns (outcome: Outcome)
      modifies this
      ensures (State(), outcome) == Register(old(State()), name, dryRun, accountOk, env)
    {
      if !env.Ok(GetEntry) {
        return Failed(DatabaseError);
      }
      if dryRun {
        return Known(name in entries);
      }
      if name in entries {
        return Failed(AlreadyRegistered);
      }
      if !accountOk {
        return Failed(InvalidField);
      }
      var entry := |entries|;
      if env.TakesEffect(RegisterEntry) {
        entries := entries + [name];
      }
      if !env.Ok(RegisterEntry) {
        return Failed(DatabaseError);
      }
      var track := |tracks|;
      if env.TakesEffect(AddLatestTrack) {
        tracks := tracks + [Track(entry, "latest")];
      }
      if !env.Ok(AddLatestTrack) {
        return Failed(DatabaseError);
      }
      var ok := AddDefaultChannels(track, env);
      return if ok then Done else Failed(DatabaseError);
    }

    // ---- Upload ----

    method PutUnscanned(key: string, bytes: Bytes)
      modifies this`unscanned
      ensures State() == old(State()).(unscanned := old(unscanned)[key := bytes])
    {
      unscanned := unscanned[key := bytes];
    }

    method GetTrackByEntryIdAndName(e: nat, name: string, j: nat, env: Env)
      returns (track: Option<nat>, error: Option<Failure>)
      ensures (track, error) == TrackLookup(State(), e, name, j, env)
    {
      if !env.Ok(GetTrack(j)) {
        return None, Some(DatabaseError);
      }
      track := Find(tracks, Track(e, name));
      error := if track.None? then Some(ResourceNotFound) else None;
    }

    // What the code would do about a track that is missing without an error.
    method CreateMissingTrack(e: nat, name: string, j: nat, env: Env) returns (failure: Failure)
      modifies this`tracks, this`channels
      ensures Stopped(State(), failure) == AddMissingTrack(old(State()), e, name, j, env)
    {
      var track := |tracks|;
      if env.TakesEffect(AddMissing(j)) {
        tracks := tracks + [Track(e, name)];
      }
      if !env.Ok(AddMissing(j)) {
        return DatabaseError;
      }
      var ok := AddDefaultChannels(track, env);
      return if ok then NilDereference else DatabaseError;
    }

    // The body of the two nested loops.
    method WriteChannelRow(e: nat, up: Upload, q: nat, path: string, j: nat, p: C.Target, env: Env)
      returns (failure: Option<Failure>, row: Option<nat>)
      requires e < |entries| && path == P.SnapPath(entries[e], q)
      modifies this`tracks, this`channels, this`rows
      ensures AsProgress(State(), failure, row) == WriteOne(old(State()), e, up, q, j, p, env)
    {
      hide RevisionModel.TrackLookup, RevisionModel.AddMissingTrack;
      row := None;
      var track, error := GetTrackByEntryIdAndName(e, p.track, j, env);
      if error.Some? {
        return error, row;
      }
      if track.None? {
        var stopped := CreateMissingTrack(e, p.track, j, env);
        return Some(stopped), row;
      }
      if !env.Ok(GetChannel(j)) {
        return Some(DatabaseError), row;
      }
      var wanted := Channel(track.value, p.channel);
      var found := Find(channels, wanted);
      var channel := if found.Some? then found.value else |channels|;
      if found.None? {
        if env.TakesEffect(AddChannel(j)) {
          channels := channels + [wanted];
        }
        if !env.Ok(AddChannel(j)) {
          return Some(DatabaseError), row;
        }
      }
      var id := |rows|;
      if env.TakesEffect(AddRow(j)) {
        rows := rows + [Row(e, track.value, channel, up.name, up.sha, q, path)];
      }
      if !env.Ok(AddRow(j)) {
        return Some(DatabaseError), row;
      }
      return None, Some(id);
    }

    // Every channel asked for on one track; j rows are already written.
    method WriteTrackRows(e: nat, up: Upload, q: nat, path: string, track: string, names: seq<string>, j: nat,
        before: Option<nat>, env: Env, ghost db: Db, ghost pairs: seq<C.Target>)
      returns (failure: Option<Failure>, last: Option<nat>)
      requires e < |entries| && entries == db.entries && path == P.SnapPath(entries[e], q)
      requires j + |names| <= |pairs| && forall k :: 0 <= k < |names| ==> pairs[j + k] == C.Target(track, names[k])
      requires WriteRows(db, e, up, q, pairs, j, env) == Going(State(), before)
      modifies this`tracks, this`channels, this`rows
      ensures entries == db.entries
      ensures AsProgress(State(), failure, last)
        == WriteRows(db, e, up, q, pairs, if failure.Some? then |pairs| else j + |names|, env)
    {
      hide RevisionModel.WriteOne;
      failure, last := None, before;
      for k := 0 to |names|
        invariant failure.None? && entries == db.entries
          && WriteRows(db, e, up, q, pairs, j + k, env) == Going(State(), last)
      {
        assert pairs[j + k] == C.Target(track, names[k]);
        failure, last := WriteChannelRow(e, up, q, path, j + k, C.Target(track, names[k]), env);
        if failure.Some? {
          StopsForGood(db, e, up, q, pairs, j + k + 1, |pairs|, env);
          return;
        }
      }
    }

    // Every track of the map.
    method WriteChannelRows(e: nat, up: Upload, q: nat, path: string, env: Env)
      returns (failure: Option<Failure>, last: Option<nat>)
      requires e < |entries| && path == P.SnapPath(entries[e], q) && C.IsOrder(C.Effective(up.inputs), env.order)
      modifies this`tracks, this`channels, this`rows
      ensures AsProgress(State(), failure, last)
        == WriteRows(old(State()), e, up, q, PairsOf(up, env), |PairsOf(up, env)|, env)
    {
      hide RevisionModel.WriteOne, C.Pairs, C.ChannelsOf;
      NoPairs(C.Effective(up.inputs));
      var parsed := C.ParseTracksAndChannels(up.inputs);
      ghost var inputs, pairs, db := C.Effective(up.inputs), PairsOf(up, env), State();
      failure, last := None, None;
      var j := 0;
      assert env.order[..0] == [];
      for i := 0 to |env.order|
        invariant failure.None? && entries == db.entries && j == |C.Pairs(inputs, env.order[..i])| <= |pairs|
        invariant WriteRows(db, e, up, q, pairs, j, env) == Going(State(), last)
      {
        var track := env.order[i];
        PairsOfTrack(inputs, env.order, i);
        var names := parsed[track];
        failure, last := WriteTrackRows(e, up, q, path, track, names, j, last, env, db, pairs);
        if failure.Some? {
          return;
        }
        j := j + |names|;
      }
      assert env.order[..|env.order|] == env.order;
    }

    method Move(key: string, path: string, env: Env) returns (ok: bool)
      modifies this`unscanned, this`snaps
      ensures (State(), ok) == MoveObject(old(State()), key, path, env)
    {
      if key !in unscanned {
        return false;
      }
      if env.TakesEffect(Copy) {
        snaps := snaps[path := unscanned[key]];
      }
      if !env.Ok(Copy) {
        return false;
      }
      if env.TakesEffect(Remove) {
        unscanned := unscanned - {key};
      }
      return env.Ok(Remove);
    }

    method GenerateAndStoreDelta(source: nat, target: nat, env: Env, codec: Codec)
      requires source < |rows| && target < |rows|
      modifies this`deltas, this`deltaObjects
      ensures State() == StoreDelta(old(State()), source, target, env, codec)
    {
      var s, t := rows[source], rows[target];
      var alreadyStored := HasDelta(State(), source, target, "xdelta3");
      if env.Ok(GetDelta) && alreadyStored {
        return;
      }
      if !env.Ok(ReadSource) || s.path !in snaps {
        return;
      }
      if !env.Ok(ReadTarget) || t.path !in snaps {
        return;
      }
      if !env.Ok(Generate) {
        return;
      }
      var delta := codec.gen(snaps[s.path], snaps[t.path]);
      var path := P.DeltaPath("xdelta3", s.snapName, s.sequence, t.sequence);
      if env.TakesEffect(SaveDelta) {
        deltaObjects := deltaObjects[path := delta];
      }
      if !env.Ok(SaveDelta) {
        return;
      }
      if env.TakesEffect(AddDelta) && !alreadyStored {
        deltas := deltas + [Delta(source, target, "xdelta3", path)];
      }
    }

    method ProcessUnscannedSnap(up: Upload, env: Env, codec: Codec) returns (outcome: Outcome)
      requires Fits(State(), up, env)
      modifies this
      ensures (State(), outcome) == Process(old(State()), up, env, codec)
    {
      if !env.Ok(GetEntry) {
        return Failed(DatabaseError);
      }
      var entry := Find(entries, up.name);
      if entry.None? {
        return Failed(ResourceNotFound);
      }
      var e := entry.value;
      if !env.Ok(GetBySha) {
        return Failed(DatabaseError);
      }
      if HasSha(State(), e, up.sha) {
        if env.TakesEffect(DeleteDuplicate) {
          unscanned := unscanned - {up.key};
        }
        return Failed(if env.Ok(DeleteDuplicate) then AlreadyRegistered else ObjectStoreError);
      }
      if !env.Ok(GetLatest) {
        return Failed(DatabaseError);
      }
      outcome := AddNewRevision(e, up, env, codec);
    }

    method AddNewRevision(e: nat, up: Upload, env: Env, codec: Codec) returns (outcome: Outcome)
      requires Fits(State(), up, env) && e < |entries| && entries[e] == up.name
      modifies this
      ensures (State(), outcome) == ProcessNew(old(State()), e, up, env, codec)
    {
      hide RevisionModel.WriteRows, RevisionModel.MoveObject, RevisionModel.StoreDelta;
      var hasLatest := HasRows(State(), e);
      var q := 1;
      if hasLatest {
        q := (rows[env.latest].sequence + 1) % TWO_TO_32;
      }
      var path := P.SnapPath(entries[e], q);
      var failure, last := WriteChannelRows(e, up, q, path, env);
      if failure.Some? {
        return Failed(failure.value);
      }
      var ok := Move(up.key, path, env);
      if !ok {
        return Failed(ObjectStoreError);
      }
      if hasLatest && last.Some? {
        GenerateAndStoreDelta(env.latest, last.value, env, codec);
      }
      return Stored(q);
    }

    method AddRevision(up: Upload, env: Env, codec: Codec, hash: Bytes -> string) returns (outcome: Outcome)
      requires Fits(State(), up, env)
      modifies this
      ensures (State(), outcome) == Step(old(State()), Rpc.AddRevision(up), env, codec, hash)
    {
      if up.name == "" {
        return Failed(MissingField);
      }
      outcome := ProcessUnscannedSnap(up, env, codec);
    }

    // ---- Upload by delta ----

    method DeleteUnscanned(key: string, env: Env)
      modifies this`unscanned
      ensures State() == DropDelta(old(State()), key, env)
    {
      if env.TakesEffect(DeleteDelta) {
        unscanned := unscanned - {key};
      }
    }

    method ApplyUploadDelta(req: DeltaUpload, env: Env, codec: Codec, hash: Bytes -> string) returns (outcome: Outcome)
      requires RpcFits(State(), Rpc.ApplyUploadDelta(req), env)
      modifies this
      ensures (State(), outcome) == Step(old(State()), Rpc.ApplyUploadDelta(req), env, codec, hash)
    {
      if req.format != "xdelta3" {
        return Failed(InvalidField);
      }
      if !env.Ok(GetBaseEntry) {
        return Failed(DatabaseError);
      }
      var entry := Find(entries, req.name);
      if entry.None? {
        return Failed(ResourceNotFound);
      }
      if !env.Ok(GetBase) {
        return Failed(DatabaseError);
      }
      if !HasBase(State(), entry.value, req.base) {
        return Failed(ResourceNotFound);
      }
      var base := rows[env.base].path;
      if !env.Ok(FetchDelta) || req.deltaKey !in unscanned {
        return Failed(ObjectStoreError);
      }
      var delta := unscanned[req.deltaKey];
      if hash(delta) != req.deltaSha {
        DeleteUnscanned(req.deltaKey, env);
        return Failed(InvalidField);
      }
      if !env.Ok(FetchBase) || base !in snaps {
        return Failed(ObjectStoreError);
      }
      if !env.Ok(Apply) {
        DeleteUnscanned(req.deltaKey, env);
        return Failed(ObjectStoreError);
      }
      var result := codec.patch(snaps[base], delta);
      if !env.Ok(Unpack) {
        return Failed(ObjectStoreError);
      }
      if env.TakesEffect(SaveResult) {
        unscanned := unscanned[req.resultKey := result];
      }
      if !env.Ok(SaveResult) {
        return Failed(ObjectStoreError);
      }
      DeleteUnscanned(req.deltaKey, env);
      assert Fits(old(State()), ResultUpload(req, ""), env);
      outcome := ProcessUnscannedSnap(ResultUpload(req, hash(result)), env, codec);
    }
  }

  lemma {:induction false} AddDefaultsStops(db: Db, track: nat, k: nat, env: Env)
    requires k <= |DEFAULT_CHANNELS| && !AddDefaults(db, track, k, env).1
    ensures AddDefaults(db, track, |DEFAULT_CHANNELS|, env) == AddDefaults(db, track, k, env)
    decreases |DEFAULT_CHANNELS| - k
  {
    if k < |DEFAULT_CHANNELS| {
      AddDefaultsStops(db, track, k + 1, env);
    }
  }

  // A failed row ends the loop.
  lemma {:induction false} StopsForGood(db: Db, e: nat, up: Upload, q: nat, pairs: seq<C.Target>,
      j: nat, n: nat, env: Env)
    requires e < |db.entries| && j <= n <= |pairs| && WriteRows(db, e, up, q, pairs, j, env).Stopped?
    ensures WriteRows(db, e, up, q, pairs, n, env) == WriteRows(db, e, up, q, pairs, j, env)
  {
    if j < n {
      StopsForGood(db, e, up, q, pairs, j, n - 1, env);
    }
  }
}
