/**
 The revision store: tables of the repository, buckets of the object store, and
 what each RPC does to them. Every repository or object-store call may be
 refused, or may take effect and still be reported as failed.
 A row's primary key is its position in its table.
 */
module RevisionModel {
  import opened Text
  import P = ObjectPaths
  import C = Channels

  datatype Track = Track(entry: nat, name: string)
  datatype Channel = Channel(track: nat, name: string)
  datatype Row = Row(entry: nat, track: nat, channel: nat, snapName: string, sha: string, sequence: nat, path: string)
  datatype Delta = Delta(source: nat, target: nat, format: string, path: string)

  type Bucket = map<string, Bytes>

  datatype Db = Db(
    entries: seq<string>, tracks: seq<Track>, channels: seq<Channel>, rows: seq<Row>, deltas: seq<Delta>,
    unscanned: Bucket, snaps: Bucket, deltaObjects: Bucket)

  const EMPTY: Db := Db([], [], [], [], [], map[], map[], map[])

  datatype Failure =
    | ResourceNotFound | AlreadyRegistered | MissingField | InvalidField | DatabaseError | ObjectStoreError
    | NilDereference

  // `Known` answers a dry run.
  datatype Outcome = Done | Known(registered: bool) | Stored(sequence: nat) | Failed(reason: Failure)

  // The external calls an RPC makes; j is the position among its channel rows.
  datatype Call =
    | GetEntry | RegisterEntry | AddLatestTrack | AddDefault(k: nat)
    | GetBySha | DeleteDuplicate | GetLatest
    | GetTrack(j: nat) | AddMissing(j: nat) | GetChannel(j: nat) | AddChannel(j: nat) | AddRow(j: nat)
    | Copy | Remove
    | GetDelta | ReadSource | ReadTarget | Generate | SaveDelta | AddDelta
    | GetBaseEntry | GetBase | FetchDelta | FetchBase | Apply | Unpack | SaveResult | DeleteDelta

  datatype Fate = Works | Refused | LostReply

  // What the surroundings decide during one RPC: how calls fare, in which order
  // the map of tracks is walked, and which of several equally good rows a query
  // returns.
  datatype Env = Env(fates: map<Call, Fate>, order: seq<string>, latest: nat, base: nat) {
    predicate Ok(c: Call) { c !in fates || fates[c].Works? }
    predicate TakesEffect(c: Call) { c !in fates || !fates[c].Refused? }
  }

  // The delta tool, and the law assumed of it.
  datatype Codec = Codec(gen: (Bytes, Bytes) -> Bytes, patch: (Bytes, Bytes) -> Bytes)

  ghost predicate Lawful(codec: Codec) {
    forall s, t :: codec.patch(s, codec.gen(s, t)) == t
  }

  // First position of x, if any.
  function Find<T(==)>(s: seq<T>, x: T): (r: Option<nat>)
    ensures r.Some? ==> r.value < |s| && s[r.value] == x
    ensures r.None? <==> x !in s
  {
    if s == [] then None
    else
      var n := |s| - 1;
      var r := Find(s[..n], x);
      assert s == s[..n] + [s[n]];
      if r.Some? then r else if s[n] == x then Some(n) else None
  }

  predicate HasRows(db: Db, e: nat) { exists i :: 0 <= i < |db.rows| && db.rows[i].entry == e }

  predicate HasSha(db: Db, e: nat, sha: string) {
    exists i :: 0 <= i < |db.rows| && db.rows[i].entry == e && db.rows[i].sha == sha
  }

  predicate HasSequence(db: Db, e: nat, q: nat) {
    exists i :: 0 <= i < |db.rows| && db.rows[i].entry == e && db.rows[i].sequence == q
  }

  // Row i may be returned as the latest of entry e.
  predicate IsLatest(db: Db, e: nat, i: nat) {
    && i < |db.rows| && db.rows[i].entry == e
    && forall j :: 0 <= j < |db.rows| && db.rows[j].entry == e ==> db.rows[j].sequence <= db.rows[i].sequence
  }

  // ---- RegisterSnapName ----

  const DEFAULT_CHANNELS: seq<string> := ["stable", "candidate", "beta", "edge"]

  // The first k default channels of the track; `false` once a call failed.
  function AddDefaults(db: Db, track: nat, k: nat, env: Env): (r: (Db, bool))
    requires k <= |DEFAULT_CHANNELS|
    ensures r.0 == db.(channels := r.0.channels)
  {
    if k == 0 then (db, true)
    else
      var (d, ok) := AddDefaults(db, track, k - 1, env);
      if !ok then (d, false)
      else
        (if env.TakesEffect(AddDefault(k - 1))
         then d.(channels := d.channels + [Channel(track, DEFAULT_CHANNELS[k - 1])]) else d,
         env.Ok(AddDefault(k - 1)))
  }

  function Register(db: Db, name: string, dryRun: bool, accountOk: bool, env: Env): (Db, Outcome) {
    if !env.Ok(GetEntry) then (db, Failed(DatabaseError))
    else if dryRun then (db, Known(name in db.entries))
    else if name in db.entries then (db, Failed(AlreadyRegistered))
    else if !accountOk then (db, Failed(InvalidField))
    else
      var d1 := if env.TakesEffect(RegisterEntry) then db.(entries := db.entries + [name]) else db;
      if !env.Ok(RegisterEntry) then (d1, Failed(DatabaseError))
      else
        var e := |db.entries|;
        var d2 := if env.TakesEffect(AddLatestTrack) then d1.(tracks := d1.tracks + [Track(e, "latest")]) else d1;
        if !env.Ok(AddLatestTrack) then (d2, Failed(DatabaseError))
        else
          var (d3, ok) := AddDefaults(d2, |d1.tracks|, |DEFAULT_CHANNELS|, env);
          (d3, if ok then Done else Failed(DatabaseError))
  }

  // ---- processUnscannedSnap ----

  datatype Upload = Upload(name: string, sha: string, inputs: seq<string>, key: string)

  datatype Progress =
    | Going(db: Db, last: Option<nat>)
    | Stopped(db: Db, reason: Failure)

  // The repository answers a missing track with an error, not with nothing.
  function TrackLookup(db: Db, e: nat, name: string, j: nat, env: Env): (r: (Option<nat>, Option<Failure>))
    ensures r.0.Some? ==> r.0.value < |db.tracks|
  {
    if !env.Ok(GetTrack(j)) then (None, Some(DatabaseError))
    else
      var track := Find(db.tracks, Track(e, name));
      (track, if track.None? then Some(ResourceNotFound) else None)
  }

  // The branch for a track that is missing without an error: the new track goes
  // to a variable of its own, and the nil that was looked up is read next.
  function AddMissingTrack(db: Db, e: nat, name: string, j: nat, env: Env): (r: Progress)
    ensures r.Stopped? && r.db.entries == db.entries && r.db.rows == db.rows
  {
    var d := if env.TakesEffect(AddMissing(j)) then db.(tracks := db.tracks + [Track(e, name)]) else db;
    if !env.Ok(AddMissing(j)) then Stopped(d, DatabaseError)
    else
      var (d1, ok) := AddDefaults(d, |db.tracks|, |DEFAULT_CHANNELS|, env);
      Stopped(d1, if ok then NilDereference else DatabaseError)
  }

  // One channel row.
  function WriteOne(db: Db, e: nat, up: Upload, q: nat, j: nat, p: C.Target, env: Env): (r: Progress)
    requires e < |db.entries|
    ensures r.db.entries == db.entries && db.rows <= r.db.rows
    ensures r.Going? && r.last.Some? ==> r.last.value < |r.db.rows|
  {
    var (track, error) := TrackLookup(db, e, p.track, j, env);
    if error.Some? then Stopped(db, error.value)
    else if track.None? then AddMissingTrack(db, e, p.track, j, env)
    else if !env.Ok(GetChannel(j)) then Stopped(db, DatabaseError)
    else
      var wanted := Channel(track.value, p.channel);
      var found := Find(db.channels, wanted);
      var d1 := if found.None? && env.TakesEffect(AddChannel(j)) then db.(channels := db.channels + [wanted]) else db;
      if found.None? && !env.Ok(AddChannel(j)) then Stopped(d1, DatabaseError)
      else
        var channel := if found.Some? then found.value else |db.channels|;
        var row := Row(e, track.value, channel, up.name, up.sha, q, P.SnapPath(db.entries[e], q));
        var d2 := if env.TakesEffect(AddRow(j)) then d1.(rows := d1.rows + [row]) else d1;
        if !env.Ok(AddRow(j)) then Stopped(d2, DatabaseError) else Going(d2, Some(|d1.rows|))
  }

  // The first n channel rows.
  function WriteRows(db: Db, e: nat, up: Upload, q: nat, pairs: seq<C.Target>, n: nat, env: Env): (r: Progress)
    requires e < |db.entries| && n <= |pairs|
    ensures r.db.entries == db.entries && db.rows <= r.db.rows
    ensures r.Going? && r.last.Some? ==> r.last.value < |r.db.rows|
  {
    if n == 0 then Going(db, None)
    else
      match WriteRows(db, e, up, q, pairs, n - 1, env)
      case Stopped(d, reason) => Stopped(d, reason)
      case Going(d, _) => WriteOne(d, e, up, q, n - 1, pairs[n - 1], env)
  }

  // The uint32 successor of the latest number, or one.
  function NextSequence(db: Db, e: nat, env: Env): nat
    requires HasRows(db, e) ==> IsLatest(db, e, env.latest)
  {
    if HasRows(db, e) then (db.rows[env.latest].sequence + 1) % TWO_TO_32 else 1
  }

  // Copy to the "snaps" bucket, then remove from "unscanned".
  function MoveObject(db: Db, key: string, path: string, env: Env): (Db, bool) {
    if key !in db.unscanned then (db, false)
    else
      var d1 := if env.TakesEffect(Copy) then db.(snaps := db.snaps[path := db.unscanned[key]]) else db;
      if !env.Ok(Copy) then (d1, false)
      else
        (if env.TakesEffect(Remove) then d1.(unscanned := d1.unscanned - {key}) else d1, env.Ok(Remove))
  }

  predicate HasDelta(db: Db, s: nat, t: nat, format: string) {
    exists i :: 0 <= i < |db.deltas| && db.deltas[i].source == s && db.deltas[i].target == t
        && db.deltas[i].format == format
  }

  // generateAndStoreDelta for the one supported format; failures are only logged.
  function StoreDelta(db: Db, s: nat, t: nat, env: Env, codec: Codec): Db
    requires s < |db.rows| && t < |db.rows|
  {
    var source, target := db.rows[s], db.rows[t];
    if env.Ok(GetDelta) && HasDelta(db, s, t, "xdelta3") then db
    else if !env.Ok(ReadSource) || source.path !in db.snaps then db
    else if !env.Ok(ReadTarget) || target.path !in db.snaps then db
    else if !env.Ok(Generate) then db
    else
      var delta := codec.gen(db.snaps[source.path], db.snaps[target.path]);
      var path := P.DeltaPath("xdelta3", source.snapName, source.sequence, target.sequence);
      var d1 := if env.TakesEffect(SaveDelta) then db.(deltaObjects := db.deltaObjects[path := delta]) else db;
      if !env.Ok(SaveDelta) || !env.TakesEffect(AddDelta) || HasDelta(db, s, t, "xdelta3") then d1
      else d1.(deltas := d1.deltas + [Delta(s, t, "xdelta3", path)])
  }

  ghost predicate Fits(db: Db, up: Upload, env: Env) {
    && C.IsOrder(C.Effective(up.inputs), env.order)
    && (forall e :: 0 <= e < |db.entries| && db.entries[e] == up.name && HasRows(db, e) ==> IsLatest(db, e, env.latest))
  }

  function PairsOf(up: Upload, env: Env): seq<C.Target> { C.Pairs(C.Effective(up.inputs), env.order) }

  function Process(db: Db, up: Upload, env: Env, codec: Codec): (Db, Outcome)
    requires Fits(db, up, env)
  {
    var entry := Find(db.entries, up.name);
    if !env.Ok(GetEntry) then (db, Failed(DatabaseError))
    else if entry.None? then (db, Failed(ResourceNotFound))
    else if !env.Ok(GetBySha) then (db, Failed(DatabaseError))
    else if HasSha(db, entry.value, up.sha) then
      (if env.TakesEffect(DeleteDuplicate) then db.(unscanned := db.unscanned - {up.key}) else db,
       Failed(if env.Ok(DeleteDuplicate) then AlreadyRegistered else ObjectStoreError))
    else if !env.Ok(GetLatest) then (db, Failed(DatabaseError))
    else ProcessNew(db, entry.value, up, env, codec)
  }

  // The part after the checks: rows, object, delta.
  function ProcessNew(db: Db, e: nat, up: Upload, env: Env, codec: Codec): (Db, Outcome)
    requires Fits(db, up, env) && e < |db.entries| && db.entries[e] == up.name
  {
    var q, pairs := NextSequence(db, e, env), PairsOf(up, env);
    match WriteRows(db, e, up, q, pairs, |pairs|, env)
    case Stopped(d, reason) => (d, Failed(reason))
    case Going(d, last) => Finish(db, d, last, e, q, up.key, env, codec)
  }

  // With all rows written: the object, then the delta from the former latest.
  function Finish(db: Db, d: Db, last: Option<nat>, e: nat, q: nat, key: string, env: Env, codec: Codec): (Db, Outcome)
    requires e < |db.entries| && db.rows <= d.rows && (last.Some? ==> last.value < |d.rows|)
    requires HasRows(db, e) ==> IsLatest(db, e, env.latest)
  {
    var (d1, ok) := MoveObject(d, key, P.SnapPath(db.entries[e], q), env);
    if !ok then (d1, Failed(ObjectStoreError))
    else if HasRows(db, e) && last.Some? then (StoreDelta(d1, env.latest, last.value, env, codec), Stored(q))
    else (d1, Stored(q))
  }

  // ---- ApplyUploadDelta ----

  datatype DeltaUpload = DeltaUpload(
    name: string, base: nat, deltaKey: string, deltaSha: string, format: string, inputs: seq<string>, resultKey: string)

  // Row i may be returned as the base the request names: by number, or the
  // latest for number zero.
  predicate IsBase(db: Db, e: nat, base: nat, i: nat) {
    if base == 0 then IsLatest(db, e, i)
    else i < |db.rows| && db.rows[i].entry == e && db.rows[i].sequence == base
  }

  predicate HasBase(db: Db, e: nat, base: nat) {
    if base == 0 then HasRows(db, e) else HasSequence(db, e, base)
  }

  function DropDelta(db: Db, key: string, env: Env): Db {
    if env.TakesEffect(DeleteDelta) then db.(unscanned := db.unscanned - {key}) else db
  }

  datatype Rebuilding = Rebuilt(db: Db, sha: string) | NotRebuilt(db: Db, reason: Failure)

  // Up to the point where the rebuilt snap is in the "unscanned" bucket.
  function Rebuild(db: Db, req: DeltaUpload, env: Env, codec: Codec, hash: Bytes -> string): (r: Rebuilding)
    requires BaseFits(db, req, env)
    ensures r.db == db.(unscanned := r.db.unscanned)
  {
    var entry := Find(db.entries, req.name);
    if req.format != "xdelta3" then NotRebuilt(db, InvalidField)
    else if !env.Ok(GetBaseEntry) then NotRebuilt(db, DatabaseError)
    else if entry.None? then NotRebuilt(db, ResourceNotFound)
    else if !env.Ok(GetBase) then NotRebuilt(db, DatabaseError)
    else if !HasBase(db, entry.value, req.base) then NotRebuilt(db, ResourceNotFound)
    else
      assert IsBase(db, entry.value, req.base, env.base);
      var base := db.rows[env.base].path;
      if !env.Ok(FetchDelta) || req.deltaKey !in db.unscanned then NotRebuilt(db, ObjectStoreError)
      else if hash(db.unscanned[req.deltaKey]) != req.deltaSha then
        NotRebuilt(DropDelta(db, req.deltaKey, env), InvalidField)
      else if !env.Ok(FetchBase) || base !in db.snaps then NotRebuilt(db, ObjectStoreError)
      else if !env.Ok(Apply) then NotRebuilt(DropDelta(db, req.deltaKey, env), ObjectStoreError)
      else if !env.Ok(Unpack) then NotRebuilt(db, ObjectStoreError)
      else
        var result := codec.patch(db.snaps[base], db.unscanned[req.deltaKey]);
        var d1 := if env.TakesEffect(SaveResult) then db.(unscanned := db.unscanned[req.resultKey := result]) else db;
        if !env.Ok(SaveResult) then NotRebuilt(d1, ObjectStoreError)
        else Rebuilt(DropDelta(d1, req.deltaKey, env), hash(result))
  }

  ghost predicate BaseFits(db: Db, req: DeltaUpload, env: Env) {
    forall e :: 0 <= e < |db.entries| && db.entries[e] == req.name && HasBase(db, e, req.base)
      ==> IsBase(db, e, req.base, env.base)
  }

  // The upload that follows a successful rebuild.
  function ResultUpload(req: DeltaUpload, sha: string): Upload { Upload(req.name, sha, req.inputs, req.resultKey) }

  // ---- One RPC ----

  datatype Rpc =
    | RegisterSnapName(name: string, dryRun: bool, accountOk: bool)
    | PutUnscanned(key: string, bytes: Bytes)
    | AddRevision(up: Upload)
    | ApplyUploadDelta(req: DeltaUpload)

  ghost predicate RpcFits(db: Db, rpc: Rpc, env: Env) {
    match rpc
    case AddRevision(up) => Fits(db, up, env)
    case ApplyUploadDelta(req) => BaseFits(db, req, env) && Fits(db, ResultUpload(req, ""), env)
    case _ => true
  }

  function Step(db: Db, rpc: Rpc, env: Env, codec: Codec, hash: Bytes -> string): (Db, Outcome)
    requires RpcFits(db, rpc, env)
  {
    match rpc
    case RegisterSnapName(name, dryRun, accountOk) => Register(db, name, dryRun, accountOk, env)
    case PutUnscanned(key, bytes) => (db.(unscanned := db.unscanned[key := bytes]), Done)
    case AddRevision(up) => if up.name == "" then (db, Failed(MissingField)) else Process(db, up, env, codec)
    case ApplyUploadDelta(req) =>
      match Rebuild(db, req, env, codec, hash)
      case NotRebuilt(d, reason) => (d, Failed(reason))
      case Rebuilt(d, sha) =>
        assert Fits(db, ResultUpload(req, ""), env);
        Process(d, ResultUpload(req, sha), env, codec)
  }

  // SnapDownload builds the path from the row instead of reading it.
  function Download(db: Db, i: nat): Option<Bytes>
    requires i < |db.rows|
  {
    var path := P.SnapPath(db.rows[i].snapName, db.rows[i].sequence);
    if path in db.snaps then Some(db.snaps[path]) else None
  }
}
