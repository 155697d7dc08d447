/**
 What an upload's answer means: which rows it left, which bytes it stored, which
 delta it recorded, and what a retry will find.
 */
module RevisionResults {
  import opened Text
  import opened RevisionModel
  import opened RevisionInvariants
  import opened RevisionHistory
  import C = Channels
  import P = ObjectPaths

  // The tracks and channels an upload asks for, in input order.
  function WantedOf(up: Upload): seq<C.Target> { C.Wanted(C.Effective(up.inputs)) }

  // Track and channel names of the rows from `base` on.
  function TargetsFrom(d: Db, base: nat): seq<C.Target>
    requires base <= |d.rows| && RowsOk(d)
  {
    seq(|d.rows| - base, j requires 0 <= j < |d.rows| - base =>
      assert RowOk(d, d.rows[base + j]);
      C.Target(d.tracks[d.rows[base + j].track].name, d.channels[d.rows[base + j].channel].name))
  }

  // ---- A successful upload ----

  // The last steps touch neither rows nor names.
  lemma FinishEffect(db: Db, d: Db, last: Option<nat>, e: nat, q: nat, key: string, env: Env, codec: Codec)
    requires e < |db.entries| && db.rows <= d.rows && (last.Some? ==> last.value < |d.rows|)
    requires HasRows(db, e) ==> IsLatest(db, e, env.latest)
    ensures var (d', outcome) := Finish(db, d, last, e, q, key, env, codec);
      var path := P.SnapPath(db.entries[e], q);
      && d'.rows == d.rows && d'.entries == d.entries && d'.tracks == d.tracks && d'.channels == d.channels
      && (outcome.Stored? ==>
          outcome == Stored(q) && key in d.unscanned && path in d'.snaps && d'.snaps[path] == d.unscanned[key])
  {
  }

  lemma TargetsArePairs(d: Db, base: nat, pairs: seq<C.Target>)
    requires base <= |d.rows| && RowsOk(d) && AreFor(d, base, pairs, |pairs|)
    ensures TargetsFrom(d, base) == pairs
  {
    forall j | 0 <= j < |pairs| ensures TargetsFrom(d, base)[j] == pairs[j] {
      assert IsFor(d, base + j, pairs[j]);
      assert RowOk(d, d.rows[base + j]);
    }
  }

  // One new row for each input that parses.
  ghost predicate WritesWanted(db: Db, d: Db, up: Upload) {
    db.rows <= d.rows && RowsOk(d) && multiset(TargetsFrom(d, |db.rows|)) == multiset(WantedOf(up))
  }

  // All new rows are number q of the entry.
  predicate WritesRevision(db: Db, d: Db, e: nat, q: nat, sha: string) {
    forall i :: |db.rows| <= i < |d.rows| ==> NewRow(d, d.rows[i], e, q, sha)
  }

  predicate Holds(db: Db, path: string, bytes: Bytes) { path in db.snaps && db.snaps[path] == bytes }

  // Success means one row for each well-formed input, whatever order the map of
  // tracks was walked in, all with the next number and the given digest, and
  // the uploaded bytes under that number.
  lemma StoredExactly(db: Db, e: nat, up: Upload, env: Env, codec: Codec)
    requires Lawful(codec) && Uploadable(db, codec, e, up) && Fits(db, up, env)
    requires ProcessNew(db, e, up, env, codec).1.Stored?
    ensures var (d, outcome) := ProcessNew(db, e, up, env, codec);
      var q := Top(db.rows, e) + 1;
      && outcome == Stored(q)
      && WritesWanted(db, d, up) && WritesRevision(db, d, e, q, up.sha)
      && up.key in db.unscanned && Holds(d, P.SnapPath(db.entries[e], q), db.unscanned[up.key])
  {
    NextIsTop(db, e, env);
    StoredObject(db, e, up, env, codec);
    StoredRows(db, e, up, env, codec);
  }

  lemma StoredObject(db: Db, e: nat, up: Upload, env: Env, codec: Codec)
    requires Lawful(codec) && Uploadable(db, codec, e, up) && Fits(db, up, env)
    requires ProcessNew(db, e, up, env, codec).1.Stored?
    ensures var (d, outcome) := ProcessNew(db, e, up, env, codec);
      var q := NextSequence(db, e, env);
      outcome == Stored(q) && up.key in db.unscanned && Holds(d, P.SnapPath(db.entries[e], q), db.unscanned[up.key])
  {
    var q, pairs := NextSequence(db, e, env), PairsOf(up, env);
    WriteRowsExtends(db, e, up, q, pairs, |pairs|, env);
    var r := WriteRows(db, e, up, q, pairs, |pairs|, env);
    FinishEffect(db, r.db, r.last, e, q, up.key, env, codec);
  }

  lemma StoredRows(db: Db, e: nat, up: Upload, env: Env, codec: Codec)
    requires Lawful(codec) && Uploadable(db, codec, e, up) && Fits(db, up, env)
    requires ProcessNew(db, e, up, env, codec).1.Stored?
    ensures var d := ProcessNew(db, e, up, env, codec).0;
      WritesWanted(db, d, up) && WritesRevision(db, d, e, NextSequence(db, e, env), up.sha)
  {
    var q, pairs := NextSequence(db, e, env), PairsOf(up, env);
    var d := ProcessNew(db, e, up, env, codec).0;
    ProcessNewEffect(db, e, up, env, codec);
    WriteRowsExtends(db, e, up, q, pairs, |pairs|, env);
    var r := WriteRows(db, e, up, q, pairs, |pairs|, env);
    FinishEffect(db, r.db, r.last, e, q, up.key, env, codec);
    RowsAreWanted(db, r.db, d, up, env);
  }

  lemma RowsAreWanted(db: Db, d: Db, d': Db, up: Upload, env: Env)
    requires Fits(db, up, env) && AreFor(d, |db.rows|, PairsOf(up, env), |PairsOf(up, env)|)
    requires d'.rows == d.rows && d'.tracks == d.tracks && d'.channels == d.channels
    requires db.rows <= d'.rows && RowsOk(d')
    ensures WritesWanted(db, d', up)
  {
    SameNames(d, d', |db.rows|, PairsOf(up, env));
    TargetsArePairs(d', |db.rows|, PairsOf(up, env));
    C.RowsDoNotDependOnMapOrder(C.Effective(up.inputs), env.order);
  }

  lemma SameNames(d: Db, d': Db, base: nat, pairs: seq<C.Target>)
    requires AreFor(d, base, pairs, |pairs|) && d'.rows == d.rows && d'.tracks == d.tracks && d'.channels == d.channels
    ensures AreFor(d', base, pairs, |pairs|)
  {
    forall j | 0 <= j < |pairs| ensures IsFor(d', base + j, pairs[j]) {
      assert IsFor(d, base + j, pairs[j]);
    }
  }

  lemma NextIsTop(db: Db, e: nat, env: Env)
    requires RowsOk(db) && Dense(db) && HasRoom(db, e)
    requires HasRows(db, e) ==> IsLatest(db, e, env.latest)
    ensures NextSequence(db, e, env) == Top(db.rows, e) + 1
  {
    NumberedWhenOk(db, e);
    NextIsFresh(db, e, env);
    if Top(db.rows, e) > 0 {
      assert HasSequence(db, e, Top(db.rows, e));
    }
  }

  // ---- What the answer does and does not promise ----

  lemma GrowsExactly(db: Db, d: Db, up: Upload)
    requires WritesWanted(db, d, up)
    ensures |d.rows| == |db.rows| + |WantedOf(up)|
  {
    assert |multiset(TargetsFrom(d, |db.rows|))| == |multiset(WantedOf(up))|;
  }

  // A success leaves a revision behind exactly when some input parses.
  lemma LeavesRevisionExactly(db: Db, e: nat, up: Upload, env: Env, codec: Codec)
    requires Lawful(codec) && Uploadable(db, codec, e, up) && Fits(db, up, env)
    requires ProcessNew(db, e, up, env, codec).1.Stored?
    ensures var d := ProcessNew(db, e, up, env, codec).0;
      HasSequence(d, e, Top(db.rows, e) + 1) <==> WantedOf(up) != []
  {
    StoredExactly(db, e, up, env, codec);
    UsesNumberExactly(db, ProcessNew(db, e, up, env, codec).0, e, up);
  }

  lemma UsesNumberExactly(db: Db, d: Db, e: nat, up: Upload)
    requires WritesWanted(db, d, up) && WritesRevision(db, d, e, Top(db.rows, e) + 1, up.sha)
    ensures HasSequence(d, e, Top(db.rows, e) + 1) <==> WantedOf(up) != []
  {
    GrowsExactly(db, d, up);
    TopIsMaximum(db.rows, e);
    if |db.rows| < |d.rows| {
      assert NewRow(d, d.rows[|db.rows|], e, Top(db.rows, e) + 1, up.sha);
    }
  }

  // Only the track "latest" can be uploaded to: no other is ever created.
  lemma OnlyLatestSucceeds(db: Db, e: nat, up: Upload, env: Env, codec: Codec)
    requires Lawful(codec) && Uploadable(db, codec, e, up) && Fits(db, up, env)
    requires ProcessNew(db, e, up, env, codec).1.Stored?
    ensures forall p :: p in WantedOf(up) ==> p.track == "latest"
  {
    StoredExactly(db, e, up, env, codec);
    ProcessNewEffect(db, e, up, env, codec);
    var d := ProcessNew(db, e, up, env, codec).0;
    forall p | p in WantedOf(up) ensures p.track == "latest" {
      assert p in multiset(TargetsFrom(d, |db.rows|));
      var j :| 0 <= j < |TargetsFrom(d, |db.rows|)| && TargetsFrom(d, |db.rows|)[j] == p;
      assert RowOk(d, d.rows[|db.rows| + j]);
    }
  }

  // With nothing well formed the number is not used up: the next success gets
  // it again and puts its own bytes under the same path.
  lemma UnrecordedIsOverwritten(db: Db, d: Db, e: nat, up: Upload, env: Env, next: Upload, env': Env, codec: Codec)
    requires Lawful(codec) && Uploadable(db, codec, e, up) && Fits(db, up, env) && WantedOf(up) == []
    requires ProcessNew(db, e, up, env, codec) == (d, Stored(Top(db.rows, e) + 1))
    requires Fits(d, next, env') && next.name == up.name && !HasSha(d, e, next.sha)
    ensures Uploadable(d, codec, e, next) && up.key in db.unscanned
    ensures var q := Top(db.rows, e) + 1;
      var (d', second) := ProcessNew(d, e, next, env', codec);
      && Holds(d, P.SnapPath(db.entries[e], q), db.unscanned[up.key])
      && (second.Stored? ==>
          second == Stored(q) && next.key in d.unscanned
          && Holds(d', P.SnapPath(db.entries[e], q), d.unscanned[next.key]))
  {
    hide RevisionModel.ProcessNew;
    NothingRecorded(db, e, up, env, codec);
    if ProcessNew(d, e, next, env', codec).1.Stored? {
      StoredExactly(d, e, next, env', codec);
    }
  }

  lemma NothingRecorded(db: Db, e: nat, up: Upload, env: Env, codec: Codec)
    requires Lawful(codec) && Uploadable(db, codec, e, up) && Fits(db, up, env) && WantedOf(up) == []
    requires ProcessNew(db, e, up, env, codec).1.Stored?
    ensures var d := ProcessNew(db, e, up, env, codec).0;
      && d.rows == db.rows && d.entries == db.entries && Inv(d, codec) && HasRoom(d, e)
      && up.key in db.unscanned && Holds(d, P.SnapPath(db.entries[e], Top(db.rows, e) + 1), db.unscanned[up.key])
  {
    StoredExactly(db, e, up, env, codec);
    ProcessNewEffect(db, e, up, env, codec);
    var d := ProcessNew(db, e, up, env, codec).0;
    EffectKeeps(db, d, e, NextSequence(db, e, env), up.sha, codec);
    GrowsExactly(db, d, up);
  }

  // Such inputs exist.
  lemma ThreePartsParseToNothing()
    ensures C.Wanted(C.Effective(["a/b/c"])) == []
  {
    SplitLength("a/b/c", '/');
    assert Occurrences("a/b/c", '/') == 2 by {
      assert "a/b/c"[1..] == "/b/c" && "/b/c"[1..] == "b/c" && "b/c"[1..] == "/c" && "/c"[1..] == "c";
      assert Occurrences("c", '/') == 0 && Occurrences("/c", '/') == 1 && Occurrences("b/c", '/') == 1;
      assert Occurrences("/b/c", '/') == 2;
    }
    assert ["a/b/c"][..0] == [];
  }

  // ---- When nothing fails ----

  // There is always a way for every call of an upload to work.
  lemma SomeEnv(db: Db, up: Upload) returns (env: Env)
    requires NamesDistinct(db)
    ensures Fits(db, up, env) && env.fates == map[]
  {
    var order := C.SomeOrder(C.Effective(up.inputs));
    var e := Find(db.entries, up.name);
    var latest := 0;
    if e.Some? {
      TopIsMaximum(db.rows, e.value);
      if HasRows(db, e.value) {
        latest := SomeLatest(db, e.value);
      }
    }
    env := Env(map[], order, latest, 0);
  }

  lemma SomeLatest(db: Db, e: nat) returns (i: nat)
    requires HasRows(db, e)
    ensures IsLatest(db, e, i)
  {
    TopIsMaximum(db.rows, e);
    if Top(db.rows, e) > 0 {
      i :| 0 <= i < |db.rows| && db.rows[i].entry == e && db.rows[i].sequence == Top(db.rows, e);
    } else {
      i :| 0 <= i < |db.rows| && db.rows[i].entry == e;
    }
  }

  predicate KnownTracks(db: Db, e: nat, up: Upload) {
    forall p :: p in WantedOf(up) ==> Track(e, p.track) in db.tracks
  }

  predicate Known(tracks: seq<Track>, e: nat, pairs: seq<C.Target>, n: nat)
    requires n <= |pairs|
  {
    n == 0 || (Known(tracks, e, pairs, n - 1) && Track(e, pairs[n - 1].track) in tracks)
  }

  lemma {:induction false} KnownMeansAll(tracks: seq<Track>, e: nat, pairs: seq<C.Target>, n: nat)
    requires n <= |pairs|
    ensures Known(tracks, e, pairs, n) <==> forall p :: p in pairs[..n] ==> Track(e, p.track) in tracks
  {
    if n > 0 {
      KnownMeansAll(tracks, e, pairs, n - 1);
      assert pairs[..n] == pairs[..n - 1] + [pairs[n - 1]];
    }
  }

  // Went through to the end exactly when the tracks asked for are all there.
  predicate StopsRight(db: Db, r: Progress, known: bool) {
    && r.db.tracks == db.tracks && r.db.unscanned == db.unscanned
    && r.Going? == known && (r.Stopped? ==> r.reason == ResourceNotFound)
  }

  lemma OneStopsRight(db: Db, e: nat, up: Upload, q: nat, j: nat, p: C.Target, env: Env)
    requires e < |db.entries| && env.fates == map[]
    ensures StopsRight(db, WriteOne(db, e, up, q, j, p, env), Track(e, p.track) in db.tracks)
  {
  }

  lemma {:induction false} StopsAtUnknownTrack(db: Db, e: nat, up: Upload, q: nat,
      pairs: seq<C.Target>, n: nat, env: Env)
    requires e < |db.entries| && n <= |pairs| && env.fates == map[]
    ensures StopsRight(db, WriteRows(db, e, up, q, pairs, n, env), Known(db.tracks, e, pairs, n))
  {
    hide RevisionModel.WriteOne;
    if n > 0 {
      StopsAtUnknownTrack(db, e, up, q, pairs, n - 1, env);
      var r := WriteRows(db, e, up, q, pairs, n - 1, env);
      if r.Going? {
        OneStopsRight(r.db, e, up, q, n - 1, pairs[n - 1], env);
      }
    }
  }

  // With every call working, a new digest is accepted exactly when the tracks
  // asked for are there and so are the bytes.
  lemma OutcomeWithoutFailures(db: Db, e: nat, up: Upload, env: Env, codec: Codec)
    requires Lawful(codec) && Uploadable(db, codec, e, up) && Fits(db, up, env) && env.fates == map[]
    ensures ProcessNew(db, e, up, env, codec).1 ==
      if !KnownTracks(db, e, up) then Failed(ResourceNotFound)
      else if up.key !in db.unscanned then Failed(ObjectStoreError)
      else Stored(Top(db.rows, e) + 1)
  {
    var q, pairs := NextSequence(db, e, env), PairsOf(up, env);
    C.PairsAreWanted(C.Effective(up.inputs), env.order);
    NextIsTop(db, e, env);
    StopsAtUnknownTrack(db, e, up, q, pairs, |pairs|, env);
    KnownMeansAll(db.tracks, e, pairs, |pairs|);
    assert pairs[..|pairs|] == pairs;
    assert forall p :: p in WantedOf(up) <==> p in pairs;
  }

  // ---- The bucket of uploads ----

  // No file but the given ones changes.
  ghost predicate OnlyTouches(a: Bucket, b: Bucket, keys: set<string>) {
    forall k :: k !in keys ==> SameObject(a, b, k)
  }

  lemma FinishUnscanned(db: Db, d: Db, last: Option<nat>, e: nat, q: nat, key: string, env: Env, codec: Codec)
    requires e < |db.entries| && db.rows <= d.rows && (last.Some? ==> last.value < |d.rows|)
    requires HasRows(db, e) ==> IsLatest(db, e, env.latest)
    ensures var (d', outcome) := Finish(db, d, last, e, q, key, env, codec);
      OnlyTouches(d.unscanned, d'.unscanned, {key}) && (outcome.Stored? ==> key !in d'.unscanned)
  {
  }

  lemma NewIsConsumed(db: Db, e: nat, up: Upload, env: Env, codec: Codec)
    requires Fits(db, up, env) && e < |db.entries| && db.entries[e] == up.name
    ensures var (d, outcome) := ProcessNew(db, e, up, env, codec);
      OnlyTouches(db.unscanned, d.unscanned, {up.key}) && (outcome.Stored? ==> up.key !in d.unscanned)
  {
    hide OnlyTouches, Finish, WriteRows;
    var q, pairs := NextSequence(db, e, env), PairsOf(up, env);
    WriteRowsExtends(db, e, up, q, pairs, |pairs|, env);
    var r := WriteRows(db, e, up, q, pairs, |pairs|, env);
    NothingTouched(db.unscanned, {up.key});
    if r.Going? {
      FinishUnscanned(db, r.db, r.last, e, q, up.key, env, codec);
    }
  }

  lemma NothingTouched(a: Bucket, keys: set<string>)
    ensures OnlyTouches(a, a, keys)
  {
  }

  // An upload touches its own file only, which is gone after a success and
  // after a duplicate was turned away.
  lemma UploadIsConsumed(db: Db, up: Upload, env: Env, codec: Codec)
    requires Fits(db, up, env)
    ensures var (d, outcome) := Process(db, up, env, codec);
      && OnlyTouches(db.unscanned, d.unscanned, {up.key})
      && (outcome.Stored? || outcome == Failed(AlreadyRegistered) ==> up.key !in d.unscanned)
  {
    hide ProcessNew;
    var entry := Find(db.entries, up.name);
    if entry.Some? {
      NewNeverAlreadyRegistered(db, entry.value, up, env, codec);
      NewIsConsumed(db, entry.value, up, env, codec);
    }
  }

  // So does an upload by delta with its two; the delta is gone too after a
  // success, unless its removal failed.
  lemma DeltaUploadIsConsumed(db: Db, req: DeltaUpload, env: Env, codec: Codec, hash: Bytes -> string)
    requires RpcFits(db, ApplyUploadDelta(req), env)
    ensures var (d, outcome) := Step(db, ApplyUploadDelta(req), env, codec, hash);
      && OnlyTouches(db.unscanned, d.unscanned, {req.deltaKey, req.resultKey})
      && (outcome.Stored? ==> req.resultKey !in d.unscanned)
      && (outcome.Stored? && env.TakesEffect(DeleteDelta) ==> req.deltaKey !in d.unscanned)
  {
    var r := Rebuild(db, req, env, codec, hash);
    RebuiltUnscanned(db, req, env, codec, hash);
    if r.Rebuilt? {
      assert Fits(db, ResultUpload(req, ""), env);
      UploadIsConsumed(r.db, ResultUpload(req, r.sha), env, codec);
      TouchedTwice(db.unscanned, r.db.unscanned, Process(r.db, ResultUpload(req, r.sha), env, codec).0.unscanned, req);
    }
  }

  lemma RebuiltUnscanned(db: Db, req: DeltaUpload, env: Env, codec: Codec, hash: Bytes -> string)
    requires BaseFits(db, req, env)
    ensures var r := Rebuild(db, req, env, codec, hash);
      && OnlyTouches(db.unscanned, r.db.unscanned, {req.deltaKey, req.resultKey})
      && (r.Rebuilt? && env.TakesEffect(DeleteDelta) ==> req.deltaKey !in r.db.unscanned)
  {
  }

  lemma TouchedTwice(a: Bucket, b: Bucket, c: Bucket, req: DeltaUpload)
    requires OnlyTouches(a, b, {req.deltaKey, req.resultKey}) && OnlyTouches(b, c, {req.resultKey})
    ensures OnlyTouches(a, c, {req.deltaKey, req.resultKey})
    ensures req.deltaKey !in b && req.resultKey !in c ==> req.deltaKey !in c
  {
    forall k | k != req.deltaKey && k != req.resultKey ensures SameObject(a, c, k) {
      assert SameObject(a, b, k) && SameObject(b, c, k);
    }
    assert req.deltaKey != req.resultKey ==> SameObject(b, c, req.deltaKey);
  }

  // ---- Why the rows stop ----

  lemma OneStopReason(db: Db, e: nat, up: Upload, q: nat, j: nat, p: C.Target, env: Env)
    requires e < |db.entries|
    ensures var r := WriteOne(db, e, up, q, j, p, env);
      r.Stopped? ==> r.reason == DatabaseError || r.reason == ResourceNotFound
  {
  }

  lemma {:induction false} StopReasons(db: Db, e: nat, up: Upload, q: nat, pairs: seq<C.Target>, n: nat, env: Env)
    requires e < |db.entries| && n <= |pairs|
    ensures var r := WriteRows(db, e, up, q, pairs, n, env);
      r.Stopped? ==> r.reason == DatabaseError || r.reason == ResourceNotFound
  {
    hide RevisionModel.WriteOne;
    if n > 0 {
      StopReasons(db, e, up, q, pairs, n - 1, env);
      var r := WriteRows(db, e, up, q, pairs, n - 1, env);
      if r.Going? {
        OneStopReason(r.db, e, up, q, n - 1, pairs[n - 1], env);
      }
    }
  }

  lemma NewNeverAlreadyRegistered(db: Db, e: nat, up: Upload, env: Env, codec: Codec)
    requires Fits(db, up, env) && e < |db.entries| && db.entries[e] == up.name
    ensures ProcessNew(db, e, up, env, codec).1 != Failed(AlreadyRegistered)
  {
    var q, pairs := NextSequence(db, e, env), PairsOf(up, env);
    StopReasons(db, e, up, q, pairs, |pairs|, env);
  }

  // The repository never answers "no track" without an error, so no RPC ever takes
  // the branch that would add one and read the nil it leaves.
  lemma NilIsNeverRead(db: Db, rpc: Rpc, env: Env, codec: Codec, hash: Bytes -> string)
    requires RpcFits(db, rpc, env)
    ensures Step(db, rpc, env, codec, hash).1 != Failed(NilDereference)
  {
    match rpc
    case RegisterSnapName(name, dryRun, accountOk) =>
    case PutUnscanned(key, bytes) =>
    case AddRevision(up) =>
      UploadReasons(db, up, env, codec);
    case ApplyUploadDelta(req) =>
      var r := Rebuild(db, req, env, codec, hash);
      if r.Rebuilt? {
        assert Fits(db, ResultUpload(req, ""), env);
        UploadReasons(r.db, ResultUpload(req, r.sha), env, codec);
      }
  }

  lemma UploadReasons(db: Db, up: Upload, env: Env, codec: Codec)
    requires Fits(db, up, env)
    ensures Process(db, up, env, codec).1 != Failed(NilDereference)
  {
    hide RevisionModel.WriteRows;
    var entry := Find(db.entries, up.name);
    if entry.Some? {
      var q, pairs := NextSequence(db, entry.value, env), PairsOf(up, env);
      StopReasons(db, entry.value, up, q, pairs, |pairs|, env);
    }
  }

  // ---- Stored for good ----

  // Number q of entry e has this digest and downloads as these bytes, through
  // whichever of its rows one asks.
  predicate HoldsRevision(db: Db, e: nat, q: nat, sha: string, bytes: Bytes) {
    && HasSequence(db, e, q)
    && (forall i :: 0 <= i < |db.rows| && db.rows[i].entry == e && db.rows[i].sequence == q
          ==> db.rows[i].sha == sha && Download(db, i) == Some(bytes))
  }

  lemma HeldRevisionStays(a: Db, b: Db, e: nat, q: nat, sha: string, bytes: Bytes, codec: Codec)
    requires Inv(a, codec) && Inv(b, codec) && Frozen(a, b) && HoldsRevision(a, e, q, sha, bytes)
    ensures HoldsRevision(b, e, q, sha, bytes)
  {
    HasSequenceKept(a, b, e, q);
    var j :| 0 <= j < |a.rows| && a.rows[j].entry == e && a.rows[j].sequence == q;
    assert RowOk(a, a.rows[j]) && RowOk(b, b.rows[j]) && SameObject(a.snaps, b.snaps, a.rows[j].path);
    forall i | 0 <= i < |b.rows| && b.rows[i].entry == e && b.rows[i].sequence == q
      ensures b.rows[i].sha == sha && Download(b, i) == Some(bytes)
    {
      assert RowOk(b, b.rows[i]);
      assert b.rows[i].path == b.rows[j].path;
    }
  }

  lemma StoredIsHeld(db: Db, up: Upload, env: Env, codec: Codec)
    requires Lawful(codec) && Inv(db, codec) && AllRoom(db) && Fits(db, up, env) && WantedOf(up) != []
    requires Process(db, up, env, codec).1.Stored?
    ensures var (d, outcome) := Process(db, up, env, codec);
      var entry := Find(db.entries, up.name);
      && entry.Some? && up.key in db.unscanned
      && HoldsRevision(d, entry.value, outcome.sequence, up.sha, db.unscanned[up.key])
  {
    var e := Find(db.entries, up.name).value;
    var d := Process(db, up, env, codec).0;
    var q := Top(db.rows, e) + 1;
    ProcessNewEffect(db, e, up, env, codec);
    StoredExactly(db, e, up, env, codec);
    LeavesRevisionExactly(db, e, up, env, codec);
    TopIsMaximum(db.rows, e);
    forall i | 0 <= i < |d.rows| && d.rows[i].entry == e && d.rows[i].sequence == q
      ensures d.rows[i].sha == up.sha && Download(d, i) == Some(db.unscanned[up.key])
    {
      assert i >= |db.rows|;
      assert NewRow(d, d.rows[i], e, q, up.sha);
    }
  }

  // The bytes of a successful upload stay what a download returns, for the rest
  // of every history, whatever is uploaded to any entry afterwards.
  lemma UploadIsKept(states: seq<Db>, events: seq<Event>, codec: Codec, hash: Bytes -> string, j: nat, k: nat)
    requires Good(states, events, codec, hash) && j < k < |states|
    requires var (rpc, env) := (events[j].rpc, events[j].env);
      rpc.AddRevision? && WantedOf(rpc.up) != [] && Step(states[j], rpc, env, codec, hash).1.Stored?
    ensures var (rpc, env) := (events[j].rpc, events[j].env);
      var entry := Find(states[j].entries, rpc.up.name);
      && entry.Some? && rpc.up.key in states[j].unscanned
      && HoldsRevision(states[k], entry.value, Step(states[j], rpc, env, codec, hash).1.sequence, rpc.up.sha,
                       states[j].unscanned[rpc.up.key])
  {
    var (up, env) := (events[j].rpc.up, events[j].env);
    HistoryKeeps(states, events, codec, hash, j);
    StoredIsHeld(states[j], up, env, codec);
    assert states[j + 1] == After(states[j], events[j], codec, hash);
    StaysHeld(states, events, codec, hash, j + 1, k, Find(states[j].entries, up.name).value,
              Process(states[j], up, env, codec).1.sequence, up.sha, states[j].unscanned[up.key]);
  }

  lemma StaysHeld(states: seq<Db>, events: seq<Event>, codec: Codec, hash: Bytes -> string, j: nat, k: nat,
      e: nat, q: nat, sha: string, bytes: Bytes)
    requires Good(states, events, codec, hash) && j <= k < |states| && HoldsRevision(states[j], e, q, sha, bytes)
    ensures HoldsRevision(states[k], e, q, sha, bytes)
  {
    HistoryKeeps(states, events, codec, hash, j);
    HistoryKeeps(states, events, codec, hash, k);
    FrozenForever(states, events, codec, hash, j, k);
    HeldRevisionStays(states[j], states[k], e, q, sha, bytes, codec);
  }

  // ---- Uploads by delta ----

  // The row a request names as its base.
  predicate NamesBase(db: Db, e: nat, base: nat, i: nat) {
    && i < |db.rows| && db.rows[i].entry == e
    && db.rows[i].sequence == if base == 0 then Top(db.rows, e) else base
  }

  lemma BaseExactly(db: Db, e: nat, base: nat)
    requires RowsOk(db)
    ensures HasBase(db, e, base) <==> exists i :: NamesBase(db, e, base, i)
    ensures forall i :: IsBase(db, e, base, i) <==> NamesBase(db, e, base, i)
  {
    TopIsMaximum(db.rows, e);
    forall i | 0 <= i < |db.rows| ensures db.rows[i].sequence >= 1 {
      assert RowOk(db, db.rows[i]);
    }
    forall i ensures IsBase(db, e, base, i) <==> NamesBase(db, e, base, i) {
    }
    if HasBase(db, e, base) {
      var i :| 0 <= i < |db.rows| && db.rows[i].entry == e && (base == 0 || db.rows[i].sequence == base);
      if base == 0 {
        i := SomeLatest(db, e);
      }
      assert NamesBase(db, e, base, i);
    }
    if exists i :: NamesBase(db, e, base, i) {
      var i :| NamesBase(db, e, base, i);
      assert HasRows(db, e);
    }
  }

  // What the rebuilt snap is, and under which digest it goes on.
  lemma RebuiltFrom(db: Db, req: DeltaUpload, env: Env, codec: Codec, hash: Bytes -> string)
    requires BaseFits(db, req, env)
    ensures var r := Rebuild(db, req, env, codec, hash);
      r.Rebuilt? ==>
        && Find(db.entries, req.name).Some? && IsBase(db, Find(db.entries, req.name).value, req.base, env.base)
        && env.base < |db.rows| && db.rows[env.base].path in db.snaps && req.deltaKey in db.unscanned
        && hash(db.unscanned[req.deltaKey]) == req.deltaSha
        && var result := codec.patch(db.snaps[db.rows[env.base].path], db.unscanned[req.deltaKey]);
        && r.sha == hash(result)
        && (req.resultKey in r.db.unscanned ==> r.db.unscanned[req.resultKey] == result)
  {
  }

  // The snap an uploaded delta describes, whichever tool made it.
  function PatchedSnap(db: Db, req: DeltaUpload, env: Env, codec: Codec): Bytes
    requires env.base < |db.rows| && db.rows[env.base].path in db.snaps && req.deltaKey in db.unscanned
  {
    codec.patch(db.snaps[db.rows[env.base].path], db.unscanned[req.deltaKey])
  }

  // A successful upload by delta leaves exactly the base patched with the delta,
  // filed under that snap's own digest.
  lemma DeltaUploadStoresPatch(db: Db, req: DeltaUpload, env: Env, codec: Codec, hash: Bytes -> string)
    requires Lawful(codec) && Inv(db, codec) && AllRoom(db) && RpcFits(db, ApplyUploadDelta(req), env)
    requires Step(db, ApplyUploadDelta(req), env, codec, hash).1.Stored? && C.Wanted(C.Effective(req.inputs)) != []
    ensures var (d, outcome) := Step(db, ApplyUploadDelta(req), env, codec, hash);
      var entry := Find(db.entries, req.name);
      && entry.Some? && NamesBase(db, entry.value, req.base, env.base)
      && db.rows[env.base].path in db.snaps && req.deltaKey in db.unscanned
      && hash(db.unscanned[req.deltaKey]) == req.deltaSha
      && var t := PatchedSnap(db, req, env, codec);
      HoldsRevision(d, entry.value, outcome.sequence, hash(t), t)
  {
    var r := Rebuild(db, req, env, codec, hash);
    RebuiltFrom(db, req, env, codec, hash);
    QuietStep(db, r.db, codec);
    SameRoom(db, r.db);
    BaseExactly(db, Find(db.entries, req.name).value, req.base);
    assert Fits(db, ResultUpload(req, ""), env);
    StoredIsHeld(r.db, ResultUpload(req, r.sha), env, codec);
  }

  // In particular a delta the store's own tool would make from the base for a
  // target leaves that target.
  lemma DeltaUploadStoresTarget(
      db: Db, req: DeltaUpload, target: Bytes, env: Env, codec: Codec, hash: Bytes -> string)
    requires Lawful(codec) && Inv(db, codec) && AllRoom(db) && RpcFits(db, ApplyUploadDelta(req), env)
    requires Step(db, ApplyUploadDelta(req), env, codec, hash).1.Stored? && C.Wanted(C.Effective(req.inputs)) != []
    requires env.base < |db.rows| && db.rows[env.base].path in db.snaps && req.deltaKey in db.unscanned
    requires db.unscanned[req.deltaKey] == codec.gen(db.snaps[db.rows[env.base].path], target)
    ensures var (d, outcome) := Step(db, ApplyUploadDelta(req), env, codec, hash);
      var entry := Find(db.entries, req.name);
      entry.Some? && HoldsRevision(d, entry.value, outcome.sequence, hash(target), target)
  {
    var base := db.snaps[db.rows[env.base].path];
    assert codec.patch(base, codec.gen(base, target)) == target;
    DeltaUploadStoresPatch(db, req, env, codec, hash);
  }

  // And it stays so.
  lemma DeltaUploadIsKept(states: seq<Db>, events: seq<Event>, codec: Codec, hash: Bytes -> string, j: nat, k: nat)
    requires Good(states, events, codec, hash) && j < k < |states|
    requires var (db, rpc, env) := (states[j], events[j].rpc, events[j].env);
      && rpc.ApplyUploadDelta? && Step(db, rpc, env, codec, hash).1.Stored?
      && C.Wanted(C.Effective(rpc.req.inputs)) != []
    ensures var (db, rpc, env) := (states[j], events[j].rpc, events[j].env);
      var entry := Find(db.entries, rpc.req.name);
      && entry.Some?
      && env.base < |db.rows| && db.rows[env.base].path in db.snaps && rpc.req.deltaKey in db.unscanned
      && var t := PatchedSnap(db, rpc.req, env, codec);
      HoldsRevision(states[k], entry.value, Step(db, rpc, env, codec, hash).1.sequence, hash(t), t)
  {
    var (db, rpc, env) := (states[j], events[j].rpc, events[j].env);
    HistoryKeeps(states, events, codec, hash, j);
    DeltaUploadStoresPatch(db, rpc.req, env, codec, hash);
    assert states[j + 1] == After(db, events[j], codec, hash);
    var t := PatchedSnap(db, rpc.req, env, codec);
    StaysHeld(states, events, codec, hash, j + 1, k, Find(db.entries, rpc.req.name).value,
              Step(db, rpc, env, codec, hash).1.sequence, hash(t), t);
  }

  // ---- Deltas ----

  // Positions of deltas of entry e leading from number s upwards one by one.
  predicate IsChain(db: Db, e: nat, s: nat, chain: seq<nat>) {
    forall i :: 0 <= i < |chain| ==>
      && chain[i] < |db.deltas| && db.deltas[chain[i]].source < |db.rows|
      && db.rows[db.deltas[chain[i]].source].entry == e && db.rows[db.deltas[chain[i]].source].sequence == s + i
  }

  // Patch after patch.
  function ApplyChain(db: Db, chain: seq<nat>, bytes: Bytes, codec: Codec): Option<Bytes> {
    if chain == [] then Some(bytes)
    else
      var n := |chain| - 1;
      var r := ApplyChain(db, chain[..n], bytes, codec);
      if r.Some? && chain[n] < |db.deltas| && db.deltas[chain[n]].path in db.deltaObjects
      then Some(codec.patch(r.value, db.deltaObjects[db.deltas[chain[n]].path]))
      else None
  }

  // Patching the bytes of number s through a chain of stored deltas gives the
  // bytes of the number it ends at.
  lemma {:induction false} ChainRebuilds(db: Db, e: nat, s: nat, chain: seq<nat>, codec: Codec)
    requires Inv(db, codec) && e < |db.entries| && chain != [] && IsChain(db, e, s, chain)
    ensures P.SnapPath(db.entries[e], s) in db.snaps && P.SnapPath(db.entries[e], s + |chain|) in db.snaps
    ensures ApplyChain(db, chain, db.snaps[P.SnapPath(db.entries[e], s)], codec)
      == Some(db.snaps[P.SnapPath(db.entries[e], s + |chain|)])
  {
    var n := |chain| - 1;
    var x := db.deltas[chain[n]];
    assert DeltaOk(db, x, codec) && RowOk(db, db.rows[x.source]) && RowOk(db, db.rows[x.target]);
    if n > 0 {
      ChainRebuilds(db, e, s, chain[..n], codec);
    } else {
      assert chain[..n] == [];
    }
  }

  lemma ChainsAlwaysRebuild(states: seq<Db>, events: seq<Event>, codec: Codec, hash: Bytes -> string, k: nat,
      e: nat, s: nat, chain: seq<nat>)
    requires Good(states, events, codec, hash) && k < |states| && e < |states[k].entries|
    requires chain != [] && IsChain(states[k], e, s, chain)
    ensures P.SnapPath(states[k].entries[e], s) in states[k].snaps
    ensures P.SnapPath(states[k].entries[e], s + |chain|) in states[k].snaps
    ensures ApplyChain(states[k], chain, states[k].snaps[P.SnapPath(states[k].entries[e], s)], codec)
      == Some(states[k].snaps[P.SnapPath(states[k].entries[e], s + |chain|)])
  {
    HistoryKeeps(states, events, codec, hash, k);
    ChainRebuilds(states[k], e, s, chain, codec);
  }

  // Some recorded delta leads to number q of the entry.
  predicate HasDeltaTo(d: Db, e: nat, q: nat) {
    exists i :: 0 <= i < |d.deltas| && d.deltas[i].target < |d.rows|
      && d.rows[d.deltas[i].target].entry == e && d.rows[d.deltas[i].target].sequence == q
  }

  // With every call working, a success records the delta from the former latest
  // exactly when that one's bytes are there; an earlier upload that failed
  // between its rows and its object breaks the chain for good.
  lemma DeltaRecordedExactly(db: Db, e: nat, up: Upload, env: Env, codec: Codec)
    requires Lawful(codec) && Uploadable(db, codec, e, up) && Fits(db, up, env) && env.fates == map[]
    requires HasRows(db, e) && WantedOf(up) != [] && ProcessNew(db, e, up, env, codec).1.Stored?
    ensures HasDeltaTo(ProcessNew(db, e, up, env, codec).0, e, Top(db.rows, e) + 1)
      <==> P.SnapPath(db.entries[e], Top(db.rows, e)) in db.snaps
  {
    C.PairsAreWanted(C.Effective(up.inputs), env.order);
    NextIsTop(db, e, env);
    NextIsFresh(db, e, env);
    DeltaOfNew(db, e, up, env, codec);
  }

  lemma DeltaOfNew(db: Db, e: nat, up: Upload, env: Env, codec: Codec)
    requires Inv(db, codec) && e < |db.entries| && db.entries[e] == up.name && Fits(db, up, env) && env.fates == map[]
    requires HasRows(db, e) && PairsOf(up, env) != [] && ProcessNew(db, e, up, env, codec).1.Stored?
    requires IsNext(db, e, NextSequence(db, e, env)) && NextSequence(db, e, env) == db.rows[env.latest].sequence + 1
    ensures HasDeltaTo(ProcessNew(db, e, up, env, codec).0, e, NextSequence(db, e, env))
      <==> P.SnapPath(db.entries[e], NextSequence(db, e, env) - 1) in db.snaps
  {
    var q, pairs := NextSequence(db, e, env), PairsOf(up, env);
    WriteRowsExtends(db, e, up, q, pairs, |pairs|, env);
    DeltaOfWritten(db, WriteRows(db, e, up, q, pairs, |pairs|, env), e, q, up, pairs, env, codec);
  }

  lemma DeltaOfWritten(db: Db, r: Progress, e: nat, q: nat, up: Upload, pairs: seq<C.Target>, env: Env, codec: Codec)
    requires Inv(db, codec) && e < |db.entries| && IsNext(db, e, q) && env.fates == map[]
    requires IsLatest(db, e, env.latest) && q == db.rows[env.latest].sequence + 1
    requires r.Going? && pairs != [] && Wrote(db, r, e, q, up.sha, pairs, |pairs|)
    requires Finish(db, r.db, r.last, e, q, up.key, env, codec).1.Stored?
    ensures HasDeltaTo(Finish(db, r.db, r.last, e, q, up.key, env, codec).0, e, q)
      <==> P.SnapPath(db.entries[e], q - 1) in db.snaps
  {
    DeltaOfFinish(db, r.db, r.last, e, q, up, env, codec);
  }

  lemma DeltaOfFinish(db: Db, d: Db, last: Option<nat>, e: nat, q: nat, up: Upload, env: Env, codec: Codec)
    requires Inv(db, codec) && e < |db.entries| && IsNext(db, e, q) && env.fates == map[]
    requires IsLatest(db, e, env.latest) && q == db.rows[env.latest].sequence + 1
    requires Extends(db, d, e, q, up.sha) && |d.rows| > |db.rows| && last == Some(|d.rows| - 1)
    requires Finish(db, d, last, e, q, up.key, env, codec).1.Stored?
    ensures HasDeltaTo(Finish(db, d, last, e, q, up.key, env, codec).0, e, q)
      <==> P.SnapPath(db.entries[e], q - 1) in db.snaps
  {
    var path := P.SnapPath(db.entries[e], q);
    var (d1, ok) := MoveObject(d, up.key, path, env);
    MoveEffect(d, up.key, path, env);
    var d' := Finish(db, d, last, e, q, up.key, env, codec).0;
    assert NewRow(d, d.rows[last.value], e, q, up.sha);
    var source := db.rows[env.latest];
    assert RowOk(db, source);
    FreshPath(db, e, q, env.latest);
    assert SameObject(d.snaps, d1.snaps, source.path);
    forall i | 0 <= i < |db.deltas|
      ensures db.deltas[i].target < |db.rows| &&
        !(db.rows[db.deltas[i].target].entry == e && db.rows[db.deltas[i].target].sequence == q)
    {
      assert DeltaOk(db, db.deltas[i], codec);
    }
    assert !HasDelta(d1, env.latest, last.value, "xdelta3");
    if source.path in db.snaps {
      assert d'.deltas == d.deltas + [Delta(env.latest, last.value, "xdelta3",
          P.DeltaPath("xdelta3", source.snapName, source.sequence, q))];
      assert d'.deltas[|d.deltas|].target == last.value;
    } else {
      assert d'.deltas == db.deltas;
    }
  }
}
