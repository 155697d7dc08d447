/**
 What the RPCs of the revision store answer: every request and every fate of the
 calls, from the request and the state it meets.
 */
module Answers {
  import opened Text
  import opened RevisionModel
  import opened RevisionInvariants
  import opened RevisionHistory
  import opened RevisionResults
  import opened Leftovers
  import C = Channels
  import P = ObjectPaths

  // ---- Registration ----

  lemma {:induction false} DefaultsWorkExactly(db: Db, track: nat, k: nat, env: Env)
    requires k <= |DEFAULT_CHANNELS|
    ensures AddDefaults(db, track, k, env).1 <==> forall i :: 0 <= i < k ==> env.Ok(AddDefault(i))
  {
    if k > 0 {
      DefaultsWorkExactly(db, track, k - 1, env);
    }
  }

  // Whatever fails: a registration is reported done exactly when the name is free,
  // the account is one, and all the calls work; a call that fails is a database
  // error, also after the name was taken. A dry run only looks the name up.
  lemma RegisterAnswers(db: Db, name: string, accountOk: bool, env: Env)
    ensures Register(db, name, true, accountOk, env)
            == (db, if env.Ok(GetEntry) then Known(name in db.entries) else Failed(DatabaseError))
    ensures var answer := Register(db, name, false, accountOk, env).1;
      && (answer == Failed(AlreadyRegistered) <==> env.Ok(GetEntry) && name in db.entries)
      && (answer == Failed(InvalidField) <==> env.Ok(GetEntry) && name !in db.entries && !accountOk)
      && (answer == Done <==>
            && env.Ok(GetEntry) && name !in db.entries && accountOk && env.Ok(RegisterEntry) && env.Ok(AddLatestTrack)
            && forall i :: 0 <= i < 4 ==> env.Ok(AddDefault(i)))
      && (answer in {Done, Failed(AlreadyRegistered), Failed(InvalidField), Failed(DatabaseError)})
  {
    hide AddDefaults;
    var d := if env.TakesEffect(RegisterEntry) then db.(entries := db.entries + [name]) else db;
    var d' := if env.TakesEffect(AddLatestTrack) then d.(tracks := d.tracks + [Track(|db.entries|, "latest")]) else d;
    DefaultsWorkExactly(d', |d.tracks|, 4, env);
  }

  // ---- Upload ----

  // The rows stop at a track that is looked up and not there.
  predicate MeetsUnknownTrack(db: Db, e: nat, pairs: seq<C.Target>, env: Env) {
    exists j :: 0 <= j < |pairs| && RowsGo(db, e, pairs, j, env)
      && env.Ok(GetTrack(j)) && Track(e, pairs[j].track) !in db.tracks
  }

  lemma OneStopsFor(db: Db, e: nat, up: Upload, q: nat, j: nat, p: C.Target, env: Env)
    requires e < |db.entries|
    ensures var r := WriteOne(db, e, up, q, j, p, env);
      r.Stopped? ==>
        r.reason == if env.Ok(GetTrack(j)) && Track(e, p.track) !in db.tracks then ResourceNotFound else DatabaseError
  {
  }

  lemma {:induction false} StopsFor(db: Db, e: nat, up: Upload, q: nat, pairs: seq<C.Target>, n: nat, env: Env)
    requires e < |db.entries| && n <= |pairs|
    ensures var r := WriteRows(db, e, up, q, pairs, n, env);
      r.Stopped? ==>
        r.reason == if MeetsUnknownTrack(db, e, pairs[..n], env) then ResourceNotFound else DatabaseError
  {
    hide RevisionModel.WriteOne, HasChannel, MeetsUnknownTrack;
    if n > 0 {
      var r := WriteRows(db, e, up, q, pairs, n - 1, env);
      StopsFor(db, e, up, q, pairs, n - 1, env);
      GoesOnExactly(db, e, up, q, pairs, n - 1, env);
      GoesOnExactly(db, e, up, q, pairs, n, env);
      if r.Going? {
        OneStopsFor(r.db, e, up, q, n - 1, pairs[n - 1], env);
        StopsAtLast(db, e, pairs, n, env);
      } else {
        StoppedBefore(db, e, pairs, n, env);
      }
    }
  }

  lemma RowsGoFront(db: Db, e: nat, pairs: seq<C.Target>, n: nat, j: nat, env: Env)
    requires j <= n <= |pairs|
    ensures RowsGo(db, e, pairs[..n], j, env) <==> RowsGo(db, e, pairs, j, env)
  {
    forall i | 0 <= i < j ensures RowGoes(db, e, pairs[..n], i, env) <==> RowGoes(db, e, pairs, i, env) {
      assert pairs[..n][i] == pairs[i] && pairs[..n][..i] == pairs[..i];
    }
  }

  lemma StopsAtLast(db: Db, e: nat, pairs: seq<C.Target>, n: nat, env: Env)
    requires 1 <= n <= |pairs| && RowsGo(db, e, pairs, n - 1, env)
    ensures MeetsUnknownTrack(db, e, pairs[..n], env)
      <==> env.Ok(GetTrack(n - 1)) && Track(e, pairs[n - 1].track) !in db.tracks
  {
    var front := pairs[..n];
    RowsGoFront(db, e, pairs, n, n - 1, env);
    assert front[n - 1] == pairs[n - 1];
    if MeetsUnknownTrack(db, e, front, env) {
      var j :| 0 <= j < n && RowsGo(db, e, front, j, env) && env.Ok(GetTrack(j))
        && Track(e, front[j].track) !in db.tracks;
      assert j < n - 1 ==> RowGoes(db, e, pairs, j, env);
    }
  }

  lemma StoppedBefore(db: Db, e: nat, pairs: seq<C.Target>, n: nat, env: Env)
    requires 1 <= n <= |pairs| && !RowsGo(db, e, pairs, n - 1, env)
    ensures MeetsUnknownTrack(db, e, pairs[..n], env) <==> MeetsUnknownTrack(db, e, pairs[..n - 1], env)
  {
    forall j | 0 <= j < n
      ensures RowsGo(db, e, pairs[..n], j, env) <==> RowsGo(db, e, pairs, j, env)
    {
      RowsGoFront(db, e, pairs, n, j, env);
    }
    forall j | 0 <= j < n - 1
      ensures RowsGo(db, e, pairs[..n - 1], j, env) <==> RowsGo(db, e, pairs, j, env)
    {
      RowsGoFront(db, e, pairs, n - 1, j, env);
    }
    assert forall j :: 0 <= j < n - 1 ==> pairs[..n][j] == pairs[..n - 1][j];
  }

  // The answer of an upload that got past its checks, whatever fails.
  lemma NewAnswers(db: Db, e: nat, up: Upload, env: Env, codec: Codec)
    requires Lawful(codec) && Uploadable(db, codec, e, up) && Fits(db, up, env)
    ensures var pairs := PairsOf(up, env);
      ProcessNew(db, e, up, env, codec).1 ==
        if RowsGo(db, e, pairs, |pairs|, env) then
          if up.key in db.unscanned && env.Ok(Copy) && env.Ok(Remove) then Stored(Top(db.rows, e) + 1)
          else Failed(ObjectStoreError)
        else if MeetsUnknownTrack(db, e, pairs, env) then Failed(ResourceNotFound)
        else Failed(DatabaseError)
  {
    hide RevisionModel.WriteRows, RowsGo, MeetsUnknownTrack;
    var q, pairs := NextSequence(db, e, env), PairsOf(up, env);
    NextIsTop(db, e, env);
    WriteRowsExtends(db, e, up, q, pairs, |pairs|, env);
    GoesOnExactly(db, e, up, q, pairs, |pairs|, env);
    StopsFor(db, e, up, q, pairs, |pairs|, env);
    assert pairs[..|pairs|] == pairs;
  }

  // What AddRevision answers, whatever fails: which check or call stops it, or the
  // next number.
  lemma AddRevisionAnswers(db: Db, up: Upload, env: Env, codec: Codec, hash: Bytes -> string)
    requires Lawful(codec) && Inv(db, codec) && AllRoom(db) && Fits(db, up, env)
    ensures up.name == "" ==> Step(db, AddRevision(up), env, codec, hash) == (db, Failed(MissingField))
    ensures up.name != "" && env.Ok(GetEntry) && up.name !in db.entries ==>
      Step(db, AddRevision(up), env, codec, hash) == (db, Failed(ResourceNotFound))
    ensures up.name != "" && !env.Ok(GetEntry) ==>
      Step(db, AddRevision(up), env, codec, hash) == (db, Failed(DatabaseError))
    ensures forall e :: 0 <= e < |db.entries| && db.entries[e] == up.name && up.name != "" && env.Ok(GetEntry) ==>
      Step(db, AddRevision(up), env, codec, hash).1 == UploadAnswer(db, e, up, env)
  {
    if up.name != "" {
      UploadAnswers(db, up, env, codec);
    }
  }

  // Past the lookup of the entry.
  function UploadAnswer(db: Db, e: nat, up: Upload, env: Env): Outcome {
    var pairs := PairsOf(up, env);
    if !env.Ok(GetBySha) then Failed(DatabaseError)
    else if HasSha(db, e, up.sha) then Failed(if env.Ok(DeleteDuplicate) then AlreadyRegistered else ObjectStoreError)
    else if !env.Ok(GetLatest) then Failed(DatabaseError)
    else if MeetsUnknownTrack(db, e, pairs, env) then Failed(ResourceNotFound)
    else if !RowsGo(db, e, pairs, |pairs|, env) then Failed(DatabaseError)
    else if up.key !in db.unscanned || !env.Ok(Copy) || !env.Ok(Remove) then Failed(ObjectStoreError)
    else Stored(Top(db.rows, e) + 1)
  }

  lemma NoStopNoUnknown(db: Db, e: nat, pairs: seq<C.Target>, env: Env)
    requires RowsGo(db, e, pairs, |pairs|, env)
    ensures !MeetsUnknownTrack(db, e, pairs, env)
  {
    forall j | 0 <= j < |pairs| ensures Track(e, pairs[j].track) in db.tracks {
      assert RowGoes(db, e, pairs, j, env);
    }
  }

  lemma UploadAnswers(db: Db, up: Upload, env: Env, codec: Codec)
    requires Lawful(codec) && Inv(db, codec) && AllRoom(db) && Fits(db, up, env)
    ensures forall e :: 0 <= e < |db.entries| && db.entries[e] == up.name && env.Ok(GetEntry) ==>
      Process(db, up, env, codec).1 == UploadAnswer(db, e, up, env)
    ensures !env.Ok(GetEntry) ==> Process(db, up, env, codec) == (db, Failed(DatabaseError))
    ensures env.Ok(GetEntry) && up.name !in db.entries ==> Process(db, up, env, codec) == (db, Failed(ResourceNotFound))
  {
    hide RevisionModel.ProcessNew, RowsGo, MeetsUnknownTrack;
    forall e | 0 <= e < |db.entries| && db.entries[e] == up.name && env.Ok(GetEntry)
      ensures Process(db, up, env, codec).1 == UploadAnswer(db, e, up, env)
    {
      FindName(db, e);
      var pairs := PairsOf(up, env);
      if !HasSha(db, e, up.sha) {
        NewAnswers(db, e, up, env, codec);
      }
      if RowsGo(db, e, pairs, |pairs|, env) {
        NoStopNoUnknown(db, e, pairs, env);
      }
    }
  }

  lemma KnownMeansGo(db: Db, e: nat, up: Upload, env: Env)
    requires Ideal(db, up, env)
    ensures var pairs := PairsOf(up, env);
      && (RowsGo(db, e, pairs, |pairs|, env) <==> KnownTracks(db, e, up))
      && (MeetsUnknownTrack(db, e, pairs, env) <==> !KnownTracks(db, e, up))
  {
    var pairs := PairsOf(up, env);
    C.PairsAreWanted(C.Effective(up.inputs), env.order);
    assert forall p :: p in WantedOf(up) <==> p in pairs;
    FirstUnknown(db, e, pairs, |pairs|, env);
  }

  lemma {:induction false} FirstUnknown(db: Db, e: nat, pairs: seq<C.Target>, n: nat, env: Env)
    requires env.fates == map[] && n <= |pairs|
    ensures RowsGo(db, e, pairs, n, env) <==> forall j :: 0 <= j < n ==> Track(e, pairs[j].track) in db.tracks
    ensures !RowsGo(db, e, pairs, n, env) ==> MeetsUnknownTrack(db, e, pairs, env)
    ensures RowsGo(db, e, pairs, |pairs|, env) ==> !MeetsUnknownTrack(db, e, pairs, env)
  {
    if n > 0 {
      FirstUnknown(db, e, pairs, n - 1, env);
      if RowsGo(db, e, pairs, n - 1, env) {
        assert RowGoes(db, e, pairs, n - 1, env) <==> Track(e, pairs[n - 1].track) in db.tracks;
      }
    }
    if RowsGo(db, e, pairs, |pairs|, env) {
      NoStopNoUnknown(db, e, pairs, env);
    }
  }

  // With every call working.
  lemma AddRevisionAnswersWithoutFailures(db: Db, e: nat, up: Upload, env: Env, codec: Codec, hash: Bytes -> string)
    requires Lawful(codec) && Inv(db, codec) && AllRoom(db) && Ideal(db, up, env)
    requires up.name in db.entries ==> e < |db.entries| && db.entries[e] == up.name
    ensures Step(db, AddRevision(up), env, codec, hash).1 ==
      if up.name == "" then Failed(MissingField)
      else if up.name !in db.entries then Failed(ResourceNotFound)
      else if HasSha(db, e, up.sha) then Failed(AlreadyRegistered)
      else if !KnownTracks(db, e, up) then Failed(ResourceNotFound)
      else if up.key !in db.unscanned then Failed(ObjectStoreError)
      else Stored(Top(db.rows, e) + 1)
  {
    hide RevisionModel.Step, RowsGo, MeetsUnknownTrack, KnownTracks;
    AddRevisionAnswers(db, up, env, codec, hash);
    if up.name != "" && up.name in db.entries {
      KnownMeansGo(db, e, up, env);
    }
  }

  // ---- Upload by delta ----

  // What is asked of the request and the state before a snap is rebuilt.
  predicate CanRebuild(db: Db, e: nat, req: DeltaUpload, env: Env, hash: Bytes -> string) {
    && req.format == "xdelta3" && e < |db.entries| && db.entries[e] == req.name
    && NamesBase(db, e, req.base, env.base)
    && req.deltaKey in db.unscanned && hash(db.unscanned[req.deltaKey]) == req.deltaSha
    && db.rows[env.base].path in db.snaps
  }

  predicate RebuildCallsWork(env: Env) {
    && env.Ok(GetBaseEntry) && env.Ok(GetBase) && env.Ok(FetchDelta) && env.Ok(FetchBase)
    && env.Ok(Apply) && env.Ok(Unpack) && env.Ok(SaveResult)
  }

  lemma RebuildsExactly(db: Db, e: nat, req: DeltaUpload, env: Env, codec: Codec, hash: Bytes -> string)
    requires NamesDistinct(db) && RowsOk(db) && BaseFits(db, req, env)
    requires req.name in db.entries ==> e < |db.entries| && db.entries[e] == req.name
    ensures Rebuild(db, req, env, codec, hash).Rebuilt? <==> CanRebuild(db, e, req, env, hash) && RebuildCallsWork(env)
  {
    if req.name in db.entries {
      FindName(db, e);
      BaseExactly(db, e, req.base);
    }
  }

  // The store looks at the delta at all.
  predicate ReachesDelta(db: Db, e: nat, req: DeltaUpload, env: Env) {
    && req.format == "xdelta3" && e < |db.entries| && db.entries[e] == req.name
    && NamesBase(db, e, req.base, env.base)
    && env.Ok(GetBaseEntry) && env.Ok(GetBase) && env.Ok(FetchDelta)
  }

  // Why a rebuild is refused, whatever fails: the format or the digest, the
  // database, an unknown name or base, and otherwise the objects.
  lemma RefusedExactly(db: Db, e: nat, req: DeltaUpload, env: Env, codec: Codec, hash: Bytes -> string)
    requires NamesDistinct(db) && RowsOk(db) && BaseFits(db, req, env)
    requires req.name in db.entries ==> e < |db.entries| && db.entries[e] == req.name
    ensures var r, known := Rebuild(db, req, env, codec, hash), req.name in db.entries;
      r.NotRebuilt? ==>
        && (r.reason == InvalidField <==>
              || req.format != "xdelta3"
              || (ReachesDelta(db, e, req, env) && req.deltaKey in db.unscanned
                  && hash(db.unscanned[req.deltaKey]) != req.deltaSha))
        && (r.reason == DatabaseError <==>
              req.format == "xdelta3" && (!env.Ok(GetBaseEntry) || (known && !env.Ok(GetBase))))
        && (r.reason == ResourceNotFound <==>
              && req.format == "xdelta3" && env.Ok(GetBaseEntry)
              && (!known || (env.Ok(GetBase) && !NamesBase(db, e, req.base, env.base))))
        && r.reason in {InvalidField, DatabaseError, ResourceNotFound, ObjectStoreError}
  {
    if req.name in db.entries {
      FindName(db, e);
      BaseExactly(db, e, req.base);
    }
  }

  // A staged delta is dropped exactly when its digest is wrong, when it cannot be
  // applied, or when the snap was rebuilt; otherwise it stays for another try.
  lemma DeltaDroppedExactly(db: Db, e: nat, req: DeltaUpload, env: Env, codec: Codec, hash: Bytes -> string)
    requires NamesDistinct(db) && RowsOk(db) && BaseFits(db, req, env)
    requires req.name in db.entries ==> e < |db.entries| && db.entries[e] == req.name
    requires req.deltaKey in db.unscanned && req.resultKey != req.deltaKey
    ensures req.deltaKey !in Rebuild(db, req, env, codec, hash).db.unscanned <==>
      && ReachesDelta(db, e, req, env) && env.TakesEffect(DeleteDelta)
      && (hash(db.unscanned[req.deltaKey]) == req.deltaSha ==>
          && env.Ok(FetchBase) && db.rows[env.base].path in db.snaps
          && (env.Ok(Apply) ==> env.Ok(Unpack) && env.Ok(SaveResult)))
  {
    if req.name in db.entries {
      FindName(db, e);
      BaseExactly(db, e, req.base);
    }
  }

  // Whatever fails, an upload by delta is accepted exactly when its snap can be
  // rebuilt, every call works, and the snap itself would be accepted.
  lemma DeltaAcceptedExactly(db: Db, e: nat, req: DeltaUpload, env: Env, codec: Codec, hash: Bytes -> string)
    requires Lawful(codec) && Inv(db, codec) && AllRoom(db) && RpcFits(db, ApplyUploadDelta(req), env)
    requires req.name in db.entries ==> e < |db.entries| && db.entries[e] == req.name
    ensures Step(db, ApplyUploadDelta(req), env, codec, hash).1.Stored? <==>
      && CanRebuild(db, e, req, env, hash) && RebuildCallsWork(env) && env.Ok(GetEntry)
      && var t := PatchedSnap(db, req, env, codec);
      && !HasSha(db, e, hash(t)) && env.Ok(GetBySha) && env.Ok(GetLatest)
      && (var pairs := PairsOf(ResultUpload(req, ""), env); RowsGo(db, e, pairs, |pairs|, env))
      && (req.resultKey == req.deltaKey ==> !env.TakesEffect(DeleteDelta))
      && env.Ok(Copy) && env.Ok(Remove)
  {
    hide RevisionModel.Rebuild, RevisionModel.Process, RowsGo, MeetsUnknownTrack;
    RebuildsExactly(db, e, req, env, codec, hash);
    var r := Rebuild(db, req, env, codec, hash);
    if r.Rebuilt? {
      var t := PatchedSnap(db, req, env, codec);
      RebuiltState(db, req, env, codec, hash);
      RebuiltAnswers(db, e, req, env, codec, hash);
      var pairs := PairsOf(ResultUpload(req, ""), env);
      if RowsGo(r.db, e, pairs, |pairs|, env) {
        NoStopNoUnknown(r.db, e, pairs, env);
      }
    }
  }

  // The rebuilt snap is staged, the delta dropped.
  lemma RebuiltState(db: Db, req: DeltaUpload, env: Env, codec: Codec, hash: Bytes -> string)
    requires BaseFits(db, req, env) && Rebuild(db, req, env, codec, hash).Rebuilt?
    ensures env.base < |db.rows| && db.rows[env.base].path in db.snaps && req.deltaKey in db.unscanned
    ensures var r, t := Rebuild(db, req, env, codec, hash), PatchedSnap(db, req, env, codec);
      && r.sha == hash(t) && r.db == db.(unscanned := r.db.unscanned)
      && (req.resultKey in r.db.unscanned <==> (req.resultKey == req.deltaKey ==> !env.TakesEffect(DeleteDelta)))
  {
  }

  lemma RebuiltAnswers(db: Db, e: nat, req: DeltaUpload, env: Env, codec: Codec, hash: Bytes -> string)
    requires Lawful(codec) && Inv(db, codec) && AllRoom(db) && RpcFits(db, ApplyUploadDelta(req), env)
    requires e < |db.entries| && db.entries[e] == req.name
    requires Rebuild(db, req, env, codec, hash).Rebuilt?
    ensures var r := Rebuild(db, req, env, codec, hash);
      var up := ResultUpload(req, r.sha);
      Step(db, ApplyUploadDelta(req), env, codec, hash).1 ==
        if env.Ok(GetEntry) then UploadAnswer(r.db, e, up, env) else Failed(DatabaseError)
    ensures var r := Rebuild(db, req, env, codec, hash);
      var pairs := PairsOf(ResultUpload(req, ""), env);
      && (forall n :: 0 <= n <= |pairs| ==> (RowsGo(r.db, e, pairs, n, env) <==> RowsGo(db, e, pairs, n, env)))
      && (HasSha(r.db, e, r.sha) <==> HasSha(db, e, r.sha))
  {
    hide RevisionModel.Rebuild, RevisionModel.Process;
    var r := Rebuild(db, req, env, codec, hash);
    assert r.db == db.(unscanned := r.db.unscanned);
    QuietStep(db, r.db, codec);
    SameRoom(db, r.db);
    assert Fits(db, ResultUpload(req, ""), env);
    UploadAnswers(r.db, ResultUpload(req, r.sha), env, codec);
    var pairs := PairsOf(ResultUpload(req, ""), env);
    forall j | 0 <= j < |pairs| ensures RowGoes(r.db, e, pairs, j, env) <==> RowGoes(db, e, pairs, j, env) {
    }
  }

  // With every call working, in the order of the gates.
  lemma DeltaAnswersWithoutFailures(db: Db, e: nat, req: DeltaUpload, env: Env, codec: Codec, hash: Bytes -> string)
    requires Lawful(codec) && Inv(db, codec) && AllRoom(db) && RpcFits(db, ApplyUploadDelta(req), env)
    requires env.fates == map[] && (req.name in db.entries ==> e < |db.entries| && db.entries[e] == req.name)
    ensures Step(db, ApplyUploadDelta(req), env, codec, hash).1 ==
      if req.format != "xdelta3" then Failed(InvalidField)
      else if req.name !in db.entries then Failed(ResourceNotFound)
      else if !NamesBase(db, e, req.base, env.base) then Failed(ResourceNotFound)
      else if req.deltaKey !in db.unscanned then Failed(ObjectStoreError)
      else if hash(db.unscanned[req.deltaKey]) != req.deltaSha then Failed(InvalidField)
      else if db.rows[env.base].path !in db.snaps then Failed(ObjectStoreError)
      else if HasSha(db, e, hash(PatchedSnap(db, req, env, codec))) then Failed(AlreadyRegistered)
      else if !KnownTracks(db, e, ResultUpload(req, "")) then Failed(ResourceNotFound)
      else if req.resultKey == req.deltaKey then Failed(ObjectStoreError)
      else Stored(Top(db.rows, e) + 1)
  {
    GatesWithoutFailures(db, e, req, env, codec, hash);
    if Rebuild(db, req, env, codec, hash).Rebuilt? {
      RebuiltAnswersWithoutFailures(db, e, req, env, codec, hash);
    }
  }

  lemma GatesWithoutFailures(db: Db, e: nat, req: DeltaUpload, env: Env, codec: Codec, hash: Bytes -> string)
    requires NamesDistinct(db) && RowsOk(db) && BaseFits(db, req, env)
    requires env.fates == map[] && (req.name in db.entries ==> e < |db.entries| && db.entries[e] == req.name)
    ensures var r := Rebuild(db, req, env, codec, hash);
      if req.format != "xdelta3" then r == NotRebuilt(db, InvalidField)
      else if req.name !in db.entries then r == NotRebuilt(db, ResourceNotFound)
      else if !NamesBase(db, e, req.base, env.base) then r == NotRebuilt(db, ResourceNotFound)
      else if req.deltaKey !in db.unscanned then r == NotRebuilt(db, ObjectStoreError)
      else if hash(db.unscanned[req.deltaKey]) != req.deltaSha
      then r == NotRebuilt(db.(unscanned := db.unscanned - {req.deltaKey}), InvalidField)
      else if db.rows[env.base].path !in db.snaps then r == NotRebuilt(db, ObjectStoreError)
      else r.Rebuilt? && req.deltaKey !in r.db.unscanned
  {
    if req.name in db.entries {
      FindName(db, e);
      BaseExactly(db, e, req.base);
    }
  }

  lemma RebuiltAnswersWithoutFailures(
      db: Db, e: nat, req: DeltaUpload, env: Env, codec: Codec, hash: Bytes -> string)
    requires Lawful(codec) && Inv(db, codec) && AllRoom(db) && RpcFits(db, ApplyUploadDelta(req), env)
    requires env.fates == map[] && Rebuild(db, req, env, codec, hash).Rebuilt?
    requires e < |db.entries| && db.entries[e] == req.name
    ensures env.base < |db.rows| && db.rows[env.base].path in db.snaps && req.deltaKey in db.unscanned
    ensures Step(db, ApplyUploadDelta(req), env, codec, hash).1 ==
      if HasSha(db, e, hash(PatchedSnap(db, req, env, codec))) then Failed(AlreadyRegistered)
      else if !KnownTracks(db, e, ResultUpload(req, "")) then Failed(ResourceNotFound)
      else if req.resultKey == req.deltaKey then Failed(ObjectStoreError)
      else Stored(Top(db.rows, e) + 1)
  {
    hide RevisionModel.Rebuild, RevisionModel.Step, RowsGo, MeetsUnknownTrack;
    var r := Rebuild(db, req, env, codec, hash);
    RebuiltState(db, req, env, codec, hash);
    RebuiltAnswers(db, e, req, env, codec, hash);
    assert Fits(r.db, ResultUpload(req, r.sha), env);
    KnownMeansGo(r.db, e, ResultUpload(req, r.sha), env);
    assert KnownTracks(r.db, e, ResultUpload(req, r.sha)) <==> KnownTracks(db, e, ResultUpload(req, ""));
  }
}
