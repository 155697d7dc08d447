/**
 Registering snap names: what a success adds, what a failure leaves behind, and
 what an entry left without its track can still do.
 */
module Registration {
  import opened Text
  import opened RevisionModel
  import opened RevisionInvariants
  import opened RevisionHistory
  import opened RevisionResults
  import opened Leftovers
  import C = Channels

  function DefaultsOf(track: nat, k: nat): (r: seq<Channel>)
    requires k <= |DEFAULT_CHANNELS|
    ensures |r| == k && forall i :: 0 <= i < k ==> r[i] == Channel(track, DEFAULT_CHANNELS[i])
  {
    seq(k, i requires 0 <= i < k => Channel(track, DEFAULT_CHANNELS[i]))
  }

  lemma {:induction false} AllDefaults(db: Db, track: nat, k: nat, env: Env)
    requires k <= |DEFAULT_CHANNELS| && AddDefaults(db, track, k, env).1
    ensures AddDefaults(db, track, k, env).0 == db.(channels := db.channels + DefaultsOf(track, k))
  {
    if k > 0 {
      AllDefaults(db, track, k - 1, env);
      assert DefaultsOf(track, k) == DefaultsOf(track, k - 1) + [Channel(track, DEFAULT_CHANNELS[k - 1])];
    } else {
      assert db.channels + DefaultsOf(track, 0) == db.channels;
    }
  }

  // A real registration succeeds only for a free name, and then adds the entry,
  // its "latest" track and that track's four channels; nothing else changes.
  lemma RegisteredExactly(db: Db, name: string, accountOk: bool, env: Env)
    requires Register(db, name, false, accountOk, env).1.Done?
    ensures name !in db.entries && accountOk
    ensures Register(db, name, false, accountOk, env).0 == db.(
      entries := db.entries + [name],
      tracks := db.tracks + [Track(|db.entries|, "latest")],
      channels := db.channels + [Channel(|db.tracks|, "stable"), Channel(|db.tracks|, "candidate"),
          Channel(|db.tracks|, "beta"), Channel(|db.tracks|, "edge")])
  {
    var d := db.(entries := db.entries + [name], tracks := db.tracks + [Track(|db.entries|, "latest")]);
    AllDefaults(d, |db.tracks|, 4, env);
  }

  // A dry run changes nothing and foretells the answer: a registration that
  // follows succeeds exactly if the name was answered to be free.
  lemma DryRunForetells(db: Db, name: string, accountOk: bool, env: Env, next: Env)
    requires env.Ok(GetEntry) && next.fates == map[]
    ensures var (d, answer) := Register(db, name, true, accountOk, env);
      d == db && answer.Known? && (Register(d, name, false, true, next).1 == Done <==> !answer.registered)
  {
    var d := db.(entries := db.entries + [name], tracks := db.tracks + [Track(|db.entries|, "latest")]);
    DefaultsWork(d, |db.tracks|, 4, next);
  }

  lemma {:induction false} DefaultsWork(db: Db, track: nat, k: nat, env: Env)
    requires k <= |DEFAULT_CHANNELS| && env.fates == map[]
    ensures AddDefaults(db, track, k, env).1
  {
    if k > 0 {
      DefaultsWork(db, track, k - 1, env);
    }
  }

  // Any attempt that got as far as the entry takes the name for good: every
  // later attempt is refused.
  lemma NameIsTakenExactly(db: Db, name: string, accountOk: bool, env: Env, again: Env)
    requires name !in db.entries && again.Ok(GetEntry)
    ensures var d := Register(db, name, false, accountOk, env).0;
      && (name in d.entries <==> env.Ok(GetEntry) && accountOk && env.TakesEffect(RegisterEntry))
      && (Register(d, name, false, accountOk, again).1 == Failed(AlreadyRegistered) <==> name in d.entries)
  {
    var d := Register(db, name, false, accountOk, env).0;
    if env.Ok(GetEntry) && accountOk && env.TakesEffect(RegisterEntry) {
      assert (db.entries + [name])[|db.entries|] == name;
      var d1 := db.(entries := db.entries + [name]);
      var d2 := d1.(tracks := d1.tracks + [Track(|db.entries|, "latest")]);
      DefaultsOnlyAddChannels(d2, |d1.tracks|, |DEFAULT_CHANNELS|, env);
      assert d.entries == db.entries + [name];
    } else if env.Ok(RegisterEntry) {
      assert d.entries == db.entries;
    }
  }

  // ---- Entries without a track ----

  predicate HasTrack(db: Db, e: nat) { exists i :: 0 <= i < |db.tracks| && db.tracks[i].entry == e }

  // Only registration adds tracks, and only to the entry it adds.
  lemma TracksAreFixed(db: Db, rpc: Rpc, env: Env, codec: Codec, hash: Bytes -> string, e: nat)
    requires Lawful(codec) && Inv(db, codec) && AllRoom(db) && RpcFits(db, rpc, env) && e < |db.entries|
    ensures var d := Step(db, rpc, env, codec, hash).0;
      e < |d.entries| && d.entries[e] == db.entries[e] && (HasTrack(d, e) <==> HasTrack(db, e))
  {
    match rpc
    case RegisterSnapName(name, dryRun, accountOk) =>
      RegisterTracks(db, name, dryRun, accountOk, env, e);
    case PutUnscanned(key, bytes) =>
    case AddRevision(up) =>
      UploadAddsNoTrack(db, up, env, codec);
    case ApplyUploadDelta(req) =>
      var r := Rebuild(db, req, env, codec, hash);
      if r.Rebuilt? {
        QuietStep(db, r.db, codec);
        SameRoom(db, r.db);
        assert Fits(db, ResultUpload(req, ""), env);
        UploadAddsNoTrack(r.db, ResultUpload(req, r.sha), env, codec);
      }
  }

  lemma UploadAddsNoTrack(db: Db, up: Upload, env: Env, codec: Codec)
    requires Lawful(codec) && Inv(db, codec) && AllRoom(db) && Fits(db, up, env)
    ensures var d := Process(db, up, env, codec).0; d.entries == db.entries && d.tracks == db.tracks
  {
    var d := Process(db, up, env, codec).0;
    if d != db.(unscanned := d.unscanned) {
      ProcessNewEffect(db, Find(db.entries, up.name).value, up, env, codec);
    }
  }

  lemma RegisterTracks(db: Db, name: string, dryRun: bool, accountOk: bool, env: Env, e: nat)
    requires e < |db.entries|
    ensures var d := Register(db, name, dryRun, accountOk, env).0;
      e < |d.entries| && d.entries[e] == db.entries[e] && (HasTrack(d, e) <==> HasTrack(db, e))
  {
    var d := Register(db, name, dryRun, accountOk, env).0;
    var d1 := db.(entries := db.entries + [name]);
    var d2 := d1.(tracks := d1.tracks + [Track(|db.entries|, "latest")]);
    DefaultsOnlyAddChannels(d2, |d1.tracks|, |DEFAULT_CHANNELS|, env);
    assert d.tracks == db.tracks || d.tracks == db.tracks + [Track(|db.entries|, "latest")];
    assert forall i :: 0 <= i < |db.tracks| ==> d.tracks[i] == db.tracks[i];
  }

  // An upload to an entry without a track can only "succeed" by storing no
  // revision at all.
  lemma NoTrackNoRevision(db: Db, e: nat, up: Upload, env: Env, codec: Codec)
    requires Lawful(codec) && Uploadable(db, codec, e, up) && Fits(db, up, env) && !HasTrack(db, e)
    ensures ProcessNew(db, e, up, env, codec).0.rows == db.rows
  {
    ProcessNewEffect(db, e, up, env, codec);
    NewRowsNeedTracks(db, ProcessNew(db, e, up, env, codec).0, e, NextSequence(db, e, env), up.sha, codec);
  }

  lemma NewRowsNeedTracks(db: Db, d: Db, e: nat, q: nat, sha: string, codec: Codec)
    requires Effect(db, d, e, q, sha, codec)
    ensures d.rows == db.rows || HasTrack(db, e)
  {
    if |d.rows| > |db.rows| {
      var r := d.rows[|db.rows|];
      assert NewRow(d, r, e, q, sha);
      assert db.tracks[r.track].entry == e;
    }
  }

  // A registration of a free name leaves its entry with a track exactly when the
  // calls up to the track got through, the last of them reported or not.
  lemma LeavesTrackExactly(db: Db, name: string, accountOk: bool, env: Env)
    requires name !in db.entries && LatestTracksOnly(db)
    ensures HasTrack(Register(db, name, false, accountOk, env).0, |db.entries|)
      <==> env.Ok(GetEntry) && accountOk && env.Ok(RegisterEntry) && env.TakesEffect(AddLatestTrack)
  {
    var e, d := |db.entries|, Register(db, name, false, accountOk, env).0;
    var d1 := db.(entries := db.entries + [name], tracks := db.tracks + [Track(e, "latest")]);
    DefaultsOnlyAddChannels(d1, |db.tracks|, |DEFAULT_CHANNELS|, env);
    assert d1.tracks[|db.tracks|].entry == e;
    assert !HasTrack(db, e);
    assert d.tracks == db.tracks || d.tracks == d1.tracks;
  }

  // What a first upload to the name then finds, with every call of its own
  // working: the entry, and its track.
  lemma FirstUploadExactly(
      db: Db, name: string, accountOk: bool, env: Env, up: Upload, next: Env, codec: Codec)
    requires Lawful(codec) && Inv(db, codec) && name !in db.entries && up.name == name && up.inputs == []
    requires var d := Register(db, name, false, accountOk, env).0;
      up.key in d.unscanned && Fits(d, up, next) && next.fates == map[]
    ensures Process(Register(db, name, false, accountOk, env).0, up, next, codec).1 ==
      if env.Ok(GetEntry) && accountOk && env.Ok(RegisterEntry) && env.TakesEffect(AddLatestTrack) then Stored(1)
      else Failed(ResourceNotFound)
  {
    var e, d := |db.entries|, Register(db, name, false, accountOk, env).0;
    RegisterGrows(db, name, false, accountOk, env);
    GrownKeeps(db, d, codec);
    LeavesTrackExactly(db, name, accountOk, env);
    if name in d.entries {
      NewEntry(db, d, name, e);
      FirstUploadTo(db, d, e, up, next, codec);
    }
  }

  lemma FirstUploadTo(db: Db, d: Db, e: nat, up: Upload, next: Env, codec: Codec)
    requires Lawful(codec) && Inv(db, codec) && Grown(db, d) && Inv(d, codec) && e == |db.entries| < |d.entries|
    requires d.entries[e] == up.name && up.inputs == []
    requires up.key in d.unscanned && Fits(d, up, next) && next.fates == map[]
    ensures Process(d, up, next, codec).1 == if HasTrack(d, e) then Stored(1) else Failed(ResourceNotFound)
  {
    FindName(d, e);
    NoRowsYet(db, d, e, codec);
    OutcomeWithoutFailures(d, e, up, next, codec);
    DefaultWanted(up);
    KnownLatest(d, e);
  }

  lemma NewEntry(db: Db, d: Db, name: string, e: nat)
    requires Grown(db, d) && NamesDistinct(d) && name !in db.entries && name in d.entries && e == |db.entries|
    requires |d.entries| <= e + 1
    ensures e < |d.entries| && d.entries[e] == name && Find(d.entries, name) == Some(e)
  {
    var i :| 0 <= i < |d.entries| && d.entries[i] == name;
    assert forall k :: 0 <= k < e ==> db.entries[k] == d.entries[k];
    FindName(d, e);
  }

  lemma NoRowsYet(db: Db, d: Db, e: nat, codec: Codec)
    requires Inv(db, codec) && Grown(db, d) && e == |db.entries|
    ensures !HasRows(d, e) && HasRoom(d, e) && Top(d.rows, e) == 0 && forall sha :: !HasSha(d, e, sha)
  {
    forall i | 0 <= i < |d.rows| ensures d.rows[i].entry != e {
      assert RowOk(db, db.rows[i]);
    }
    TopIsMaximum(d.rows, e);
  }

  // Without inputs an upload is for latest/stable.
  lemma DefaultWanted(up: Upload)
    requires up.inputs == []
    ensures WantedOf(up) == [C.Target("latest", "stable")]
  {
    SplitPlain("stable", '/');
    assert ["stable"][..0] == [] && C.Wanted([]) == [];
    assert C.PushTarget("stable") == Some(C.Target("latest", "stable"));
  }

  lemma KnownLatest(d: Db, e: nat)
    requires LatestTracksOnly(d)
    ensures HasTrack(d, e) <==> Track(e, "latest") in d.tracks
  {
    if HasTrack(d, e) {
      var i :| 0 <= i < |d.tracks| && d.tracks[i].entry == e;
      assert d.tracks[i] == Track(e, "latest");
    }
  }

  // Without a track an entry never gets a row.
  lemma {:induction false} StaysUnusable(states: seq<Db>, events: seq<Event>, codec: Codec, hash: Bytes -> string,
      j: nat, k: nat, e: nat)
    requires Good(states, events, codec, hash) && j <= k < |states| && e < |states[j].entries|
    requires !HasTrack(states[j], e)
    ensures e < |states[k].entries| && states[k].entries[e] == states[j].entries[e] && !HasTrack(states[k], e)
    ensures forall i :: 0 <= i < |states[k].rows| ==> states[k].rows[i].entry != e
  {
    OneStateMore(states, events, codec, hash);
    if j < k {
      StaysUnusable(states, events, codec, hash, j, k - 1, e);
      HistoryKeeps(states, events, codec, hash, k - 1);
      TracksAreFixed(states[k - 1], events[k - 1].rpc, events[k - 1].env, codec, hash, e);
      assert states[k - 1 + 1] == After(states[k - 1], events[k - 1], codec, hash);
    }
    HistoryKeeps(states, events, codec, hash, k);
    forall i | 0 <= i < |states[k].rows| ensures states[k].rows[i].entry != e {
      assert RowOk(states[k], states[k].rows[i]);
    }
  }

  // The calls of a registration of a free name took the name but not its track.
  predicate TakesNameOnly(accountOk: bool, env: Env) {
    && env.Ok(GetEntry) && accountOk && env.TakesEffect(RegisterEntry)
    && !(env.Ok(RegisterEntry) && env.TakesEffect(AddLatestTrack))
  }

  // A registration that took the name but not its track leaves, in the rest of
  // every history, a name that is taken and has no revision.
  lemma NameWithoutTrackIsLost(
      states: seq<Db>, events: seq<Event>, codec: Codec, hash: Bytes -> string, j: nat, k: nat)
    requires Good(states, events, codec, hash) && j < k < |states|
    requires var (rpc, env) := (events[j].rpc, events[j].env);
      && rpc.RegisterSnapName? && !rpc.dryRun && rpc.name !in states[j].entries && TakesNameOnly(rpc.accountOk, env)
    ensures var e := |states[j].entries|;
      && e < |states[k].entries| && states[k].entries[e] == events[j].rpc.name
      && forall i :: 0 <= i < |states[k].rows| ==> states[k].rows[i].entry != e
  {
    var (db, rpc, env) := (states[j], events[j].rpc, events[j].env);
    HistoryKeeps(states, events, codec, hash, j);
    RegisterGrows(db, rpc.name, false, rpc.accountOk, env);
    LeavesTrackExactly(db, rpc.name, rpc.accountOk, env);
    NameIsTakenExactly(db, rpc.name, rpc.accountOk, env, Env(map[], [], 0, 0));
    assert states[j + 1] == After(db, events[j], codec, hash);
    NewEntry(db, states[j + 1], rpc.name, |db.entries|);
    StaysUnusable(states, events, codec, hash, j + 1, k, |db.entries|);
  }
}
