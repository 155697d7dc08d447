/**
 What an upload leaves behind when it fails, when a retry is turned away, and which
 of its rows can be downloaded: each from the calls it makes and the state it meets.
 */
module Leftovers {
  import opened Text
  import opened RevisionModel
  import opened RevisionInvariants
  import opened RevisionHistory
  import opened RevisionResults
  import C = Channels
  import P = ObjectPaths

  // ---- Whether any row is written ----

  predicate HasChannel(db: Db, e: nat, p: C.Target) {
    var track := Find(db.tracks, Track(e, p.track));
    track.Some? && Channel(track.value, p.channel) in db.channels
  }

  // All the calls for the first row get through, up to and with its insert.
  predicate FirstRowGoes(db: Db, e: nat, pairs: seq<C.Target>, env: Env) {
    && pairs != [] && env.Ok(GetTrack(0)) && Track(e, pairs[0].track) in db.tracks
    && env.Ok(GetChannel(0)) && (HasChannel(db, e, pairs[0]) || env.Ok(AddChannel(0)))
    && env.TakesEffect(AddRow(0))
  }

  lemma OneRowExactly(db: Db, e: nat, up: Upload, q: nat, p: C.Target, env: Env)
    requires e < |db.entries|
    ensures |WriteOne(db, e, up, q, 0, p, env).db.rows| > |db.rows| <==> FirstRowGoes(db, e, [p], env)
  {
    assert [p][0] == p;
  }

  lemma {:induction false} RowsGrowExactly(
      db: Db, e: nat, up: Upload, q: nat, pairs: seq<C.Target>, n: nat, env: Env)
    requires e < |db.entries| && db.entries[e] == up.name && 1 <= n <= |pairs|
    ensures |WriteRows(db, e, up, q, pairs, n, env).db.rows| > |db.rows| <==> FirstRowGoes(db, e, pairs, env)
  {
    hide RevisionModel.WriteOne;
    if n == 1 {
      assert WriteRows(db, e, up, q, pairs, 0, env) == Going(db, None);
      OneRowExactly(db, e, up, q, pairs[0], env);
      assert FirstRowGoes(db, e, [pairs[0]], env) <==> FirstRowGoes(db, e, pairs, env);
    } else {
      RowsGrowExactly(db, e, up, q, pairs, n - 1, env);
      WriteRowsExtends(db, e, up, q, pairs, n - 1, env);
    }
  }

  // A row is left exactly when the first one was written.
  lemma NewRowsExactly(db: Db, e: nat, up: Upload, env: Env, codec: Codec)
    requires Fits(db, up, env) && e < |db.entries| && db.entries[e] == up.name
    ensures var d := ProcessNew(db, e, up, env, codec).0;
      db.rows <= d.rows && (|d.rows| > |db.rows| <==> FirstRowGoes(db, e, PairsOf(up, env), env))
  {
    var q, pairs := NextSequence(db, e, env), PairsOf(up, env);
    var r := WriteRows(db, e, up, q, pairs, |pairs|, env);
    if pairs != [] {
      RowsGrowExactly(db, e, up, q, pairs, |pairs|, env);
    }
    if r.Going? {
      FinishEffect(db, r.db, r.last, e, q, up.key, env, codec);
    }
  }

  // ---- Retrying ----

  // The digest counts as taken exactly when the first row was written, whether or
  // not the upload succeeded and whether or not its bytes arrived.
  lemma DigestTakenExactly(db: Db, e: nat, up: Upload, env: Env, codec: Codec)
    requires Lawful(codec) && Uploadable(db, codec, e, up) && Fits(db, up, env)
    ensures HasSha(ProcessNew(db, e, up, env, codec).0, e, up.sha) <==> FirstRowGoes(db, e, PairsOf(up, env), env)
  {
    NewRowsExactly(db, e, up, env, codec);
    ProcessNewEffect(db, e, up, env, codec);
    var d := ProcessNew(db, e, up, env, codec).0;
    if |d.rows| > |db.rows| {
      assert NewRow(d, d.rows[|db.rows|], e, NextSequence(db, e, env), up.sha);
    }
  }

  // So the same upload again is turned away exactly then.
  lemma RetryBlockedExactly(db: Db, e: nat, up: Upload, env: Env, again: Env, codec: Codec)
    requires Lawful(codec) && Uploadable(db, codec, e, up) && Fits(db, up, env)
    requires Fits(ProcessNew(db, e, up, env, codec).0, up, again)
    requires again.Ok(GetEntry) && again.Ok(GetBySha) && again.Ok(DeleteDuplicate)
    ensures Process(ProcessNew(db, e, up, env, codec).0, up, again, codec).1 == Failed(AlreadyRegistered)
      <==> FirstRowGoes(db, e, PairsOf(up, env), env)
  {
    ProcessNewEffect(db, e, up, env, codec);
    DigestTakenExactly(db, e, up, env, codec);
    var d := ProcessNew(db, e, up, env, codec).0;
    FindName(d, e);
    NewNeverAlreadyRegistered(d, e, up, again, codec);
  }

  lemma FindName(db: Db, e: nat)
    requires NamesDistinct(db) && e < |db.entries|
    ensures Find(db.entries, db.entries[e]) == Some(e)
  {
  }

  // ---- Leftovers and the order of the map ----

  // Every call works; only the map order is open.
  ghost predicate Ideal(db: Db, up: Upload, env: Env) { Fits(db, up, env) && env.fates == map[] }

  ghost predicate NoneKnown(db: Db, e: nat, up: Upload) {
    forall p :: p in WantedOf(up) ==> Track(e, p.track) !in db.tracks
  }

  // With every call working the first track of the walk decides.
  lemma FirstTrackDecides(db: Db, e: nat, up: Upload, env: Env, codec: Codec)
    requires Lawful(codec) && Uploadable(db, codec, e, up) && Ideal(db, up, env)
    ensures HasSha(ProcessNew(db, e, up, env, codec).0, e, up.sha)
      <==> env.order != [] && Track(e, env.order[0]) in db.tracks
    ensures env.order != [] ==> exists p :: p in WantedOf(up) && p.track == env.order[0]
    ensures env.order == [] <==> WantedOf(up) == []
  {
    var inputs, pairs := C.Effective(up.inputs), PairsOf(up, env);
    DigestTakenExactly(db, e, up, env, codec);
    C.PairsAreWanted(inputs, env.order);
    if env.order != [] {
      C.FirstPair(inputs, env.order);
      assert pairs[0] in pairs;
    }
  }

  function RowsLeft(db: Db, e: nat, up: Upload, env: Env, codec: Codec): int
    requires Fits(db, up, env) && e < |db.entries| && db.entries[e] == up.name
  {
    |ProcessNew(db, e, up, env, codec).0.rows| - |db.rows|
  }

  // With no mix of known and unknown tracks the order does not matter.
  lemma RowsLeftWithoutMix(db: Db, e: nat, up: Upload, env: Env, codec: Codec)
    requires Lawful(codec) && Uploadable(db, codec, e, up) && Ideal(db, up, env)
    requires KnownTracks(db, e, up) || NoneKnown(db, e, up)
    ensures RowsLeft(db, e, up, env, codec) == if KnownTracks(db, e, up) then |WantedOf(up)| else 0
  {
    var q, pairs := NextSequence(db, e, env), PairsOf(up, env);
    C.PairsAreWanted(C.Effective(up.inputs), env.order);
    if KnownTracks(db, e, up) {
      StopsAtUnknownTrack(db, e, up, q, pairs, |pairs|, env);
      KnownMeansAll(db.tracks, e, pairs, |pairs|);
      assert pairs[..|pairs|] == pairs;
      WriteRowsExtends(db, e, up, q, pairs, |pairs|, env);
      var r := WriteRows(db, e, up, q, pairs, |pairs|, env);
      assert r.Going?;
      FinishEffect(db, r.db, r.last, e, q, up.key, env, codec);
    } else {
      FirstTrackDecides(db, e, up, env, codec);
      DigestTakenExactly(db, e, up, env, codec);
      NewRowsExactly(db, e, up, env, codec);
    }
  }

  // Every order of the map leaves the same, in rows and in the digest taken or
  // free, exactly when the tracks asked for are all there or none of them is.
  lemma LeftoversAgreeExactly(db: Db, e: nat, up: Upload, codec: Codec)
    requires Lawful(codec) && Uploadable(db, codec, e, up)
    ensures (forall env, env' :: Ideal(db, up, env) && Ideal(db, up, env') ==>
        RowsLeft(db, e, up, env, codec) == RowsLeft(db, e, up, env', codec))
      <==> KnownTracks(db, e, up) || NoneKnown(db, e, up)
    ensures (forall env, env' :: Ideal(db, up, env) && Ideal(db, up, env') ==>
        (HasSha(ProcessNew(db, e, up, env, codec).0, e, up.sha)
         <==> HasSha(ProcessNew(db, e, up, env', codec).0, e, up.sha)))
      <==> KnownTracks(db, e, up) || NoneKnown(db, e, up)
  {
    if KnownTracks(db, e, up) || NoneKnown(db, e, up) {
      forall env, env' | Ideal(db, up, env) && Ideal(db, up, env')
        ensures RowsLeft(db, e, up, env, codec) == RowsLeft(db, e, up, env', codec)
        ensures HasSha(ProcessNew(db, e, up, env, codec).0, e, up.sha)
          <==> HasSha(ProcessNew(db, e, up, env', codec).0, e, up.sha)
      {
        RowsLeftWithoutMix(db, e, up, env, codec);
        RowsLeftWithoutMix(db, e, up, env', codec);
        RowsLeftTakeDigest(db, e, up, env, codec);
        RowsLeftTakeDigest(db, e, up, env', codec);
      }
    } else {
      var p :| p in WantedOf(up) && Track(e, p.track) !in db.tracks;
      var p' :| p' in WantedOf(up) && Track(e, p'.track) in db.tracks;
      var env := EnvStarting(db, up, p);
      var env' := EnvStarting(db, up, p');
      FirstTrackDecides(db, e, up, env, codec);
      FirstTrackDecides(db, e, up, env', codec);
      RowsLeftTakeDigest(db, e, up, env, codec);
      RowsLeftTakeDigest(db, e, up, env', codec);
    }
  }

  lemma RowsLeftTakeDigest(db: Db, e: nat, up: Upload, env: Env, codec: Codec)
    requires Lawful(codec) && Uploadable(db, codec, e, up) && Fits(db, up, env)
    ensures RowsLeft(db, e, up, env, codec) >= 0
    ensures HasSha(ProcessNew(db, e, up, env, codec).0, e, up.sha) <==> RowsLeft(db, e, up, env, codec) > 0
  {
    DigestTakenExactly(db, e, up, env, codec);
    NewRowsExactly(db, e, up, env, codec);
  }

  // The map may be walked from any track asked for.
  lemma EnvStarting(db: Db, up: Upload, p: C.Target) returns (env: Env)
    requires NamesDistinct(db) && p in WantedOf(up)
    ensures Ideal(db, up, env) && env.order != [] && env.order[0] == p.track
  {
    env := SomeEnv(db, up);
    var order := C.OrderStarting(C.Effective(up.inputs), env.order, p);
    env := env.(order := order);
  }

  // For one: beside "latest", a track that is not there. Both orders fail.
  lemma LeftoversDependOnMapOrder(
      db: Db, e: nat, up: Upload, channel: string, track: string, other: string, env: Env, env': Env, codec: Codec)
    requires Lawful(codec) && Uploadable(db, codec, e, up)
    requires Track(e, "latest") in db.tracks && Track(e, track) !in db.tracks
    requires '/' !in channel && '/' !in track && '/' !in other && up.inputs == [channel, track + "/" + other]
    requires env.fates == env'.fates == map[] && env.order == ["latest", track] && env'.order == [track, "latest"]
    requires Fits(db, up, env) && Fits(db, up, env')
    ensures ProcessNew(db, e, up, env, codec).1 == ProcessNew(db, e, up, env', codec).1 == Failed(ResourceNotFound)
    ensures HasSha(ProcessNew(db, e, up, env, codec).0, e, up.sha)
    ensures !HasSha(ProcessNew(db, e, up, env', codec).0, e, up.sha)
  {
    TwoInputs(channel, track, other);
    var bad := C.Target(track, other);
    assert PairsOf(up, env)[1] == bad;
    C.PairsAreWanted(C.Effective(up.inputs), env.order);
    assert bad in PairsOf(up, env) && bad in WantedOf(up) && !KnownTracks(db, e, up);
    OutcomeWithoutFailures(db, e, up, env, codec);
    OutcomeWithoutFailures(db, e, up, env', codec);
    FirstTrackDecides(db, e, up, env, codec);
    FirstTrackDecides(db, e, up, env', codec);
  }

  lemma TwoInputs(channel: string, track: string, other: string)
    requires '/' !in channel && '/' !in track && '/' !in other && track != "latest"
    ensures var inputs := [channel, track + "/" + other];
      && C.Pairs(inputs, ["latest", track]) == [C.Target("latest", channel), C.Target(track, other)]
      && C.Pairs(inputs, [track, "latest"]) == [C.Target(track, other), C.Target("latest", channel)]
  {
    var inputs := [channel, track + "/" + other];
    SplitPlain(channel, '/');
    SplitPlain(track, '/');
    SplitPlain(other, '/');
    SplitConcat(track, other, '/');
    assert track + "/" + other == track + ['/'] + other;
    assert inputs[..1] == [channel] && [channel][..0] == [];
    assert C.PushTarget(inputs[0]) == Some(C.Target("latest", channel));
    assert C.PushTarget(inputs[1]) == Some(C.Target(track, other));
    assert C.ChannelsOf([channel], "latest") == [] + [channel] && C.ChannelsOf([channel], track) == [];
    assert C.ChannelsOf(inputs, "latest") == [channel];
    assert C.ChannelsOf(inputs, track) == [other];
    TwoTracks(inputs, "latest", channel, track, other);
    TwoTracks(inputs, track, other, "latest", channel);
  }

  lemma TwoTracks(inputs: seq<string>, a: string, ca: string, b: string, cb: string)
    requires C.ChannelsOf(inputs, a) == [ca] && C.ChannelsOf(inputs, b) == [cb]
    ensures C.Pairs(inputs, [a, b]) == [C.Target(a, ca), C.Target(b, cb)]
  {
    assert [a, b][..1] == [a] && [a][..0] == [];
    assert C.Pairs(inputs, []) == [];
    assert C.Pairs(inputs, [a]) == [C.Target(a, ca)];
  }

  // ---- Whether all rows are written ----

  // All the calls for row j get through; its channel may come from an earlier row.
  predicate RowGoes(db: Db, e: nat, pairs: seq<C.Target>, j: nat, env: Env)
    requires j < |pairs|
  {
    && env.Ok(GetTrack(j)) && Track(e, pairs[j].track) in db.tracks
    && env.Ok(GetChannel(j)) && (HasChannel(db, e, pairs[j]) || pairs[j] in pairs[..j] || env.Ok(AddChannel(j)))
    && env.Ok(AddRow(j))
  }

  predicate RowsGo(db: Db, e: nat, pairs: seq<C.Target>, n: nat, env: Env)
    requires n <= |pairs|
  {
    forall j :: 0 <= j < n ==> RowGoes(db, e, pairs, j, env)
  }

  // The channels there are after some rows: those before and those written.
  ghost predicate ChannelsSoFar(db: Db, d: Db, e: nat, written: seq<C.Target>) {
    && d.tracks == db.tracks
    && forall p: C.Target :: Track(e, p.track) in db.tracks ==>
        (HasChannel(d, e, p) <==> HasChannel(db, e, p) || p in written)
  }

  lemma OneGoesExactly(db: Db, e: nat, up: Upload, q: nat, j: nat, p: C.Target, env: Env)
    requires e < |db.entries|
    ensures var r := WriteOne(db, e, up, q, j, p, env);
      && (r.Going? <==>
          && env.Ok(GetTrack(j)) && Track(e, p.track) in db.tracks
          && env.Ok(GetChannel(j)) && (HasChannel(db, e, p) || env.Ok(AddChannel(j))) && env.Ok(AddRow(j)))
      && (r.Going? ==> ChannelsSoFar(db, r.db, e, [p]))
  {
    var r := WriteOne(db, e, up, q, j, p, env);
    if r.Going? {
      forall p': C.Target | Track(e, p'.track) in db.tracks
        ensures HasChannel(r.db, e, p') <==> HasChannel(db, e, p') || p' in [p]
      {
        assert p == C.Target(p.track, p.channel) && p' == C.Target(p'.track, p'.channel);
      }
    }
  }

  lemma MoreChannels(db: Db, d: Db, d': Db, e: nat, pairs: seq<C.Target>, n: nat)
    requires n < |pairs| && ChannelsSoFar(db, d, e, pairs[..n]) && ChannelsSoFar(d, d', e, [pairs[n]])
    ensures ChannelsSoFar(db, d', e, pairs[..n + 1])
  {
    assert pairs[..n + 1] == pairs[..n] + [pairs[n]];
  }

  lemma {:induction false} GoesOnExactly(
      db: Db, e: nat, up: Upload, q: nat, pairs: seq<C.Target>, n: nat, env: Env)
    requires e < |db.entries| && n <= |pairs|
    ensures var r := WriteRows(db, e, up, q, pairs, n, env);
      (r.Going? <==> RowsGo(db, e, pairs, n, env)) && (r.Going? ==> ChannelsSoFar(db, r.db, e, pairs[..n]))
  {
    hide RevisionModel.WriteOne, HasChannel;
    if n > 0 {
      GoesOnExactly(db, e, up, q, pairs, n - 1, env);
      var r := WriteRows(db, e, up, q, pairs, n - 1, env);
      if r.Going? {
        OneGoesExactly(r.db, e, up, q, n - 1, pairs[n - 1], env);
        assert RowGoes(db, e, pairs, n - 1, env) <==> WriteOne(r.db, e, up, q, n - 1, pairs[n - 1], env).Going?;
        if RowGoes(db, e, pairs, n - 1, env) {
          MoreChannels(db, r.db, WriteOne(r.db, e, up, q, n - 1, pairs[n - 1], env).db, e, pairs, n - 1);
        }
      }
    }
  }

  // ---- Which rows can be downloaded ----

  lemma FinishSnaps(db: Db, d: Db, last: Option<nat>, e: nat, q: nat, key: string, env: Env, codec: Codec)
    requires e < |db.entries| && db.rows <= d.rows && (last.Some? ==> last.value < |d.rows|)
    requires HasRows(db, e) ==> IsLatest(db, e, env.latest)
    ensures Finish(db, d, last, e, q, key, env, codec).0.snaps ==
      if key in d.unscanned && env.TakesEffect(Copy) then d.snaps[P.SnapPath(db.entries[e], q) := d.unscanned[key]]
      else d.snaps
  {
  }

  // The upload's bytes reach the store.
  predicate BytesArrive(db: Db, e: nat, up: Upload, env: Env) {
    RowsGo(db, e, PairsOf(up, env), |PairsOf(up, env)|, env) && up.key in db.unscanned && env.TakesEffect(Copy)
  }

  // A row of the upload downloads as the uploaded bytes exactly when every row was
  // written and the staged object was copied, reported or not. Otherwise it has no
  // object, or the one an unrecorded success left under the same number.
  lemma DownloadsExactly(db: Db, e: nat, up: Upload, env: Env, codec: Codec, i: nat)
    requires Lawful(codec) && Uploadable(db, codec, e, up) && Fits(db, up, env)
    requires |db.rows| <= i < |ProcessNew(db, e, up, env, codec).0.rows|
    ensures Download(ProcessNew(db, e, up, env, codec).0, i) ==
      var path := P.SnapPath(db.entries[e], Top(db.rows, e) + 1);
      if BytesArrive(db, e, up, env) then Some(db.unscanned[up.key])
      else if path in db.snaps then Some(db.snaps[path]) else None
  {
    hide RevisionModel.Finish, RevisionModel.WriteRows, RowsGo;
    var q, pairs := NextSequence(db, e, env), PairsOf(up, env);
    var d := ProcessNew(db, e, up, env, codec).0;
    ProcessNewEffect(db, e, up, env, codec);
    NextIsTop(db, e, env);
    assert NewRow(d, d.rows[i], e, q, up.sha);
    GoesOnExactly(db, e, up, q, pairs, |pairs|, env);
    WriteRowsExtends(db, e, up, q, pairs, |pairs|, env);
    var r := WriteRows(db, e, up, q, pairs, |pairs|, env);
    if r.Going? {
      FinishSnaps(db, r.db, r.last, e, q, up.key, env, codec);
    }
  }

  // ---- The end of the numbers ----

  predicate WellNumbered(d: Db) { RowsOk(d) && Dense(d) && OneToOne(d) }

  // An upload keeps the numbering exactly when its entry has room left or its
  // first row is not written: after 2^32 - 1 comes 0.
  lemma NumberingSurvivesExactly(db: Db, e: nat, up: Upload, env: Env, codec: Codec)
    requires Lawful(codec) && Inv(db, codec) && e < |db.entries| && db.entries[e] == up.name && !HasSha(db, e, up.sha)
    requires Fits(db, up, env)
    ensures WellNumbered(ProcessNew(db, e, up, env, codec).0)
      <==> HasRoom(db, e) || !FirstRowGoes(db, e, PairsOf(up, env), env)
  {
    NewRowsExactly(db, e, up, env, codec);
    if HasRoom(db, e) {
      ProcessNewEffect(db, e, up, env, codec);
    } else {
      NoRoomLeft(db, e, env);
      WrapsToZero(db, e, up, env, codec);
    }
  }

  lemma WrapsToZero(db: Db, e: nat, up: Upload, env: Env, codec: Codec)
    requires RowsOk(db) && Dense(db) && OneToOne(db) && e < |db.entries| && db.entries[e] == up.name
    requires Fits(db, up, env) && NextSequence(db, e, env) == 0
    ensures WellNumbered(ProcessNew(db, e, up, env, codec).0)
      <==> |ProcessNew(db, e, up, env, codec).0.rows| == |db.rows|
  {
    var pairs := PairsOf(up, env);
    WriteRowsExtends(db, e, up, 0, pairs, |pairs|, env);
    var r := WriteRows(db, e, up, 0, pairs, |pairs|, env);
    if r.Going? {
      FinishEffect(db, r.db, r.last, e, 0, up.key, env, codec);
      AfterWrap(db, r.db, Finish(db, r.db, r.last, e, 0, up.key, env, codec).0, e, up.sha);
    } else {
      AfterWrap(db, r.db, r.db, e, up.sha);
    }
  }

  lemma NoRoomLeft(db: Db, e: nat, env: Env)
    requires RowsOk(db) && !HasRoom(db, e) && (HasRows(db, e) ==> IsLatest(db, e, env.latest))
    ensures HasRows(db, e) && NextSequence(db, e, env) == 0
  {
    var i :| 0 <= i < |db.rows| && db.rows[i].entry == e && db.rows[i].sequence + 1 >= TWO_TO_32;
    assert RowOk(db, db.rows[i]) && RowOk(db, db.rows[env.latest]);
    assert db.rows[env.latest].sequence == TWO_TO_32 - 1;
  }

  lemma AfterWrap(db: Db, d: Db, d': Db, e: nat, sha: string)
    requires RowsOk(db) && Dense(db) && OneToOne(db) && Extends(db, d, e, 0, sha)
    requires d'.rows == d.rows && d'.entries == d.entries && d'.tracks == d.tracks && d'.channels == d.channels
    ensures WellNumbered(d') <==> |d'.rows| == |db.rows|
  {
    if |d'.rows| == |db.rows| {
      assert d.rows == db.rows;
      forall i | 0 <= i < |d.rows| ensures RowOk(d, d.rows[i]) {
        assert RowOk(db, db.rows[i]);
      }
      forall i, q | 0 <= i < |d.rows| && 1 <= q < d.rows[i].sequence ensures HasSequence(d, d.rows[i].entry, q) {
        HasSequenceKept(db, d, d.rows[i].entry, q);
      }
      SameRows(d, d');
    } else {
      assert NewRow(d, d.rows[|db.rows|], e, 0, sha);
      assert !RowOk(d', d'.rows[|db.rows|]);
    }
  }
}
