/**
 Whole histories of the revision store: numbering, stored bytes and deltas after
 any RPCs in any order, with any calls failing.
 */
module RevisionHistory {
  import opened Text
  import opened RevisionModel
  import opened RevisionInvariants
  import C = Channels
  import P = ObjectPaths

  // ---- One step ----

  // No entry has used the last uint32 number.
  predicate AllRoom(db: Db) { forall e :: 0 <= e < |db.entries| ==> HasRoom(db, e) }

  lemma QuietStep(db: Db, d: Db, codec: Codec)
    requires Inv(db, codec) && d == db.(unscanned := d.unscanned)
    ensures Inv(d, codec) && Frozen(db, d)
  {
    SameRows(db, d);
    DeltasKept(db, d, codec);
  }

  lemma {:induction false} DefaultsOnlyAddChannels(db: Db, track: nat, k: nat, env: Env)
    requires k <= |DEFAULT_CHANNELS|
    ensures var d := AddDefaults(db, track, k, env).0; d == db.(channels := d.channels) && db.channels <= d.channels
  {
    if k > 0 {
      DefaultsOnlyAddChannels(db, track, k - 1, env);
    }
  }

  // What registration may add.
  predicate Grown(db: Db, d: Db) {
    && d == db.(entries := d.entries, tracks := d.tracks, channels := d.channels)
    && db.entries <= d.entries && db.tracks <= d.tracks && db.channels <= d.channels
  }

  lemma RegisterGrows(db: Db, name: string, dryRun: bool, accountOk: bool, env: Env)
    requires NamesDistinct(db) && LatestTracksOnly(db)
    ensures var d := Register(db, name, dryRun, accountOk, env).0;
      Grown(db, d) && NamesDistinct(d) && LatestTracksOnly(d)
  {
    var d1 := db.(entries := db.entries + [name]);
    var d2 := d1.(tracks := d1.tracks + [Track(|db.entries|, "latest")]);
    DefaultsOnlyAddChannels(d2, |d1.tracks|, |DEFAULT_CHANNELS|, env);
  }

  lemma GrownKeeps(db: Db, d: Db, codec: Codec)
    requires Inv(db, codec) && Grown(db, d) && NamesDistinct(d) && LatestTracksOnly(d)
    ensures Inv(d, codec) && Frozen(db, d)
  {
    forall i | 0 <= i < |d.rows| ensures RowOk(d, d.rows[i]) {
      assert RowOk(db, db.rows[i]);
    }
    forall i, q | 0 <= i < |d.rows| && 1 <= q < d.rows[i].sequence ensures HasSequence(d, d.rows[i].entry, q) {
      HasSequenceKept(db, d, d.rows[i].entry, q);
    }
    DeltasKept(db, d, codec);
  }

  lemma EffectKeeps(db: Db, d: Db, e: nat, q: nat, sha: string, codec: Codec)
    requires Inv(db, codec) && Effect(db, d, e, q, sha, codec)
    ensures Inv(d, codec) && Frozen(db, d)
  {
  }

  // Either an upload got nowhere near the tables, or it had its whole effect on
  // one entry.
  lemma ProcessKeeps(db: Db, up: Upload, env: Env, codec: Codec)
    requires Lawful(codec) && Inv(db, codec) && AllRoom(db) && Fits(db, up, env)
    ensures var d := Process(db, up, env, codec).0; Inv(d, codec) && Frozen(db, d)
  {
    var entry := Find(db.entries, up.name);
    var d := Process(db, up, env, codec).0;
    if d == db.(unscanned := d.unscanned) {
      QuietStep(db, d, codec);
    } else {
      ProcessNewEffect(db, entry.value, up, env, codec);
      EffectKeeps(db, d, entry.value, NextSequence(db, entry.value, env), up.sha, codec);
    }
  }

  lemma FrozenTrans(a: Db, b: Db, c: Db)
    requires Frozen(a, b) && Frozen(b, c)
    ensures Frozen(a, c)
  {
    forall i | 0 <= i < |a.rows| ensures SameObject(a.snaps, c.snaps, a.rows[i].path) {
      assert SameObject(a.snaps, b.snaps, a.rows[i].path);
      assert SameObject(b.snaps, c.snaps, b.rows[i].path);
    }
  }

  lemma ApplyKeeps(db: Db, req: DeltaUpload, env: Env, codec: Codec, hash: Bytes -> string)
    requires Lawful(codec) && Inv(db, codec) && AllRoom(db) && RpcFits(db, ApplyUploadDelta(req), env)
    ensures var d := Step(db, ApplyUploadDelta(req), env, codec, hash).0; Inv(d, codec) && Frozen(db, d)
  {
    var r := Rebuild(db, req, env, codec, hash);
    QuietStep(db, r.db, codec);
    if r.Rebuilt? {
      SameRoom(db, r.db);
      var up := ResultUpload(req, r.sha);
      assert Fits(db, ResultUpload(req, ""), env);
      ProcessKeeps(r.db, up, env, codec);
      FrozenTrans(db, r.db, Process(r.db, up, env, codec).0);
    }
  }

  lemma SameRoom(db: Db, d: Db)
    requires AllRoom(db) && d == db.(unscanned := d.unscanned)
    ensures AllRoom(d)
  {
    forall e | 0 <= e < |d.entries| ensures HasRoom(d, e) {
      assert HasRoom(db, e);
    }
  }

  // Every RPC keeps the invariant and every stored object, whatever fails.
  lemma StepKeeps(db: Db, rpc: Rpc, env: Env, codec: Codec, hash: Bytes -> string)
    requires Lawful(codec) && Inv(db, codec) && AllRoom(db) && RpcFits(db, rpc, env)
    ensures var d := Step(db, rpc, env, codec, hash).0; Inv(d, codec) && Frozen(db, d)
  {
    match rpc
    case RegisterSnapName(name, dryRun, accountOk) =>
      RegisterGrows(db, name, dryRun, accountOk, env);
      GrownKeeps(db, Register(db, name, dryRun, accountOk, env).0, codec);
    case PutUnscanned(key, bytes) =>
      QuietStep(db, db.(unscanned := db.unscanned[key := bytes]), codec);
    case AddRevision(up) =>
      QuietStep(db, db, codec);
      ProcessKeeps(db, up, env, codec);
    case ApplyUploadDelta(req) =>
      ApplyKeeps(db, req, env, codec, hash);
  }

  // ---- Histories ----

  datatype Event = Event(rpc: Rpc, env: Env)

  function After(db: Db, ev: Event, codec: Codec, hash: Bytes -> string): Db
    requires RpcFits(db, ev.rpc, ev.env)
  {
    Step(db, ev.rpc, ev.env, codec, hash).0
  }

  ghost predicate IsHistory(states: seq<Db>, events: seq<Event>, codec: Codec, hash: Bytes -> string) {
    && |states| == |events| + 1 && states[0] == EMPTY
    && forall k :: 0 <= k < |events| ==>
      RpcFits(states[k], events[k].rpc, events[k].env) && states[k + 1] == After(states[k], events[k], codec, hash)
  }

  // A history in a lawful setting that never met the end of the numbers.
  ghost predicate Good(states: seq<Db>, events: seq<Event>, codec: Codec, hash: Bytes -> string) {
    Lawful(codec) && IsHistory(states, events, codec, hash) && forall k :: 0 <= k < |events| ==> AllRoom(states[k])
  }

  lemma {:induction false} HistoryKeeps(states: seq<Db>, events: seq<Event>, codec: Codec, hash: Bytes -> string,
      k: nat)
    requires Good(states, events, codec, hash) && k < |states|
    ensures Inv(states[k], codec)
  {
    if k > 0 {
      HistoryKeeps(states, events, codec, hash, k - 1);
      StepKeeps(states[k - 1], events[k - 1].rpc, events[k - 1].env, codec, hash);
      assert states[k - 1 + 1] == After(states[k - 1], events[k - 1], codec, hash);
    }
  }

  lemma HistoryStep(states: seq<Db>, events: seq<Event>, codec: Codec, hash: Bytes -> string, k: nat)
    requires Good(states, events, codec, hash) && k < |events|
    ensures Frozen(states[k], states[k + 1])
  {
    HistoryKeeps(states, events, codec, hash, k);
    StepKeeps(states[k], events[k].rpc, events[k].env, codec, hash);
  }

  lemma FrozenSelf(db: Db)
    ensures Frozen(db, db)
  {
  }

  lemma OneStateMore(states: seq<Db>, events: seq<Event>, codec: Codec, hash: Bytes -> string)
    requires Good(states, events, codec, hash)
    ensures |states| == |events| + 1
  {
  }

  // Once a row exists its object never changes again.
  lemma {:induction false} FrozenForever(
      states: seq<Db>, events: seq<Event>, codec: Codec, hash: Bytes -> string, j: nat, k: nat)
    requires Good(states, events, codec, hash) && j <= k < |states|
    ensures Frozen(states[j], states[k])
  {
    hide Frozen, Good;
    OneStateMore(states, events, codec, hash);
    if j == k {
      FrozenSelf(states[j]);
    } else {
      FrozenForever(states, events, codec, hash, j, k - 1);
      HistoryStep(states, events, codec, hash, k - 1);
      FrozenTrans(states[j], states[k - 1], states[k]);
    }
  }

  // ---- Numbering ----

  predicate Numbered(db: Db, e: nat, n: nat) {
    && (forall i :: 0 <= i < |db.rows| && db.rows[i].entry == e ==> 1 <= db.rows[i].sequence <= n)
    && (forall q :: 1 <= q <= n ==> HasSequence(db, e, q))
  }

  function Top(rows: seq<Row>, e: nat): nat {
    if rows == [] then 0
    else
      var r, t := rows[|rows| - 1], Top(rows[..|rows| - 1], e);
      if r.entry == e && r.sequence > t then r.sequence else t
  }

  lemma {:induction false} TopIsMaximum(rows: seq<Row>, e: nat)
    ensures forall i :: 0 <= i < |rows| && rows[i].entry == e ==> rows[i].sequence <= Top(rows, e)
    ensures Top(rows, e) > 0 ==> exists i :: 0 <= i < |rows| && rows[i].entry == e && rows[i].sequence == Top(rows, e)
  {
    if rows != [] {
      var rest := rows[..|rows| - 1];
      TopIsMaximum(rest, e);
      if Top(rest, e) > 0 {
        var i :| 0 <= i < |rest| && rest[i].entry == e && rest[i].sequence == Top(rest, e);
        assert rows[i] == rest[i];
      }
      assert rows == rest + [rows[|rows| - 1]];
    }
  }

  lemma NumberedWhenOk(db: Db, e: nat)
    requires RowsOk(db) && Dense(db)
    ensures Numbered(db, e, Top(db.rows, e))
  {
    var n := Top(db.rows, e);
    TopIsMaximum(db.rows, e);
    forall i | 0 <= i < |db.rows| ensures 1 <= db.rows[i].sequence {
      assert RowOk(db, db.rows[i]);
    }
    if n > 0 {
      var i :| 0 <= i < |db.rows| && db.rows[i].entry == e && db.rows[i].sequence == n;
      assert HasSequence(db, e, n);
    }
  }

  // After any history the numbers of an entry are 1 to n, and two rows share a
  // number exactly when they share a digest.
  lemma NumbersAndDigestsMatch(states: seq<Db>, events: seq<Event>, codec: Codec, hash: Bytes -> string, k: nat, e: nat)
    requires Good(states, events, codec, hash) && k < |states|
    ensures Numbered(states[k], e, Top(states[k].rows, e)) && OneToOne(states[k])
  {
    HistoryKeeps(states, events, codec, hash, k);
    NumberedWhenOk(states[k], e);
  }

  // ---- How long the numbers last ----

  predicate AtMost(db: Db, n: nat) { forall i :: 0 <= i < |db.rows| ==> db.rows[i].sequence <= n }

  lemma ProcessCountsByOne(db: Db, up: Upload, env: Env, codec: Codec, n: nat)
    requires Lawful(codec) && Inv(db, codec) && AllRoom(db) && Fits(db, up, env) && AtMost(db, n)
    ensures AtMost(Process(db, up, env, codec).0, n + 1)
  {
    var entry := Find(db.entries, up.name);
    var d := Process(db, up, env, codec).0;
    if d != db.(unscanned := d.unscanned) {
      var e := entry.value;
      var q := NextSequence(db, e, env);
      ProcessNewEffect(db, e, up, env, codec);
      NextIsFresh(db, e, env);
      forall i | 0 <= i < |d.rows| ensures d.rows[i].sequence <= n + 1 {
        if i >= |db.rows| {
          assert NewRow(d, d.rows[i], e, q, up.sha);
        }
      }
    }
  }

  lemma StepCountsByOne(db: Db, rpc: Rpc, env: Env, codec: Codec, hash: Bytes -> string, n: nat)
    requires Lawful(codec) && Inv(db, codec) && AllRoom(db) && RpcFits(db, rpc, env) && AtMost(db, n)
    ensures AtMost(Step(db, rpc, env, codec, hash).0, n + 1)
  {
    match rpc
    case RegisterSnapName(name, dryRun, accountOk) =>
      RegisterGrows(db, name, dryRun, accountOk, env);
    case PutUnscanned(key, bytes) =>
    case AddRevision(up) =>
      ProcessCountsByOne(db, up, env, codec, n);
    case ApplyUploadDelta(req) =>
      var r := Rebuild(db, req, env, codec, hash);
      if r.Rebuilt? {
        QuietStep(db, r.db, codec);
        SameRoom(db, r.db);
        assert Fits(db, ResultUpload(req, ""), env);
        ProcessCountsByOne(r.db, ResultUpload(req, r.sha), env, codec, n);
      }
  }

  // A history of fewer than 2^32 - 1 RPCs cannot run out of numbers.
  lemma {:induction false} ShortHistoriesAreGood(
      states: seq<Db>, events: seq<Event>, codec: Codec, hash: Bytes -> string, k: nat)
    requires Lawful(codec) && IsHistory(states, events, codec, hash) && k <= |events| < TWO_TO_32 - 1
    ensures Inv(states[k], codec) && AtMost(states[k], k) && AllRoom(states[k])
  {
    if k > 0 {
      ShortHistoriesAreGood(states, events, codec, hash, k - 1);
      StepKeeps(states[k - 1], events[k - 1].rpc, events[k - 1].env, codec, hash);
      StepCountsByOne(states[k - 1], events[k - 1].rpc, events[k - 1].env, codec, hash, k - 1);
      assert states[k - 1 + 1] == After(states[k - 1], events[k - 1], codec, hash);
    }
  }
}
