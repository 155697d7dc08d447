/**
 What every RPC of the revision store keeps, whichever of its calls fail.
 */
module RevisionInvariants {
  import opened Text
  import opened RevisionModel
  import C = Channels
  import P = ObjectPaths

  // ---- The invariant ----

  predicate NamesDistinct(db: Db) {
    forall i, j :: 0 <= i < j < |db.entries| ==> db.entries[i] != db.entries[j]
  }

  // AddTrack is only ever called for "latest".
  predicate LatestTracksOnly(db: Db) {
    forall i :: 0 <= i < |db.tracks| ==> db.tracks[i].entry < |db.entries| && db.tracks[i].name == "latest"
  }

  predicate RowOk(db: Db, r: Row) {
    && r.entry < |db.entries| && r.snapName == db.entries[r.entry]
    && 1 <= r.sequence < TWO_TO_32
    && r.path == P.SnapPath(r.snapName, r.sequence)
    && r.track < |db.tracks| && db.tracks[r.track].entry == r.entry
    && r.channel < |db.channels| && db.channels[r.channel].track == r.track
  }

  predicate RowsOk(db: Db) { forall i :: 0 <= i < |db.rows| ==> RowOk(db, db.rows[i]) }

  // No number below a used one is missing.
  predicate Dense(db: Db) {
    forall i, q :: 0 <= i < |db.rows| && 1 <= q < db.rows[i].sequence ==> HasSequence(db, db.rows[i].entry, q)
  }

  // Within an entry, numbers and digests determine each other.
  predicate OneToOne(db: Db) {
    forall i, j :: 0 <= i < |db.rows| && 0 <= j < |db.rows| && db.rows[i].entry == db.rows[j].entry
      ==> (db.rows[i].sequence == db.rows[j].sequence <==> db.rows[i].sha == db.rows[j].sha)
  }

  // The delta joins one revision to the next and its object does what it says.
  predicate DeltaOk(db: Db, d: Delta, codec: Codec) {
    && d.source < |db.rows| && d.target < |db.rows| && d.format == "xdelta3"
    && var s, t := db.rows[d.source], db.rows[d.target];
    && s.entry == t.entry && t.sequence == s.sequence + 1
    && d.path == P.DeltaPath("xdelta3", s.snapName, s.sequence, t.sequence)
    && d.path in db.deltaObjects && s.path in db.snaps && t.path in db.snaps
    && codec.patch(db.snaps[s.path], db.deltaObjects[d.path]) == db.snaps[t.path]
  }

  predicate DeltasOk(db: Db, codec: Codec) {
    forall i :: 0 <= i < |db.deltas| ==> DeltaOk(db, db.deltas[i], codec)
  }

  predicate Inv(db: Db, codec: Codec) {
    NamesDistinct(db) && LatestTracksOnly(db) && RowsOk(db) && Dense(db) && OneToOne(db) && DeltasOk(db, codec)
  }

  // ---- Objects ----

  predicate SameObject(a: Bucket, b: Bucket, path: string) {
    (path in a <==> path in b) && (path in a ==> a[path] == b[path])
  }

  // No row's object is touched.
  predicate Frozen(db: Db, d: Db) {
    && db.rows <= d.rows
    && forall i :: 0 <= i < |db.rows| ==> SameObject(db.snaps, d.snaps, db.rows[i].path)
  }

  ghost predicate SameElsewhere(a: Bucket, b: Bucket, path: string) {
    forall p :: p != path ==> SameObject(a, b, p)
  }

  // ---- Writing the channel rows ----

  predicate NewRow(d: Db, r: Row, e: nat, q: nat, sha: string) {
    && e < |d.entries| && r.entry == e && r.sequence == q && r.sha == sha
    && r.snapName == d.entries[e] && r.path == P.SnapPath(d.entries[e], q)
    && r.track < |d.tracks| && d.tracks[r.track].entry == e
    && r.channel < |d.channels| && d.channels[r.channel].track == r.track
  }

  // `d` is `db` with more channels and with more rows of one revision.
  predicate Extends(db: Db, d: Db, e: nat, q: nat, sha: string) {
    && d == db.(channels := d.channels, rows := d.rows)
    && db.channels <= d.channels && db.rows <= d.rows
    && forall i :: |db.rows| <= i < |d.rows| ==> NewRow(d, d.rows[i], e, q, sha)
  }

  // Row i is for the track and channel asked for.
  predicate IsFor(d: Db, i: nat, p: C.Target) {
    && i < |d.rows| && d.rows[i].track < |d.tracks| && d.rows[i].channel < |d.channels|
    && d.tracks[d.rows[i].track].name == p.track && d.channels[d.rows[i].channel].name == p.channel
  }

  lemma WriteOneExtends(db: Db, e: nat, up: Upload, q: nat, j: nat, p: C.Target, env: Env)
    requires e < |db.entries| && db.entries[e] == up.name
    ensures Wrote(db, WriteOne(db, e, up, q, j, p, env), e, q, up.sha, [p], 1)
  {
  }

  lemma ExtendsTrans(a: Db, b: Db, c: Db, e: nat, q: nat, sha: string)
    requires Extends(a, b, e, q, sha) && Extends(b, c, e, q, sha)
    ensures Extends(a, c, e, q, sha)
  {
    forall i | |a.rows| <= i < |c.rows| ensures NewRow(c, c.rows[i], e, q, sha) {
      if i < |b.rows| {
        assert NewRow(b, b.rows[i], e, q, sha);
      }
    }
  }

  // Rows base .. base + n are for the first n pairs.
  predicate AreFor(d: Db, base: nat, pairs: seq<C.Target>, n: nat)
    requires n <= |pairs|
  {
    |d.rows| == base + n && forall j :: 0 <= j < n ==> IsFor(d, base + j, pairs[j])
  }

  // What the first n writes leave. Without a failure there is one row for each
  // pair, in order; a failure may leave any part of them.
  predicate Wrote(db: Db, r: Progress, e: nat, q: nat, sha: string, pairs: seq<C.Target>, n: nat)
    requires n <= |pairs|
  {
    && Extends(db, r.db, e, q, sha)
    && (r.Going? ==> AreFor(r.db, |db.rows|, pairs, n) && r.last == if n == 0 then None else Some(|r.db.rows| - 1))
  }

  lemma OneMoreRow(d: Db, d': Db, e: nat, q: nat, sha: string, base: nat, pairs: seq<C.Target>, n: nat)
    requires 1 <= n <= |pairs| && AreFor(d, base, pairs, n - 1) && Extends(d, d', e, q, sha)
    requires |d'.rows| == |d.rows| + 1 && IsFor(d', |d.rows|, pairs[n - 1])
    ensures AreFor(d', base, pairs, n)
  {
    forall j | 0 <= j < n ensures IsFor(d', base + j, pairs[j]) {
      if j < n - 1 {
        assert IsFor(d, base + j, pairs[j]);
      }
    }
  }

  lemma OneMoreWrite(db: Db, r: Progress, r': Progress, e: nat, q: nat, sha: string, pairs: seq<C.Target>, n: nat)
    requires 1 <= n <= |pairs| && r.Going? && Wrote(db, r, e, q, sha, pairs, n - 1)
    requires Wrote(r.db, r', e, q, sha, [pairs[n - 1]], 1)
    ensures Wrote(db, r', e, q, sha, pairs, n)
  {
    ExtendsTrans(db, r.db, r'.db, e, q, sha);
    if r'.Going? {
      assert IsFor(r'.db, |r.db.rows| + 0, [pairs[n - 1]][0]);
      OneMoreRow(r.db, r'.db, e, q, sha, |db.rows|, pairs, n);
    }
  }

  lemma {:induction false} WriteRowsExtends(db: Db, e: nat, up: Upload, q: nat, pairs: seq<C.Target>, n: nat, env: Env)
    requires e < |db.entries| && db.entries[e] == up.name && n <= |pairs|
    ensures Wrote(db, WriteRows(db, e, up, q, pairs, n, env), e, q, up.sha, pairs, n)
  {
    hide RevisionModel.WriteOne;
    if n > 0 {
      WriteRowsExtends(db, e, up, q, pairs, n - 1, env);
      var r := WriteRows(db, e, up, q, pairs, n - 1, env);
      if r.Going? {
        WriteOneExtends(r.db, e, up, q, n - 1, pairs[n - 1], env);
        OneMoreWrite(db, r, WriteOne(r.db, e, up, q, n - 1, pairs[n - 1], env), e, q, up.sha, pairs, n);
      }
    }
  }

  // ---- The number of an upload ----

  predicate IsNext(db: Db, e: nat, q: nat) {
    && 1 <= q < TWO_TO_32
    && (forall i :: 0 <= i < |db.rows| && db.rows[i].entry == e ==> db.rows[i].sequence < q)
    && (forall p :: 1 <= p < q ==> HasSequence(db, e, p))
  }

  // Entry e has not used the last uint32 number.
  predicate HasRoom(db: Db, e: nat) {
    forall i :: 0 <= i < |db.rows| && db.rows[i].entry == e ==> db.rows[i].sequence + 1 < TWO_TO_32
  }

  lemma NextIsFresh(db: Db, e: nat, env: Env)
    requires RowsOk(db) && Dense(db) && HasRoom(db, e)
    requires HasRows(db, e) ==> IsLatest(db, e, env.latest)
    ensures IsNext(db, e, NextSequence(db, e, env))
    ensures HasRows(db, e) ==> NextSequence(db, e, env) == db.rows[env.latest].sequence + 1
  {
    if HasRows(db, e) {
      var q := NextSequence(db, e, env);
      assert RowOk(db, db.rows[env.latest]);
      assert q == db.rows[env.latest].sequence + 1;
      forall p | 1 <= p < q ensures HasSequence(db, e, p) {
        if p == db.rows[env.latest].sequence {
          assert HasSequence(db, e, p);
        }
      }
    }
  }

  lemma HasSequenceKept(db: Db, d: Db, e: nat, q: nat)
    requires db.rows <= d.rows && HasSequence(db, e, q)
    ensures HasSequence(d, e, q)
  {
    var i :| 0 <= i < |db.rows| && db.rows[i].entry == e && db.rows[i].sequence == q;
    assert d.rows[i] == db.rows[i];
  }

  lemma RowsStayOk(db: Db, d: Db, e: nat, q: nat, sha: string)
    requires RowsOk(db) && Extends(db, d, e, q, sha) && 1 <= q < TWO_TO_32
    ensures RowsOk(d)
  {
    forall i | 0 <= i < |d.rows| ensures RowOk(d, d.rows[i]) {
      if i < |db.rows| {
        assert RowOk(db, db.rows[i]);
      } else {
        assert NewRow(d, d.rows[i], e, q, sha);
      }
    }
  }

  lemma StaysDense(db: Db, d: Db, e: nat, q: nat, sha: string)
    requires Dense(db) && Extends(db, d, e, q, sha) && IsNext(db, e, q)
    ensures Dense(d)
  {
    forall i, p | 0 <= i < |d.rows| && 1 <= p < d.rows[i].sequence ensures HasSequence(d, d.rows[i].entry, p) {
      if i < |db.rows| {
        assert d.rows[i] == db.rows[i];
      } else {
        assert NewRow(d, d.rows[i], e, q, sha);
      }
      HasSequenceKept(db, d, d.rows[i].entry, p);
    }
  }

  lemma StaysOneToOne(db: Db, d: Db, e: nat, q: nat, sha: string)
    requires OneToOne(db) && Extends(db, d, e, q, sha) && IsNext(db, e, q) && !HasSha(db, e, sha)
    ensures OneToOne(d)
  {
    forall i, j | 0 <= i < |d.rows| && 0 <= j < |d.rows| && d.rows[i].entry == d.rows[j].entry
      ensures d.rows[i].sequence == d.rows[j].sequence <==> d.rows[i].sha == d.rows[j].sha
    {
      OldOrNew(db, d, e, q, sha, i);
      OldOrNew(db, d, e, q, sha, j);
    }
  }

  // An old row of the entry has neither the new number nor the new digest.
  lemma OldOrNew(db: Db, d: Db, e: nat, q: nat, sha: string, i: nat)
    requires Extends(db, d, e, q, sha) && IsNext(db, e, q) && !HasSha(db, e, sha) && i < |d.rows|
    ensures if i < |db.rows| then d.rows[i] == db.rows[i] &&
                  (d.rows[i].entry == e ==> d.rows[i].sequence != q && d.rows[i].sha != sha)
            else d.rows[i].entry == e && d.rows[i].sequence == q && d.rows[i].sha == sha
  {
    if i >= |db.rows| {
      assert NewRow(d, d.rows[i], e, q, sha);
    }
  }

  // ---- Objects and deltas ----

  // The path of a fresh number is the path of no row.
  lemma FreshPath(db: Db, e: nat, q: nat, i: nat)
    requires NamesDistinct(db) && RowsOk(db) && IsNext(db, e, q) && e < |db.entries| && i < |db.rows|
    ensures db.rows[i].path != P.SnapPath(db.entries[e], q)
  {
    var r := db.rows[i];
    assert RowOk(db, r);
    assert r.snapName == db.entries[e] ==> r.entry == e;
    if r.path == P.SnapPath(db.entries[e], q) {
      P.SnapPathInjective(r.snapName, r.sequence, db.entries[e], q);
    }
  }

  lemma StaysFrozen(db: Db, d: Db, e: nat, q: nat)
    requires NamesDistinct(db) && RowsOk(db) && IsNext(db, e, q) && e < |db.entries|
    requires db.rows <= d.rows && SameElsewhere(db.snaps, d.snaps, P.SnapPath(db.entries[e], q))
    ensures Frozen(db, d)
  {
    forall i | 0 <= i < |db.rows| ensures SameObject(db.snaps, d.snaps, db.rows[i].path) {
      FreshPath(db, e, q, i);
    }
  }

  lemma MoveEffect(d: Db, key: string, path: string, env: Env)
    ensures var (d1, ok) := MoveObject(d, key, path, env);
      && d1 == d.(unscanned := d1.unscanned, snaps := d1.snaps)
      && SameElsewhere(d.snaps, d1.snaps, path)
      && (ok ==> key in d.unscanned && path in d1.snaps && d1.snaps[path] == d.unscanned[key])
  {
  }

  lemma DeltaKept(db: Db, d: Db, x: Delta, codec: Codec)
    requires DeltaOk(db, x, codec) && Frozen(db, d) && SameObject(db.deltaObjects, d.deltaObjects, x.path)
    ensures DeltaOk(d, x, codec)
  {
    assert SameObject(db.snaps, d.snaps, db.rows[x.source].path);
    assert SameObject(db.snaps, d.snaps, db.rows[x.target].path);
  }

  lemma DeltasKept(db: Db, d: Db, codec: Codec)
    requires DeltasOk(db, codec) && Frozen(db, d) && d.deltas == db.deltas && d.deltaObjects == db.deltaObjects
    ensures DeltasOk(d, codec)
  {
    forall i | 0 <= i < |d.deltas| ensures DeltaOk(d, d.deltas[i], codec) {
      assert DeltaOk(db, db.deltas[i], codec);
      DeltaKept(db, d, db.deltas[i], codec);
    }
  }

  // A delta to a fresh number has a path of its own.
  lemma FreshDeltaPath(db: Db, e: nat, q: nat, s: nat, x: Delta, codec: Codec)
    requires NamesDistinct(db) && RowsOk(db) && IsNext(db, e, q) && e < |db.entries| && DeltaOk(db, x, codec)
    ensures x.path != P.DeltaPath("xdelta3", db.entries[e], s, q)
  {
    var r, t := db.rows[x.source], db.rows[x.target];
    assert RowOk(db, r) && RowOk(db, t);
    assert r.snapName == db.entries[e] ==> t.entry == e;
    if x.path == P.DeltaPath("xdelta3", db.entries[e], s, q) {
      P.DeltaPathInjective("xdelta3", r.snapName, r.sequence, t.sequence, "xdelta3", db.entries[e], s, q);
    }
  }

  // The delta of an upload is stored beside the others, and it is right.
  lemma StoreDeltaKeeps(db: Db, d: Db, e: nat, q: nat, s: nat, t: nat, env: Env, codec: Codec)
    requires Lawful(codec) && NamesDistinct(db) && RowsOk(db) && IsNext(db, e, q)
        && e < |db.entries| && DeltasOk(db, codec)
    requires Frozen(db, d) && d.deltas == db.deltas && d.deltaObjects == db.deltaObjects
    requires s < |db.rows| && db.rows[s].entry == e && q == db.rows[s].sequence + 1
    requires t < |d.rows| && d.rows[t].entry == e && d.rows[t].sequence == q
    ensures var d2 := StoreDelta(d, s, t, env, codec);
      d2 == d.(deltas := d2.deltas, deltaObjects := d2.deltaObjects) && DeltasOk(d2, codec)
  {
    var d2 := StoreDelta(d, s, t, env, codec);
    assert d.rows[s] == db.rows[s] && RowOk(db, db.rows[s]);
    var path := P.DeltaPath("xdelta3", db.entries[e], db.rows[s].sequence, q);
    assert SameElsewhere(d.deltaObjects, d2.deltaObjects, path);
    forall i | 0 <= i < |d2.deltas| ensures DeltaOk(d2, d2.deltas[i], codec) {
      if i < |db.deltas| {
        var x := db.deltas[i];
        assert DeltaOk(db, x, codec);
        FreshDeltaPath(db, e, q, db.rows[s].sequence, x, codec);
        DeltaKept(db, d2, x, codec);
      }
    }
  }

  // ---- One upload ----

  // The whole effect of an upload that got past its checks.
  ghost predicate Effect(db: Db, d: Db, e: nat, q: nat, sha: string, codec: Codec) {
    && d.entries == db.entries && d.tracks == db.tracks
    && e < |db.entries| && Frozen(db, d) && RowsOk(d) && Dense(d) && OneToOne(d) && DeltasOk(d, codec)
    && forall i :: |db.rows| <= i < |d.rows| ==> NewRow(d, d.rows[i], e, q, sha)
  }

  predicate Uploadable(db: Db, codec: Codec, e: nat, up: Upload) {
    Inv(db, codec) && e < |db.entries| && db.entries[e] == up.name && !HasSha(db, e, up.sha) && HasRoom(db, e)
  }

  lemma AfterRows(db: Db, e: nat, up: Upload, env: Env, codec: Codec)
    requires Uploadable(db, codec, e, up) && Fits(db, up, env)
    ensures var q, pairs := NextSequence(db, e, env), PairsOf(up, env);
      var r := WriteRows(db, e, up, q, pairs, |pairs|, env);
      && IsNext(db, e, q) && Wrote(db, r, e, q, up.sha, pairs, |pairs|)
      && (HasRows(db, e) ==> q == db.rows[env.latest].sequence + 1)
      && Effect(db, r.db, e, q, up.sha, codec)
  {
    var q, pairs := NextSequence(db, e, env), PairsOf(up, env);
    var d := WriteRows(db, e, up, q, pairs, |pairs|, env).db;
    NextIsFresh(db, e, env);
    WriteRowsExtends(db, e, up, q, pairs, |pairs|, env);
    RowsStayOk(db, d, e, q, up.sha);
    StaysDense(db, d, e, q, up.sha);
    StaysOneToOne(db, d, e, q, up.sha);
    DeltasKept(db, d, codec);
  }

  lemma AfterMove(db: Db, d: Db, e: nat, q: nat, up: Upload, env: Env, codec: Codec)
    requires Uploadable(db, codec, e, up) && IsNext(db, e, q)
    requires Extends(db, d, e, q, up.sha) && Effect(db, d, e, q, up.sha, codec)
    ensures var (d1, _) := MoveObject(d, up.key, P.SnapPath(db.entries[e], q), env);
      Effect(db, d1, e, q, up.sha, codec) && d1.deltas == db.deltas && d1.deltaObjects == db.deltaObjects
  {
    var path := P.SnapPath(db.entries[e], q);
    var (d1, _) := MoveObject(d, up.key, path, env);
    MoveEffect(d, up.key, path, env);
    StaysFrozen(db, d1, e, q);
    DeltasKept(db, d1, codec);
    SameRows(d, d1);
    forall i | |db.rows| <= i < |d1.rows| ensures NewRow(d1, d1.rows[i], e, q, up.sha) {
      assert NewRow(d, d.rows[i], e, q, up.sha);
    }
  }

  // Changing objects only leaves the rows as good as they were.
  lemma SameRows(d: Db, d': Db)
    requires RowsOk(d) && Dense(d) && OneToOne(d)
    requires d'.rows == d.rows && d'.entries == d.entries && d'.tracks == d.tracks && d'.channels == d.channels
    ensures RowsOk(d') && Dense(d') && OneToOne(d')
  {
    forall i | 0 <= i < |d'.rows| ensures RowOk(d', d'.rows[i]) {
      assert RowOk(d, d.rows[i]);
    }
    forall i, q | 0 <= i < |d'.rows| && 1 <= q < d'.rows[i].sequence ensures HasSequence(d', d'.rows[i].entry, q) {
      HasSequenceKept(d, d', d.rows[i].entry, q);
    }
  }

  // Whatever fails, an upload keeps the numbering, every object of an older row
  // and every delta.
  lemma ProcessNewEffect(db: Db, e: nat, up: Upload, env: Env, codec: Codec)
    requires Lawful(codec) && Uploadable(db, codec, e, up) && Fits(db, up, env)
    ensures Effect(db, ProcessNew(db, e, up, env, codec).0, e, NextSequence(db, e, env), up.sha, codec)
  {
    var q, pairs := NextSequence(db, e, env), PairsOf(up, env);
    AfterRows(db, e, up, env, codec);
    var r := WriteRows(db, e, up, q, pairs, |pairs|, env);
    if r.Going? {
      AfterMove(db, r.db, e, q, up, env, codec);
      var (d1, ok) := MoveObject(r.db, up.key, P.SnapPath(db.entries[e], q), env);
      if ok && HasRows(db, e) && r.last.Some? {
        DeltaEffect(db, d1, e, q, up.sha, env, r.last.value, codec);
      }
    }
  }

  lemma DeltaEffect(db: Db, d: Db, e: nat, q: nat, sha: string, env: Env, last: nat, codec: Codec)
    requires Lawful(codec) && NamesDistinct(db) && RowsOk(db) && DeltasOk(db, codec) && IsNext(db, e, q)
    requires Effect(db, d, e, q, sha, codec) && d.deltas == db.deltas && d.deltaObjects == db.deltaObjects
    requires IsLatest(db, e, env.latest) && q == db.rows[env.latest].sequence + 1
    requires |db.rows| <= last < |d.rows|
    ensures Effect(db, StoreDelta(d, env.latest, last, env, codec), e, q, sha, codec)
  {
    assert NewRow(d, d.rows[last], e, q, sha);
    StoreDeltaKeeps(db, d, e, q, env.latest, last, env, codec);
    var d2 := StoreDelta(d, env.latest, last, env, codec);
    SameRows(d, d2);
    forall i | |db.rows| <= i < |d2.rows| ensures NewRow(d2, d2.rows[i], e, q, sha) {
      assert NewRow(d, d.rows[i], e, q, sha);
    }
  }
}
