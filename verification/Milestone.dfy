/**
 The 90-day milestone a cohort is pinned to, in nanoseconds. `time.Since`
 saturates at the int64 range and the quotient truncates toward zero.
 */
module Milestone {

  const MAX_INT64: int := 0x7fff_ffff_ffff_ffff
  const MIN_INT64: int := -0x8000_0000_0000_0000
  const NINETY_DAYS: int := 90 * 24 * 3_600_000_000_000

  // Windows that fit in the int64 range of a duration.
  const MOST_WINDOWS: int := 1186

  function Since(origin: int, now: int): int {
    if now - origin > MAX_INT64 then MAX_INT64
    else if now - origin < MIN_INT64 then MIN_INT64
    else now - origin
  }

  function Windows(origin: int, now: int): int {
    var elapsed := Since(origin, now);
    if elapsed >= 0 then elapsed / NINETY_DAYS else -((-elapsed) / NINETY_DAYS)
  }

  function MostRecent(origin: int, now: int): int { origin + Windows(origin, now) * NINETY_DAYS }

  predicate InWindow(r: int, now: int) { r <= now < r + NINETY_DAYS }

  lemma ProductNeverOverflows(origin: int, now: int)
    ensures -MOST_WINDOWS <= Windows(origin, now) <= MOST_WINDOWS
    ensures MIN_INT64 <= Windows(origin, now) * NINETY_DAYS <= MAX_INT64
  {
  }

  // The milestone starts the window `now` is in exactly when the key is not
  // from the future (whole windows ahead apart) and less than 1187 windows old.
  lemma WindowExactly(origin: int, now: int)
    ensures InWindow(MostRecent(origin, now), now) <==>
      || (origin <= now && now - origin < (MOST_WINDOWS + 1) * NINETY_DAYS)
      || (now < origin <= now - MIN_INT64 && (origin - now) % NINETY_DAYS == 0)
  {
    if now < origin <= now - MIN_INT64 {
      var e := origin - now;
      assert e == e / NINETY_DAYS * NINETY_DAYS + e % NINETY_DAYS;
    }
  }

  // A key that claims to come from an hour ahead is pinned to its own future.
  lemma FutureKeyMissesWindow()
    ensures !InWindow(MostRecent(3_600_000_000_000, 0), 0)
    ensures MostRecent(3_600_000_000_000, 0) > 0
  {
  }

  // Windows are ninety days of 86400 seconds, in nanoseconds, from the origin on.
  lemma WindowsTurnOver(origin: int, k: int)
    requires 0 < k <= MOST_WINDOWS
    ensures MostRecent(origin, origin + k * 7_776_000_000_000_000) == origin + k * 7_776_000_000_000_000
    ensures MostRecent(origin, origin + k * 7_776_000_000_000_000 - 1) == origin + (k - 1) * 7_776_000_000_000_000
    ensures MOST_WINDOWS == 9_223_372_036_854_775_807 / 7_776_000_000_000_000
  {
  }

  // No other multiple of the window length does.
  lemma MilestoneIsUnique(origin: int, now: int, k: int)
    requires InWindow(MostRecent(origin, now), now)
    ensures InWindow(origin + k * NINETY_DAYS, now) <==> origin + k * NINETY_DAYS == MostRecent(origin, now)
  {
    var w := Windows(origin, now);
    if k < w {
      assert k * NINETY_DAYS <= (w - 1) * NINETY_DAYS;
    } else if k > w {
      assert k * NINETY_DAYS >= (w + 1) * NINETY_DAYS;
    }
  }

  lemma Monotone(origin: int, now: int, later: int)
    requires now <= later
    ensures MostRecent(origin, now) <= MostRecent(origin, later)
  {
  }

  lemma ConstantInWindow(origin: int, now: int, later: int)
    requires InWindow(MostRecent(origin, now), now) && InWindow(MostRecent(origin, now), later)
    requires origin <= now && origin <= later
    ensures MostRecent(origin, later) == MostRecent(origin, now)
  {
    var w := Windows(origin, now);
    assert later - origin < (MOST_WINDOWS + 1) * NINETY_DAYS;
    WindowExactly(origin, later);
    MilestoneIsUnique(origin, later, w);
  }

  // Taking the milestone of a milestone changes nothing.
  lemma Idempotent(origin: int, now: int)
    requires MIN_INT64 <= now - origin <= MAX_INT64
    ensures MostRecent(MostRecent(origin, now), now) == MostRecent(origin, now)
  {
    var e := now - origin;
    var w := Windows(origin, now);
    if e >= 0 {
      assert e == w * NINETY_DAYS + e % NINETY_DAYS;
    } else {
      assert -e == -w * NINETY_DAYS + (-e) % NINETY_DAYS;
    }
  }

  // ---- What a refresh with a cohort key selects ----

  datatype Revision = Revision(entry: nat, created: int)

  // Row i may be returned for "latest revision of the entry before `date`".
  predicate LatestBefore(rows: seq<Revision>, entry: nat, date: int, i: nat) {
    && i < |rows| && rows[i].entry == entry && rows[i].created < date
    && forall j :: 0 <= j < |rows| && rows[j].entry == entry && rows[j].created < date
          ==> rows[j].created <= rows[i].created
  }

  predicate NoneBefore(rows: seq<Revision>, entry: nat, date: int) {
    forall j :: 0 <= j < |rows| && rows[j].entry == entry ==> rows[j].created >= date
  }

  // Two refreshes with one key in one window may return exactly the same
  // revisions, whatever was uploaded between them.
  lemma SameSelection(origin: int, now: int, later: int, rows: seq<Revision>, uploads: seq<Revision>,
      entry: nat, i: nat)
    requires origin <= now <= later
    requires InWindow(MostRecent(origin, now), now) && later < MostRecent(origin, now) + NINETY_DAYS
    requires forall j :: 0 <= j < |uploads| ==> uploads[j].created >= now
    ensures LatestBefore(rows + uploads, entry, MostRecent(origin, later), i)
            <==> LatestBefore(rows, entry, MostRecent(origin, now), i)
    ensures NoneBefore(rows + uploads, entry, MostRecent(origin, later))
        <==> NoneBefore(rows, entry, MostRecent(origin, now))
  {
    ConstantInWindow(origin, now, later);
    var m, all := MostRecent(origin, now), rows + uploads;
    forall j | |rows| <= j < |all| ensures all[j].created >= m {
      assert all[j] == uploads[j - |rows|];
    }
    forall j | 0 <= j < |rows| ensures all[j] == rows[j] {
    }
    if LatestBefore(all, entry, m, i) {
      forall j | 0 <= j < |rows| && rows[j].entry == entry && rows[j].created < m
        ensures rows[j].created <= rows[i].created
      {
        assert all[j] == rows[j];
      }
    }
    if NoneBefore(all, entry, m) {
      forall j | 0 <= j < |rows| && rows[j].entry == entry ensures rows[j].created >= m {
        assert all[j] == rows[j];
      }
    }
  }
}
