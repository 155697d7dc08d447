/**
 Channel strings: what an upload writes and what a refresh reads.
 */
module Channels {
  import opened Text

  datatype Target = Target(track: string, channel: string)

  predicate IsRisk(s: string) { s == "stable" || s == "candidate" || s == "beta" || s == "edge" }

  // ---- Upload side ----

  function PushTarget(s: string): Option<Target> {
    var parts := Split(s, '/');
    if |parts| == 2 then Some(Target(parts[0], parts[1]))
    else if |parts| == 1 then Some(Target("latest", parts[0]))
    else None
  }

  // What one input asks for on a track: nothing or one channel.
  function Asked(s: string, track: string): seq<string> {
    var t := PushTarget(s);
    if t.Some? && t.value.track == track then [t.value.channel] else []
  }

  // Channels asked for on one track, in input order.
  function ChannelsOf(inputs: seq<string>, track: string): seq<string> {
    if inputs == [] then []
    else ChannelsOf(inputs[..|inputs| - 1], track) + Asked(inputs[|inputs| - 1], track)
  }

  // Every track some input names, with what was asked for on it.
  ghost predicate GroupsBy(parsed: map<string, seq<string>>, inputs: seq<string>) {
    forall t :: if ChannelsOf(inputs, t) == [] then t !in parsed else t in parsed && parsed[t] == ChannelsOf(inputs, t)
  }

  // No channels at all means the default one.
  function Effective(inputs: seq<string>): seq<string> { if inputs == [] then ["stable"] else inputs }

  lemma DefaultChannel()
    ensures GroupsBy(map["latest" := ["stable"]], ["stable"])
  {
    SplitPlain("stable", '/');
    assert PushTarget("stable") == Some(Target("latest", "stable"));
    forall t ensures ChannelsOf(["stable"], t) == if t == "latest" then ["stable"] else [] {
      assert ["stable"][..0] == [] && ChannelsOf([], t) == [];
      assert ChannelsOf(["stable"], t) == [] + Asked("stable", t);
    }
  }

  // An order-preserving group-by of the well-formed inputs.
  method ParseTracksAndChannels(inputs: seq<string>) returns (parsed: map<string, seq<string>>)
    ensures GroupsBy(parsed, Effective(inputs))
    ensures inputs == [] ==> parsed == map["latest" := ["stable"]]
  {
    parsed := map[];
    if |inputs| == 0 {
      DefaultChannel();
      return map["latest" := ["stable"]];
    }
    for i := 0 to |inputs|
      invariant GroupsBy(parsed, inputs[..i])
    {
      var parts := Split(inputs[i], '/');
      var track, channel;
      if |parts| == 2 {
        track, channel := parts[0], parts[1];
      } else if |parts| == 1 {
        track, channel := "latest", parts[0];
      } else {
        GroupsSkip(parsed, inputs, i);
        continue;
      }
      GroupsAdd(parsed, inputs, i, Target(track, channel));
      parsed := parsed[track := (if track in parsed then parsed[track] else []) + [channel]];
    }
    assert inputs[..|inputs|] == inputs;
  }

  lemma OneMore(inputs: seq<string>, i: nat, t: string)
    requires i < |inputs|
    ensures ChannelsOf(inputs[..i + 1], t) == ChannelsOf(inputs[..i], t) + Asked(inputs[i], t)
  {
    assert inputs[..i + 1][..i] == inputs[..i];
  }

  // A malformed input changes no group.
  lemma GroupsSkip(parsed: map<string, seq<string>>, inputs: seq<string>, i: nat)
    requires i < |inputs| && GroupsBy(parsed, inputs[..i]) && PushTarget(inputs[i]).None?
    ensures GroupsBy(parsed, inputs[..i + 1])
  {
    forall t ensures ChannelsOf(inputs[..i + 1], t) == ChannelsOf(inputs[..i], t) {
      OneMore(inputs, i, t);
      assert ChannelsOf(inputs[..i], t) + [] == ChannelsOf(inputs[..i], t);
    }
  }

  // A well-formed input extends its own group only.
  lemma GroupsAdd(parsed: map<string, seq<string>>, inputs: seq<string>, i: nat, p: Target)
    requires i < |inputs| && GroupsBy(parsed, inputs[..i]) && PushTarget(inputs[i]) == Some(p)
    ensures GroupsBy(Extend(parsed, p), inputs[..i + 1])
  {
    var was, now := inputs[..i], inputs[..i + 1];
    forall t ensures ChannelsOf(now, t)
        == if t == p.track then ChannelsOf(was, t) + [p.channel] else ChannelsOf(was, t) {
      OneMore(inputs, i, t);
      assert ChannelsOf(was, t) + [] == ChannelsOf(was, t);
    }
    ExtendGroups(parsed, was, now, p);
  }

  lemma ExtendGroups(parsed: map<string, seq<string>>, was: seq<string>, now: seq<string>, p: Target)
    requires GroupsBy(parsed, was)
    requires forall t ::
      ChannelsOf(now, t) == if t == p.track then ChannelsOf(was, t) + [p.channel] else ChannelsOf(was, t)
    ensures GroupsBy(Extend(parsed, p), now)
  {
  }

  function Extend(parsed: map<string, seq<string>>, p: Target): map<string, seq<string>> {
    parsed[p.track := (if p.track in parsed then parsed[p.track] else []) + [p.channel]]
  }

  // ---- What an upload asks for, by the parts of its inputs ----

  predicate Parts(parts: seq<string>) { parts != [] && forall i :: 0 <= i < |parts| ==> '/' !in parts[i] }

  // One part is a channel of "latest", two are a track and its channel, more are
  // nothing.
  lemma PushOfParts(parts: seq<string>)
    requires Parts(parts)
    ensures Wanted([Join(parts, '/')]) ==
      if |parts| == 1 then [Target("latest", parts[0])]
      else if |parts| == 2 then [Target(parts[0], parts[1])]
      else []
    ensures forall t ::
      ChannelsOf([Join(parts, '/')], t) == if |parts| == 1 && t == "latest" then [parts[0]]
      else if |parts| == 2 && t == parts[0] then [parts[1]]
      else []
  {
    hide Join, Split;
    var s := Join(parts, '/');
    SplitJoin(parts, '/');
    assert [s][..0] == [];
    forall t ensures ChannelsOf([s], t) == Asked(s, t) {
      assert ChannelsOf([s], t) == ChannelsOf([s][..0], t) + Asked(s, t);
    }
  }

  // Inputs are taken in order, none of them minding the others.
  lemma {:induction false} WantedInOrder(a: seq<string>, b: seq<string>)
    ensures Wanted(a + b) == Wanted(a) + Wanted(b)
  {
    hide PushTarget;
    if b == [] {
      assert a + b == a;
    } else {
      var n := |b| - 1;
      WantedInOrder(a, b[..n]);
      assert (a + b)[..|a + b| - 1] == a + b[..n];
    }
  }

  lemma {:induction false} ChannelsInOrder(a: seq<string>, b: seq<string>, track: string)
    ensures ChannelsOf(a + b, track) == ChannelsOf(a, track) + ChannelsOf(b, track)
  {
    hide Asked;
    if b == [] {
      assert a + b == a;
    } else {
      var n := |b| - 1;
      ChannelsInOrder(a, b[..n], track);
      assert (a + b)[..|a + b| - 1] == a + b[..n];
    }
  }

  lemma NoInputs(inputs: seq<string>)
    ensures Wanted(Effective([])) == [Target("latest", "stable")]
    ensures inputs != [] ==> Effective(inputs) == inputs
  {
    PushOfParts(["stable"]);
    assert Join(["stable"], '/') == "stable";
  }

  // The rows an upload asks for, track by track in the order the map yields them.
  function Pairs(inputs: seq<string>, order: seq<string>): seq<Target> {
    if order == [] then []
    else
      var n := |order| - 1;
      Pairs(inputs, order[..n]) + TrackPairs(order[n], ChannelsOf(inputs, order[n]))
  }

  function TrackPairs(track: string, channels: seq<string>): (ps: seq<Target>)
    ensures |ps| == |channels| && forall i :: 0 <= i < |ps| ==> ps[i] == Target(track, channels[i])
  {
    seq(|channels|, i requires 0 <= i < |channels| => Target(track, channels[i]))
  }

  // What each input asks for, in input order.
  function Wanted(inputs: seq<string>): seq<Target> {
    if inputs == [] then []
    else
      var n := |inputs| - 1;
      var t := PushTarget(inputs[n]);
      Wanted(inputs[..n]) + if t.Some? then [t.value] else []
  }

  // `order` lists every track asked for once: one way to walk the map.
  ghost predicate IsOrder(inputs: seq<string>, order: seq<string>) {
    && (forall t :: t in order <==> ChannelsOf(inputs, t) != [])
    && (forall i, j :: 0 <= i < j < |order| ==> order[i] != order[j])
  }

  lemma {:induction false} WantedPerTrack(inputs: seq<string>, track: string, channel: string)
    ensures multiset(Wanted(inputs))[Target(track, channel)] == multiset(ChannelsOf(inputs, track))[channel]
  {
    if inputs != [] {
      WantedPerTrack(inputs[..|inputs| - 1], track, channel);
    }
  }

  lemma {:induction false} TrackPairsCount(track: string, channels: seq<string>, p: Target)
    ensures multiset(TrackPairs(track, channels))[p] == if p.track == track then multiset(channels)[p.channel] else 0
  {
    if channels != [] {
      var n := |channels| - 1;
      TrackPairsCount(track, channels[..n], p);
      assert channels == channels[..n] + [channels[n]];
      assert TrackPairs(track, channels) == TrackPairs(track, channels[..n]) + [Target(track, channels[n])];
    }
  }

  lemma {:induction false} PairsCount(inputs: seq<string>, order: seq<string>, p: Target)
    requires forall i, j :: 0 <= i < j < |order| ==> order[i] != order[j]
    ensures multiset(Pairs(inputs, order))[p]
        == if p.track in order then multiset(ChannelsOf(inputs, p.track))[p.channel] else 0
  {
    if order != [] {
      var n := |order| - 1;
      PairsCount(inputs, order[..n], p);
      TrackPairsCount(order[n], ChannelsOf(inputs, order[n]), p);
      assert order == order[..n] + [order[n]];
      assert p.track in order <==> p.track in order[..n] || p.track == order[n];
    }
  }

  // Whatever order the map is walked in, an upload asks for the same rows: one
  // for each well-formed input.
  lemma RowsDoNotDependOnMapOrder(inputs: seq<string>, order: seq<string>)
    requires IsOrder(inputs, order)
    ensures multiset(Pairs(inputs, order)) == multiset(Wanted(inputs))
  {
    forall p ensures multiset(Pairs(inputs, order))[p] == multiset(Wanted(inputs))[p] {
      PairsCount(inputs, order, p);
      WantedPerTrack(inputs, p.track, p.channel);
      assert p == Target(p.track, p.channel);
    }
  }

  // Some order always exists.
  lemma {:induction false} SomeOrder(inputs: seq<string>) returns (order: seq<string>)
    ensures IsOrder(inputs, order)
  {
    if inputs == [] {
      order := [];
    } else {
      var n := |inputs| - 1;
      order := SomeOrder(inputs[..n]);
      var t := PushTarget(inputs[n]);
      if t.Some? && t.value.track !in order {
        order := order + [t.value.track];
      }
    }
  }

  // Which rows are asked for does not depend on the order either.
  lemma PairsAreWanted(inputs: seq<string>, order: seq<string>)
    requires IsOrder(inputs, order)
    ensures |Pairs(inputs, order)| == |Wanted(inputs)|
    ensures forall p :: p in Pairs(inputs, order) <==> p in Wanted(inputs)
  {
    RowsDoNotDependOnMapOrder(inputs, order);
    assert |multiset(Pairs(inputs, order))| == |multiset(Wanted(inputs))|;
    forall p ensures p in Pairs(inputs, order) <==> p in Wanted(inputs) {
      assert p in Pairs(inputs, order) <==> p in multiset(Pairs(inputs, order));
      assert p in Wanted(inputs) <==> p in multiset(Wanted(inputs));
    }
  }

  // Where the pairs of track i begin among all pairs, and what stands there.
  lemma {:induction false} PairAt(inputs: seq<string>, order: seq<string>, i: nat, k: nat)
    requires i < |order| && k < |ChannelsOf(inputs, order[i])|
    ensures |Pairs(inputs, order[..i])| + k < |Pairs(inputs, order)|
    ensures Pairs(inputs, order)[|Pairs(inputs, order[..i])| + k] == Target(order[i], ChannelsOf(inputs, order[i])[k])
  {
    hide ChannelsOf;
    var n := |order| - 1;
    var front, back := Pairs(inputs, order[..n]), TrackPairs(order[n], ChannelsOf(inputs, order[n]));
    assert Pairs(inputs, order) == front + back;
    if i < n {
      assert order[..n][..i] == order[..i] && order[..n][i] == order[i];
      PairAt(inputs, order[..n], i, k);
      InFront(front, back, |Pairs(inputs, order[..i])| + k);
    } else {
      InBack(front, back, k);
    }
  }

  lemma InFront<T>(front: seq<T>, back: seq<T>, i: nat)
    requires i < |front|
    ensures i < |front + back| && (front + back)[i] == front[i]
  {
  }

  lemma InBack<T>(front: seq<T>, back: seq<T>, i: nat)
    requires i < |back|
    ensures |front| + i < |front + back| && (front + back)[|front| + i] == back[i]
  {
  }

  // The first pair belongs to the first track.
  lemma FirstPair(inputs: seq<string>, order: seq<string>)
    requires IsOrder(inputs, order) && order != []
    ensures Pairs(inputs, order) != [] && Pairs(inputs, order)[0].track == order[0]
  {
    assert order[0] in order;
    assert order[..0] == [] && Pairs(inputs, []) == [];
    PairAt(inputs, order, 0, 0);
  }

  // The map may be walked from any track an input names.
  lemma OrderStarting(inputs: seq<string>, order: seq<string>, p: Target) returns (order': seq<string>)
    requires IsOrder(inputs, order) && p in Wanted(inputs)
    ensures IsOrder(inputs, order') && order' != [] && order'[0] == p.track
  {
    PairsAreWanted(inputs, order);
    PairsCount(inputs, order, p);
    assert multiset(Pairs(inputs, order))[p] > 0;
    var i :| 0 <= i < |order| && order[i] == p.track;
    order' := order[i := order[0]][0 := p.track];
    SwappedHasSame(order, i, order');
  }

  lemma SwappedHasSame(order: seq<string>, i: nat, order': seq<string>)
    requires i < |order| && order' == order[i := order[0]][0 := order[i]]
    ensures forall t :: t in order' <==> t in order
  {
    forall t | t in order ensures t in order' {
      var k :| 0 <= k < |order| && order[k] == t;
      assert order'[if k == 0 then i else if k == i then 0 else k] == t;
    }
  }

  // ---- Refresh side ----

  // The store client's defaults for empty parts.
  function WithDefaults(t: Target): Target {
    Target(if t.track == "" then "latest" else t.track, if t.channel == "" then "stable" else t.channel)
  }

  // One channel string, as the refresh action passes it.
  function RefreshTarget(s: string): Option<Target> {
    var parts := Split(s, '/');
    if IsRisk(s) then Some(WithDefaults(Target("latest", s)))
    else if |parts| == 1 then Some(WithDefaults(Target(parts[0], "stable")))
    else if |parts| == 2 || |parts| == 3 then Some(WithDefaults(Target(parts[0], parts[1])))
    else None
  }

  // A risk is a channel of "latest", any other single part a track, two or three
  // parts a track and its channel with the branch left out; empty parts mean
  // the defaults, and four parts or more nothing.
  lemma RefreshOfParts(parts: seq<string>)
    requires Parts(parts)
    ensures RefreshTarget(Join(parts, '/')) ==
      if |parts| == 1 && (parts[0] == "stable" || parts[0] == "candidate" || parts[0] == "beta" || parts[0] == "edge")
      then Some(Target("latest", parts[0]))
      else if |parts| == 1 then Some(Target(if parts[0] == "" then "latest" else parts[0], "stable"))
      else if |parts| <= 3 then
        Some(Target(if parts[0] == "" then "latest" else parts[0], if parts[1] == "" then "stable" else parts[1]))
      else None
  {
    hide Join, Split;
    SplitJoin(parts, '/');
    OnlyOnePartIsRisk(parts);
  }

  lemma OnlyOnePartIsRisk(parts: seq<string>)
    requires Parts(parts)
    ensures if |parts| == 1 then Join(parts, '/') == parts[0] else !IsRisk(Join(parts, '/'))
  {
    if |parts| > 1 {
      assert Join(parts, '/')[|parts[0]|] == '/';
      RisksHaveNoSlash(Join(parts, '/'));
    }
  }

  // Both sides name the same track and channel exactly for a bare risk and for
  // two non-empty parts.
  lemma PushAndRefreshAgree(s: string)
    ensures (PushTarget(s).Some? && PushTarget(s) == RefreshTarget(s)) <==>
      IsRisk(s) || (|Split(s, '/')| == 2 && Split(s, '/')[0] != "" && Split(s, '/')[1] != "")
  {
    if IsRisk(s) {
      SplitPlain(s, '/');
    } else if |Split(s, '/')| == 1 {
      JoinSplit(s, '/');
    }
  }

  // A bare track is pushed as a channel of "latest" and refreshed as a track.
  lemma BareTrackDisagrees()
    ensures PushTarget("2.0") == Some(Target("latest", "2.0")) && RefreshTarget("2.0") == Some(Target("2.0", "stable"))
  {
    SplitPlain("2.0", '/');
  }

  lemma RisksHaveNoSlash(s: string)
    ensures IsRisk(s) ==> '/' !in s
  {
  }

  // For track and risk written out, both sides mean just that.
  lemma WrittenOutAgrees(track: string, channel: string)
    requires track != "" && channel != "" && '/' !in track && '/' !in channel
    ensures PushTarget(track + "/" + channel) == Some(Target(track, channel)) == RefreshTarget(track + "/" + channel)
  {
    SplitConcat(track, channel, '/');
    SplitPlain(track, '/');
    SplitPlain(channel, '/');
    var s := track + ['/'] + channel;
    assert s == track + "/" + channel;
    assert s[|track|] == '/';
    RisksHaveNoSlash(s);
  }
}
