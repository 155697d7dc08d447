/**
 The account page: entries, publishers and revisions joined into one nested map.
 */
module AccountView {
  import opened Text

  datatype Entry = Entry(id: string, series: string, name: string, publisherId: string)
  datatype Account = Account(id: string, displayName: string, username: string, validation: string)
  datatype Revision = Revision(sequence: nat, version: string)
  datatype Response = Response(entryId: string, revisions: seq<Revision>)

  datatype Snap = Snap(id: string, publisher: Account, revisions: seq<Revision>)

  // ---- What a scan of the lists says ----

  function Unknown(id: string): Account { Account(id, "Unknown Publisher", "unknown", "unverified") }

  // The last account with the id.
  function FindAccount(accounts: seq<Account>, id: string): Option<Account> {
    if accounts == [] then None
    else
      var a := accounts[|accounts| - 1];
      if a.id == id then Some(a) else FindAccount(accounts[..|accounts| - 1], id)
  }

  // All revisions answered for the id, in order.
  function RevisionsOf(responses: seq<Response>, id: string): seq<Revision> {
    if responses == [] then []
    else
      var r := responses[|responses| - 1];
      RevisionsOf(responses[..|responses| - 1], id) + if r.entryId == id then r.revisions else []
  }

  // The last entry of the series with the name.
  function FindEntry(entries: seq<Entry>, series: string, name: string): Option<Entry> {
    if entries == [] then None
    else
      var e := entries[|entries| - 1];
      if e.series == series && e.name == name then Some(e) else FindEntry(entries[..|entries| - 1], series, name)
  }

  function View(e: Entry, accounts: seq<Account>, responses: seq<Response>): Snap {
    var a := FindAccount(accounts, e.publisherId);
    Snap(e.id, if a.Some? then a.value else Unknown(e.publisherId), RevisionsOf(responses, e.id))
  }

  // ---- What the maps say ----

  ghost predicate IsAccountMap(m: map<string, Account>, accounts: seq<Account>) {
    forall id :: if id in m then FindAccount(accounts, id) == Some(m[id]) else FindAccount(accounts, id).None?
  }

  function Lookup(m: map<string, seq<Revision>>, id: string): seq<Revision> { if id in m then m[id] else [] }

  ghost predicate IsRevisionMap(m: map<string, seq<Revision>>, responses: seq<Response>) {
    forall id :: Lookup(m, id) == RevisionsOf(responses, id)
  }

  type Snaps = map<string, map<string, Snap>>

  function At(snaps: Snaps, series: string, name: string): Option<Snap> {
    if series in snaps && name in snaps[series] then Some(snaps[series][name]) else None
  }

  // snaps[series][name] is there exactly if an entry has that pair, and shows
  // the last such entry.
  ghost predicate Shows(snaps: Snaps, entries: seq<Entry>, accounts: seq<Account>, responses: seq<Response>) {
    forall series, name ::
      At(snaps, series, name) == var e := FindEntry(entries, series, name);
        if e.Some? then Some(View(e.value, accounts, responses)) else None
  }

  // ---- The handler ----

  method GetAccount(entries: seq<Entry>, accounts: seq<Account>, responses: seq<Response>) returns (snaps: Snaps)
    ensures Shows(snaps, entries, accounts, responses)
  {
    var publisherMap: map<string, Account> := map[];
    for i := 0 to |accounts|
      invariant IsAccountMap(publisherMap, accounts[..i])
    {
      assert accounts[..i + 1][..i] == accounts[..i];
      publisherMap := publisherMap[accounts[i].id := accounts[i]];
    }
    assert accounts[..|accounts|] == accounts;
    var revisionMap := MapRevisions(responses);
    snaps := map[];
    for i := 0 to |entries|
      invariant Shows(snaps, entries[..i], accounts, responses)
    {
      assert entries[..i + 1][..i] == entries[..i];
      var e := entries[i];
      var named := if e.series in snaps then snaps[e.series] else map[];
      var publisher := if e.publisherId in publisherMap then publisherMap[e.publisherId] else Unknown(e.publisherId);
      var latestRevisions := if e.id in revisionMap then revisionMap[e.id] else [];
      assert latestRevisions == Lookup(revisionMap, e.id);
      snaps := snaps[e.series := named[e.name := Snap(e.id, publisher, latestRevisions)]];
    }
    assert entries[..|entries|] == entries;
  }

  // One append per revision.
  method MapRevisions(responses: seq<Response>) returns (m: map<string, seq<Revision>>)
    ensures IsRevisionMap(m, responses)
  {
    m := map[];
    for i := 0 to |responses|
      invariant IsRevisionMap(m, responses[..i])
    {
      ghost var was := m;
      var r := responses[i];
      for k := 0 to |r.revisions|
        invariant Lookup(m, r.entryId) == Lookup(was, r.entryId) + r.revisions[..k]
        invariant forall id :: id != r.entryId ==> Lookup(m, id) == Lookup(was, id)
      {
        assert r.revisions[..k + 1] == r.revisions[..k] + [r.revisions[k]];
        m := m[r.entryId := Lookup(m, r.entryId) + [r.revisions[k]]];
      }
      OneMoreResponse(responses, i, was, m);
    }
    assert responses[..|responses|] == responses;
  }

  lemma OneMoreResponse(responses: seq<Response>, i: nat, was: map<string, seq<Revision>>,
      m: map<string, seq<Revision>>)
    requires i < |responses| && IsRevisionMap(was, responses[..i])
    requires var r := responses[i]; Lookup(m, r.entryId) == Lookup(was, r.entryId) + r.revisions[..|r.revisions|]
    requires forall id :: id != responses[i].entryId ==> Lookup(m, id) == Lookup(was, id)
    ensures IsRevisionMap(m, responses[..i + 1])
  {
    var r := responses[i];
    assert responses[..i + 1][..i] == responses[..i] && r.revisions[..|r.revisions|] == r.revisions;
    forall id ensures Lookup(m, id) == RevisionsOf(responses[..i + 1], id) {
      assert Lookup(was, id) == RevisionsOf(responses[..i], id);
      assert RevisionsOf(responses[..i], id) + [] == RevisionsOf(responses[..i], id);
    }
  }

  // The scans are what they are called: position i holds the last match.
  lemma {:induction false} LastEntry(entries: seq<Entry>, series: string, name: string) returns (i: nat)
    ensures var r := FindEntry(entries, series, name);
      if r.Some? then
        && i < |entries| && entries[i] == r.value && r.value.series == series && r.value.name == name
        && forall j :: i < j < |entries| ==> entries[j].series != series || entries[j].name != name
      else forall j :: 0 <= j < |entries| ==> entries[j].series != series || entries[j].name != name
  {
    if entries == [] {
      i := 0;
    } else {
      var n := |entries| - 1;
      var front := entries[..n];
      i := LastEntry(front, series, name);
      assert forall j :: 0 <= j < n ==> front[j] == entries[j];
      if entries[n].series == series && entries[n].name == name {
        i := n;
      }
    }
  }

  lemma {:induction false} LastAccount(accounts: seq<Account>, id: string) returns (i: nat)
    ensures var r := FindAccount(accounts, id);
      if r.Some? then
        i < |accounts| && accounts[i] == r.value && r.value.id == id
        && forall j :: i < j < |accounts| ==> accounts[j].id != id
      else forall j :: 0 <= j < |accounts| ==> accounts[j].id != id
  {
    if accounts == [] {
      i := 0;
    } else {
      var n := |accounts| - 1;
      var front := accounts[..n];
      i := LastAccount(front, id);
      assert forall j :: 0 <= j < n ==> front[j] == accounts[j];
      if accounts[n].id == id {
        i := n;
      }
    }
  }

  // ---- What the page shows ----

  ghost predicate IsLastEntry(entries: seq<Entry>, i: nat) {
    i < |entries| && forall j :: i < j < |entries| ==>
      entries[j].series != entries[i].series || entries[j].name != entries[i].name
  }

  ghost predicate IsLastAccount(accounts: seq<Account>, k: nat, id: string) {
    k < |accounts| && accounts[k].id == id && forall j :: k < j < |accounts| ==> accounts[j].id != id
  }

  // The last entry of a pair is shown with its own id, with the last account of
  // its publisher or a placeholder that keeps the publisher's id, and with the
  // revisions answered for its id.
  lemma LastEntryIsShown(snaps: Snaps, entries: seq<Entry>, accounts: seq<Account>, responses: seq<Response>, i: nat)
    requires Shows(snaps, entries, accounts, responses) && IsLastEntry(entries, i)
    ensures var e := entries[i];
      && e.series in snaps && e.name in snaps[e.series]
      && var shown := snaps[e.series][e.name];
      && shown.id == e.id && shown.revisions == RevisionsOf(responses, e.id)
      && (forall k :: 0 <= k < |accounts| && IsLastAccount(accounts, k, e.publisherId)
            ==> shown.publisher == accounts[k])
      && ((forall k :: 0 <= k < |accounts| ==> accounts[k].id != e.publisherId)
            ==> shown.publisher == Account(e.publisherId, "Unknown Publisher", "unknown", "unverified"))
  {
    hide FindEntry, FindAccount, RevisionsOf;
    var e := entries[i];
    var k := LastEntry(entries, e.series, e.name);
    assert At(snaps, e.series, e.name) == Some(View(e, accounts, responses));
    var n := LastAccount(accounts, e.publisherId);
  }

  // A pair no entry has is not shown.
  lemma NoEntryNoSnap(snaps: Snaps, entries: seq<Entry>, accounts: seq<Account>, responses: seq<Response>,
      series: string, name: string)
    requires Shows(snaps, entries, accounts, responses)
    requires forall j :: 0 <= j < |entries| ==> entries[j].series != series || entries[j].name != name
    ensures series in snaps ==> name !in snaps[series]
  {
    var k := LastEntry(entries, series, name);
    assert At(snaps, series, name).None?;
  }

  // Revisions come in the order of the answers, each answer giving its own
  // entry's and nothing else.
  lemma {:induction false} RevisionsInOrder(a: seq<Response>, b: seq<Response>, id: string)
    ensures RevisionsOf(a + b, id) == RevisionsOf(a, id) + RevisionsOf(b, id)
  {
    if b == [] {
      assert a + b == a;
    } else {
      var n := |b| - 1;
      RevisionsInOrder(a, b[..n], id);
      assert (a + b)[..|a + b| - 1] == a + b[..n];
    }
  }

  lemma RevisionsOfOne(r: Response, id: string)
    ensures RevisionsOf([r], id) == if r.entryId == id then r.revisions else []
  {
    assert [r][..0] == [];
    assert RevisionsOf([r], id) == RevisionsOf([r][..0], id) + if r.entryId == id then r.revisions else [];
  }
}
