/**
 Permissions in macaroons: the caveats the gateway writes and the check that reads
 them back. The cryptographic chaining of caveats is left aside.
 */
module Macaroon {
  import opened Text
  import P = ObjectPaths

  // ---- JSON lists of plain strings ----

  // Needs no escape in a JSON string.
  predicate Plain(s: string) {
    forall i :: 0 <= i < |s| ==> 'a' <= s[i] <= 'z' || 'A' <= s[i] <= 'Z' || IsDigit(s[i]) || s[i] == '_' || s[i] == '-'
  }

  predicate AllPlain(xs: seq<string>) { forall i :: 0 <= i < |xs| ==> Plain(xs[i]) }

  function PrintItems(xs: seq<string>): string
    requires xs != []
  {
    "\"" + xs[0] + "\"" + if |xs| == 1 then "]" else "," + PrintItems(xs[1..])
  }

  function PrintList(xs: seq<string>): string { if xs == [] then "[]" else "[" + PrintItems(xs) }

  // Up to the closing quote, and what follows it.
  function ReadString(s: string): Option<(string, string)> {
    if s == "" || s[0] == '\\' then None
    else if s[0] == '"' then Some(("", s[1..]))
    else
      var r := ReadString(s[1..]);
      if r.None? then None else Some(([s[0]] + r.value.0, r.value.1))
  }

  lemma {:induction false} ReadShortens(s: string)
    ensures ReadString(s).Some? ==> |ReadString(s).value.1| < |s|
    ensures ReadString(s).Some? && ReadString(s).value.1 != ""
        ==> ReadString(s).value.1[|ReadString(s).value.1| - 1] == s[|s| - 1]
  {
    if s != "" && s[0] != '\\' && s[0] != '"' {
      ReadShortens(s[1..]);
    }
  }

  function ParseItems(s: string): Option<seq<string>>
    decreases |s|
  {
    if s == "" || s[0] != '"' then None
    else
      ReadShortens(s[1..]);
      var r := ReadString(s[1..]);
      if r.None? then None
      else if r.value.1 == "]" then Some([r.value.0])
      else if r.value.1 == "" || r.value.1[0] != ',' then None
      else
        var rest := ParseItems(r.value.1[1..]);
        if rest.None? then None else Some([r.value.0] + rest.value)
  }

  function ParseList(s: string): Option<seq<string>> {
    if s == "[]" then Some([]) else if s == "" || s[0] != '[' then None else ParseItems(s[1..])
  }

  lemma {:induction false} ReadPlain(x: string, rest: string)
    requires Plain(x)
    ensures ReadString(x + "\"" + rest) == Some((x, rest))
  {
    var s := x + "\"" + rest;
    if x == "" {
      assert s[1..] == rest;
    } else {
      assert s[1..] == x[1..] + "\"" + rest;
      ReadPlain(x[1..], rest);
      assert [x[0]] + x[1..] == x;
    }
  }

  lemma {:induction false} ParsePrintItems(xs: seq<string>)
    requires xs != [] && AllPlain(xs)
    ensures ParseItems(PrintItems(xs)) == Some(xs)
  {
    var tail := if |xs| == 1 then "]" else "," + PrintItems(xs[1..]);
    assert PrintItems(xs)[1..] == xs[0] + "\"" + tail;
    ReadPlain(xs[0], tail);
    if |xs| == 1 {
      assert xs == [xs[0]];
    } else {
      ParsePrintItems(xs[1..]);
      assert tail[1..] == PrintItems(xs[1..]);
      assert [xs[0]] + xs[1..] == xs;
    }
  }

  lemma ParsePrintList(xs: seq<string>)
    requires AllPlain(xs)
    ensures ParseList(PrintList(xs)) == Some(xs)
  {
    if xs != [] {
      ParsePrintItems(xs);
      assert PrintList(xs)[1..] == PrintItems(xs);
      assert PrintList(xs)[1] == '"';
    }
  }

  lemma {:induction false} ItemsEndInBracket(s: string)
    ensures ParseItems(s).Some? ==> s[|s| - 1] == ']'
    decreases |s|
  {
    if ParseItems(s).Some? {
      ReadShortens(s[1..]);
      var rest := ReadString(s[1..]).value.1;
      assert rest[|rest| - 1] == s[1..][|s| - 2] == s[|s| - 1];
      if rest != "]" {
        ItemsEndInBracket(rest[1..]);
        assert ParseItems(rest[1..]).Some? && rest[1..] != "";
        assert |rest| >= 2 && rest[1..][|rest| - 2] == rest[|rest| - 1];
      }
    }
  }

  // Nothing else is taken for a list.
  lemma ListsEndInBracket(s: string)
    ensures ParseList(s).Some? ==> s != "" && s[|s| - 1] == ']'
  {
    if ParseList(s).Some? && s != "[]" {
      ItemsEndInBracket(s[1..]);
    }
  }

  lemma {:induction false} PrintHasNoPipe(xs: seq<string>)
    requires AllPlain(xs)
    ensures '|' !in PrintList(xs) && (xs != [] ==> '|' !in PrintItems(xs))
  {
    if xs != [] {
      assert '|' !in xs[0];
      if |xs| > 1 {
        PrintHasNoPipe(xs[1..]);
      }
    }
  }

  // ---- Finding the acl caveat ----

  predicate AclAt(s: string, i: nat) {
    i + 5 <= |s| && s[i] == '|' && s[i + 1] == 'a' && s[i + 2] == 'c' && s[i + 3] == 'l' && s[i + 4] == '|'
  }

  predicate HasAcl(s: string) { exists i :: 0 <= i < |s| && AclAt(s, i) }

  // The first "|acl|" at or after position i.
  function FirstAcl(s: string, i: nat): (r: Option<nat>)
    ensures r.Some? ==> i <= r.value && AclAt(s, r.value) && forall j :: i <= j < r.value ==> !AclAt(s, j)
    ensures r.None? ==> forall j :: i <= j < |s| ==> !AclAt(s, j)
    decreases |s| - i
  {
    if i >= |s| then None else if AclAt(s, i) then Some(i) else FirstAcl(s, i + 1)
  }

  // What follows the first "|acl|", as splitting in two there gives it.
  function AfterAcl(s: string): Option<string> {
    var k := FirstAcl(s, 0);
    if k.None? then None else Some(s[k.value + 5..])
  }

  predicate Granted(caveats: seq<string>, permission: string) {
    if caveats == [] then false
    else if HasAcl(caveats[0]) then
      var after := AfterAcl(caveats[0]);
      after.Some? && ParseList(after.value).Some? && permission in ParseList(after.value).value
    else Granted(caveats[1..], permission)
  }

  // The first caveat that holds "|acl|" decides.
  method HasPermission(caveats: seq<string>, permission: string) returns (granted: bool)
    ensures granted == Granted(caveats, permission)
  {
    for i := 0 to |caveats|
      invariant Granted(caveats, permission) == Granted(caveats[i..], permission)
    {
      if HasAcl(caveats[i]) {
        var after := AfterAcl(caveats[i]);
        var permissions := ParseList(after.value);
        if permissions.None? {
          return false;
        }
        return permission in permissions.value;
      }
      assert caveats[i..][1..] == caveats[i + 1..];
    }
    return false;
  }

  // ---- Writing the caveats ----

  datatype Package = Package(name: string, series: string, snapId: string)
  datatype Request = Request(permissions: seq<string>, channels: seq<string>, packages: seq<Package>, expires: string)
  datatype Config = Config(rootLocation: string, dischargeKey: string)

  const VALID_PERMISSIONS: set<string> := {
    "edit_account", "modify_account_key", "package_access", "package_register", "package_push", "package_release",
    "package_update", "package_metrics", "package_manage", "package_upload", "package_upload_request",
    "package_purchase" }

  const DEFAULT_EXPIRY_PERMISSIONS: set<string> := {
    "edit_account", "modify_account_key", "package_access", "store_admin", "store_review" }

  const VALID_CHANNELS: set<string> := { "edge", "beta", "candidate", "stable" }

  // What the RFC 3339 formats are written with (section 5.6); the parser also takes
  // a comma before fractional seconds.
  predicate IsTimeText(s: string) {
    s != "" && forall i :: 0 <= i < |s| ==> IsDigit(s[i]) || s[i] in "-:.,+TZtz"
  }

  datatype Problem = BadPermission(value: string) | BadChannel(value: string) | BadPackage(index: nat) | BadExpires

  predicate ValidPackage(p: Package) {
    if p.snapId != "" then p.name == "" && p.series == "" else p.name != "" && p.series != ""
  }

  // `isTime` stands for the time parser.
  predicate Valid(req: Request, isTime: string -> bool) {
    && (forall p :: p in req.permissions ==> p in VALID_PERMISSIONS)
    && (forall c :: c in req.channels ==> c in VALID_CHANNELS)
    && (forall i :: 0 <= i < |req.packages| ==> ValidPackage(req.packages[i]))
    && (req.expires != "" ==> isTime(req.expires))
  }

  // x is wrong with the first n permissions, channels or packages.
  predicate PermissionProblem(permissions: seq<string>, x: Problem) {
    x.BadPermission? && x.value in permissions && x.value !in VALID_PERMISSIONS
  }

  predicate ChannelProblem(channels: seq<string>, x: Problem) {
    x.BadChannel? && x.value in channels && x.value !in VALID_CHANNELS
  }

  predicate PackageProblem(packages: seq<Package>, x: Problem) {
    x.BadPackage? && x.index < |packages| && !ValidPackage(packages[x.index])
  }

  predicate IsProblem(req: Request, isTime: string -> bool, x: Problem) {
    || PermissionProblem(req.permissions, x) || ChannelProblem(req.channels, x) || PackageProblem(req.packages, x)
    || (x.BadExpires? && req.expires != "" && !isTime(req.expires))
  }

  // Exactly what is wrong is reported.
  method ValidateGenerateMacaroonRequest(req: Request, isTime: string -> bool) returns (problems: seq<Problem>)
    ensures forall x :: x in problems <==> IsProblem(req, isTime, x)
    ensures problems == [] <==> Valid(req, isTime)
  {
    problems := [];
    for i := 0 to |req.permissions|
      invariant forall x :: x in problems <==> PermissionProblem(req.permissions[..i], x)
    {
      assert req.permissions[..i + 1] == req.permissions[..i] + [req.permissions[i]];
      if req.permissions[i] !in VALID_PERMISSIONS {
        problems := problems + [BadPermission(req.permissions[i])];
      }
    }
    assert req.permissions[..|req.permissions|] == req.permissions;
    ghost var first := problems;
    for i := 0 to |req.channels|
      invariant forall x :: x in problems <==> x in first || ChannelProblem(req.channels[..i], x)
    {
      assert req.channels[..i + 1] == req.channels[..i] + [req.channels[i]];
      if req.channels[i] !in VALID_CHANNELS {
        problems := problems + [BadChannel(req.channels[i])];
      }
    }
    assert req.channels[..|req.channels|] == req.channels;
    ghost var second := problems;
    for i := 0 to |req.packages|
      invariant forall x :: x in problems <==> x in second || PackageProblem(req.packages[..i], x)
    {
      var p := req.packages[i];
      if p.name == "" && p.series == "" && p.snapId == "" {
        problems := problems + [BadPackage(i)];
        continue;
      }
      if p.snapId != "" {
        if p.name != "" || p.series != "" {
          problems := problems + [BadPackage(i)];
        }
        continue;
      }
      if p.name == "" || p.series == "" {
        problems := problems + [BadPackage(i)];
      }
    }
    assert req.packages[..|req.packages|] == req.packages;
    if req.expires != "" && !isTime(req.expires) {
      problems := problems + [BadExpires];
    }
    NoProblem(req, isTime, problems);
  }

  lemma NoProblem(req: Request, isTime: string -> bool, problems: seq<Problem>)
    requires forall x :: x in problems <==> IsProblem(req, isTime, x)
    ensures problems == [] <==> Valid(req, isTime)
  {
    if problems == [] {
      forall p | p in req.permissions ensures p in VALID_PERMISSIONS {
        assert !IsProblem(req, isTime, BadPermission(p));
      }
      forall c | c in req.channels ensures c in VALID_CHANNELS {
        assert !IsProblem(req, isTime, BadChannel(c));
      }
      forall i | 0 <= i < |req.packages| ensures ValidPackage(req.packages[i]) {
        assert !IsProblem(req, isTime, BadPackage(i));
      }
      assert !IsProblem(req, isTime, BadExpires);
    } else {
      assert IsProblem(req, isTime, problems[0]);
    }
  }

  // ---- The macaroon ----

  function Acl(location: string, kind: string, text: string): string { location + "|" + kind + "|" + text }

  function ThirdPartyId(cfg: Config): string { "{\"version\": 1, \"secret\" : \"" + cfg.dischargeKey + "\"}" }

  function Expiry(req: Request, inAYear: string): string {
    if req.expires != "" then req.expires
    else if exists i :: 0 <= i < |req.permissions| && req.permissions[i] in DEFAULT_EXPIRY_PERMISSIONS then inAYear
    else ""
  }

  function Only(present: bool, caveat: string): seq<string> { if present then [caveat] else [] }

  // The channels and packages asked for; `ids` are the snap ids in the order the
  // map yields them.
  function Scope(req: Request, ids: seq<string>, cfg: Config): seq<string> {
    Only(req.channels != [], Acl(cfg.rootLocation, "channel", PrintList(req.channels)))
    + Only(ids != [], Acl(cfg.rootLocation, "snap_id", PrintList(ids)))
  }

  // What comes after the acl caveat.
  function Later(req: Request, ids: seq<string>, cfg: Config, inAYear: string): seq<string> {
    Scope(req, ids, cfg) + Only(Expiry(req, inAYear) != "", Acl(cfg.rootLocation, "expires", Expiry(req, inAYear)))
  }

  function Caveats(req: Request, ids: seq<string>, cfg: Config, now: string, inAYear: string): seq<string> {
    [Acl(cfg.rootLocation, "valid_since", now)] + [ThirdPartyId(cfg)]
    + Only(req.permissions != [], Acl(cfg.rootLocation, "acl", PrintList(req.permissions)))
    + Later(req, ids, cfg, inAYear)
  }

  class Token {
    var caveats: seq<string>

    constructor ()
      ensures caveats == []
    {
      caveats := [];
    }

    method AddCaveat(id: string)
      modifies this
      ensures caveats == old(caveats) + [id]
    {
      caveats := caveats + [id];
    }
  }

  // Adds the caveats one by one; an expiry that does not parse gives no token.
  method GenerateMacaroon(req: Request, ids: seq<string>, cfg: Config, now: string,
      inAYear: string, isTime: string -> bool)
    returns (token: Token?)
    ensures token == null <==> req.expires != "" && !isTime(req.expires)
    ensures token != null ==> fresh(token) && token.caveats == Caveats(req, ids, cfg, now, inAYear)
  {
    hide Acl, PrintList, ThirdPartyId, Expiry, Scope;
    var t := new Token();
    t.AddCaveat(Acl(cfg.rootLocation, "valid_since", now));
    t.AddCaveat(ThirdPartyId(cfg));
    if |req.permissions| > 0 {
      t.AddCaveat(Acl(cfg.rootLocation, "acl", PrintList(req.permissions)));
    }
    ghost var early := t.caveats;
    AddScope(t, req, ids, cfg);
    if req.expires != "" && !isTime(req.expires) {
      return null;
    }
    var expiry := ChooseExpiry(req, inAYear);
    if expiry != "" {
      t.AddCaveat(Acl(cfg.rootLocation, "expires", expiry));
    }
    assert t.caveats == early + Later(req, ids, cfg, inAYear);
    return t;
  }

  method AddScope(t: Token, req: Request, ids: seq<string>, cfg: Config)
    modifies t
    ensures t.caveats == old(t.caveats) + Scope(req, ids, cfg)
  {
    hide Acl, PrintList;
    if |req.channels| > 0 {
      t.AddCaveat(Acl(cfg.rootLocation, "channel", PrintList(req.channels)));
    }
    if |ids| > 0 {
      t.AddCaveat(Acl(cfg.rootLocation, "snap_id", PrintList(ids)));
    }
  }

  // The expiry given, or a year from now for one of the default permissions.
  method ChooseExpiry(req: Request, inAYear: string) returns (expiry: string)
    ensures expiry == Expiry(req, inAYear)
  {
    if req.expires != "" {
      return req.expires;
    }
    for i := 0 to |req.permissions|
      invariant forall j :: 0 <= j < i ==> req.permissions[j] !in DEFAULT_EXPIRY_PERMISSIONS
    {
      if req.permissions[i] in DEFAULT_EXPIRY_PERMISSIONS {
        return inAYear;
      }
    }
    return "";
  }

  // ---- What can be taken for the acl caveat ----

  // The front of a caveat, up to and with its first separator.
  function Front(location: string): string { location + "|" }

  // Another caveat is taken for it only when the location itself is.
  lemma OtherKind(location: string, kind: string, text: string)
    requires '|' !in kind && kind != "acl" && '|' !in text
    ensures HasAcl(Acl(location, kind, text)) <==> HasAcl(Front(location))
  {
    var s := Acl(location, kind, text);
    CharsOf(location, kind, text);
    forall i | 0 <= i < |s| && AclAt(s, i) ensures AclAt(Front(location), i) {
      PipesOf(location, kind, text, i);
      PipesOf(location, kind, text, i + 4);
      NotAtTheEnd(location, kind, text, i);
    }
    assert forall i :: 0 <= i < |Front(location)| && AclAt(Front(location), i) ==> AclAt(s, i);
  }

  lemma NotAtTheEnd(location: string, kind: string, text: string, i: nat)
    requires '|' !in kind && kind != "acl" && '|' !in text && AclAt(Acl(location, kind, text), i)
    ensures i + 4 != |location| + 1 + |kind|
  {
    PipesOf(location, kind, text, i);
    if i + 4 == |location| + 1 + |kind| {
      KindIsNotAcl(location, kind, text, i);
    }
  }

  lemma CharsOf(location: string, kind: string, text: string)
    ensures var s, n := Acl(location, kind, text), |location|;
      && |s| == n + 1 + |kind| + 1 + |text| && s[n] == '|' && s[n + 1 + |kind|] == '|'
      && (forall j :: 0 <= j <= n ==> s[j] == Front(location)[j])
      && (forall j :: n < j < n + 1 + |kind| ==> s[j] == kind[j - n - 1])
      && (forall j :: n + 1 + |kind| < j < |s| ==> s[j] == text[j - n - 2 - |kind|])
  {
  }

  // Where the separators can be.
  lemma PipesOf(location: string, kind: string, text: string, i: nat)
    requires '|' !in kind && '|' !in text && i < |Acl(location, kind, text)| && Acl(location, kind, text)[i] == '|'
    ensures i <= |location| || i == |location| + 1 + |kind|
  {
    CharsOf(location, kind, text);
  }

  lemma KindIsNotAcl(location: string, kind: string, text: string, i: nat)
    requires '|' !in kind && kind != "acl" && i + 4 == |location| + 1 + |kind| && i <= |location|
    ensures !AclAt(Acl(location, kind, text), i)
  {
    CharsOf(location, kind, text);
    if i == |location| {
      assert kind == [kind[0], kind[1], kind[2]];
    }
  }

  // The acl caveat is cut where it should be unless the location holds one.
  lemma AclKind(location: string, text: string)
    requires !HasAcl(Front(location))
    ensures HasAcl(Acl(location, "acl", text)) && AfterAcl(Acl(location, "acl", text)) == Some(text)
  {
    var s, n := Acl(location, "acl", text), |location|;
    CharsOf(location, "acl", text);
    assert s[n + 1] == 'a' && s[n + 2] == 'c' && s[n + 3] == 'l';
    assert AclAt(s, n);
    forall i | 0 <= i < n ensures !AclAt(s, i) {
      assert AclAt(s, i) && i + 4 <= n ==> AclAt(Front(location), i);
    }
    assert s[n + 5..] == text;
  }

  lemma ThirdParty(cfg: Config)
    ensures HasAcl(ThirdPartyId(cfg)) <==> HasAcl(cfg.dischargeKey)
  {
    var s, key := ThirdPartyId(cfg), cfg.dischargeKey;
    var n := ThirdPartyChars(cfg);
    forall i | 0 <= i < |s| && AclAt(s, i) ensures HasAcl(key) {
      assert n <= i && i + 4 < n + |key|;
      assert AclAt(key, i - n);
    }
    forall i | 0 <= i < |key| && AclAt(key, i) ensures HasAcl(s) {
      assert AclAt(s, n + i);
    }
  }

  lemma ThirdPartyChars(cfg: Config) returns (n: nat)
    ensures var s, key := ThirdPartyId(cfg), cfg.dischargeKey;
      && |s| == n + |key| + 2
      && (forall j :: 0 <= j < n ==> s[j] != '|') && (forall j :: n + |key| <= j < |s| ==> s[j] != '|')
      && (forall j :: n <= j < n + |key| ==> s[j] == key[j - n])
      && s[|s| - 1] == '}'
  {
    var before, after := "{\"version\": 1, \"secret\" : \"", "\"}";
    n := |before|;
    assert ThirdPartyId(cfg) == before + cfg.dischargeKey + after;
    assert '|' !in before && '|' !in after;
  }

  // A caveat whose text does not end like a list grants nothing.
  lemma NotAList(s: string)
    requires s != "" && s[|s| - 1] != ']' && s[|s| - 1] != '|'
    ensures HasAcl(s) ==> ParseList(AfterAcl(s).value).None?
  {
    if HasAcl(s) {
      ListsEndInBracket(AfterAcl(s).value);
    }
  }

  // ---- The check on issued macaroons ----

  lemma {:induction false} SkipsOthers(others: seq<string>, rest: seq<string>, permission: string)
    requires forall i :: 0 <= i < |others| ==> !HasAcl(others[i])
    ensures Granted(others + rest, permission) == Granted(rest, permission)
  {
    if others == [] {
      assert others + rest == rest;
    } else {
      SkipsOthers(others[1..], rest, permission);
      assert (others + rest)[1..] == others[1..] + rest;
    }
  }

  lemma TimeHasNoPipe(s: string)
    requires IsTimeText(s)
    ensures '|' !in s && s[|s| - 1] != ']'
  {
  }

  lemma PermissionsArePlain(xs: seq<string>)
    requires forall x :: x in xs ==> x in VALID_PERMISSIONS
    ensures AllPlain(xs)
  {
    forall i | 0 <= i < |xs| ensures Plain(xs[i]) {
      assert xs[i] in VALID_PERMISSIONS;
      PermissionIsPlain(xs[i]);
    }
  }

  lemma PermissionIsPlain(x: string)
    requires x in VALID_PERMISSIONS
    ensures Plain(x)
  {
    if x == "edit_account" || x == "modify_account_key" || x == "package_access" {
    } else if x == "package_register" || x == "package_push" || x == "package_release" {
    } else if x == "package_update" || x == "package_metrics" || x == "package_manage" {
    } else {
      assert x == "package_upload" || x == "package_upload_request" || x == "package_purchase";
    }
  }

  lemma ChannelsArePlain(xs: seq<string>)
    requires forall x :: x in xs ==> x in VALID_CHANNELS
    ensures AllPlain(xs)
  {
    forall i | 0 <= i < |xs| ensures Plain(xs[i]) {
      assert xs[i] in VALID_CHANNELS;
    }
  }

  // Nothing after the acl caveat can be taken for it.
  lemma LaterIsClean(req: Request, ids: seq<string>, cfg: Config, inAYear: string, isTime: string -> bool)
    requires Valid(req, isTime) && AllPlain(ids) && IsTimeText(inAYear)
        && (isTime(req.expires) ==> IsTimeText(req.expires))
    requires !HasAcl(Front(cfg.rootLocation))
    ensures forall i :: 0 <= i < |Later(req, ids, cfg, inAYear)| ==> !HasAcl(Later(req, ids, cfg, inAYear)[i])
  {
    hide Acl, PrintList, HasAcl;
    ChannelsArePlain(req.channels);
    PrintHasNoPipe(req.channels);
    PrintHasNoPipe(ids);
    OtherKind(cfg.rootLocation, "channel", PrintList(req.channels));
    OtherKind(cfg.rootLocation, "snap_id", PrintList(ids));
    if Expiry(req, inAYear) != "" {
      TimeHasNoPipe(Expiry(req, inAYear));
      OtherKind(cfg.rootLocation, "expires", Expiry(req, inAYear));
    }
  }

  // The configuration cannot be taken for an acl caveat.
  predicate CleanConfig(cfg: Config) { !HasAcl(Front(cfg.rootLocation)) && !HasAcl(cfg.dischargeKey) }

  lemma EarlyIsClean(cfg: Config, now: string)
    requires IsTimeText(now)
    ensures HasAcl(Acl(cfg.rootLocation, "valid_since", now)) <==> HasAcl(Front(cfg.rootLocation))
    ensures HasAcl(ThirdPartyId(cfg)) <==> HasAcl(cfg.dischargeKey)
    ensures CleanConfig(cfg) ||
        forall tail, p :: !Granted([Acl(cfg.rootLocation, "valid_since", now)] + [ThirdPartyId(cfg)] + tail, p)
  {
    var first, second := Acl(cfg.rootLocation, "valid_since", now), ThirdPartyId(cfg);
    TimeHasNoPipe(now);
    OtherKind(cfg.rootLocation, "valid_since", now);
    ThirdParty(cfg);
    var n := ThirdPartyChars(cfg);
    assert first[|first| - 1] == now[|now| - 1];
    NotAList(first);
    NotAList(second);
    forall tail, p | !CleanConfig(cfg) ensures !Granted([first] + [second] + tail, p) {
      assert ([first] + [second] + tail)[1..] == [second] + tail;
      assert !HasAcl(first) ==> !Granted([second] + tail, p);
    }
  }

  // With a clean configuration a permission is granted exactly if it was asked
  // for.
  lemma GrantsWhatWasAsked(req: Request, ids: seq<string>, cfg: Config, now: string, inAYear: string,
      isTime: string -> bool, permission: string)
    requires Valid(req, isTime) && AllPlain(ids) && CleanConfig(cfg)
    requires IsTimeText(now) && IsTimeText(inAYear) && (isTime(req.expires) ==> IsTimeText(req.expires))
    ensures Granted(Caveats(req, ids, cfg, now, inAYear), permission) <==> permission in req.permissions
  {
    hide Acl, PrintList, ThirdPartyId, HasAcl, Later, Granted;
    EarlyIsClean(cfg, now);
    LaterIsClean(req, ids, cfg, inAYear, isTime);
    var early := [Acl(cfg.rootLocation, "valid_since", now)] + [ThirdPartyId(cfg)];
    var later := Later(req, ids, cfg, inAYear);
    if req.permissions == [] {
      NoneAmong(early + later, permission);
      assert Caveats(req, ids, cfg, now, inAYear) == early + later;
    } else {
      var acl := Acl(cfg.rootLocation, "acl", PrintList(req.permissions));
      PermissionsArePlain(req.permissions);
      AclGrants(req.permissions, cfg, later, permission);
      SkipsOthers(early, [acl] + later, permission);
      assert Caveats(req, ids, cfg, now, inAYear) == early + ([acl] + later);
    }
  }

  lemma NoneAmong(others: seq<string>, permission: string)
    requires forall i :: 0 <= i < |others| ==> !HasAcl(others[i])
    ensures !Granted(others, permission)
  {
    SkipsOthers(others, [], permission);
    assert others + [] == others;
  }

  lemma AclGrants(permissions: seq<string>, cfg: Config, later: seq<string>, permission: string)
    requires AllPlain(permissions) && !HasAcl(Front(cfg.rootLocation))
    ensures Granted([Acl(cfg.rootLocation, "acl", PrintList(permissions))] + later, permission)
        <==> permission in permissions
  {
    ParsePrintList(permissions);
    AclKind(cfg.rootLocation, PrintList(permissions));
  }

  // And without one nothing is ever granted, so the check is right for every
  // permission exactly if the configuration is clean or nothing was asked for.
  lemma ChecksExactly(req: Request, ids: seq<string>, cfg: Config, now: string, inAYear: string, isTime: string -> bool)
    requires Valid(req, isTime) && AllPlain(ids)
    requires IsTimeText(now) && IsTimeText(inAYear) && (isTime(req.expires) ==> IsTimeText(req.expires))
    ensures (forall p :: Granted(Caveats(req, ids, cfg, now, inAYear), p) <==> p in req.permissions)
      <==> CleanConfig(cfg) || req.permissions == []
  {
    hide Acl, PrintList, ThirdPartyId, HasAcl, ParseList;
    var caveats := Caveats(req, ids, cfg, now, inAYear);
    if CleanConfig(cfg) {
      forall p ensures Granted(caveats, p) <==> p in req.permissions {
        GrantsWhatWasAsked(req, ids, cfg, now, inAYear, isTime, p);
      }
    } else {
      var early := [Acl(cfg.rootLocation, "valid_since", now)] + [ThirdPartyId(cfg)];
      var tail := Only(req.permissions != [], Acl(cfg.rootLocation, "acl", PrintList(req.permissions)))
          + Later(req, ids, cfg, inAYear);
      EarlyIsClean(cfg, now);
      assert caveats == early + tail;
      assert forall p :: !Granted(caveats, p);
      if req.permissions != [] {
        assert req.permissions[0] in req.permissions;
      }
    }
  }

  // A location without any separator is clean.
  lemma NoPipeIsClean(location: string)
    requires '|' !in location
    ensures !HasAcl(Front(location))
  {
  }

  // ---- What a macaroon says ----

  // The caveats that say something: one text for a kind, and which texts.
  predicate Says(req: Request, ids: seq<string>, now: string, inAYear: string, kind: string, text: string) {
    || (kind == "valid_since" && text == now)
    || (kind == "acl" && req.permissions != [] && text == PrintList(req.permissions))
    || (kind == "channel" && req.channels != [] && text == PrintList(req.channels))
    || (kind == "snap_id" && ids != [] && text == PrintList(ids))
    || (kind == "expires" && text != "" && if req.expires != "" then text == req.expires else
          text == inAYear && exists p :: p in req.permissions && IsDefault(p))
  }

  predicate IsDefault(p: string) {
    || p == "edit_account" || p == "modify_account_key" || p == "package_access"
    || p == "store_admin" || p == "store_review"
  }

  lemma SameCaveat(location: string, kind: string, text: string, kind': string, text': string)
    requires '|' !in kind && '|' !in kind'
    ensures Acl(location, kind, text) == Acl(location, kind', text') <==> kind == kind' && text == text'
  {
    if Acl(location, kind, text) == Acl(location, kind', text') {
      var d, d' := kind + ['|'] + text, kind' + ['|'] + text';
      assert Acl(location, kind, text) == Front(location) + d && Acl(location, kind', text') == Front(location) + d';
      P.CutAt(Front(location), d, Front(location), d');
      P.CutFirst(kind, text, kind', text', '|');
    }
  }

  lemma InCaveats(req: Request, ids: seq<string>, cfg: Config, now: string, inAYear: string, s: string)
    ensures var l, expiry := cfg.rootLocation, Expiry(req, inAYear);
      s in Caveats(req, ids, cfg, now, inAYear) <==>
        || s == ThirdPartyId(cfg) || s == Acl(l, "valid_since", now)
        || (req.permissions != [] && s == Acl(l, "acl", PrintList(req.permissions)))
        || (req.channels != [] && s == Acl(l, "channel", PrintList(req.channels)))
        || (ids != [] && s == Acl(l, "snap_id", PrintList(ids)))
        || (expiry != "" && s == Acl(l, "expires", expiry))
  {
    hide Acl, PrintList, ThirdPartyId, Expiry;
  }

  // Without an expiry asked for, the default is given for some permissions only.
  lemma ExpiryExactly(req: Request, inAYear: string, text: string)
    ensures Expiry(req, inAYear) == text && text != "" <==> Says(req, [], "", inAYear, "expires", text)
  {
    if req.expires == "" {
      forall p | p in req.permissions ensures p in DEFAULT_EXPIRY_PERMISSIONS <==> IsDefault(p) {
      }
      if i :| 0 <= i < |req.permissions| && req.permissions[i] in DEFAULT_EXPIRY_PERMISSIONS {
        assert req.permissions[i] in req.permissions;
      }
    }
  }

  // A caveat is in the macaroon exactly if it is the one for the discharge
  // service or says what was asked for.
  lemma CaveatsExactly(req: Request, ids: seq<string>, cfg: Config, now: string, inAYear: string,
      kind: string, text: string)
    requires '|' !in kind
    ensures var third := "{\"version\": 1, \"secret\" : \"" + cfg.dischargeKey + "\"}";
      && third in Caveats(req, ids, cfg, now, inAYear)
      && (cfg.rootLocation + "|" + kind + "|" + text != third ==>
            (cfg.rootLocation + "|" + kind + "|" + text in Caveats(req, ids, cfg, now, inAYear)
             <==> Says(req, ids, now, inAYear, kind, text)))
  {
    hide PrintList, Expiry, Caveats;
    var l := cfg.rootLocation;
    InCaveats(req, ids, cfg, now, inAYear, ThirdPartyId(cfg));
    InCaveats(req, ids, cfg, now, inAYear, Acl(l, kind, text));
    SameCaveat(l, kind, text, "valid_since", now);
    SameCaveat(l, kind, text, "acl", PrintList(req.permissions));
    SameCaveat(l, kind, text, "channel", PrintList(req.channels));
    SameCaveat(l, kind, text, "snap_id", PrintList(ids));
    SameCaveat(l, kind, text, "expires", Expiry(req, inAYear));
    ExpiryExactly(req, inAYear, text);
  }

  // A printed list is its strings in quotes, in order, with commas between.
  lemma PrintsInOrder(xs: seq<string>, x: string)
    requires xs != []
    ensures PrintList(xs + [x]) == PrintList(xs)[..|PrintList(xs)| - 1] + ",\"" + x + "\"]"
  {
    ItemsInOrder(xs, x);
    var items := PrintItems(xs);
    assert items != "" && PrintList(xs) == "[" + items;
    assert PrintList(xs + [x]) == "[" + PrintItems(xs + [x]);
    hide PrintItems, PrintList;
    assert ("[" + items)[..|items|] == "[" + items[..|items| - 1];
  }

  lemma PrintsOne(x: string)
    ensures PrintList([]) == "[]" && PrintList([x]) == "[\"" + x + "\"]"
  {
  }

  lemma {:induction false} ItemsInOrder(xs: seq<string>, x: string)
    requires xs != []
    ensures PrintItems(xs + [x]) == PrintItems(xs)[..|PrintItems(xs)| - 1] + ",\"" + x + "\"]"
  {
    if |xs| > 1 {
      ItemsInOrder(xs[1..], x);
      assert (xs + [x])[1..] == xs[1..] + [x];
    } else {
      assert (xs + [x])[1..] == [x];
    }
  }

  // What a request may ask for.
  lemma ValidExactly(req: Request, isTime: string -> bool)
    ensures Valid(req, isTime) <==>
      && (forall p :: p in req.permissions ==> p in [
           "edit_account", "modify_account_key", "package_access", "package_register", "package_push",
           "package_release", "package_update", "package_metrics", "package_manage", "package_upload",
           "package_upload_request", "package_purchase"])
      && (forall c :: c in req.channels ==> c in ["edge", "beta", "candidate", "stable"])
      && (forall k :: k in req.packages ==>
           if k.snapId == "" then k.name != "" && k.series != "" else k.name == "" && k.series == "")
      && (req.expires != "" ==> isTime(req.expires))
  {
    assert forall i :: 0 <= i < |req.packages| ==> req.packages[i] in req.packages;
  }
}
