/**
 Object and delta paths, the delta download route, and snap names.
 */
module ObjectPaths {
  import opened Text

  function SnapPath(name: string, sequence: nat): string {
    name + "/" + name + "_" + PrintNat(sequence) + ".snap"
  }

  function DeltaName(source: nat, target: nat): string {
    PrintNat(source) + "-" + PrintNat(target) + ".xdelta3"
  }

  function DeltaPath(format: string, name: string, source: nat, target: nat): string {
    format + "/" + name + "/" + DeltaName(source, target)
  }

  // ---- Cutting at the last or the first separator ----

  lemma CutAt(a: string, d: string, a': string, d': string)
    requires a + d == a' + d' && (|a| == |a'| || |d| == |d'|)
    ensures a == a' && d == d'
  {
    var s, s' := a + d, a' + d';
    assert |s| == |s'| && |a| == |a'|;
    assert a == s[..|a|] && a' == s'[..|a|] && d == s[|a|..] && d' == s'[|a|..];
  }

  lemma CutSame(a: string, d: string, a': string, d': string, sep: char)
    requires a + [sep] + d == a' + [sep] + d' && |a| == |a'|
    ensures a == a' && d == d'
  {
    CutAt(a + [sep], d, a' + [sep], d');
    CutAt(a, [sep], a', [sep]);
  }

  // A separator that one side has in its tail cannot be cut off by the other.
  lemma TailHasNone(a: string, d: string, a': string, d': string, sep: char)
    requires a + [sep] + d == a' + [sep] + d' && sep !in d'
    ensures |a'| >= |a|
  {
    var s, s' := a + [sep] + d, a' + [sep] + d';
    assert s[|a|] == sep && s'[|a|] == sep;
  }

  lemma CutLast(a: string, d: string, a': string, d': string, sep: char)
    requires a + [sep] + d == a' + [sep] + d' && sep !in d && sep !in d'
    ensures a == a' && d == d'
  {
    TailHasNone(a, d, a', d', sep);
    TailHasNone(a', d', a, d, sep);
    CutSame(a, d, a', d', sep);
  }

  lemma HeadHasNone(a: string, d: string, a': string, d': string, sep: char)
    requires a + [sep] + d == a' + [sep] + d' && sep !in a'
    ensures |a'| <= |a|
  {
    var s, s' := a + [sep] + d, a' + [sep] + d';
    assert s[|a|] == sep && s'[|a|] == sep;
  }

  lemma CutFirst(a: string, d: string, a': string, d': string, sep: char)
    requires a + [sep] + d == a' + [sep] + d' && sep !in a && sep !in a'
    ensures a == a' && d == d'
  {
    HeadHasNone(a, d, a', d', sep);
    HeadHasNone(a', d', a, d, sep);
    CutSame(a, d, a', d', sep);
  }

  lemma DigitsHaveNo(n: nat, c: char)
    requires !IsDigit(c)
    ensures c !in PrintNat(n)
  {
    var s := PrintNat(n);
    assert forall i :: 0 <= i < |s| ==> IsDigit(s[i]);
  }

  // Two revisions never share an object, whatever characters the names hold.
  lemma SnapPathInjective(name: string, sequence: nat, name': string, sequence': nat)
    requires SnapPath(name, sequence) == SnapPath(name', sequence')
    ensures name == name' && sequence == sequence'
  {
    var d, d' := PrintNat(sequence), PrintNat(sequence');
    var n, n' := name + "/" + name, name' + "/" + name';
    DigitsHaveNo(sequence, '_');
    DigitsHaveNo(sequence', '_');
    assert SnapPath(name, sequence) == n + ['_'] + d + ".snap";
    assert SnapPath(name', sequence') == n' + ['_'] + d' + ".snap";
    CutAt(n + ['_'] + d, ".snap", n' + ['_'] + d', ".snap");
    CutLast(n, d, n', d', '_');
    assert n == name + ("/" + name) && n' == name' + ("/" + name');
    CutAt(name, "/" + name, name', "/" + name');
    PrintNatInjective(sequence, sequence');
  }

  lemma DeltaNameInjective(s: nat, t: nat, s': nat, t': nat)
    requires DeltaName(s, t) == DeltaName(s', t')
    ensures s == s' && t == t'
  {
    DigitsHaveNo(t, '-');
    DigitsHaveNo(t', '-');
    CutAt(PrintNat(s) + ['-'] + PrintNat(t), ".xdelta3", PrintNat(s') + ['-'] + PrintNat(t'), ".xdelta3");
    CutLast(PrintNat(s), PrintNat(t), PrintNat(s'), PrintNat(t'), '-');
    PrintNatInjective(s, s');
    PrintNatInjective(t, t');
  }

  lemma DeltaNameHasNoSlash(s: nat, t: nat)
    ensures '/' !in DeltaName(s, t)
  {
    DigitsHaveNo(s, '/');
    DigitsHaveNo(t, '/');
  }

  // Two deltas never share a path either; only the format must be one segment.
  lemma DeltaPathInjective(f: string, name: string, s: nat, t: nat, f': string, name': string, s': nat, t': nat)
    requires '/' !in f && '/' !in f'
    requires DeltaPath(f, name, s, t) == DeltaPath(f', name', s', t')
    ensures f == f' && name == name' && s == s' && t == t'
  {
    var d, d' := DeltaName(s, t), DeltaName(s', t');
    DeltaNameHasNoSlash(s, t);
    DeltaNameHasNoSlash(s', t');
    assert DeltaPath(f, name, s, t) == f + ['/'] + name + ['/'] + d;
    assert DeltaPath(f', name', s', t') == f' + ['/'] + name' + ['/'] + d';
    CutLast(f + ['/'] + name, d, f' + ['/'] + name', d', '/');
    CutFirst(f, name, f', name', '/');
    DeltaNameInjective(s, t, s', t');
  }

  // ---- The delta offered on refresh and the route that serves it ----

  // The uint32 test for "one revision behind".
  predicate OneStepBehind(source: nat, target: nat) { (target - source) % TWO_TO_32 == 1 }

  lemma OneStepBehindExactly(source: nat, target: nat)
    requires source < TWO_TO_32 && target < TWO_TO_32
    ensures OneStepBehind(source, target) <==> target == (source + 1) % TWO_TO_32
  {
  }

  // Path of the URL put in the refresh answer, with a file name format of its own.
  function OfferedPath(name: string, source: nat, target: nat): string {
    "/" + DELTA_ROUTE + "/" + "xdelta3" + "/" + name + "/"
    + (PrintNat(source) + "-" + PrintNat(target) + ".xdelta3")
  }

  const DELTA_ROUTE: string := "download-delta"

  datatype DeltaRequest = DeltaRequest(format: string, snapName: string, deltaName: string)

  // The route /download-delta/:delta-format/:snap-name/:delta-name; a parameter
  // is one non-empty segment.
  function Route(path: string): Option<DeltaRequest> {
    var parts := Split(path, '/');
    if |parts| == 5 && parts[0] == "" && parts[1] == DELTA_ROUTE && parts[2] != "" && parts[3] != "" && parts[4] != ""
    then Some(DeltaRequest(parts[2], parts[3], parts[4]))
    else None
  }

  // The path the store rebuilds from the request.
  function RequestedPath(r: DeltaRequest): string { r.format + "/" + r.snapName + "/" + r.deltaName }

  lemma SplitFive(a: string, b: string, c: string, name: string, d: string)
    requires '/' !in a && '/' !in b && '/' !in c && '/' !in d
    ensures Split(a + ['/'] + b + ['/'] + c + ['/'] + name + ['/'] + d, '/') == [a, b, c] + Split(name, '/') + [d]
  {
    var ab, abc := a + ['/'] + b, a + ['/'] + b + ['/'] + c;
    assert Split(abc, '/') == [a, b, c] by {
      SplitConcat(ab, c, '/');
      SplitConcat(a, b, '/');
      SplitPlain(a, '/');
      SplitPlain(b, '/');
      SplitPlain(c, '/');
    }
    SplitConcat(abc + ['/'] + name, d, '/');
    SplitConcat(abc, name, '/');
    SplitPlain(d, '/');
  }

  lemma SplitOffered(name: string, source: nat, target: nat)
    ensures Split(OfferedPath(name, source, target), '/')
            == ["", DELTA_ROUTE, "xdelta3"] + Split(name, '/') + [DeltaName(source, target)]
  {
    var d := DeltaName(source, target);
    DeltaNameHasNoSlash(source, target);
    SplitFive("", DELTA_ROUTE, "xdelta3", name, d);
    assert OfferedPath(name, source, target)
        == "" + ['/'] + DELTA_ROUTE + ['/'] + "xdelta3" + ['/'] + name + ['/'] + d;
  }

  // The offered URL leads back to the path the delta was stored under exactly
  // when the name is one non-empty segment.
  lemma OfferLeadsToStoredDelta(name: string, source: nat, target: nat)
    ensures var r := Route(OfferedPath(name, source, target));
      (r.Some? && RequestedPath(r.value) == DeltaPath("xdelta3", name, source, target))
      <==> name != "" && '/' !in name
  {
    SplitOffered(name, source, target);
    OnePart(name, '/');
    if '/' !in name {
      SplitPlain(name, '/');
    }
  }

  // ---- Snap names ----

  predicate IsLetter(c: char) { 'a' <= c <= 'z' }

  predicate IsNameChar(c: char) { IsLetter(c) || IsDigit(c) || c == '-' }

  // Lower-case letters, digits and hyphens, with at least one letter.
  predicate ValidName(name: string) {
    (forall i :: 0 <= i < |name| ==> IsNameChar(name[i])) && exists i :: 0 <= i < |name| && IsLetter(name[i])
  }

  // The characters and the letters, one by one.
  lemma ValidNameExactly(name: string)
    ensures ValidName(name) <==>
      && (forall c :: c in name ==> c in "abcdefghijklmnopqrstuvwxyz0123456789-")
      && exists c :: c in name && c in "abcdefghijklmnopqrstuvwxyz"
  {
    assert forall c :: IsLetter(c) <==> c in "abcdefghijklmnopqrstuvwxyz";
    assert forall c :: IsNameChar(c) <==> c in "abcdefghijklmnopqrstuvwxyz0123456789-";
    assert forall i :: 0 <= i < |name| ==> name[i] in name;
  }

  method CheckValidName(name: string) returns (ok: bool)
    ensures ok <==> ValidName(name)
  {
    if name == "" {
      return false;
    }
    var hasLetter := false;
    for i := 0 to |name|
      invariant forall j :: 0 <= j < i ==> IsNameChar(name[j])
      invariant hasLetter <==> exists j :: 0 <= j < i && IsLetter(name[j])
    {
      var c := name[i];
      if 'a' <= c <= 'z' {
        hasLetter := true;
      } else if '0' <= c <= '9' || c == '-' {
      } else {
        return false;
      }
    }
    return hasLetter;
  }

  // Every registrable name can be routed.
  lemma ValidNamesRoute(name: string, source: nat, target: nat)
    requires ValidName(name)
    ensures Route(OfferedPath(name, source, target)) == Some(DeltaRequest("xdelta3", name, DeltaName(source, target)))
  {
    SplitOffered(name, source, target);
    assert '/' !in name by { assert forall i :: 0 <= i < |name| ==> name[i] != '/'; }
    SplitPlain(name, '/');
  }
}
