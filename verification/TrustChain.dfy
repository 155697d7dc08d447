/**
 The climb from a declaration's signing key, through key and account assertions, to
 an account that is trusted outright.
 */
module TrustChain {

  // Parsed headers; a missing header reads as the empty string.
  datatype Account = Account(displayName: string, validation: string, signKey: string)

  // What the server answers: a key or account it does not serve makes the fetch fail.
  datatype Assertions = Assertions(keys: map<string, string>, accounts: map<string, Account>)

  datatype Result = Trusted | Cycle(key: string) | FetchFailed

  // ---- The chain ----

  predicate Fetchable(s: Assertions, key: string) { key in s.keys && s.keys[key] in s.accounts }

  function AccountOf(s: Assertions, key: string): Account
    requires Fetchable(s, key)
  {
    s.accounts[s.keys[key]]
  }

  predicate IsTrusted(a: Account) { a.displayName == "kebeng" && a.validation == "certified" }

  // The n-th key above `start`, as long as everything below it can be fetched.
  ghost predicate IsKeyAt(s: Assertions, start: string, n: nat, key: string) {
    if n == 0 then key == start
    else exists below :: IsKeyAt(s, start, n - 1, below) && Fetchable(s, below) && AccountOf(s, below).signKey == key
  }

  ghost predicate ReachesTrusted(s: Assertions, start: string) {
    exists n: nat, key :: IsKeyAt(s, start, n, key) && Fetchable(s, key) && IsTrusted(AccountOf(s, key))
  }

  ghost predicate ReachesDeadEnd(s: Assertions, start: string) {
    exists n: nat, key :: IsKeyAt(s, start, n, key) && !Fetchable(s, key)
  }

  lemma {:induction false} OneKeyAt(s: Assertions, start: string, n: nat, key: string, key': string)
    requires IsKeyAt(s, start, n, key) && IsKeyAt(s, start, n, key')
    ensures key == key'
  {
    if n > 0 {
      var b :| IsKeyAt(s, start, n - 1, b) && Fetchable(s, b) && AccountOf(s, b).signKey == key;
      var b' :| IsKeyAt(s, start, n - 1, b') && Fetchable(s, b') && AccountOf(s, b').signKey == key';
      OneKeyAt(s, start, n - 1, b, b');
    }
  }

  // The keys of `path` are the first ones of the chain, all fetched and none of
  // them trusted.
  ghost predicate Climbed(s: Assertions, start: string, path: seq<string>, next: string) {
    && (forall i :: 0 <= i < |path| ==> IsKeyAt(s, start, i, path[i]))
    && (forall i :: 0 <= i < |path| ==> Fetchable(s, path[i]) && !IsTrusted(AccountOf(s, path[i])))
    && (forall i, j :: 0 <= i < j < |path| ==> path[i] != path[j])
    && IsKeyAt(s, start, |path|, next)
  }

  lemma Higher(s: Assertions, start: string, path: seq<string>, next: string)
    requires Climbed(s, start, path, next) && next !in path && Fetchable(s, next) && !IsTrusted(AccountOf(s, next))
    ensures Climbed(s, start, path + [next], AccountOf(s, next).signKey)
  {
    assert IsKeyAt(s, start, |path| + 1, AccountOf(s, next).signKey);
  }

  // Once the next key is an old one, the chain never leaves the path.
  lemma {:induction false} StaysOnPath(s: Assertions, start: string, path: seq<string>, next: string,
      n: nat, key: string)
    requires Climbed(s, start, path, next) && next in path && IsKeyAt(s, start, n, key)
    ensures key in path
  {
    if n == 0 {
      OneKeyAt(s, start, 0, key, path[0]);
    } else {
      var below :| IsKeyAt(s, start, n - 1, below) && Fetchable(s, below) && AccountOf(s, below).signKey == key;
      StaysOnPath(s, start, path, next, n - 1, below);
      var i :| 0 <= i < |path| && path[i] == below;
      assert IsKeyAt(s, start, i + 1, key);
      OneKeyAt(s, start, i + 1, key, if i + 1 < |path| then path[i + 1] else next);
    }
  }

  lemma CycleMeansNeither(s: Assertions, start: string, path: seq<string>, next: string)
    requires Climbed(s, start, path, next) && next in path
    ensures !ReachesTrusted(s, start) && !ReachesDeadEnd(s, start)
  {
    forall n: nat, key | IsKeyAt(s, start, n, key) ensures Fetchable(s, key) && !IsTrusted(AccountOf(s, key)) {
      StaysOnPath(s, start, path, next, n, key);
    }
  }

  // A dead end is final: what can be climbed before it is not trusted.
  lemma BeforeDeadEnd(s: Assertions, start: string, path: seq<string>, next: string, n: nat, key: string)
    requires Climbed(s, start, path, next) && !Fetchable(s, next) && IsKeyAt(s, start, n, key) && Fetchable(s, key)
    ensures key in path && n < |path|
  {
    if n >= |path| {
      UpTo(s, start, n, |path|, key);
      var k :| IsKeyAt(s, start, |path|, k) && (Fetchable(s, k) || (|path| == n && k == key));
      OneKeyAt(s, start, |path|, k, next);
    } else {
      OneKeyAt(s, start, n, key, path[n]);
    }
  }

  // The chain reaches n only through every lower position.
  lemma {:induction false} UpTo(s: Assertions, start: string, n: nat, m: nat, key: string)
    requires m <= n && IsKeyAt(s, start, n, key)
    ensures exists k :: IsKeyAt(s, start, m, k) && (Fetchable(s, k) || (m == n && k == key))
  {
    if m < n {
      var below :| IsKeyAt(s, start, n - 1, below) && Fetchable(s, below) && AccountOf(s, below).signKey == key;
      UpTo(s, start, n - 1, m, below);
    }
  }

  lemma DeadEndMeansUntrusted(s: Assertions, start: string, path: seq<string>, next: string)
    requires Climbed(s, start, path, next) && !Fetchable(s, next)
    ensures !ReachesTrusted(s, start) && ReachesDeadEnd(s, start)
  {
    forall n: nat, key | IsKeyAt(s, start, n, key) && Fetchable(s, key) ensures !IsTrusted(AccountOf(s, key)) {
      BeforeDeadEnd(s, start, path, next, n, key);
    }
  }

  // Every key of the path leads to an account that is not trusted and was signed
  // with the next key.
  ghost predicate Linked(s: Assertions, start: string, keys: seq<string>) {
    && keys != [] && keys[0] == start
    && forall i :: 0 <= i < |keys| - 1 ==>
         keys[i] in s.keys && s.keys[keys[i]] in s.accounts &&
         var a := s.accounts[s.keys[keys[i]]];
         !(a.displayName == "kebeng" && a.validation == "certified") && a.signKey == keys[i + 1]
  }

  lemma ClimbedIsLinked(s: Assertions, start: string, path: seq<string>, next: string)
    requires Climbed(s, start, path, next)
    ensures Linked(s, start, path + [next])
  {
    forall i | 0 <= i < |path| ensures AccountOf(s, path[i]).signKey == (path + [next])[i + 1] {
      assert IsKeyAt(s, start, i + 1, AccountOf(s, path[i]).signKey);
      OneKeyAt(s, start, i + 1, AccountOf(s, path[i]).signKey, (path + [next])[i + 1]);
    }
  }

  // Trusted exactly when a trusted account is on the chain; otherwise a failed
  // fetch or a cycle, depending on whether the chain ends. It always returns,
  // and asks for no key twice.
  method Climb(s: Assertions, start: string) returns (result: Result, asked: seq<string>)
    ensures result.Trusted? <==> ReachesTrusted(s, start)
    ensures result.FetchFailed? <==> !ReachesTrusted(s, start) && ReachesDeadEnd(s, start)
    ensures result.Cycle? <==> !ReachesTrusted(s, start) && !ReachesDeadEnd(s, start)
    ensures forall i :: 0 <= i < |asked| ==> IsKeyAt(s, start, i, asked[i])
    ensures forall i, j :: 0 <= i < j < |asked| ==> asked[i] != asked[j]
    ensures result.Cycle? ==> result.key in asked
    ensures Linked(s, start, if result.Cycle? then asked + [result.key] else asked)
    ensures result.Cycle? || (
      var last := asked[|asked| - 1];
      if last !in s.keys || s.keys[last] !in s.accounts then result.FetchFailed?
      else
        var a := s.accounts[s.keys[last]];
        result.Trusted? && a.displayName == "kebeng" && a.validation == "certified")
  {
    var seen, nextKey := {}, start;
    asked := [];
    while true
      invariant Climbed(s, start, asked, nextKey)
      invariant seen == (set k | k in asked) && seen <= s.keys.Keys
      decreases s.keys.Keys - seen
    {
      ClimbedIsLinked(s, start, asked, nextKey);
      if nextKey in seen {
        CycleMeansNeither(s, start, asked, nextKey);
        return Cycle(nextKey), asked;
      }
      seen := seen + {nextKey};
      if nextKey !in s.keys {
        DeadEndMeansUntrusted(s, start, asked, nextKey);
        return FetchFailed, asked + [nextKey];
      }
      var accountId := s.keys[nextKey];
      if accountId !in s.accounts {
        DeadEndMeansUntrusted(s, start, asked, nextKey);
        return FetchFailed, asked + [nextKey];
      }
      var account := s.accounts[accountId];
      if account.displayName == "kebeng" && account.validation == "certified" {
        return Trusted, asked + [nextKey];
      }
      Higher(s, start, asked, nextKey);
      asked := asked + [nextKey];
      nextKey := account.signKey;
    }
  }
}
