/**
 The error list every service collects into, and its wire form.
 */
module ErrorLists {

  datatype CustomError = CustomError(code: string, message: string)
  datatype ProtoError = ProtoError(code: string, message: string)

  const RESOURCE_NOT_FOUND: string := "resource-not-found"
  const INVALID: string := "invalid"
  const INVALID_FIELD: string := "invalid-field"

  // ---- Specification ----

  function Without(s: seq<CustomError>, code: string): seq<CustomError> {
    if s == [] then []
    else Without(s[..|s| - 1], code) + (if s[|s| - 1].code == code then [] else [s[|s| - 1]])
  }

  function WithoutProto(s: seq<ProtoError>, code: string): seq<ProtoError> {
    if s == [] then []
    else WithoutProto(s[..|s| - 1], code) + (if s[|s| - 1].code == code then [] else [s[|s| - 1]])
  }

  function ToProto(s: seq<CustomError>): (r: seq<ProtoError>)
    ensures |r| == |s| && forall i :: 0 <= i < |s| ==> r[i] == ProtoError(s[i].code, s[i].message)
  {
    seq(|s|, i requires 0 <= i < |s| => ProtoError(s[i].code, s[i].message))
  }

  function FromProto(s: seq<ProtoError>): (r: seq<CustomError>)
    ensures |r| == |s| && forall i :: 0 <= i < |s| ==> r[i] == CustomError(s[i].code, s[i].message)
  {
    seq(|s|, i requires 0 <= i < |s| => CustomError(s[i].code, s[i].message))
  }

  // ---- Properties ----

  // `picks` are the positions of s that do not carry the code, upwards, and r is
  // what stands there.
  ghost predicate Picks(s: seq<CustomError>, code: string, picks: seq<nat>, r: seq<CustomError>) {
    && |picks| == |r|
    && (forall i :: 0 <= i < |picks| ==> picks[i] < |s| && s[picks[i]] == r[i])
    && (forall i, j :: 0 <= i < j < |picks| ==> picks[i] < picks[j])
    && (forall k :: 0 <= k < |s| ==> (k in picks <==> s[k].code != code))
  }

  lemma PicksOneMore(s: seq<CustomError>, code: string, n: nat, front: seq<nat>, r: seq<CustomError>)
    requires n + 1 == |s| && Picks(s[..n], code, front, r)
    ensures if s[n].code == code then Picks(s, code, front, r) else Picks(s, code, front + [n], r + [s[n]])
  {
    assert forall k :: 0 <= k < n ==> s[..n][k] == s[k];
    assert n !in front;
    assert n in front + [n] by { assert (front + [n])[|front|] == n; }
    assert forall k :: k in front + [n] <==> k in front || k == n;
  }

  // What is left is the order-preserving filter of the list.
  lemma {:induction false} WithoutIsFilter(s: seq<CustomError>, code: string) returns (picks: seq<nat>)
    ensures Picks(s, code, picks, Without(s, code))
  {
    if s == [] {
      picks := [];
    } else {
      var n := |s| - 1;
      var front := WithoutIsFilter(s[..n], code);
      PicksOneMore(s, code, n, front, Without(s[..n], code));
      picks := if s[n].code == code then front else front + [n];
      assert Without(s[..n], code) + [] == Without(s[..n], code);
    }
  }

  lemma {:induction false} WithoutConcat(s: seq<CustomError>, t: seq<CustomError>, code: string)
    ensures Without(s + t, code) == Without(s, code) + Without(t, code)
  {
    if t == [] {
      assert s + t == s;
    } else {
      var n := |t| - 1;
      assert (s + t)[..|s + t| - 1] == s + t[..n];
      WithoutConcat(s, t[..n], code);
    }
  }

  // One turn of the loop that deletes in place.
  lemma OneDeletion(was: seq<CustomError>, i: nat, code: string, now: seq<CustomError>)
    requires i < |was| && now == was[..i + 1] + Without(was[i + 1..], code)
    ensures i < |now| && now[i] == was[i]
    ensures (if was[i].code == code then now[..i] + now[i + 1..] else now) == was[..i] + Without(was[i..], code)
  {
    var rest := Without(was[i + 1..], code);
    assert was[i..] == [was[i]] + was[i + 1..];
    WithoutConcat([was[i]], was[i + 1..], code);
    assert [was[i]][..0] == [];
    assert Without([was[i]], code) == if was[i].code == code then [] else [was[i]];
    assert now[..i] == was[..i] && now[i + 1..] == rest && now == was[..i] + ([was[i]] + rest);
  }

  // Removing and converting commute.
  lemma {:induction false} ConvertCommutes(s: seq<CustomError>, code: string)
    ensures ToProto(Without(s, code)) == WithoutProto(ToProto(s), code)
  {
    if s != [] {
      var n := |s| - 1;
      ConvertCommutes(s[..n], code);
      assert ToProto(s)[..n] == ToProto(s[..n]);
    }
  }

  lemma RoundTrip(s: seq<CustomError>)
    ensures FromProto(ToProto(s)) == s
  {
  }

  // ---- The list ----

  class ErrorList {
    var errors: seq<CustomError>

    constructor ()
      ensures errors == []
    {
      errors := [];
    }

    method AddCustomError(err: CustomError)
      modifies this
      ensures errors == old(errors) + [err]
    {
      errors := errors + [err];
    }

    method Add(code: string, message: string)
      modifies this
      ensures errors == old(errors) + [CustomError(code, message)]
    {
      errors := errors + [CustomError(code, message)];
    }

    // Deletes in place while the index goes down.
    method RemoveErrorWithCode(code: string)
      modifies this
      ensures errors == Without(old(errors), code)
    {
      ghost var was := errors;
      assert was[..|was|] + Without(was[|was|..], code) == was;
      for i := |errors| downto 0
        invariant i <= |was| && errors == was[..i] + Without(was[i..], code)
      {
        OneDeletion(was, i, code, errors);
        var currentError := errors[i];
        if currentError.code == code {
          errors := errors[..i] + errors[i + 1..];
        }
      }
      assert was[0..] == was && was[..0] == [];
    }

    method ConvertToProtoErrorList() returns (r: seq<ProtoError>)
      ensures r == ToProto(errors)
    {
      r := [];
      for i := 0 to |errors|
        invariant r == ToProto(errors[..i])
      {
        r := r + [ProtoError(errors[i].code, errors[i].message)];
      }
      assert errors[..|errors|] == errors;
    }

    method ExtendProtoError(other: seq<ProtoError>)
      modifies this
      ensures errors == old(errors) + FromProto(other)
    {
      for i := 0 to |other|
        invariant errors == old(errors) + FromProto(other[..i])
      {
        Add(other[i].code, other[i].message);
      }
      assert other[..|other|] == other;
    }
  }
}
