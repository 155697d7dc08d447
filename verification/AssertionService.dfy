/**
 The assertion service: how account keys, snap declarations and accounts get their
 revision numbers. Signing and key encoding may fail; the subject ids are parsed by
 a given function.
 */
module AssertionService {
  import opened Text
  import opened ErrorLists

  // The headers that matter, as signed.
  datatype Signed = Signed(subject: string, revision: string)
  datatype Document = Document(subject: string, revision: nat, signed: Signed)

  datatype Collections = Collections(keys: seq<Document>, declarations: seq<Document>, accounts: seq<Document>)

  datatype Insert = Inserted | Rejected(error: CustomError) | LostReply(error: CustomError)

  // What goes wrong during one request.
  datatype Fault = Fault(lookup: Option<CustomError>, decode: Option<string>, sign: Option<string>, insert: Insert)

  // A failing lookup is not mistaken for an empty one: only the driver's
  // no-documents error is converted to resource-not-found.
  predicate Honest(f: Fault) { f.lookup.Some? ==> f.lookup.value.code != RESOURCE_NOT_FOUND }

  datatype Request =
    | AddAccountKey(account: string)
    | AddSnapDeclaration(snap: string, publisher: string)
    | AddAccount(account: string)

  type Parse = string -> Option<string>

  datatype Reply = Reply(revision: Option<nat>, errors: seq<ProtoError>)

  // ---- Specification ----

  // Highest revision stored for the subject.
  function Latest(docs: seq<Document>, subject: string): Option<nat> {
    if docs == [] then None
    else
      var d, r := docs[|docs| - 1], Latest(docs[..|docs| - 1], subject);
      if d.subject == subject && (r.None? || r.value < d.revision) then Some(d.revision) else r
  }

  function NextRevision(docs: seq<Document>, subject: string): nat {
    var latest := Latest(docs, subject);
    if latest.None? then 1 else (latest.value + 1) % TWO_TO_32
  }

  function NewDocument(text: string, subject: string, revision: nat): Document {
    Document(subject, revision, Signed(text, PrintNat(revision)))
  }

  // The documents afterwards and the one error, if any.
  function Add(docs: seq<Document>, text: string, subject: string, f: Fault): (seq<Document>, Option<CustomError>) {
    if f.lookup.Some? then (docs, f.lookup)
    else if f.decode.Some? then (docs, Some(CustomError(INVALID, f.decode.value)))
    else if f.sign.Some? then (docs, Some(CustomError(INVALID, f.sign.value)))
    else
      var doc := NewDocument(text, subject, NextRevision(docs, subject));
      match f.insert
      case Inserted => (docs + [doc], None)
      case Rejected(error) => (docs, Some(error))
      case LostReply(error) => (docs + [doc], Some(error))
  }

  function ReplyOf(revision: nat, error: Option<CustomError>): Reply {
    if error.Some? then Reply(None, ToProto([error.value])) else Reply(Some(revision), [])
  }

  const KEY_ID_ERROR: CustomError := CustomError(INVALID_FIELD, "failed to parse account id")
  const ID_ERROR: CustomError := CustomError(INVALID, "failed to parse id")

  // Decoding a public key is part of one of the three requests only.
  function NoDecoding(f: Fault): Fault { f.(decode := None) }

  function Step(s: Collections, req: Request, parse: Parse, f: Fault): (Collections, Reply) {
    match req
    case AddAccountKey(account) =>
      var id := parse(account);
      if id.None? then (s, ReplyOf(0, Some(KEY_ID_ERROR)))
      else
        var (docs, error) := Add(s.keys, account, id.value, f);
        (s.(keys := docs), ReplyOf(NextRevision(s.keys, id.value), error))
    case AddSnapDeclaration(snap, publisher) =>
      var id := parse(snap);
      if id.None? || parse(publisher).None? then (s, ReplyOf(0, Some(ID_ERROR)))
      else
        var (docs, error) := Add(s.declarations, snap, id.value, NoDecoding(f));
        (s.(declarations := docs), ReplyOf(NextRevision(s.declarations, id.value), error))
    case AddAccount(account) =>
      var id := parse(account);
      if id.None? then (s, ReplyOf(0, Some(ID_ERROR)))
      else
        var (docs, error) := Add(s.accounts, account, id.value, NoDecoding(f));
        (s.(accounts := docs), ReplyOf(NextRevision(s.accounts, id.value), error))
  }

  // ---- Numbering ----

  // Revisions of one subject in insertion order.
  function Revisions(docs: seq<Document>, subject: string): seq<nat> {
    if docs == [] then []
    else
      var d := docs[|docs| - 1];
      Revisions(docs[..|docs| - 1], subject) + if d.subject == subject then [d.revision] else []
  }

  predicate CountsUp(revisions: seq<nat>) { forall i :: 0 <= i < |revisions| ==> revisions[i] == i + 1 }

  // Every subject's revisions are 1, 2, ..., n in the order they were inserted.
  ghost predicate Numbered(docs: seq<Document>) { forall subject :: CountsUp(Revisions(docs, subject)) }

  // The revision that was signed is the one that is stored.
  predicate SignedAsStored(docs: seq<Document>) {
    forall i :: 0 <= i < |docs| ==> docs[i].signed.revision == PrintNat(docs[i].revision)
  }

  lemma {:induction false} LatestIsLast(docs: seq<Document>, subject: string)
    requires CountsUp(Revisions(docs, subject))
    ensures Latest(docs, subject) == var n := |Revisions(docs, subject)|; if n == 0 then None else Some(n)
  {
    if docs != [] {
      var rest := docs[..|docs| - 1];
      var n := |Revisions(rest, subject)|;
      assert Revisions(docs, subject)[..n] == Revisions(rest, subject);
      assert forall i :: 0 <= i < n ==> Revisions(rest, subject)[i] == Revisions(docs, subject)[i];
      LatestIsLast(rest, subject);
      if docs[|docs| - 1].subject == subject {
        assert Revisions(docs, subject)[n] == docs[|docs| - 1].revision;
      }
    }
  }

  lemma OneMore(docs: seq<Document>, d: Document, subject: string)
    ensures Revisions(docs + [d], subject) == Revisions(docs, subject)
        + if d.subject == subject then [d.revision] else []
  {
    assert (docs + [d])[..|docs|] == docs;
  }

  // The document does not get into the collection.
  predicate StoresNothing(f: Fault) { f.lookup.Some? || f.decode.Some? || f.sign.Some? || f.insert.Rejected? }

  // An add changes no other subject, and keeps the numbering exactly when it
  // stores nothing or the subject's uint32 numbers are not used up.
  lemma AddKeepsNumbering(docs: seq<Document>, text: string, subject: string, f: Fault)
    requires Numbered(docs)
    ensures var docs' := Add(docs, text, subject, f).0;
      && (forall other :: other != subject ==> Revisions(docs', other) == Revisions(docs, other))
      && (docs' == docs <==> StoresNothing(f))
      && (Numbered(docs') <==> StoresNothing(f) || |Revisions(docs, subject)| + 1 < TWO_TO_32)
  {
    hide Latest, Revisions, PrintNat;
    if Add(docs, text, subject, f).0 != docs {
      LatestIsLast(docs, subject);
      NextAtMost(docs, subject);
      AppendNumbered(docs, NewDocument(text, subject, NextRevision(docs, subject)));
    }
  }

  lemma AppendNumbered(docs: seq<Document>, doc: Document)
    requires Numbered(docs)
    ensures forall other :: other != doc.subject ==> Revisions(docs + [doc], other) == Revisions(docs, other)
    ensures Numbered(docs + [doc]) <==> doc.revision == |Revisions(docs, doc.subject)| + 1
  {
    var n := |Revisions(docs, doc.subject)|;
    forall other
      ensures Revisions(docs + [doc], other) == Revisions(docs, other)
          + if other == doc.subject then [doc.revision] else []
    {
      OneMore(docs, doc, other);
    }
    assert Revisions(docs + [doc], doc.subject)[n] == doc.revision;
    if doc.revision == n + 1 {
      forall other ensures CountsUp(Revisions(docs + [doc], other)) {
        assert CountsUp(Revisions(docs, other));
      }
    } else {
      assert !CountsUp(Revisions(docs + [doc], doc.subject));
    }
  }

  lemma NextAtMost(docs: seq<Document>, subject: string)
    ensures NextRevision(docs, subject) < TWO_TO_32
  {
  }

  // ---- Answers ----

  // The error list is empty exactly on success; success stores exactly one
  // document, numbered after those of its subject, first ones included.
  lemma AddAnswers(docs: seq<Document>, text: string, subject: string, f: Fault)
    requires Numbered(docs) && |Revisions(docs, subject)| + 1 < TWO_TO_32
    ensures var (docs', error) := Add(docs, text, subject, f);
      var n := |Revisions(docs, subject)|;
      && (error.None? <==> ReplyOf(NextRevision(docs, subject), error).errors == [])
      && (error.None? ==>
            docs' == docs + [NewDocument(text, subject, n + 1)]
            && ReplyOf(NextRevision(docs, subject), error) == Reply(Some(n + 1), []))
      && (error.Some? && !f.insert.LostReply? ==> docs' == docs)
  {
    LatestIsLast(docs, subject);
  }

  // What one request does to the collection it is about, and answers: the first
  // thing that fails is the one error; otherwise one document is added, numbered
  // after those of its subject as a uint32 and signed under that number.
  ghost predicate IsAnswer(
      docs: seq<Document>, docs': seq<Document>, reply: Reply, text: string, subject: string, f: Fault)
  {
    var n := (|Revisions(docs, subject)| + 1) % 0x1_0000_0000;
    var doc := Document(subject, n, Signed(text, PrintNat(n)));
    if f.lookup.Some? then docs' == docs && Refuses(reply, f.lookup.value.code, f.lookup.value.message)
    else if f.decode.Some? then docs' == docs && Refuses(reply, "invalid", f.decode.value)
    else if f.sign.Some? then docs' == docs && Refuses(reply, "invalid", f.sign.value)
    else if f.insert.Inserted? then docs' == docs + [doc] && reply == Reply(Some(n), [])
    else
      && docs' == (if f.insert.LostReply? then docs + [doc] else docs)
      && Refuses(reply, f.insert.error.code, f.insert.error.message)
  }

  // No revision and exactly this error.
  predicate Refuses(reply: Reply, code: string, message: string) {
    reply == Reply(None, [ProtoError(code, message)])
  }

  lemma AddIsAnswer(docs: seq<Document>, text: string, subject: string, f: Fault)
    requires Numbered(docs)
    ensures var (docs', error) := Add(docs, text, subject, f);
      IsAnswer(docs, docs', ReplyOf(NextRevision(docs, subject), error), text, subject, f)
  {
    LatestIsLast(docs, subject);
    var error := Add(docs, text, subject, f).1;
    if error.Some? {
      assert ToProto([error.value]) == [ProtoError(error.value.code, error.value.message)];
    }
  }

  // An account key goes to the account it names, among the keys, and nowhere else.
  lemma AccountKeyAnswers(s: Collections, account: string, parse: Parse, f: Fault)
    requires Numbered(s.keys)
    ensures var (t, reply) := Step(s, AddAccountKey(account), parse, f);
      && t.declarations == s.declarations && t.accounts == s.accounts
      && match parse(account)
         case None => t.keys == s.keys && Refuses(reply, "invalid-field", "failed to parse account id")
         case Some(id) => IsAnswer(s.keys, t.keys, reply, account, id, f)
  {
    if parse(account).Some? {
      AddIsAnswer(s.keys, account, parse(account).value, f);
    }
  }

  // A snap declaration goes to the snap; its publisher must parse too.
  lemma SnapDeclarationAnswers(s: Collections, snap: string, publisher: string, parse: Parse, f: Fault)
    requires Numbered(s.declarations)
    ensures var (t, reply) := Step(s, AddSnapDeclaration(snap, publisher), parse, f);
      && t.keys == s.keys && t.accounts == s.accounts
      && if parse(snap).None? || parse(publisher).None?
         then t.declarations == s.declarations && Refuses(reply, "invalid", "failed to parse id")
         else IsAnswer(s.declarations, t.declarations, reply, snap, parse(snap).value, f.(decode := None))
  {
    if parse(snap).Some? && parse(publisher).Some? {
      AddIsAnswer(s.declarations, snap, parse(snap).value, NoDecoding(f));
    }
  }

  // An account assertion goes to the account, among the accounts: its numbers are
  // not those of the account's keys.
  lemma AccountAnswers(s: Collections, account: string, parse: Parse, f: Fault)
    requires Numbered(s.accounts)
    ensures var (t, reply) := Step(s, AddAccount(account), parse, f);
      && t.keys == s.keys && t.declarations == s.declarations
      && match parse(account)
         case None => t.accounts == s.accounts && Refuses(reply, "invalid", "failed to parse id")
         case Some(id) => IsAnswer(s.accounts, t.accounts, reply, account, id, f.(decode := None))
  {
    if parse(account).Some? {
      AddIsAnswer(s.accounts, account, parse(account).value, NoDecoding(f));
    }
  }

  // When nothing fails each request adds one document to its own collection.
  lemma AnswersWithoutFailures(s: Collections, text: string, publisher: string, parse: Parse, id: string)
    requires Numbered(s.keys) && Numbered(s.declarations) && Numbered(s.accounts)
    requires parse(text) == Some(id) && parse(publisher).Some?
    ensures var n := (|Revisions(s.keys, id)| + 1) % 0x1_0000_0000;
      Step(s, AddAccountKey(text), parse, NO_FAULT)
      == (s.(keys := s.keys + [Document(id, n, Signed(text, PrintNat(n)))]), Reply(Some(n), []))
    ensures var n := (|Revisions(s.declarations, id)| + 1) % 0x1_0000_0000;
      Step(s, AddSnapDeclaration(text, publisher), parse, NO_FAULT)
      == (s.(declarations := s.declarations + [Document(id, n, Signed(text, PrintNat(n)))]), Reply(Some(n), []))
    ensures var n := (|Revisions(s.accounts, id)| + 1) % 0x1_0000_0000;
      Step(s, AddAccount(text), parse, NO_FAULT)
      == (s.(accounts := s.accounts + [Document(id, n, Signed(text, PrintNat(n)))]), Reply(Some(n), []))
  {
    AccountKeyAnswers(s, text, parse, NO_FAULT);
    SnapDeclarationAnswers(s, text, publisher, parse, NO_FAULT);
    AccountAnswers(s, text, parse, NO_FAULT);
  }

  const NO_FAULT: Fault := Fault(None, None, None, Inserted)

  // ---- Histories ----

  ghost predicate Good(s: Collections) {
    && Numbered(s.keys) && Numbered(s.declarations) && Numbered(s.accounts)
    && SignedAsStored(s.keys) && SignedAsStored(s.declarations) && SignedAsStored(s.accounts)
  }

  predicate AppendOnly(s: Collections, t: Collections) {
    s.keys <= t.keys && s.declarations <= t.declarations && s.accounts <= t.accounts
  }

  predicate AtMost(s: Collections, n: nat) { |s.keys| <= n && |s.declarations| <= n && |s.accounts| <= n }

  lemma {:induction false} NoMoreThanDocuments(docs: seq<Document>, subject: string)
    ensures |Revisions(docs, subject)| <= |docs|
  {
    if docs != [] {
      NoMoreThanDocuments(docs[..|docs| - 1], subject);
    }
  }

  lemma AddIsGood(docs: seq<Document>, text: string, subject: string, f: Fault, n: nat)
    requires Numbered(docs) && SignedAsStored(docs) && |docs| <= n && n + 1 < TWO_TO_32
    ensures var docs' := Add(docs, text, subject, f).0;
      Numbered(docs') && SignedAsStored(docs') && |docs'| <= n + 1
  {
    NoMoreThanDocuments(docs, subject);
    AddKeepsNumbering(docs, text, subject, f);
  }

  lemma StepIsGood(s: Collections, req: Request, parse: Parse, f: Fault, n: nat)
    requires Good(s) && AtMost(s, n) && n + 1 < TWO_TO_32
    ensures var t := Step(s, req, parse, f).0; Good(t) && AtMost(t, n + 1)
  {
    match req
    case AddAccountKey(account) =>
      if parse(account).Some? {
        AddIsGood(s.keys, account, parse(account).value, f, n);
      }
    case AddSnapDeclaration(snap, publisher) =>
      if parse(snap).Some? {
        AddIsGood(s.declarations, snap, parse(snap).value, NoDecoding(f), n);
      }
    case AddAccount(account) =>
      if parse(account).Some? {
        AddIsGood(s.accounts, account, parse(account).value, NoDecoding(f), n);
      }
  }

  datatype Event = Event(req: Request, fault: Fault)

  ghost predicate IsHistory(states: seq<Collections>, events: seq<Event>, parse: Parse) {
    && |states| == |events| + 1 && states[0] == Collections([], [], [])
    && forall k :: 0 <= k < |events| ==> states[k + 1] == Step(states[k], events[k].req, parse, events[k].fault).0
  }

  // After any requests, with any of them failing anywhere, every subject's
  // stored revisions count up from one and carry the number they were signed
  // with.
  lemma {:induction false} HistoryIsGood(states: seq<Collections>, events: seq<Event>, parse: Parse, k: nat)
    requires IsHistory(states, events, parse) && k <= |events| < TWO_TO_32 - 1
    ensures Good(states[k]) && AtMost(states[k], k)
  {
    if k > 0 {
      HistoryIsGood(states, events, parse, k - 1);
      StepIsGood(states[k - 1], events[k - 1].req, parse, events[k - 1].fault, k - 1);
      assert states[k - 1 + 1] == Step(states[k - 1], events[k - 1].req, parse, events[k - 1].fault).0;
    }
  }

  // Nothing stored is ever changed.
  lemma {:induction false} NothingIsLost(states: seq<Collections>, events: seq<Event>, parse: Parse, j: nat, k: nat)
    requires IsHistory(states, events, parse) && j <= k <= |events|
    ensures AppendOnly(states[j], states[k])
  {
    if j < k {
      NothingIsLost(states, events, parse, j, k - 1);
      StepAppends(states[k - 1], events[k - 1].req, parse, events[k - 1].fault);
      assert states[k - 1 + 1] == Step(states[k - 1], events[k - 1].req, parse, events[k - 1].fault).0;
    }
  }

  lemma StepAppends(s: Collections, req: Request, parse: Parse, f: Fault)
    ensures AppendOnly(s, Step(s, req, parse, f).0)
  {
  }

  // ---- The service ----

  class Repository {
    var keys: seq<Document>
    var declarations: seq<Document>
    var accounts: seq<Document>

    constructor ()
      ensures State() == Collections([], [], [])
    {
      keys, declarations, accounts := [], [], [];
    }

    function State(): Collections
      reads this
    {
      Collections(keys, declarations, accounts)
    }

    // The sorted lookup; a missing document is an error too.
    method FindLatest(docs: seq<Document>, subject: string, el: ErrorList, f: Fault)
      returns (revision: nat, cerr: Option<CustomError>)
      modifies el
      ensures cerr ==
          if f.lookup.Some? then f.lookup else if Latest(docs, subject).None? then Some(NotFound(subject)) else None
      ensures el.errors == old(el.errors) + if cerr.Some? then [cerr.value] else []
      ensures cerr.None? ==> Latest(docs, subject) == Some(revision)
    {
      revision, cerr := 0, f.lookup;
      if cerr.None? {
        var latest := Latest(docs, subject);
        if latest.Some? {
          return latest.value, None;
        }
        cerr := Some(NotFound(subject));
      }
      el.AddCustomError(cerr.value);
    }

    method InsertOne(docs: seq<Document>, doc: Document, el: ErrorList, f: Fault)
      returns (docs': seq<Document>, cerr: Option<CustomError>)
      modifies el
      ensures docs' == if f.insert.Rejected? then docs else docs + [doc]
      ensures cerr == if f.insert.Inserted? then None else Some(f.insert.error)
      ensures el.errors == old(el.errors) + if cerr.Some? then [cerr.value] else []
    {
      docs' := if f.insert.Rejected? then docs else docs + [doc];
      cerr := if f.insert.Inserted? then None else Some(f.insert.error);
      if cerr.Some? {
        el.AddCustomError(cerr.value);
      }
    }
  }

  function NotFound(subject: string): CustomError {
    CustomError(RESOURCE_NOT_FOUND, "failed to get latest assertion by id: " + subject)
  }

  lemma RemovingTheOnlyError(err: CustomError)
    ensures Without([err], err.code) == []
  {
    assert [err][..0] == [];
  }

  class Service {
    const repo: Repository
    const parse: Parse

    constructor (repo: Repository, parse: Parse)
      ensures this.repo == repo && this.parse == parse
    {
      this.repo, this.parse := repo, parse;
    }

    // The number to use, with a not-found error taken back out of the list.
    method RevisionNumber(docs: seq<Document>, subject: string, el: ErrorList, f: Fault) returns (revision: Option<nat>)
      requires Honest(f) && el.errors == []
      modifies el
      ensures revision == if f.lookup.Some? then None else Some(NextRevision(docs, subject))
      ensures el.errors == if f.lookup.Some? then [f.lookup.value] else []
    {
      var latest, cerr := repo.FindLatest(docs, subject, el, f);
      if cerr.Some? && cerr.value.code != RESOURCE_NOT_FOUND {
        return None;
      } else if cerr.Some? {
        RemovingTheOnlyError(cerr.value);
        el.RemoveErrorWithCode(RESOURCE_NOT_FOUND);
        return Some(1);
      } else {
        return Some((latest + 1) % TWO_TO_32);
      }
    }

    method Failed(el: ErrorList) returns (reply: Reply)
      ensures reply == Reply(None, ToProto(el.errors))
    {
      var errors := el.ConvertToProtoErrorList();
      return Reply(None, errors);
    }

    method AddAccountKeyAssertion(account: string, f: Fault) returns (reply: Reply)
      requires Honest(f)
      modifies repo
      ensures (repo.State(), reply) == Step(old(repo.State()), AddAccountKey(account), parse, f)
    {
      var el := new ErrorList();
      var id := parse(account);
      if id.None? {
        el.AddCustomError(KEY_ID_ERROR);
        assert el.errors == [KEY_ID_ERROR];
        reply := Failed(el);
        return;
      }
      var revision := RevisionNumber(repo.keys, id.value, el, f);
      if revision.None? {
        reply := Failed(el);
        return;
      }
      if f.decode.Some? {
        el.Add(INVALID, f.decode.value);
        assert el.errors == [CustomError(INVALID, f.decode.value)];
        reply := Failed(el);
        return;
      }
      if f.sign.Some? {
        el.Add(INVALID, f.sign.value);
        assert el.errors == [CustomError(INVALID, f.sign.value)];
        reply := Failed(el);
        return;
      }
      var docs, cerr := repo.InsertOne(repo.keys, NewDocument(account, id.value, revision.value), el, f);
      repo.keys := docs;
      if cerr.Some? {
        assert el.errors == [cerr.value];
        reply := Failed(el);
        return;
      }
      var errors := el.ConvertToProtoErrorList();
      return Reply(revision, errors);
    }

    method AddSnapDeclarationAssertion(snap: string, publisher: string, f: Fault) returns (reply: Reply)
      requires Honest(f)
      modifies repo
      ensures (repo.State(), reply) == Step(old(repo.State()), AddSnapDeclaration(snap, publisher), parse, f)
    {
      var el := new ErrorList();
      var id := parse(snap);
      if id.None? {
        el.AddCustomError(ID_ERROR);
        assert el.errors == [ID_ERROR];
        reply := Failed(el);
        return;
      }
      if parse(publisher).None? {
        el.AddCustomError(ID_ERROR);
        assert el.errors == [ID_ERROR];
        reply := Failed(el);
        return;
      }
      var revision := RevisionNumber(repo.declarations, id.value, el, f);
      if revision.None? {
        reply := Failed(el);
        return;
      }
      if f.sign.Some? {
        el.Add(INVALID, f.sign.value);
        assert el.errors == [CustomError(INVALID, f.sign.value)];
        reply := Failed(el);
        return;
      }
      var docs, cerr := repo.InsertOne(repo.declarations, NewDocument(snap, id.value, revision.value), el, f);
      repo.declarations := docs;
      if cerr.Some? {
        assert el.errors == [cerr.value];
        reply := Failed(el);
        return;
      }
      var errors := el.ConvertToProtoErrorList();
      return Reply(revision, errors);
    }

    // The real answer leaves the revision out; here it is given to say more.
    method AddAccountAssertion(account: string, f: Fault) returns (reply: Reply)
      requires Honest(f)
      modifies repo
      ensures (repo.State(), reply) == Step(old(repo.State()), AddAccount(account), parse, f)
    {
      var el := new ErrorList();
      var id := parse(account);
      if id.None? {
        el.AddCustomError(ID_ERROR);
        assert el.errors == [ID_ERROR];
        reply := Failed(el);
        return;
      }
      var revision := RevisionNumber(repo.accounts, id.value, el, f);
      if revision.None? {
        reply := Failed(el);
        return;
      }
      if f.sign.Some? {
        el.Add(INVALID, f.sign.value);
        assert el.errors == [CustomError(INVALID, f.sign.value)];
        reply := Failed(el);
        return;
      }
      var docs, cerr := repo.InsertOne(repo.accounts, NewDocument(account, id.value, revision.value), el, f);
      repo.accounts := docs;
      if cerr.Some? {
        assert el.errors == [cerr.value];
        reply := Failed(el);
        return;
      }
      var errors := el.ConvertToProtoErrorList();
      return Reply(revision, errors);
    }
  }
}
