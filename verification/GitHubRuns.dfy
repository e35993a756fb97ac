/** What pull request events do to leases (internal/sourcewebhook/github_actions.go
    and github_payload.go), and what survives any sequence of them. */
module GitHubRuns {
  import opened GitHubNames

  datatype Key = Source | Owner | Repo | PullRequest | Sha | Branch | Delivery | FullNameKey | RequestID | Other(text: string)

  type Annotations = map<Key, string>

  /** A lease as far as its source matters. */
  datatype SourcedLease = SourcedLease(annotations: Annotations, finalizer: bool, deleting: bool, sourceClosed: bool)

  type Store = map<string, SourcedLease>

  datatype Action = Opened | Reopened | Closed | Ignored

  /** A parsed pull_request event; the number is positive (toRef refuses others). */
  datatype PREvent = PREvent(action: Action, ref: PRRef, delivery: string, merged: bool)

  /** The configured policy, and how each call to the API server ends. */
  datatype Answers = Answers(
    policyName: string, getOk: bool, policyAccepts: bool, createOk: bool, raced: bool, patchOk: bool, statusOk: bool,
    deleteOk: bool)

  datatype Reply = Reply(code: int, duplicate: bool) | ServerError

  function ValueOf(a: Annotations, k: Key): string {
    if k in a then a[k] else ""
  }

  // ------------------------------------------------------------- annotations

  function Given(a: Annotations, k: Key, v: string): Annotations {
    if v == "" then a else a[k := v]
  }

  /** githubMetadataAnnotations */
  function Metadata(ref: PRRef, delivery: string): Annotations
    requires ref.number >= 0
  {
    var base := map[Source := "github", Owner := ref.owner, Repo := ref.repo, PullRequest := Itoa(ref.number),
                    FullNameKey := FullName(ref)];
    var a := Given(Given(Given(base, Sha, ref.sha), Branch, ref.branch), Delivery, delivery);
    if delivery == "" then a else a[RequestID := "github:" + delivery]
  }

  predicate Contains(s: string, sub: string) {
    |sub| <= |s| && (s[..|sub|] == sub || (s != "" && Contains(s[1..], sub)))
  }

  /** AssertNoGitHubSecretInSpec refuses these; the webhook's own keys are fine. */
  predicate SecretLike(a: Annotations) {
    exists k :: k in a &&
      ((k.Other? && (Contains(ToLower(k.text), "token") || Contains(ToLower(k.text), "secret")
                     || Contains(ToLower(k.text), "password")))
       || Contains(ToLower(a[k]), "ghp_"))
  }

  /** The full name a lease has on record, if any. */
  function RecordedName(a: Annotations): string {
    if ValueOf(a, FullNameKey) != "" then ValueOf(a, FullNameKey)
    else if ValueOf(a, Owner) != "" && ValueOf(a, Repo) != "" then ValueOf(a, Owner) + "/" + ValueOf(a, Repo)
    else ""
  }

  /** githubIdentityConflict */
  predicate Conflict(a: Annotations, ref: PRRef) {
    RecordedName(a) != "" && RecordedName(a) != FullName(ref)
  }

  // ------------------------------------------------------------------ handlers

  function EnsureLease(s: Store, name: string, ref: PRRef, delivery: string, ans: Answers): (Store, Reply)
    requires ref.number >= 0
  {
    if ans.policyName == "" then (s, Reply(500, false))
    else if !ans.getOk then (s, ServerError)
    else if name in s then
      var l := s[name];
      if delivery != "" && ValueOf(l.annotations, Delivery) == delivery then (s, Reply(200, true))
      else if Conflict(l.annotations, ref) then (s, Reply(409, false))
      else if l.deleting then (s, Reply(409, false))
      else
        var patched := l.annotations + Metadata(ref, delivery);
        if SecretLike(patched) || !ans.patchOk then (s, ServerError)
        else (s[name := l.(annotations := patched)], Reply(200, false))
    else if SecretLike(Metadata(ref, delivery)) then (s, Reply(500, false))
    else if !ans.policyAccepts then (s, Reply(422, false))
    else if !ans.createOk then (s, if ans.raced then Reply(200, true) else ServerError)
    else (s[name := SourcedLease(Metadata(ref, delivery), false, false, false)], Reply(201, false))
  }

  /** The annotations set on the copy are lost: a status update keeps the stored
      metadata. */
  function ExpireLease(s: Store, name: string, ref: PRRef, delivery: string, ans: Answers): (Store, Reply) {
    if !ans.getOk then (s, ServerError)
    else if name !in s then (s, Reply(200, true))
    else
      var l := s[name];
      if delivery != "" && ValueOf(l.annotations, Delivery) == delivery && l.deleting then (s, Reply(200, true))
      else if Conflict(l.annotations, ref) then (s, Reply(409, false))
      else if l.deleting then (s, Reply(200, true))
      else
        var s1 := if ans.statusOk then s[name := l.(sourceClosed := true)] else s;
        if !ans.deleteOk then (s1, ServerError)
        else if l.finalizer then (s1[name := s1[name].(deleting := true)], Reply(202, false))
        else (s1 - {name}, Reply(202, false))
  }

  function Handle(hash: string -> string, s: Store, ev: PREvent, ans: Answers): (Store, Reply)
    requires ev.ref.number >= 0
  {
    var name := LeaseName(hash, ev.ref);
    match ev.action
    case Opened => EnsureLease(s, name, ev.ref, ev.delivery, ans)
    case Reopened => EnsureLease(s, name, ev.ref, ev.delivery, ans)
    case Closed => ExpireLease(s, name, ev.ref, ev.delivery, ans)
    case Ignored => (s, Reply(200, false))
  }

  class Server {
    var leases: Store
    const hash: string -> string

    constructor (hash: string -> string)
      ensures leases == map[] && this.hash == hash
    {
      this.hash, leases := hash, map[];
    }

    method MetadataAnnotations(ref: PRRef, delivery: string) returns (out: Annotations)
      requires ref.number >= 0
      ensures out == Metadata(ref, delivery)
    {
      out := map[Source := "github", Owner := ref.owner, Repo := ref.repo, PullRequest := Itoa(ref.number),
                 FullNameKey := FullName(ref)];
      if ref.sha != "" { out := out[Sha := ref.sha]; }
      if ref.branch != "" { out := out[Branch := ref.branch]; }
      if delivery != "" {
        out := out[Delivery := delivery];
        out := out[RequestID := "github:" + delivery];
      }
    }

    method Overlay(base: Annotations, extra: Annotations) returns (out: Annotations)
      ensures out == base + extra
    {
      out := base;
      var todo := extra.Keys;
      while todo != {}
        invariant todo <= extra.Keys
        invariant out.Keys == base.Keys + (extra.Keys - todo)
        invariant forall k :: k in out ==> out[k] == if k in extra.Keys - todo then extra[k] else base[k]
        decreases todo
      {
        var k :| k in todo;
        out := out[k := extra[k]];
        todo := todo - {k};
      }
    }

    method PatchMetadata(name: string, ref: PRRef, delivery: string, ok: bool) returns (failed: bool)
      requires ref.number >= 0 && name in leases
      modifies this`leases
      ensures var patched := old(leases)[name].annotations + Metadata(ref, delivery);
              && (failed <==> SecretLike(patched) || !ok)
              && leases == if failed then old(leases) else old(leases)[name := old(leases)[name].(annotations := patched)]
    {
      var metadata := MetadataAnnotations(ref, delivery);
      var patched := Overlay(leases[name].annotations, metadata);
      if SecretLike(patched) || !ok {
        return true;
      }
      leases := leases[name := leases[name].(annotations := patched)];
      return false;
    }

    method EnsureGitHubLease(name: string, ref: PRRef, delivery: string, ans: Answers) returns (r: Reply)
      requires ref.number >= 0
      modifies this`leases
      ensures (leases, r) == EnsureLease(old(leases), name, ref, delivery, ans)
    {
      if ans.policyName == "" {
        return Reply(500, false);
      }
      if !ans.getOk {
        return ServerError;
      }
      if name in leases {
        var existing := leases[name];
        if delivery != "" && ValueOf(existing.annotations, Delivery) == delivery {
          return Reply(200, true);
        }
        if Conflict(existing.annotations, ref) || existing.deleting {
          return Reply(409, false);
        }
        var failed := PatchMetadata(name, ref, delivery, ans.patchOk);
        return if failed then ServerError else Reply(200, false);
      }
      var metadata := MetadataAnnotations(ref, delivery);
      if SecretLike(metadata) {
        return Reply(500, false);
      }
      if !ans.policyAccepts {
        return Reply(422, false);
      }
      if !ans.createOk {
        return if ans.raced then Reply(200, true) else ServerError;
      }
      leases := leases[name := SourcedLease(metadata, false, false, false)];
      return Reply(201, false);
    }

    method ExpireGitHubLease(name: string, ref: PRRef, delivery: string, ans: Answers) returns (r: Reply)
      modifies this`leases
      ensures (leases, r) == ExpireLease(old(leases), name, ref, delivery, ans)
    {
      if !ans.getOk {
        return ServerError;
      }
      if name !in leases {
        return Reply(200, true);
      }
      var l := leases[name];
      if delivery != "" && ValueOf(l.annotations, Delivery) == delivery && l.deleting {
        return Reply(200, true);
      }
      if Conflict(l.annotations, ref) {
        return Reply(409, false);
      }
      if l.deleting {
        return Reply(200, true);
      }
      if ans.statusOk {
        leases := leases[name := l.(sourceClosed := true)];
      }
      if !ans.deleteOk {
        return ServerError;
      }
      if leases[name].finalizer {
        leases := leases[name := leases[name].(deleting := true)];
      } else {
        leases := leases - {name};
      }
      return Reply(202, false);
    }

    method HandlePREvent(ev: PREvent, ans: Answers) returns (r: Reply)
      requires ev.ref.number >= 0
      modifies this`leases
      ensures (leases, r) == Handle(hash, old(leases), ev, ans)
    {
      var name := LeaseName(hash, ev.ref);
      match ev.action {
        case Opened => r := EnsureGitHubLease(name, ev.ref, ev.delivery, ans);
        case Reopened => r := EnsureGitHubLease(name, ev.ref, ev.delivery, ans);
        case Closed => r := ExpireGitHubLease(name, ev.ref, ev.delivery, ans);
        case Ignored => r := Reply(200, false);
      }
    }
  }

  // --------------------------------------------------------------------- runs

  /** Events; the controller adding or dropping a finalizer and finishing a
      deletion; leases that others create; and deletions that no event asks for -
      by a user, by the other webhook, or by the controller at expiry. */
  datatype Step =
    | Event(ev: PREvent, ans: Answers)
    | Finalize(name: string)
    | Unfinalize(name: string)
    | Finished(name: string)
    | OtherDelete(name: string)
    | OtherCreate(name: string, lease: SourcedLease)

  predicate ValidStep(s: Store, step: Step) {
    match step
    case Event(ev, _) => 0 < ev.ref.number < INT64_LIMIT
    case Finalize(name) => name in s && !s[name].deleting
    case Unfinalize(name) => name in s && !s[name].deleting
    case Finished(name) => name in s && s[name].deleting
    case OtherDelete(name) => name in s
    case OtherCreate(name, _) => name !in s
  }

  function Perform(hash: string -> string, s: Store, step: Step): Store
    requires ValidStep(s, step)
  {
    match step
    case Event(ev, ans) => Handle(hash, s, ev, ans).0
    case Finalize(name) => s[name := s[name].(finalizer := true)]
    case Unfinalize(name) => s[name := s[name].(finalizer := false)]
    case Finished(name) => s - {name}
    case OtherDelete(name) => if s[name].finalizer then s[name := s[name].(deleting := true)] else s - {name}
    case OtherCreate(name, l) => s[name := l]
  }

  ghost predicate ValidRun(hash: string -> string, s: Store, steps: seq<Step>)
    decreases |steps|
  {
    steps != [] ==> ValidStep(s, steps[0]) && ValidRun(hash, Perform(hash, s, steps[0]), steps[1..])
  }

  ghost function After(hash: string -> string, s: Store, steps: seq<Step>): Store
    requires ValidRun(hash, s, steps)
    decreases |steps|
  {
    if steps == [] then s else After(hash, Perform(hash, s, steps[0]), steps[1..])
  }

  /** The lease stored under `name` belongs to pull request n of `full`. */
  ghost predicate BelongsTo(s: Store, name: string, full: string, n: nat) {
    && name in s && GoodName(name, n)
    && full != "" && ValueOf(s[name].annotations, FullNameKey) == full && ValueOf(s[name].annotations, PullRequest) == Itoa(n)
  }

  /** A deletion of the lease that no event asks for. */
  predicate DeletesLease(step: Step, name: string) {
    step == OtherDelete(name)
  }

  predicate ClosesPR(step: Step, full: string, n: nat) {
    step.Event? && step.ev.action == Closed && FullName(step.ev.ref) == full && step.ev.ref.number == n
  }

  lemma MetadataRecords(ref: PRRef, delivery: string)
    requires ref.number >= 0
    ensures var m := Metadata(ref, delivery);
            && FullNameKey in m && m[FullNameKey] == FullName(ref) != ""
            && PullRequest in m && m[PullRequest] == Itoa(ref.number)
  {
  }

  /** An accepted opened or reopened event leaves a lease that belongs to its pull
      request - always, when it replies 201, and a patched one too. */
  lemma AcceptedMeansRecorded(hash: string -> string, s: Store, ev: PREvent, ans: Answers)
    requires HexHash(hash) && 0 < ev.ref.number < INT64_LIMIT && ev.action in {Opened, Reopened}
    requires Handle(hash, s, ev, ans).1 in {Reply(201, false), Reply(200, false)}
    ensures BelongsTo(Handle(hash, s, ev, ans).0, LeaseName(hash, ev.ref), FullName(ev.ref), ev.ref.number)
  {
    LeaseNameIsGood(hash, ev.ref);
    MetadataRecords(ev.ref, ev.delivery);
  }

  /** Events never touch a lease of another pull request, and refuse with 409 a
      lease of the same name from another repository. */
  lemma OthersAreRefused(hash: string -> string, s: Store, ev: PREvent, ans: Answers, name: string, full: string, n: nat)
    requires HexHash(hash) && 0 < ev.ref.number < INT64_LIMIT && BelongsTo(s, name, full, n)
    requires FullName(ev.ref) != full || ev.ref.number != n
    ensures var s' := Handle(hash, s, ev, ans).0; name in s' && s'[name] == s[name]
    ensures LeaseName(hash, ev.ref) == name && ev.action in {Opened, Reopened} && ans.policyName != "" && ans.getOk
            && !(ev.delivery != "" && ValueOf(s[name].annotations, Delivery) == ev.delivery) ==>
              Handle(hash, s, ev, ans).1 == Reply(409, false)
  {
    LeaseNameIsGood(hash, ev.ref);
    if LeaseName(hash, ev.ref) == name {
      NameGivesNumber(name, n, ev.ref.number);
      assert Conflict(s[name].annotations, ev.ref);
      ConflictRefuses(s, name, ev.ref, ev.delivery, ans);
    } else {
      OtherNamesStay(hash, s, ev, ans, name);
    }
  }

  lemma ConflictRefuses(s: Store, name: string, ref: PRRef, delivery: string, ans: Answers)
    requires ref.number >= 0 && name in s && Conflict(s[name].annotations, ref)
    ensures EnsureLease(s, name, ref, delivery, ans).0 == s && ExpireLease(s, name, ref, delivery, ans).0 == s
    ensures ans.policyName != "" && ans.getOk && !(delivery != "" && ValueOf(s[name].annotations, Delivery) == delivery) ==>
              EnsureLease(s, name, ref, delivery, ans).1 == Reply(409, false)
  {
  }

  lemma EnsureKeepsSource(s: Store, name: string, ref: PRRef, delivery: string, ans: Answers)
    requires 0 < ref.number && BelongsTo(s, name, FullName(ref), ref.number) && !s[name].deleting
    ensures var s' := EnsureLease(s, name, ref, delivery, ans).0;
            BelongsTo(s', name, FullName(ref), ref.number) && !s'[name].deleting
  {
    MetadataRecords(ref, delivery);
  }

  lemma OtherNamesStay(hash: string -> string, s: Store, ev: PREvent, ans: Answers, name: string)
    requires ev.ref.number >= 0 && name in s && LeaseName(hash, ev.ref) != name
    ensures var s' := Handle(hash, s, ev, ans).0; name in s' && s'[name] == s[name]
  {
  }

  lemma EventKeepsSource(hash: string -> string, s: Store, ev: PREvent, ans: Answers, name: string, full: string, n: nat)
    requires HexHash(hash) && 0 < ev.ref.number < INT64_LIMIT && BelongsTo(s, name, full, n) && !s[name].deleting
    requires !ClosesPR(Event(ev, ans), full, n)
    ensures var s' := Handle(hash, s, ev, ans).0; BelongsTo(s', name, full, n) && !s'[name].deleting
  {
    if FullName(ev.ref) != full || ev.ref.number != n {
      OthersAreRefused(hash, s, ev, ans, name, full, n);
    } else if LeaseName(hash, ev.ref) == name {
      EnsureKeepsSource(s, name, ev.ref, ev.delivery, ans);
    } else {
      OtherNamesStay(hash, s, ev, ans, name);
    }
  }

  lemma StepKeepsSource(hash: string -> string, s: Store, step: Step, name: string, full: string, n: nat)
    requires HexHash(hash) && ValidStep(s, step) && BelongsTo(s, name, full, n) && !s[name].deleting
    requires !ClosesPR(step, full, n) && !DeletesLease(step, name)
    ensures var s' := Perform(hash, s, step); BelongsTo(s', name, full, n) && !s'[name].deleting
  {
    if step.Event? {
      EventKeepsSource(hash, s, step.ev, step.ans, name, full, n);
    }
  }

  /** Over any sequence of events and other steps a lease keeps its recorded
      repository and pull request number, and stays undeleted, until a close event
      of that very pull request, or a deletion of this lease that no event asks
      for: no event of another pull request ever deletes it. */
  lemma {:induction false} OnlyItsCloseDeletes(hash: string -> string, s: Store, steps: seq<Step>, name: string,
                                              full: string, n: nat)
    requires HexHash(hash) && ValidRun(hash, s, steps) && BelongsTo(s, name, full, n) && !s[name].deleting
    requires forall i :: 0 <= i < |steps| ==> !ClosesPR(steps[i], full, n) && !DeletesLease(steps[i], name)
    ensures BelongsTo(After(hash, s, steps), name, full, n) && !After(hash, s, steps)[name].deleting
    decreases |steps|
  {
    if steps != [] {
      StepKeepsSource(hash, s, steps[0], name, full, n);
      OnlyItsCloseDeletes(hash, Perform(hash, s, steps[0]), steps[1..], name, full, n);
    }
  }

  lemma StepKeepsRecord(hash: string -> string, s: Store, step: Step, name: string, full: string, n: nat)
    requires HexHash(hash) && ValidStep(s, step) && BelongsTo(s, name, full, n) && name in Perform(hash, s, step)
    ensures BelongsTo(Perform(hash, s, step), name, full, n)
  {
    if step.Event? && FullName(step.ev.ref) == full && step.ev.ref.number == n {
      EventKeepsRecord(hash, s, step.ev, step.ans, name);
    } else if step.Event? {
      OthersAreRefused(hash, s, step.ev, step.ans, name, full, n);
    }
  }

  lemma EventKeepsRecord(hash: string -> string, s: Store, ev: PREvent, ans: Answers, name: string)
    requires HexHash(hash) && 0 < ev.ref.number < INT64_LIMIT && BelongsTo(s, name, FullName(ev.ref), ev.ref.number)
    requires name in Handle(hash, s, ev, ans).0
    ensures BelongsTo(Handle(hash, s, ev, ans).0, name, FullName(ev.ref), ev.ref.number)
  {
    MetadataRecords(ev.ref, ev.delivery);
    if LeaseName(hash, ev.ref) != name { OtherNamesStay(hash, s, ev, ans, name); }
  }

  /** The lease is stored after every step. */
  ghost predicate StaysStored(hash: string -> string, s: Store, steps: seq<Step>, name: string)
    requires ValidRun(hash, s, steps)
    decreases |steps|
  {
    name in s && (steps != [] ==> StaysStored(hash, Perform(hash, s, steps[0]), steps[1..], name))
  }

  /** And as long as it is stored, deleted or not, its record stands. */
  lemma {:induction false} RecordStands(hash: string -> string, s: Store, steps: seq<Step>, name: string, full: string, n: nat)
    requires HexHash(hash) && ValidRun(hash, s, steps) && BelongsTo(s, name, full, n) && StaysStored(hash, s, steps, name)
    ensures BelongsTo(After(hash, s, steps), name, full, n)
    decreases |steps|
  {
    if steps != [] {
      StepKeepsRecord(hash, s, steps[0], name, full, n);
      RecordStands(hash, Perform(hash, s, steps[0]), steps[1..], name, full, n);
    }
  }

  /** The close event of its pull request does delete a lease, recording why first. */
  lemma ItsCloseDeletes(hash: string -> string, s: Store, ev: PREvent, ans: Answers, n: nat)
    requires HexHash(hash) && 0 < ev.ref.number == n < INT64_LIMIT && ev.action == Closed
    requires BelongsTo(s, LeaseName(hash, ev.ref), FullName(ev.ref), n) && !s[LeaseName(hash, ev.ref)].deleting
    requires ans.getOk && ans.statusOk && ans.deleteOk
    ensures var name := LeaseName(hash, ev.ref);
            var s' := Handle(hash, s, ev, ans).0;
            && Handle(hash, s, ev, ans).1 == Reply(202, false)
            && (name in s' <==> s[name].finalizer)
            && (name in s' ==> s'[name] == s[name].(deleting := true, sourceClosed := true))
  {
  }
}
