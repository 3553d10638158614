/** The audit of what is in service against the branch, and asking again before crying drift. */
module RegistryAudit {
  import opened Texts
  import opened Ancestry
  import opened RegistryDrift

  datatype Component = Component(name: string, tag: string, belongs: string -> bool, operatorSurface: bool)

  /** Digests of moving tags as the distribution serves them, the tags it failed on, and immutable tags it resolved. */
  datatype Distribution = Distribution(digests: map<string, string>, failures: map<string, string>,
                                       immutables: seq<Entry>)

  datatype Complaint = Unprovable(reason: Reason) | LastChangeMissing(published: Sha) | OffBranch(published: Sha)

  /** Everything the audit is asked about. */
  datatype Question = Question(history: History, ref: Sha, perApp: bool)

  function DigestFor(d: Option<Distribution>, tag: string): string {
    if d.Some? && tag in d.value.digests then d.value.digests[tag] else ""
  }

  function DirectFor(d: Option<Distribution>, tag: string): seq<Entry> {
    if d.Some? && tag in d.value.digests then d.value.immutables else []
  }

  /** The commits that may be in service for a component. */
  function InService(c: Component, tags: seq<Entry>, d: Option<Distribution>): set<Sha> {
    Published(tags, c.tag, DigestFor(d, c.tag), DirectFor(d, c.tag))
  }

  /** The same commits in the order in which they are found. */
  function CandidatesFor(c: Component, tags: seq<Entry>, d: Option<Distribution>): seq<Sha> {
    Candidates(tags, c.tag, DigestFor(d, c.tag), DirectFor(d, c.tag))
  }

  /** The commit a component must contain; nothing when it is not asked about. */
  function Wanted(q: Question, c: Component): Option<Sha>
    requires Linear(q.history)
  {
    if !q.perApp && c.operatorSurface then None else LastTouching(q.history, q.ref, c.belongs)
  }

  /** The complaint against one commit. */
  function Divergence(q: Question, wanted: Sha, published: Sha): Option<Complaint>
    requires Linear(q.history)
  {
    if !IsAncestor(q.history, wanted, published) then Some(LastChangeMissing(published))
    else if !IsAncestor(q.history, published, q.ref) then Some(OffBranch(published))
    else None
  }

  /** A commit that contains the last change and comes from the branch. */
  predicate Honors(q: Question, wanted: Sha, published: Sha)
    requires Linear(q.history)
  {
    IsAncestor(q.history, wanted, published) && IsAncestor(q.history, published, q.ref)
  }

  /** The component is asked about and no commit that may be in service will do. */
  predicate Behind(q: Question, c: Component, tags: seq<Entry>, d: Option<Distribution>)
    requires Linear(q.history)
  {
    Wanted(q, c).Some? && forall s :: s in InService(c, tags, d) ==> !Honors(q, Wanted(q, c).value, s)
  }

  /** Two commits built the same image. */
  predicate Doubled(q: Question, c: Component, tags: seq<Entry>, d: Option<Distribution>)
    requires Linear(q.history)
  {
    Wanted(q, c).Some? && |InService(c, tags, d)| > 1
  }

  /** The complaint is a true one. */
  predicate Explains(q: Question, c: Component, tags: seq<Entry>, d: Option<Distribution>, complaint: Complaint)
    requires Linear(q.history)
  {
    Wanted(q, c).Some? &&
    match complaint
    case Unprovable(_) => InService(c, tags, d) == {}
    case LastChangeMissing(s) => s in InService(c, tags, d) && Divergence(q, Wanted(q, c).value, s) == Some(complaint)
    case OffBranch(s) => s in InService(c, tags, d) && Divergence(q, Wanted(q, c).value, s) == Some(complaint)
  }

  lemma SizeOfElements(shas: seq<Sha>)
    requires NoRepeats(shas)
    ensures |Elements(shas)| == |shas|
    decreases |shas|
  {
    if shas != [] {
      var init := shas[..|shas| - 1];
      SizeOfElements(init);
      assert shas == init + [shas[|shas| - 1]];
      assert Elements(shas) == Elements(init) + {shas[|shas| - 1]};
      assert shas[|shas| - 1] !in init;
    }
  }

  method AuditOne(q: Question, c: Component, tags: seq<Entry>, d: Option<Distribution>)
    returns (complaint: Option<Complaint>, note: bool)
    requires Linear(q.history)
    ensures complaint.Some? <==> Behind(q, c, tags, d)
    ensures complaint.Some? ==> Explains(q, c, tags, d, complaint.value)
    ensures complaint.Some? && CandidatesFor(c, tags, d) != [] ==>
              complaint == Divergence(q, Wanted(q, c).value, CandidatesFor(c, tags, d)[0])
    ensures note <==> Doubled(q, c, tags, d)
  {
    complaint, note := None, false;
    if !q.perApp && c.operatorSurface {
      return;
    }
    var expected := LastTouching(q.history, q.ref, c.belongs);
    if expected.None? {
      return;
    }
    var reading := ReadPublished(tags, c.tag, DigestFor(d, c.tag), DirectFor(d, c.tag));
    SizeOfElements(reading.shas);
    if reading.shas == [] {
      return Some(Unprovable(reading.reason)), false;
    }
    var first, honored := Complaints(q, expected.value, reading.shas);
    note := |reading.shas| > 1;
    if !honored {
      complaint := first;
    }
  }

  /** The complaint against the first commit, and whether some commit gives no cause for one. */
  method Complaints(q: Question, wanted: Sha, shas: seq<Sha>) returns (first: Option<Complaint>, honored: bool)
    requires Linear(q.history) && shas != []
    ensures first == Divergence(q, wanted, shas[0])
    ensures honored <==> exists k :: 0 <= k < |shas| && Honors(q, wanted, shas[k])
  {
    first, honored := Divergence(q, wanted, shas[0]), false;
    for i := 0 to |shas|
      invariant honored <==> exists k :: 0 <= k < i && Honors(q, wanted, shas[k])
    {
      if Divergence(q, wanted, shas[i]).None? {
        honored := true;
      }
    }
  }

  /** The components left behind, in order. */
  function BehindOf(q: Question, components: seq<Component>, tags: seq<Entry>, d: Option<Distribution>): seq<string>
    requires Linear(q.history)
  {
    if components == [] then []
    else
      var c := components[|components| - 1];
      BehindOf(q, components[..|components| - 1], tags, d) + if Behind(q, c, tags, d) then [c.name] else []
  }

  function DoubledOf(q: Question, components: seq<Component>, tags: seq<Entry>, d: Option<Distribution>): seq<string>
    requires Linear(q.history)
  {
    if components == [] then []
    else
      var c := components[|components| - 1];
      DoubledOf(q, components[..|components| - 1], tags, d) + if Doubled(q, c, tags, d) then [c.name] else []
  }

  function NamesOf(problems: seq<(string, Complaint)>): seq<string> {
    if problems == [] then [] else NamesOf(problems[..|problems| - 1]) + [problems[|problems| - 1].0]
  }

  /** Every problem is a true complaint about a component of that name. */
  ghost predicate AllExplained(q: Question, components: seq<Component>, tags: seq<Entry>, d: Option<Distribution>,
                               problems: seq<(string, Complaint)>)
    requires Linear(q.history)
  {
    forall p :: p in problems ==> exists c :: c in components && c.name == p.0 && Explains(q, c, tags, d, p.1)
  }

  lemma BehindMore(q: Question, components: seq<Component>, tags: seq<Entry>, d: Option<Distribution>, i: nat)
    requires Linear(q.history) && i < |components|
    ensures BehindOf(q, components[..i + 1], tags, d)
         == BehindOf(q, components[..i], tags, d) + if Behind(q, components[i], tags, d) then [components[i].name]
           else []
    ensures DoubledOf(q, components[..i + 1], tags, d)
         == DoubledOf(q, components[..i], tags, d) + if Doubled(q, components[i], tags, d) then [components[i].name]
           else []
  {
    assert components[..i + 1][..i] == components[..i];
  }

  /** The problems name exactly the components left behind; the notes those whose image was built twice. */
  method Audit(q: Question, components: seq<Component>, tags: seq<Entry>, d: Option<Distribution>)
    returns (problems: seq<(string, Complaint)>, notes: seq<string>)
    requires Linear(q.history)
    ensures NamesOf(problems) == BehindOf(q, components, tags, d)
    ensures notes == DoubledOf(q, components, tags, d)
    ensures AllExplained(q, components, tags, d, problems)
  {
    problems, notes := [], [];
    for i := 0 to |components|
      invariant NamesOf(problems) == BehindOf(q, components[..i], tags, d)
      invariant notes == DoubledOf(q, components[..i], tags, d)
      invariant AllExplained(q, components, tags, d, problems)
    {
      var c := components[i];
      BehindMore(q, components, tags, d, i);
      var complaint, note := AuditOne(q, c, tags, d);
      if note {
        notes := notes + [c.name];
      }
      if complaint.Some? {
        problems := problems + [(c.name, complaint.value)];
      }
    }
    assert components[..|components|] == components;
  }

  // ---- What the verdict means ----

  /** Asked about and not behind: some commit that may be in service has the component exactly as the branch has it. */
  lemma NotBehindIsSameCode(q: Question, c: Component, tags: seq<Entry>, d: Option<Distribution>)
    requires Linear(q.history) && Wanted(q, c).Some? && !Behind(q, c, tags, d)
    ensures exists s :: s in InService(c, tags, d) && Honors(q, Wanted(q, c).value, s)
                        && PartAt(q.history, s, c.belongs) == PartAt(q.history, q.ref, c.belongs)
  {
    var s :| s in InService(c, tags, d) && Honors(q, Wanted(q, c).value, s);
    ContainedIsSame(q.history, s, q.ref, c.belongs);
  }

  /**
   Of a component with files on the branch, not being asked about means being an operator's surface in
   per-group mode.
   */
  lemma AlwaysAskedAbout(q: Question, c: Component)
    requires Linear(q.history) && PartAt(q.history, q.ref, c.belongs) != map[] && Wanted(q, c).None?
    ensures !q.perApp && c.operatorSurface
  {
    if LastTouching(q.history, q.ref, c.belongs).None? { UntouchedIsEmpty(q.history, q.ref, c.belongs); }
  }

  /** The verdict does not depend on the order of the listing. */
  lemma OrderIgnored(q: Question, c: Component, a: seq<Entry>, b: seq<Entry>, d: Option<Distribution>)
    requires Linear(q.history) && Elements(a) == Elements(b)
    ensures Behind(q, c, a, d) <==> Behind(q, c, b, d)
  {
    OrderDoesNotMatter(a, b, c.tag, DigestFor(d, c.tag), DirectFor(d, c.tag));
  }

  /** Nor, once the distribution has answered, on what the listing says of the moving tag. */
  lemma StaleIndexIgnored(q: Question, c: Component, a: seq<Entry>, b: seq<Entry>, d: Option<Distribution>)
    requires Linear(q.history) && DigestFor(d, c.tag) != "" && forall e: Entry :: e.tag != c.tag ==>
               (e in a <==> e in b)
    ensures Behind(q, c, a, d) <==> Behind(q, c, b, d)
  {
    MovingEntriesIgnored(a, b, c.tag, DigestFor(d, c.tag), DirectFor(d, c.tag));
  }

  // ---- Asking again ----

  /** One answer of the registry; none when it could not be asked. */
  type Answer = Option<(seq<Entry>, Option<Distribution>)>

  datatype Verdict = Clean | Drift | Unreadable

  function VerdictOf(q: Question, components: seq<Component>, answer: Answer): Verdict
    requires Linear(q.history)
  {
    if answer.None? then Unreadable
    else if BehindOf(q, components, answer.value.0, answer.value.1) == [] then Clean else Drift
  }

  /** How many readings a drift must survive. */
  function Readings(reconfirmations: int, offline: bool): nat {
    if offline || reconfirmations < 0 then 1 else reconfirmations + 1
  }

  /** The first `k` readings all showed drift. */
  predicate DriftBefore(q: Question, components: seq<Component>, answers: nat -> Answer, k: nat)
    requires Linear(q.history)
  {
    forall j :: 0 <= j < k ==> VerdictOf(q, components, answers(j)) == Drift
  }

  /**
   Drift is only affirmed after it survived every reading; a clean reading ends the matter, and so does
   an answer that cannot be read.
   */
  method Confirm(q: Question, components: seq<Component>, answers: nat -> Answer, reconfirmations: int, offline: bool)
    returns (exitCode: int, attempts: nat)
    requires Linear(q.history)
    ensures attempts <= Readings(reconfirmations, offline)
    ensures exitCode == 0 <==> attempts > 0 && DriftBefore(q, components, answers, attempts - 1)
                               && VerdictOf(q, components, answers(attempts - 1)) == Clean
    ensures exitCode == 1 <==> attempts == Readings(reconfirmations, offline)
                               && DriftBefore(q, components, answers, attempts)
    ensures exitCode == 2 <==> DriftBefore(q, components, answers, attempts)
                               && attempts < Readings(reconfirmations, offline)
                               && VerdictOf(q, components, answers(attempts)) == Unreadable
    ensures exitCode in {0, 1, 2}
  {
    attempts := 0;
    while true
      invariant attempts < Readings(reconfirmations, offline) && DriftBefore(q, components, answers, attempts)
      decreases Readings(reconfirmations, offline) - attempts
    {
      var verdict := AskOnce(q, components, answers(attempts));
      if verdict == Unreadable {
        return 2, attempts;
      }
      attempts := attempts + 1;
      if verdict == Clean || offline || attempts > reconfirmations {
        exitCode := if verdict == Clean then 0 else 1;
        return;
      }
    }
  }

  method AskOnce(q: Question, components: seq<Component>, answer: Answer) returns (verdict: Verdict)
    requires Linear(q.history)
    ensures verdict == VerdictOf(q, components, answer)
  {
    if answer.None? {
      return Unreadable;
    }
    var problems, notes := Audit(q, components, answer.value.0, answer.value.1);
    verdict := if problems == [] then Clean else Drift;
  }

  /** A clean verdict: every component asked about is in service exactly as the branch has it. */
  lemma CleanIsSameCode(q: Question, components: seq<Component>, tags: seq<Entry>, d: Option<Distribution>,
                        c: Component)
    requires Linear(q.history) && VerdictOf(q, components, Some((tags, d))) == Clean
    requires c in components && Wanted(q, c).Some?
    ensures exists s :: s in InService(c, tags, d) && Honors(q, Wanted(q, c).value, s)
                        && PartAt(q.history, s, c.belongs) == PartAt(q.history, q.ref, c.belongs)
  {
    NoneBehind(q, components, tags, d, c);
    NotBehindIsSameCode(q, c, tags, d);
  }

  lemma {:induction false} NoneBehind(q: Question, components: seq<Component>, tags: seq<Entry>,
                                      d: Option<Distribution>, c: Component)
    requires Linear(q.history) && BehindOf(q, components, tags, d) == [] && c in components
    ensures !Behind(q, c, tags, d)
    decreases |components|
  {
    var last := components[|components| - 1];
    assert components == components[..|components| - 1] + [last];
    if c != last { NoneBehind(q, components[..|components| - 1], tags, d, c); }
  }

  // ---- What the audit's words mean ----

  /** Without an answer for the tag the listing alone decides; with one, its digest and what it resolved count too. */
  lemma ServiceExactly(c: Component, tags: seq<Entry>, d: Option<Distribution>, sha: Sha)
    requires c.tag != ""
    ensures var answered := d.Some? && c.tag in d.value.digests;
            var digest, direct := if answered then d.value.digests[c.tag] else "", if answered then d.value.immutables
              else [];
            sha in InService(c, tags, d) <==>
              IsSha(sha) && exists e: Entry :: (e in tags || e in direct) && e.tag == c.tag + "-" + sha
                                               && InForce(tags, c.tag, digest, e.digest)
  {
    PublishedExactly(tags, c.tag, DigestFor(d, c.tag), DirectFor(d, c.tag), sha);
  }

  /** A complaint names what is wrong with the commit. */
  lemma DivergenceTells(q: Question, wanted: Sha, published: Sha)
    requires Linear(q.history)
    ensures Divergence(q, wanted, published) == None
       <==> IsAncestor(q.history, wanted, published) && IsAncestor(q.history, published, q.ref)
    ensures Divergence(q, wanted, published) == Some(LastChangeMissing(published))
       <==> !IsAncestor(q.history, wanted, published)
    ensures Divergence(q, wanted, published) == Some(OffBranch(published))
       <==> IsAncestor(q.history, wanted, published) && !IsAncestor(q.history, published, q.ref)
  {
  }

  /** Two different commits may be in service. */
  lemma DoubledExactly(q: Question, c: Component, tags: seq<Entry>, d: Option<Distribution>)
    requires Linear(q.history)
    ensures Doubled(q, c, tags, d) <==>
            Wanted(q, c).Some? && exists s, t :: s in InService(c, tags, d) && t in InService(c, tags, d) && s != t
  {
    var shas := InService(c, tags, d);
    if |shas| > 1 {
      var s :| s in shas;
      assert |shas - {s}| == |shas| - 1;
      var t :| t in shas - {s};
    }
    if s, t :| s in shas && t in shas && s != t {
      assert {s, t} <= shas;
      assert shas == {s, t} + (shas - {s, t});
    }
  }

  /** Offline one reading, online one more than was asked for. */
  lemma ReadingsExactly(reconfirmations: int)
    ensures Readings(reconfirmations, true) == 1
    ensures reconfirmations >= 0 ==> Readings(reconfirmations, false) == 1 + reconfirmations
    ensures reconfirmations < 0 ==> Readings(reconfirmations, false) == 1
  {
  }
}
