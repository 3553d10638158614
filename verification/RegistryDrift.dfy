/** Whether the images in service hold the code the branch asks for. */
module RegistryDrift {
  import opened Texts
  import opened Ancestry

  // ---- Immutable tags ----

  predicate IsHex(c: char) {
    '0' <= c <= '9' || 'a' <= c <= 'f'
  }

  predicate IsSha(s: string) {
    |s| == 40 && forall i :: 0 <= i < 40 ==> IsHex(s[i])
  }

  /** `<tag>-<sha>`, split; nothing for any other name. */
  function ParseImmutable(name: string): Option<(string, Sha)> {
    if |name| < 42 then None
    else
      var n := |name| - 41;
      if name[n] == '-' && IsSha(name[n + 1..]) then Some((name[..n], name[n + 1..])) else None
  }

  /** The split is the only one, and exists whenever the name has that form. */
  lemma ParseIsExact(name: string, tag: string, sha: Sha)
    ensures ParseImmutable(name) == Some((tag, sha)) <==> tag != "" && IsSha(sha) && name == tag + "-" + sha
  {
    if tag != "" && IsSha(sha) && name == tag + "-" + sha {
      var n := |name| - 41;
      assert |tag| == n && name[..n] == tag && name[n + 1..] == sha && name[n] == '-';
    }
  }

  /** The commit an entry names, when it is an immutable tag of the given one with a digest in force. */
  function Named(e: Entry, tag: string, digests: set<string>): Option<Sha> {
    if e.digest !in digests then None
    else match ParseImmutable(e.tag)
    case Some((t, sha)) => if t == tag then Some(sha) else None
    case None => None
  }

  // ---- Reading what is published ----

  datatype Entry = Entry(tag: string, digest: string)

  datatype Reason = Proved | MissingTag | NoImmutableTag

  datatype Reading = Reading(shas: seq<Sha>, digests: seq<string>, entries: nat, reason: Reason,
                             fromDistribution: bool, listed: seq<string>, direct: seq<Sha>)

  /** The digests the listing gives for a tag. */
  function ListedUnder(tags: seq<Entry>, tag: string): set<string> {
    set e | e in tags && e.tag == tag && e.digest != "" :: e.digest
  }

  /** The digests in force: the one the distribution gave, or else those listed. */
  function DigestsOf(tags: seq<Entry>, tag: string, digest: string): set<string> {
    if digest != "" then {digest} else ListedUnder(tags, tag)
  }

  /** The commits whose immutable tag carries one of the digests. */
  function ShasIn(entries: seq<Entry>, tag: string, digests: set<string>): set<Sha> {
    set e | e in entries && Named(e, tag, digests).Some? :: Named(e, tag, digests).value
  }

  /** The commits that may stand behind a moving tag. */
  function Published(tags: seq<Entry>, tag: string, digest: string, direct: seq<Entry>): set<Sha> {
    ShasIn(tags + direct, tag, DigestsOf(tags, tag, digest))
  }

  function Occurrences(tags: seq<Entry>, tag: string): nat {
    if tags == [] then 0
    else Occurrences(tags[..|tags| - 1], tag) + if tags[|tags| - 1].tag == tag then 1 else 0
  }

  /** The digests listed under a tag, as the listing gives them. */
  function AllListed(tags: seq<Entry>, tag: string): seq<string> {
    if tags == [] then []
    else
      var e := tags[|tags| - 1];
      AllListed(tags[..|tags| - 1], tag) + if e.tag == tag && e.digest != "" then [e.digest] else []
  }

  /** The commits named by the entries, as they come. */
  function AllNamed(entries: seq<Entry>, tag: string, digests: set<string>): seq<Sha> {
    if entries == [] then []
    else
      var named := Named(entries[|entries| - 1], tag, digests);
      AllNamed(entries[..|entries| - 1], tag, digests) + if named.Some? then [named.value] else []
  }

  /** The commits that may stand behind a moving tag, in the order in which they are found. */
  function Candidates(tags: seq<Entry>, tag: string, digest: string, direct: seq<Entry>): seq<Sha> {
    var digests := DigestsOf(tags, tag, digest);
    Firsts(AllNamed(tags, tag, digests) + AllNamed(direct, tag, digests))
  }

  lemma {:induction false} AllListedIsListed(tags: seq<Entry>, tag: string)
    ensures Elements(AllListed(tags, tag)) == ListedUnder(tags, tag)
    decreases |tags|
  {
    if tags != [] {
      var init, e := tags[..|tags| - 1], tags[|tags| - 1];
      AllListedIsListed(init, tag);
      assert tags == init + [e];
      assert ListedUnder(tags, tag) == ListedUnder(init, tag) + if e.tag == tag
             && e.digest != "" then {e.digest} else {};
    }
  }

  lemma {:induction false} AllNamedIsShas(entries: seq<Entry>, tag: string, digests: set<string>)
    ensures Elements(AllNamed(entries, tag, digests)) == ShasIn(entries, tag, digests)
    decreases |entries|
  {
    if entries != [] {
      var init, e := entries[..|entries| - 1], entries[|entries| - 1];
      AllNamedIsShas(init, tag, digests);
      assert entries == init + [e];
      var named := Named(e, tag, digests);
      assert ShasIn(entries, tag, digests) == ShasIn(init, tag, digests) + if named.Some? then {named.value} else {};
    }
  }

  /** The distinct digests listed under a tag, in order of appearance, and how many entries carry its name. */
  method Listed(tags: seq<Entry>, tag: string) returns (listed: seq<string>, entries: nat)
    ensures listed == Firsts(AllListed(tags, tag)) && entries == Occurrences(tags, tag)
  {
    listed, entries := [], 0;
    for i := 0 to |tags|
      invariant listed == Firsts(AllListed(tags[..i], tag)) && entries == Occurrences(tags[..i], tag)
    {
      var e := tags[i];
      ListedMore(tags, tag, i);
      if e.tag == tag {
        entries := entries + 1;
        if e.digest != "" && e.digest !in listed {
          listed := listed + [e.digest];
        }
      }
    }
    assert tags[..|tags|] == tags;
  }

  lemma ListedMore(tags: seq<Entry>, tag: string, i: nat)
    requires i < |tags|
    ensures Occurrences(tags[..i + 1], tag) == Occurrences(tags[..i], tag) + if tags[i].tag == tag then 1 else 0
    ensures var found, e := Firsts(AllListed(tags[..i], tag)), tags[i];
            Firsts(AllListed(tags[..i + 1], tag))
            == if e.tag == tag && e.digest != "" && e.digest !in found then found + [e.digest] else found
  {
    assert tags[..i + 1][..i] == tags[..i];
    var all, e := AllListed(tags[..i], tag), tags[i];
    if e.tag == tag && e.digest != "" {
      assert AllListed(tags[..i + 1], tag) == all + [e.digest];
    } else {
      assert AllListed(tags[..i + 1], tag) == all + [] == all;
    }
  }

  /** One entry: skipped when its digest is not in force or its name is not an immutable tag of the given one. */
  method FoundIn(e: Entry, tag: string, digests: seq<string>) returns (found: Option<Sha>)
    ensures found == Named(e, tag, Elements(digests))
  {
    if e.digest !in digests {
      return None;
    }
    var parsed := ParseImmutable(e.tag);
    if parsed.None? || parsed.value.0 != tag {
      return None;
    }
    return Some(parsed.value.1);
  }

  /** The commits named by the entries, each once and in order of appearance, after those already found. */
  method Collect(entries: seq<Entry>, tag: string, digests: seq<string>, known: seq<Sha>, ghost before: seq<Sha>)
    returns (shas: seq<Sha>)
    requires known == Firsts(before)
    ensures shas == Firsts(before + AllNamed(entries, tag, Elements(digests)))
  {
    shas := known;
    ghost var inForce := Elements(digests);
    assert before + [] == before;
    for i := 0 to |entries|
      invariant shas == Firsts(before + AllNamed(entries[..i], tag, inForce))
    {
      NamedMore(entries, tag, inForce, i, before);
      var found := FoundIn(entries[i], tag, digests);
      if found.Some? && found.value !in shas {
        shas := shas + [found.value];
      }
    }
    assert entries[..|entries|] == entries;
  }

  lemma NamedMore(entries: seq<Entry>, tag: string, digests: set<string>, i: nat, before: seq<Sha>)
    requires i < |entries|
    ensures var found, named := Firsts(before + AllNamed(entries[..i], tag, digests)), Named(entries[i], tag, digests);
            Firsts(before + AllNamed(entries[..i + 1], tag, digests))
            == if named.None? || named.value in found then found else found + [named.value]
  {
    assert entries[..i + 1][..i] == entries[..i];
    var all, named := AllNamed(entries[..i], tag, digests), Named(entries[i], tag, digests);
    if named.Some? {
      assert before + (all + [named.value]) == (before + all) + [named.value];
    } else {
      assert all + [] == all;
    }
  }

  method ReadPublished(tags: seq<Entry>, tag: string, digest: string, direct: seq<Entry>) returns (r: Reading)
    ensures r.shas == Candidates(tags, tag, digest, direct)
    ensures Elements(r.shas) == Published(tags, tag, digest, direct) && NoRepeats(r.shas)
    ensures r.digests == if digest != "" then [digest] else Firsts(AllListed(tags, tag))
    ensures Elements(r.digests) == DigestsOf(tags, tag, digest)
    ensures r.entries == Occurrences(tags, tag) && r.fromDistribution == (digest != "")
    ensures r.listed == if digest != "" then Firsts(AllListed(tags, tag)) else []
    ensures r.reason == if r.digests == [] then MissingTag else if r.shas == [] then NoImmutableTag else Proved
    ensures r.direct == Firsts(AllNamed(direct, tag, DigestsOf(tags, tag, digest)))
  {
    var listed, entries := Listed(tags, tag);
    var digests := if digest != "" then [digest] else listed;
    var seen := if digest != "" then listed else [];
    DigestsInForce(tags, tag, digest);
    CandidatesArePublished(tags, tag, digest, direct);
    if digests == [] {
      NothingInForce(tags, tag, DigestsOf(tags, tag, digest));
      NothingInForce(direct, tag, DigestsOf(tags, tag, digest));
      return Reading([], [], entries, MissingTag, digest != "", seen, []);
    }
    var shas, directly := Gather(tags, tag, digests, direct);
    if shas == [] {
      return Reading([], digests, entries, NoImmutableTag, digest != "", seen, []);
    }
    return Reading(shas, digests, entries, Proved, digest != "", seen, directly);
  }

  /** The commits of the listing and then those resolved directly, and the latter alone. */
  method Gather(tags: seq<Entry>, tag: string, digests: seq<string>, direct: seq<Entry>)
    returns (shas: seq<Sha>, directly: seq<Sha>)
    ensures shas == Firsts(AllNamed(tags, tag, Elements(digests)) + AllNamed(direct, tag, Elements(digests)))
    ensures directly == Firsts(AllNamed(direct, tag, Elements(digests)))
    ensures shas == [] ==> directly == []
  {
    ghost var a, b := AllNamed(tags, tag, Elements(digests)), AllNamed(direct, tag, Elements(digests));
    assert [] + a == a && [] + b == b;
    shas := Collect(tags, tag, digests, [], []);
    shas := Collect(direct, tag, digests, shas, a);
    directly := Collect(direct, tag, digests, [], []);
  }

  lemma DigestsInForce(tags: seq<Entry>, tag: string, digest: string)
    ensures Elements(if digest != "" then [digest] else Firsts(AllListed(tags, tag))) == DigestsOf(tags, tag, digest)
  {
    AllListedIsListed(tags, tag);
    FirstsOnce(AllListed(tags, tag));
  }

  /** The candidates are the published commits, each once. */
  lemma CandidatesArePublished(tags: seq<Entry>, tag: string, digest: string, direct: seq<Entry>)
    ensures NoRepeats(Candidates(tags, tag, digest, direct))
    ensures Elements(Candidates(tags, tag, digest, direct)) == Published(tags, tag, digest, direct)
  {
    var digests := DigestsOf(tags, tag, digest);
    var a, b := AllNamed(tags, tag, digests), AllNamed(direct, tag, digests);
    FirstsOnce(a + b);
    AllNamedIsShas(tags, tag, digests);
    AllNamedIsShas(direct, tag, digests);
    assert Elements(a + b) == Elements(a) + Elements(b);
    assert ShasIn(tags + direct, tag, digests) == ShasIn(tags, tag, digests) + ShasIn(direct, tag, digests);
  }

  lemma {:induction false} NothingInForce(entries: seq<Entry>, tag: string, digests: set<string>)
    requires digests == {}
    ensures AllNamed(entries, tag, digests) == []
    decreases |entries|
  {
    if entries != [] { NothingInForce(entries[..|entries| - 1], tag, digests); }
  }

  /** The order of the listing does not matter, nor how often an entry is repeated. */
  lemma OrderDoesNotMatter(a: seq<Entry>, b: seq<Entry>, tag: string, digest: string, direct: seq<Entry>)
    requires Elements(a) == Elements(b)
    ensures Published(a, tag, digest, direct) == Published(b, tag, digest, direct)
  {
    assert forall e :: e in a <==> e in Elements(a);
    assert forall e :: e in b <==> e in Elements(b);
    assert forall e :: e in a + direct <==> e in b + direct;
  }

  /** With a digest from the distribution, what the listing says of the moving tag does not matter. */
  lemma MovingEntriesIgnored(a: seq<Entry>, b: seq<Entry>, tag: string, digest: string, direct: seq<Entry>)
    requires digest != "" && forall e: Entry :: e.tag != tag ==> (e in a <==> e in b)
    ensures Published(a, tag, digest, direct) == Published(b, tag, digest, direct)
  {
    forall e: Entry | e.tag == tag ensures Named(e, tag, {digest}).None? {
      if Named(e, tag, {digest}).Some? { ParseIsExact(e.tag, tag, Named(e, tag, {digest}).value); }
    }
    assert forall e :: e in a + direct <==> e in a || e in direct;
    assert forall e :: e in b + direct <==> e in b || e in direct;
  }

  // ---- What a name and a listing say ----

  /** A commit name is forty characters, each a lower-case hexadecimal digit. */
  lemma ShaExactly(s: string)
    ensures IsSha(s) <==> |s| == 40 && forall c :: c in s ==> c in "0123456789abcdef"
  {
    forall c: char ensures IsHex(c) <==> c in "0123456789abcdef" { HexExactly(c); }
    if |s| == 40 && forall c :: c in s ==> c in "0123456789abcdef" {
      forall i | 0 <= i < 40 ensures IsHex(s[i]) { assert s[i] in s; }
    }
  }

  lemma HexExactly(c: char)
    ensures IsHex(c) <==> c in "0123456789abcdef"
  {
    var digits := "0123456789abcdef";
    if '0' <= c <= '9' { assert digits[c as int - '0' as int] == c; }
    if 'a' <= c <= 'f' { assert digits[10 + c as int - 'a' as int] == c; }
  }

  /** How many entries carry a tag. */
  lemma {:induction false} OccurrencesExactly(tags: seq<Entry>, tag: string)
    ensures Occurrences(tags, tag) == |set i | 0 <= i < |tags| && tags[i].tag == tag|
    decreases |tags|
  {
    var all := set i | 0 <= i < |tags| && tags[i].tag == tag;
    if tags == [] {
      assert all == {};
    } else {
      var init := tags[..|tags| - 1];
      OccurrencesExactly(init, tag);
      var before := set i | 0 <= i < |init| && init[i].tag == tag;
      assert all == before + if tags[|tags| - 1].tag == tag then {|tags| - 1} else {};
    }
  }

  /** A commit may stand behind a moving tag exactly when an immutable name of it carries a digest in force. */
  lemma PublishedExactly(tags: seq<Entry>, tag: string, digest: string, direct: seq<Entry>, sha: Sha)
    requires tag != ""
    ensures sha in Published(tags, tag, digest, direct) <==>
            IsSha(sha) && exists e: Entry :: (e in tags || e in direct) && e.tag == tag + "-" + sha
                                             && InForce(tags, tag, digest, e.digest)
  {
    var digests := DigestsOf(tags, tag, digest);
    forall e: Entry ensures Named(e, tag, digests) == Some(sha) <==>
                            IsSha(sha) && e.tag == tag + "-" + sha && InForce(tags, tag, digest, e.digest)
    {
      ParseIsExact(e.tag, tag, sha);
    }
    assert forall e :: e in tags + direct <==> e in tags || e in direct;
  }

  /** The distribution's digest, or without one any that is listed under the moving tag itself. */
  ghost predicate InForce(tags: seq<Entry>, tag: string, digest: string, d: string) {
    if digest != "" then d == digest else d != "" && exists e: Entry :: e in tags && e.tag == tag && e.digest == d
  }
}
