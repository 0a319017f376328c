/**
 * `findSimilarSubjects` of SmartAnalysisService: emails are grouped by normalised
 * subject; groups of three or more are reported, largest total size first. The
 * order of a `HashMap`'s entries is taken to be the order in which their keys
 * first occur.
 */
module SubjectClusters {
  import opened Wrappers
  import opened Text
  import opened EmailModel
  import opened Sorting
  import opened Collecting
  import opened SubjectNormalizer

  /** An email `findSimilarSubjects` looks at: its subject is present and not blank. */
  predicate HasSubject(e: EmailRec) {
    e.subject.Some? && !IsBlank(e.subject.value)
  }

  /*
   * The grouping below is stated for any normalisation `norm`; `FindSimilarSubjects`
   * passes `NormalizeSubject`. The grouping proofs need nothing about `norm`.
   */

  /** The cluster key of an email: its normalised subject. */
  function SubjectKey(e: EmailRec, norm: string -> string): string
    requires HasSubject(e)
  {
    norm(e.subject.value)
  }

  /** The emails with cluster key `key`, in their order. */
  function WithSubjectKey(es: seq<EmailRec>, key: string, norm: string -> string): seq<EmailRec> {
    if es == [] then []
    else
      var e := es[|es| - 1];
      WithSubjectKey(es[..|es| - 1], key, norm) + (if HasSubject(e) && SubjectKey(e, norm) == key then [e] else [])
  }

  /** `groups.computeIfAbsent(key, ...).add(email)` for an email with a subject; others are skipped. */
  function AddToGroup(groups: map<string, seq<EmailRec>>, e: EmailRec, norm: string -> string): map<string, seq<EmailRec>> {
    if !HasSubject(e) then groups
    else
      var key := SubjectKey(e, norm);
      groups[key := (if key in groups then groups[key] else []) + [e]]
  }

  /** The map the grouping loop builds. */
  function Grouped(es: seq<EmailRec>, norm: string -> string): map<string, seq<EmailRec>> {
    if es == [] then map[] else AddToGroup(Grouped(es[..|es| - 1], norm), es[|es| - 1], norm)
  }

  /** A key is listed when the map does not hold it yet. */
  function AddKey(keys: seq<string>, groups: map<string, seq<EmailRec>>, e: EmailRec, norm: string -> string): seq<string> {
    if HasSubject(e) && SubjectKey(e, norm) !in groups then keys + [SubjectKey(e, norm)] else keys
  }

  /** The map's keys in order of first insertion. */
  function SubjectKeys(es: seq<EmailRec>, norm: string -> string): seq<string> {
    if es == [] then []
    else
      var keys := SubjectKeys(es[..|es| - 1], norm);
      var e := es[|es| - 1];
      if !HasSubject(e) || SubjectKey(e, norm) in keys then keys else keys + [SubjectKey(e, norm)]
  }

  /** The `SubjectCluster` record. */
  datatype SubjectCluster = SubjectCluster(
    normalizedSubject: string,
    count: int,
    totalSize: int,
    emails: seq<EmailRec>)

  function TotalSize(c: SubjectCluster): int {
    c.totalSize
  }

  function ClusterKey(c: SubjectCluster): string {
    c.normalizedSubject
  }

  /** `SubjectCluster.getSizeFormatted()`: bytes below 1 KiB, then kilobytes, then megabytes. */
  function ClusterSizeText(c: SubjectCluster): (r: SizeText)
    ensures r.Exact? <==> c.totalSize < KiB
    ensures r.Exact? ==> r.text == IntToString(c.totalSize) + " B"
    ensures r.Scaled? ==> (r.unit == " KB" <==> c.totalSize < MiB) && (r.unit == " MB" <==> MiB <= c.totalSize)
    ensures r.Scaled? ==> r.amount * (if r.unit == " KB" then KiB else MiB) as real == c.totalSize as real
  {
    if c.totalSize < KiB then Exact(IntToString(c.totalSize) + " B")
    else if c.totalSize < MiB then Scaled(c.totalSize as real / 1024.0, " KB")
    else Scaled(c.totalSize as real / (1024.0 * 1024.0), " MB")
  }

  /** The stream's `filter` and `map` for one entry: a cluster when the group has three or more emails. */
  function ClusterOf(groups: map<string, seq<EmailRec>>, key: string): Option<SubjectCluster> {
    if key in groups && |groups[key]| >= 3 then
      Some(SubjectCluster(key, |groups[key]|, SumSizes(groups[key]), groups[key]))
    else None
  }

  function Clusterer(groups: map<string, seq<EmailRec>>): string -> Option<SubjectCluster> {
    key => ClusterOf(groups, key)
  }

  /**
   * The grouping loop of `findSimilarSubjects`: the map from normalised subject to
   * its emails, and the map's keys in the order they were inserted.
   */
  method GroupBySubject(allEmails: seq<EmailRec>, norm: string -> string)
    returns (groups: map<string, seq<EmailRec>>, keys: seq<string>)
    ensures groups == Grouped(allEmails, norm)
    ensures keys == SubjectKeys(allEmails, norm)
  {
    groups := map[];
    keys := [];
    for i := 0 to |allEmails|
      invariant groups == Grouped(allEmails[..i], norm)
      invariant keys == SubjectKeys(allEmails[..i], norm)
    {
      var email := allEmails[i];
      assert allEmails[..i + 1] == allEmails[..i] + [email];
      GroupedStep(allEmails[..i], email, norm);
      SubjectKeysStep(allEmails[..i], email, norm);
      var subject := email.subject;
      if subject.Some? && !IsBlank(subject.value) {
        var cleanSubject := norm(subject.value);
        var group: seq<EmailRec> := [];
        if cleanSubject in groups {
          group := groups[cleanSubject];
        } else {
          keys := keys + [cleanSubject];
        }
        groups := groups[cleanSubject := group + [email]];
      }
    }
    assert allEmails[..|allEmails|] == allEmails;
  }

  /** `findSimilarSubjects`. */
  method FindSimilarSubjects(allEmails: seq<EmailRec>) returns (clusters: seq<SubjectCluster>)
    ensures SortedDesc(clusters, TotalSize)
    ensures forall k :: 0 <= k < |clusters| ==>
      var c := clusters[k];
      c.emails == WithSubjectKey(allEmails, c.normalizedSubject, NormalizeSubject) &&
      c.count == |c.emails| >= 3 && c.totalSize == SumSizes(c.emails)
    ensures forall key :: |WithSubjectKey(allEmails, key, NormalizeSubject)| >= 3 <==>
      exists k :: 0 <= k < |clusters| && clusters[k].normalizedSubject == key
    ensures forall j, k :: 0 <= j < k < |clusters| ==>
      clusters[j].normalizedSubject != clusters[k].normalizedSubject
  {
    var groups, keys := GroupBySubject(allEmails, NormalizeSubject);
    var found := Present(keys, Clusterer(groups));
    clusters := SortDesc(found, TotalSize);
    SortedClustersSpec(allEmails, NormalizeSubject, clusters);
  }

  /** One loop step: how adding an email changes the map. */
  lemma {:induction false} GroupedStep(es: seq<EmailRec>, e: EmailRec, norm: string -> string)
    ensures Grouped(es + [e], norm) == AddToGroup(Grouped(es, norm), e, norm)
  {
    assert (es + [e])[..|es|] == es;
  }

  /** One loop step: how adding an email changes the key order. */
  lemma {:induction false} SubjectKeysStep(es: seq<EmailRec>, e: EmailRec, norm: string -> string)
    ensures SubjectKeys(es + [e], norm) == AddKey(SubjectKeys(es, norm), Grouped(es, norm), e, norm)
  {
    assert (es + [e])[..|es|] == es;
    GroupedKeys(es, norm);
  }

  /** The keys listed are the keys of the map, each once. */
  lemma {:induction false} GroupedKeys(es: seq<EmailRec>, norm: string -> string)
    ensures forall key :: key in Grouped(es, norm) <==> key in SubjectKeys(es, norm)
    ensures Distinct(SubjectKeys(es, norm))
  {
    if es != [] {
      GroupedKeys(es[..|es| - 1], norm);
    }
  }

  /** Each group holds exactly the emails with its key, in their order; a missing key has none. */
  lemma {:induction false} GroupedSpec(es: seq<EmailRec>, norm: string -> string)
    ensures forall key :: key in Grouped(es, norm) ==> Grouped(es, norm)[key] == WithSubjectKey(es, key, norm)
    ensures forall key :: key !in Grouped(es, norm) ==> WithSubjectKey(es, key, norm) == []
  {
    if es != [] {
      GroupedSpec(es[..|es| - 1], norm);
    }
  }

  /** A cluster is filed under its own key. */
  lemma ClustersOwnKey(groups: map<string, seq<EmailRec>>)
    ensures forall x :: Clusterer(groups)(x).Some? ==> ClusterKey(Clusterer(groups)(x).value) == x
  {
  }

  /** Sorting the clusters keeps each and adds or loses none. */
  lemma SortedClustersSpec(es: seq<EmailRec>, norm: string -> string, clusters: seq<SubjectCluster>)
    requires multiset(clusters) == multiset(Present(SubjectKeys(es, norm), Clusterer(Grouped(es, norm))))
    ensures forall k :: 0 <= k < |clusters| ==>
      var c := clusters[k];
      c.emails == WithSubjectKey(es, c.normalizedSubject, norm) &&
      c.count == |c.emails| >= 3 && c.totalSize == SumSizes(c.emails)
    ensures forall key :: |WithSubjectKey(es, key, norm)| >= 3 <==>
      exists k :: 0 <= k < |clusters| && clusters[k].normalizedSubject == key
    ensures forall j, k :: 0 <= j < k < |clusters| ==>
      clusters[j].normalizedSubject != clusters[k].normalizedSubject
  {
    var groups := Grouped(es, norm);
    var f := Clusterer(groups);
    GroupedKeys(es, norm);
    GroupedSpec(es, norm);
    ClustersOwnKey(groups);
    PresentPermutation(SubjectKeys(es, norm), f, ClusterKey, clusters);
    forall k | 0 <= k < |clusters|
      ensures clusters[k].emails == WithSubjectKey(es, clusters[k].normalizedSubject, norm)
      ensures clusters[k].count == |clusters[k].emails| >= 3
      ensures clusters[k].totalSize == SumSizes(clusters[k].emails)
    {
      var key := ClusterKey(clusters[k]);
      assert ClusterOf(groups, key) == Some(clusters[k]);
      assert key in groups;
    }
    assert forall k :: 0 <= k < |clusters| ==> ClusterKey(clusters[k]) == clusters[k].normalizedSubject;
    forall key | |WithSubjectKey(es, key, norm)| >= 3
      ensures exists k :: 0 <= k < |clusters| && clusters[k].normalizedSubject == key
    {
      assert f(key).Some?;
    }
  }
}
