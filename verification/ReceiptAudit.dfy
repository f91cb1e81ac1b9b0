/**
 The receipt audit: each catalogued manifest is read and its request receipt checked, and what fails blocks every
 manifest derived from it.  What the store returns for a manifest is a parameter.
 */
module ReceiptAudit {
  import opened Common

  datatype Layer = Bronze | Silver | Gold

  datatype Manifest = Manifest(layer: Layer, parents: set<string>)

  datatype Receipt = Missing | Incomplete | OtherSource | Agreeing

  /** `Unreadable` when `read_manifest` raises; `contentReads` is whether `store.read` returns. */
  datatype Reading = Unreadable | Read(manifest: Manifest, contentReads: bool, receipt: Receipt)

  datatype Fault = LineageInvalid | ReceiptMissing | ContractIncomplete | SourceMismatch

  datatype Finding = Finding(id: string, fault: Fault)

  datatype Scan = Scan(manifests: map<string, Manifest>, invalid: set<string>, findings: seq<Finding>)

  /** Request contracts are demanded of bronze manifests only. */
  function FaultOf(r: Reading): Option<Fault> {
    if r.Unreadable? || !r.contentReads then Some(LineageInvalid)
    else if !r.manifest.layer.Bronze? then None
    else match r.receipt
      case Missing => Some(ReceiptMissing)
      case Incomplete => Some(ContractIncomplete)
      case OtherSource => Some(SourceMismatch)
      case Agreeing => None
  }

  /** What each fault says of a manifest, and what the absence of any says. */
  ghost predicate IsFault(r: Reading, fault: Option<Fault>) {
    var bronze := r.Read? && r.contentReads && r.manifest.layer == Bronze;
    && (fault == Some(LineageInvalid) <==> r.Unreadable? || !r.contentReads)
    && (fault == Some(ReceiptMissing) <==> bronze && r.receipt == Missing)
    && (fault == Some(ContractIncomplete) <==> bronze && r.receipt == Incomplete)
    && (fault == Some(SourceMismatch) <==> bronze && r.receipt == OtherSource)
    && (fault == None <==> r.Read? && r.contentReads && (r.manifest.layer == Bronze ==> r.receipt == Agreeing))
  }

  lemma FaultMeans(r: Reading)
    ensures IsFault(r, FaultOf(r))
  {
  }

  predicate Suspect(r: Reading, classified: bool) {
    if classified then FaultOf(r).Some? else true
  }

  function Catalogued(paths: seq<string>, readings: map<string, Reading>): map<string, Manifest>
    requires forall k :: k in paths ==> k in readings
  {
    map k | k in paths && readings[k].Read? :: readings[k].manifest
  }

  function Suspects(paths: seq<string>, readings: map<string, Reading>, classified: bool): set<string>
    requires forall k :: k in paths ==> k in readings
  {
    set k | k in paths && Suspect(readings[k], classified)
  }

  ghost predicate Reported(findings: seq<Finding>, k: string) {
    exists i :: 0 <= i < |findings| && findings[i].id == k
  }

  /** Every finding gives the fault of a catalogued manifest. */
  ghost predicate RightlyFound(findings: seq<Finding>, paths: seq<string>, readings: map<string, Reading>) {
    forall i :: 0 <= i < |findings| ==>
      findings[i].id in paths && findings[i].id in readings && IsFault(readings[findings[i].id], Some(findings[i].fault))
  }

  /** The scan over the catalogue's paths; without a credential classification every readable manifest is invalid
      and only the unreadable ones are reported one by one. */
  method ScanCatalog(paths: seq<string>, readings: map<string, Reading>, classified: bool) returns (s: Scan)
    requires forall k :: k in paths ==> k in readings
    ensures s.manifests == Catalogued(paths, readings) && s.invalid == Suspects(paths, readings, classified)
    ensures forall k :: Reported(s.findings, k) <==> k in s.invalid && (classified || k !in s.manifests)
    ensures RightlyFound(s.findings, paths, readings)
  {
    s := Scan(map[], {}, []);
    for i := 0 to |paths|
      invariant forall k :: k in s.manifests <==> k in paths[..i] && readings[k].Read?
      invariant forall k :: k in s.manifests ==> s.manifests[k] == readings[k].manifest
      invariant forall k :: k in s.invalid <==> k in paths[..i] && Suspect(readings[k], classified)
      invariant forall k :: Reported(s.findings, k) <==> k in s.invalid && (classified || k !in s.manifests)
      invariant RightlyFound(s.findings, paths, readings)
    {
      var id := paths[i];
      var r := readings[id];
      assert paths[..i + 1] == paths[..i] + [id];
      ghost var was := s;
      if r.Read? { s := s.(manifests := s.manifests[id := r.manifest]); }
      if r.Read? && !classified {
        s := s.(invalid := s.invalid + {id});
      } else if FaultOf(r).Some? {
        s := s.(findings := s.findings + [Finding(id, FaultOf(r).value)], invalid := s.invalid + {id});
        FaultMeans(r);
        ReportedAfter(was.findings, Finding(id, FaultOf(r).value));
      }
    }
  }

  lemma ReportedAfter(findings: seq<Finding>, f: Finding)
    ensures forall k :: Reported(findings + [f], k) <==> Reported(findings, k) || k == f.id
  {
    forall k ensures Reported(findings + [f], k) <==> Reported(findings, k) || k == f.id {
      assert (findings + [f])[|findings|] == f;
      if Reported(findings, k) {
        var i :| 0 <= i < |findings| && findings[i].id == k;
        assert (findings + [f])[i].id == k;
      }
      if Reported(findings + [f], k) && k != f.id {
        var i :| 0 <= i < |findings + [f]| && (findings + [f])[i].id == k;
        assert findings[i].id == k;
      }
    }
  }

  // ------------------------------------------------------------------- lineage

  /** `path` leads from a manifest, parent by parent through readable manifests, to an invalid one. */
  ghost predicate LeadsToInvalid(manifests: map<string, Manifest>, invalid: set<string>, path: seq<string>) {
    && path != []
    && path[|path| - 1] in invalid
    && forall i :: 0 <= i < |path| - 1 ==> path[i] in manifests && path[i + 1] in manifests[path[i]].parents
  }

  ghost predicate Tainted(manifests: map<string, Manifest>, invalid: set<string>, k: string) {
    exists path :: LeadsToInvalid(manifests, invalid, path) && path[0] == k
  }

  lemma ParentTaints(manifests: map<string, Manifest>, invalid: set<string>, k: string, parent: string)
    requires k in manifests && parent in manifests[k].parents && Tainted(manifests, invalid, parent)
    ensures Tainted(manifests, invalid, k)
  {
    var path :| LeadsToInvalid(manifests, invalid, path) && path[0] == parent;
    var longer := [k] + path;
    assert forall i :: 1 <= i < |longer| ==> longer[i] == path[i - 1];
    assert LeadsToInvalid(manifests, invalid, longer) && longer[0] == k;
  }

  /** A set that holds the invalid ids and every manifest with a parent in the set holds every path to one. */
  lemma {:induction false} ClosedHoldsPaths(manifests: map<string, Manifest>, invalid: set<string>, closed: set<string>,
                                            path: seq<string>)
    requires invalid <= closed
    requires Affected(manifests, closed) <= closed
    requires LeadsToInvalid(manifests, invalid, path)
    ensures path[0] in closed
    decreases |path|
  {
    if |path| > 1 {
      var rest := path[1..];
      assert forall i :: 0 <= i < |rest| ==> rest[i] == path[i + 1];
      ClosedHoldsPaths(manifests, invalid, closed, rest);
      assert rest[0] in manifests[path[0]].parents * closed;
      assert path[0] in Affected(manifests, closed);
    }
  }

  function Affected(manifests: map<string, Manifest>, blocked: set<string>): set<string> {
    set k | k in manifests && manifests[k].parents * blocked != {}
  }

  lemma InvalidTaints(manifests: map<string, Manifest>, invalid: set<string>, k: string)
    requires k in invalid
    ensures Tainted(manifests, invalid, k)
  {
    assert LeadsToInvalid(manifests, invalid, [k]) && [k][0] == k;
  }

  lemma AffectedTaints(manifests: map<string, Manifest>, invalid: set<string>, blocked: set<string>, k: string)
    requires k in Affected(manifests, blocked) && forall j :: j in blocked ==> Tainted(manifests, invalid, j)
    ensures Tainted(manifests, invalid, k)
  {
    var parent :| parent in manifests[k].parents * blocked;
    ParentTaints(manifests, invalid, k, parent);
  }

  lemma ClosedIsComplete(manifests: map<string, Manifest>, invalid: set<string>, closed: set<string>, k: string)
    requires invalid <= closed && Affected(manifests, closed) <= closed && Tainted(manifests, invalid, k)
    ensures k in closed
  {
    var path :| LeadsToInvalid(manifests, invalid, path) && path[0] == k;
    ClosedHoldsPaths(manifests, invalid, closed, path);
  }

  /** The propagation loop ends, on any parent graph, cyclic or not, with the invalid ids and every readable manifest
      that some parent path joins to one, and nothing else. */
  method Propagate(manifests: map<string, Manifest>, invalid: set<string>) returns (blocked: set<string>)
    ensures forall k :: k in blocked <==> Tainted(manifests, invalid, k)
    ensures invalid <= blocked <= invalid + manifests.Keys && Affected(manifests, blocked) <= blocked
  {
    blocked := invalid;
    forall k | k in invalid ensures Tainted(manifests, invalid, k) { InvalidTaints(manifests, invalid, k); }
    while true
      invariant invalid <= blocked <= invalid + manifests.Keys
      invariant forall k :: k in blocked ==> Tainted(manifests, invalid, k)
      decreases |manifests.Keys - blocked|
    {
      var affected := Affected(manifests, blocked);
      var added := affected - blocked;
      if added == {} {
        assert affected <= blocked by { forall k | k in affected ensures k in blocked { assert k !in added; } }
        break;
      }
      forall k | k in added ensures Tainted(manifests, invalid, k) { AffectedTaints(manifests, invalid, blocked, k); }
      ShrinksBy(manifests.Keys, blocked, added);
      blocked := blocked + added;
    }
    assert Affected(manifests, blocked) <= blocked;
    forall k | Tainted(manifests, invalid, k) ensures k in blocked { ClosedIsComplete(manifests, invalid, blocked, k); }
  }

  lemma ShrinksBy(all: set<string>, s: set<string>, t: set<string>)
    requires t <= all && t !! s && t != {}
    ensures |all - (s + t)| < |all - s|
  {
    assert all - s == (all - (s + t)) + t;
  }

  /** Findings about the audit as a whole. */
  datatype Notice = ClassificationRequired | CatalogMissingOrEmpty

  datatype Report = Report(notices: seq<Notice>, findings: seq<Finding>, inherited: set<string>, verified: set<string>,
                           blocked: set<string>, verifiedByLayer: LayerCounts, blockedByLayer: LayerCounts,
                           blockedUnread: nat)

  function OfLayer(manifests: map<string, Manifest>, ids: set<string>, layer: Layer): set<string> {
    set k | k in ids && k in manifests && manifests[k].layer == layer
  }

  datatype LayerCounts = LayerCounts(bronze: nat, silver: nat, gold: nat)

  function CountByLayer(manifests: map<string, Manifest>, ids: set<string>): LayerCounts {
    LayerCounts(|OfLayer(manifests, ids, Bronze)|, |OfLayer(manifests, ids, Silver)|, |OfLayer(manifests, ids, Gold)|)
  }

  function Total(c: LayerCounts): nat { c.bronze + c.silver + c.gold }

  lemma ThreeParts(whole: set<string>, a: set<string>, b: set<string>, c: set<string>)
    requires whole == a + b + c && a !! b && a !! c && b !! c
    ensures |whole| == |a| + |b| + |c|
  {
  }

  /** The three layers' counts add up to the readable ids. */
  lemma CountsAddUp(manifests: map<string, Manifest>, ids: set<string>)
    ensures Total(CountByLayer(manifests, ids)) == |ids * manifests.Keys|
  {
    var b, s, g := OfLayer(manifests, ids, Bronze), OfLayer(manifests, ids, Silver), OfLayer(manifests, ids, Gold);
    forall k ensures k in ids * manifests.Keys <==> k in b + s + g {
      if k in manifests { match manifests[k].layer case Bronze => case Silver => case Gold => }
    }
    ThreeParts(ids * manifests.Keys, b, s, g);
  }

  lemma TwoParts(whole: set<string>, keys: set<string>)
    ensures |whole| == |whole * keys| + |whole - keys|
  {
    assert whole == whole * keys + (whole - keys);
  }

  function Notices(paths: seq<string>, classified: bool): seq<Notice> {
    (if classified then [] else [ClassificationRequired]) + (if paths == [] then [CatalogMissingOrEmpty] else [])
  }

  lemma NoticesMeaning(paths: seq<string>, classified: bool)
    ensures ClassificationRequired in Notices(paths, classified) <==> !classified
    ensures CatalogMissingOrEmpty in Notices(paths, classified) <==> paths == []
  {
  }

  function Verified(manifests: map<string, Manifest>, blocked: set<string>): set<string> { manifests.Keys - blocked }

  function Summary(notices: seq<Notice>, s: Scan, blocked: set<string>): Report {
    var verified := Verified(s.manifests, blocked);
    Report(notices, s.findings, blocked - s.invalid, verified, blocked, CountByLayer(s.manifests, verified),
           CountByLayer(s.manifests, blocked), |blocked - s.manifests.Keys|)
  }

  lemma ParentBlocks(manifests: map<string, Manifest>, blocked: set<string>, k: string, p: string)
    requires k in manifests && p in manifests[k].parents && p in blocked
    ensures k in Affected(manifests, blocked)
  {
    assert p in manifests[k].parents * blocked;
  }

  lemma ParentsClear(manifests: map<string, Manifest>, blocked: set<string>)
    requires Affected(manifests, blocked) <= blocked
    ensures forall k :: k in Verified(manifests, blocked) ==> manifests[k].parents !! blocked
  {
    forall k | k in Verified(manifests, blocked) ensures manifests[k].parents !! blocked {
      forall p | p in manifests[k].parents ensures p !in blocked {
        if p in blocked { ParentBlocks(manifests, blocked, k, p); }
      }
    }
  }

  lemma CountsPartition(manifests: map<string, Manifest>, blocked: set<string>)
    ensures Total(CountByLayer(manifests, Verified(manifests, blocked))) == |Verified(manifests, blocked)|
    ensures Total(CountByLayer(manifests, blocked)) + |blocked - manifests.Keys| == |blocked|
  {
    CountsAddUp(manifests, Verified(manifests, blocked));
    assert Verified(manifests, blocked) * manifests.Keys == Verified(manifests, blocked);
    CountsAddUp(manifests, blocked);
    TwoParts(blocked, manifests.Keys);
  }

  /** Everything after the scan. */
  method Summarize(s: Scan, notices: seq<Notice>) returns (report: Report)
    ensures forall k :: k in report.blocked <==> Tainted(s.manifests, s.invalid, k)
    ensures report.notices == notices && report.findings == s.findings
    ensures report.verified == s.manifests.Keys - report.blocked && report.inherited == report.blocked - s.invalid
    ensures s.invalid <= report.blocked <= s.invalid + s.manifests.Keys
    ensures forall k :: k in report.verified ==> s.manifests[k].parents !! report.blocked
    ensures Total(report.verifiedByLayer) == |report.verified|
    ensures Total(report.blockedByLayer) + report.blockedUnread == |report.blocked|
  {
    var blocked := Propagate(s.manifests, s.invalid);
    ParentsClear(s.manifests, blocked);
    CountsPartition(s.manifests, blocked);
    report := Summary(notices, s, blocked);
  }

  lemma SplitsCatalog(paths: seq<string>, readings: map<string, Reading>, classified: bool, blocked: set<string>)
    requires forall k :: k in paths ==> k in readings
    requires Suspects(paths, readings, classified) <= blocked
    requires blocked <= Suspects(paths, readings, classified) + Catalogued(paths, readings).Keys
    ensures var verified := Catalogued(paths, readings).Keys - blocked;
            && (forall k :: k in verified ==> k in paths && readings[k].Read? && FaultOf(readings[k]).None?)
            && (forall k :: k in paths <==> k in verified + blocked)
            && (!classified ==> verified == {})
  {
  }

  /** A manifest is verified exactly when it is in the catalogue, readable and free of any path to a suspect one; the
      rest of the catalogue is blocked, and under a credential classification each blocked manifest is named. */
  method AuditReceipts(paths: seq<string>, readings: map<string, Reading>, classified: bool) returns (report: Report)
    requires forall k :: k in paths ==> k in readings
    ensures forall k :: k in report.blocked <==>
              Tainted(Catalogued(paths, readings), Suspects(paths, readings, classified), k)
    ensures forall k :: k in report.verified ==> k in paths && readings[k].Read? && IsFault(readings[k], None)
    ensures RightlyFound(report.findings, paths, readings)
    ensures forall k :: k in paths && classified && !IsFault(readings[k], None) ==> k in report.blocked
    ensures forall k :: k in report.verified ==> readings[k].manifest.parents !! report.blocked
    ensures report.verified !! report.blocked && forall k :: k in paths <==> k in report.verified + report.blocked
    ensures classified ==> forall k :: k in report.blocked <==> Reported(report.findings, k) || k in report.inherited
    ensures !classified ==> report.verified == {}
    ensures ClassificationRequired in report.notices <==> !classified
    ensures CatalogMissingOrEmpty in report.notices <==> paths == []
    ensures Total(report.verifiedByLayer) == |report.verified|
    ensures Total(report.blockedByLayer) + report.blockedUnread == |report.blocked|
  {
    var s := ScanCatalog(paths, readings, classified);
    NoticesMeaning(paths, classified);
    report := Summarize(s, Notices(paths, classified));
    SplitsCatalog(paths, readings, classified, report.blocked);
    forall k | k in paths ensures IsFault(readings[k], FaultOf(readings[k])) { FaultMeans(readings[k]); }
  }
}
