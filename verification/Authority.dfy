/** The governor object that issues and honours decisions, and the binding of a target to an approved decision. */
module Authority {
  import opened Common
  import opened Sums
  import opened Governor

  datatype Digest = Digest(inputs: Inputs, policy: Policy, verdict: Verdict)

  datatype Decision = Decision(verdict: Verdict, run: string, targetId: string, target: map<string, real>,
                               policyVersion: string, digest: Digest)

  datatype Approved = Approved(multiplier: real, run: string, targetId: string, target: map<string, real>,
                               policyVersion: string, cash: string)

  datatype Refusal =
    | PolicyRequired | DigestCollision | NotIssuedHere | PolicyNotCurrent | CannotAuthorize
    | OtherCash | TargetInvalid | TargetDiffers | CashMissing

  function Build(p: Policy, i: Inputs, v: Verdict): Decision {
    Decision(v, i.run, i.targetId, i.target, i.policyVersion, Digest(i, p, v))
  }

  datatype Issue = Issue(decision: Decision, policy: Policy)

  /** What the dictionary of issued decisions may hold. */
  ghost predicate Genuine(t: Tables, digest: Digest, issue: Issue) {
    && Admitted(t, digest.policy) && issue.policy == digest.policy
    && digest.verdict == Decide(t, digest.policy, digest.inputs)
    && issue.decision == Build(digest.policy, digest.inputs, digest.verdict)
  }

  class RiskGovernor {
    const tables: Tables
    var policy: Option<Policy>
    var issued: map<Digest, Issue>

    ghost predicate Valid()
      reads this
    {
      && (policy.Some? ==> Admitted(tables, policy.value))
      && (forall d :: d in issued ==> Genuine(tables, d, issued[d]))
    }

    constructor (tables: Tables, policy: Option<Policy>)
      requires policy.Some? ==> Admitted(tables, policy.value)
      ensures Valid() && this.tables == tables && this.policy == policy && issued == map[]
    {
      this.tables, this.policy, issued := tables, policy, map[];
    }

    /** The collision refusal is never given. */
    method DecideRisk(i: Inputs) returns (res: Result<Decision, Refusal>)
      requires Valid()
      modifies this`issued
      ensures Valid()
      ensures policy.None? ==> res == Err(PolicyRequired) && issued == old(issued)
      ensures policy.Some? ==>
                var d := Build(policy.value, i, Decide(tables, policy.value, i));
                && res == Ok(d) && issued == old(issued)[d.digest := Issue(d, policy.value)]
                && d.verdict == Decide(tables, policy.value, i) && d.policyVersion == i.policyVersion
                && d.run == i.run && d.targetId == i.targetId && d.target == i.target
    {
      if policy.None? { return Err(PolicyRequired); }
      var d := Build(policy.value, i, Decide(tables, policy.value, i));
      if d.digest in issued && issued[d.digest] != Issue(d, policy.value) {
        return Err(DigestCollision);
      }
      issued := issued[d.digest := Issue(d, policy.value)];
      res := Ok(d);
    }

    /** An authorization is given exactly for an approving decision that this governor issued under its current
        policy, and such a decision is what the current policy makes of its inputs. */
    method Authorize(d: Decision) returns (res: Result<Approved, Refusal>)
      requires Valid()
      ensures res.Ok? <==> && d.digest in issued && issued[d.digest].decision == d && Approves(d.verdict)
                           && policy == Some(d.digest.policy) && d.policyVersion == d.digest.policy.version
      ensures res.Ok? ==> && policy.Some? && Admitted(tables, policy.value)
                          && !Refused(tables, policy.value, d.digest.inputs)
                          && res.value == Approved(Decide(tables, policy.value, d.digest.inputs).multiplier, d.run,
                                                   d.targetId, d.target, d.policyVersion, policy.value.cash)
                          && 0.0 < res.value.multiplier <= 1.0
    {
      if d.digest !in issued || issued[d.digest].decision != d { return Err(NotIssuedHere); }
      assert Genuine(tables, d.digest, issued[d.digest]);
      if policy.None? || d.policyVersion != policy.value.version || issued[d.digest].policy != policy.value {
        return Err(PolicyNotCurrent);
      }
      if !Approves(d.verdict) { return Err(CannotAuthorize); }
      DecideMeaning(tables, policy.value, d.digest.inputs);
      MultiplierIsFraction(tables, policy.value, d.digest.inputs);
      res := Ok(Approved(d.verdict.multiplier, d.run, d.targetId, d.target, d.policyVersion, policy.value.cash));
    }
  }

  // ------------------------------------------------------------------- targets

  /** What `target_weight_hash` accepts: named instruments, no short weight, fully invested. */
  ghost predicate IsTarget(w: map<string, real>) {
    && w != map[] && (forall k :: k in w ==> !Blank(k) && 0.0 <= w[k])
    && SumOver(w.Keys, w) == 1.0
  }

  method CheckTarget(w: map<string, real>) returns (ok: bool)
    ensures ok <==> IsTarget(w)
  {
    if w == map[] || exists k :: k in w && (Blank(k) || w[k] < 0.0) { return false; }
    var total := SumValues(w.Keys, w);
    ok := total == 1.0;
  }

  function Rescaled(w: map<string, real>, cash: string, m: real): map<string, real> {
    map k | k in w :: if k == cash then w[k] else w[k] * m
  }

  /** The bound target: risky weights scaled, cash the rest. */
  ghost function Bound(w: map<string, real>, cash: string, m: real): map<string, real>
    requires cash in w
  {
    var r := Rescaled(w, cash, m);
    r[cash := 1.0 - SumOver(r.Keys - {cash}, r)]
  }

  lemma ScaledDown(x: real, m: real)
    requires 0.0 <= x && 0.0 <= m <= 1.0
    ensures 0.0 <= x * m <= x
  {
    assert x - x * m == x * (1.0 - m);
  }

  lemma ScaledMonotone(x: real, m: real, n: real)
    requires 0.0 <= x && m <= n
    ensures x * m <= x * n
  {
    assert x * n - x * m == x * (n - m);
  }

  lemma RescaledEach(w: map<string, real>, cash: string, m: real, k: string)
    requires k in w && k != cash && 0.0 <= w[k] && 0.0 <= m <= 1.0
    ensures 0.0 <= Rescaled(w, cash, m)[k] <= w[k]
  {
    var x := w[k];
    ScaledDown(x, m);
    assert Rescaled(w, cash, m)[k] == x * m;
  }

  lemma RescaledMonotone(w: map<string, real>, cash: string, m: real, n: real, k: string)
    requires k in w && k != cash && 0.0 <= w[k] && m <= n
    ensures Rescaled(w, cash, m)[k] <= Rescaled(w, cash, n)[k]
  {
    var x := w[k];
    ScaledMonotone(x, m, n);
    assert Rescaled(w, cash, m)[k] == x * m && Rescaled(w, cash, n)[k] == x * n;
  }

  /** A risky weight of the answer is the multiplier times the target's own. */
  ghost predicate IsReduced(weight: real, m: real, own: real) { weight == m * own }

  lemma BoundIsReduced(w: map<string, real>, cash: string, m: real)
    requires cash in w
    ensures Bound(w, cash, m).Keys == w.Keys
    ensures forall k :: k in w && k != cash ==> IsReduced(Bound(w, cash, m)[k], m, w[k])
    ensures Bound(w, cash, m)[cash] == 1.0 - SumOver(w.Keys - {cash}, Bound(w, cash, m))
  {
    var r, b := Rescaled(w, cash, m), Bound(w, cash, m);
    assert b.Keys == w.Keys == r.Keys;
    SumSame(w.Keys - {cash}, b, r);
  }

  lemma RiskyShrinks(w: map<string, real>, cash: string, m: real)
    requires IsTarget(w) && cash in w && 0.0 <= m <= 1.0
    ensures var r := Rescaled(w, cash, m);
            SumOver(w.Keys - {cash}, r) <= SumOver(w.Keys - {cash}, w) == 1.0 - w[cash]
  {
    var r, risky := Rescaled(w, cash, m), w.Keys - {cash};
    SumRemove(w.Keys, w, cash);
    forall k | k in risky ensures r[k] <= w[k] { RescaledEach(w, cash, m, k); }
    SumAtMost(risky, r, w);
  }

  /** A bound target is again a target; no risky weight is raised and cash is not lowered. */
  lemma BoundIsTarget(w: map<string, real>, cash: string, m: real)
    requires IsTarget(w) && cash in w && 0.0 <= m <= 1.0
    ensures IsTarget(Bound(w, cash, m)) && Bound(w, cash, m).Keys == w.Keys
    ensures forall k :: k in w && k != cash ==> 0.0 <= Bound(w, cash, m)[k] <= w[k]
    ensures w[cash] <= Bound(w, cash, m)[cash]
  {
    var r, b := Rescaled(w, cash, m), Bound(w, cash, m);
    var risky := w.Keys - {cash};
    assert r.Keys == w.Keys && b.Keys == w.Keys;
    RiskyShrinks(w, cash, m);
    forall k | k in risky ensures 0.0 <= b[k] <= w[k] { RescaledEach(w, cash, m, k); }
    SumRemove(b.Keys, b, cash);
    SumSame(risky, b, r);
  }

  /** A smaller multiplier gives smaller risky weights and more cash. */
  lemma BoundMonotone(w: map<string, real>, cash: string, m: real, n: real)
    requires IsTarget(w) && cash in w && 0.0 <= m <= n <= 1.0
    ensures forall k :: k in w && k != cash ==> Bound(w, cash, m)[k] <= Bound(w, cash, n)[k]
    ensures Bound(w, cash, n)[cash] <= Bound(w, cash, m)[cash]
  {
    var r, s := Rescaled(w, cash, m), Rescaled(w, cash, n);
    forall k | k in w && k != cash ensures r[k] <= s[k] { RescaledMonotone(w, cash, m, n, k); }
    SumAtMost(w.Keys - {cash}, r, s);
    assert r.Keys == w.Keys == s.Keys;
  }

  /** Raising more flags moves an approved target only towards cash. */
  lemma {:induction false} MoreFlagsMoreCash(t: Tables, p: Policy, a: Inputs, b: Inputs, w: map<string, real>)
    requires Admitted(t, p) && a.flags <= b.flags && a.policyVersion == b.policyVersion
    requires IsTarget(w) && p.cash in w && Approves(Decide(t, p, b))
    ensures Approves(Decide(t, p, a))
    ensures var m, n := Decide(t, p, b).multiplier, Decide(t, p, a).multiplier;
            && (forall k :: k in w && k != p.cash ==> Bound(w, p.cash, m)[k] <= Bound(w, p.cash, n)[k])
            && Bound(w, p.cash, n)[p.cash] <= Bound(w, p.cash, m)[p.cash]
  {
    MoreFlagsNeverLoosen(t, p, a, b);
    MultiplierIsFraction(t, p, a);
    MultiplierIsFraction(t, p, b);
    BoundMonotone(w, p.cash, Decide(t, p, b).multiplier, Decide(t, p, a).multiplier);
  }

  /** `bind_target`: the check of the rescaled weights at the end never refuses. */
  method BindTarget(d: Approved, w: map<string, real>, cash: string) returns (res: Result<map<string, real>, Refusal>)
    requires 0.0 < d.multiplier <= 1.0
    ensures res.Ok? <==> cash == d.cash && IsTarget(w) && w == d.target && cash in w
    ensures res.Ok? ==> res.value == Bound(w, cash, d.multiplier) && IsTarget(res.value)
    ensures res.Ok? ==>
              && res.value.Keys == w.Keys
              && (forall k :: k in w && k != cash ==> IsReduced(res.value[k], d.multiplier, w[k]))
              && res.value[cash] == 1.0 - SumOver(w.Keys - {cash}, res.value)
    ensures res.Err? ==> res.reason == if cash != d.cash then OtherCash else if !IsTarget(w) then TargetInvalid
                                       else if w != d.target then TargetDiffers else CashMissing
  {
    if cash != d.cash { return Err(OtherCash); }
    var valid := CheckTarget(w);
    if !valid { return Err(TargetInvalid); }
    if w != d.target { return Err(TargetDiffers); }
    if Blank(cash) || cash !in w { return Err(CashMissing); }
    var r := Rescaled(w, cash, d.multiplier);
    var risky := SumValues(r.Keys - {cash}, r);
    r := r[cash := 1.0 - risky];
    BoundIsTarget(w, cash, d.multiplier);
    BoundIsReduced(w, cash, d.multiplier);
    var bound := CheckTarget(r);
    if !bound { return Err(TargetInvalid); }
    res := Ok(r);
  }
}
