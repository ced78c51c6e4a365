/**
 * The grammar rule record `joshua.decoder.ff.tm.MonolingualRule`: a mutable
 * record with a feature-score array that is read and updated column by
 * column, and a cached estimated cost computed from a list of feature
 * functions. Java `float`/`double` arithmetic is modelled with reals.
 */
module Rules {
  import opened Wrappers

  /** `DUMMY_RULE_ID` and `DUMMY_OWNER`: the IDs of rules built without them. */
  const DummyRuleId: int := 1
  const DummyOwner: int := 1

  /** What a feature function can see of a rule when it estimates its cost. */
  datatype RuleView = RuleView(
    ruleId: int, lhs: int, french: seq<int>, arity: int,
    featScores: seq<real>, owner: int, latticeCost: real)

  /**
   * The two members of `FeatureFunction` the estimate uses: `getWeight()` and
   * `estimate(rule)`; the feature functions themselves are not part of this
   * model.
   */
  datatype FeatureFunction = FeatureFunction(weight: real, estimate: RuleView -> real)

  /** The estimated cost of a rule: the sum of `estimate(rule) * getWeight()` over the list, in order. */
  function EstimateSum(ffs: seq<FeatureFunction>, rule: RuleView): real {
    if ffs == [] then 0.0
    else
      var n := |ffs| - 1;
      EstimateSum(ffs[..n], rule) + ffs[n].estimate(rule) * ffs[n].weight
  }

  class MonolingualRule {
    var ruleId: int
    var lhs: int
    var french: array<int>
    var arity: int
    var featScores: array<real>
    var owner: int
    var latticeCost: real
    var estCost: real

    /** The constructor taking every field; the estimated cost starts at 0. */
    constructor (lhs: int, sourceRhs: array<int>, featureScores: array<real>, arity: int,
                 owner: int, latticeCost: real, ruleId: int)
      ensures this.lhs == lhs && french == sourceRhs && featScores == featureScores
      ensures this.arity == arity && this.latticeCost == latticeCost
      ensures this.ruleId == ruleId && this.owner == owner
      ensures estCost == 0.0
    {
      this.lhs := lhs;
      french := sourceRhs;
      featScores := featureScores;
      this.arity := arity;
      this.latticeCost := latticeCost;
      this.ruleId := ruleId;
      this.owner := owner;
      estCost := 0.0;
    }

    /** The constructor for callers that do not care about lattice cost, rule ID and owner. */
    constructor WithDummyIds(lhs: int, sourceRhs: array<int>, featureScores: array<real>, arity: int)
      ensures this.lhs == lhs && french == sourceRhs && featScores == featureScores && this.arity == arity
      ensures latticeCost == 0.0 && ruleId == DummyRuleId && owner == DummyOwner
      ensures estCost == 0.0
    {
      this.lhs := lhs;
      french := sourceRhs;
      featScores := featureScores;
      this.arity := arity;
      latticeCost := 0.0;
      ruleId := DummyRuleId;
      owner := DummyOwner;
      estCost := 0.0;
    }

    // --- Attributes: each setter writes its own field and nothing else.

    method SetRuleID(id: int)
      modifies this`ruleId
      ensures GetRuleID() == id
    {
      ruleId := id;
    }

    function GetRuleID(): int
      reads this
    {
      ruleId
    }

    method SetArity(arity: int)
      modifies this`arity
      ensures GetArity() == arity
    {
      this.arity := arity;
    }

    function GetArity(): int
      reads this
    {
      arity
    }

    method SetOwner(owner: int)
      modifies this`owner
      ensures GetOwner() == owner
    {
      this.owner := owner;
    }

    function GetOwner(): int
      reads this
    {
      owner
    }

    method SetLHS(lhs: int)
      modifies this`lhs
      ensures GetLHS() == lhs
    {
      this.lhs := lhs;
    }

    function GetLHS(): int
      reads this
    {
      lhs
    }

    /** `setEnglish` does nothing: a monolingual rule has no target side. */
    method SetEnglish(eng: array<int>)
      ensures unchanged(this)
    {
    }

    /** `getEnglish` is always null. */
    function GetEnglish(): (r: Option<array<int>>)
      ensures r.None?
    {
      None
    }

    method SetFrench(french: array<int>)
      modifies this`french
      ensures GetFrench() == french
    {
      this.french := french;
    }

    function GetFrench(): array<int>
      reads this
    {
      french
    }

    /** Stores the given array itself, not a copy. */
    method SetFeatureScores(scores: array<real>)
      modifies this`featScores
      ensures GetFeatureScores() == scores
    {
      featScores := scores;
    }

    function GetFeatureScores(): array<real>
      reads this
    {
      featScores
    }

    method SetLatticeCost(cost: real)
      modifies this`latticeCost
      ensures GetLatticeCost() == cost
    {
      latticeCost := cost;
    }

    function GetLatticeCost(): real
      reads this
    {
      latticeCost
    }

    /** The cached estimate, as last stored by `EstimateRuleCost` (0 for a fresh rule). */
    function GetEstCost(): real
      reads this
    {
      estCost
    }

    /** The rule as a feature function sees it. */
    function View(): RuleView
      reads this, french, featScores
    {
      RuleView(ruleId, lhs, french[..], arity, featScores[..], owner, latticeCost)
    }

    /**
     * `estimateRuleCost`: with no list (null) the result is 0 and the cached
     * cost is left alone; otherwise the sum of `estimate(this) * getWeight()`
     * over the list is stored and returned.
     */
    method EstimateRuleCost(featureFunctions: Option<seq<FeatureFunction>>) returns (r: real)
      modifies this`estCost
      ensures featureFunctions.None? ==> r == 0.0 && estCost == old(estCost)
      ensures featureFunctions.Some? ==> r == EstimateSum(featureFunctions.value, View()) && GetEstCost() == r
    {
      if featureFunctions.None? {
        return 0.0;
      }
      var ffs := featureFunctions.value;
      var rule := View();
      var estcost := 0.0;
      var i := 0;
      while i < |ffs|
        invariant 0 <= i <= |ffs|
        invariant estcost == EstimateSum(ffs[..i], rule)
      {
        var mdcost := ffs[i].estimate(rule) * ffs[i].weight;
        assert ffs[..i + 1][..i] == ffs[..i];
        estcost := estcost + mdcost;
        i := i + 1;
      }
      assert ffs[..i] == ffs;
      estCost := estcost;
      r := estcost;
    }

    // --- Feature scores, column by column.

    /** Adds `score` to one column and returns the new value; the other columns keep theirs. */
    method IncrementFeatureScore(column: int, score: real) returns (r: real)
      requires 0 <= column < featScores.Length
      modifies featScores
      ensures featScores[column] == old(featScores[column]) + score
      ensures r == GetFeatureScore(column)
      ensures forall i :: 0 <= i < featScores.Length && i != column ==> featScores[i] == old(featScores[i])
    {
      featScores[column] := featScores[column] + score;
      r := featScores[column];
    }

    /** Overwrites one column; the other columns keep their values. */
    method SetFeatureScore(column: int, score: real)
      requires 0 <= column < featScores.Length
      modifies featScores
      ensures GetFeatureScore(column) == score
      ensures forall i :: 0 <= i < featScores.Length && i != column ==> featScores[i] == old(featScores[i])
    {
      featScores[column] := score;
    }

    function GetFeatureScore(column: int): real
      requires 0 <= column < featScores.Length
      reads this, featScores
    {
      featScores[column]
    }
  }

  // ---------------------------------------------------------------------------
  // Lemmas
  // ---------------------------------------------------------------------------

  /** Estimating over two lists one after the other adds their estimates. */
  lemma {:induction false} EstimateSumAppend(a: seq<FeatureFunction>, b: seq<FeatureFunction>, rule: RuleView)
    ensures EstimateSum(a + b, rule) == EstimateSum(a, rule) + EstimateSum(b, rule)
  {
    if b == [] {
      assert a + b == a;
    } else {
      var n := |b| - 1;
      assert (a + b)[..|a + b| - 1] == a + b[..n];
      EstimateSumAppend(a, b[..n], rule);
    }
  }

  /** An empty list estimates 0, and a single feature function contributes `estimate * weight`. */
  lemma EstimateSumSmall(ff: FeatureFunction, rule: RuleView)
    ensures EstimateSum([], rule) == 0.0
    ensures EstimateSum([ff], rule) == ff.estimate(rule) * ff.weight
  {
    assert [ff][..0] == [];
  }

  /**
   * Changing the weight of the `k`-th feature function by `delta` changes the
   * estimate by `delta` times that function's estimate: the cost is linear in
   * each weight.
   */
  lemma EstimateSumWeightChange(ffs: seq<FeatureFunction>, k: nat, delta: real, rule: RuleView)
    requires k < |ffs|
    ensures var changed := ffs[k := ffs[k].(weight := ffs[k].weight + delta)];
      EstimateSum(changed, rule) == EstimateSum(ffs, rule) + delta * ffs[k].estimate(rule)
  {
    var changed := ffs[k := ffs[k].(weight := ffs[k].weight + delta)];
    EstimateSumAround(ffs, k, rule);
    EstimateSumAround(changed, k, rule);
    assert changed[..k] == ffs[..k] && changed[k + 1..] == ffs[k + 1..];
  }

  /** The estimate splits around the `k`-th feature function. */
  lemma EstimateSumAround(ffs: seq<FeatureFunction>, k: nat, rule: RuleView)
    requires k < |ffs|
    ensures EstimateSum(ffs, rule)
         == EstimateSum(ffs[..k], rule) + ffs[k].estimate(rule) * ffs[k].weight + EstimateSum(ffs[k + 1..], rule)
  {
    var ff := ffs[k];
    assert ffs == ffs[..k] + [ff] + ffs[k + 1..];
    EstimateSumAppend(ffs[..k] + [ff], ffs[k + 1..], rule);
    EstimateSumAppend(ffs[..k], [ff], rule);
    EstimateSumSmall(ff, rule);
  }

  /** Feature functions with weight 0 contribute nothing to the estimate. */
  lemma {:induction false} EstimateSumZeroWeights(ffs: seq<FeatureFunction>, rule: RuleView)
    requires forall i :: 0 <= i < |ffs| ==> ffs[i].weight == 0.0
    ensures EstimateSum(ffs, rule) == 0.0
  {
    if ffs != [] {
      EstimateSumZeroWeights(ffs[..|ffs| - 1], rule);
    }
  }
}
