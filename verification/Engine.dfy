/** The rules engine: runs every rule and sorts what fired by id (crates/rules_engine/src/lib.rs). */
module Engine {
  import opened Common
  import opened Sorting
  import opened Rules

  datatype Rule = Rule(id: string, check: (Transaction, RuleContext, RulesConfig) -> Option<Severity>)

  const DEFAULT_RULES: seq<Rule> := [
    Rule("large_transfer", LargeTransfer),
    Rule("repeated_transaction", RepeatedTransaction),
    Rule("abnormal_frequency", AbnormalFrequency),
    Rule("flagged_account_interaction", FlaggedAccountInteraction),
    Rule("unusual_asset_movement", UnusualAssetMovement),
    Rule("configurable_threshold", ConfigurableThreshold),
    Rule("dormant_account_reactivation", DormantAccountReactivation),
    Rule("round_trip_wash_trading", RoundTripWashTrading),
    Rule("new_account_high_value_outflow", NewAccountHighValueOutflow),
    Rule("cross_asset_rapid_conversion", CrossAssetRapidConversion)
  ]

  // ---------- Order on ids ----------

  predicate Precedes(a: string, b: string) {
    b != "" && (a == "" || a[0] < b[0] || (a[0] == b[0] && Precedes(a[1..], b[1..])))
  }

  function ById(): (TriggeredRule, TriggeredRule) -> bool {
    (a: TriggeredRule, b: TriggeredRule) => a.ruleId == b.ruleId || Precedes(a.ruleId, b.ruleId)
  }

  /** The order of dictionaries: where the two first differ, `a` has the smaller character, or has ended. */
  lemma {:induction false} PrecedesIff(a: string, b: string)
    ensures Precedes(a, b) <==> exists n: nat :: DiffersAt(a, b, n)
  {
    if a != "" && b != "" && a[0] == b[0] {
      PrecedesIff(a[1..], b[1..]);
      if n: nat :| DiffersAt(a[1..], b[1..], n) {
        assert DiffersAt(a, b, n + 1);
      }
      if n: nat :| DiffersAt(a, b, n) {
        assert n > 0;
        assert DiffersAt(a[1..], b[1..], n - 1);
      }
    } else if b != "" && (a == "" || a[0] < b[0]) {
      assert DiffersAt(a, b, 0);
    }
  }

  ghost predicate DiffersAt(a: string, b: string, n: nat) {
    n < |b| && n <= |a| && a[..n] == b[..n] && (n == |a| || a[n] < b[n])
  }

  lemma {:induction false} PrecedesTotal(a: string, b: string)
    ensures a == b || Precedes(a, b) || Precedes(b, a)
    ensures !(Precedes(a, b) && Precedes(b, a))
  {
    if a != [] && b != [] && a[0] == b[0] {
      PrecedesTotal(a[1..], b[1..]);
      assert a == [a[0]] + a[1..] && b == [b[0]] + b[1..];
    }
  }

  lemma {:induction false} PrecedesTransitive(a: string, b: string, c: string)
    requires Precedes(a, b) && Precedes(b, c)
    ensures Precedes(a, c)
  {
    if a != "" && a[0] == b[0] && b[0] == c[0] {
      PrecedesTransitive(a[1..], b[1..], c[1..]);
    }
  }

  lemma ByIdIsPreorder()
    ensures TotalPreorder(ById())
  {
    forall x: TriggeredRule, y: TriggeredRule ensures ById()(x, y) || ById()(y, x) {
      PrecedesTotal(x.ruleId, y.ruleId);
    }
    forall x: TriggeredRule, y: TriggeredRule, z: TriggeredRule | ById()(x, y) && ById()(y, z) ensures ById()(x, z) {
      if x.ruleId != y.ruleId && y.ruleId != z.ruleId {
        PrecedesTransitive(x.ruleId, y.ruleId, z.ruleId);
      }
    }
  }

  // ---------- Evaluation ----------

  function FireOne(rule: Rule, tx: Transaction, ctx: RuleContext, config: RulesConfig): seq<TriggeredRule> {
    match rule.check(tx, ctx, config)
    case Some(severity) => [TriggeredRule(rule.id, severity)]
    case None => []
  }

  function Fired(rules: seq<Rule>, tx: Transaction, ctx: RuleContext, config: RulesConfig): seq<TriggeredRule> {
    if rules == [] then [] else FireOne(rules[0], tx, ctx, config) + Fired(rules[1..], tx, ctx, config)
  }

  function Evaluate(rules: seq<Rule>, tx: Transaction, ctx: RuleContext, config: RulesConfig): seq<TriggeredRule> {
    Sort(ById(), Fired(rules, tx, ctx, config))
  }

  /** Some rule with this id fired with this severity. */
  ghost predicate FiredByRule(rules: seq<Rule>, t: TriggeredRule, tx: Transaction, ctx: RuleContext, config: RulesConfig) {
    exists i :: 0 <= i < |rules| && rules[i].id == t.ruleId && rules[i].check(tx, ctx, config) == Some(t.severity)
  }

  /** The triggers of exactly the rules that fired, sorted by id. */
  ghost predicate Reports(triggered: seq<TriggeredRule>, rules: seq<Rule>, tx: Transaction, ctx: RuleContext, config: RulesConfig) {
    SortedBy(ById(), triggered) && forall t :: t in triggered <==> FiredByRule(rules, t, tx, ctx, config)
  }

  class RulesEngine {
    var rules: seq<Rule>

    constructor (rules: seq<Rule>)
      ensures this.rules == rules
    {
      this.rules := rules;
    }

    method Register(rule: Rule)
      modifies this
      ensures rules == old(rules) + [rule]
    {
      rules := rules + [rule];
    }

    /** What fires is collected rule by rule, then sorted. Each trigger comes from a rule that fired, under
        its id and severity, and none is lost. */
    method EvaluateAll(tx: Transaction, ctx: RuleContext, config: RulesConfig) returns (triggered: seq<TriggeredRule>)
      ensures triggered == Evaluate(rules, tx, ctx, config)
      ensures Reports(triggered, rules, tx, ctx, config)
    {
      triggered := [];
      for i := 0 to |rules|
        invariant triggered == Fired(rules[..i], tx, ctx, config)
      {
        FiredNext(rules, i, tx, ctx, config);
        var verdict := rules[i].check(tx, ctx, config);
        if verdict.Some? {
          triggered := triggered + [TriggeredRule(rules[i].id, verdict.value)];
        }
      }
      assert rules[..|rules|] == rules;
      EvaluateReports(rules, tx, ctx, config);
      triggered := Sort(ById(), triggered);
    }
  }

  lemma {:induction false} FiredConcat(a: seq<Rule>, b: seq<Rule>, tx: Transaction, ctx: RuleContext, config: RulesConfig)
    ensures Fired(a + b, tx, ctx, config) == Fired(a, tx, ctx, config) + Fired(b, tx, ctx, config)
  {
    if a == [] {
      assert a + b == b;
    } else {
      FiredConcat(a[1..], b, tx, ctx, config);
      assert (a + b)[1..] == a[1..] + b;
    }
  }

  lemma FiredNext(rules: seq<Rule>, i: nat, tx: Transaction, ctx: RuleContext, config: RulesConfig)
    requires i < |rules|
    ensures Fired(rules[..i + 1], tx, ctx, config) == Fired(rules[..i], tx, ctx, config) + FireOne(rules[i], tx, ctx, config)
  {
    FiredConcat(rules[..i], [rules[i]], tx, ctx, config);
    assert rules[..i + 1] == rules[..i] + [rules[i]];
    assert Fired([rules[i]], tx, ctx, config) == FireOne(rules[i], tx, ctx, config) + Fired([], tx, ctx, config);
  }

  lemma EvaluateReports(rules: seq<Rule>, tx: Transaction, ctx: RuleContext, config: RulesConfig)
    ensures Reports(Evaluate(rules, tx, ctx, config), rules, tx, ctx, config)
  {
    ByIdIsPreorder();
    SortSorts(ById(), Fired(rules, tx, ctx, config));
    forall t ensures t in Evaluate(rules, tx, ctx, config) <==> FiredByRule(rules, t, tx, ctx, config) {
      assert t in multiset(Evaluate(rules, tx, ctx, config)) <==> t in multiset(Fired(rules, tx, ctx, config));
      FiredBy(rules, t, tx, ctx, config);
      FiresAs(rules, t, tx, ctx, config);
    }
  }

  lemma FiresAs(rules: seq<Rule>, t: TriggeredRule, tx: Transaction, ctx: RuleContext, config: RulesConfig)
    ensures (exists i :: 0 <= i < |rules| && t in FireOne(rules[i], tx, ctx, config)) <==> FiredByRule(rules, t, tx, ctx, config)
  {
    if i :| 0 <= i < |rules| && t in FireOne(rules[i], tx, ctx, config) {
      assert rules[i].id == t.ruleId && rules[i].check(tx, ctx, config) == Some(t.severity);
    }
    if i :| 0 <= i < |rules| && rules[i].id == t.ruleId && rules[i].check(tx, ctx, config) == Some(t.severity) {
      assert t in FireOne(rules[i], tx, ctx, config);
    }
  }

  // ---------- Rule order does not matter ----------

  ghost predicate DistinctIds(rules: seq<Rule>) {
    forall i, j :: 0 <= i < j < |rules| ==> rules[i].id != rules[j].id
  }

  lemma {:induction false} FiredWithout(rules: seq<Rule>, i: nat, tx: Transaction, ctx: RuleContext, config: RulesConfig)
    requires i < |rules|
    ensures multiset(Fired(rules, tx, ctx, config))
         == multiset(FireOne(rules[i], tx, ctx, config)) + multiset(Fired(Without(rules, i), tx, ctx, config))
  {
    if i == 0 {
      assert Without(rules, 0) == rules[1..];
    } else {
      FiredWithout(rules[1..], i - 1, tx, ctx, config);
      WithoutTail(rules, i);
    }
  }

  lemma WithoutTail<T>(s: seq<T>, i: nat)
    requires 0 < i < |s|
    ensures Without(s, i)[0] == s[0] && Without(s, i)[1..] == Without(s[1..], i - 1) && s[1..][i - 1] == s[i]
  {
  }

  lemma {:induction false} FiredArranged(a: seq<Rule>, b: seq<Rule>, tx: Transaction, ctx: RuleContext, config: RulesConfig)
    requires multiset(a) == multiset(b)
    ensures multiset(Fired(a, tx, ctx, config)) == multiset(Fired(b, tx, ctx, config))
  {
    assert |multiset(a)| == |multiset(b)|;
    if a != [] {
      var i := RemoveSame(a, b);
      FiredArranged(a[1..], Without(b, i), tx, ctx, config);
      FiredWithout(b, i, tx, ctx, config);
    } else {
      assert b == [];
    }
  }

  /** A trigger comes from the rule whose id it bears. */
  lemma {:induction false} FiredBy(rules: seq<Rule>, t: TriggeredRule, tx: Transaction, ctx: RuleContext, config: RulesConfig)
    ensures t in Fired(rules, tx, ctx, config)
       <==> exists i :: 0 <= i < |rules| && t in FireOne(rules[i], tx, ctx, config)
  {
    if rules != [] {
      FiredBy(rules[1..], t, tx, ctx, config);
      if t in Fired(rules[1..], tx, ctx, config) {
        var i :| 0 <= i < |rules[1..]| && t in FireOne(rules[1..][i], tx, ctx, config);
        assert rules[i + 1] == rules[1..][i];
      }
      if i :| 0 <= i < |rules| && t in FireOne(rules[i], tx, ctx, config) {
        assert i > 0 ==> rules[i] == rules[1..][i - 1];
      }
    }
  }

  /** With distinct rule ids, every trigger fires once and its id tells it. */
  lemma FiredOnce(rules: seq<Rule>, t: TriggeredRule, u: TriggeredRule, tx: Transaction, ctx: RuleContext, config: RulesConfig)
    requires DistinctIds(rules)
    requires t in Fired(rules, tx, ctx, config) && u in Fired(rules, tx, ctx, config) && t.ruleId == u.ruleId
    ensures t == u && multiset(Fired(rules, tx, ctx, config))[t] == 1
  {
    FiredBy(rules, t, tx, ctx, config);
    FiredBy(rules, u, tx, ctx, config);
    var i :| 0 <= i < |rules| && t in FireOne(rules[i], tx, ctx, config);
    var j :| 0 <= j < |rules| && u in FireOne(rules[j], tx, ctx, config);
    assert i == j;
    FiredWithout(rules, i, tx, ctx, config);
    OthersSilent(rules, i, t, tx, ctx, config);
    assert FireOne(rules[i], tx, ctx, config) == [t];
  }

  lemma OthersSilent(rules: seq<Rule>, i: nat, t: TriggeredRule, tx: Transaction, ctx: RuleContext, config: RulesConfig)
    requires DistinctIds(rules) && i < |rules| && t.ruleId == rules[i].id
    ensures t !in multiset(Fired(Without(rules, i), tx, ctx, config))
  {
    var others := Without(rules, i);
    FiredBy(others, t, tx, ctx, config);
    forall k | 0 <= k < |others| ensures t !in FireOne(others[k], tx, ctx, config) {
      assert others[k] == rules[if k < i then k else k + 1];
    }
  }

  /** The output is strictly sorted by id, and is the same list whatever order the rules
      were registered in. */
  lemma EngineDeterministic(a: seq<Rule>, b: seq<Rule>, tx: Transaction, ctx: RuleContext, config: RulesConfig)
    requires DistinctIds(a) && multiset(a) == multiset(b)
    ensures Evaluate(a, tx, ctx, config) == Evaluate(b, tx, ctx, config)
    ensures var out := Evaluate(a, tx, ctx, config);
            forall i, j :: 0 <= i < j < |out| ==> Precedes(out[i].ruleId, out[j].ruleId)
  {
    var out := Evaluate(a, tx, ctx, config);
    var fired := Fired(a, tx, ctx, config);
    ByIdIsPreorder();
    SortSorts(ById(), fired);
    SortSorts(ById(), Fired(b, tx, ctx, config));
    FiredArranged(a, b, tx, ctx, config);
    forall x, y | x in out && y in out && ById()(x, y) && ById()(y, x) ensures x == y {
      SameIdSameTrigger(a, x, y, tx, ctx, config);
    }
    SortedUnique(ById(), out, Evaluate(b, tx, ctx, config));
    forall i, j | 0 <= i < j < |out| ensures Precedes(out[i].ruleId, out[j].ruleId) {
      if out[i].ruleId == out[j].ruleId {
        assert out[i] in multiset(out) && out[j] in multiset(out);
        FiredOnce(a, out[i], out[j], tx, ctx, config);
        TwiceInMultiset(out, i, j);
      }
      assert ById()(out[i], out[j]);
    }
  }

  lemma SameIdSameTrigger(rules: seq<Rule>, x: TriggeredRule, y: TriggeredRule, tx: Transaction, ctx: RuleContext, config: RulesConfig)
    requires DistinctIds(rules) && ById()(x, y) && ById()(y, x)
    requires x in Evaluate(rules, tx, ctx, config) && y in Evaluate(rules, tx, ctx, config)
    ensures x == y
  {
    PrecedesTotal(x.ruleId, y.ruleId);
    ByIdIsPreorder();
    SortSorts(ById(), Fired(rules, tx, ctx, config));
    assert x in multiset(Evaluate(rules, tx, ctx, config)) && y in multiset(Evaluate(rules, tx, ctx, config));
    FiredOnce(rules, x, y, tx, ctx, config);
  }

  lemma TwiceInMultiset<T>(s: seq<T>, i: nat, j: nat)
    requires i < j < |s| && s[i] == s[j]
    ensures multiset(s)[s[i]] >= 2
  {
    WithoutMultiset(s, i);
    assert Without(s, i)[j - 1] == s[j];
  }

  lemma DefaultIdsDistinct()
    ensures DistinctIds(DEFAULT_RULES)
  {
  }
}
