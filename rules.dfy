/** The allow/disallow decision over conditional rules (cat.py `check_rules`),
    shared by libraries, natives and argument entries. */
module Rules {
  import opened Wrappers
  import opened Text

  /** The `os` clause of a rule; only its `name` is consulted. */
  datatype OsClause = OsClause(name: Option<string>)

  /** One rule: an action ("allow", "disallow", or anything else, which acts
      as disallow), an optional OS clause and an optional feature map. */
  datatype Rule = Rule(action: string, os: Option<OsClause>, features: Option<map<string, bool>>)

  /** The OS tag derived from `platform.system()`. */
  function CurrentOs(system: string): (tag: string)
    ensures tag == "windows" || tag == "linux" || tag == "osx"
    ensures tag == "windows" <==> Contains(Lower(system), "windows")
    ensures !Contains(Lower(system), "windows") ==> (tag == "linux" <==> Contains(Lower(system), "linux"))
    ensures tag == "osx" <==> !Contains(Lower(system), "windows") && !Contains(Lower(system), "linux")
  {
    var lowered := Lower(system);
    if Contains(lowered, "windows") then "windows"
    else if Contains(lowered, "linux") then "linux"
    else "osx"
  }

  /** A feature not supplied counts as false. */
  function FeatureValue(features: map<string, bool>, name: string): bool {
    if name in features then features[name] else false
  }

  predicate FeaturesMatch(required: map<string, bool>, features: map<string, bool>) {
    forall name :: name in required ==> FeatureValue(features, name) == required[name]
  }

  /** A rule applies when its OS clause names the current OS and every
      required feature has the required value. */
  predicate RuleApplies(rule: Rule, currentOs: string, features: map<string, bool>) {
    && (rule.os.Some? ==> rule.os.value.name == Some(currentOs))
    && (rule.features.Some? ==> FeaturesMatch(rule.features.value, features))
  }

  /** The action of the last applying rule, or "disallow" when none applies. */
  function Decision(rules: seq<Rule>, currentOs: string, features: map<string, bool>): string
    decreases |rules|
  {
    if rules == [] then "disallow"
    else if RuleApplies(rules[|rules| - 1], currentOs, features) then rules[|rules| - 1].action
    else Decision(rules[..|rules| - 1], currentOs, features)
  }

  /** The verdict for an entry whose `rules` key holds `rules` (None: no key). */
  predicate Allowed(rules: Option<seq<Rule>>, system: string, features: map<string, bool>) {
    rules.None? || Decision(rules.value, CurrentOs(system), features) == "allow"
  }

  /** The feature loop of `check_rules`: stops at the first mismatch. */
  method MatchFeatures(required: map<string, bool>, features: map<string, bool>) returns (matches: bool)
    ensures matches == FeaturesMatch(required, features)
  {
    matches := true;
    var remaining := required.Keys;
    while remaining != {}
      invariant remaining <= required.Keys
      invariant forall name :: name in required && name !in remaining ==> FeatureValue(features, name) == required[name]
      decreases |remaining|
    {
      var name :| name in remaining;
      var ourValue := if name in features then features[name] else false;
      if ourValue != required[name] {
        matches := false;
        break;
      }
      remaining := remaining - {name};
    }
  }

  /** `check_rules(entry, features)`: true when the entry has no rules;
      otherwise the last applying rule's action must be "allow". */
  method CheckRules(rules: Option<seq<Rule>>, system: string, features: map<string, bool>) returns (allowed: bool)
    ensures allowed == Allowed(rules, system, features)
  {
    if rules.None? {
      return true;
    }
    var currentOs := CurrentOs(system);
    var rs := rules.value;
    var actionToTake := "disallow";
    var i := 0;
    while i < |rs|
      invariant 0 <= i <= |rs|
      invariant actionToTake == Decision(rs[..i], currentOs, features)
    {
      var rule := rs[i];
      var applies := true;
      if rule.os.Some? && rule.os.value.name != Some(currentOs) {
        applies := false;
      }
      if rule.features.Some? && applies {
        applies := MatchFeatures(rule.features.value, features);
      }
      if applies {
        actionToTake := rule.action;
      }
      assert rs[..i + 1][..i] == rs[..i];
      i := i + 1;
    }
    assert rs[..|rs|] == rs;
    allowed := actionToTake == "allow";
  }

  /** Rule `i` applies and no later rule does. */
  predicate IsLastApplying(rules: seq<Rule>, currentOs: string, features: map<string, bool>, i: int) {
    && 0 <= i < |rules|
    && RuleApplies(rules[i], currentOs, features)
    && forall j :: i < j < |rules| ==> !RuleApplies(rules[j], currentOs, features)
  }

  /** The decision is the action of the last rule that applies. */
  lemma {:induction false} DecisionIsLastApplying(rules: seq<Rule>, currentOs: string, features: map<string, bool>, i: int)
    requires IsLastApplying(rules, currentOs, features, i)
    ensures Decision(rules, currentOs, features) == rules[i].action
    decreases |rules|
  {
    var n := |rules|;
    if i < n - 1 {
      var init := rules[..n - 1];
      assert !RuleApplies(rules[n - 1], currentOs, features);
      assert IsLastApplying(init, currentOs, features, i);
      DecisionIsLastApplying(init, currentOs, features, i);
    }
  }

  /** With no applying rule the decision is "disallow"; conversely, when it
      is not "disallow" some rule is the last applying one. */
  lemma {:induction false} DecisionWithoutApplyingRule(rules: seq<Rule>, currentOs: string, features: map<string, bool>)
    ensures (exists i :: IsLastApplying(rules, currentOs, features, i)) ||
            Decision(rules, currentOs, features) == "disallow"
    decreases |rules|
  {
    var n := |rules|;
    if n > 0 {
      if RuleApplies(rules[n - 1], currentOs, features) {
        assert IsLastApplying(rules, currentOs, features, n - 1);
      } else {
        var init := rules[..n - 1];
        DecisionWithoutApplyingRule(init, currentOs, features);
        if k :| IsLastApplying(init, currentOs, features, k) {
          assert IsLastApplying(rules, currentOs, features, k);
        }
      }
    }
  }

  /** An entry with rules is allowed exactly when the last applying rule
      exists and says "allow". */
  lemma {:induction false} AllowedIffLastApplyingAllows(rules: seq<Rule>, system: string, features: map<string, bool>)
    ensures Allowed(Some(rules), system, features) <==>
      exists i :: IsLastApplying(rules, CurrentOs(system), features, i) && rules[i].action == "allow"
  {
    var os := CurrentOs(system);
    DecisionWithoutApplyingRule(rules, os, features);
    if k :| IsLastApplying(rules, os, features, k) {
      DecisionIsLastApplying(rules, os, features, k);
    }
  }

  /** A rule list that has no `features` clause gives the same verdict for
      every feature map. */
  lemma {:induction false} FeatureFreeRulesIgnoreFeatures(rules: seq<Rule>, system: string, f1: map<string, bool>, f2: map<string, bool>)
    requires forall i :: 0 <= i < |rules| ==> rules[i].features.None?
    ensures Allowed(Some(rules), system, f1) == Allowed(Some(rules), system, f2)
  {
    FeatureFreeDecision(rules, CurrentOs(system), f1, f2);
  }

  lemma {:induction false} FeatureFreeDecision(rules: seq<Rule>, currentOs: string, f1: map<string, bool>, f2: map<string, bool>)
    requires forall i :: 0 <= i < |rules| ==> rules[i].features.None?
    ensures Decision(rules, currentOs, f1) == Decision(rules, currentOs, f2)
    decreases |rules|
  {
    if rules != [] {
      FeatureFreeDecision(rules[..|rules| - 1], currentOs, f1, f2);
    }
  }

  /** Supplying a feature as false is the same as not supplying it: the fixed
      all-false feature set of the argument synthesiser decides like the empty
      one used for libraries. */
  lemma {:induction false} FalseFeaturesLikeAbsent(rules: seq<Rule>, currentOs: string, features: map<string, bool>)
    requires forall name :: name in features ==> !features[name]
    ensures Decision(rules, currentOs, features) == Decision(rules, currentOs, map[])
    decreases |rules|
  {
    if rules != [] {
      var last := rules[|rules| - 1];
      if last.features.Some? {
        assert forall name :: FeatureValue(features, name) == FeatureValue(map[], name);
      }
      FalseFeaturesLikeAbsent(rules[..|rules| - 1], currentOs, features);
    }
  }
}
