/** Policy evaluation: rules compiled once and kept, run against the flattened contexts of a job message. */
module Validator {
  import opened Wrappers
  import opened ContextData

  type Rule = string

  type Context = map<string, Plain>

  datatype Policy = Policy(must: seq<Rule>, mustNot: seq<Rule>)

  /** What the first step of a compiled rule's iterator gives: nothing, a boolean, or anything else (an error value too). */
  datatype Output = NoOutput | Boolean(value: bool) | Other

  /** The query language: parsing, compiling, and the first output of a run. */
  datatype Engine<!Query, !Code> = Engine(parse: Rule -> Option<Query>, compile: Query -> Option<Code>,
                                          first: (Code, Context) -> Output)
  {
    function Compiled(rule: Rule): Option<Code> {
      if parse(rule).None? then None else compile(parse(rule).value)
    }
  }

  datatype Verdict = Accepted | Violated(rule: Rule) | BadContext | BadRule(rule: Rule) | NoContext

  // ---------- the meaning of a policy ----------

  predicate Usable<Q, C>(e: Engine<Q, C>, rule: Rule) {
    e.Compiled(rule).Some?
  }

  predicate SaysTrue<Q, C>(e: Engine<Q, C>, rule: Rule, cd: Context) {
    Usable(e, rule) && e.first(e.Compiled(rule).value, cd) == Boolean(true)
  }

  /** What a loop over rules stops at: the first rule that does not compile or whose truth is not the wanted one. */
  function Check<Q, C>(e: Engine<Q, C>, rules: seq<Rule>, wanted: bool, cd: Context): Verdict {
    if rules == [] then Accepted
    else
      var front := Check(e, rules[..|rules| - 1], wanted, cd);
      var rule := rules[|rules| - 1];
      if front != Accepted then front
      else if !Usable(e, rule) then BadRule(rule)
      else if SaysTrue(e, rule, cd) != wanted then Violated(rule)
      else Accepted
  }

  predicate AllFlat(contexts: map<string, Data>) {
    forall k | k in contexts :: Flatten(contexts[k]).Ok?
  }

  function FlatContext(contexts: map<string, Data>): (cd: Context)
    requires AllFlat(contexts)
    ensures cd.Keys == contexts.Keys && forall k | k in contexts :: Flatten(contexts[k]) == Ok(cd[k])
  {
    map k | k in contexts :: Flatten(contexts[k]).value
  }

  function Judge<Q, C>(e: Engine<Q, C>, policy: Policy, contexts: Option<map<string, Data>>): Verdict {
    if contexts.None? then NoContext
    else if !AllFlat(contexts.value) then BadContext
    else
      var cd := FlatContext(contexts.value);
      var must := Check(e, policy.must, true, cd);
      if must != Accepted then must else Check(e, policy.mustNot, false, cd)
  }

  // ---------- the code ----------

  class PolicyValidator<Query, Code> {
    const engine: Engine<Query, Code>
    var ruleCache: map<Rule, Code>

    /** Whatever the cache holds is what compiling would give. */
    ghost predicate Valid()
      reads this
    {
      forall rule | rule in ruleCache :: engine.Compiled(rule) == Some(ruleCache[rule])
    }

    constructor (engine: Engine<Query, Code>)
      ensures Valid() && this.engine == engine && ruleCache == map[]
    {
      this.engine, ruleCache := engine, map[];
    }

    method CompileRule(rule: Rule) returns (code: Option<Code>)
      requires Valid()
      modifies `ruleCache
      ensures Valid() && code == engine.Compiled(rule)
      ensures ruleCache == if code.Some? then old(ruleCache)[rule := code.value] else old(ruleCache)
    {
      if rule in ruleCache {
        assert ruleCache == ruleCache[rule := ruleCache[rule]];
        return Some(ruleCache[rule]);
      }
      var q := engine.parse(rule);
      if q.None? { return None; }
      var c := engine.compile(q.value);
      if c.None? { return None; }
      ruleCache := ruleCache[rule := c.value];
      return c;
    }

    method ValidateMust(rules: seq<Rule>, cd: Context) returns (v: Verdict)
      requires Valid()
      modifies `ruleCache
      ensures Valid() && v == Check(engine, rules, true, cd)
      ensures old(ruleCache.Keys) <= ruleCache.Keys <= old(ruleCache.Keys) + set rule | rule in rules
    {
      for i := 0 to |rules|
        invariant Valid() && Check(engine, rules[..i], true, cd) == Accepted
        invariant old(ruleCache.Keys) <= ruleCache.Keys <= old(ruleCache.Keys) + set rule | rule in rules
      {
        assert rules[..i + 1][..i] == rules[..i];
        CheckInFront(engine, rules, i + 1, true, cd);
        var rule := rules[i];
        var code := CompileRule(rule);
        if code.None? { return BadRule(rule); }
        var el := engine.first(code.value, cd);
        if el.NoOutput? { return Violated(rule); }
        if !el.Boolean? { return Violated(rule); }
        if !el.value { return Violated(rule); }
      }
      assert rules[..|rules|] == rules;
      return Accepted;
    }

    method ValidateMustNot(rules: seq<Rule>, cd: Context) returns (v: Verdict)
      requires Valid()
      modifies `ruleCache
      ensures Valid() && v == Check(engine, rules, false, cd)
      ensures old(ruleCache.Keys) <= ruleCache.Keys <= old(ruleCache.Keys) + set rule | rule in rules
    {
      for i := 0 to |rules|
        invariant Valid() && Check(engine, rules[..i], false, cd) == Accepted
        invariant old(ruleCache.Keys) <= ruleCache.Keys <= old(ruleCache.Keys) + set rule | rule in rules
      {
        assert rules[..i + 1][..i] == rules[..i];
        CheckInFront(engine, rules, i + 1, false, cd);
        var rule := rules[i];
        var code := CompileRule(rule);
        if code.None? { return BadRule(rule); }
        var el := engine.first(code.value, cd);
        if el.NoOutput? { continue; }
        if !el.Boolean? { continue; }
        if el.value { return Violated(rule); }
      }
      assert rules[..|rules|] == rules;
      return Accepted;
    }

    /** The verdict is the one an empty cache would give, whatever earlier calls left in the cache. */
    method Validate(policy: Policy, contexts: Option<map<string, Data>>) returns (v: Verdict)
      requires Valid()
      modifies `ruleCache
      ensures Valid() && v == Judge(engine, policy, contexts)
      ensures old(ruleCache.Keys) <= ruleCache.Keys
      ensures ruleCache.Keys <= old(ruleCache.Keys) + (set rule | rule in policy.must) + set rule | rule in policy.mustNot
    {
      if contexts.None? { return NoContext; }
      var cd: Context := map[];
      var left := contexts.value.Keys;
      while left != {}
        invariant left <= contexts.value.Keys && cd.Keys == contexts.value.Keys - left
        invariant forall k | k in cd :: Flatten(contexts.value[k]) == Ok(cd[k])
        invariant unchanged(this)
      {
        var k :| k in left;
        var flattened := Flattened(contexts.value[k]);
        if flattened.Err? { return BadContext; }
        cd := cd[k := flattened.value];
        left := left - {k};
      }
      assert cd == FlatContext(contexts.value);
      v := ValidateMust(policy.must, cd);
      if v != Accepted { return; }
      v := ValidateMustNot(policy.mustNot, cd);
    }
  }

  lemma {:induction false} CheckInFront<Q, C>(e: Engine<Q, C>, rules: seq<Rule>, k: nat, wanted: bool, cd: Context)
    requires k <= |rules|
    ensures Check(e, rules[..k], wanted, cd) != Accepted ==> Check(e, rules, wanted, cd) == Check(e, rules[..k], wanted, cd)
  {
    if k == |rules| {
      assert rules[..k] == rules;
    } else {
      assert rules[..|rules| - 1][..k] == rules[..k];
      CheckInFront(e, rules[..|rules| - 1], k, wanted, cd);
    }
  }

  // ---------- the theorems ----------

  predicate Passes<Q, C>(e: Engine<Q, C>, rule: Rule, wanted: bool, cd: Context) {
    Usable(e, rule) && SaysTrue(e, rule, cd) == wanted
  }

  /** The i-th of these rules is the first that does not pass. */
  predicate FirstToFail<Q, C>(e: Engine<Q, C>, rules: seq<Rule>, i: int, wanted: bool, cd: Context) {
    && 0 <= i < |rules| && !Passes(e, rules[i], wanted, cd)
    && forall k :: 0 <= k < i ==> Passes(e, rules[k], wanted, cd)
  }

  predicate AllPass<Q, C>(e: Engine<Q, C>, rules: seq<Rule>, wanted: bool, cd: Context) {
    forall rule | rule in rules :: Passes(e, rule, wanted, cd)
  }

  function Complaint<Q, C>(e: Engine<Q, C>, rule: Rule): Verdict {
    if Usable(e, rule) then Violated(rule) else BadRule(rule)
  }

  /** A loop accepts exactly when all its rules pass, and otherwise complains of the first that does not. */
  lemma {:induction false} CheckIs<Q, C>(e: Engine<Q, C>, rules: seq<Rule>, wanted: bool, cd: Context) returns (i: int)
    ensures Check(e, rules, wanted, cd) == Accepted <==> AllPass(e, rules, wanted, cd)
    ensures !AllPass(e, rules, wanted, cd) ==>
      FirstToFail(e, rules, i, wanted, cd) && Check(e, rules, wanted, cd) == Complaint(e, rules[i])
  {
    if rules == [] { return 0; }
    var n := |rules| - 1;
    i := CheckIs(e, rules[..n], wanted, cd);
    assert rules == rules[..n] + [rules[n]];
    assert AllPass(e, rules, wanted, cd) <==> AllPass(e, rules[..n], wanted, cd) && Passes(e, rules[n], wanted, cd) by {
      assert rules[n] in rules;
      assert forall rule :: rule in rules <==> rule in rules[..n] || rule == rules[n];
    }
    if AllPass(e, rules[..n], wanted, cd) {
      forall k | 0 <= k < n ensures Passes(e, rules[k], wanted, cd) { assert rules[k] == rules[..n][k]; }
      i := n;
    } else {
      assert rules[i] == rules[..n][i] && rules[i] in rules;
      assert forall k :: 0 <= k < i ==> rules[..n][k] == rules[k];
    }
  }

  /** The first output of a rule that parses and compiles. */
  function FirstOutput<Q, C>(e: Engine<Q, C>, rule: Rule, cd: Context): Option<Output> {
    if e.parse(rule).None? || e.compile(e.parse(rule).value).None? then None
    else Some(e.first(e.compile(e.parse(rule).value).value, cd))
  }

  /** Accepted exactly when every context flattens, every rule parses and compiles, every must rule first says true and no
      mustNot rule first says true. */
  lemma AcceptedIff<Q, C>(e: Engine<Q, C>, policy: Policy, contexts: map<string, Data>)
    ensures Judge(e, policy, Some(contexts)) == Accepted <==>
      && AllFlat(contexts)
      && (forall rule | rule in policy.must :: FirstOutput(e, rule, FlatContext(contexts)) == Some(Boolean(true)))
      && (forall rule | rule in policy.mustNot ::
            FirstOutput(e, rule, FlatContext(contexts)).Some? && FirstOutput(e, rule, FlatContext(contexts)) != Some(Boolean(true)))
  {
    if AllFlat(contexts) {
      var cd := FlatContext(contexts);
      var i := CheckIs(e, policy.must, true, cd);
      var k := CheckIs(e, policy.mustNot, false, cd);
      forall rule ensures Passes(e, rule, true, cd) <==> FirstOutput(e, rule, cd) == Some(Boolean(true)) {}
      forall rule
        ensures Passes(e, rule, false, cd) <==> FirstOutput(e, rule, cd).Some? && FirstOutput(e, rule, cd) != Some(Boolean(true)) {}
    }
  }

  /** A complaint names the first rule that fails, looking through the must rules before the mustNot rules; a rule is called
      bad when it does not compile and violated otherwise. */
  lemma ComplaintIsFirst<Q, C>(e: Engine<Q, C>, policy: Policy, contexts: map<string, Data>) returns (i: int)
    requires AllFlat(contexts) && Judge(e, policy, Some(contexts)) != Accepted
    ensures var cd, v := FlatContext(contexts), Judge(e, policy, Some(contexts));
            if AllPass(e, policy.must, true, cd) then
              FirstToFail(e, policy.mustNot, i, false, cd) && v == Complaint(e, policy.mustNot[i])
            else
              FirstToFail(e, policy.must, i, true, cd) && v == Complaint(e, policy.must[i])
  {
    var cd := FlatContext(contexts);
    i := CheckIs(e, policy.must, true, cd);
    if AllPass(e, policy.must, true, cd) { i := CheckIs(e, policy.mustNot, false, cd); }
  }

  /** Adding rules anywhere never turns a rejected request into an accepted one. */
  lemma MoreRulesAcceptLess<Q, C>(e: Engine<Q, C>, small: Policy, large: Policy, contexts: Option<map<string, Data>>)
    requires multiset(small.must) <= multiset(large.must) && multiset(small.mustNot) <= multiset(large.mustNot)
    requires Judge(e, large, contexts) == Accepted
    ensures Judge(e, small, contexts) == Accepted
  {
    AcceptedIff(e, large, contexts.value);
    AcceptedIff(e, small, contexts.value);
    forall rule | rule in small.must ensures rule in large.must {
      assert rule in multiset(small.must);
    }
    forall rule | rule in small.mustNot ensures rule in large.mustNot {
      assert rule in multiset(small.mustNot);
    }
  }
}
