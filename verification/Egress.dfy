/**
Launch-time classification of non-model egress (`src/egress.rs`). DNS is a function of
the selector (an IP literal is a name that answers with itself); the lookups finish in any
order. Ordered sets of addresses and rule numbers are strictly ascending sequences.
*/
module Egress {
  import opened Options
  import opened Sorting

  const MAX_EGRESS_RULES: nat := 256
  const MAX_ENDPOINTS_PER_RULE: nat := 64
  const MAX_EGRESS_ENDPOINTS: nat := 4_096

  datatype Class = Auth | Telemetry | Update | Other
  datatype Selector = Selector(host: string, port: nat)
  datatype Spec = Spec(cls: Class, selector: Selector)
  type Address = nat
  type Lookup = Selector -> Option<seq<Address>>

  datatype Rule = Rule(ruleIds: seq<nat>, cls: Class, selector: Selector, addresses: seq<Address>, truncated: bool)
  datatype Classification = Classification(cls: Class, ruleIds: seq<nat>)
  datatype Resolution = Resolution(rules: seq<Rule>, endpoints: map<Address, Classification>)

  datatype Error =
    | TooManyRules
    | SelectorConflict(selector: Selector)
    | LookupFailed(selector: Selector)
    | NoAddresses(selector: Selector)
    | TimedOut
    | ModelEndpoint(address: Address)
    | ClassConflict(address: Address)
    | TooManyEndpoints

  // -------------------------------------------------- ascending sequences

  predicate Ascending(s: seq<nat>) { |s| < 2 || (s[0] < s[1] && Ascending(s[1..])) }

  lemma {:induction false} HeadIsLeast(s: seq<nat>, y: nat)
    requires Ascending(s) && s != [] && y in s[1..]
    ensures s[0] < y
  {
    if y in s[1..][1..] {
      HeadIsLeast(s[1..], y);
    } else {
      assert s[1..] == [s[1]] + s[1..][1..];
    }
  }

  lemma {:induction false} AscendingAppend(s: seq<nat>, x: nat)
    requires Ascending(s) && forall y :: y in s ==> y < x
    ensures Ascending(s + [x])
  {
    if |s| > 0 {
      assert s[0] in s && forall y :: y in s[1..] ==> y in s;
      assert (s + [x])[1..] == s[1..] + [x];
      AscendingAppend(s[1..], x);
    }
  }

  function Insert(s: seq<nat>, x: nat): (r: seq<nat>)
    requires Ascending(s)
    ensures Ascending(r) && r != [] && r[0] == (if s == [] || x < s[0] then x else s[0])
    ensures forall y :: y in r <==> y in s || y == x
    ensures |r| <= |s| + 1 && (x in s ==> r == s)
  {
    if s == [] then [x]
    else if x < s[0] then
      assert ([x] + s)[1..] == s;
      assert x !in s by { if x in s { HeadOrTail(s, x); } }
      [x] + s
    else if x == s[0] then s
    else
      assert s == [s[0]] + s[1..];
      var rest := Insert(s[1..], x);
      assert ([s[0]] + rest)[1..] == rest;
      [s[0]] + rest
  }

  lemma {:induction false} HeadOrTail(s: seq<nat>, x: nat)
    requires Ascending(s) && x in s
    ensures s[0] <= x
  {
    if x in s[1..] { HeadIsLeast(s, x); }
  }

  /** Two lists of rule numbers appended, sorted and stripped of repeats. */
  function Union(s: seq<nat>, t: seq<nat>): (r: seq<nat>)
    requires Ascending(s)
    ensures Ascending(r) && forall y :: y in r <==> y in s || y in t
    decreases |t|
  {
    if t == [] then s else Union(Insert(s, t[0]), t[1..])
  }

  lemma {:induction false} HasMember<T>(s: seq<T>)
    requires s != []
    ensures exists x :: x in s
  {
    assert s[0] in s;
  }

  lemma {:induction false} AscendingIsUnique(s: seq<nat>, t: seq<nat>)
    requires Ascending(s) && Ascending(t) && forall y :: y in s <==> y in t
    ensures s == t
  {
    if s == [] {
      if t != [] {
        HasMember(t);
        assert false;
      }
    } else {
      assert s[0] in t && t != [] && t[0] in s;
      HeadOrTail(s, t[0]);
      HeadOrTail(t, s[0]);
      forall y ensures y in s[1..] <==> y in t[1..] {
        if y in s[1..] { HeadIsLeast(s, y); assert y in t; }
        if y in t[1..] { HeadIsLeast(t, y); assert y in s; }
      }
      AscendingIsUnique(s[1..], t[1..]);
      assert s == [s[0]] + s[1..] && t == [t[0]] + t[1..];
    }
  }

  // ------------------------------------------------------------ selectors

  /** The numbers, from one, of the rules with this selector. */
  function RuleIds(specs: seq<Spec>, s: Selector): (ids: seq<nat>)
    ensures Ascending(ids)
    ensures forall id :: id in ids <==> 1 <= id <= |specs| && specs[id - 1].selector == s
  {
    if specs == [] then []
    else
      var n := |specs| - 1;
      var before := RuleIds(specs[..n], s);
      assert specs == specs[..n] + [specs[n]];
      AscendingAppend(before, n + 1);
      if specs[n].selector == s then before + [n + 1] else before
  }

  predicate Named(specs: seq<Spec>, s: Selector) { exists i :: 0 <= i < |specs| && specs[i].selector == s }

  /** One selector, one class. */
  predicate OneClass(specs: seq<Spec>) {
    forall i, j :: 0 <= i < |specs| && 0 <= j < |specs| && specs[i].selector == specs[j].selector ==>
      specs[i].cls == specs[j].cls
  }

  datatype Group = Group(cls: Class, ruleIds: seq<nat>)

  ghost predicate Groups(specs: seq<Spec>, selectors: map<Selector, Group>) {
    && (forall s :: s in selectors <==> Named(specs, s))
    && (forall s :: s in selectors ==> selectors[s].ruleIds == RuleIds(specs, s))
    && (forall i :: 0 <= i < |specs| ==> specs[i].selector in selectors && selectors[specs[i].selector].cls == specs[i].cls)
  }

  function Grown(selectors: map<Selector, Group>, spec: Spec, ruleId: nat): map<Selector, Group> {
    selectors[spec.selector :=
      if spec.selector in selectors then selectors[spec.selector].(ruleIds := selectors[spec.selector].ruleIds + [ruleId])
      else Group(spec.cls, [ruleId])]
  }

  lemma {:induction false} GroupsGrow(specs: seq<Spec>, selectors: map<Selector, Group>, spec: Spec)
    requires Groups(specs, selectors)
    requires spec.selector in selectors ==> selectors[spec.selector].cls == spec.cls
    ensures Groups(specs + [spec], Grown(selectors, spec, |specs| + 1))
  {
    var more, grown := specs + [spec], Grown(selectors, spec, |specs| + 1);
    assert more[..|specs|] == specs;
    forall s ensures s in grown <==> Named(more, s) {
      NamedGrows(specs, spec, s);
    }
    forall s | s in grown ensures grown[s].ruleIds == RuleIds(more, s) {
      if s !in selectors { assert RuleIds(specs, s) == [] by { NoRuleIds(specs, s); } }
    }
    forall i | 0 <= i < |more| ensures more[i].selector in grown && grown[more[i].selector].cls == more[i].cls {
      if i < |specs| { assert more[i] == specs[i]; }
    }
  }

  lemma {:induction false} NamedGrows(specs: seq<Spec>, spec: Spec, s: Selector)
    ensures Named(specs + [spec], s) <==> Named(specs, s) || spec.selector == s
  {
    var more := specs + [spec];
    if Named(specs, s) {
      var i :| 0 <= i < |specs| && specs[i].selector == s;
      assert more[i].selector == s;
    }
    assert more[|specs|] == spec;
  }

  lemma {:induction false} NoRuleIds(specs: seq<Spec>, s: Selector)
    requires !Named(specs, s)
    ensures RuleIds(specs, s) == []
  {
    if specs != [] {
      var n := |specs| - 1;
      assert specs[n].selector != s;
      assert forall i :: 0 <= i < n ==> specs[..n][i] == specs[i];
      NoRuleIds(specs[..n], s);
    }
  }

  /** An earlier rule has the selector with another class. */
  predicate Conflicts(seen: seq<Spec>, spec: Spec) {
    exists k :: 0 <= k < |seen| && seen[k].selector == spec.selector && seen[k].cls != spec.cls
  }

  lemma {:induction false} ConflictIsTwoClasses(specs: seq<Spec>, seen: seq<Spec>)
    requires seen < specs && Conflicts(seen, specs[|seen|])
    ensures !OneClass(specs)
  {
    var k :| 0 <= k < |seen| && seen[k].selector == specs[|seen|].selector && seen[k].cls != specs[|seen|].cls;
    assert specs[k] == seen[k];
  }

  method AddSpec(selectors: map<Selector, Group>, spec: Spec, ruleId: nat, ghost seen: seq<Spec>)
    returns (result: Result<map<Selector, Group>, Error>)
    requires Groups(seen, selectors) && ruleId == |seen| + 1
    ensures result.Ok? ==> Groups(seen + [spec], result.value)
    ensures result.Err? <==> Conflicts(seen, spec)
  {
    if spec.selector !in selectors {
      GroupsGrow(seen, selectors, spec);
      return Ok(selectors[spec.selector := Group(spec.cls, [ruleId])]);
    }
    var group := selectors[spec.selector];
    if group.cls != spec.cls {
      ghost var k :| 0 <= k < |seen| && seen[k].selector == spec.selector;
      return Err(SelectorConflict(spec.selector));
    }
    GroupsGrow(seen, selectors, spec);
    return Ok(selectors[spec.selector := Group(group.cls, group.ruleIds + [ruleId])]);
  }

  lemma {:induction false} GroupsAreOneClass(specs: seq<Spec>, selectors: map<Selector, Group>)
    requires Groups(specs, selectors)
    ensures OneClass(specs)
  {
  }

  method GroupSelectors(specs: seq<Spec>) returns (result: Result<map<Selector, Group>, Error>)
    ensures result.Ok? <==> OneClass(specs)
    ensures result.Ok? ==> Groups(specs, result.value)
  {
    result := Ok(map[]);
    ghost var seen: seq<Spec> := [];
    for i := 0 to |specs|
      invariant seen <= specs && |seen| == i && result.Ok? && Groups(seen, result.value)
    {
      result := AddSpec(result.value, specs[i], i + 1, seen);
      if result.Err? {
        ConflictIsTwoClasses(specs, seen);
        return;
      }
      seen := seen + [specs[i]];
    }
    assert seen == specs;
    GroupsAreOneClass(seen, result.value);
  }

  // -------------------------------------------------------------- lookups

  /** The distinct addresses kept of an answer: at most the limit, first come first kept. */
  function Kept(answer: seq<Address>): (kept: seq<Address>)
    ensures Ascending(kept)
  {
    if answer == [] then []
    else
      var before, a := Kept(answer[..|answer| - 1]), answer[|answer| - 1];
      if |before| >= MAX_ENDPOINTS_PER_RULE && a !in before then before else Insert(before, a)
  }

  predicate Truncated(answer: seq<Address>) { exists a :: a in answer && a !in Kept(answer) }

  lemma {:induction false} KeptGrows(answer: seq<Address>, a: Address)
    ensures Kept(answer + [a]) ==
      if |Kept(answer)| >= MAX_ENDPOINTS_PER_RULE && a !in Kept(answer) then Kept(answer) else Insert(Kept(answer), a)
  {
    assert (answer + [a])[..|answer|] == answer;
  }

  /** What is kept comes from the answer; it is all of it unless the limit was reached. */
  lemma {:induction false} KeptIsAnswered(answer: seq<Address>)
    ensures |Kept(answer)| <= MAX_ENDPOINTS_PER_RULE
    ensures forall a :: a in Kept(answer) ==> a in answer
    ensures Truncated(answer) ==> |Kept(answer)| == MAX_ENDPOINTS_PER_RULE
    ensures answer != [] ==> Kept(answer) != []
  {
    if answer != [] {
      var before, a := answer[..|answer| - 1], answer[|answer| - 1];
      assert answer == before + [a];
      KeptIsAnswered(before);
      TruncatedGrows(before, a);
      KeptGrows(before, a);
    }
  }

  lemma {:induction false} TruncatedGrows(answer: seq<Address>, a: Address)
    requires Truncated(answer) ==> |Kept(answer)| == MAX_ENDPOINTS_PER_RULE
    ensures Truncated(answer + [a]) <==>
      Truncated(answer) || (|Kept(answer)| >= MAX_ENDPOINTS_PER_RULE && a !in Kept(answer))
  {
    KeptGrows(answer, a);
    var more := answer + [a];
    if Truncated(answer) {
      var b :| b in answer && b !in Kept(answer);
      assert b in more && b !in Kept(more);
    } else if |Kept(answer)| >= MAX_ENDPOINTS_PER_RULE && a !in Kept(answer) {
      assert a in more;
    } else {
      assert forall b :: b in more ==> b in answer || b == a;
    }
  }

  predicate Answers(lookup: Lookup, s: Selector) { lookup(s).Some? && lookup(s).value != [] }

  /** The rule a selector resolves to. */
  function RuleFor(specs: seq<Spec>, lookup: Lookup, cls: Class, s: Selector): Rule
    requires Answers(lookup, s)
  {
    Rule(RuleIds(specs, s), cls, s, Kept(lookup(s).value), Truncated(lookup(s).value))
  }

  method ResolveOne(lookup: Lookup, s: Selector, group: Group) returns (result: Result<Rule, Error>)
    ensures result.Ok? <==> Answers(lookup, s)
    ensures result.Ok? ==>
      result.value == Rule(group.ruleIds, group.cls, s, Kept(lookup(s).value), Truncated(lookup(s).value))
  {
    var resolved := lookup(s);
    if resolved.None? {
      return Err(LookupFailed(s));
    }
    var answer := resolved.value;
    var unique: seq<Address>, truncated := [], false;
    ghost var seen: seq<Address> := [];
    for i := 0 to |answer|
      invariant seen == answer[..i] && unique == Kept(seen) && truncated == Truncated(seen)
    {
      KeptIsAnswered(seen);
      KeptGrows(seen, answer[i]);
      TruncatedGrows(seen, answer[i]);
      if |unique| >= MAX_ENDPOINTS_PER_RULE && answer[i] !in unique {
        truncated := true;
      } else {
        unique := Insert(unique, answer[i]);
      }
      seen := seen + [answer[i]];
    }
    assert seen == answer;
    KeptIsAnswered(answer);
    if unique == [] {
      return Err(NoAddresses(s));
    }
    return Ok(Rule(group.ruleIds, group.cls, s, unique, truncated));
  }

  predicate AllAnswer(specs: seq<Spec>, lookup: Lookup) {
    forall i :: 0 <= i < |specs| ==> Answers(lookup, specs[i].selector)
  }

  predicate IsRule(specs: seq<Spec>, lookup: Lookup, r: Rule) {
    && Named(specs, r.selector) && Answers(lookup, r.selector)
    && (forall i :: 0 <= i < |specs| && specs[i].selector == r.selector ==> r.cls == specs[i].cls)
    && r == RuleFor(specs, lookup, r.cls, r.selector)
  }

  lemma {:induction false} RuleIsItsSelectors(specs: seq<Spec>, lookup: Lookup, r: Rule, q: Rule)
    requires IsRule(specs, lookup, r) && IsRule(specs, lookup, q) && r.selector == q.selector
    ensures r == q
  {
    var i :| 0 <= i < |specs| && specs[i].selector == r.selector;
  }

  function FirstId(r: Rule): nat {
    if r.ruleIds == [] then 0xffff_ffff else r.ruleIds[0]
  }

  predicate InOrder(rules: seq<Rule>) {
    forall i, j :: 0 <= i < j < |rules| ==> FirstId(rules[i]) < FirstId(rules[j])
  }

  predicate HasRule(rules: seq<Rule>, s: Selector) { exists k :: 0 <= k < |rules| && rules[k].selector == s }

  /** The rules of a resolution: one for each selector, by first rule number. */
  ghost predicate AreTheRules(specs: seq<Spec>, lookup: Lookup, rules: seq<Rule>) {
    && InOrder(rules)
    && (forall r :: r in rules ==> IsRule(specs, lookup, r))
    && (forall i :: 0 <= i < |specs| ==> HasRule(rules, specs[i].selector))
  }

  lemma {:induction false} InOrderIsUnique(a: seq<Rule>, b: seq<Rule>)
    requires InOrder(a) && InOrder(b) && forall r :: r in a <==> r in b
    ensures a == b
  {
    if a == [] {
      if b != [] {
        HasMember(b);
        assert false;
      }
    } else {
      assert a[0] in b && b != [] && b[0] in a;
      assert a[0] == b[0];
      forall r ensures r in a[1..] <==> r in b[1..] {
        if r in a[1..] { assert r in a && FirstId(r) != FirstId(a[0]); }
        if r in b[1..] { assert r in b && FirstId(r) != FirstId(b[0]); }
      }
      InOrderIsUnique(a[1..], b[1..]);
      assert a == [a[0]] + a[1..] && b == [b[0]] + b[1..];
    }
  }

  lemma {:induction false} TheRulesAreUnique(specs: seq<Spec>, lookup: Lookup, a: seq<Rule>, b: seq<Rule>)
    requires AreTheRules(specs, lookup, a) && AreTheRules(specs, lookup, b)
    ensures a == b
  {
    forall r ensures r in a <==> r in b {
      if r in a { RuleIsAmong(specs, lookup, r, b); }
      if r in b { RuleIsAmong(specs, lookup, r, a); }
    }
    InOrderIsUnique(a, b);
  }

  lemma {:induction false} RuleIsAmong(specs: seq<Spec>, lookup: Lookup, r: Rule, rules: seq<Rule>)
    requires AreTheRules(specs, lookup, rules) && IsRule(specs, lookup, r)
    ensures r in rules
  {
    var i :| 0 <= i < |specs| && specs[i].selector == r.selector;
    var k :| 0 <= k < |rules| && rules[k].selector == specs[i].selector;
    assert rules[k] in rules;
    RuleIsItsSelectors(specs, lookup, r, rules[k]);
  }

  // ---------------------------------------------------- collecting, sorting

  function RuleRank(r: Rule): Rank { Rank(FirstId(r), 0) }

  /** Collects the lookups in whatever order they finish; the first failure ends it. */
  method CollectResolutions(specs: seq<Spec>, lookup: Lookup, selectors: map<Selector, Group>)
    returns (result: Result<seq<Rule>, Error>)
    requires Groups(specs, selectors)
    ensures result.Ok? <==> AllAnswer(specs, lookup)
    ensures result.Ok? ==> Collected(specs, lookup, selectors.Keys, result.value)
  {
    var pending, rules := selectors.Keys, [];
    while pending != {}
      invariant pending <= selectors.Keys && Collected(specs, lookup, selectors.Keys - pending, rules)
    {
      var s :| s in pending;
      var rule := ResolveOne(lookup, s, selectors[s]);
      if rule.Err? {
        var i :| 0 <= i < |specs| && specs[i].selector == s;
        return Err(rule.error);
      }
      CollectedGrows(specs, lookup, selectors.Keys - pending, rules, rule.value);
      assert selectors.Keys - (pending - {s}) == selectors.Keys - pending + {s};
      pending, rules := pending - {s}, rules + [rule.value];
    }
    assert selectors.Keys - pending == selectors.Keys;
    AllHaveAnswered(specs, lookup, selectors, rules);
    return Ok(rules);
  }

  /** One rule for each of `done`, in any order. */
  ghost predicate Collected(specs: seq<Spec>, lookup: Lookup, done: set<Selector>, rules: seq<Rule>) {
    && (forall r :: r in rules ==> IsRule(specs, lookup, r))
    && (forall s :: s in done <==> HasRule(rules, s))
    && (forall i, j :: 0 <= i < j < |rules| ==> rules[i].selector != rules[j].selector)
  }

  lemma {:induction false} CollectedGrows(specs: seq<Spec>, lookup: Lookup, done: set<Selector>, rules: seq<Rule>, r: Rule)
    requires Collected(specs, lookup, done, rules) && IsRule(specs, lookup, r) && r.selector !in done
    ensures Collected(specs, lookup, done + {r.selector}, rules + [r])
  {
    var more := rules + [r];
    forall s ensures s in done + {r.selector} <==> HasRule(more, s) {
      if s in done { var k :| 0 <= k < |rules| && rules[k].selector == s; assert more[k].selector == s; }
      if s == r.selector { assert more[|rules|].selector == s; }
      if HasRule(more, s) {
        var k :| 0 <= k < |more| && more[k].selector == s;
        if k < |rules| { assert rules[k].selector == s; }
      }
    }
  }

  lemma {:induction false} AllHaveAnswered(
    specs: seq<Spec>, lookup: Lookup, selectors: map<Selector, Group>, rules: seq<Rule>)
    requires Groups(specs, selectors) && Collected(specs, lookup, selectors.Keys, rules)
    ensures AllAnswer(specs, lookup)
  {
    forall i | 0 <= i < |specs| ensures Answers(lookup, specs[i].selector) {
      assert specs[i].selector in selectors.Keys;
      var k :| 0 <= k < |rules| && rules[k].selector == specs[i].selector;
      assert rules[k] in rules;
    }
  }

  /** Sorting what was collected gives the rules of the resolution, whatever the order. */
  lemma {:induction false} SortedAreTheRules(
    specs: seq<Spec>, lookup: Lookup, selectors: map<Selector, Group>, rules: seq<Rule>, sorted: seq<Rule>)
    requires Groups(specs, selectors) && Collected(specs, lookup, selectors.Keys, rules)
    requires Sorted(sorted, RuleRank) && multiset(sorted) == multiset(rules)
    ensures AreTheRules(specs, lookup, sorted)
  {
    SameMembers(sorted, rules);
    StayDistinct(rules, sorted);
    forall i, j | 0 <= i < j < |sorted| ensures FirstId(sorted[i]) < FirstId(sorted[j]) {
      assert AtMost(RuleRank(sorted[i]), RuleRank(sorted[j]));
      DistinctFirstIds(specs, lookup, sorted[i], sorted[j]);
    }
    forall i | 0 <= i < |specs| ensures HasRule(sorted, specs[i].selector) {
      assert specs[i].selector in selectors.Keys;
      SortedKeeps(rules, sorted, specs[i].selector);
    }
  }

  lemma {:induction false} SortedKeeps(rules: seq<Rule>, sorted: seq<Rule>, s: Selector)
    requires HasRule(rules, s) && forall r :: r in sorted <==> r in rules
    ensures HasRule(sorted, s)
  {
    var k :| 0 <= k < |rules| && rules[k].selector == s;
    assert rules[k] in sorted;
    var m :| 0 <= m < |sorted| && sorted[m] == rules[k];
  }

  lemma {:induction false} DistinctFirstIds(specs: seq<Spec>, lookup: Lookup, r: Rule, q: Rule)
    requires IsRule(specs, lookup, r) && IsRule(specs, lookup, q) && r != q
    ensures FirstId(r) != FirstId(q)
  {
    FirstIdNamesSelector(specs, lookup, r);
    FirstIdNamesSelector(specs, lookup, q);
    if r.selector == q.selector {
      RuleIsItsSelectors(specs, lookup, r, q);
      assert false;
    }
  }

  lemma {:induction false} FirstIdNamesSelector(specs: seq<Spec>, lookup: Lookup, r: Rule)
    requires IsRule(specs, lookup, r)
    ensures r.ruleIds != [] && 1 <= FirstId(r) <= |specs| && specs[FirstId(r) - 1].selector == r.selector
  {
    var i :| 0 <= i < |specs| && specs[i].selector == r.selector;
    assert i + 1 in r.ruleIds;
    assert r.ruleIds[0] in r.ruleIds;
  }

  // ------------------------------------------------------- classification

  datatype Claim = Claim(cls: Class, ruleIds: seq<nat>, address: Address)

  function ClaimsOf(r: Rule): seq<Claim> {
    seq(|r.addresses|, i requires 0 <= i < |r.addresses| => Claim(r.cls, r.ruleIds, r.addresses[i]))
  }

  /** Every address of every rule, in the order they are merged. */
  function Claims(rules: seq<Rule>): seq<Claim> {
    if rules == [] then [] else Claims(rules[..|rules| - 1]) + ClaimsOf(rules[|rules| - 1])
  }

  function Added(endpoints: map<Address, Classification>, c: Claim): (more: map<Address, Classification>)
    requires forall a :: a in endpoints ==> Ascending(endpoints[a].ruleIds)
    requires Ascending(c.ruleIds)
    ensures more.Keys == endpoints.Keys + {c.address}
    ensures forall a :: a in more ==> Ascending(more[a].ruleIds)
  {
    endpoints[c.address := Classification(
      c.cls, if c.address in endpoints then Union(endpoints[c.address].ruleIds, c.ruleIds) else c.ruleIds)]
  }

  function Classify(endpoints: map<Address, Classification>, c: Claim, model: set<Address>)
    : Result<map<Address, Classification>, Error>
    requires forall a :: a in endpoints ==> Ascending(endpoints[a].ruleIds)
    requires Ascending(c.ruleIds)
  {
    if c.address in model then Err(ModelEndpoint(c.address))
    else if c.address in endpoints && endpoints[c.address].cls != c.cls then Err(ClassConflict(c.address))
    else if |Added(endpoints, c)| > MAX_EGRESS_ENDPOINTS then Err(TooManyEndpoints)
    else Ok(Added(endpoints, c))
  }

  predicate AscendingClaims(claims: seq<Claim>) { forall c :: c in claims ==> Ascending(c.ruleIds) }

  /** The endpoint map that merging the claims in order gives, or the first error. */
  function Classified(claims: seq<Claim>, model: set<Address>): (r: Result<map<Address, Classification>, Error>)
    requires AscendingClaims(claims)
    ensures r.Ok? ==> forall a :: a in r.value ==> Ascending(r.value[a].ruleIds)
  {
    if claims == [] then Ok(map[])
    else
      var n := |claims| - 1;
      var before := Classified(claims[..n], model);
      if before.Err? then before else Classify(before.value, claims[n], model)
  }

  lemma {:induction false} ClassifiedGrows(claims: seq<Claim>, c: Claim, model: set<Address>)
    requires AscendingClaims(claims) && Ascending(c.ruleIds)
    ensures AscendingClaims(claims + [c])
    ensures var before := Classified(claims, model);
      Classified(claims + [c], model) == if before.Err? then before else Classify(before.value, c, model)
  {
    assert (claims + [c])[..|claims|] == claims;
  }

  lemma {:induction false} ErrorsStay(claims: seq<Claim>, more: seq<Claim>, model: set<Address>)
    requires AscendingClaims(claims + more) && AscendingClaims(claims) && Classified(claims, model).Err?
    ensures Classified(claims + more, model) == Classified(claims, model)
  {
    if more == [] {
      assert claims + more == claims;
    } else {
      var n := |more| - 1;
      assert claims + more == claims + more[..n] + [more[n]];
      assert AscendingClaims(claims + more[..n]) by {
        forall c | c in claims + more[..n] ensures c in claims + more {}
      }
      assert more[n] in claims + more;
      ErrorsStay(claims, more[..n], model);
      ClassifiedGrows(claims + more[..n], more[n], model);
    }
  }

  /** Nothing reached is a model endpoint, nothing has two classes, and there is room for all. */
  predicate Compatible(claims: seq<Claim>, model: set<Address>) {
    Reached(claims) !! model && OneClassEach(claims) && |Reached(claims)| <= MAX_EGRESS_ENDPOINTS
  }

  predicate OneClassEach(claims: seq<Claim>) {
    forall c, d :: c in claims && d in claims && c.address == d.address ==> c.cls == d.cls
  }

  function Reached(claims: seq<Claim>): set<Address> { set c | c in claims :: c.address }

  /** The map that the claims describe: for each address its class and all its rule numbers, ascending. */
  ghost predicate Describes(claims: seq<Claim>, endpoints: map<Address, Classification>) {
    && endpoints.Keys == Reached(claims)
    && (forall c :: c in claims ==> c.address in endpoints && endpoints[c.address].cls == c.cls)
    && (forall a :: a in endpoints ==> Ascending(endpoints[a].ruleIds))
    && (forall a, id :: a in endpoints ==> (id in endpoints[a].ruleIds <==> Claimed(claims, a, id)))
  }

  predicate Claimed(claims: seq<Claim>, a: Address, id: nat) {
    exists c :: c in claims && c.address == a && id in c.ruleIds
  }

  lemma {:induction false} ClaimedGrows(claims: seq<Claim>, c: Claim, a: Address, id: nat)
    ensures Claimed(claims + [c], a, id) <==> Claimed(claims, a, id) || (c.address == a && id in c.ruleIds)
  {
    assert forall d :: d in claims + [c] <==> d in claims || d == c;
  }

  lemma {:induction false} DescribesGrows(claims: seq<Claim>, m: map<Address, Classification>, c: Claim)
    requires Describes(claims, m) && Ascending(c.ruleIds) && (c.address in m ==> m[c.address].cls == c.cls)
    ensures Describes(claims + [c], Added(m, c))
  {
    var more, n := claims + [c], Added(m, c);
    ReachedGrows(claims, c);
    forall a, id | a in n ensures id in n[a].ruleIds <==> Claimed(more, a, id) {
      ClaimedGrows(claims, c, a, id);
    }
  }

  lemma {:induction false} ReachedGrows(claims: seq<Claim>, c: Claim)
    ensures Reached(claims + [c]) == Reached(claims) + {c.address}
    ensures forall d :: d in claims + [c] <==> d in claims || d == c
  {
  }

  lemma {:induction false} FewerAreCompatible(claims: seq<Claim>, c: Claim, model: set<Address>)
    requires Compatible(claims + [c], model)
    ensures Compatible(claims, model)
  {
    ReachedGrows(claims, c);
    var rest := {c.address} - Reached(claims);
    assert Reached(claims + [c]) == Reached(claims) + rest;
  }

  lemma {:induction false} OneClassGrows(claims: seq<Claim>, m: map<Address, Classification>, c: Claim)
    requires Describes(claims, m) && OneClassEach(claims)
    ensures OneClassEach(claims + [c]) <==> (c.address in m ==> m[c.address].cls == c.cls)
  {
    ReachedGrows(claims, c);
    if c.address in m {
      var d :| d in claims && d.address == c.address;
      assert m[c.address].cls == d.cls && d in claims + [c] && c in claims + [c];
    }
  }

  lemma {:induction false} StillCompatible(claims: seq<Claim>, m: map<Address, Classification>, c: Claim, model: set<Address>)
    requires Describes(claims, m) && Ascending(c.ruleIds) && Compatible(claims, model)
    ensures Classify(m, c, model).Ok? <==> Compatible(claims + [c], model)
  {
    OneClassGrows(claims, m, c);
    ReachedGrows(claims, c);
    assert Added(m, c).Keys == Reached(claims + [c]);
    assert |Added(m, c)| == |Added(m, c).Keys|;
  }

  ghost predicate Exact(claims: seq<Claim>, model: set<Address>)
    requires AscendingClaims(claims)
  {
    && (Classified(claims, model).Ok? <==> Compatible(claims, model))
    && (Classified(claims, model).Ok? ==> Describes(claims, Classified(claims, model).value))
  }

  lemma {:induction false} ExactStep(claims: seq<Claim>, c: Claim, model: set<Address>)
    requires AscendingClaims(claims) && Ascending(c.ruleIds) && Exact(claims, model)
    ensures AscendingClaims(claims + [c]) && Exact(claims + [c], model)
  {
    ClassifiedGrows(claims, c, model);
    var m := Classified(claims, model);
    if m.Ok? {
      StillCompatible(claims, m.value, c, model);
      if Classify(m.value, c, model).Ok? {
        DescribesGrows(claims, m.value, c);
      }
    } else if Compatible(claims + [c], model) {
      FewerAreCompatible(claims, c, model);
      assert false;
    }
  }

  /** Merging claims succeeds exactly when they are compatible, and then gives the map they describe. */
  lemma {:induction false} ClassifiesExactly(claims: seq<Claim>, model: set<Address>)
    requires AscendingClaims(claims)
    ensures Classified(claims, model).Ok? <==> Compatible(claims, model)
    ensures Classified(claims, model).Ok? ==> Describes(claims, Classified(claims, model).value)
  {
    if claims == [] {
      assert Reached(claims) == {};
    } else {
      var before, c := claims[..|claims| - 1], claims[|claims| - 1];
      assert claims == before + [c] && c in claims;
      ReachedGrows(before, c);
      ClassifiesExactly(before, model);
      ExactStep(before, c, model);
    }
  }

  predicate AscendingRules(rules: seq<Rule>) { forall r :: r in rules ==> Ascending(r.ruleIds) }

  lemma {:induction false} ClaimsGrow(rules: seq<Rule>, k: nat)
    requires k < |rules|
    ensures Claims(rules[..k + 1]) == Claims(rules[..k]) + ClaimsOf(rules[k])
  {
    assert rules[..k + 1][..k] == rules[..k];
  }

  lemma {:induction false} ClaimsAscend(rules: seq<Rule>)
    requires AscendingRules(rules)
    ensures AscendingClaims(Claims(rules))
  {
    if rules != [] {
      var n := |rules| - 1;
      assert forall r :: r in rules[..n] ==> r in rules;
      ClaimsAscend(rules[..n]);
      assert rules[n] in rules;
    }
  }

  lemma {:induction false} ClaimsPrefix(rules: seq<Rule>, k: nat)
    requires k <= |rules|
    ensures Claims(rules[..k]) <= Claims(rules)
  {
    if k == |rules| {
      assert rules[..k] == rules;
    } else {
      var n := |rules| - 1;
      ClaimsPrefix(rules[..n], k);
      assert rules[..n][..k] == rules[..k];
    }
  }

  lemma {:induction false} PrefixErrorStays(prefix: seq<Claim>, claims: seq<Claim>, model: set<Address>)
    requires prefix <= claims && AscendingClaims(claims)
    ensures AscendingClaims(prefix)
    ensures Classified(prefix, model).Err? ==> Classified(claims, model) == Classified(prefix, model)
  {
    var rest := claims[|prefix|..];
    assert claims == prefix + rest;
    assert forall c :: c in prefix ==> c in claims;
    if Classified(prefix, model).Err? {
      ErrorsStay(prefix, rest, model);
    }
  }

  lemma {:induction false} NextClaim(rule: Rule, done: seq<Claim>, whole: seq<Claim>, j: nat)
    requires done <= whole && whole[|done|..] == ClaimsOf(rule) && j < |rule.addresses|
    ensures |done| + j < |whole| && whole[|done| + j] == Claim(rule.cls, rule.ruleIds, rule.addresses[j])
  {
    assert whole[|done|..][j] == whole[|done| + j];
  }

  lemma {:induction false} OneMoreClaim(
    prefix: seq<Claim>, whole: seq<Claim>, endpoints: map<Address, Classification>, model: set<Address>)
    requires AscendingClaims(whole) && prefix < whole && AscendingClaims(prefix) && Classified(prefix, model) == Ok(endpoints)
    ensures var c := whole[|prefix|];
      && Ascending(c.ruleIds) && prefix + [c] <= whole && AscendingClaims(prefix + [c])
      && Classified(prefix + [c], model) == Classify(endpoints, c, model)
  {
    var c := whole[|prefix|];
    assert c in whole;
    ClassifiedGrows(prefix, c, model);
  }

  method ClassifyRule(
    before: map<Address, Classification>, rule: Rule, model: set<Address>, ghost done: seq<Claim>, ghost whole: seq<Claim>)
    returns (result: Result<map<Address, Classification>, Error>)
    requires AscendingClaims(whole) && done <= whole && whole[|done|..] == ClaimsOf(rule) && Ascending(rule.ruleIds)
    requires AscendingClaims(done) && Classified(done, model) == Ok(before)
    ensures result == Classified(whole, model)
  {
    var endpoints := before;
    ghost var prefix := done;
    for j := 0 to |rule.addresses|
      invariant |prefix| == |done| + j && prefix <= whole
      invariant AscendingClaims(prefix) && Classified(prefix, model) == Ok(endpoints)
    {
      var c := Claim(rule.cls, rule.ruleIds, rule.addresses[j]);
      NextClaim(rule, done, whole, j);
      OneMoreClaim(prefix, whole, endpoints, model);
      prefix := prefix + [c];
      result := Classify(endpoints, c, model);
      if result.Err? {
        PrefixErrorStays(prefix, whole, model);
        return;
      }
      endpoints := result.value;
    }
    assert prefix == whole;
    return Ok(endpoints);
  }

  method ClassifyEndpoints(rules: seq<Rule>, model: set<Address>)
    returns (result: Result<map<Address, Classification>, Error>)
    requires AscendingRules(rules)
    ensures AscendingClaims(Claims(rules)) && result == Classified(Claims(rules), model)
  {
    ClaimsAscend(rules);
    var endpoints: map<Address, Classification> := map[];
    for k := 0 to |rules|
      invariant AscendingClaims(Claims(rules[..k])) && Classified(Claims(rules[..k]), model) == Ok(endpoints)
    {
      ClaimsGrow(rules, k);
      ClaimsPrefix(rules, k + 1);
      PrefixErrorStays(Claims(rules[..k + 1]), Claims(rules), model);
      assert rules[k] in rules;
      result := ClassifyRule(endpoints, rules[k], model, Claims(rules[..k]), Claims(rules[..k + 1]));
      if result.Err? {
        return;
      }
      endpoints := result.value;
    }
    assert rules[..|rules|] == rules;
    return Ok(endpoints);
  }

  // ----------------------------------------------------------- resolution

  /** What a resolution comes to once every lookup has answered in time. */
  ghost predicate Outcome(specs: seq<Spec>, lookup: Lookup, model: set<Address>, result: Result<Resolution, Error>) {
    exists rules :: AreTheRules(specs, lookup, rules) && Concludes(rules, model, result)
  }

  predicate Concludes(rules: seq<Rule>, model: set<Address>, result: Result<Resolution, Error>) {
    && AscendingClaims(Claims(rules))
    && var endpoints := Classified(Claims(rules), model);
       result == if endpoints.Ok? then Ok(Resolution(rules, endpoints.value)) else Err(endpoints.error)
  }

  method Resolve(specs: seq<Spec>, lookup: Lookup, model: seq<Address>, timedOut: bool)
    returns (result: Result<Resolution, Error>)
    ensures |specs| > MAX_EGRESS_RULES || !OneClass(specs) ==> result.Err?
    ensures |specs| <= MAX_EGRESS_RULES && OneClass(specs) && specs != [] && (timedOut || !AllAnswer(specs, lookup)) ==>
      result.Err?
    ensures |specs| <= MAX_EGRESS_RULES && OneClass(specs) && (specs == [] || !timedOut) && AllAnswer(specs, lookup) ==>
      Outcome(specs, lookup, (set a | a in model), result)
  {
    if |specs| > MAX_EGRESS_RULES {
      return Err(TooManyRules);
    }
    ghost var reserved := set a | a in model;
    if specs == [] {
      assert AreTheRules(specs, lookup, []) && AscendingClaims(Claims([]));
      assert Concludes([], reserved, Ok(Resolution([], map[])));
      return Ok(Resolution([], map[]));
    }
    var selectors := GroupSelectors(specs);
    if selectors.Err? {
      return Err(selectors.error);
    }
    var collected := CollectResolutions(specs, lookup, selectors.value);
    if timedOut {
      return Err(TimedOut);
    }
    if collected.Err? {
      return Err(collected.error);
    }
    var rules := Sort(collected.value, RuleRank);
    SortedAreTheRules(specs, lookup, selectors.value, collected.value, rules);
    assert AscendingRules(rules);
    var endpoints := ClassifyEndpoints(rules, (set a | a in model));
    result := if endpoints.Ok? then Ok(Resolution(rules, endpoints.value)) else Err(endpoints.error);
    assert Concludes(rules, reserved, result);
  }

  /** One outcome for every order in which the lookups finish. */
  lemma {:induction false} OrderDoesNotMatter(
    specs: seq<Spec>, lookup: Lookup, model: set<Address>, a: Result<Resolution, Error>, b: Result<Resolution, Error>)
    requires Outcome(specs, lookup, model, a) && Outcome(specs, lookup, model, b)
    ensures a == b
  {
    var rules :| AreTheRules(specs, lookup, rules) && Concludes(rules, model, a);
    var others :| AreTheRules(specs, lookup, others) && Concludes(others, model, b);
    TheRulesAreUnique(specs, lookup, rules, others);
  }

  /** Each rule number is in exactly one resolved rule, the one of its selector. */
  lemma {:induction false} EachNumberOnce(specs: seq<Spec>, lookup: Lookup, rules: seq<Rule>, id: nat)
    requires AreTheRules(specs, lookup, rules) && 1 <= id <= |specs|
    ensures exists k :: 0 <= k < |rules| && id in rules[k].ruleIds
    ensures forall k, m :: 0 <= k < |rules| && 0 <= m < |rules| && id in rules[k].ruleIds && id in rules[m].ruleIds ==> k == m
  {
    assert HasRule(rules, specs[id - 1].selector);
    var k :| 0 <= k < |rules| && rules[k].selector == specs[id - 1].selector;
    assert rules[k] in rules && id in rules[k].ruleIds;
    forall k, m | 0 <= k < |rules| && 0 <= m < |rules| && id in rules[k].ruleIds && id in rules[m].ruleIds ensures k == m {
      assert rules[k] in rules && rules[m] in rules;
      RuleIsItsSelectors(specs, lookup, rules[k], rules[m]);
    }
  }

  // ------------------------------------------- the resolution, rule by rule

  /** The addresses that rule number `id` reaches. */
  function AddressesOf(specs: seq<Spec>, lookup: Lookup, id: nat): seq<Address>
    requires 1 <= id <= |specs| && AllAnswer(specs, lookup)
  {
    Kept(lookup(specs[id - 1].selector).value)
  }

  predicate Reaches(specs: seq<Spec>, lookup: Lookup, id: nat, a: Address)
    requires AllAnswer(specs, lookup)
  {
    1 <= id <= |specs| && a in AddressesOf(specs, lookup, id)
  }

  predicate ClaimOf(r: Rule, c: Claim) { c.cls == r.cls && c.ruleIds == r.ruleIds && c.address in r.addresses }

  lemma {:induction false} ClaimsOfRule(r: Rule, c: Claim)
    ensures c in ClaimsOf(r) <==> ClaimOf(r, c)
  {
    if c in ClaimsOf(r) {
      var j :| 0 <= j < |ClaimsOf(r)| && ClaimsOf(r)[j] == c;
      assert r.addresses[j] in r.addresses;
    }
    if ClaimOf(r, c) {
      var j :| 0 <= j < |r.addresses| && r.addresses[j] == c.address;
      assert ClaimsOf(r)[j] == c;
    }
  }

  lemma {:induction false} ClaimsCome(rules: seq<Rule>, c: Claim)
    ensures c in Claims(rules) <==> exists r :: r in rules && ClaimOf(r, c)
  {
    if rules != [] {
      var n := |rules| - 1;
      ClaimsCome(rules[..n], c);
      ClaimsOfRule(rules[n], c);
      assert forall r :: r in rules <==> r in rules[..n] || r == rules[n];
    }
  }

  /** A rule number claims an address exactly when the rule reaches it. */
  lemma {:induction false} ClaimedByReach(specs: seq<Spec>, lookup: Lookup, rules: seq<Rule>, a: Address, id: nat)
    requires AreTheRules(specs, lookup, rules) && AllAnswer(specs, lookup)
    ensures Claimed(Claims(rules), a, id) <==> Reaches(specs, lookup, id, a)
  {
    if Claimed(Claims(rules), a, id) {
      var c :| c in Claims(rules) && c.address == a && id in c.ruleIds;
      ClaimReaches(specs, lookup, rules, c, id);
    }
    if Reaches(specs, lookup, id, a) {
      var c := ReachClaims(specs, lookup, rules, a, id);
    }
  }

  lemma {:induction false} ClaimReaches(specs: seq<Spec>, lookup: Lookup, rules: seq<Rule>, c: Claim, id: nat)
    requires AreTheRules(specs, lookup, rules) && AllAnswer(specs, lookup) && c in Claims(rules) && id in c.ruleIds
    ensures Reaches(specs, lookup, id, c.address)
  {
    ClaimsCome(rules, c);
    var r :| r in rules && ClaimOf(r, c);
    RuleReaches(specs, lookup, r, id);
  }

  lemma {:induction false} RuleReaches(specs: seq<Spec>, lookup: Lookup, r: Rule, id: nat)
    requires AllAnswer(specs, lookup) && IsRule(specs, lookup, r) && id in r.ruleIds
    ensures 1 <= id <= |specs| && specs[id - 1].selector == r.selector && AddressesOf(specs, lookup, id) == r.addresses
  {
  }

  lemma {:induction false} ReachClaims(specs: seq<Spec>, lookup: Lookup, rules: seq<Rule>, a: Address, id: nat)
    returns (c: Claim)
    requires AreTheRules(specs, lookup, rules) && AllAnswer(specs, lookup) && Reaches(specs, lookup, id, a)
    ensures c in Claims(rules) && c.address == a && id in c.ruleIds && c.cls == specs[id - 1].cls
  {
    assert HasRule(rules, specs[id - 1].selector);
    var k :| 0 <= k < |rules| && rules[k].selector == specs[id - 1].selector;
    assert rules[k] in rules;
    c := Claim(rules[k].cls, rules[k].ruleIds, a);
    assert ClaimOf(rules[k], c);
    ClaimsCome(rules, c);
  }

  /** Every claim is one of a rule number that reaches its address, in that rule's class. */
  lemma {:induction false} ClaimHasNumber(specs: seq<Spec>, lookup: Lookup, rules: seq<Rule>, c: Claim)
    returns (id: nat)
    requires AreTheRules(specs, lookup, rules) && AllAnswer(specs, lookup) && c in Claims(rules)
    ensures Reaches(specs, lookup, id, c.address) && id in c.ruleIds && specs[id - 1].cls == c.cls
  {
    ClaimsCome(rules, c);
    var r :| r in rules && ClaimOf(r, c);
    FirstIdNamesSelector(specs, lookup, r);
    id := FirstId(r);
    assert r.ruleIds[0] in r.ruleIds;
  }

  /**
   * A successful resolution: every address has the class of every rule that reaches it and
   * the ascending list of exactly those rules' numbers, and none is a model endpoint.
   */
  lemma {:induction false} ResolutionIsExact(
    specs: seq<Spec>, lookup: Lookup, model: set<Address>, resolution: Resolution, a: Address)
    requires AllAnswer(specs, lookup) && Outcome(specs, lookup, model, Ok(resolution))
    ensures AreTheRules(specs, lookup, resolution.rules)
    ensures a in resolution.endpoints <==> exists id :: Reaches(specs, lookup, id, a)
    ensures a in resolution.endpoints ==>
      && a !in model
      && Ascending(resolution.endpoints[a].ruleIds)
      && forall id :: (id in resolution.endpoints[a].ruleIds <==> Reaches(specs, lookup, id, a))
           && (Reaches(specs, lookup, id, a) ==> resolution.endpoints[a].cls == specs[id - 1].cls)
    ensures |resolution.endpoints| <= MAX_EGRESS_ENDPOINTS
  {
    var rules, endpoints := resolution.rules, resolution.endpoints;
    ClassifiesExactly(Claims(rules), model);
    if a in endpoints {
      var c :| c in Claims(rules) && c.address == a;
      var id := ClaimHasNumber(specs, lookup, rules, c);
    }
    forall id ensures Reaches(specs, lookup, id, a) ==> a in endpoints && endpoints[a].cls == specs[id - 1].cls {
      if Reaches(specs, lookup, id, a) {
        var c := ReachClaims(specs, lookup, rules, a, id);
      }
    }
    forall id: nat ensures a in endpoints ==> (id in endpoints[a].ruleIds <==> Reaches(specs, lookup, id, a)) {
      ClaimedByReach(specs, lookup, rules, a, id);
    }
  }

  /** When resolution succeeds, said of the rules and the answers alone. */
  lemma {:induction false} ResolvesExactlyWhenCompatible(
    specs: seq<Spec>, lookup: Lookup, model: set<Address>, result: Result<Resolution, Error>)
    requires AllAnswer(specs, lookup) && Outcome(specs, lookup, model, result)
    ensures result.Ok? <==> (
      && (forall id, a :: Reaches(specs, lookup, id, a) ==> a !in model)
      && (forall i, j, a :: Reaches(specs, lookup, i, a) && Reaches(specs, lookup, j, a) ==> specs[i - 1].cls == specs[j - 1].cls)
      && |AllAddresses(specs, lookup)| <= MAX_EGRESS_ENDPOINTS)
  {
    var rules :| AreTheRules(specs, lookup, rules) && Concludes(rules, model, result);
    ClassifiesExactly(Claims(rules), model);
    OneClassBySpec(specs, lookup, rules);
    ReachedBySpec(specs, lookup, rules);
    NoneReserved(specs, lookup, model);
  }

  lemma {:induction false} NoneReserved(specs: seq<Spec>, lookup: Lookup, model: set<Address>)
    requires AllAnswer(specs, lookup)
    ensures AllAddresses(specs, lookup) !! model <==> forall id, a :: Reaches(specs, lookup, id, a) ==> a !in model
  {
    if AllAddresses(specs, lookup) !! model {
      forall id, a | Reaches(specs, lookup, id, a) ensures a !in model {
        assert a in AllAddresses(specs, lookup);
      }
    } else {
      var a :| a in AllAddresses(specs, lookup) && a in model;
      var id :| 1 <= id <= |specs| && a in AddressesOf(specs, lookup, id);
      assert Reaches(specs, lookup, id, a);
    }
  }

  lemma {:induction false} ReachedBySpec(specs: seq<Spec>, lookup: Lookup, rules: seq<Rule>)
    requires AreTheRules(specs, lookup, rules) && AllAnswer(specs, lookup)
    ensures Reached(Claims(rules)) == AllAddresses(specs, lookup)
  {
    var claims := Claims(rules);
    forall a ensures a in Reached(claims) <==> a in AllAddresses(specs, lookup) {
      if a in Reached(claims) {
        var c :| c in claims && c.address == a;
        var id := ClaimHasNumber(specs, lookup, rules, c);
      }
      if a in AllAddresses(specs, lookup) {
        var id :| 1 <= id <= |specs| && a in AddressesOf(specs, lookup, id);
        var c := ReachClaims(specs, lookup, rules, a, id);
      }
    }
  }

  function AllAddresses(specs: seq<Spec>, lookup: Lookup): set<Address>
    requires AllAnswer(specs, lookup)
  {
    set id: nat, a | 1 <= id <= |specs| && a in AddressesOf(specs, lookup, id) :: a
  }

  lemma {:induction false} OneClassBySpec(specs: seq<Spec>, lookup: Lookup, rules: seq<Rule>)
    requires AreTheRules(specs, lookup, rules) && AllAnswer(specs, lookup)
    ensures OneClassEach(Claims(rules)) <==>
      forall i, j, a :: Reaches(specs, lookup, i, a) && Reaches(specs, lookup, j, a) ==> specs[i - 1].cls == specs[j - 1].cls
  {
    var claims := Claims(rules);
    if OneClassEach(claims) {
      forall i, j, a | Reaches(specs, lookup, i, a) && Reaches(specs, lookup, j, a) ensures specs[i - 1].cls == specs[j - 1].cls {
        var c := ReachClaims(specs, lookup, rules, a, i);
        var d := ReachClaims(specs, lookup, rules, a, j);
      }
    } else {
      var c, d :| c in claims && d in claims && c.address == d.address && c.cls != d.cls;
      var i := ClaimHasNumber(specs, lookup, rules, c);
      var j := ClaimHasNumber(specs, lookup, rules, d);
    }
  }
}
