/** robots.txt: which group applies to a user agent, and what its rules decide. */
module RobotsDecide {
  import opened Wrappers
  import opened Text
  import opened RobotsParse
  import opened RobotsMatch

  function Token(agent: string): string {
    Lower(TrimSpace(agent))
  }

  predicate Applies(agent: string, ua: string) {
    Token(agent) != "" && (Token(agent) == "*" || Contains(Lower(ua), Token(agent)))
  }

  /** Length in bytes of the longest applying token of a group; 0 when none applies. */
  function Rank(agents: seq<string>, ua: string): nat {
    if agents == [] then 0
    else Max(if Applies(agents[0], ua) then ByteLen(Token(agents[0])) else 0, Rank(agents[1..], ua))
  }

  lemma {:induction false} RankIsLongest(agents: seq<string>, ua: string)
    ensures forall a :: a in agents && Applies(a, ua) ==> 0 < ByteLen(Token(a)) <= Rank(agents, ua)
    ensures Rank(agents, ua) > 0 ==> exists a :: a in agents && Applies(a, ua) && ByteLen(Token(a)) == Rank(agents, ua)
    decreases |agents|
  {
    hide Token;
    if agents != [] {
      RankIsLongest(agents[1..], ua);
      assert forall a :: a in agents <==> a == agents[0] || a in agents[1..];
    }
  }

  lemma NoAgents(ua: string)
    ensures Rank([], ua) == 0
  {
  }

  lemma {:induction false} RankStep(agents: seq<string>, ua: string, k: nat)
    requires k < |agents|
    ensures Rank(agents[..k + 1], ua) ==
            Max(if Applies(agents[k], ua) then ByteLen(Token(agents[k])) else 0, Rank(agents[..k], ua))
    decreases k
  {
    hide Applies, Token, ByteLen;
    if k == 0 {
      assert agents[..1][1..] == [];
    } else {
      RankStep(agents[1..], ua, k - 1);
      assert agents[..k + 1][1..] == agents[1..][..k] && agents[..k][1..] == agents[1..][..k - 1];
    }
  }

  function RankOf(groups: seq<Group>, ua: string, i: nat): nat
    requires i < |groups|
  {
    Rank(groups[i].agents, ua)
  }

  /** The longest applying token among the first n groups. */
  function BestRank(groups: seq<Group>, ua: string, n: nat): nat
    requires n <= |groups|
  {
    if n == 0 then 0 else Max(RankOf(groups, ua, n - 1), BestRank(groups, ua, n - 1))
  }

  function Max(a: nat, b: nat): nat {
    if a > b then a else b
  }

  /** The group that the first n groups make apply, as its position. */
  function Scan(groups: seq<Group>, ua: string, n: nat): Option<nat>
    requires n <= |groups|
  {
    if n == 0 then None
    else if RankOf(groups, ua, n - 1) > BestRank(groups, ua, n - 1) then Some(n - 1)
    else Scan(groups, ua, n - 1)
  }

  function Choose(groups: seq<Group>, ua: string): Option<nat> {
    Scan(groups, ua, |groups|)
  }

  /** The group holds an applying token, none is longer, and earlier groups hold only
      shorter ones. */
  ghost predicate FirstBest(groups: seq<Group>, ua: string, n: nat, i: nat)
    requires n <= |groups|
  {
    && i < n && 0 < RankOf(groups, ua, i)
    && (forall j: nat :: j < n ==> RankOf(groups, ua, j) <= RankOf(groups, ua, i))
    && (forall j: nat :: j < i ==> RankOf(groups, ua, j) < RankOf(groups, ua, i))
  }

  lemma {:induction false} ScanAttains(groups: seq<Group>, ua: string, n: nat)
    requires n <= |groups|
    ensures forall j: nat :: j < n ==> RankOf(groups, ua, j) <= BestRank(groups, ua, n)
    ensures match Scan(groups, ua, n)
            case None => BestRank(groups, ua, n) == 0
            case Some(i) => FirstBest(groups, ua, n, i) && RankOf(groups, ua, i) == BestRank(groups, ua, n)
  {
    hide RankOf;
    if n > 0 {
      ScanAttains(groups, ua, n - 1);
    }
  }

  /** The choice is the first of the groups that hold the longest applying token. */
  lemma ChooseIsFirstBest(groups: seq<Group>, ua: string)
    ensures Choose(groups, ua).None? <==> forall i: nat :: i < |groups| ==> RankOf(groups, ua, i) == 0
    ensures forall i: nat :: Choose(groups, ua) == Some(i) <==> FirstBest(groups, ua, |groups|, i)
    ensures Choose(groups, ua).Some? ==> Choose(groups, ua).value < |groups|
  {
    hide RankOf, Scan, BestRank;
    ScanAttains(groups, ua, |groups|);
  }

  /** Length in bytes of the longest matching rule, or -1. */
  function Longest(rules: seq<string>, target: string): int {
    if rules == [] then -1
    else
      var n := Longest(rules[1..], target);
      if RuleMatch(rules[0], target) && ByteLen(rules[0]) > n then ByteLen(rules[0]) else n
  }

  lemma {:induction false} LongestIsLongest(rules: seq<string>, target: string)
    ensures var n := Longest(rules, target);
            && (forall p :: p in rules && RuleMatch(p, target) ==> ByteLen(p) <= n)
            && (n == -1 || exists p :: p in rules && RuleMatch(p, target) && ByteLen(p) == n)
    decreases |rules|
  {
    hide RuleMatch;
    if rules != [] {
      LongestIsLongest(rules[1..], target);
      assert forall p :: p in rules <==> p == rules[0] || p in rules[1..];
    }
  }

  lemma NoRules(target: string)
    ensures Longest([], target) == -1
  {
  }

  lemma {:induction false} LongestStep(rules: seq<string>, target: string, k: nat)
    requires k < |rules|
    ensures var n := Longest(rules[..k], target);
            Longest(rules[..k + 1], target) ==
            if RuleMatch(rules[k], target) && ByteLen(rules[k]) > n then ByteLen(rules[k]) else n
    decreases k
  {
    hide RuleMatch, ByteLen;
    if k == 0 {
      assert rules[..1][1..] == [];
    } else {
      LongestStep(rules[1..], target, k - 1);
      assert rules[..k + 1][1..] == rules[1..][..k] && rules[..k][1..] == rules[1..][..k - 1];
    }
  }

  predicate GroupAllows(g: Group, target: string) {
    Longest(g.allow, target) >= Longest(g.disallow, target)
  }

  predicate Allowed(groups: seq<Group>, ua: string, target: string) {
    ChooseIsFirstBest(groups, ua);
    match Choose(groups, ua)
    case None => true
    case Some(i) => GroupAllows(groups[i], target)
  }

  method LongestMatch(rules: seq<string>, target: string) returns (best: int)
    ensures best == Longest(rules, target)
  {
    hide RuleMatch, Meaning, Longest;
    best := -1;
    NoRules(target);
    for n := 0 to |rules|
      invariant best == Longest(rules[..n], target)
    {
      LongestStep(rules, target, n);
      var matched := MatchRule(rules[n], target);
      RuleMatchMeaning(rules[n], target);
      if matched && ByteLen(rules[n]) > best {
        best := ByteLen(rules[n]);
      }
    }
    assert rules[..|rules|] == rules;
  }

  /** The nested scan that keeps the longest token seen and the group it belongs to. */
  method ChooseGroup(groups: seq<Group>, ua: string) returns (group: Option<nat>)
    ensures group == Choose(groups, ua)
  {
    hide Contains, TrimSpace, Lower, ByteLen, Rank;
    var uaLower := Lower(ua);
    group := None;
    var bestToken: nat := 0;
    for i := 0 to |groups|
      invariant group == Scan(groups, ua, i) && bestToken == BestRank(groups, ua, i)
    {
      var agents := groups[i].agents;
      ghost var best, chosen := bestToken, group;
      NoAgents(ua);
      for k := 0 to |agents|
        invariant bestToken == Max(Rank(agents[..k], ua), best)
        invariant group == if Rank(agents[..k], ua) > best then Some(i) else chosen
      {
        RankStep(agents, ua, k);
        var tok := Lower(TrimSpace(agents[k]));
        if tok == "" {
          continue;
        }
        if (tok == "*" || Contains(uaLower, tok)) && ByteLen(tok) > bestToken {
          bestToken := ByteLen(tok);
          group := Some(i);
        }
      }
      assert agents[..|agents|] == agents;
    }
  }

  method RobotsAllowed(groups: seq<Group>, ua: string, target: string) returns (allowed: bool)
    ensures allowed <==> Allowed(groups, ua, target)
  {
    hide Choose, Longest;
    ChooseIsFirstBest(groups, ua);
    var group := ChooseGroup(groups, ua);
    if group.None? {
      return true;
    }
    var allowLen := LongestMatch(groups[group.value].allow, target);
    var disallowLen := LongestMatch(groups[group.value].disallow, target);
    if allowLen == -1 && disallowLen == -1 {
      return true;
    }
    return allowLen >= disallowLen;
  }

  // --------------------------------------------------------------- properties

  /** A Disallow rule that hits and no Allow rule that hits and is as long. */
  ghost predicate Blocks(g: Group, rule: string, target: string) {
    && rule in g.disallow && rule != "" && Meaning(rule, target)
    && forall p :: p in g.allow && p != "" && Meaning(p, target) ==> ByteLen(p) < ByteLen(rule)
  }

  /** Section 2.2.2 of RFC 9309 inside one group: the longest matching rule wins and a
      tie goes to Allow. */
  lemma LongestRuleWins(g: Group, target: string)
    ensures GroupAllows(g, target) <==> forall rule :: !Blocks(g, rule, target)
  {
    hide Meaning, RuleMatch, ByteLen, Longest;
    LongestIsLongest(g.allow, target);
    LongestIsLongest(g.disallow, target);
    forall rule ensures RuleMatch(rule, target) <==> rule != "" && Meaning(rule, target) {
      RuleMatchMeaning(rule, target);
    }
    var n := Longest(g.disallow, target);
    if Longest(g.allow, target) < n {
      var d :| d in g.disallow && RuleMatch(d, target) && ByteLen(d) == n;
      assert Blocks(g, d, target);
    }
    forall rule | Blocks(g, rule, target) ensures Longest(g.allow, target) < n {
      assert RuleMatch(rule, target);
    }
  }

  /** The decision for a whole file. */
  lemma DecisionMeaning(groups: seq<Group>, ua: string, target: string)
    ensures Allowed(groups, ua, target) <==>
            match Choose(groups, ua)
            case None => true
            case Some(i) => i < |groups| && forall rule :: !Blocks(groups[i], rule, target)
  {
    ChooseIsFirstBest(groups, ua);
    if Choose(groups, ua).Some? {
      LongestRuleWins(groups[Choose(groups, ua).value], target);
    }
  }

  predicate SameElements(a: seq<string>, b: seq<string>) {
    (forall x :: x in a ==> x in b) && (forall x :: x in b ==> x in a)
  }

  predicate SameAgents(gs: seq<Group>, hs: seq<Group>) {
    |gs| == |hs| && forall i :: 0 <= i < |gs| ==> SameElements(gs[i].agents, hs[i].agents)
  }

  lemma SameRank(a: seq<string>, b: seq<string>, ua: string)
    requires SameElements(a, b)
    ensures Rank(a, ua) == Rank(b, ua)
  {
    hide Applies, ByteLen, Rank;
    RankIsLongest(a, ua);
    RankIsLongest(b, ua);
  }

  lemma SameChoice(gs: seq<Group>, hs: seq<Group>, ua: string)
    requires SameAgents(gs, hs)
    ensures Choose(gs, ua) == Choose(hs, ua)
    ensures Choose(gs, ua).Some? ==> Choose(gs, ua).value < |gs|
  {
    hide Choose, Rank, SameElements;
    forall i: nat | i < |gs| ensures RankOf(gs, ua, i) == RankOf(hs, ua, i) {
      SameRank(gs[i].agents, hs[i].agents, ua);
    }
    hide RankOf;
    ChooseIsFirstBest(gs, ua);
    ChooseIsFirstBest(hs, ua);
    if Choose(gs, ua).Some? {
      var i := Choose(gs, ua).value;
      assert FirstBest(gs, ua, |gs|, i);
      assert FirstBest(hs, ua, |gs|, i);
    }
  }

  /** More Allow rules and fewer Disallow rules in the group that applies never close a
      path; rules of the other groups do not matter at all. */
  lemma Monotone(gs: seq<Group>, hs: seq<Group>, ua: string, target: string)
    requires SameAgents(gs, hs)
    requires forall i: nat :: i < |gs| && Choose(gs, ua) == Some(i) ==>
               (forall p :: p in gs[i].allow ==> p in hs[i].allow) &&
               (forall p :: p in hs[i].disallow ==> p in gs[i].disallow)
    ensures Allowed(gs, ua, target) ==> Allowed(hs, ua, target)
  {
    hide Choose, SameElements, Meaning, ByteLen, GroupAllows;
    SameChoice(gs, hs, ua);
    if Choose(gs, ua).Some? {
      var g, h := gs[Choose(gs, ua).value], hs[Choose(gs, ua).value];
      LongestRuleWins(g, target);
      LongestRuleWins(h, target);
      forall rule | Blocks(h, rule, target) ensures Blocks(g, rule, target) {
      }
    }
  }

  /** The order and the repetition of agents and of rules do not matter. */
  lemma OrderIsIrrelevant(gs: seq<Group>, hs: seq<Group>, ua: string, target: string)
    requires SameAgents(gs, hs)
    requires forall i :: 0 <= i < |gs| ==>
               SameElements(gs[i].allow, hs[i].allow) && SameElements(gs[i].disallow, hs[i].disallow)
    ensures Allowed(gs, ua, target) <==> Allowed(hs, ua, target)
  {
    hide Choose, Allowed;
    SameChoice(gs, hs, ua);
    Monotone(gs, hs, ua, target);
    Monotone(hs, gs, ua, target);
  }

  /** Groups are not merged: one that comes later and ties with the chosen group adds
      none of its rules. Section 2.2.1 of RFC 9309 asks for the union. */
  lemma TiesAreNotMerged(groups: seq<Group>, extra: Group, ua: string, target: string)
    requires exists i: nat :: i < |groups| && Rank(extra.agents, ua) <= RankOf(groups, ua, i)
    ensures Allowed(groups + [extra], ua, target) <==> Allowed(groups, ua, target)
  {
    hide Rank, GroupAllows, Choose;
    var more := groups + [extra];
    assert forall i: nat :: i < |groups| ==> RankOf(more, ua, i) == RankOf(groups, ua, i);
    assert RankOf(more, ua, |groups|) == Rank(extra.agents, ua);
    hide RankOf;
    ChooseIsFirstBest(groups, ua);
    ChooseIsFirstBest(more, ua);
    if Choose(groups, ua).Some? {
      assert FirstBest(more, ua, |more|, Choose(groups, ua).value);
    }
  }

  // ---------------------------------------------------------------- tied groups

  function Wider(a: int, b: int): int {
    if a > b then a else b
  }

  lemma {:induction false} LongestOfBoth(a: seq<string>, b: seq<string>, target: string)
    ensures Longest(a + b, target) == Wider(Longest(a, target), Longest(b, target))
    ensures Longest(a, target) >= -1
    decreases |a|
  {
    hide RuleMatch, ByteLen;
    if a == [] {
      assert a + b == b;
      LongestIsLongest(b, target);
    } else {
      LongestOfBoth(a[1..], b, target);
      assert (a + b)[1..] == a[1..] + b;
    }
  }

  /** One group with the rules of every group whose longest applying token has this rank. */
  function Union(groups: seq<Group>, ua: string, rank: nat): Group {
    if groups == [] then Group([], [], [], false)
    else
      var g, rest := groups[0], Union(groups[1..], ua, rank);
      if Rank(g.agents, ua) != rank then rest
      else Group(g.agents + rest.agents, g.allow + rest.allow, g.disallow + rest.disallow, g.hasRule || rest.hasRule)
  }

  /** The groups that hold the longest applying token, merged, as section 2.2.1 of RFC 9309
      asks. */
  function Merged(groups: seq<Group>, ua: string): Group {
    Union(groups, ua, BestRank(groups, ua, |groups|))
  }

  predicate MergedAllowed(groups: seq<Group>, ua: string, target: string) {
    BestRank(groups, ua, |groups|) == 0 || GroupAllows(Merged(groups, ua), target)
  }

  /** The same without the group at position i. */
  function Others(groups: seq<Group>, ua: string, i: nat): Group
    requires i < |groups|
  {
    Union(groups[..i] + groups[i + 1..], ua, BestRank(groups, ua, |groups|))
  }

  lemma {:induction false} UnionLongest(a: seq<Group>, b: seq<Group>, ua: string, rank: nat, target: string)
    ensures var all, x, y := Union(a + b, ua, rank), Union(a, ua, rank), Union(b, ua, rank);
            && Longest(all.allow, target) == Wider(Longest(x.allow, target), Longest(y.allow, target))
            && Longest(all.disallow, target) == Wider(Longest(x.disallow, target), Longest(y.disallow, target))
    decreases |a|
  {
    hide Longest, Rank;
    if a == [] {
      assert a + b == b;
      NoRules(target);
      LongestOfBoth(Union(b, ua, rank).allow, [], target);
      LongestOfBoth(Union(b, ua, rank).disallow, [], target);
    } else {
      assert (a + b)[1..] == a[1..] + b;
      UnionLongest(a[1..], b, ua, rank, target);
      if Rank(a[0].agents, ua) == rank {
        LongestOfBoth(a[0].allow, Union(a[1..], ua, rank).allow, target);
        LongestOfBoth(a[0].disallow, Union(a[1..], ua, rank).disallow, target);
        LongestOfBoth(a[0].allow, Union(a[1..] + b, ua, rank).allow, target);
        LongestOfBoth(a[0].disallow, Union(a[1..] + b, ua, rank).disallow, target);
      }
    }
  }

  lemma UnionOfOne(g: Group, ua: string)
    ensures var u := Union([g], ua, Rank(g.agents, ua)); u.allow == g.allow && u.disallow == g.disallow
  {
    assert [g][1..] == [];
  }

  /** The merged group's longest rules are the longer of the chosen group's and those of the
      groups that tie with it. */
  lemma MergedLongest(groups: seq<Group>, ua: string, i: nat, target: string)
    requires i < |groups| && RankOf(groups, ua, i) == BestRank(groups, ua, |groups|)
    ensures var g, m, o := groups[i], Merged(groups, ua), Others(groups, ua, i);
            && Longest(m.allow, target) == Wider(Longest(g.allow, target), Longest(o.allow, target))
            && Longest(m.disallow, target) == Wider(Longest(g.disallow, target), Longest(o.disallow, target))
  {
    hide Longest, Rank, Union;
    var rank := BestRank(groups, ua, |groups|);
    var before, after := groups[..i], groups[i + 1..];
    UnionOfOne(groups[i], ua);
    UnionLongest(before, after, ua, rank, target);
    UnionLongest([groups[i]], after, ua, rank, target);
    UnionLongest(before, [groups[i]] + after, ua, rank, target);
    assert groups == before + ([groups[i]] + after);
  }

  /** Reading only the first of the groups that tie gives the decision of the merged group
      exactly when the tied groups add no rule that outweighs it: no longer Disallow for an
      open path, no Allow as long as every Disallow for a closed one. */
  lemma TiesMatterExactly(groups: seq<Group>, ua: string, target: string)
    ensures match Choose(groups, ua)
            case None => Allowed(groups, ua, target) && MergedAllowed(groups, ua, target)
            case Some(i) =>
              && i < |groups|
              && var o, m := Others(groups, ua, i), Merged(groups, ua);
                 ((Allowed(groups, ua, target) <==> MergedAllowed(groups, ua, target))
                  <==> if GroupAllows(groups[i], target)
                       then Longest(o.disallow, target) <= Longest(m.allow, target)
                       else Longest(o.allow, target) < Longest(m.disallow, target))
  {
    hide Longest, RankOf, BestRank, Merged, Others;
    ScanAttains(groups, ua, |groups|);
    ChooseIsFirstBest(groups, ua);
    if Choose(groups, ua).Some? {
      MergedLongest(groups, ua, Choose(groups, ua).value, target);
    }
  }

  lemma {:induction false} NoneTied(groups: seq<Group>, ua: string, rank: nat)
    requires forall j :: 0 <= j < |groups| ==> Rank(groups[j].agents, ua) != rank
    ensures Union(groups, ua, rank).allow == [] && Union(groups, ua, rank).disallow == []
    decreases |groups|
  {
    hide Rank;
    if groups != [] {
      NoneTied(groups[1..], ua, rank);
    }
  }

  /** With one group that holds the longest applying token, nothing is lost. */
  lemma SingleBestIsMerged(groups: seq<Group>, ua: string, target: string)
    requires forall i, j :: 0 <= i < j < |groups| && RankOf(groups, ua, i) == BestRank(groups, ua, |groups|) ==>
               RankOf(groups, ua, j) != RankOf(groups, ua, i)
    ensures Allowed(groups, ua, target) <==> MergedAllowed(groups, ua, target)
  {
    hide Longest, BestRank, Rank, Union;
    TiesMatterExactly(groups, ua, target);
    ScanAttains(groups, ua, |groups|);
    if Choose(groups, ua).Some? {
      var i := Choose(groups, ua).value;
      var others := groups[..i] + groups[i + 1..];
      forall j | 0 <= j < |others| ensures Rank(others[j].agents, ua) != BestRank(groups, ua, |groups|) {
        var k := if j < i then j else j + 1;
        assert others[j] == groups[k] && RankOf(groups, ua, k) == Rank(others[j].agents, ua);
      }
      NoneTied(others, ua, BestRank(groups, ua, |groups|));
      MergedLongest(groups, ua, i, target);
      NoRules(target);
      LongestOfBoth(groups[i].allow, [], target);
    }
  }

  lemma RootMatches()
    ensures !RuleMatch("", "/") && RuleMatch("/", "/")
  {
    hide ParseRegex, RegexText, Search;
    assert HasPrefix("/", "/");
  }

  lemma RootRules()
    ensures Longest([], "/") == -1 && Longest([""], "/") == -1 && Longest(["", "/"], "/") == 1
  {
    hide RuleMatch;
    RootMatches();
    assert [""][1..] == [] && ["", "/"][1..] == ["/"] && ["/"][1..] == [];
    assert ByteLen("/") == 1;
    assert Longest(["/"], "/") == 1;
  }

  lemma NoToken(ua: string)
    ensures !Applies("", ua)
  {
    assert TrimSpace("") == "";
  }

  lemma RankOfOne(agent: string, ua: string)
    requires Applies(agent, ua)
    ensures Rank([agent], ua) == ByteLen(Token(agent)) > 0
  {
    hide Token, Rank, ByteLen;
    RankIsLongest([agent], ua);
    assert agent in [agent];
  }

  /** A group that closes nothing before one that closes the whole site, under one token. */
  function OpenThenClosed(agent: string): seq<Group> {
    [Group([agent], [], [""], true), Group([agent], [], ["/"], true)]
  }

  lemma OpenThenClosedRanks(agent: string, ua: string)
    requires Applies(agent, ua)
    ensures var groups := OpenThenClosed(agent);
            Choose(groups, ua) == Some(0) && BestRank(groups, ua, 2) == Rank([agent], ua) > 0
  {
    hide Applies, Rank;
    RankOfOne(agent, ua);
    var groups, rank := OpenThenClosed(agent), Rank([agent], ua);
    assert RankOf(groups, ua, 0) == rank && RankOf(groups, ua, 1) == rank;
    assert BestRank(groups, ua, 0) == 0 && BestRank(groups, ua, 1) == rank && BestRank(groups, ua, 2) == rank;
    assert FirstBest(groups, ua, 2, 0);
    ChooseIsFirstBest(groups, ua);
  }

  lemma OpenThenClosedMerged(agent: string, ua: string)
    ensures var m := Union(OpenThenClosed(agent), ua, Rank([agent], ua)); m.allow == [] && m.disallow == ["", "/"]
  {
    hide Rank;
    var groups, rank := OpenThenClosed(agent), Rank([agent], ua);
    assert groups[1..] == [groups[1]] && groups[1..][1..] == [];
    assert Union([], ua, rank) == Group([], [], [], false);
    assert Union(groups[1..], ua, rank).disallow == ["/"];
    assert [""] + ["/"] == ["", "/"];
  }

  lemma OpenThenClosedIsWellFormed(agent: string)
    requires agent != "" && Clean(agent)
    ensures WellFormed(OpenThenClosed(agent))
  {
  }

  /** Any token that applies to any agent, in such a file: the root is open; merged, it would
      be closed. */
  lemma FirstOfTiedHidesRest(agent: string, ua: string)
    requires Applies(agent, ua)
    ensures Allowed(OpenThenClosed(agent), ua, "/") && !MergedAllowed(OpenThenClosed(agent), ua, "/")
    ensures Clean(agent) ==> WellFormed(OpenThenClosed(agent))
  {
    hide Applies, Longest, Rank, WellFormed, Clean, Choose, BestRank, Union;
    OpenThenClosedRanks(agent, ua);
    OpenThenClosedMerged(agent, ua);
    RootRules();
    if Clean(agent) {
      NoToken(ua);
      OpenThenClosedIsWellFormed(agent);
    }
  }
}
