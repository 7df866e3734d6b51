/** robots.txt: which agent lines apply to a user agent, and what that makes of a file. */
module RobotsAgents {
  import opened Wrappers
  import opened Text
  import opened RobotsParse
  import opened RobotsMatch
  import opened RobotsDecide

  /** Some way of reading `whole` as something, the piece, and something. */
  predicate PieceOf(whole: string, piece: string, before: string, after: string) {
    whole == before + piece + after
  }

  lemma ContainsPieces(whole: string, piece: string)
    ensures Contains(whole, piece) <==> exists before, after :: PieceOf(whole, piece, before, after)
  {
    if Contains(whole, piece) {
      var i :| 0 <= i <= |whole| && OccursAt(whole, piece, i);
      assert PieceOf(whole, piece, whole[..i], whole[i + |piece|..]);
    }
    forall before, after | PieceOf(whole, piece, before, after) ensures Contains(whole, piece) {
      assert OccursAt(whole, piece, |before|);
    }
  }

  /** An agent line, blanks around its name or not, applies exactly when the name is not
      empty and is the star or, in lower case, a piece of the lower-cased user agent. */
  lemma AppliesMeaning(lead: string, name: string, trail: string, ua: string)
    requires Blanks(lead) && Blanks(trail) && Trimmed(name)
    ensures Applies(lead + name + trail, ua) <==>
            name != "" && (name == "*" || exists before, after :: PieceOf(Lower(ua), Lower(name), before, after))
    ensures Token(lead + name + trail) == Lower(name)
  {
    hide TrimSpace, Trimmed, Contains, PieceOf;
    BlanksAreSpaces(lead);
    BlanksAreSpaces(trail);
    TrimAround(lead, name, trail);
    ContainsPieces(Lower(ua), Lower(name));
    OnlyStar(name);
  }

  lemma OnlyStar(name: string)
    ensures Lower(name) == "*" <==> name == "*"
    ensures Lower(name) == "" <==> name == ""
  {
    if Lower(name) == "*" {
      assert |name| == |Lower(name)| == 1 && Lower(name)[0] == LowerChar(name[0]);
      assert name == [name[0]];
    }
  }

  /** So it does for every piece of the user agent, in any case of its letters. */
  lemma AppliesToPieces(lead: string, name: string, trail: string, before: string, piece: string, after: string)
    requires Blanks(lead) && Blanks(trail) && Trimmed(name) && name != "" && SameButCase(name, piece)
    ensures Applies(lead + name + trail, before + piece + after)
  {
    hide Applies, Token, Trimmed;
    AppliesMeaning(lead, name, trail, before + piece + after);
    LowerIgnoresCase(name, piece);
    assert PieceOf(Lower(before + piece + after), Lower(name), Lower(before), Lower(after)) by {
      assert Lower(before + piece + after) == Lower(before) + Lower(piece) + Lower(after);
    }
  }

  lemma StarApplies(ua: string)
    ensures Applies("*", ua) && ByteLen(Token("*")) == 1
  {
    AppliesMeaning("", "*", "", ua);
    assert "" + "*" + "" == "*" && Lower("*") == "*";
  }

  /** A file whose only group names the star decides for every user agent by that group. */
  lemma StarDecides(g: Group, ua: string, target: string)
    requires "*" in g.agents
    ensures Choose([g], ua) == Some(0) && (Allowed([g], ua, target) <==> GroupAllows(g, target))
  {
    hide Applies, Token, ByteLen, Rank, GroupAllows;
    StarApplies(ua);
    RankIsLongest(g.agents, ua);
    assert RankOf([g], ua, 0) > 0;
    assert FirstBest([g], ua, 1, 0);
    ChooseIsFirstBest([g], ua);
  }

  /** The commonest file that closes a site closes every path of it, to every user agent. */
  lemma ClosedSite(ua: string, path: string)
    ensures !Allowed([Group(["*"], [], ["/"], true)], ua, "/" + path)
  {
    hide GroupAllows, RuleMatch;
    var g := Group(["*"], [], ["/"], true);
    StarDecides(g, ua, "/" + path);
    assert "*" in g.agents;
    SlashMatches(path);
    LongestIsLongest(g.disallow, "/" + path);
    NoRules("/" + path);
    assert "/" in g.disallow;
    assert !GroupAllows(g, "/" + path) by { ClosedGroup(g, "/" + path); }
  }

  lemma ClosedGroup(g: Group, target: string)
    requires Longest(g.allow, target) < Longest(g.disallow, target)
    ensures !GroupAllows(g, target)
  {
  }

  lemma SlashMatches(path: string)
    ensures RuleMatch("/", "/" + path)
  {
    hide ParseRegex, RegexText, Search;
    assert HasPrefix("/" + path, "/");
  }

  /** A group that names a piece of the user agent, of two characters or more, is chosen over
      a group for the star, before or after it. */
  lemma NamedBeatsStar(
    lead: string, name: string, trail: string, before: string, piece: string, after: string, named: Group, star: Group)
    requires Blanks(lead) && Blanks(trail) && Trimmed(name) && |name| >= 2 && SameButCase(name, piece)
    requires lead + name + trail in named.agents && star.agents == ["*"]
    ensures Choose([named, star], before + piece + after) == Some(0)
    ensures Choose([star, named], before + piece + after) == Some(1)
  {
    hide Applies, Token, Trimmed, Rank, SameButCase, Blanks;
    var ua, agent := before + piece + after, lead + name + trail;
    AppliesToPieces(lead, name, trail, before, piece, after);
    AppliesMeaning(lead, name, trail, ua);
    RankIsLongest(named.agents, ua);
    assert ByteLen(Token(agent)) >= 2;
    StarRank(ua);
    assert RankOf([named, star], ua, 0) == RankOf([star, named], ua, 1) >= 2;
    assert RankOf([named, star], ua, 1) == RankOf([star, named], ua, 0) == 1;
    assert FirstBest([named, star], ua, 2, 0) && FirstBest([star, named], ua, 2, 1);
    ChooseIsFirstBest([named, star], ua);
    ChooseIsFirstBest([star, named], ua);
  }

  lemma StarRank(ua: string)
    ensures Rank(["*"], ua) == 1
  {
    hide Applies, Token, ByteLen, Rank;
    StarApplies(ua);
    RankIsLongest(["*"], ua);
    assert "*" in ["*"];
  }

  /** An agent line that names neither the star nor, up to case, a piece of the user agent. */
  ghost predicate Foreign(agent: string, ua: string) {
    exists lead, name, trail :: ForeignAs(agent, lead, name, trail, ua)
  }

  ghost predicate ForeignAs(agent: string, lead: string, name: string, trail: string, ua: string) {
    && agent == lead + name + trail && Blanks(lead) && Blanks(trail) && Trimmed(name) && name != "*"
    && forall before, after :: !PieceOf(Lower(ua), Lower(name), before, after)
  }

  /** A group of such lines is never chosen. */
  lemma ForeignIsNeverChosen(groups: seq<Group>, ua: string, i: nat)
    requires i < |groups| && forall a :: a in groups[i].agents ==> Foreign(a, ua)
    ensures Choose(groups, ua) != Some(i)
  {
    hide Applies, Token, Rank, Blanks, Trimmed, Choose;
    forall a | a in groups[i].agents ensures !Applies(a, ua) {
      var lead, name, trail :| ForeignAs(a, lead, name, trail, ua);
      AppliesMeaning(lead, name, trail, ua);
    }
    RankIsLongest(groups[i].agents, ua);
    assert RankOf(groups, ua, i) == 0;
    ChooseIsFirstBest(groups, ua);
  }
}
