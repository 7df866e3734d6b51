/** robots.txt: what a rule matches and how the rules of one group decide. */
module RobotsMatch {
  import opened Wrappers
  import opened Text

  // ------------------------------------------------------ rules as expressions

  const META := "\\.+*?()|[]{}^$"

  function QuoteMeta(c: char): string {
    if c in META then ['\\', c] else [c]
  }

  function EscapedChar(c: char): string {
    if c == '*' then ".*" else QuoteMeta(c)
  }

  function Escaped(body: string): string {
    if body == "" then "" else EscapedChar(body[0]) + Escaped(body[1..])
  }

  predicate Anchored(rule: string) {
    HasSuffix(rule, "$")
  }

  function Body(rule: string): string {
    TrimSuffix(rule, "$")
  }

  function EndText(anchored: bool): string {
    if anchored then "$" else ""
  }

  /** The expression the matcher hands to the regexp package. */
  function RegexText(rule: string): string {
    "^" + Escaped(Body(rule)) + EndText(Anchored(rule))
  }

  lemma {:induction false} EscapedAppend(a: string, c: char)
    ensures Escaped(a + [c]) == Escaped(a) + EscapedChar(c)
  {
    if a == "" {
      assert Escaped([]) == "";
      assert Escaped([c][1..]) == "";
    } else {
      assert (a + [c])[1..] == a[1..] + [c];
      EscapedAppend(a[1..], c);
    }
  }

  method BuildRegex(rule: string) returns (text: string)
    ensures text == RegexText(rule)
  {
    hide QuoteMeta;
    var anchored, body := HasSuffix(rule, "$"), TrimSuffix(rule, "$");
    text := "^";
    for n := 0 to |body|
      invariant text == "^" + Escaped(body[..n])
    {
      assert body[..n + 1] == body[..n] + [body[n]];
      EscapedAppend(body[..n], body[n]);
      if body[n] == '*' {
        text := text + ".*";
      } else {
        text := text + QuoteMeta(body[n]);
      }
    }
    assert body[..|body|] == body;
    if anchored {
      text := text + "$";
    }
  }

  // --------------------------------------- the fragment of regexp that is used

  datatype Node = Begin | End | AnyStar | Literal(c: char)

  /** Parsing of expressions made of ^, $, .*, escaped and plain characters. */
  function ParseRegex(text: string): Option<seq<Node>>
    decreases |text|
  {
    if text == "" then Some([])
    else
      var (node, rest) :=
        if text[0] == '^' then (Some(Begin), text[1..])
        else if text[0] == '$' then (Some(End), text[1..])
        else if HasPrefix(text, ".*") then (Some(AnyStar), text[2..])
        else if text[0] == '\\' && |text| > 1 && text[1] in META then (Some(Literal(text[1])), text[2..])
        else if text[0] !in META then (Some(Literal(text[0])), text[1..])
        else (None, text[1..]);
      match (node, ParseRegex(rest))
      case (Some(n), Some(ns)) => Some([n] + ns)
      case _ => None
  }

  /** Whether the nodes match a piece of the text that begins at i. A dot is any
      character but a newline, and $ is the end of the text. */
  predicate MatchesAt(nodes: seq<Node>, text: string, i: nat)
    requires i <= |text|
    decreases |nodes|, |text| - i
  {
    nodes == [] ||
    match nodes[0]
    case Begin => i == 0 && MatchesAt(nodes[1..], text, i)
    case End => i == |text| && MatchesAt(nodes[1..], text, i)
    case Literal(c) => i < |text| && text[i] == c && MatchesAt(nodes[1..], text, i + 1)
    case AnyStar =>
      MatchesAt(nodes[1..], text, i) || (i < |text| && text[i] != '\n' && MatchesAt(nodes, text, i + 1))
  }

  predicate Search(nodes: seq<Node>, text: string) {
    exists i: nat :: i <= |text| && MatchesAt(nodes, text, i)
  }

  predicate RuleMatch(rule: string, target: string) {
    if rule == "" then false
    else if '*' !in rule && '$' !in rule then HasPrefix(target, rule)
    else
      match ParseRegex(RegexText(rule))
      case None => false
      case Some(nodes) => Search(nodes, target)
  }

  // ---------------------------------------------------------- what rules mean

  function Stars(body: string): nat {
    if body == "" then 0 else (if body[0] == '*' then 1 else 0) + Stars(body[1..])
  }

  /** The rule's text with its stars replaced, one by one, by the given texts. */
  function Fill(body: string, gaps: seq<string>): string
    requires |gaps| == Stars(body)
  {
    if body == "" then ""
    else if body[0] == '*' then gaps[0] + Fill(body[1..], gaps[1..])
    else [body[0]] + Fill(body[1..], gaps)
  }

  predicate OneLine(gaps: seq<string>) {
    forall k :: 0 <= k < |gaps| ==> '\n' !in gaps[k]
  }

  ghost predicate Reaches(body: string, anchored: bool, gaps: seq<string>, text: string) {
    && |gaps| == Stars(body)
    && OneLine(gaps)
    && Fill(body, gaps) <= text
    && (anchored ==> Fill(body, gaps) == text)
  }

  /** Some way of replacing the stars by texts without newlines gives a prefix of the
      target, and the whole target when the rule ends in $. */
  ghost predicate Meaning(rule: string, target: string) {
    exists gaps :: Reaches(Body(rule), Anchored(rule), gaps, target)
  }

  function NodeOf(c: char): Node {
    if c == '*' then AnyStar else Literal(c)
  }

  function BodyNodes(body: string): seq<Node> {
    if body == "" then [] else [NodeOf(body[0])] + BodyNodes(body[1..])
  }

  function Tail(anchored: bool): seq<Node> {
    if anchored then [End] else []
  }

  /** The expression built for a rule parses, and to the nodes one expects: escaping
      loses nothing. */
  lemma RegexParses(rule: string)
    ensures ParseRegex(RegexText(rule)) == Some([Begin] + (BodyNodes(Body(rule)) + Tail(Anchored(rule))))
  {
    var tail := EndText(Anchored(rule));
    EscapedParses(Body(rule), Anchored(rule));
    assert RegexText(rule) == "^" + (Escaped(Body(rule)) + tail);
    assert RegexText(rule)[1..] == Escaped(Body(rule)) + tail;
  }

  lemma ParseEnd(anchored: bool)
    ensures ParseRegex(EndText(anchored)) == Some(Tail(anchored))
  {
    var text := EndText(anchored);
    if anchored {
      assert text[0] == '$' && text[1..] == "";
      assert ParseRegex(text[1..]) == Some([]);
      assert [End] + [] == Tail(anchored);
    }
  }

  /** An escaped character parses back to itself, whatever follows. */
  lemma ParseEscaped(c: char, rest: string)
    requires ParseRegex(rest).Some?
    ensures ParseRegex(EscapedChar(c) + rest) == Some([NodeOf(c)] + ParseRegex(rest).value)
  {
    var head := EscapedChar(c);
    var text := head + rest;
    assert text[|head|..] == rest;
    assert text[0] == head[0] && (|head| == 2 ==> text[1] == head[1]);
    if c == '*' {
      assert text[..2] == ".*";
    }
  }

  lemma {:induction false} EscapedParses(body: string, anchored: bool)
    ensures ParseRegex(Escaped(body) + EndText(anchored)) == Some(BodyNodes(body) + Tail(anchored))
  {
    hide ParseRegex, Tail;
    var tail := EndText(anchored);
    ParseEnd(anchored);
    if body == "" {
      assert "" + tail == tail && [] + Tail(anchored) == Tail(anchored);
    } else {
      EscapedParses(body[1..], anchored);
      ParseEscaped(body[0], Escaped(body[1..]) + tail);
      assert Escaped(body) + tail == EscapedChar(body[0]) + (Escaped(body[1..]) + tail);
      assert BodyNodes(body) + Tail(anchored) == [NodeOf(body[0])] + (BodyNodes(body[1..]) + Tail(anchored));
    }
  }

  lemma {:induction false} MatchGivesGaps(body: string, anchored: bool, text: string, i: nat)
    returns (gaps: seq<string>)
    requires i <= |text|
    requires MatchesAt(BodyNodes(body) + Tail(anchored), text, i)
    ensures Reaches(body, anchored, gaps, text[i..])
    decreases |body|, |text| - i
  {
    var nodes := BodyNodes(body) + Tail(anchored);
    if body == "" {
      gaps := [];
      assert nodes == Tail(anchored);
    } else {
      assert nodes[1..] == BodyNodes(body[1..]) + Tail(anchored);
      if body[0] != '*' {
        gaps := MatchGivesGaps(body[1..], anchored, text, i + 1);
        assert text[i..] == [text[i]] + text[i + 1..];
      } else if MatchesAt(nodes[1..], text, i) {
        var rest := MatchGivesGaps(body[1..], anchored, text, i);
        gaps := [""] + rest;
        assert gaps[1..] == rest;
        assert Fill(body, gaps) == "" + Fill(body[1..], rest);
      } else {
        var more := MatchGivesGaps(body, anchored, text, i + 1);
        gaps := more[0 := [text[i]] + more[0]];
        assert gaps[1..] == more[1..];
        assert Fill(body, gaps) == [text[i]] + Fill(body, more);
        assert text[i..] == [text[i]] + text[i + 1..];
      }
    }
  }

  lemma {:induction false} GapsGiveMatch(body: string, anchored: bool, gaps: seq<string>, text: string, i: nat)
    requires i <= |text|
    requires Reaches(body, anchored, gaps, text[i..])
    ensures MatchesAt(BodyNodes(body) + Tail(anchored), text, i)
    decreases |body|, |text| - i
  {
    var nodes := BodyNodes(body) + Tail(anchored);
    var filled := Fill(body, gaps);
    if body == "" {
      assert nodes == Tail(anchored);
      assert nodes == [] || nodes[1..] == [];
    } else {
      assert nodes[1..] == BodyNodes(body[1..]) + Tail(anchored);
      if body[0] != '*' {
        assert filled[0] == text[i..][0] && filled[1..] == Fill(body[1..], gaps);
        assert text[i..][1..] == text[i + 1..];
        GapsGiveMatch(body[1..], anchored, gaps, text, i + 1);
      } else if gaps[0] == "" {
        assert filled == Fill(body[1..], gaps[1..]);
        GapsGiveMatch(body[1..], anchored, gaps[1..], text, i);
      } else {
        var fewer := gaps[0 := gaps[0][1..]];
        assert fewer[1..] == gaps[1..];
        assert filled[0] == text[i..][0] && filled[1..] == Fill(body, fewer);
        assert text[i..][1..] == text[i + 1..];
        GapsGiveMatch(body, anchored, fewer, text, i + 1);
      }
    }
  }

  lemma SearchFromTheStart(nodes: seq<Node>, text: string)
    ensures Search([Begin] + nodes, text) <==> MatchesAt(nodes, text, 0)
  {
    assert ([Begin] + nodes)[1..] == nodes;
    assert MatchesAt([Begin] + nodes, text, 0) <==> MatchesAt(nodes, text, 0);
  }

  lemma {:induction false} NoStars(body: string)
    requires '*' !in body
    ensures Stars(body) == 0 && Fill(body, []) == body
  {
    if body != "" {
      NoStars(body[1..]);
    }
  }

  /** The expression alone, without the fast path, decides the meaning. */
  lemma SearchMeaning(rule: string, target: string)
    ensures Meaning(rule, target) <==>
            Search([Begin] + (BodyNodes(Body(rule)) + Tail(Anchored(rule))), target)
  {
    hide Search, MatchesAt, Reaches, BodyNodes, Tail, Body, Anchored;
    var nodes := BodyNodes(Body(rule)) + Tail(Anchored(rule));
    SearchFromTheStart(nodes, target);
    assert target[0..] == target;
    if MatchesAt(nodes, target, 0) {
      var gaps := MatchGivesGaps(Body(rule), Anchored(rule), target, 0);
    }
    if Meaning(rule, target) {
      var gaps :| Reaches(Body(rule), Anchored(rule), gaps, target);
      GapsGiveMatch(Body(rule), Anchored(rule), gaps, target, 0);
    }
  }

  lemma PrefixMeaning(rule: string, target: string)
    requires '*' !in rule && '$' !in rule
    ensures Meaning(rule, target) <==> rule <= target
  {
    NoStars(rule);
    assert rule != "" ==> rule[|rule| - 1..][0] == rule[|rule| - 1];
    if rule <= target {
      assert Reaches(Body(rule), Anchored(rule), [], target);
    }
  }

  /** Every rule matches what it means: the plain-prefix shortcut, the building of the
      expression, its parsing and its matching together change nothing. The empty rule
      matches nothing. */
  lemma RuleMatchMeaning(rule: string, target: string)
    ensures RuleMatch(rule, target) <==> rule != "" && Meaning(rule, target)
  {
    hide Meaning, Search, ParseRegex, RegexText, BodyNodes;
    SearchMeaning(rule, target);
    RegexParses(rule);
    if '*' !in rule && '$' !in rule {
      PrefixMeaning(rule, target);
    }
  }

  /** On rules without special characters the general path gives the answer of the
      shortcut. */
  lemma FastPathAgrees(rule: string, target: string)
    requires '*' !in rule && '$' !in rule
    ensures exists nodes :: ParseRegex(RegexText(rule)) == Some(nodes) && (Search(nodes, target) <==> rule <= target)
  {
    hide Meaning, Search, ParseRegex, RegexText, BodyNodes;
    SearchMeaning(rule, target);
    RegexParses(rule);
    PrefixMeaning(rule, target);
  }

  // ------------------------------------------------------------ rules of each shape

  predicate PlainText(s: string) {
    '*' !in s && '$' !in s
  }

  lemma {:induction false} PlainPart(a: string, rest: string, gaps: seq<string>)
    requires PlainText(a) && |gaps| == Stars(rest)
    ensures Stars(a + rest) == Stars(rest) && Fill(a + rest, gaps) == a + Fill(rest, gaps)
    decreases |a|
  {
    if a == "" {
      assert a + rest == rest;
    } else {
      assert (a + rest)[1..] == a[1..] + rest;
      PlainPart(a[1..], rest, gaps);
    }
  }

  /** A plain text, a star and a plain text: the star stands for one text. */
  lemma OneStar(a: string, b: string, gaps: seq<string>)
    requires PlainText(a) && PlainText(b) && |gaps| == 1
    ensures Stars(a + "*" + b) == 1 && Fill(a + "*" + b, gaps) == a + gaps[0] + b
  {
    var rest := "*" + b;
    NoStars(b);
    assert rest[1..] == b && gaps[1..] == [];
    PlainPart(a, rest, gaps);
    assert a + "*" + b == a + rest;
  }

  lemma OneGap(a: string, b: string, anchored: bool, target: string)
    requires PlainText(a) && PlainText(b)
    ensures (exists gaps :: Reaches(a + "*" + b, anchored, gaps, target)) <==>
            exists gap :: FillsGap(a, b, anchored, gap, target)
  {
    hide Stars, Fill;
    forall gaps | Reaches(a + "*" + b, anchored, gaps, target)
      ensures exists gap :: FillsGap(a, b, anchored, gap, target)
    {
      OneStar(a, b, [""]);
      OneStar(a, b, gaps);
      assert FillsGap(a, b, anchored, gaps[0], target);
    }
    forall gap | FillsGap(a, b, anchored, gap, target)
      ensures exists gaps :: Reaches(a + "*" + b, anchored, gaps, target)
    {
      OneStar(a, b, [gap]);
      assert Reaches(a + "*" + b, anchored, [gap], target);
    }
  }

  /** The texts around a gap without newlines begin the target, or are all of it. */
  predicate FillsGap(a: string, b: string, whole: bool, gap: string, target: string) {
    '\n' !in gap && if whole then target == a + gap + b else a + gap + b <= target
  }

  /** What the rules that sites use match: a text is a prefix of the target, with a dollar
      at its end it is the whole target, and a star stands for any text on one line. */
  lemma RulesByShape(a: string, b: string, target: string)
    requires PlainText(a) && PlainText(b)
    ensures a != "" ==> (RuleMatch(a, target) <==> a <= target)
    ensures RuleMatch(a + "$", target) <==> target == a
    ensures RuleMatch(a + "*" + b, target) <==> exists gap :: FillsGap(a, b, false, gap, target)
    ensures RuleMatch(a + "*" + b + "$", target) <==> exists gap :: FillsGap(a, b, true, gap, target)
  {
    hide RuleMatch, Reaches, FillsGap;
    RuleMatchMeaning(a, target);
    PrefixMeaning(a, target);
    EndShape(a, target);
    RuleMatchMeaning(a + "$", target);
    StarShape(a, b);
    OneGap(a, b, false, target);
    OneGap(a, b, true, target);
    RuleMatchMeaning(a + "*" + b, target);
    RuleMatchMeaning(a + "*" + b + "$", target);
  }

  lemma EndShape(a: string, target: string)
    requires PlainText(a)
    ensures Meaning(a + "$", target) <==> target == a
  {
    BodyOfDollar(a);
    NoStars(a);
    if target == a {
      assert Reaches(a, true, [], target);
    }
  }

  lemma BodyOfDollar(s: string)
    ensures Body(s + "$") == s && Anchored(s + "$")
  {
    assert (s + "$")[|s|..] == "$" && (s + "$")[..|s|] == s;
  }

  lemma StarShape(a: string, b: string)
    requires PlainText(a) && PlainText(b)
    ensures Body(a + "*" + b) == a + "*" + b && !Anchored(a + "*" + b)
    ensures Body(a + "*" + b + "$") == a + "*" + b && Anchored(a + "*" + b + "$")
  {
    BodyOfDollar(a + "*" + b);
    var rule := a + "*" + b;
    assert rule[|rule| - 1..][0] == rule[|rule| - 1] == if b == "" then '*' else b[|b| - 1];
  }

  method MatchRule(rule: string, target: string) returns (matched: bool)
    ensures matched <==> rule != "" && Meaning(rule, target)
  {
    hide Meaning, Search, ParseRegex, RegexText;
    RuleMatchMeaning(rule, target);
    if rule == "" {
      return false;
    }
    if '*' !in rule && '$' !in rule {
      return HasPrefix(target, rule);
    }
    var text := BuildRegex(rule);
    match ParseRegex(text) {
      case None => return false;
      case Some(nodes) => return Search(nodes, target);
    }
  }
}
