/** robots.txt: the grouping parser and its exact inverse. */
module RobotsParse {
  import opened Text

  datatype Group = Group(agents: seq<string>, allow: seq<string>, disallow: seq<string>, hasRule: bool)

  /** What a line means to the parser. */
  datatype Directive = Ignored | Agent(value: string) | Allow(value: string) | Disallow(value: string) | Other

  function WithoutComment(value: string): string {
    var n := IndexOf(value, '#');
    if n < |value| then TrimSpace(value[..n]) else value
  }

  function ReadLine(raw: string): Directive {
    var line := TrimSpace(TrimSuffix(raw, "\r"));
    if line == "" || HasPrefix(line, "#") then Ignored
    else
      match Cut(line, ':')
      case None => Ignored
      case Some((before, after)) =>
        var key := Lower(TrimSpace(before));
        var value := WithoutComment(TrimSpace(after));
        if key == "user-agent" then if value == "" then Ignored else Agent(value)
        else if key == "allow" then Allow(value)
        else if key == "disallow" then Disallow(value)
        else Other
  }

  function Last(groups: seq<Group>): Group
    requires groups != []
  {
    groups[|groups| - 1]
  }

  /** Change the group being filled, which is the last one. */
  function WithLast(groups: seq<Group>, group: Group): seq<Group>
    requires groups != []
  {
    groups[..|groups| - 1] + [group]
  }

  function Add(groups: seq<Group>, d: Directive): seq<Group> {
    if d.Ignored? then groups
    else if groups == [] then if d.Agent? then [Group([d.value], [], [], false)] else []
    else
      var last := Last(groups);
      match d
      case Agent(value) =>
        if last.hasRule then groups + [Group([value], [], [], false)]
        else WithLast(groups, last.(agents := last.agents + [value]))
      case Allow(value) => WithLast(groups, last.(allow := last.allow + [value], hasRule := true))
      case Disallow(value) => WithLast(groups, last.(disallow := last.disallow + [value], hasRule := true))
      case _ => WithLast(groups, last.(hasRule := true))
  }

  function AddLines(groups: seq<Group>, lines: seq<string>): seq<Group>
    decreases |lines|
  {
    if lines == [] then groups else AddLines(Add(groups, ReadLine(lines[0])), lines[1..])
  }

  function Parse(text: string): seq<Group> {
    AddLines([], Split(text, '\n'))
  }

  lemma {:induction false} AddLinesAppend(groups: seq<Group>, a: seq<string>, b: seq<string>)
    ensures AddLines(groups, a + b) == AddLines(AddLines(groups, a), b)
    decreases |a|
  {
    if a == [] {
      assert a + b == b;
    } else {
      assert (a + b)[1..] == a[1..] + b;
      AddLinesAppend(Add(groups, ReadLine(a[0])), a[1..], b);
    }
  }

  /** The parser as it runs: `current` is the position of the group being filled. */
  method ParseRobots(body: string) returns (groups: seq<Group>)
    ensures groups == Parse(body)
  {
    hide TrimSpace, TrimSuffix, IndexOf, Cut, Lower, HasPrefix, Split;
    groups := [];
    var current := -1;
    var lines := Split(body, '\n');
    for n := 0 to |lines|
      invariant groups == AddLines([], lines[..n])
      invariant current == |groups| - 1
    {
      assert lines[..n + 1] == lines[..n] + [lines[n]];
      AddLinesAppend([], lines[..n], [lines[n]]);
      assert AddLines(groups, [lines[n]]) == AddLines(Add(groups, ReadLine(lines[n])), []);

      var line := TrimSpace(TrimSuffix(lines[n], "\r"));
      if line == "" || HasPrefix(line, "#") {
        continue;
      }
      var cut := Cut(line, ':');
      if cut.None? {
        continue;
      }
      var key := Lower(TrimSpace(cut.value.0));
      var value := TrimSpace(cut.value.1);
      var i := IndexOf(value, '#');
      if i < |value| {
        value := TrimSpace(value[..i]);
      }
      if key == "user-agent" {
        if value == "" {
          continue;
        }
        if current >= 0 && !groups[current].hasRule {
          groups := groups[current := groups[current].(agents := groups[current].agents + [value])];
          continue;
        }
        groups := groups + [Group([value], [], [], false)];
        current := |groups| - 1;
      } else if current >= 0 {
        var group := groups[current];
        if key == "allow" {
          group := group.(allow := group.allow + [value]);
        } else if key == "disallow" {
          group := group.(disallow := group.disallow + [value]);
        }
        groups := groups[current := group.(hasRule := true)];
      }
    }
    assert lines[..|lines|] == lines;
  }

  /** A blank line, a comment line, a line without a colon. */
  predicate Silent(line: string) {
    var text := TrimSpace(TrimSuffix(line, "\r"));
    text == "" || text[0] == '#' || ':' !in text
  }

  /** Silent lines may be left out anywhere. */
  lemma SilentLinesDoNotMatter(before: seq<string>, line: string, after: seq<string>)
    requires Silent(line)
    ensures AddLines([], before + [line] + after) == AddLines([], before + after)
  {
    SilentIsIgnored(line);
    hide ReadLine, Silent;
    AddLinesAppend([], before + [line], after);
    AddLinesAppend([], before, [line]);
    AddLinesAppend([], before, after);
    var groups := AddLines([], before);
    assert AddLines(groups, [line]) == AddLines(Add(groups, ReadLine(line)), []);
  }

  lemma SilentIsIgnored(line: string)
    requires Silent(line)
    ensures ReadLine(line) == Ignored
  {
    hide TrimSpace, TrimSuffix, WithoutComment, Lower;
    var text := TrimSpace(TrimSuffix(line, "\r"));
    if text != "" && ':' !in text {
      assert IndexOf(text, ':') == |text|;
    }
  }

  // ---------------------------------------------------------- what a line says

  lemma TrimForgetsCr(raw: string)
    ensures TrimSpace(TrimSuffix(raw, "\r")) == TrimSpace(raw)
  {
    hide TrimSpace;
    if HasSuffix(raw, "\r") {
      var s := raw[..|raw| - 1];
      var l, r := TrimParts(s);
      TrimIsTrimmed(s);
      assert IsSpace('\r');
      TrimAround(l, TrimSpace(s), r + "\r");
      assert raw == s + "\r" == l + TrimSpace(s) + (r + "\r");
    }
  }

  /** The value of a line, with blanks around it and a comment after it, or without. */
  lemma CommentIsCut(gap: string, value: string, tail: string, comment: string)
    requires Blanks(gap) && Blanks(tail) && Trimmed(value) && '#' !in value
    requires comment == "" || (comment[0] == '#' && Trimmed(comment))
    ensures WithoutComment(TrimSpace(gap + value + tail + comment)) == value
  {
    BlanksAreSpaces(gap);
    BlanksAreSpaces(tail);
    if comment == "" {
      assert gap + value + tail + comment == gap + value + tail;
      TrimAround(gap, value, tail);
      assert IndexOf(value, '#') == |value|;
    } else if value == "" {
      assert gap + value + tail + comment == (gap + tail) + comment + "";
      TrimAround(gap + tail, comment, "");
      assert comment[..0] == "" && TrimSpace("") == "";
    } else {
      hide TrimSpace, Blanks;
      var whole := value + tail + comment;
      assert gap + value + tail + comment == gap + whole + "";
      assert whole[0] == value[0] && whole[|whole| - 1] == comment[|comment| - 1];
      TrimAround(gap, whole, "");
      NoHash(tail);
      IndexOfAfter(value + tail, '#', comment[1..]);
      assert whole == value + tail + ['#'] + comment[1..];
      assert whole[..|value + tail|] == "" + value + tail;
      TrimAround("", value, tail);
    }
  }

  lemma NoHash(blanks: string)
    requires Blanks(blanks)
    ensures '#' !in blanks && ':' !in blanks
  {
  }

  /** A whole line, however it is spaced and whatever the case of its key, with a comment or
      a carriage return at its end, or without: it says what its key and its value say. */
  lemma LineMeaning(
    lead: string, name: string, mid: string, gap: string, value: string, tail: string, comment: string, end: string)
    requires Blanks(lead) && Blanks(mid) && Blanks(gap) && Blanks(tail) && (end == "" || end == "\r")
    requires Trimmed(name) && name != "" && name[0] != '#' && ':' !in name
    requires Trimmed(value) && '#' !in value
    requires comment == "" || (comment[0] == '#' && Trimmed(comment))
    ensures var d := ReadLine(lead + name + mid + ":" + gap + value + tail + comment + end);
            && (SameButCase(name, "User-agent") ==> d == if value == "" then Ignored else Agent(value))
            && (SameButCase(name, "Allow") ==> d == Allow(value))
            && (SameButCase(name, "Disallow") ==> d == Disallow(value))
            && (SameButCase(name, "Crawl-delay") || SameButCase(name, "Sitemap") ==> d == Other)
  {
    hide Blanks, Trimmed, ReadLine, WithoutComment, TrimSpace, SameButCase, IsSpace;
    var raw := lead + name + mid + ":" + gap + value + tail + comment + end;
    var z, r := LineParts(gap, value, tail, comment);
    LineShape(lead, name, mid, gap + value + tail + comment, z, r, end);
    assert raw == lead + name + mid + ":" + (gap + value + tail + comment) + end;
    SpacesEnd(r, end);
    CoreOfLine(lead, name, mid, z, r + end, raw);
    ReadCore(raw, name, mid, z);
    KeysInAnyCase(name);
  }

  lemma LineShape(lead: string, name: string, mid: string, rest: string, z: string, r: string, end: string)
    requires rest == z + r
    ensures lead + name + mid + ":" + rest + end == lead + name + mid + ":" + z + (r + end)
  {
  }

  lemma SpacesEnd(r: string, end: string)
    requires Spaces(r) && (end == "" || end == "\r")
    ensures Spaces(r + end)
  {
    assert IsSpace('\r');
    hide IsSpace;
  }

  lemma ReadCore(raw: string, name: string, mid: string, z: string)
    requires Blanks(mid) && Trimmed(name) && name != "" && name[0] != '#' && ':' !in name
    requires TrimSpace(TrimSuffix(raw, "\r")) == name + mid + [':'] + z
    ensures var key, value := Lower(name), WithoutComment(TrimSpace(z));
            ReadLine(raw) ==
              if key == "user-agent" then if value == "" then Ignored else Agent(value)
              else if key == "allow" then Allow(value)
              else if key == "disallow" then Disallow(value) else Other
  {
    hide Trimmed, Lower, WithoutComment, TrimSpace, TrimSuffix, IndexOf;
    NoHash(mid);
    CutAfter(name + mid, ':', z);
    BlanksAreSpaces(mid);
    TrimAround("", name, mid);
    assert "" + name + mid == name + mid;
    assert (name + mid + [':'] + z)[0] == name[0];
  }

  /** What is left of the part after the colon when the line is trimmed. */
  lemma LineParts(gap: string, value: string, tail: string, comment: string) returns (z: string, r: string)
    requires Blanks(gap) && Blanks(tail) && Trimmed(value) && '#' !in value
    requires comment == "" || (comment[0] == '#' && Trimmed(comment))
    ensures gap + value + tail + comment == z + r && Spaces(r)
    ensures z == "" || !IsSpace(z[|z| - 1])
    ensures WithoutComment(TrimSpace(z)) == value
  {
    BlanksAreSpaces(gap);
    BlanksAreSpaces(tail);
    hide TrimSpace, WithoutComment, IndexOf;
    if comment != "" {
      z, r := gap + value + tail + comment, "";
      CommentIsCut(gap, value, tail, comment);
    } else if value != "" {
      z, r := gap + value, tail;
      CommentIsCut(gap, value, "", "");
      assert gap + value + "" + "" == z;
    } else {
      z, r := "", gap + tail;
      CommentIsCut("", "", "", "");
      assert "" + "" + "" + "" == "";
    }
  }

  lemma CoreOfLine(lead: string, name: string, mid: string, z: string, r: string, raw: string)
    requires Blanks(lead) && Trimmed(name) && name != "" && (z == "" || !IsSpace(z[|z| - 1]))
    requires Spaces(r) && raw == lead + name + mid + ":" + z + r
    ensures TrimSpace(TrimSuffix(raw, "\r")) == name + mid + [':'] + z
  {
    var core := name + mid + [':'] + z;
    BlanksAreSpaces(lead);
    CoreEnds(name, mid, z);
    hide TrimSpace, IsSpace, Blanks, TrimSuffix, Trimmed;
    TrimForgetsCr(raw);
    assert raw == lead + core + r;
    TrimAround(lead, core, r);
  }

  lemma CoreEnds(name: string, mid: string, z: string)
    requires Trimmed(name) && name != "" && (z == "" || !IsSpace(z[|z| - 1]))
    ensures var core := name + mid + [':'] + z; !IsSpace(core[0]) && !IsSpace(core[|core| - 1])
  {
    assert !IsSpace(':');
    hide IsSpace;
    var core := name + mid + [':'] + z;
    assert core[0] == name[0] && core[|core| - 1] == if z == "" then ':' else z[|z| - 1];
  }

  lemma KeysInAnyCase(name: string)
    ensures SameButCase(name, "User-agent") ==> Lower(name) == "user-agent"
    ensures SameButCase(name, "Allow") ==> Lower(name) == "allow"
    ensures SameButCase(name, "Disallow") ==> Lower(name) == "disallow"
    ensures SameButCase(name, "Crawl-delay") ==> Lower(name) == "crawl-delay"
    ensures SameButCase(name, "Sitemap") ==> Lower(name) == "sitemap"
  {
    hide SameButCase, Lower;
    LowerTags();
    assert Lower("Sitemap") == "sitemap" by { LowerSitemap(); }
    forall tag | SameButCase(name, tag) ensures Lower(name) == Lower(tag) {
      LowerIgnoresCase(name, tag);
    }
  }

  lemma LowerSitemap()
    ensures Lower("Sitemap") == "sitemap"
  {
  }

  // ------------------------------------------------------- the parser's image

  predicate Clean(value: string) {
    Trimmed(value) && '#' !in value && '\n' !in value
  }

  predicate GoodGroup(g: Group) {
    && g.agents != []
    && (forall a :: a in g.agents ==> a != "" && Clean(a))
    && (forall v :: v in g.allow ==> Clean(v))
    && (forall v :: v in g.disallow ==> Clean(v))
    && (g.allow + g.disallow != [] ==> g.hasRule)
  }

  /** Agents and values are clean, and a group that another one follows has seen a
      directive. */
  predicate WellFormed(groups: seq<Group>) {
    && (forall i :: 0 <= i < |groups| ==> GoodGroup(groups[i]))
    && (forall i :: 0 <= i < |groups| - 1 ==> groups[i].hasRule)
  }

  lemma ValueIsClean(after: string)
    requires '\n' !in after
    ensures Clean(WithoutComment(TrimSpace(after)))
  {
    TrimIsTrimmed(after);
    var value := TrimSpace(after);
    var n := IndexOf(value, '#');
    TrimIsTrimmed(value[..n]);
    hide TrimSpace;
    if n == |value| {
      assert value == value[..n];
    }
  }

  lemma AfterColonIsOneLine(raw: string)
    requires '\n' !in raw
    ensures var cut := Cut(TrimSpace(TrimSuffix(raw, "\r")), ':'); cut.Some? ==> '\n' !in cut.value.1
  {
    hide TrimSpace, TrimSuffix, Cut;
    PiecesLack(raw, '\n');
    PiecesLack(TrimSuffix(raw, "\r"), '\n');
    PiecesLack(TrimSpace(TrimSuffix(raw, "\r")), '\n');
  }

  lemma ReadLineIsClean(raw: string)
    requires '\n' !in raw
    ensures var d := ReadLine(raw);
            && (d.Agent? ==> d.value != "" && Clean(d.value))
            && (d.Allow? || d.Disallow? ==> Clean(d.value))
  {
    hide TrimSpace, TrimSuffix, WithoutComment, IndexOf, Cut, Lower, Clean, HasPrefix;
    AfterColonIsOneLine(raw);
    var cut := Cut(TrimSpace(TrimSuffix(raw, "\r")), ':');
    if cut.Some? {
      ValueIsClean(cut.value.1);
    }
  }

  lemma AddKeeps(groups: seq<Group>, raw: string)
    requires WellFormed(groups) && '\n' !in raw
    ensures WellFormed(Add(groups, ReadLine(raw)))
  {
    hide ReadLine, Clean;
    ReadLineIsClean(raw);
    var d := ReadLine(raw);
    var next := Add(groups, d);
    if groups != [] && !d.Ignored? {
      assert GoodGroup(Last(groups)) && |groups| <= |next| <= |groups| + 1;
      assert forall i :: 0 <= i < |groups| - 1 ==> next[i] == groups[i];
    }
  }

  lemma {:induction false} AddLinesKeeps(groups: seq<Group>, lines: seq<string>)
    requires WellFormed(groups)
    requires forall k :: 0 <= k < |lines| ==> '\n' !in lines[k]
    ensures WellFormed(AddLines(groups, lines))
    decreases |lines|
  {
    hide WellFormed, Add, ReadLine;
    if lines != [] {
      AddKeeps(groups, lines[0]);
      AddLinesKeeps(Add(groups, ReadLine(lines[0])), lines[1..]);
    }
  }

  /** Whatever the text, the parser returns a well-formed list of groups. */
  lemma ParseIsWellFormed(text: string)
    ensures WellFormed(Parse(text))
  {
    SplitPieces(text, '\n');
    AddLinesKeeps([], Split(text, '\n'));
  }

  // -------------------------------------------------------------- the printer

  function Tagged(tag: string, values: seq<string>): seq<string> {
    if values == [] then [] else [tag + ": " + values[0]] + Tagged(tag, values[1..])
  }

  /** The line that closes a group which has no Allow and no Disallow. */
  function Closing(g: Group): seq<string> {
    if g.hasRule && g.allow + g.disallow == [] then Tagged("Crawl-delay", [""]) else []
  }

  function GroupLines(g: Group): seq<string> {
    Tagged("User-agent", g.agents) + Tagged("Allow", g.allow) + Tagged("Disallow", g.disallow) + Closing(g)
  }

  function AllLines(groups: seq<Group>): seq<string> {
    if groups == [] then [] else GroupLines(groups[0]) + AllLines(groups[1..])
  }

  function Unlines(lines: seq<string>): string {
    if lines == [] then "" else lines[0] + "\n" + Unlines(lines[1..])
  }

  function Render(groups: seq<Group>): string {
    Unlines(AllLines(groups))
  }

  lemma {:induction false} SplitUnlines(lines: seq<string>)
    requires forall k :: 0 <= k < |lines| ==> '\n' !in lines[k]
    ensures Split(Unlines(lines), '\n') == lines + [""]
  {
    hide Split;
    if lines == [] {
      SplitNothing();
    } else {
      SplitAfter(lines[0], '\n', Unlines(lines[1..]));
      SplitUnlines(lines[1..]);
      assert ['\n'] == "\n" && lines == [lines[0]] + lines[1..];
    }
  }

  lemma SplitNothing()
    ensures Split(Unlines([]), '\n') == [""]
  {
  }

  lemma TrimTagged(tag: string, value: string)
    requires tag != "" && Trimmed(tag) && Trimmed(value)
    ensures var raw := tag + ": " + value;
            TrimSpace(TrimSuffix(raw, "\r")) == tag + [':'] + if value == "" then "" else " " + value
  {
    var raw := tag + ": " + value;
    assert raw[|raw| - 1] == if value == "" then ' ' else value[|value| - 1];
    assert raw[0] == tag[0];
    assert TrimSuffix(raw, "\r") == raw;
    assert TrimLeft(raw) == raw;
    if value == "" {
      var line := tag + [':'];
      assert raw[..|raw| - 1] == line;
      assert TrimRight(line) == line;
    }
  }

  /** Reading back one printed line. */
  lemma ReadTagged(tag: string, value: string)
    requires Clean(value)
    requires tag != "" && Trimmed(tag) && ':' !in tag && tag[0] != '#'
    ensures var d := ReadLine(tag + ": " + value);
            var key := Lower(tag);
            d == if key == "user-agent" then if value == "" then Ignored else Agent(value)
                 else if key == "allow" then Allow(value)
                 else if key == "disallow" then Disallow(value) else Other
  {
    var after := if value == "" then "" else " " + value;
    TrimTagged(tag, value);
    CutAfter(tag, ':', after);
    TrimOfTrimmed(tag);
    TrimBlankPrefix(value);
    TrimOfTrimmed(value);
    assert IndexOf(value, '#') == |value|;
    hide TrimSpace, TrimSuffix, Cut, Lower, IndexOf;
    assert !HasPrefix(tag + [':'] + after, "#");
  }

  lemma LowerTags()
    ensures Lower("User-agent") == "user-agent"
    ensures Lower("Allow") == "allow"
    ensures Lower("Disallow") == "disallow"
    ensures Lower("Crawl-delay") == "crawl-delay"
  {
  }

  lemma TagsAreReadable()
    ensures forall tag :: tag in ["User-agent", "Allow", "Disallow", "Crawl-delay"] ==>
              tag != "" && Trimmed(tag) && ':' !in tag && tag[0] != '#'
  {
  }

  lemma ReadAgent(value: string)
    requires Clean(value) && value != ""
    ensures ReadLine("User-agent" + ": " + value) == Agent(value)
  {
    hide ReadLine, Lower, Trimmed, Clean;
    TagsAreReadable();
    LowerTags();
    ReadTagged("User-agent", value);
  }

  lemma ReadRule(value: string)
    requires Clean(value)
    ensures ReadLine("Allow" + ": " + value) == Allow(value)
    ensures ReadLine("Disallow" + ": " + value) == Disallow(value)
    ensures ReadLine("Crawl-delay" + ": " + value) == Other
  {
    hide ReadLine, Lower, Trimmed, Clean;
    TagsAreReadable();
    LowerTags();
    ReadTagged("Allow", value);
    ReadTagged("Disallow", value);
    ReadTagged("Crawl-delay", value);
  }

  lemma {:induction false} ReadAgents(groups: seq<Group>, agents: seq<string>)
    requires groups != [] && !Last(groups).hasRule
    requires forall a :: a in agents ==> a != "" && Clean(a)
    ensures AddLines(groups, Tagged("User-agent", agents)) ==
            WithLast(groups, Last(groups).(agents := Last(groups).agents + agents))
    decreases |agents|
  {
    hide ReadLine, Clean;
    if agents == [] {
      assert Last(groups).agents + agents == Last(groups).agents;
      assert WithLast(groups, Last(groups)) == groups;
    } else {
      assert agents[0] in agents && forall a :: a in agents[1..] ==> a in agents;
      ReadAgent(agents[0]);
      var next := WithLast(groups, Last(groups).(agents := Last(groups).agents + [agents[0]]));
      assert Add(groups, Agent(agents[0])) == next;
      ReadAgents(next, agents[1..]);
      assert Last(groups).agents + [agents[0]] + agents[1..] == Last(groups).agents + agents;
    }
  }

  lemma ReadNewGroup(groups: seq<Group>, agents: seq<string>)
    requires groups == [] || Last(groups).hasRule
    requires agents != [] && forall a :: a in agents ==> a != "" && Clean(a)
    ensures AddLines(groups, Tagged("User-agent", agents)) == groups + [Group(agents, [], [], false)]
  {
    hide ReadLine, Clean;
    assert agents[0] in agents && forall a :: a in agents[1..] ==> a in agents;
    ReadAgent(agents[0]);
    var next := groups + [Group([agents[0]], [], [], false)];
    assert Last(next) == Group([agents[0]], [], [], false);
    ReadAgents(next, agents[1..]);
    assert [agents[0]] + agents[1..] == agents;
  }

  lemma {:induction false} ReadAllows(groups: seq<Group>, values: seq<string>)
    requires groups != []
    requires forall v :: v in values ==> Clean(v)
    ensures AddLines(groups, Tagged("Allow", values)) ==
            WithLast(groups, Last(groups).(allow := Last(groups).allow + values,
                                           hasRule := Last(groups).hasRule || values != []))
    decreases |values|
  {
    hide ReadLine, Clean;
    var last := Last(groups);
    if values == [] {
      assert last.allow + values == last.allow;
      assert WithLast(groups, last) == groups;
    } else {
      ReadRule(values[0]);
      ReadAllows(WithLast(groups, last.(allow := last.allow + [values[0]], hasRule := true)), values[1..]);
      assert last.allow + [values[0]] + values[1..] == last.allow + values;
    }
  }

  lemma {:induction false} ReadDisallows(groups: seq<Group>, values: seq<string>)
    requires groups != []
    requires forall v :: v in values ==> Clean(v)
    ensures AddLines(groups, Tagged("Disallow", values)) ==
            WithLast(groups, Last(groups).(disallow := Last(groups).disallow + values,
                                           hasRule := Last(groups).hasRule || values != []))
    decreases |values|
  {
    hide ReadLine, Clean;
    var last := Last(groups);
    if values == [] {
      assert last.disallow + values == last.disallow;
      assert WithLast(groups, last) == groups;
    } else {
      ReadRule(values[0]);
      ReadDisallows(WithLast(groups, last.(disallow := last.disallow + [values[0]], hasRule := true)), values[1..]);
      assert last.disallow + [values[0]] + values[1..] == last.disallow + values;
    }
  }

  lemma ReadGroupRules(groups: seq<Group>, g: Group)
    requires GoodGroup(g)
    ensures var a := groups + [Group(g.agents, [], [], false)];
            var b := groups + [Group(g.agents, g.allow, [], g.allow != [])];
            var c := groups + [Group(g.agents, g.allow, g.disallow, g.allow + g.disallow != [])];
            && AddLines(a, Tagged("Allow", g.allow)) == b
            && AddLines(b, Tagged("Disallow", g.disallow)) == c
  {
    hide Clean, AddLines, Add, Tagged;
    var a := groups + [Group(g.agents, [], [], false)];
    ReadAllows(a, g.allow);
    assert [] + g.allow == g.allow && [] + g.disallow == g.disallow;
    var b := groups + [Group(g.agents, g.allow, [], g.allow != [])];
    assert WithLast(a, Last(b)) == b;
    ReadDisallows(b, g.disallow);
  }

  lemma AddOneLine(groups: seq<Group>, line: string)
    ensures AddLines(groups, []) == groups
    ensures AddLines(groups, [line]) == Add(groups, ReadLine(line))
  {
    hide Add, ReadLine;
    assert [line][1..] == [];
  }

  lemma CloseGroup(groups: seq<Group>, g: Group)
    ensures Add(groups + [g.(hasRule := false)], Other) == groups + [g.(hasRule := true)]
  {
  }

  lemma ReadClosing(groups: seq<Group>, g: Group)
    requires GoodGroup(g)
    ensures AddLines(groups + [g.(hasRule := g.allow + g.disallow != [])], Closing(g)) == groups + [g]
  {
    assert Clean("");
    ReadRule("");
    hide ReadLine, Clean, AddLines, Add;
    var line := "Crawl-delay" + ": " + "";
    AddOneLine(groups + [g.(hasRule := g.allow + g.disallow != [])], line);
    CloseGroup(groups, g);
    assert Tagged("Crawl-delay", [""]) == [line] by { OneTagged("Crawl-delay", ""); }
  }

  lemma OneTagged(tag: string, value: string)
    ensures Tagged(tag, [value]) == [tag + ": " + value]
  {
    assert [value][1..] == [];
  }

  lemma ReadGroup(groups: seq<Group>, g: Group)
    requires (groups == [] || Last(groups).hasRule) && GoodGroup(g)
    ensures AddLines(groups, GroupLines(g)) == groups + [g]
  {
    hide AddLines, Tagged, Closing, Last, Clean;
    var agents := Tagged("User-agent", g.agents);
    var allow, disallow := Tagged("Allow", g.allow), Tagged("Disallow", g.disallow);
    AddLinesAppend(groups, agents + allow + disallow, Closing(g));
    AddLinesAppend(groups, agents + allow, disallow);
    AddLinesAppend(groups, agents, allow);
    ReadNewGroup(groups, g.agents);
    ReadGroupRules(groups, g);
    ReadClosing(groups, g);
  }

  lemma AddNoLines(groups: seq<Group>)
    ensures AddLines(groups, []) == groups
  {
  }

  lemma {:induction false} ReadAll(groups: seq<Group>, more: seq<Group>)
    requires groups == [] || Last(groups).hasRule
    requires WellFormed(more)
    ensures AddLines(groups, AllLines(more)) == groups + more
    decreases |more|
  {
    hide GoodGroup, GroupLines, AddLines;
    if more == [] {
      AddNoLines(groups);
      assert groups + more == groups;
    } else {
      AddLinesAppend(groups, GroupLines(more[0]), AllLines(more[1..]));
      ReadGroup(groups, more[0]);
      var next := groups + [more[0]];
      assert Last(next) == more[0];
      if |more| == 1 {
        AddNoLines(next);
        assert AllLines(more[1..]) == [];
        assert next == groups + more;
      } else {
        assert forall i :: 0 <= i < |more[1..]| ==> more[1..][i] == more[i + 1];
        ReadAll(next, more[1..]);
        assert next + more[1..] == groups + more;
      }
    }
  }

  lemma {:induction false} TaggedHasNoNewline(tag: string, values: seq<string>)
    requires '\n' !in tag && forall v :: v in values ==> '\n' !in v
    ensures forall k :: 0 <= k < |Tagged(tag, values)| ==> '\n' !in Tagged(tag, values)[k]
    decreases |values|
  {
    if values != [] {
      TaggedHasNoNewline(tag, values[1..]);
    }
  }

  lemma {:induction false} LinesHaveNoNewline(groups: seq<Group>)
    requires WellFormed(groups)
    ensures forall k :: 0 <= k < |AllLines(groups)| ==> '\n' !in AllLines(groups)[k]
    decreases |groups|
  {
    if groups != [] {
      var g := groups[0];
      TaggedHasNoNewline("User-agent", g.agents);
      TaggedHasNoNewline("Allow", g.allow);
      TaggedHasNoNewline("Disallow", g.disallow);
      TaggedHasNoNewline("Crawl-delay", [""]);
      LinesHaveNoNewline(groups[1..]);
    }
  }

  /** Parsing undoes printing exactly on the well-formed lists. */
  lemma ParseUndoesRender(groups: seq<Group>)
    ensures WellFormed(groups) <==> Parse(Render(groups)) == groups
  {
    if WellFormed(groups) {
      var lines := AllLines(groups);
      LinesHaveNoNewline(groups);
      SplitUnlines(lines);
      AddLinesAppend([], lines, [""]);
      ReadAll([], groups);
      assert [] + groups == groups;
      assert ReadLine("") == Ignored;
      assert AddLines(groups, [""]) == AddLines(groups, []);
    } else {
      ParseIsWellFormed(Render(groups));
    }
  }

  /** The lists that parsing can return are the well-formed ones. */
  lemma ParsedListsAreWellFormed(groups: seq<Group>)
    ensures WellFormed(groups) <==> exists text :: Parse(text) == groups
  {
    hide WellFormed, Parse, Render;
    ParseUndoesRender(groups);
    forall text ensures WellFormed(Parse(text)) {
      ParseIsWellFormed(text);
    }
  }
}
