/** From the text of a message to its links: extraction of URLs, the crawl within the
    budget, and the links of the message after a creation or an edit. */
module EmbedLinks {
  import opened EmbedBudget
  import opened Sizes
  import opened Text
  import opened Wrappers

  // ------------------------------------------------------------------ extraction

  predicate Punctuation(c: char) {
    c in ".,;!?"
  }

  function Occurrences(s: string, c: char): nat {
    if s == "" then 0 else Occurrences(s[..|s| - 1], c) + if s[|s| - 1] == c then 1 else 0
  }

  /** Ends in nothing the stripping would cut. */
  predicate Tidy(s: string) {
    s == "" || (!Punctuation(s[|s| - 1]) && !(s[|s| - 1] == ')' && Occurrences(s, ')') > Occurrences(s, '(')))
  }

  /** The longest tidy beginning. */
  function Stripped(s: string): string {
    if Tidy(s) then s else Stripped(s[..|s| - 1])
  }

  lemma {:induction false} StrippedIsLongest(s: string)
    ensures Stripped(s) <= s && Tidy(Stripped(s))
    ensures forall n :: |Stripped(s)| < n <= |s| ==> !Tidy(s[..n])
    decreases |s|
  {
    if Tidy(s) {
    } else {
      var t := s[..|s| - 1];
      StrippedIsLongest(t);
      forall n | |Stripped(s)| < n <= |s| ensures !Tidy(s[..n]) {
        if n < |s| {
          assert t[..n] == s[..n];
        } else {
          assert s[..n] == s;
        }
      }
    }
  }

  lemma {:induction false} OccurrencesCount(s: string, c: char)
    ensures Occurrences(s, c) == multiset(s)[c]
    decreases |s|
  {
    if s != "" {
      OccurrencesCount(s[..|s| - 1], c);
      assert s == s[..|s| - 1] + [s[|s| - 1]];
    }
  }

  /** A tidy ending, character by character. */
  lemma TidyMeaning(s: string)
    requires s != ""
    ensures var last := s[|s| - 1];
            Tidy(s) <==> && last != '.' && last != ',' && last != ';' && last != '!' && last != '?'
                         && (last == ')' ==> multiset(s)[')'] <= multiset(s)['('])
  {
    OccurrencesCount(s, ')');
    OccurrencesCount(s, '(');
    hide Occurrences;
    var last := s[|s| - 1];
    assert Punctuation(last) <==> last in ['.', ',', ';', '!', '?'];
  }

  /** A colon at the end is never cut, although the source's comment lists it. */
  lemma ColonStays(s: string)
    requires s != "" && s[|s| - 1] == ':'
    ensures Stripped(s) == s
  {
  }

  /** The two cuts of the source, repeated until neither applies. */
  method StripTrailingPunctuation(url: string) returns (s: string)
    ensures s == Stripped(url)
  {
    s := url;
    while true
      invariant Stripped(s) == Stripped(url)
      decreases |s|
    {
      var trimmed := s;
      while trimmed != "" && Punctuation(trimmed[|trimmed| - 1])
        invariant Stripped(trimmed) == Stripped(url) && trimmed <= s
        decreases |trimmed|
      {
        trimmed := trimmed[..|trimmed| - 1];
      }
      if trimmed != s {
        s := trimmed;
        continue;
      }
      if HasSuffix(s, ")") && Occurrences(s, ')') > Occurrences(s, '(') {
        s := s[..|s| - 1];
        continue;
      }
      assert Tidy(s) by {
        if s != "" {
          assert s[|s| - 1..] == [s[|s| - 1]];
        }
      }
      return s;
    }
  }

  /** What a match of the URL pattern becomes; nothing when it is all punctuation. */
  function Cleaned(m: string): Option<string> {
    var s := Stripped(m);
    if s == "" then None
    else if HasPrefix(s, "http://") || HasPrefix(s, "https://") then Some(s)
    else Some("https://" + s)
  }

  /** The distinct cleaned matches, in the order in which they first appear. */
  function Firsts(matches: seq<string>): seq<string> {
    if matches == [] then []
    else
      var rest, c := Firsts(matches[..|matches| - 1]), Cleaned(matches[|matches| - 1]);
      if c.None? || c.value in rest then rest else rest + [c.value]
  }

  function Cap(max: int): nat {
    if max <= 0 then 2 else max
  }

  function Urls(matches: seq<string>, max: int): seq<string> {
    var all := Firsts(matches);
    if |all| <= Cap(max) then all else all[..Cap(max)]
  }

  lemma {:induction false} FirstsGrow(matches: seq<string>, n: nat)
    requires n <= |matches|
    ensures Firsts(matches[..n]) <= Firsts(matches)
    decreases |matches|
  {
    if n < |matches| {
      FirstsGrow(matches[..|matches| - 1], n);
      assert matches[..|matches| - 1][..n] == matches[..n];
    } else {
      assert matches[..n] == matches;
    }
  }

  lemma {:induction false} FirstsAreDistinct(matches: seq<string>)
    ensures forall i, j :: 0 <= i < j < |Firsts(matches)| ==> Firsts(matches)[i] != Firsts(matches)[j]
    ensures forall u :: u in Firsts(matches) <==> exists k :: 0 <= k < |matches| && Cleaned(matches[k]) == Some(u)
    decreases |matches|
  {
    hide Cleaned;
    if matches != [] {
      var n := |matches| - 1;
      FirstsAreDistinct(matches[..n]);
      assert forall k :: 0 <= k < n ==> matches[..n][k] == matches[k];
    }
  }

  /** One more match. */
  lemma FirstsStep(matches: seq<string>, n: nat)
    requires n < |matches|
    ensures var rest, c := Firsts(matches[..n]), Cleaned(matches[n]);
            Firsts(matches[..n + 1]) == if c.None? || c.value in rest then rest else rest + [c.value]
    ensures Firsts(matches[..n + 1]) <= Firsts(matches)
  {
    hide Cleaned;
    FirstsGrow(matches, n + 1);
    assert matches[..n + 1][..n] == matches[..n];
  }

  method ExtractEmbedURLs(matches: seq<string>, max: int) returns (urls: seq<string>)
    ensures urls == Urls(matches, max)
    ensures urls <= Firsts(matches) && |urls| <= (if max <= 0 then 2 else max)
    ensures urls == Firsts(matches) || |urls| == if max <= 0 then 2 else max
  {
    hide Stripped, Firsts;
    var cap := max;
    if cap <= 0 {
      cap := 2;
    }
    urls := [];
    assert matches[..0] == [] && Firsts([]) == [] by { NoFirsts(); }
    for n := 0 to |matches|
      invariant urls == Firsts(matches[..n]) && |urls| < cap
    {
      FirstsStep(matches, n);
      var cleaned := StripTrailingPunctuation(matches[n]);
      if cleaned == "" {
        continue;
      }
      if !HasPrefix(cleaned, "http://") && !HasPrefix(cleaned, "https://") {
        cleaned := "https://" + cleaned;
      }
      if cleaned in urls {
        continue;
      }
      urls := urls + [cleaned];
      if |urls| == cap {
        return urls;
      }
    }
    assert matches[..|matches|] == matches;
  }

  lemma NoFirsts()
    ensures Firsts([]) == []
  {
  }

  /** A match keeps its scheme, and one without a scheme is read as https; a match that is
      all punctuation is no URL. */
  lemma CleanedMeaning(m: string)
    ensures Cleaned(m).None? <==> Stripped(m) == ""
    ensures Cleaned(m).Some? ==>
              Cleaned(m).value in {Stripped(m), "https://" + Stripped(m)} &&
              (Cleaned(m).value == Stripped(m) <==> HasPrefix(m, "http://") || HasPrefix(m, "https://"))
  {
    var s := Stripped(m);
    StrippedIsLongest(m);
    hide Stripped;
    if HasPrefix(m, "http://") {
      assert Tidy(m[..7]) && s[..7] == m[..7];
    } else if HasPrefix(m, "https://") {
      assert Tidy(m[..8]) && s[..8] == m[..8];
    } else if s != "" {
      assert !HasPrefix(s, "http://") && !HasPrefix(s, "https://");
      assert ("https://" + s)[..8] == "https://";
    }
  }

  // ------------------------------------------------------------------------ crawl

  /** Of the embeds obtained, in order, those whose text still fits. */
  function Kept(urls: seq<string>, fetch: string -> Option<Embed>, maxText: nat): seq<Embed> {
    if urls == [] then []
    else
      var rest := Kept(urls[..|urls| - 1], fetch, maxText);
      var e := fetch(urls[|urls| - 1]);
      if e.Some? && EmbedTexts(rest) + EmbedText(e.value) <= maxText then rest + [e.value] else rest
  }

  function Min(a: int, b: int): int {
    if a < b then a else b
  }

  function Crawled(
    matches: seq<string>, configured: int, maxEmbeds: int, maxText: int, fetch: string -> Option<Embed>): seq<Embed>
  {
    if maxEmbeds <= 0 || maxText <= 0 then []
    else Kept(Urls(matches, Min(configured, maxEmbeds)), fetch, maxText)
  }

  lemma OneMoreText(embeds: seq<Embed>, e: Embed)
    ensures EmbedTexts(embeds + [e]) == EmbedTexts(embeds) + EmbedText(e)
  {
    hide EmbedText;
    assert (embeds + [e])[..|embeds|] == embeds;
  }

  /** One more URL. */
  lemma KeptStep(urls: seq<string>, fetch: string -> Option<Embed>, maxText: nat, n: nat)
    requires n < |urls|
    ensures var rest, e := Kept(urls[..n], fetch, maxText), fetch(urls[n]);
            Kept(urls[..n + 1], fetch, maxText) ==
              if e.Some? && EmbedTexts(rest) + EmbedText(e.value) <= maxText then rest + [e.value] else rest
  {
    hide EmbedText, EmbedTexts;
    assert urls[..n + 1][..n] == urls[..n];
  }

  /** `configured` is LINK_PREVIEW_MAX_URLS and `fetch` is what each URL leads to. */
  method CrawlEmbeds(
    matches: seq<string>, configured: int, maxEmbeds: int, maxText: int, fetch: string -> Option<Embed>)
    returns (embeds: seq<Embed>)
    ensures embeds == Crawled(matches, configured, maxEmbeds, maxText, fetch)
  {
    hide Urls, EmbedText, EmbedTexts, Kept;
    embeds := [];
    if maxEmbeds <= 0 || maxText <= 0 {
      return embeds;
    }
    var maxURLs := configured;
    if maxEmbeds < maxURLs {
      maxURLs := maxEmbeds;
    }
    var urls := ExtractEmbedURLs(matches, maxURLs);
    var remaining := maxText;
    NothingKept(urls[..0], fetch, maxText);
    for n := 0 to |urls|
      invariant embeds == Kept(urls[..n], fetch, maxText)
      invariant remaining == maxText - EmbedTexts(embeds) && remaining >= 0
    {
      KeptStep(urls, fetch, maxText, n);
      var embed := fetch(urls[n]);
      if embed.Some? {
        var text := EmbedTextLength(embed.value);
        if text <= remaining {
          remaining := remaining - text;
          OneMoreText(embeds, embed.value);
          embeds := embeds + [embed.value];
        }
      }
    }
    assert urls[..|urls|] == urls;
  }

  lemma NothingKept(urls: seq<string>, fetch: string -> Option<Embed>, maxText: nat)
    requires urls == []
    ensures Kept(urls, fetch, maxText) == [] && EmbedTexts([]) == 0
  {
  }

  lemma {:induction false} KeptFits(urls: seq<string>, fetch: string -> Option<Embed>, maxText: nat)
    ensures EmbedTexts(Kept(urls, fetch, maxText)) <= maxText && |Kept(urls, fetch, maxText)| <= |urls|
    decreases |urls|
  {
    hide EmbedText;
    if urls != [] {
      var n := |urls| - 1;
      KeptFits(urls[..n], fetch, maxText);
      var rest, e := Kept(urls[..n], fetch, maxText), fetch(urls[n]);
      if e.Some? {
        assert (rest + [e.value])[..|rest|] == rest;
      }
    }
  }

  /** An embed that was obtained and left out would not have fitted beside those kept before
      it, and less so beside all of them. */
  lemma {:induction false} LeftOutDidNotFit(urls: seq<string>, fetch: string -> Option<Embed>, maxText: nat, k: nat)
    requires k < |urls| && fetch(urls[k]).Some?
    ensures var kept, e := Kept(urls, fetch, maxText), fetch(urls[k]).value;
            e in kept || EmbedTexts(kept) + EmbedText(e) > maxText
    decreases |urls|
  {
    hide EmbedText, EmbedTexts;
    var n := |urls| - 1;
    var rest, last := Kept(urls[..n], fetch, maxText), fetch(urls[n]);
    if k < n {
      LeftOutDidNotFit(urls[..n], fetch, maxText, k);
    }
    if last.Some? {
      OneMoreText(rest, last.value);
    }
  }

  /** Everything kept comes from one of the URLs. */
  lemma {:induction false} KeptIsFetched(urls: seq<string>, fetch: string -> Option<Embed>, maxText: nat, e: Embed)
    requires e in Kept(urls, fetch, maxText)
    ensures exists k :: 0 <= k < |urls| && fetch(urls[k]) == Some(e)
    decreases |urls|
  {
    hide EmbedText, EmbedTexts;
    var n := |urls| - 1;
    if fetch(urls[n]) != Some(e) {
      KeptIsFetched(urls[..n], fetch, maxText, e);
    }
  }

  /** A crawl respects what was left of the budget. */
  lemma CrawlFits(matches: seq<string>, configured: int, maxEmbeds: int, maxText: int, fetch: string -> Option<Embed>)
    requires configured >= 1
    ensures var found := Crawled(matches, configured, maxEmbeds, maxText, fetch);
            found == [] || (maxText > 0 && |found| <= maxEmbeds && EmbedTexts(found) <= maxText)
  {
    hide EmbedTexts, Firsts;
    if maxEmbeds > 0 && maxText > 0 {
      KeptFits(Urls(matches, Min(configured, maxEmbeds)), fetch, maxText);
    }
  }

  // --------------------------------------------------------- the links of a message

  /** The link rows, by id, as the last crawl saw them. */
  type Links = map<Id, Embed>

  function AsLinks(embeds: seq<Embed>): Links {
    if embeds == [] then map[]
    else AsLinks(embeds[..|embeds| - 1])[embeds[|embeds| - 1].id := embeds[|embeds| - 1]]
  }

  ghost function LinksText(links: Links): nat
    decreases |links|
  {
    if links == map[] then 0
    else
      var id :| id in links;
      DropOne(links, id);
      LinksText(links - {id}) + EmbedText(links[id])
  }

  lemma {:induction false} LinksTextWithout(links: Links, id: Id)
    requires id in links
    ensures LinksText(links) == LinksText(links - {id}) + EmbedText(links[id])
    decreases |links|
  {
    var first :| first in links && LinksText(links) == LinksText(links - {first}) + EmbedText(links[first]);
    if first != id {
      DropOne(links, first);
      DropOne(links, id);
      LinksTextWithout(links - {first}, id);
      LinksTextWithout(links - {id}, first);
      assert links - {first} - {id} == links - {id} - {first};
    }
  }

  lemma LinksTextWith(links: Links, e: Embed)
    ensures LinksText(links[e.id := e]) <= LinksText(links) + EmbedText(e)
  {
    var more := links[e.id := e];
    LinksTextWithout(more, e.id);
    if e.id in links {
      LinksTextWithout(links, e.id);
      assert more - {e.id} == links - {e.id};
    } else {
      assert more - {e.id} == links;
    }
  }

  lemma {:induction false} AsLinksIds(embeds: seq<Embed>)
    ensures forall id :: id in AsLinks(embeds) <==> exists k :: 0 <= k < |embeds| && embeds[k].id == id
    decreases |embeds|
  {
    if embeds != [] {
      var n := |embeds| - 1;
      AsLinksIds(embeds[..n]);
      assert forall k :: 0 <= k < n ==> embeds[..n][k] == embeds[k];
    }
  }

  lemma {:induction false} AsLinksFits(embeds: seq<Embed>)
    ensures |AsLinks(embeds)| <= |embeds| && LinksText(AsLinks(embeds)) <= EmbedTexts(embeds)
    decreases |embeds|
  {
    hide EmbedText, LinksText;
    if embeds == [] {
      NoLinksText();
    } else {
      var n := |embeds| - 1;
      var before, e := AsLinks(embeds[..n]), embeds[n];
      AsLinksFits(embeds[..n]);
      LinksTextWith(before, e);
      assert before[e.id := e].Keys == before.Keys + {e.id};
    }
  }

  lemma NoLinksText()
    ensures LinksText(map[]) == 0
  {
  }

  predicate ValidCustoms(customs: seq<Embed>) {
    |customs| <= 10 && EmbedTexts(customs) <= 6000
  }

  /** The limits a message is promised: ten embeds and 6000 characters. */
  ghost predicate Within(customs: seq<Embed>, links: Links) {
    && |customs| + |links| <= 10
    && EmbedTexts(customs) + LinksText(links) <= 6000
  }

  /** A crawl on the budget that these custom embeds leave. */
  function Crawl(known: seq<Embed>, matches: seq<string>, configured: int, fetch: string -> Option<Embed>): seq<Embed> {
    Crawled(matches, configured, MAX_EMBEDS_PER_MESSAGE - |known|, TOTAL_TEXT_MAX - EmbedTexts(known), fetch)
  }

  /** These custom embeds leave a crawl no room at all. */
  predicate Full(known: seq<Embed>) {
    |known| >= 10 || EmbedTexts(known) >= 6000
  }

  /** What a crawl on that budget may return (`EmbedLateWork.BudgetIsExact`). */
  predicate FitsBudget(known: seq<Embed>, found: seq<Embed>) {
    found == [] ||
    (!Full(known) && |found| <= 10 - |known| && EmbedTexts(found) <= 6000 - EmbedTexts(known))
  }

  class Message {
    var customs: seq<Embed>
    var links: Links

    constructor (customs: seq<Embed>)
      ensures this.customs == customs && links == map[]
    {
      this.customs, links := customs, map[];
    }

    method ReplaceCustomEmbeds(embeds: seq<Embed>)
      modifies this`customs
      ensures customs == embeds
    {
      customs := embeds;
    }

    method AddMessageEmbeds(embeds: seq<Embed>)
      modifies this`links
      ensures links == old(links) + AsLinks(embeds)
    {
      links := links + AsLinks(embeds);
    }

    method ReplaceMessageLinkEmbeds(embeds: seq<Embed>)
      modifies this`links
      ensures links == AsLinks(embeds)
    {
      links := AsLinks(embeds);
    }

    /** Background work of a creation. `known` are the custom embeds the message had when
        the work was started. */
    method ProcessMessageEmbeds(
      known: seq<Embed>, matches: seq<string>, configured: int, fetch: string -> Option<Embed>)
      returns (embeds: seq<Embed>)
      requires configured >= 1
      modifies this`links
      ensures embeds == Crawl(known, matches, configured, fetch)
      ensures FitsBudget(known, embeds) && links == old(links) + AsLinks(embeds)
      ensures ValidCustoms(known) && customs == known && old(links) == map[] ==> Within(customs, links)
    {
      hide EmbedTexts, AsLinks, Within, FitsBudget, Crawled, ValidCustoms;
      var maxEmbeds, maxText := EmbedBudgetOf(known);
      embeds := CrawlEmbeds(matches, configured, maxEmbeds, maxText, fetch);
      CrawlIsWithin(known, matches, configured, fetch);
      assert map[] + AsLinks(embeds) == AsLinks(embeds);
      if |embeds| == 0 {
        assert links + AsLinks([]) == links by { NoLinks(); }
        return embeds;
      }
      AddMessageEmbeds(embeds);
    }

    /** Background work of an edit; returns what the links gained and lost. */
    method ProcessEditedMessageEmbeds(
      known: seq<Embed>, matches: seq<string>, configured: int, fetch: string -> Option<Embed>)
      returns (added: seq<Embed>, removed: set<Id>)
      requires configured >= 1
      modifies this`links
      ensures var found := Crawl(known, matches, configured, fetch); FitsBudget(known, found) && links == AsLinks(found)
      ensures ValidCustoms(known) && customs == known ==> Within(customs, links)
      ensures (set k | 0 <= k < |added| :: added[k].id) == links.Keys - old(links).Keys
      ensures removed == old(links).Keys - links.Keys
    {
      hide EmbedTexts, AsLinks, Within, FitsBudget, Crawled, ValidCustoms;
      var oldLinks := links.Keys;
      var maxEmbeds, maxText := EmbedBudgetOf(known);
      var newEmbeds := CrawlEmbeds(matches, configured, maxEmbeds, maxText, fetch);
      CrawlIsWithin(known, matches, configured, fetch);
      ReplaceMessageLinkEmbeds(newEmbeds);
      added := Gained(newEmbeds, oldLinks);
      removed := set id | id in oldLinks && id !in links;
    }
  }

  /** The embeds whose ids are new, in the order of the crawl. */
  method Gained(newEmbeds: seq<Embed>, oldLinks: set<Id>) returns (added: seq<Embed>)
    ensures (set k | 0 <= k < |added| :: added[k].id) == AsLinks(newEmbeds).Keys - oldLinks
  {
    added := [];
    for n := 0 to |newEmbeds|
      invariant forall e :: e in added <==> e in newEmbeds[..n] && e.id !in oldLinks
    {
      if newEmbeds[n].id !in oldLinks {
        added := added + [newEmbeds[n]];
      }
    }
    AsLinksIds(newEmbeds);
    assert newEmbeds[..|newEmbeds|] == newEmbeds;
    forall id
      ensures (exists k :: 0 <= k < |added| && added[k].id == id) <==> id in AsLinks(newEmbeds) && id !in oldLinks
    {
      if id in AsLinks(newEmbeds) && id !in oldLinks {
        var k :| 0 <= k < |newEmbeds| && newEmbeds[k].id == id;
        assert newEmbeds[k] in added;
      }
      if k :| 0 <= k < |added| && added[k].id == id {
        assert added[k] in newEmbeds;
      }
    }
  }

  method EmbedBudgetOf(customs: seq<Embed>) returns (maxEmbeds: int, maxText: int)
    ensures maxEmbeds == 10 - |customs| && maxText == 6000 - EmbedTexts(customs)
  {
    hide EmbedText;
    maxText := TOTAL_TEXT_MAX;
    for n := 0 to |customs|
      invariant maxText == TOTAL_TEXT_MAX - EmbedTexts(customs[..n])
    {
      assert customs[..n + 1][..n] == customs[..n];
      var text := EmbedTextLength(customs[n]);
      maxText := maxText - text;
    }
    assert customs[..|customs|] == customs;
    maxEmbeds := MAX_EMBEDS_PER_MESSAGE - |customs|;
  }

  lemma NoLinks()
    ensures AsLinks([]) == map[]
  {
  }

  lemma CrawlIsWithin(known: seq<Embed>, matches: seq<string>, configured: int, fetch: string -> Option<Embed>)
    requires configured >= 1
    ensures var found := Crawl(known, matches, configured, fetch);
            FitsBudget(known, found) && (ValidCustoms(known) ==> Within(known, AsLinks(found)))
  {
    hide EmbedTexts, AsLinks, Within, Crawled;
    CrawlFits(matches, configured, MAX_EMBEDS_PER_MESSAGE - |known|, TOTAL_TEXT_MAX - EmbedTexts(known), fetch);
    AttachedFits(known, Crawl(known, matches, configured, fetch));
  }

  lemma AttachedFits(customs: seq<Embed>, found: seq<Embed>)
    requires ValidCustoms(customs) ==> FitsBudget(customs, found)
    ensures ValidCustoms(customs) ==> Within(customs, AsLinks(found))
  {
    hide EmbedText;
    AsLinksFits(found);
  }

  lemma NoEmbedsNoText()
    ensures EmbedTexts([]) == 0
  {
  }

  /** Validation and building together: what is stored respects the limits and has the text
      that was sent. */
  method CreateCustomEmbeds(inputs: seq<EmbedInput>, firstId: Id) returns (r: Result<seq<Embed>, Invalid>)
    ensures r.Ok? <==> ValidEmbeds(inputs)
    ensures r.Ok? ==>
              && ValidCustoms(r.value) && |r.value| == |inputs|
              && EmbedTexts(r.value) == InputTexts(inputs)
              && forall k :: 0 <= k < |inputs| ==>
                   r.value[k].id == firstId + k && StoredAsSent(r.value[k], inputs[k])
  {
    hide StoredAsSent, Built, InputText, EmbedText, EmbedTexts, ValidEmbed;
    var valid := ValidateCustomEmbeds(inputs);
    if valid.Err? {
      return Err(valid.error);
    }
    var created: seq<Embed> := [];
    assert EmbedTexts(created) == 0 by { NoEmbedsNoText(); }
    for n := 0 to |inputs|
      invariant |created| == n
      invariant forall k :: 0 <= k < n ==> created[k].id == firstId + k && StoredAsSent(created[k], inputs[k])
      invariant EmbedTexts(created) == InputTexts(inputs[..n])
    {
      assert inputs[..n + 1][..n] == inputs[..n];
      var embed := BuildCustomEmbed(inputs[n], firstId + n);
      BuildKeepsText(inputs[n], firstId + n);
      ValidIsStoredAsSent(inputs[n], firstId + n);
      OneMoreText(created, embed);
      created := created + [embed];
    }
    assert inputs[..|inputs|] == inputs;
    return Ok(created);
  }
}
