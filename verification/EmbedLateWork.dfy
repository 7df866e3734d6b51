/** Background work that ends after the message has changed: exactly when it keeps the
    limits, whatever its crawl found. */
module EmbedLateWork {
  import opened EmbedBudget
  import opened EmbedLinks
  import opened Sizes
  import opened Wrappers

  datatype State = State(customs: seq<Embed>, links: Links)

  /** An edit that replaces the custom embeds, and the end of the two kinds of background
      work: `known` are the custom embeds it started from, `found` what its crawl kept. */
  datatype Step =
    | Edit(customs: seq<Embed>)
    | AttachNew(known: seq<Embed>, found: seq<Embed>)
    | AttachEdited(known: seq<Embed>, found: seq<Embed>)

  predicate Possible(step: Step) {
    match step
    case Edit(customs) => ValidCustoms(customs)
    case AttachNew(known, found) => ValidCustoms(known) && FitsBudget(known, found)
    case AttachEdited(known, found) => ValidCustoms(known) && FitsBudget(known, found)
  }

  function Apply(s: State, step: Step): State {
    match step
    case Edit(customs) => s.(customs := customs)
    case AttachNew(_, found) => s.(links := s.links + AsLinks(found))
    case AttachEdited(_, found) => s.(links := AsLinks(found))
  }

  function Run(s: State, steps: seq<Step>): State {
    if steps == [] then s else Apply(Run(s, steps[..|steps| - 1]), steps[|steps| - 1])
  }

  /** The message the work ends on still has the room the work counts on. */
  ghost predicate RoomFor(s: State, step: Step) {
    match step
    case Edit(_) => true
    case AttachNew(known, _) => RoomLeft(known, s.customs, s.links)
    case AttachEdited(known, _) => RoomLeft(known, s.customs, map[])
  }

  /** So it has on the message it started from. */
  lemma CurrentHasRoom(s: State, step: Step)
    requires !step.Edit? && ValidCustoms(s.customs) && step.known == s.customs
    requires step.AttachNew? ==> s.links == map[]
    ensures RoomFor(s, step)
  {
    NoLinksText();
  }

  lemma {:induction false} CustomsStayValid(s: State, steps: seq<Step>)
    requires ValidCustoms(s.customs) && forall k :: 0 <= k < |steps| ==> Possible(steps[k])
    ensures ValidCustoms(Run(s, steps).customs)
    decreases |steps|
  {
    hide ValidCustoms, FitsBudget;
    if steps != [] {
      CustomsStayValid(s, steps[..|steps| - 1]);
    }
  }

  /** In any history, work that ends while there is the room it counts on leaves the message
      within its limits; on the message it started from there always is. */
  lemma CurrentWorkRespectsLimits(s: State, steps: seq<Step>, step: Step)
    requires ValidCustoms(s.customs) && forall k :: 0 <= k < |steps| ==> Possible(steps[k])
    requires Possible(step) && !step.Edit?
    ensures var m := Run(s, steps);
            var t := Apply(m, step);
            && (RoomFor(m, step) ==> Within(t.customs, t.links))
            && (step.known == m.customs && (step.AttachNew? ==> m.links == map[]) ==> Within(t.customs, t.links))
  {
    hide Within, ValidCustoms, FitsBudget, AsLinks, RoomLeft;
    var m := Run(s, steps);
    CustomsStayValid(s, steps);
    if step.known == m.customs && (step.AttachNew? ==> m.links == map[]) {
      CurrentHasRoom(m, step);
    }
    if RoomFor(m, step) {
      var links := if step.AttachNew? then m.links else map[];
      RoomIsEnough(step.known, m.customs, links, step.found);
      assert map[] + AsLinks(step.found) == AsLinks(step.found);
    }
  }

  // ------------------------------------------------------------ what a crawl may find

  /** The k-th of a list of different URLs that cleaning leaves alone. */
  function NthUrl(k: nat): string {
    "https://" + seq(k + 1, i => 'x')
  }

  function NthUrls(n: nat): (urls: seq<string>)
    ensures |urls| == n
    ensures forall u :: u in urls ==> |u| < n + 9
  {
    if n == 0 then [] else NthUrls(n - 1) + [NthUrl(n - 1)]
  }

  lemma NthUrlIsClean(k: nat)
    ensures Cleaned(NthUrl(k)) == Some(NthUrl(k))
  {
    var u := NthUrl(k);
    assert u[|u| - 1] == 'x';
    assert Tidy(u);
    assert u[..8] == "https://";
  }

  lemma FirstsGrowByNew(matches: seq<string>, m: string)
    requires Cleaned(m) == Some(m) && m !in Firsts(matches)
    ensures Firsts(matches + [m]) == Firsts(matches) + [m]
  {
    hide Cleaned;
    assert (matches + [m])[..|matches|] == matches;
  }

  lemma {:induction false} NthUrlsAreFirsts(n: nat)
    ensures Firsts(NthUrls(n)) == NthUrls(n)
  {
    hide Cleaned, NthUrl, Firsts;
    if n == 0 {
      NoFirsts();
    } else {
      NthUrlsAreFirsts(n - 1);
      NthUrlIsClean(n - 1);
      NthUrlLength(n - 1);
      FirstsGrowByNew(NthUrls(n - 1), NthUrl(n - 1));
    }
  }

  lemma NthUrlLength(k: nat)
    ensures |NthUrl(k)| == k + 9
  {
  }

  /** What the URLs lead to. */
  function FetchOf(found: seq<Embed>): string -> Option<Embed> {
    (u: string) => if 9 <= |u| < 9 + |found| then Some(found[|u| - 9]) else None
  }

  lemma {:induction false} TextsGrow(embeds: seq<Embed>, n: nat)
    requires n <= |embeds|
    ensures EmbedTexts(embeds[..n]) <= EmbedTexts(embeds)
    decreases |embeds|
  {
    hide EmbedText;
    if n < |embeds| {
      TextsGrow(embeds[..|embeds| - 1], n);
      assert embeds[..|embeds| - 1][..n] == embeds[..n];
    } else {
      assert embeds[..n] == embeds;
    }
  }

  lemma KeepsOneMore(urls: seq<string>, url: string, fetch: string -> Option<Embed>, maxText: nat, e: Embed)
    requires fetch(url) == Some(e) && EmbedTexts(Kept(urls, fetch, maxText)) + EmbedText(e) <= maxText
    ensures Kept(urls + [url], fetch, maxText) == Kept(urls, fetch, maxText) + [e]
  {
    hide EmbedTexts, EmbedText;
    assert (urls + [url])[..|urls|] == urls;
  }

  lemma {:induction false} KeepsAll(found: seq<Embed>, n: nat, maxText: nat)
    requires n <= |found| && EmbedTexts(found) <= maxText
    ensures Kept(NthUrls(n), FetchOf(found), maxText) == found[..n]
  {
    hide EmbedText, NthUrl, Kept;
    if n == 0 {
      assert Kept([], FetchOf(found), maxText) == [] by { NothingKept([], FetchOf(found), maxText); }
    } else {
      KeepsAll(found, n - 1, maxText);
      NthUrlLength(n - 1);
      TextsGrow(found, n);
      assert found[..n][..n - 1] == found[..n - 1] && found[..n] == found[..n - 1] + [found[n - 1]];
      KeepsOneMore(NthUrls(n - 1), NthUrl(n - 1), FetchOf(found), maxText, found[n - 1]);
    }
  }

  /** What fits the budget is exactly what some crawl on it returns. */
  lemma BudgetIsExact(known: seq<Embed>, found: seq<Embed>)
    requires ValidCustoms(known)
    ensures FitsBudget(known, found) <==>
            exists matches, configured, fetch :: configured >= 1 && found == Crawl(known, matches, configured, fetch)
  {
    hide EmbedTexts, Firsts, Kept, NthUrls;
    forall matches, configured, fetch: string -> Option<Embed>
      | configured >= 1 && found == Crawl(known, matches, configured, fetch)
      ensures FitsBudget(known, found)
    {
      CrawlFits(matches, configured, MAX_EMBEDS_PER_MESSAGE - |known|, TOTAL_TEXT_MAX - EmbedTexts(known), fetch);
    }
    if FitsBudget(known, found) {
      FoundByCrawl(known, found);
      assert found == Crawl(known, NthUrls(|found|), MAX_EMBEDS_PER_MESSAGE, FetchOf(found));
    }
  }

  lemma FoundByCrawl(known: seq<Embed>, found: seq<Embed>)
    requires FitsBudget(known, found)
    ensures found == Crawl(known, NthUrls(|found|), MAX_EMBEDS_PER_MESSAGE, FetchOf(found))
  {
    hide EmbedTexts, Urls, Kept, NthUrls;
    if !Full(known) {
      var room := MAX_EMBEDS_PER_MESSAGE - |known|;
      if found == [] {
        CrawlsNothing(room, FetchOf(found), TOTAL_TEXT_MAX - EmbedTexts(known));
      } else {
        UrlsOfNth(|found|, room);
        KeepsAll(found, |found|, TOTAL_TEXT_MAX - EmbedTexts(known));
        assert found[..|found|] == found;
      }
    }
  }

  lemma UrlsOfNth(n: nat, max: nat)
    requires n <= max
    ensures Urls(NthUrls(n), max) == NthUrls(n)
  {
    hide Firsts, NthUrl;
    NthUrlsAreFirsts(n);
  }

  lemma CrawlsNothing(max: nat, fetch: string -> Option<Embed>, maxText: nat)
    ensures Kept(Urls(NthUrls(0), max), fetch, maxText) == []
  {
    assert Firsts([]) == [];
  }

  // ------------------------------------------------------ when late work keeps the limits

  /** The links of a message once these are attached. */
  function Attached(links: Links, found: seq<Embed>): Links {
    links + AsLinks(found)
  }

  lemma AttachedNone(links: Links)
    ensures Attached(links, []) == links
  {
    NoLinks();
    assert links + map[] == links;
  }

  lemma AttachedOneMore(links: Links, found: seq<Embed>, e: Embed)
    ensures Attached(links, found + [e]) == Attached(links, found)[e.id := e]
  {
    assert (found + [e])[..|found|] == found;
  }

  lemma AttachedOne(links: Links, e: Embed)
    ensures Attached(links, [e]) == links[e.id := e]
  {
    AttachedNone(links);
    AttachedOneMore(links, [], e);
    assert [] + [e] == [e];
  }

  /** An embed with a title of this length, or without one. */
  function Titled(id: Id, length: nat): Embed {
    Embed(id, NullableText(seq(length, i => 'x')), None, None, None, None, [])
  }

  function Untitled(firstId: Id, n: nat): seq<Embed> {
    if n == 0 then [] else Untitled(firstId, n - 1) + [Titled(firstId + n - 1, 0)]
  }

  lemma {:induction false} UntitledText(firstId: Id, n: nat)
    ensures |Untitled(firstId, n)| == n && EmbedTexts(Untitled(firstId, n)) == 0
  {
    if n > 0 {
      UntitledText(firstId, n - 1);
      assert Untitled(firstId, n)[..n - 1] == Untitled(firstId, n - 1);
    }
  }

  ghost function UpTo(links: Links): (bound: Id)
    ensures forall id :: id in links ==> id < bound
    decreases |links|
  {
    if links == map[] then 0
    else
      var id :| id in links;
      DropOne(links, id);
      var rest := UpTo(links - {id});
      assert forall other :: other in links ==> other == id || other in links - {id};
      if id < rest then rest else id + 1
  }

  lemma PutSize(links: Links, e: Embed)
    ensures |links[e.id := e]| == if e.id in links then |links| else |links| + 1
  {
    assert links[e.id := e].Keys == links.Keys + {e.id};
  }

  lemma {:induction false} ManyMoreLinks(links: Links, firstId: Id, n: nat)
    requires forall id :: id in links ==> id < firstId
    ensures |Attached(links, Untitled(firstId, n))| == |links| + n
    ensures forall id :: id in Attached(links, Untitled(firstId, n)) ==> id < firstId + n
  {
    hide Attached, Titled;
    if n == 0 {
      AttachedNone(links);
    } else {
      var fewer, last := Untitled(firstId, n - 1), Titled(firstId + n - 1, 0);
      assert last.id == firstId + n - 1 by { OneTitled(firstId + n - 1, 0); }
      ManyMoreLinks(links, firstId, n - 1);
      AttachedOneMore(links, fewer, last);
      PutSize(Attached(links, fewer), last);
    }
  }

  lemma LinksTextOfNew(links: Links, e: Embed)
    requires e.id !in links
    ensures LinksText(links[e.id := e]) == LinksText(links) + EmbedText(e)
  {
    var more := links[e.id := e];
    LinksTextWithout(more, e.id);
    assert more - {e.id} == links;
  }

  lemma {:induction false} MoreLinksFit(links: Links, found: seq<Embed>)
    ensures |Attached(links, found)| <= |links| + |found|
    ensures LinksText(Attached(links, found)) <= LinksText(links) + EmbedTexts(found)
    decreases |found|
  {
    hide EmbedText, LinksText, Attached;
    if found == [] {
      AttachedNone(links);
    } else {
      var fewer, e := found[..|found| - 1], found[|found| - 1];
      MoreLinksFit(links, fewer);
      assert found == fewer + [e];
      AttachedOneMore(links, fewer, e);
      PutSize(Attached(links, fewer), e);
      LinksTextWith(Attached(links, fewer), e);
    }
  }

  /** Whatever a crawl on the budget of `known` finds, a message with these custom embeds
      and links is within its limits once that is attached. */
  ghost predicate Safe(known: seq<Embed>, customs: seq<Embed>, links: Links) {
    forall found :: FitsBudget(known, found) ==> Within(customs, Attached(links, found))
  }

  /** The room that work started on `known` counts on is still there. */
  ghost predicate RoomLeft(known: seq<Embed>, customs: seq<Embed>, links: Links) {
    if Full(known) then Within(customs, links)
    else |customs| + |links| <= |known| && EmbedTexts(customs) + LinksText(links) <= EmbedTexts(known)
  }

  lemma RoomIsEnough(known: seq<Embed>, customs: seq<Embed>, links: Links, found: seq<Embed>)
    requires ValidCustoms(known) && RoomLeft(known, customs, links) && FitsBudget(known, found)
    ensures Within(customs, Attached(links, found))
  {
    hide EmbedTexts, LinksText, Attached;
    MoreLinksFit(links, found);
    AttachedNone(links);
  }

  lemma RoomIsNeeded(known: seq<Embed>, customs: seq<Embed>, links: Links)
    requires ValidCustoms(known) && Safe(known, customs, links)
    ensures RoomLeft(known, customs, links)
  {
    hide LinksText, EmbedTexts, Safe;
    NothingFound(known, customs, links);
    if !Full(known) {
      var firstId := UpTo(links);
      NumberIsNeeded(known, customs, links, firstId);
      TextIsNeeded(known, customs, links, firstId);
    }
  }

  lemma NothingFound(known: seq<Embed>, customs: seq<Embed>, links: Links)
    requires Safe(known, customs, links)
    ensures Within(customs, links)
  {
    hide Within, Attached;
    assert FitsBudget(known, []);
    AttachedNone(links);
  }

  lemma NumberIsNeeded(known: seq<Embed>, customs: seq<Embed>, links: Links, firstId: Id)
    requires ValidCustoms(known) && !Full(known) && Safe(known, customs, links)
    requires forall id :: id in links ==> id < firstId
    ensures |customs| + |links| <= |known|
  {
    hide Attached, EmbedTexts, Untitled, LinksText;
    var n := MAX_EMBEDS_PER_MESSAGE - |known|;
    UntitledText(firstId, n);
    ManyMoreLinks(links, firstId, n);
    assert FitsBudget(known, Untitled(firstId, n));
  }

  lemma TextIsNeeded(known: seq<Embed>, customs: seq<Embed>, links: Links, id: Id)
    requires ValidCustoms(known) && !Full(known) && Safe(known, customs, links) && id !in links
    ensures EmbedTexts(customs) + LinksText(links) <= EmbedTexts(known)
  {
    hide Attached, EmbedTexts, LinksText, Titled;
    var long := Titled(id, TOTAL_TEXT_MAX - EmbedTexts(known));
    OneTitled(id, TOTAL_TEXT_MAX - EmbedTexts(known));
    LinksTextOfNew(links, long);
    assert FitsBudget(known, [long]);
    AttachedOne(links, long);
  }

  lemma OneTitled(id: Id, length: nat)
    ensures EmbedText(Titled(id, length)) == length && EmbedTexts([Titled(id, length)]) == length
    ensures AsLinks([Titled(id, length)]) == map[id := Titled(id, length)] && Titled(id, length).id == id
  {
    assert [Titled(id, length)][..0] == [];
    var s := seq(length, i => 'x');
    assert length > 0 ==> s[0] == 'x';
    assert FieldsText(Titled(id, length).fields) == 0;
  }

  /** Work that ends late keeps the limits, whatever it found, exactly when the custom
      embeds and links of the message it ends on take no more of the ten embeds and the 6000
      characters than the custom embeds it started from, or these left no room to begin
      with. The work of an edit replaces the links: for it `links` is empty. */
  lemma LateWorkIsSafeExactly(known: seq<Embed>, customs: seq<Embed>, links: Links)
    requires ValidCustoms(known)
    ensures Safe(known, customs, links) <==> RoomLeft(known, customs, links)
  {
    hide Within, RoomLeft, FitsBudget;
    if RoomLeft(known, customs, links) {
      forall found | FitsBudget(known, found) ensures Within(customs, Attached(links, found)) {
        RoomIsEnough(known, customs, links, found);
      }
    }
    if Safe(known, customs, links) {
      RoomIsNeeded(known, customs, links);
    }
  }

  /** The work of an edit, or of a creation that finds no links yet, on valid custom embeds:
      they must not have grown in number or text. */
  lemma LateWorkWithoutLinks(known: seq<Embed>, customs: seq<Embed>)
    requires ValidCustoms(known) && ValidCustoms(customs)
    ensures Safe(known, customs, map[])
            <==> Full(known) || (|customs| <= |known| && EmbedTexts(customs) <= EmbedTexts(known))
  {
    LateWorkIsSafeExactly(known, customs, map[]);
    NoLinksText();
  }
}
