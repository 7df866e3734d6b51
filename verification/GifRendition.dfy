/** Choosing one rendition of a GIF out of a map whose iteration order is random. */
module GifRendition {
  import opened Wrappers

  type Url = nat

  datatype Tier = Md | Sm | Xs | Hd | OtherTier

  datatype Format = Gif | OtherFormat

  /** A URL of an image entry; no format when the URL is empty or of an unknown type. */
  datatype Candidate = Candidate(url: Url, format: Option<Format>, size: int)

  /** An entry of the map: its key, and what its renditions have in common. Kinds are
      numbered in alphabetical order. */
  datatype Image = Image(kind: nat, tier: Tier, area: nat, still: bool, candidates: seq<Candidate>)

  datatype Rendition = Rendition(url: Url, format: Format, kind: nat, tier: Tier, area: nat, bytes: int, still: bool)

  /** One pass of `best`: animated renditions of a tier, or of any, within a size or not. */
  datatype Rule = Rule(maxBytes: Option<int>, tier: Option<Tier>)

  predicate Listed(rs: seq<Rendition>, url: Url) {
    exists k :: 0 <= k < |rs| && rs[k].url == url
  }

  function AddCandidate(rs: seq<Rendition>, im: Image, c: Candidate): seq<Rendition> {
    if Listed(rs, c.url) || c.format.None? then rs
    else rs + [Rendition(c.url, c.format.value, im.kind, im.tier, im.area, c.size, im.still)]
  }

  function AddImage(rs: seq<Rendition>, im: Image, n: nat): seq<Rendition>
    requires n <= |im.candidates|
  {
    if n == 0 then rs else AddCandidate(AddImage(rs, im, n - 1), im, im.candidates[n - 1])
  }

  /** The renditions, when the map is iterated in this order. */
  function Gather(images: seq<Image>): seq<Rendition> {
    if images == [] then []
    else
      var im := images[|images| - 1];
      AddImage(Gather(images[..|images| - 1]), im, |im.candidates|)
  }

  method RenditionsFromImages(images: seq<Image>) returns (rs: seq<Rendition>)
    ensures rs == Gather(images)
  {
    hide AddCandidate;
    rs := [];
    var seen: set<Url> := {};
    for n := 0 to |images|
      invariant rs == Gather(images[..n])
      invariant forall u :: u in seen <==> Listed(rs, u)
    {
      var im := images[n];
      assert images[..n + 1][..n] == images[..n];
      for k := 0 to |im.candidates|
        invariant rs == AddImage(Gather(images[..n]), im, k)
        invariant forall u :: u in seen <==> Listed(rs, u)
      {
        var c := im.candidates[k];
        AddOne(rs, im, c);
        if c.url in seen || c.format.None? {
          continue;
        }
        seen := seen + {c.url};
        rs := rs + [Rendition(c.url, c.format.value, im.kind, im.tier, im.area, c.size, im.still)];
      }
    }
    assert images[..|images|] == images;
  }

  lemma AddOne(rs: seq<Rendition>, im: Image, c: Candidate)
    ensures AddCandidate(rs, im, c) ==
            if Listed(rs, c.url) || c.format.None? then rs
            else rs + [Rendition(c.url, c.format.value, im.kind, im.tier, im.area, c.size, im.still)]
    ensures forall r, u :: Listed(rs + [r], u) <==> Listed(rs, u) || r.url == u
  {
    forall r, u ensures Listed(rs + [r], u) <==> Listed(rs, u) || r.url == u {
      assert (rs + [r])[|rs|] == r;
      assert forall k :: 0 <= k < |rs| ==> (rs + [r])[k] == rs[k];
    }
  }

  predicate Eligible(rule: Rule, r: Rendition) {
    && r.format.Gif? && !r.still
    && (rule.tier.Some? ==> r.tier == rule.tier.value)
    && (rule.maxBytes.Some? ==> r.bytes <= 0 || r.bytes <= rule.maxBytes.value)
  }

  /** Larger area first, then the kind that comes first. */
  predicate Better(a: Rendition, b: Rendition) {
    if a.area != b.area then a.area > b.area else a.kind < b.kind
  }

  function Best(rs: seq<Rendition>, rule: Rule): Option<Rendition> {
    if rs == [] then None
    else
      var b, r := Best(rs[..|rs| - 1], rule), rs[|rs| - 1];
      if Eligible(rule, r) && (b.None? || Better(r, b.value)) then Some(r) else b
  }

  method FindBest(rs: seq<Rendition>, rule: Rule) returns (best: Option<Rendition>)
    ensures best == Best(rs, rule)
  {
    best := None;
    for n := 0 to |rs|
      invariant best == Best(rs[..n], rule)
    {
      assert rs[..n + 1][..n] == rs[..n];
      if Eligible(rule, rs[n]) {
        if best.None? || Better(rs[n], best.value) {
          best := Some(rs[n]);
        }
      }
    }
    assert rs[..|rs|] == rs;
  }

  function Rules(maxBytes: int): seq<Rule> {
    var within := Some(maxBytes);
    [Rule(within, Some(Md)), Rule(within, Some(Sm)), Rule(within, Some(Xs)), Rule(within, Some(Hd)), Rule(within, None),
     Rule(None, Some(Md)), Rule(None, Some(Sm)), Rule(None, Some(Xs)), Rule(None, Some(Hd)), Rule(None, None)]
  }

  function FirstBest(rs: seq<Rendition>, rules: seq<Rule>): Option<Rendition> {
    if rules == [] then None
    else if Best(rs, rules[0]).Some? then Best(rs, rules[0])
    else FirstBest(rs, rules[1..])
  }

  function Pick(images: seq<Image>, maxBytes: int): Option<Rendition> {
    FirstBest(Gather(images), Rules(maxBytes))
  }

  method PickGifRendition(images: seq<Image>, maxBytes: int) returns (picked: Option<Rendition>)
    ensures picked == Pick(images, maxBytes)
  {
    hide Rules, Gather;
    var rs := RenditionsFromImages(images);
    var rules := Rules(maxBytes);
    for n := 0 to |rules|
      invariant FirstBest(rs, rules) == FirstBest(rs, rules[n..])
    {
      var best := FindBest(rs, rules[n]);
      assert rules[n..][1..] == rules[n + 1..];
      if best.Some? {
        return best;
      }
    }
    return None;
  }

  lemma {:induction false} BestIsLargest(rs: seq<Rendition>, rule: Rule)
    ensures match Best(rs, rule)
            case None => forall r :: r in rs ==> !Eligible(rule, r)
            case Some(b) => b in rs && Eligible(rule, b) && forall r :: r in rs && Eligible(rule, r) ==>
                              r.area < b.area || (r.area == b.area && b.kind <= r.kind)
    decreases |rs|
  {
    hide Eligible;
    if rs != [] {
      var n := |rs| - 1;
      BestIsLargest(rs[..n], rule);
      assert rs == rs[..n] + [rs[n]];
    }
  }

  lemma {:induction false} FirstRuleThatFinds(rs: seq<Rendition>, rules: seq<Rule>) returns (n: nat)
    ensures n <= |rules| && forall k :: 0 <= k < n ==> Best(rs, rules[k]).None?
    ensures FirstBest(rs, rules) == if n < |rules| then Best(rs, rules[n]) else None
    ensures n < |rules| ==> Best(rs, rules[n]).Some?
    decreases |rules|
  {
    hide Best;
    if rules == [] || Best(rs, rules[0]).Some? {
      n := 0;
    } else {
      var m := FirstRuleThatFinds(rs, rules[1..]);
      n := m + 1;
      assert forall k :: 1 <= k < n ==> rules[k] == rules[1..][k - 1];
    }
  }

  /** The pick is the largest animated rendition of the first rule that any fits: a tier
      within the size, in order of preference, then any tier, then the same without the
      size. Nothing is picked exactly when nothing is animated. */
  lemma PickIsPreferred(images: seq<Image>, maxBytes: int) returns (n: nat)
    ensures n <= 10 && forall k, r :: 0 <= k < n && r in Gather(images) ==> !Eligible(Rules(maxBytes)[k], r)
    ensures Pick(images, maxBytes).None? <==> n == 10
    ensures Pick(images, maxBytes).None? <==> forall r :: r in Gather(images) ==> !(r.format.Gif? && !r.still)
    ensures Pick(images, maxBytes).Some? ==>
              var b := Pick(images, maxBytes).value;
              b in Gather(images) && Eligible(Rules(maxBytes)[n], b) &&
              forall r :: r in Gather(images) && Eligible(Rules(maxBytes)[n], r) ==>
                r.area < b.area || (r.area == b.area && b.kind <= r.kind)
  {
    hide Gather, Best, FirstBest;
    var rs, rules := Gather(images), Rules(maxBytes);
    n := FirstRuleThatFinds(rs, rules);
    forall k | 0 <= k < 10 ensures
        match Best(rs, rules[k])
        case None => forall r :: r in rs ==> !Eligible(rules[k], r)
        case Some(b) => b in rs && Eligible(rules[k], b) && forall r :: r in rs && Eligible(rules[k], r) ==>
                          r.area < b.area || (r.area == b.area && b.kind <= r.kind) {
      BestIsLargest(rs, rules[k]);
    }
    assert forall r :: Eligible(rules[9], r) <==> r.format.Gif? && !r.still;
  }

  /** The preference among animated renditions, best first: medium, small, extra small, high
      and other tiers within the size, then the same tiers beyond it. */
  function Rank(maxBytes: int, r: Rendition): nat {
    var beyond := if r.bytes > 0 && r.bytes > maxBytes then 5 else 0;
    match r.tier
    case Md => beyond
    case Sm => beyond + 1
    case Xs => beyond + 2
    case Hd => beyond + 3
    case OtherTier => beyond + 4
  }

  /** The ten passes amount to one order: the pick has the least rank of all animated
      renditions and, of those, the largest area, and of those the first kind. */
  lemma PickHasLeastRank(images: seq<Image>, maxBytes: int)
    ensures match Pick(images, maxBytes)
            case None => forall r :: r in Gather(images) ==> r.format != Gif || r.still
            case Some(b) =>
              && b in Gather(images) && b.format == Gif && !b.still
              && forall r :: r in Gather(images) && r.format == Gif && !r.still ==>
                   if Rank(maxBytes, r) != Rank(maxBytes, b) then Rank(maxBytes, r) > Rank(maxBytes, b)
                   else if r.area != b.area then r.area < b.area
                   else b.kind <= r.kind
  {
    var n := PickIsPreferred(images, maxBytes);
    hide Gather, Pick;
    assert forall r: Rendition :: r.format.Gif? && !r.still ==> Eligible(Rules(maxBytes)[Rank(maxBytes, r)], r);
    assert n < 10 ==> forall r: Rendition :: Eligible(Rules(maxBytes)[n], r) ==> Rank(maxBytes, r) <= n;
  }

  // ----------------------------------------------------------- what is listed

  predicate DistinctKinds(images: seq<Image>) {
    forall i, j :: 0 <= i < j < |images| ==> images[i].kind != images[j].kind
  }

  predicate Offers(im: Image, k: nat, url: Url) {
    k < |im.candidates| && im.candidates[k].url == url && im.candidates[k].format.Some?
  }

  /** The first of the n first candidates with this URL and a known format; n if none. */
  function PosIn(im: Image, url: Url, n: nat): (pos: nat)
    requires n <= |im.candidates|
    ensures pos <= n && (pos < n ==> Offers(im, pos, url))
  {
    if n == 0 then 0
    else
      var pos := PosIn(im, url, n - 1);
      if pos < n - 1 || Offers(im, n - 1, url) then pos else n
  }

  function Pos(im: Image, url: Url): nat {
    PosIn(im, url, |im.candidates|)
  }

  predicate Holds(im: Image, url: Url) {
    Pos(im, url) < |im.candidates|
  }

  /** What an image lists for a URL when no image before it does. */
  function Listing(im: Image, url: Url): Rendition
    requires Holds(im, url)
  {
    var c := im.candidates[Pos(im, url)];
    Rendition(url, c.format.value, im.kind, im.tier, im.area, c.size, im.still)
  }

  lemma {:induction false} PosIsStable(im: Image, url: Url, n: nat, m: nat)
    requires n <= m <= |im.candidates| && PosIn(im, url, n) < n
    ensures PosIn(im, url, m) == PosIn(im, url, n)
    decreases m
  {
    if n < m {
      PosIsStable(im, url, n, m - 1);
    }
  }

  /** `out` is `rs` and then what the first n candidates of `im` add, in their order. */
  ghost predicate Extended(rs: seq<Rendition>, im: Image, n: nat, out: seq<Rendition>)
    requires n <= |im.candidates|
  {
    && |rs| <= |out| && out[..|rs|] == rs
    && (forall j :: |rs| <= j < |out| ==> Added(rs, im, n, out[j]))
    && (forall u :: PosIn(im, u, n) < n ==> Listed(out, u))
    && (forall j, k :: |rs| <= j < k < |out| ==> Pos(im, out[j].url) < Pos(im, out[k].url))
  }

  predicate Added(rs: seq<Rendition>, im: Image, n: nat, r: Rendition)
    requires n <= |im.candidates|
  {
    PosIn(im, r.url, n) < n && Holds(im, r.url) && r == Listing(im, r.url) && !Listed(rs, r.url)
  }

  lemma {:induction false} AddImageExtends(rs: seq<Rendition>, im: Image, n: nat)
    requires n <= |im.candidates|
    ensures Extended(rs, im, n, AddImage(rs, im, n))
  {
    hide Pos, Listed;
    if n > 0 {
      AddImageExtends(rs, im, n - 1);
      AddCandidateExtends(rs, im, n, AddImage(rs, im, n - 1));
    }
  }

  lemma AddCandidateExtends(rs: seq<Rendition>, im: Image, n: nat, out: seq<Rendition>)
    requires 0 < n <= |im.candidates| && Extended(rs, im, n - 1, out)
    ensures Extended(rs, im, n, AddCandidate(out, im, im.candidates[n - 1]))
  {
    hide Listed, PosIn, Pos, Added;
    var c := im.candidates[n - 1];
    var more := AddCandidate(out, im, c);
    AddOne(out, im, c);
    AddedStays(rs, im, n, out);
    forall u | PosIn(im, u, n) < n ensures Listed(more, u) {
      PosInStep(im, u, n);
    }
    if more != out {
      LastIsAdded(rs, im, n, out);
    }
  }

  lemma AddedStays(rs: seq<Rendition>, im: Image, n: nat, out: seq<Rendition>)
    requires 0 < n <= |im.candidates| && Extended(rs, im, n - 1, out)
    ensures forall j :: |rs| <= j < |out| ==> Added(rs, im, n, out[j]) && Pos(im, out[j].url) < n - 1
  {
    hide Listed, PosIn;
    forall j | |rs| <= j < |out| ensures Added(rs, im, n, out[j]) && Pos(im, out[j].url) < n - 1 {
      PosInStep(im, out[j].url, n);
      PosIsStable(im, out[j].url, n - 1, |im.candidates|);
    }
  }

  lemma LastIsAdded(rs: seq<Rendition>, im: Image, n: nat, out: seq<Rendition>)
    requires 0 < n <= |im.candidates| && Extended(rs, im, n - 1, out)
    requires var c := im.candidates[n - 1]; !Listed(out, c.url) && c.format.Some?
    ensures var c := im.candidates[n - 1];
            && Added(rs, im, n, Rendition(c.url, c.format.value, im.kind, im.tier, im.area, c.size, im.still))
            && Pos(im, c.url) == n - 1
  {
    hide Listed, PosIn;
    var u := im.candidates[n - 1].url;
    NotListedBefore(rs, out, u);
    PosInStep(im, u, n);
    PosIsStable(im, u, n, |im.candidates|);
  }

  lemma PosInStep(im: Image, u: Url, n: nat)
    requires 0 < n <= |im.candidates|
    ensures var c := im.candidates[n - 1];
            PosIn(im, u, n) == if PosIn(im, u, n - 1) < n - 1 then PosIn(im, u, n - 1)
                               else if c.url == u && c.format.Some? then n - 1 else n
  {
  }

  lemma NotListedBefore(rs: seq<Rendition>, out: seq<Rendition>, u: Url)
    requires |rs| <= |out| && out[..|rs|] == rs && !Listed(out, u)
    ensures !Listed(rs, u)
  {
    forall k | 0 <= k < |rs| ensures rs[k].url != u {
      assert out[k] == rs[k];
    }
  }

  ghost predicate FirstHolder(images: seq<Image>, i: int, url: Url) {
    0 <= i < |images| && Holds(images[i], url) && forall j :: 0 <= j < i ==> !Holds(images[j], url)
  }

  ghost predicate ListedBy(images: seq<Image>, i: int, r: Rendition) {
    0 <= i < |images| && FirstHolder(images, i, r.url) && Holds(images[i], r.url) && r == Listing(images[i], r.url)
  }

  ghost predicate ListedBySome(images: seq<Image>, r: Rendition) {
    exists i :: ListedBy(images, i, r)
  }

  /** Each URL some image holds is listed as its first holder has it, and the URLs of one
      image are in the order of its candidates. */
  ghost predicate Lists(images: seq<Image>, rs: seq<Rendition>) {
    && (forall j :: 0 <= j < |rs| ==> ListedBySome(images, rs[j]))
    && (forall i, u :: 0 <= i < |images| && Holds(images[i], u) ==> Listed(rs, u))
    && (forall j, k, i :: 0 <= j < k < |rs| && ListedBy(images, i, rs[j]) && ListedBy(images, i, rs[k]) ==>
          Pos(images[i], rs[j].url) < Pos(images[i], rs[k].url))
  }

  lemma {:induction false} GatherLists(images: seq<Image>)
    ensures Lists(images, Gather(images))
    decreases |images|
  {
    hide Lists, AddImage;
    if images == [] {
      assert Lists(images, []) by { NothingLists(); }
    } else {
      var n := |images| - 1;
      var im := images[n];
      GatherLists(images[..n]);
      AddImageExtends(Gather(images[..n]), im, |im.candidates|);
      ExtendedLists(images[..n], Gather(images[..n]), im, AddImage(Gather(images[..n]), im, |im.candidates|));
      assert images == images[..n] + [im];
    }
  }

  lemma NothingLists()
    ensures Lists([], [])
  {
  }

  lemma SameFirstHolder(images: seq<Image>, im: Image, i: int, u: Url)
    requires 0 <= i < |images|
    ensures FirstHolder(images + [im], i, u) <==> FirstHolder(images, i, u)
  {
    hide Holds;
    var all := images + [im];
    assert forall j :: 0 <= j < |images| ==> all[j] == images[j];
  }

  lemma LastFirstHolder(images: seq<Image>, rs: seq<Rendition>, im: Image, u: Url)
    requires Lists(images, rs)
    ensures FirstHolder(images + [im], |images|, u) <==> Holds(im, u) && !Listed(rs, u)
  {
    hide Holds;
    var all := images + [im];
    assert forall j :: 0 <= j < |images| ==> all[j] == images[j];
    if Listed(rs, u) {
      var k :| 0 <= k < |rs| && rs[k].url == u;
      var i :| ListedBy(images, i, rs[k]);
      assert Holds(all[i], u);
    }
    if Holds(im, u) && !Listed(rs, u) {
      forall j | 0 <= j < |images| ensures !Holds(all[j], u) {
        assert all[j] == images[j];
      }
    }
  }

  lemma ExtendedLists(images: seq<Image>, rs: seq<Rendition>, im: Image, out: seq<Rendition>)
    requires Lists(images, rs) && Extended(rs, im, |im.candidates|, out)
    ensures Lists(images + [im], out)
  {
    hide Holds, Listed, FirstHolder, PosIn, Listing;
    var all := images + [im];
    forall i, u | 0 <= i < |images| ensures FirstHolder(all, i, u) <==> FirstHolder(images, i, u) {
      SameFirstHolder(images, im, i, u);
    }
    forall u ensures FirstHolder(all, |images|, u) <==> Holds(im, u) && !Listed(rs, u) {
      LastFirstHolder(images, rs, im, u);
    }
    forall u ensures Listed(rs, u) ==> Listed(out, u) {
      ListedInMore(rs, out, u);
    }
    forall j | 0 <= j < |out|
      ensures ListedBySome(all, out[j])
      ensures forall i :: ListedBy(all, i, out[j]) ==> if j < |rs| then ListedBy(images, i, rs[j]) else i == |images|
    {
      ListedWhere(images, rs, im, out, j);
    }
    forall i, u | 0 <= i < |all| && Holds(all[i], u) ensures Listed(out, u) {
      if i == |images| {
        assert Pos(im, u) == PosIn(im, u, |im.candidates|) < |im.candidates| by { HeldPos(im, u); }
      } else {
        assert all[i] == images[i];
      }
    }
    forall j, k, i | 0 <= j < k < |out| && ListedBy(all, i, out[j]) && ListedBy(all, i, out[k])
      ensures Pos(all[i], out[j].url) < Pos(all[i], out[k].url)
    {
      if k < |rs| {
        assert out[j] == rs[j] && out[k] == rs[k] && ListedBy(images, i, rs[j]) && ListedBy(images, i, rs[k]);
        assert all[i] == images[i];
      } else {
        assert i == |images| && all[i] == im && j >= |rs|;
      }
    }
  }

  lemma HeldPos(im: Image, u: Url)
    ensures Holds(im, u) <==> PosIn(im, u, |im.candidates|) < |im.candidates|
  {
  }

  lemma ListedInMore(rs: seq<Rendition>, out: seq<Rendition>, u: Url)
    requires |rs| <= |out| && out[..|rs|] == rs
    ensures Listed(rs, u) ==> Listed(out, u)
  {
    if Listed(rs, u) {
      var k :| 0 <= k < |rs| && rs[k].url == u;
      assert out[k] == rs[k];
    }
  }

  /** The old entries are listed by the images before, the new ones by the last. */
  lemma ListedWhere(images: seq<Image>, rs: seq<Rendition>, im: Image, out: seq<Rendition>, j: nat)
    requires Lists(images, rs) && Extended(rs, im, |im.candidates|, out) && j < |out|
    ensures var all := images + [im];
            && ListedBySome(all, out[j])
            && (forall i :: ListedBy(all, i, out[j]) ==>
                  if j < |rs| then ListedBy(images, i, rs[j]) else i == |images|)
  {
    hide Holds, FirstHolder, PosIn, Listing;
    var all := images + [im];
    var u := out[j].url;
    LastFirstHolder(images, rs, im, u);
    forall i | 0 <= i < |images| ensures FirstHolder(all, i, u) <==> FirstHolder(images, i, u) {
      SameFirstHolder(images, im, i, u);
    }
    if j < |rs| {
      assert out[j] == rs[j];
      var i :| ListedBy(images, i, rs[j]);
      assert ListedBy(all, i, out[j]);
    } else {
      assert Added(rs, im, |im.candidates|, out[j]);
      assert ListedBy(all, |images|, out[j]);
    }
  }

  // ----------------------------------------------------- does the order matter?

  /** The first rule the rendition is eligible under; their number if there is none. */
  function RuleIndexIn(rules: seq<Rule>, r: Rendition): (n: nat)
    ensures n <= |rules|
  {
    if rules == [] || Eligible(rules[0], r) then 0 else 1 + RuleIndexIn(rules[1..], r)
  }

  function RuleIndex(maxBytes: int, r: Rendition): nat {
    RuleIndexIn(Rules(maxBytes), r)
  }

  /** The k-th rendition wins a pass: it is better than the eligible ones before it and no
      eligible one after it is better. */
  ghost predicate WinsPass(rs: seq<Rendition>, rule: Rule, k: int) {
    && 0 <= k < |rs| && Eligible(rule, rs[k])
    && (forall j :: 0 <= j < k && Eligible(rule, rs[j]) ==> Better(rs[k], rs[j]))
    && (forall j :: k < j < |rs| && Eligible(rule, rs[j]) ==> !Better(rs[j], rs[k]))
  }

  lemma NewWinner(before: seq<Rendition>, r: Rendition, rule: Rule, k: int)
    requires WinsPass(before, rule, k) && Eligible(rule, r) && Better(r, before[k])
    ensures WinsPass(before + [r], rule, |before|)
  {
    hide Eligible;
    forall j | 0 <= j < |before| && Eligible(rule, before[j]) ensures Better(r, before[j]) {
      assert j == k || Better(before[k], before[j]) || !Better(before[j], before[k]);
    }
  }

  lemma SameWinner(before: seq<Rendition>, r: Rendition, rule: Rule, k: int)
    requires WinsPass(before, rule, k) && !(Eligible(rule, r) && Better(r, before[k]))
    ensures WinsPass(before + [r], rule, k)
  {
    hide Eligible, Better;
  }

  lemma {:induction false} BestWinsPass(rs: seq<Rendition>, rule: Rule)
    ensures match Best(rs, rule)
            case None => forall j :: 0 <= j < |rs| ==> !Eligible(rule, rs[j])
            case Some(b) => exists k :: WinsPass(rs, rule, k) && rs[k] == b
    decreases |rs|
  {
    hide Eligible, Better;
    if rs != [] {
      var n := |rs| - 1;
      var before, r := rs[..n], rs[n];
      assert rs == before + [r];
      BestWinsPass(before, rule);
      var b := Best(before, rule);
      if b.Some? {
        var k :| WinsPass(before, rule, k) && before[k] == b.value;
        if Eligible(rule, r) && Better(r, b.value) {
          NewWinner(before, r, rule, k);
        } else {
          SameWinner(before, r, rule, k);
        }
      } else if Eligible(rule, r) {
        assert WinsPass(rs, rule, n);
      }
    }
  }

  /** The k-th rendition wins: an earlier rule, or the same and a won pass. */
  ghost predicate WinsAll(rs: seq<Rendition>, rules: seq<Rule>, k: int) {
    && 0 <= k < |rs| && RuleIndexIn(rules, rs[k]) < |rules|
    && (forall j :: 0 <= j < |rs| ==> RuleIndexIn(rules, rs[k]) <= RuleIndexIn(rules, rs[j]))
    && (forall j :: 0 <= j < k && RuleIndexIn(rules, rs[j]) == RuleIndexIn(rules, rs[k]) ==> Better(rs[k], rs[j]))
    && (forall j :: k < j < |rs| && RuleIndexIn(rules, rs[j]) == RuleIndexIn(rules, rs[k]) ==> !Better(rs[j], rs[k]))
  }

  lemma {:induction false} FirstBestWins(rs: seq<Rendition>, rules: seq<Rule>)
    ensures match FirstBest(rs, rules)
            case None => forall j :: 0 <= j < |rs| ==> RuleIndexIn(rules, rs[j]) == |rules|
            case Some(b) => exists k :: WinsAll(rs, rules, k) && rs[k] == b
    decreases |rules|
  {
    hide Eligible, Better, Best;
    if rules != [] {
      BestWinsPass(rs, rules[0]);
      if Best(rs, rules[0]).Some? {
        var k :| WinsPass(rs, rules[0], k) && rs[k] == Best(rs, rules[0]).value;
        assert WinsAll(rs, rules, k);
      } else {
        FirstBestWins(rs, rules[1..]);
        if FirstBest(rs, rules[1..]).Some? {
          var k :| WinsAll(rs, rules[1..], k) && rs[k] == FirstBest(rs, rules[1..]).value;
          assert WinsAll(rs, rules, k);
        }
      }
    }
  }

  /** The URL `u` as `h` lists it is preferred to `v` as `g` lists it. */
  predicate Beats(maxBytes: int, h: Image, u: Url, g: Image, v: Url)
    requires Holds(h, u) && Holds(g, v)
  {
    var m, n := RuleIndex(maxBytes, Listing(h, u)), RuleIndex(maxBytes, Listing(g, v));
    m < n || (m == n && (Better(Listing(h, u), Listing(g, v)) || (h == g && Pos(h, u) < Pos(h, v))))
  }

  lemma BeatsIsStrict(maxBytes: int, h: Image, u: Url, g: Image, v: Url)
    requires Holds(h, u) && Holds(g, v) && Beats(maxBytes, h, u, g, v)
    ensures !Beats(maxBytes, g, v, h, u)
  {
    hide RuleIndex, Pos, Holds;
  }

  predicate Animated(maxBytes: int, im: Image, u: Url)
    requires Holds(im, u)
  {
    RuleIndex(maxBytes, Listing(im, u)) < 10
  }

  /** In this order the i-th image lists `u`, an animated rendition preferred to every other
      URL listed. */
  ghost predicate WinsOrder(images: seq<Image>, maxBytes: int, i: int, u: Url) {
    && FirstHolder(images, i, u) && Holds(images[i], u) && Animated(maxBytes, images[i], u)
    && forall j, v :: FirstHolder(images, j, v) && Holds(images[j], v) && v != u ==>
         Beats(maxBytes, images[i], u, images[j], v)
  }

  lemma SameKindSameImage(images: seq<Image>, i: int, j: int)
    requires DistinctKinds(images) && 0 <= i < |images| && 0 <= j < |images| && images[i].kind == images[j].kind
    ensures i == j
  {
  }

  lemma WinnerBeats(images: seq<Image>, maxBytes: int, rs: seq<Rendition>, k: int, i: int, j: int, v: Url)
    requires DistinctKinds(images) && Lists(images, rs) && WinsAll(rs, Rules(maxBytes), k)
    requires ListedBy(images, i, rs[k]) && FirstHolder(images, j, v) && Holds(images[j], v) && v != rs[k].url
    ensures Beats(maxBytes, images[i], rs[k].url, images[j], v)
  {
    hide Holds, Rules, PosIn;
    assert Listed(rs, v);
    var l :| 0 <= l < |rs| && rs[l].url == v;
    var j' :| ListedBy(images, j', rs[l]);
    assert j' == j;
    if rs[l].kind == rs[k].kind {
      SameKindSameImage(images, i, j);
    }
  }

  lemma PickWins(images: seq<Image>, maxBytes: int)
    requires DistinctKinds(images)
    ensures match Pick(images, maxBytes)
            case None =>
              forall i, u :: FirstHolder(images, i, u) && Holds(images[i], u) ==> !Animated(maxBytes, images[i], u)
            case Some(b) => exists i :: WinsOrder(images, maxBytes, i, b.url)
  {
    hide Holds, Rules, Gather, FirstBest, Lists, DistinctKinds, Listing;
    var rs, rules := Gather(images), Rules(maxBytes);
    GatherLists(images);
    FirstBestWins(rs, rules);
    assert |rules| == 10 by { TenRules(maxBytes); }
    if FirstBest(rs, rules).Some? {
      var k :| WinsAll(rs, rules, k) && rs[k] == FirstBest(rs, rules).value;
      ListedIs(images, rs, maxBytes, k);
      var i :| ListedBy(images, i, rs[k]) && Animated(maxBytes, images[i], rs[k].url);
      forall j, v | FirstHolder(images, j, v) && Holds(images[j], v) && v != rs[k].url
        ensures Beats(maxBytes, images[i], rs[k].url, images[j], v)
      {
        WinnerBeats(images, maxBytes, rs, k, i, j, v);
      }
      assert WinsOrder(images, maxBytes, i, rs[k].url);
    } else {
      forall i, u | FirstHolder(images, i, u) && Holds(images[i], u) ensures !Animated(maxBytes, images[i], u) {
        HeldIsListed(images, rs, i, u);
      }
    }
  }

  lemma TenRules(maxBytes: int)
    ensures |Rules(maxBytes)| == 10
  {
  }

  lemma ListedIs(images: seq<Image>, rs: seq<Rendition>, maxBytes: int, k: int)
    requires Lists(images, rs) && WinsAll(rs, Rules(maxBytes), k)
    ensures exists i :: ListedBy(images, i, rs[k]) && Animated(maxBytes, images[i], rs[k].url)
  {
    hide Holds, Rules;
    TenRules(maxBytes);
    assert ListedBySome(images, rs[k]);
    var i :| ListedBy(images, i, rs[k]);
    assert Animated(maxBytes, images[i], rs[k].url);
  }

  lemma HeldIsListed(images: seq<Image>, rs: seq<Rendition>, i: int, u: Url)
    requires Lists(images, rs) && FirstHolder(images, i, u)
    ensures exists k :: 0 <= k < |rs| && rs[k] == Listing(images[i], u)
  {
    hide Holds, PosIn;
    assert Listed(rs, u);
    var k :| 0 <= k < |rs| && rs[k].url == u;
    assert ListedBySome(images, rs[k]);
    var j :| ListedBy(images, j, rs[k]);
    assert j == i;
  }

  function PickedUrl(images: seq<Image>, maxBytes: int): Option<Url> {
    var picked := Pick(images, maxBytes);
    if picked.None? then None else Some(picked.value.url)
  }

  lemma WinnerIsPicked(images: seq<Image>, maxBytes: int, i: int, u: Url)
    requires DistinctKinds(images) && WinsOrder(images, maxBytes, i, u)
    ensures PickedUrl(images, maxBytes) == Some(u)
  {
    hide Pick, Holds, Beats, Animated;
    PickWins(images, maxBytes);
    if Pick(images, maxBytes).Some? {
      var v := Pick(images, maxBytes).value.url;
      var j :| WinsOrder(images, maxBytes, j, v);
      if v != u {
        BeatsIsStrict(maxBytes, images[i], u, images[j], v);
      }
    }
  }

  // ---------------------------------------------------------------- all the orders

  /** Another order in which the same map may be iterated. */
  ghost predicate Order(images: seq<Image>, order: seq<Image>) {
    DistinctKinds(order) && forall im :: im in order <==> im in images
  }

  ghost predicate OrderIrrelevant(images: seq<Image>, maxBytes: int) {
    forall a, b :: Order(images, a) && Order(images, b) ==> PickedUrl(a, maxBytes) == PickedUrl(b, maxBytes)
  }

  /** In some order `h` is the first image to list `u`, and `g` the first to list `v`. */
  predicate Together(h: Image, u: Url, g: Image, v: Url) {
    h == g || !Holds(g, u) || !Holds(h, v)
  }

  /** Whichever image lists `u`, it is animated and preferred to every other URL that can be
      listed beside it. */
  ghost predicate Dominates(images: seq<Image>, maxBytes: int, u: Url) {
    && (exists h :: h in images && Holds(h, u))
    && (forall h :: h in images && Holds(h, u) ==> Animated(maxBytes, h, u))
    && (forall h, g, v :: h in images && g in images && Holds(h, u) && Holds(g, v) && v != u && Together(h, u, g, v) ==>
          Beats(maxBytes, h, u, g, v))
  }

  ghost predicate NothingAnimated(images: seq<Image>, maxBytes: int) {
    forall h, u :: h in images && Holds(h, u) ==> !Animated(maxBytes, h, u)
  }

  function Without(images: seq<Image>, kind: nat): seq<Image> {
    if images == [] then []
    else if images[0].kind == kind then Without(images[1..], kind)
    else [images[0]] + Without(images[1..], kind)
  }

  lemma {:induction false} WithoutKeeps(images: seq<Image>, kind: nat)
    requires DistinctKinds(images)
    ensures DistinctKinds(Without(images, kind))
    ensures forall im :: im in Without(images, kind) <==> im in images && im.kind != kind
    decreases |images|
  {
    if images != [] {
      WithoutKeeps(images[1..], kind);
      var rest := Without(images[1..], kind);
      assert forall im :: im in images <==> im == images[0] || im in images[1..];
      forall i | 0 <= i < |rest| ensures rest[i].kind != images[0].kind {
        assert rest[i] in images[1..];
      }
    }
  }

  /** The order with this image first and the rest as they were. */
  function Front(images: seq<Image>, h: Image): seq<Image> {
    [h] + Without(images, h.kind)
  }

  lemma FrontIsOrder(images: seq<Image>, order: seq<Image>, h: Image)
    requires Order(images, order) && h in images
    ensures Order(images, Front(order, h))
  {
    hide Without;
    WithoutKeeps(order, h.kind);
    var rest := Without(order, h.kind);
    forall i | 0 <= i < |rest| ensures rest[i].kind != h.kind {
      assert rest[i] in rest;
    }
    forall im | im in order && im.kind == h.kind ensures im == h {
    }
  }

  lemma TogetherInSomeOrder(images: seq<Image>, h: Image, u: Url, g: Image, v: Url)
    returns (order: seq<Image>, i: nat, j: nat)
    requires DistinctKinds(images) && h in images && g in images
    requires Holds(h, u) && Holds(g, v) && Together(h, u, g, v)
    ensures Order(images, order) && i < |order| && j < |order| && order[i] == h && order[j] == g
    ensures FirstHolder(order, i, u) && FirstHolder(order, j, v)
  {
    hide Holds, DistinctKinds, Without, Order;
    assert Order(images, images) by { OwnOrder(images); }
    if h == g {
      order, i, j := Front(images, h), 0, 0;
      FrontIsOrder(images, images, h);
    } else {
      KindsDiffer(images, h, g);
      FrontIsOrder(images, images, g);
      FrontIsOrder(images, Front(images, g), h);
      FrontIsOrder(images, images, h);
      FrontIsOrder(images, Front(images, h), g);
      if !Holds(h, v) {
        order, i, j := Front(Front(images, g), h), 0, 1;
        SecondInFront(images, g, h);
      } else {
        order, i, j := Front(Front(images, h), g), 1, 0;
        SecondInFront(images, h, g);
      }
    }
  }

  lemma OwnOrder(images: seq<Image>)
    requires DistinctKinds(images)
    ensures Order(images, images)
  {
  }

  lemma KindsDiffer(images: seq<Image>, h: Image, g: Image)
    requires DistinctKinds(images) && h in images && g in images && h != g
    ensures h.kind != g.kind
  {
  }

  lemma SecondInFront(images: seq<Image>, g: Image, h: Image)
    requires g.kind != h.kind
    ensures var order := Front(Front(images, g), h); |order| >= 2 && order[0] == h && order[1] == g
  {
  }

  lemma {:induction false} FirstHolderExists(images: seq<Image>, n: nat, u: Url) returns (i: nat)
    requires n < |images| && Holds(images[n], u)
    ensures i <= n && FirstHolder(images, i, u)
  {
    hide Holds;
    if k :| 0 <= k < n && Holds(images[k], u) {
      i := FirstHolderExists(images, k, u);
    } else {
      i := n;
    }
  }

  lemma DominantIsPicked(images: seq<Image>, order: seq<Image>, maxBytes: int, u: Url)
    requires Dominates(images, maxBytes, u) && Order(images, order)
    ensures PickedUrl(order, maxBytes) == Some(u)
  {
    hide Holds, Beats, Animated, DistinctKinds;
    var h :| h in images && Holds(h, u);
    assert h in order;
    var n :| 0 <= n < |order| && order[n] == h;
    var i := FirstHolderExists(order, n, u);
    assert order[i] in images;
    forall j, v | FirstHolder(order, j, v) && Holds(order[j], v) && v != u
      ensures Beats(maxBytes, order[i], u, order[j], v)
    {
      assert order[j] in images;
      assert Together(order[i], u, order[j], v);
    }
    assert WinsOrder(order, maxBytes, i, u);
    WinnerIsPicked(order, maxBytes, i, u);
  }

  lemma NothingIsPicked(images: seq<Image>, order: seq<Image>, maxBytes: int)
    requires NothingAnimated(images, maxBytes) && Order(images, order)
    ensures PickedUrl(order, maxBytes) == None
  {
    hide Holds, Beats, Animated, DistinctKinds, Pick, FirstHolder;
    PickWins(order, maxBytes);
    if Pick(order, maxBytes).Some? {
      var i :| WinsOrder(order, maxBytes, i, Pick(order, maxBytes).value.url);
      HolderIsIn(order, i, Pick(order, maxBytes).value.url);
    }
  }

  lemma HolderIsIn(images: seq<Image>, i: int, u: Url)
    ensures FirstHolder(images, i, u) ==> 0 <= i < |images| && images[i] in images
  {
  }

  /** In an order in which both are listed first, the URL picked beats the other. */
  lemma PickedBeats(images: seq<Image>, maxBytes: int, h: Image, u: Url, g: Image, v: Url)
    requires DistinctKinds(images) && h in images && g in images
    requires Holds(h, u) && Holds(g, v) && Together(h, u, g, v)
    requires forall order :: Order(images, order) ==> PickedUrl(order, maxBytes) == Some(u)
    ensures Animated(maxBytes, h, u) && (v != u ==> Beats(maxBytes, h, u, g, v))
  {
    hide Holds, Beats, Animated, DistinctKinds, Pick, Together;
    var order, i, j := TogetherInSomeOrder(images, h, u, g, v);
    OrderIsDistinct(images, order);
    PickWins(order, maxBytes);
    assert PickedUrl(order, maxBytes) == Some(u);
    var k :| WinsOrder(order, maxBytes, k, u);
    assert k == i;
  }

  lemma OrderIsDistinct(images: seq<Image>, order: seq<Image>)
    requires Order(images, order)
    ensures DistinctKinds(order)
  {
  }

  /** The URL that is downloaded does not depend on the order exactly when nothing is
      animated, or one URL is animated wherever it is listed and preferred, as each image
      lists it, to every URL that can be listed beside it. */
  lemma OrderIrrelevantExactly(images: seq<Image>, maxBytes: int)
    requires DistinctKinds(images)
    ensures OrderIrrelevant(images, maxBytes) <==>
            NothingAnimated(images, maxBytes) || exists u :: Dominates(images, maxBytes, u)
  {
    hide Holds, Beats, Animated, DistinctKinds, PickedUrl, Order, Dominates, NothingAnimated;
    if NothingAnimated(images, maxBytes) {
      forall order | Order(images, order) ensures PickedUrl(order, maxBytes) == None {
        NothingIsPicked(images, order, maxBytes);
      }
    } else if u: Url :| Dominates(images, maxBytes, u) {
      forall order | Order(images, order) ensures PickedUrl(order, maxBytes) == Some(u) {
        DominantIsPicked(images, order, maxBytes, u);
      }
    } else if OrderIrrelevant(images, maxBytes) {
      var u := SomethingIsPicked(images, maxBytes);
      AlwaysPickedDominates(images, maxBytes, u);
    }
  }

  lemma SomethingIsPicked(images: seq<Image>, maxBytes: int) returns (u: Url)
    requires DistinctKinds(images) && OrderIrrelevant(images, maxBytes) && !NothingAnimated(images, maxBytes)
    ensures forall order :: Order(images, order) ==> PickedUrl(order, maxBytes) == Some(u)
    ensures exists h :: h in images && Holds(h, u)
  {
    hide Holds, Animated, DistinctKinds, Pick, Order, Together, FirstHolder, Beats;
    var h, v :| h in images && Holds(h, v) && Animated(maxBytes, h, v);
    assert Together(h, v, h, v) by { TogetherAlone(h, v); }
    var order, i, j := TogetherInSomeOrder(images, h, v, h, v);
    OrderIsDistinct(images, order);
    PickWins(order, maxBytes);
    assert Pick(order, maxBytes).Some?;
    u := Pick(order, maxBytes).value.url;
    var k :| WinsOrder(order, maxBytes, k, u);
    HolderIsIn(order, k, u);
    assert order[k] in images by { InOrder(images, order, order[k]); }
  }

  lemma TogetherAlone(h: Image, v: Url)
    ensures Together(h, v, h, v)
  {
  }

  lemma InOrder(images: seq<Image>, order: seq<Image>, im: Image)
    requires Order(images, order)
    ensures im in order <==> im in images
  {
  }

  lemma AlwaysPickedDominates(images: seq<Image>, maxBytes: int, u: Url)
    requires DistinctKinds(images) && exists h :: h in images && Holds(h, u)
    requires forall order :: Order(images, order) ==> PickedUrl(order, maxBytes) == Some(u)
    ensures Dominates(images, maxBytes, u)
  {
    hide Holds, Beats, Animated, DistinctKinds, PickedUrl, Order, Together;
    forall h | h in images && Holds(h, u) ensures Animated(maxBytes, h, u) {
      TogetherAlone(h, u);
      PickedBeats(images, maxBytes, h, u, h, u);
    }
    forall h, g, v | h in images && g in images && Holds(h, u) && Holds(g, v) && v != u && Together(h, u, g, v)
      ensures Beats(maxBytes, h, u, g, v)
    {
      PickedBeats(images, maxBytes, h, u, g, v);
    }
  }

  /** So the order does not matter when no URL that any image lists as animated is listed by
      a second image: sharing among other formats and stills is harmless. */
  lemma PickIgnoresOrder(images: seq<Image>, maxBytes: int)
    requires DistinctKinds(images)
    requires forall h, g, u ::
               h in images && g in images && Holds(h, u) && Holds(g, u) && Animated(maxBytes, h, u) ==> h == g
    ensures OrderIrrelevant(images, maxBytes)
  {
    hide Holds, Beats, Animated, Pick, OrderIrrelevant;
    OrderIrrelevantExactly(images, maxBytes);
    if !NothingAnimated(images, maxBytes) {
      var h, v :| h in images && Holds(h, v) && Animated(maxBytes, h, v);
      var n :| 0 <= n < |images| && images[n] == h;
      var j := FirstHolderExists(images, n, v);
      assert images[j] in images && images[j] == h;
      PickWins(images, maxBytes);
      assert Pick(images, maxBytes).Some?;
      var u := Pick(images, maxBytes).value.url;
      var i :| WinsOrder(images, maxBytes, i, u);
      assert images[i] in images;
      forall k, g, w | k in images && g in images && Holds(k, u) && Holds(g, w) && w != u && Together(k, u, g, w)
        ensures Beats(maxBytes, k, u, g, w)
      {
        assert k == images[i];
        UnsharedBeats(images, maxBytes, i, u, g, w);
      }
      assert Dominates(images, maxBytes, u);
    }
  }

  lemma UnsharedBeats(images: seq<Image>, maxBytes: int, i: int, u: Url, g: Image, w: Url)
    requires forall h, g, u ::
               h in images && g in images && Holds(h, u) && Holds(g, u) && Animated(maxBytes, h, u) ==> h == g
    requires WinsOrder(images, maxBytes, i, u) && g in images && Holds(g, w) && w != u
    ensures Beats(maxBytes, images[i], u, g, w)
  {
    hide Holds, Better, RuleIndex;
    if Animated(maxBytes, g, w) {
      var n :| 0 <= n < |images| && images[n] == g;
      var j := FirstHolderExists(images, n, w);
      assert images[j] in images && images[j] == g;
    }
  }

  /** With a shared URL it does: listing it under one kind or the other changes its tier,
      and with it the URL that is downloaded. */
  lemma SharedUrlShows() returns (images: seq<Image>, others: seq<Image>)
    ensures DistinctKinds(images) && Order(images, others) && !OrderIrrelevant(images, 0)
    ensures Pick(images, 0).Some? && Pick(others, 0).Some? && Pick(images, 0).value.url != Pick(others, 0).value.url
  {
    var x := Image(0, Md, 1, false, [Candidate(7, Some(Gif), 0)]);
    var y := Image(1, Hd, 1, false, [Candidate(7, Some(Gif), 0)]);
    var z := Image(2, Sm, 1, false, [Candidate(8, Some(Gif), 0)]);
    images, others := [x, y, z], [y, x, z];
    hide Gather, Best;
    SharedIsListedOnce(x, y, z);
    SharedIsListedOnce(y, x, z);
    var x7, y7, z8 := Only(x), Only(y), Only(z);
    hide FirstBest, Rules;
    MediumWins(x7, z8);
    SmallWins(y7, z8);
    OwnOrder(images);
    assert Order(images, others);
  }

  lemma MediumWins(a: Rendition, b: Rendition)
    requires a.format.Gif? && !a.still && a.bytes == 0 && a.tier == Md && b.tier == Sm
    ensures FirstBest([a, b], Rules(0)) == Some(a)
  {
    hide Best;
    BestOfTwo(a, b, Rules(0)[0]);
  }

  lemma SmallWins(a: Rendition, b: Rendition)
    requires b.format.Gif? && !b.still && b.bytes == 0 && b.tier == Sm && a.tier == Hd
    ensures FirstBest([a, b], Rules(0)) == Some(b)
  {
    hide Best;
    BestOfTwo(a, b, Rules(0)[0]);
    BestOfTwo(a, b, Rules(0)[1]);
    assert FirstBest([a, b], Rules(0)) == FirstBest([a, b], Rules(0)[1..]);
  }

  /** The rendition of an image that has one candidate. */
  function Only(im: Image): Rendition
    requires |im.candidates| == 1 && im.candidates[0].format.Some?
  {
    var c := im.candidates[0];
    Rendition(c.url, c.format.value, im.kind, im.tier, im.area, c.size, im.still)
  }

  lemma SharedIsListedOnce(a: Image, b: Image, c: Image)
    requires |a.candidates| == |b.candidates| == |c.candidates| == 1
    requires a.candidates[0].format.Some? && c.candidates[0].format.Some?
    requires a.candidates[0].url == b.candidates[0].url != c.candidates[0].url
    ensures Gather([a, b, c]) == [Only(a), Only(c)]
  {
    assert [a, b, c][..2] == [a, b] && [a, b][..1] == [a] && [a][..0] == [];
    var one := [Only(a)];
    assert one[0].url == a.candidates[0].url;
    assert Listed(one, b.candidates[0].url) && !Listed(one, c.candidates[0].url);
    OneCandidate([], a);
    OneCandidate(one, b);
    OneCandidate(one, c);
    assert Gather([a]) == AddImage(Gather([]), a, 1);
    assert Gather([a, b]) == AddImage(Gather([a]), b, 1);
    assert Gather([a, b, c]) == AddImage(Gather([a, b]), c, 1);
    assert [] + [Only(a)] == one && one + [Only(c)] == [Only(a), Only(c)];
  }

  lemma OneCandidate(rs: seq<Rendition>, im: Image)
    requires |im.candidates| == 1
    ensures AddImage(rs, im, 1) == AddCandidate(rs, im, im.candidates[0])
  {
    assert AddImage(rs, im, 0) == rs;
  }

  lemma BestOfTwo(a: Rendition, b: Rendition, rule: Rule)
    ensures Best([a, b], rule) ==
            if Eligible(rule, b) && (!Eligible(rule, a) || Better(b, a)) then Some(b)
            else if Eligible(rule, a) then Some(a) else None
  {
    assert [a, b][..1] == [a] && [a][..0] == [];
    assert Best([a], rule) == if Eligible(rule, a) then Some(a) else None;
  }
}
