/** Recognising and canonicalising the URLs of Reddit posts. */
module Reddit {
  import opened Text
  import opened Wrappers

  /** A parsed URL; `path` is its escaped path. */
  datatype Url = Url(
    scheme: string,
    hasUser: bool,
    host: string,
    port: string,
    path: string,
    query: string,
    fragment: string)

  datatype Target = Target(url: Url, id: string, comment: string, community: string, share: bool)

  const CANONICAL_HOST := "www.reddit.com"
  const EMBED_HOST := "embed.reddit.com"

  predicate Https(u: Url) {
    u.scheme == "https" && !u.hasUser && (u.port == "" || u.port == "443")
  }

  predicate TokenChar(c: char) {
    'a' <= c <= 'z' || 'A' <= c <= 'Z' || '0' <= c <= '9' || c == '_' || c == '-'
  }

  predicate Token(value: string, max: nat) {
    0 < |value| <= max && forall k :: 0 <= k < |value| ==> TokenChar(value[k])
  }

  predicate ShortHost(host: string) {
    host == "redd.it" || host == "www.redd.it"
  }

  predicate LongHost(host: string) {
    host in ["reddit.com", "www.reddit.com", "old.reddit.com", "new.reddit.com", "m.reddit.com", "sh.reddit.com",
             "np.reddit.com"]
  }

  function TrimLeadingSlashes(s: string): string {
    if s != "" && s[0] == '/' then TrimLeadingSlashes(s[1..]) else s
  }

  function TrimTrailingSlashes(s: string): string {
    if s != "" && s[|s| - 1] == '/' then TrimTrailingSlashes(s[..|s| - 1]) else s
  }

  function Segments(path: string): seq<string> {
    Split(TrimTrailingSlashes(TrimLeadingSlashes(path)), '/')
  }

  predicate JsonSegment(parts: seq<string>) {
    exists k :: 0 <= k < |parts| && HasSuffix(Lower(parts[k]), ".json")
  }

  /** What the path of a post says, apart from the URL itself. */
  datatype Post = Post(id: string, community: string, share: bool, tail: seq<string>, moved: bool)

  function PostAt(short: bool, parts: seq<string>): Option<Post> {
    if short then
      if |parts| == 1 && Token(parts[0], 16) then Some(Post(parts[0], "", false, [], true)) else None
    else if |parts| == 2 && parts[0] == "gallery" && Token(parts[1], 16) then Some(Post(parts[1], "", false, [], true))
    else if |parts| >= 2 && parts[0] == "comments" && Token(parts[1], 16) then
      Some(Post(parts[1], "", false, parts[2..], false))
    else if |parts| == 4 && parts[0] == "r" && Token(parts[1], 128) && parts[2] == "s" && Token(parts[3], 128) then
      Some(Post("", parts[1], true, [], false))
    else if |parts| >= 4 && parts[0] in ["r", "user", "u"] && Token(parts[1], 128)
            && parts[2] == "comments" && Token(parts[3], 16) then
      Some(Post(parts[3], if parts[0] == "r" then parts[1] else "", false, parts[4..], false))
    else None
  }

  function CommentsPath(id: string): string {
    "/comments/" + id + "/"
  }

  function PostTarget(u: Url): Option<Target> {
    var host := Lower(u.host);
    var parts := Segments(u.path);
    if !Https(u) || !(ShortHost(host) || LongHost(host)) || JsonSegment(parts) then None
    else
      match PostAt(ShortHost(host), parts)
      case None => None
      case Some(post) =>
        if |post.tail| > 2 || (|post.tail| == 2 && !Token(post.tail[1], 16)) then None
        else
          var path := if post.moved then CommentsPath(post.id) else u.path;
          var canonical := Url("https", false, CANONICAL_HOST, "", path, "", "");
          Some(Target(canonical, post.id, if |post.tail| == 2 then post.tail[1] else "", post.community, post.share))
  }

  /** Redirects and the first request of the embed document are kept to this predicate. */
  predicate Allowed(u: Url, target: Target) {
    && u.host == EMBED_HOST
    && var post := PostTarget(u.(host := CANONICAL_HOST, port := ""));
       post.Some? && post.value.id == target.id && post.value.comment == target.comment
  }

  function EmbedDocument(target: Target): Url {
    target.url.(host := EMBED_HOST, port := "")
  }

  // ------------------------------------------------------------------- properties

  lemma HostsAreLower()
    ensures Lower(CANONICAL_HOST) == CANONICAL_HOST && LongHost(CANONICAL_HOST) && !ShortHost(CANONICAL_HOST)
  {
  }

  lemma TokenLacks(value: string, max: nat)
    requires Token(value, max)
    ensures '/' !in value && '.' !in value
  {
  }

  lemma SplitWhole(s: string, sep: char)
    requires sep !in s
    ensures Split(s, sep) == [s]
  {
    assert IndexOf(s, sep) == |s|;
  }

  function Joined(parts: seq<string>): string {
    if parts == [] then "" else if |parts| == 1 then parts[0] else parts[0] + ['/'] + Joined(parts[1..])
  }

  predicate Names(parts: seq<string>) {
    parts != [] && forall k :: 0 <= k < |parts| ==> Token(parts[k], 128)
  }

  lemma {:induction false} JoinedSplits(parts: seq<string>)
    requires Names(parts)
    ensures Split(Joined(parts), '/') == parts
    ensures var s := Joined(parts); s != "" && s[0] != '/' && s[|s| - 1] != '/'
    decreases |parts|
  {
    hide Split;
    TokenLacks(parts[0], 128);
    if |parts| == 1 {
      SplitWhole(parts[0], '/');
    } else {
      JoinedSplits(parts[1..]);
      SplitAfter(parts[0], '/', Joined(parts[1..]));
    }
  }

  lemma SegmentsOfJoined(parts: seq<string>)
    requires Names(parts)
    ensures Segments("/" + Joined(parts) + "/") == parts
  {
    JoinedSplits(parts);
    hide Split, Joined;
    var inner := Joined(parts);
    var rest := inner + "/";
    assert ("/" + inner + "/")[1..] == rest;
    assert TrimLeadingSlashes(rest) == rest;
    assert rest[..|rest| - 1] == inner;
    assert TrimTrailingSlashes(rest) == TrimTrailingSlashes(inner);
  }

  lemma NamesAreNotJson(parts: seq<string>)
    requires Names(parts)
    ensures !JsonSegment(parts)
  {
    forall k | 0 <= k < |parts| ensures !HasSuffix(Lower(parts[k]), ".json") {
      TokenLacks(parts[k], 128);
      if |parts[k]| >= 5 {
        assert Lower(parts[k])[|parts[k]| - 5..][0] == Lower(parts[k])[|parts[k]| - 5];
      }
    }
  }

  /** The path written for short and gallery links reads back as that post. */
  lemma CommentsSegments(id: string)
    requires Token(id, 16)
    ensures Segments(CommentsPath(id)) == ["comments", id] && !JsonSegment(["comments", id])
  {
    var parts := ["comments", id];
    assert Token("comments", 128);
    assert Names(parts);
    SegmentsOfJoined(parts);
    NamesAreNotJson(parts);
    assert parts[1..] == [id];
    assert CommentsPath(id) == "/" + Joined(parts) + "/";
  }

  /** Canonicalising a canonical URL changes nothing: the URL, the post, the comment, the
      community and the share mark all stay. */
  lemma CanonicalIsIdempotent(u: Url)
    requires PostTarget(u).Some?
    ensures PostTarget(PostTarget(u).value.url) == PostTarget(u)
  {
    hide Segments, JsonSegment, Lower, Token, LongHost;
    HostsAreLower();
    var t, parts := PostTarget(u).value, Segments(u.path);
    var post := PostAt(ShortHost(Lower(u.host)), parts).value;
    if post.moved {
      assert Token(post.id, 16);
      CommentsSegments(post.id);
      assert ["comments", post.id][2..] == [];
      NotGallery();
    } else {
      assert !ShortHost(Lower(u.host));
    }
  }

  lemma NotGallery()
    ensures "comments" != "gallery"
  {
    assert "comments"[0] != "gallery"[0];
  }

  /** The embed document of a post passes the check that its own request is subject to. */
  lemma EmbedDocumentIsAllowed(u: Url)
    requires PostTarget(u).Some?
    ensures var t := PostTarget(u).value; Https(EmbedDocument(t)) && Allowed(EmbedDocument(t), t)
  {
    hide PostTarget;
    CanonicalIsIdempotent(u);
    CanonicalShape(u);
    var t := PostTarget(u).value;
    assert EmbedDocument(t).(host := CANONICAL_HOST, port := "") == t.url;
  }

  lemma CanonicalShape(u: Url)
    requires PostTarget(u).Some?
    ensures var c := PostTarget(u).value.url;
            && c.scheme == "https" && !c.hasUser && c.host == CANONICAL_HOST
            && c.port == "" && c.query == "" && c.fragment == ""
  {
    hide Segments, JsonSegment, Lower, Token, LongHost;
  }

  /** A share link that resolves to a post is handed on as a canonical URL, which is again
      the URL of that post and not a share link: the caller may ignore the second check. */
  lemma ResolvedShareIsAPost(response: Url)
    requires PostTarget(response).Some? && !PostTarget(response).value.share
    ensures var again := PostTarget(PostTarget(response).value.url);
            again.Some? && again == PostTarget(response) && !again.value.share && again.value.id != ""
  {
    CanonicalIsIdempotent(response);
    PostsHaveIds(response);
    hide PostTarget;
  }

  lemma PostsHaveIds(u: Url)
    requires PostTarget(u).Some? && !PostTarget(u).value.share
    ensures PostTarget(u).value.id != ""
  {
    hide Segments, JsonSegment, Lower, LongHost, ShortHost;
    var post := PostAt(ShortHost(Lower(u.host)), Segments(u.path)).value;
    assert Token(post.id, 16);
  }

  // ------------------------------------------------------------ the known links

  datatype Place = Anywhere | InCommunity(community: string) | OnProfile(user: string, short: bool)

  /** What follows the id of a post: its slug, and one of its comments. */
  datatype Tail = Bare | Slug(slug: string) | CommentOf(slug: string, comment: string)

  /** The shapes of post links, with what they name. */
  datatype Link =
    | Short(id: string)
    | Gallery(id: string)
    | Plain(place: Place, id: string, tail: Tail)
    | Share(community: string, code: string)

  /** A name of at most so many letters, digits, underscores and dashes. */
  predicate Name(value: string, max: nat) {
    && 1 <= |value| <= max
    && forall k :: 0 <= k < |value| ==>
         var c := value[k]; '0' <= c <= '9' || 'A' <= c <= 'Z' || 'a' <= c <= 'z' || c == '_' || c == '-'
  }

  lemma NamesAreTokens(value: string, max: nat)
    ensures Token(value, max) <==> Name(value, max)
  {
  }

  /** An id has at most 16 characters, as has a comment; a community, a user and the code of
      a share at most 128. A slug may be anything. */
  predicate GoodLink(link: Link) {
    match link
    case Short(id) => Name(id, 16)
    case Gallery(id) => Name(id, 16)
    case Plain(place, id, tail) =>
      && Name(id, 16)
      && (place.InCommunity? ==> Name(place.community, 128))
      && (place.OnProfile? ==> Name(place.user, 128))
      && (tail.CommentOf? ==> Name(tail.comment, 16))
    case Share(community, code) => Name(community, 128) && Name(code, 128)
  }

  function PlaceSegments(place: Place): seq<string> {
    match place
    case Anywhere => []
    case InCommunity(community) => ["r", community]
    case OnProfile(user, short) => [if short then "u" else "user", user]
  }

  function TailSegments(tail: Tail): seq<string> {
    match tail
    case Bare => []
    case Slug(slug) => [slug]
    case CommentOf(slug, comment) => [slug, comment]
  }

  function LinkSegments(link: Link): seq<string> {
    match link
    case Short(id) => [id]
    case Gallery(id) => ["gallery", id]
    case Plain(place, id, tail) => PlaceSegments(place) + ["comments", id] + TailSegments(tail)
    case Share(community, code) => ["r", community, "s", code]
  }

  predicate LinkHost(link: Link, host: string) {
    if link.Short? then host in {"redd.it", "www.redd.it"}
    else host in {"reddit.com", "www.reddit.com", "old.reddit.com", "new.reddit.com", "m.reddit.com",
                  "sh.reddit.com", "np.reddit.com"}
  }

  /** The URL is this link: over https without a user and on the usual port, at a host of
      its kind, with these segments, none of them a JSON document. */
  predicate Is(u: Url, link: Link) {
    && u.scheme == "https" && !u.hasUser && u.port in {"", "443"}
    && LinkHost(link, Lower(u.host))
    && GoodLink(link) && Segments(u.path) == LinkSegments(link)
    && forall part :: part in LinkSegments(link) ==> !HasSuffix(Lower(part), ".json")
  }

  /** What a link names, at the canonical host; only short and gallery links are moved. */
  function Read(u: Url, link: Link): Target {
    var path := if link.Short? || link.Gallery? then "/comments/" + link.id + "/" else u.path;
    Target(
      Url("https", false, "www.reddit.com", "", path, "", ""),
      if link.Share? then "" else link.id,
      if link.Plain? && link.tail.CommentOf? then link.tail.comment else "",
      if link.Share? then link.community
      else if link.Plain? && link.place.InCommunity? then link.place.community else "",
      link.Share?)
  }

  function LinkPost(link: Link): Post {
    match link
    case Short(id) => Post(id, "", false, [], true)
    case Gallery(id) => Post(id, "", false, [], true)
    case Plain(place, id, tail) =>
      Post(id, if place.InCommunity? then place.community else "", false, TailSegments(tail), false)
    case Share(community, _) => Post("", community, true, [], false)
  }

  lemma FixedSegments()
    ensures "r" != "comments" && "r" != "gallery" && "user" != "comments" && "u" != "comments"
    ensures "comments" != "gallery" && "s" != "comments" && "u" != "gallery" && "user" != "gallery"
    ensures "user" != "r" && "u" != "r" && "user" != "u"
  {
    assert "comments"[0] != "gallery"[0];
    assert "user"[0] != "gallery"[0];
  }

  lemma LinkIsPost(link: Link)
    requires GoodLink(link)
    ensures PostAt(link.Short?, LinkSegments(link)) == Some(LinkPost(link))
  {
    forall value, max: nat ensures Token(value, max) <==> Name(value, max) {
      NamesAreTokens(value, max);
    }
    hide Token, Name;
    FixedSegments();
    var parts := LinkSegments(link);
    if link.Plain? {
      var tail := TailSegments(link.tail);
      if link.place.Anywhere? {
        assert parts == ["comments", link.id] + tail && parts[2..] == tail;
      } else {
        assert parts == PlaceSegments(link.place) + ["comments", link.id] + tail && parts[4..] == tail;
      }
    }
  }

  /** A post found in a path is that of a link. */
  lemma PostIsLink(short: bool, parts: seq<string>) returns (link: Link)
    requires PostAt(short, parts).Some?
    requires var tail := PostAt(short, parts).value.tail; |tail| <= 2 && (|tail| == 2 ==> Token(tail[1], 16))
    ensures GoodLink(link) && LinkSegments(link) == parts && link.Short? == short
  {
    forall value, max: nat ensures Token(value, max) <==> Name(value, max) {
      NamesAreTokens(value, max);
    }
    hide Token, Name;
    var post := PostAt(short, parts).value;
    var tail :=
      match |post.tail|
      case 0 => Bare
      case 1 => Slug(post.tail[0])
      case _ => CommentOf(post.tail[0], post.tail[1]);
    assert TailSegments(tail) == post.tail;
    if short {
      link := Short(post.id);
    } else if post.moved {
      link := Gallery(post.id);
    } else if post.share {
      link := Share(post.community, parts[3]);
    } else if parts[0] == "comments" && Token(parts[1], 16) {
      link := Plain(Anywhere, post.id, tail);
      assert parts == parts[..2] + parts[2..];
    } else {
      var place := if parts[0] == "r" then InCommunity(parts[1]) else OnProfile(parts[1], parts[0] == "u");
      link := Plain(place, post.id, tail);
      assert parts == parts[..4] + parts[4..];
    }
  }

  lemma ReadOfPost(u: Url, link: Link)
    requires GoodLink(link)
    ensures var post := LinkPost(link);
            var path := if post.moved then CommentsPath(post.id) else u.path;
            && |post.tail| <= 2 && (|post.tail| == 2 ==> Token(post.tail[1], 16))
            && Read(u, link) ==
                 Target(Url("https", false, CANONICAL_HOST, "", path, "", ""), post.id,
                        if |post.tail| == 2 then post.tail[1] else "", post.community, post.share)
  {
    if link.Plain? && link.tail.CommentOf? {
      NamesAreTokens(link.tail.comment, 16);
    }
    hide Token, Name;
  }

  /** Every link is recognised, at every host of its kind and whatever its query and its
      fragment, as exactly what it names. */
  lemma LinksAreRead(u: Url, link: Link)
    requires Is(u, link)
    ensures PostTarget(u) == Some(Read(u, link))
  {
    LinkIsPost(link);
    ReadOfPost(u, link);
    hide Segments, Lower, Token, Name, PostAt, LinkSegments, GoodLink, ShortHost, LongHost, LinkHost, Read, LinkPost,
      CommentsPath;
    HostOfLink(link, Lower(u.host));
    assert forall k :: 0 <= k < |Segments(u.path)| ==> Segments(u.path)[k] in LinkSegments(link);
  }

  lemma HostOfLink(link: Link, host: string)
    ensures LinkHost(link, host) <==> if link.Short? then ShortHost(host) else LongHost(host)
    ensures ShortHost(host) ==> !LongHost(host)
  {
    if ShortHost(host) {
      assert |host| in {7, 11};
      assert host == "www.redd.it" ==> host[9] == 'i';
    }
  }

  /** And nothing else is: what is recognised is one of these links. */
  lemma OnlyLinksAreRead(u: Url) returns (link: Link)
    requires PostTarget(u).Some?
    ensures Is(u, link)
  {
    var short, parts := ShortHost(Lower(u.host)), Segments(u.path);
    hide Segments, Lower, Token, Name, PostAt, LinkSegments, GoodLink, ShortHost, LongHost, LinkHost;
    link := PostIsLink(short, parts);
    HostOfLink(link, Lower(u.host));
    forall part | part in LinkSegments(link) ensures !HasSuffix(Lower(part), ".json") {
      var k :| 0 <= k < |parts| && parts[k] == part;
    }
  }

  function Slashes(n: nat): string {
    seq(n, _ => '/')
  }

  lemma {:induction false} SlashesAreTrimmed(s: string, n: nat)
    requires s != "" && s[0] != '/' && s[|s| - 1] != '/'
    ensures forall t: string :: t != "" && t[0] != '/' ==> TrimLeadingSlashes(Slashes(n) + t) == t
    ensures TrimTrailingSlashes(s + Slashes(n)) == s
  {
    if n == 0 {
      assert s + Slashes(0) == s;
      assert forall t: string :: Slashes(0) + t == t;
    } else {
      SlashesAreTrimmed(s, n - 1);
      assert (s + Slashes(n))[..|s + Slashes(n)| - 1] == s + Slashes(n - 1);
      forall t: string | t != "" && t[0] != '/' ensures TrimLeadingSlashes(Slashes(n) + t) == t {
        assert (Slashes(n) + t)[1..] == Slashes(n - 1) + t;
      }
    }
  }

  /** Names joined by slashes are the segments of their path, with any number of slashes
      before and after them. */
  lemma SegmentsOfPath(parts: seq<string>, before: nat, after: nat)
    requires Names(parts)
    ensures Segments(Slashes(before) + Joined(parts) + Slashes(after)) == parts
  {
    JoinedSplits(parts);
    hide Split, Joined;
    var inner := Joined(parts);
    SlashesAreTrimmed(inner, before);
    SlashesAreTrimmed(inner, after);
    assert Slashes(before) + inner + Slashes(after) == Slashes(before) + (inner + Slashes(after));
  }

  /** So the URL written for a link of names is recognised as that link. */
  lemma KnownLinksAreRead(link: Link, host: string, before: nat, after: nat, query: string, fragment: string)
    requires GoodLink(link) && Names(LinkSegments(link)) && LinkHost(link, Lower(host))
    ensures var path := Slashes(before) + Joined(LinkSegments(link)) + Slashes(after);
            var u := Url("https", false, host, "", path, query, fragment);
            PostTarget(u) == Some(Read(u, link))
  {
    var parts := LinkSegments(link);
    var path := Slashes(before) + Joined(parts) + Slashes(after);
    var u := Url("https", false, host, "", path, query, fragment);
    SegmentsOfPath(parts, before, after);
    NamesAreNotJson(parts);
    hide Segments, Lower, Joined, LinkSegments, GoodLink, Name;
    forall part | part in parts ensures !HasSuffix(Lower(part), ".json") {
      var k :| 0 <= k < |parts| && parts[k] == part;
    }
    LinksAreRead(u, link);
  }

  /** A request for the document of a post and its redirects stay at that host, at that post
      and at that comment. */
  lemma RequestsStayOnPost(u: Url, target: Target) returns (link: Link)
    requires Allowed(u, target)
    ensures u.host == "embed.reddit.com" && Is(u.(host := "www.reddit.com", port := ""), link)
    ensures target.id == (if link.Share? then "" else link.id)
    ensures target.comment == (if link.Plain? && link.tail.CommentOf? then link.tail.comment else "")
  {
    hide PostTarget, Is;
    link := OnlyLinksAreRead(u.(host := "www.reddit.com", port := ""));
    LinksAreRead(u.(host := "www.reddit.com", port := ""), link);
  }

  /** The method as it runs: cases on the host and the segments fill the result. */
  method RedditPostTarget(u: Url) returns (r: Option<Target>)
    ensures r == PostTarget(u)
  {
    hide Segments, Lower, Token, LongHost;
    if !Https(u) {
      return None;
    }
    var host := Lower(u.host);
    if !LongHost(host) && !ShortHost(host) {
      return None;
    }
    var parts := Segments(u.path);
    for k := 0 to |parts|
      invariant forall i :: 0 <= i < k ==> !HasSuffix(Lower(parts[i]), ".json")
    {
      if HasSuffix(Lower(parts[k]), ".json") {
        return None;
      }
    }
    var path, id, community, share := u.path, "", "", false;
    var tail: seq<string> := [];
    if ShortHost(host) {
      if |parts| != 1 || !Token(parts[0], 16) {
        return None;
      }
      id := parts[0];
      path := CommentsPath(id);
    } else if |parts| == 2 && parts[0] == "gallery" && Token(parts[1], 16) {
      id := parts[1];
      path := CommentsPath(id);
    } else if |parts| >= 2 && parts[0] == "comments" && Token(parts[1], 16) {
      id, tail := parts[1], parts[2..];
    } else if |parts| == 4 && parts[0] == "r" && Token(parts[1], 128) && parts[2] == "s" && Token(parts[3], 128) {
      community, share := parts[1], true;
    } else if |parts| >= 4 && parts[0] in ["r", "user", "u"] && Token(parts[1], 128)
              && parts[2] == "comments" && Token(parts[3], 16) {
      id, tail := parts[3], parts[4..];
      if parts[0] == "r" {
        community := parts[1];
      }
    } else {
      return None;
    }
    if |tail| > 2 || (|tail| == 2 && !Token(tail[1], 16)) {
      return None;
    }
    var comment := "";
    if |tail| == 2 {
      comment := tail[1];
    }
    return Some(Target(Url("https", false, CANONICAL_HOST, "", path, "", ""), id, comment, community, share));
  }
}
