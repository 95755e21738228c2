/**
 * The single project report page (templates/single-project.php): the
 * publish guard, the lists of gallery images and videos it shows, the
 * rewriting of video links into embeddable player URLs, and the gallery
 * lightbox script with its wrap-around image index.
 */
module SingleProject {
  import opened Wrappers
  import opened Text
  import opened Records
  import opened Media
  import opened MapData
  import opened Dates

  // ---------------------------------------------------------------- videos

  /** `$video_urls ? array_filter(explode("\n", $video_urls)) : array()`. */
  function VideoUrls(stored: string): (r: seq<string>)
    ensures forall k :: 0 <= k < |r| ==> Truthy(r[k]) && '\n' !in r[k]
  {
    if Truthy(stored) then KeepTruthy(Split(stored, '\n')) else []
  }

  /** The stored newline-joined list reads back as the list of its URLs. */
  lemma VideoUrlsReadBack(urls: seq<string>)
    requires forall u <- urls :: Truthy(u) && '\n' !in u
    ensures VideoUrls(Join(urls, '\n')) == urls
  {
    if |urls| > 0 {
      assert Truthy(Join(urls, '\n')) by {
        if |urls| > 1 {
          assert |Join(urls, '\n')| >= |urls[0]| + 1;
        }
      }
      assert Split(Join(urls, '\n'), '\n') == urls by {
        assert FreeOf(urls, '\n');
        SplitJoin(urls, '\n');
      }
      KeepTruthyAll(urls);
    }
  }

  // ---------------------------------------------------------------- URL parts

  /** The part of `s` before the first `c`, or all of `s`. */
  function Before(s: string, c: char): (r: string)
    ensures c !in r
    ensures c !in s ==> r == s
  {
    var i := IndexOf(s, c);
    if i >= 0 then s[..i] else s
  }

  /** The part of `s` after the first `c`, if `s` holds one. */
  function After(s: string, c: char): (r: Option<string>)
    ensures r.None? <==> c !in s
  {
    var i := IndexOf(s, c);
    if i >= 0 then Some(s[i + 1..]) else None
  }

  /** `IndexOf` finds the first occurrence. */
  lemma {:induction false} IndexOfFirst(s: string, c: char, i: int)
    requires 0 <= i < |s| && s[i] == c && c !in s[..i]
    ensures IndexOf(s, c) == i
    decreases i
  {
    if i > 0 {
      assert s[..i][0] == s[0];
      assert s[1..][..i - 1] == s[..i][1..];
      IndexOfFirst(s[1..], c, i - 1);
    }
  }

  /** parse_url($url, PHP_URL_QUERY): after the first '?' and before a '#'. */
  function UrlQuery(url: string): Option<string> {
    After(Before(url, '#'), '?')
  }

  /** The path that follows `host` in `host/path`, from its '/' on; none without a '/'. */
  function PathAfterHost(rest: string): string {
    var i := IndexOf(rest, '/');
    if i >= 0 then rest[i..] else ""
  }

  /**
   * parse_url($url, PHP_URL_PATH): for `scheme://host/path` and `//host/path`
   * the '/path' after the host (none when there is no '/'); a URL without
   * an authority is all path.
   */
  function UrlPath(url: string): string {
    var h := Before(Before(url, '#'), '?');
    var c := IndexOf(h, ':');
    if c > 0 && IsPrefix("//", h[c + 1..]) then PathAfterHost(h[c + 3..])
    else if IsPrefix("//", h) then PathAfterHost(h[2..])
    else h
  }

  /** substr($s, 1), with '' for a string shorter than two characters. */
  function DropFirst(s: string): (r: string)
    ensures |s| >= 1 ==> s == s[..1] + r
  {
    if |s| >= 1 then s[1..] else ""
  }

  /** The name of a `name=value` pair. */
  function PairName(pair: string): string {
    Before(pair, '=')
  }

  /** The value of a `name=value` pair, '' when it has no '='. */
  function PairValue(pair: string): string {
    After(pair, '=').GetOr("")
  }

  /** parse_str: the value of the last pair named `key`, a later pair overriding an earlier one. */
  function ParamValue(pairs: seq<string>, key: string): (r: Option<string>)
    ensures r.Some? <==> exists k :: 0 <= k < |pairs| && PairName(pairs[k]) == key
  {
    if |pairs| == 0 then None
    else
      var last := pairs[|pairs| - 1];
      var front := pairs[..|pairs| - 1];
      var earlier := ParamValue(front, key);
      if PairName(last) == key then Some(PairValue(last))
      else
        assert forall k :: 0 <= k < |front| ==> front[k] == pairs[k];
        earlier
  }

  /** `parse_str(parse_url($url, PHP_URL_QUERY), $params); $params[$key]`. */
  function QueryParam(url: string, key: string): Option<string> {
    match UrlQuery(url)
    case None => None
    case Some(q) => ParamValue(Split(q, '&'), key)
  }

  // ---------------------------------------------------------------- embeds

  const YoutubeEmbed := "https://www.youtube.com/embed/"
  const VimeoEmbed := "https://player.vimeo.com/video/"

  /**
   * The video loop's `$embed_url`: a YouTube watch link with a `v`
   * parameter, a youtu.be short link and a Vimeo link become player URLs;
   * anything else is used as it is.
   */
  function EmbedUrl(url: string): (r: string)
    ensures r == url || IsPrefix(YoutubeEmbed, r) || IsPrefix(VimeoEmbed, r)
    ensures !Contains(url, "youtube.com/watch") && !Contains(url, "youtu.be/") && !Contains(url, "vimeo.com/")
      ==> r == url
  {
    if Contains(url, "youtube.com/watch") then
      match QueryParam(url, "v")
      case Some(v) => YoutubeEmbed + v
      case None => url
    else if Contains(url, "youtu.be/") then YoutubeEmbed + DropFirst(UrlPath(url))
    else if Contains(url, "vimeo.com/") then VimeoEmbed + DropFirst(UrlPath(url))
    else url
  }

  /** No occurrence of `t` anywhere in `s`. */
  lemma NoOccurrence(s: string, t: string)
    requires forall i :: !OccursAt(t, s, i)
    ensures !Contains(s, t)
  {
    ContainsAt(s, t);
  }

  /** `s` contains `t` at the given position. */
  lemma ContainsHere(s: string, t: string, i: int)
    requires 0 <= i && i + |t| <= |s| && s[i..i + |t|] == t
    ensures Contains(s, t)
  {
    assert OccursAt(t, s, i);
    ContainsFrom(s, t, i);
  }

  /**
   * A text with a '/' at `d` does not occur in `prefix + id` when `id` has no
   * '/' and the prefix has no first letter of the text early enough to place
   * that '/' inside the prefix.
   */
  lemma NoOccurrenceBeforeSlash(prefix: string, id: string, t: string, d: nat)
    requires '/' !in id && d < |t| && t[d] == '/' && d <= |prefix|
    requires forall j :: 0 <= j < |prefix| - d ==> prefix[j] != t[0]
    ensures !Contains(prefix + id, t)
  {
    var url := prefix + id;
    forall i
      ensures !OccursAt(t, url, i)
    {
      if 0 <= i && i + |t| <= |url| {
        if i + d >= |prefix| {
          assert url[i + d] == id[i + d - |prefix|];
          assert url[i..i + |t|][d] == url[i + d];
        } else {
          assert url[i] == prefix[i];
          assert url[i..i + |t|][0] == url[i];
        }
      }
    }
    NoOccurrence(url, t);
  }

  /** Neither a youtu.be nor a vimeo.com link is a YouTube watch link. */
  lemma NotWatchLink(prefix: string, id: string)
    requires prefix == "https://youtu.be/" || prefix == "https://vimeo.com/"
    requires '/' !in id
    ensures !Contains(prefix + id, "youtube.com/watch")
  {
    var t := "youtube.com/watch";
    assert t[0] == 'y' && t[11] == '/';
    assert prefix[..7] == "https:/";
    NoOccurrenceBeforeSlash(prefix, id, t, 11);
  }

  /** A vimeo.com link is not a youtu.be link. */
  lemma NotShortLink(id: string)
    requires '/' !in id
    ensures !Contains("https://vimeo.com/" + id, "youtu.be/")
  {
    var t, prefix := "youtu.be/", "https://vimeo.com/";
    assert t[0] == 'y' && t[8] == '/';
    assert prefix[..10] == "https://vi";
    NoOccurrenceBeforeSlash(prefix, id, t, 8);
  }

  /** The path of `https://<host>/<id>`. */
  lemma HostLinkPath(host: string, id: string)
    requires ':' !in host && '/' !in host && '?' !in host && '#' !in host
    requires '/' !in id && '?' !in id && '#' !in id
    ensures UrlPath("https://" + host + "/" + id) == "/" + id
  {
    var rest := host + "/" + id;
    var url := "https://" + rest;
    assert url == "https://" + host + "/" + id;
    assert '#' !in rest && '?' !in rest;
    SecureNoFragment(rest);
    SecureScheme(rest);
    PathAfterHostOf(host, id);
  }

  /** `https://` followed by text without '#' or '?' is neither cut at a fragment nor at a query. */
  lemma SecureNoFragment(rest: string)
    requires '#' !in rest && '?' !in rest
    ensures Before(Before("https://" + rest, '#'), '?') == "https://" + rest
  {
    var scheme := "https://";
    assert '#' !in scheme && '?' !in scheme;
    assert '#' !in scheme + rest && '?' !in scheme + rest;
  }

  /** In `https://<rest>` the scheme ends at the first ':' and `//` follows it. */
  lemma SecureScheme(rest: string)
    ensures var url := "https://" + rest;
      IndexOf(url, ':') == 5 && IsPrefix("//", url[6..]) && url[8..] == rest
  {
    var url := "https://" + rest;
    assert url[..5] == "https";
    IndexOfFirst(url, ':', 5);
    assert url[6..][..2] == "//";
  }

  /** After a host without '/', the path is the '/' and what follows it. */
  lemma PathAfterHostOf(host: string, id: string)
    requires '/' !in host
    ensures PathAfterHost(host + "/" + id) == "/" + id
  {
    var rest := host + "/" + id;
    assert rest[..|host|] == host;
    IndexOfFirst(rest, '/', |host|);
    assert rest[|host|..] == "/" + id;
  }

  /** The query of `https://www.youtube.com/watch?v=<id>`. */
  lemma WatchLinkQuery(id: string)
    requires '#' !in id
    ensures UrlQuery("https://www.youtube.com/watch?v=" + id) == Some("v=" + id)
  {
    var w := "https://www.youtube.com/watch?v=";
    var url := w + id;
    assert '#' !in url;
    assert Before(url, '#') == url;
    assert url[..29] == w[..29];
    IndexOfFirst(url, '?', 29);
    assert url[30..] == "v=" + id;
  }

  /** The one pair `v=<id>`. */
  lemma OnePair(id: string)
    requires '&' !in id
    ensures ParamValue(Split("v=" + id, '&'), "v") == Some(id)
  {
    var pair := "v=" + id;
    assert '&' !in pair;
    SplitFree(pair, '&');
    IndexOfFirst(pair, '=', 1);
    assert PairName(pair) == "v";
    assert PairValue(pair) == id;
    assert [pair][..0] == [];
  }

  /** The `v` parameter of `https://www.youtube.com/watch?v=<id>`. */
  lemma WatchLinkParam(id: string)
    requires '&' !in id && '#' !in id
    ensures QueryParam("https://www.youtube.com/watch?v=" + id, "v") == Some(id)
  {
    WatchLinkQuery(id);
    OnePair(id);
  }

  /** `https://www.youtube.com/watch?v=<id>` plays `<id>`. */
  lemma WatchLinkEmbed(id: string)
    requires '&' !in id && '#' !in id
    ensures EmbedUrl("https://www.youtube.com/watch?v=" + id) == YoutubeEmbed + id
  {
    var url := "https://www.youtube.com/watch?v=" + id;
    assert url[12..29] == "youtube.com/watch";
    ContainsHere(url, "youtube.com/watch", 12);
    WatchLinkParam(id);
  }

  /** `https://youtu.be/<id>` plays `<id>`. */
  lemma ShortLinkEmbed(id: string)
    requires '/' !in id && '?' !in id && '#' !in id
    ensures EmbedUrl("https://youtu.be/" + id) == YoutubeEmbed + id
  {
    NotWatchLink("https://youtu.be/", id);
    HostSpellings();
    LinkSpelled("https://youtu.be/", "youtu.be", id);
    HostLinkParts("youtu.be", id);
    EmbedShortLink("https://youtu.be/" + id);
    assert DropFirst("/" + id) == id;
  }

  /** `https://vimeo.com/<id>` plays `<id>`. */
  lemma VimeoLinkEmbed(id: string)
    requires '/' !in id && '?' !in id && '#' !in id
    ensures EmbedUrl("https://vimeo.com/" + id) == VimeoEmbed + id
  {
    NotWatchLink("https://vimeo.com/", id);
    NotShortLink(id);
    HostSpellings();
    LinkSpelled("https://vimeo.com/", "vimeo.com", id);
    HostLinkParts("vimeo.com", id);
    EmbedVimeoLink("https://vimeo.com/" + id);
    assert DropFirst("/" + id) == id;
  }

  /** A youtu.be link that is not a watch link plays what follows the first '/' of its path. */
  lemma EmbedShortLink(url: string)
    requires !Contains(url, "youtube.com/watch") && Contains(url, "youtu.be/")
    ensures EmbedUrl(url) == YoutubeEmbed + DropFirst(UrlPath(url))
  {
  }

  /** A vimeo.com link that is neither a watch nor a youtu.be link plays what follows the first '/' of its path. */
  lemma EmbedVimeoLink(url: string)
    requires !Contains(url, "youtube.com/watch") && !Contains(url, "youtu.be/") && Contains(url, "vimeo.com/")
    ensures EmbedUrl(url) == VimeoEmbed + DropFirst(UrlPath(url))
  {
  }

  /** The two link prefixes spelled as scheme, host and '/'. */
  lemma HostSpellings()
    ensures "https://youtu.be/" == "https://" + "youtu.be" + "/" && "youtu.be/" == "youtu.be" + "/"
    ensures "https://vimeo.com/" == "https://" + "vimeo.com" + "/" && "vimeo.com/" == "vimeo.com" + "/"
  {
  }

  /** The one-piece spelling of a link is its scheme, host, '/' and id. */
  lemma LinkSpelled(prefix: string, host: string, id: string)
    requires prefix == "https://" + host + "/"
    ensures prefix + id == "https://" + host + "/" + id
  {
  }

  /** A link `https://<host>/<id>` contains `<host>/` and has the path `/<id>`. */
  lemma HostLinkParts(host: string, id: string)
    requires ':' !in host && '/' !in host && '?' !in host && '#' !in host
    requires '/' !in id && '?' !in id && '#' !in id
    ensures Contains("https://" + host + "/" + id, host + "/")
    ensures UrlPath("https://" + host + "/" + id) == "/" + id
  {
    var url := "https://" + host + "/" + id;
    var hostSlash := host + "/";
    assert url == "https://" + hostSlash + id;
    assert url[8..8 + |hostSlash|] == hostSlash;
    ContainsHere(url, hostSlash, 8);
    HostLinkPath(host, id);
  }

  /** A watch link without a `v` parameter is left as it is. */
  lemma WatchLinkWithoutId(url: string)
    requires Contains(url, "youtube.com/watch") && QueryParam(url, "v").None?
    ensures EmbedUrl(url) == url
  {
  }

  // ---------------------------------------------------------------- the page

  /** What the page shows for a published project. */
  datatype ProjectPage =
    | RedirectHome
    | Page(featuredImage: string, gallery: seq<string>, videos: seq<string>, embeds: seq<string>,
           completionDate: string, useMapbox: bool)

  /** The page for the project found under the requested id (None when there is none). */
  function PageOf(project: Option<Project>, host: Host, enableMapbox: string, token: string): (r: ProjectPage)
    ensures r.RedirectHome? <==> project.None? || project.value.status != "publish"
    ensures r.Page? ==>
      && r.gallery == GalleryUrls(project.value.galleryImages, host)
      && r.videos == VideoUrls(project.value.videoUrls)
      && |r.embeds| == |r.videos|
      && (forall k :: 0 <= k < |r.videos| ==> r.embeds[k] == EmbedUrl(r.videos[k]))
      && r.completionDate == LongDate(project.value.completionMonth, project.value.completionYear)
      && r.useMapbox == UseMapbox(enableMapbox, token)
  {
    if project.None? || project.value.status != "publish" then RedirectHome
    else
      var p := project.value;
      var featured := if p.featuredImageId != 0 then host.attachmentUrl(p.featuredImageId).GetOr("") else "";
      var videos := VideoUrls(p.videoUrls);
      Page(featured, GalleryUrls(p.galleryImages, host), videos, MapAll(EmbedUrl, videos),
           LongDate(p.completionMonth, p.completionYear), UseMapbox(enableMapbox, token))
  }

  /** The template's top half: the publish guard, then the gallery loop. */
  method RenderPage(project: Option<Project>, host: Host, enableMapbox: string, token: string)
    returns (page: ProjectPage)
    ensures page == PageOf(project, host, enableMapbox, token)
  {
    if project.None? || project.value.status != "publish" {
      return RedirectHome;
    }
    var p := project.value;
    var featured := "";
    if p.featuredImageId != 0 {
      featured := host.attachmentUrl(p.featuredImageId).GetOr("");
    }
    var gallery := ResolveGallery(p.galleryImages, host);
    var videos := VideoUrls(p.videoUrls);
    page := Page(featured, gallery, videos, MapAll(EmbedUrl, videos),
                 LongDate(p.completionMonth, p.completionYear), UseMapbox(enableMapbox, token));
  }

  // ---------------------------------------------------------------- lightbox

  /** A non-zero multiple of a positive `n` is at least `n` away from 0. */
  lemma MulBounds(d: int, n: int)
    requires n > 0
    ensures d >= 1 ==> d * n >= n
    ensures d <= -1 ==> d * n <= -n
  {
  }

  /** `a % n` for an `a` known to lie in the `q`-th block of `n`. */
  lemma ModOfRange(a: int, n: int, q: int)
    requires n > 0 && q * n <= a < q * n + n
    ensures a % n == a - q * n
  {
    var q' := a / n;
    assert (q' - q) * n == (a - q * n) - a % n;
    MulBounds(q' - q, n);
  }

  /** showNext's new index. */
  function NextIndex(i: int, n: nat): (r: int)
    requires n > 0
    ensures 0 <= r < n
  {
    (i + 1) % n
  }

  /** showPrev's new index. */
  function PrevIndex(i: int, n: nat): (r: int)
    requires n > 0
    ensures 0 <= r < n
  {
    (i - 1 + n) % n
  }

  /** On a valid index, next steps forward and wraps from the last image to the first; previous the other way. */
  lemma NextIndexCases(i: int, n: nat)
    requires 0 <= i < n
    ensures NextIndex(i, n) == if i + 1 < n then i + 1 else 0
    ensures PrevIndex(i, n) == if i > 0 then i - 1 else n - 1
  {
    if i + 1 < n {
      ModOfRange(i + 1, n, 0);
    } else {
      ModOfRange(i + 1, n, 1);
    }
    if i > 0 {
      ModOfRange(i - 1 + n, n, 1);
    } else {
      ModOfRange(i - 1 + n, n, 0);
    }
  }

  /** Next and previous undo each other on every valid index. */
  lemma PrevUndoesNext(i: int, n: nat)
    requires 0 <= i < n
    ensures PrevIndex(NextIndex(i, n), n) == i
    ensures NextIndex(PrevIndex(i, n), n) == i
  {
    NextIndexCases(i, n);
    NextIndexCases(NextIndex(i, n), n);
    NextIndexCases(PrevIndex(i, n), n);
  }

  /** `k` clicks on next from `i`. */
  function NextTimes(i: int, n: nat, k: nat): (r: int)
    requires n > 0
    ensures k > 0 ==> 0 <= r < n
  {
    if k == 0 then i else NextIndex(NextTimes(i, n, k - 1), n)
  }

  /** `k` clicks on next move `k` images on, modulo the number of images: `n` clicks come back. */
  lemma {:induction false} NextTimesModulo(i: int, n: nat, k: nat)
    requires n > 0 && 0 <= i < n
    ensures NextTimes(i, n, k) == (i + k) % n
  {
    if k == 0 {
      ModOfRange(i, n, 0);
    } else {
      var prev := NextTimes(i, n, k - 1);
      NextTimesModulo(i, n, k - 1);
      ModSucc(i + k - 1, n);
      assert NextTimes(i, n, k) == (prev + 1) % n;
    }
  }

  /** Adding one after reducing modulo `n` is the same as reducing after adding one. */
  lemma ModSucc(a: int, n: nat)
    requires n > 0
    ensures (a % n + 1) % n == (a + 1) % n
  {
    var q, j := a / n, a % n;
    assert a == q * n + j;
    if j + 1 < n {
      ModOfRange(j + 1, n, 0);
      ModOfRange(a + 1, n, q);
    } else {
      assert (q + 1) * n == q * n + n;
      ModOfRange(j + 1, n, 1);
      ModOfRange(a + 1, n, q + 1);
    }
  }

  /** The gallery lightbox; its script only runs when the page has gallery images. */
  class Lightbox {
    const images: seq<string>
    var index: int
    var active: bool

    predicate Valid()
      reads this
    {
      0 <= index < |images|
    }

    /** The "current / total" counter: 1-based, never beyond the total. */
    function Counter(): (r: nat)
      reads this
      requires Valid()
      ensures 1 <= r <= |images|
    {
      index + 1
    }

    /** The image shown. */
    function Shown(): string
      reads this
      requires Valid()
    {
      images[index]
    }

    constructor (images: seq<string>)
      requires |images| > 0
      ensures this.images == images && index == 0 && !active
      ensures Valid()
    {
      this.images := images;
      index := 0;
      active := false;
    }

    /** openLightbox: a click on the image at `i` (the template numbers them from 0). */
    method Open(i: int)
      requires 0 <= i < |images|
      modifies this
      ensures Valid() && index == i && active
    {
      index := i;
      active := true;
    }

    method Close()
      modifies this
      ensures index == old(index) && !active
    {
      active := false;
    }

    method ShowNext()
      requires Valid()
      modifies this
      ensures Valid() && index == NextIndex(old(index), |images|) && active == old(active)
    {
      index := (index + 1) % |images|;
    }

    method ShowPrev()
      requires Valid()
      modifies this
      ensures Valid() && index == PrevIndex(old(index), |images|) && active == old(active)
    {
      index := (index - 1 + |images|) % |images|;
    }

    /** The keydown handler: keys act only while the lightbox is open. */
    method KeyDown(key: string)
      requires Valid()
      modifies this
      ensures Valid()
      ensures !old(active) ==> index == old(index) && !active
      ensures old(active) && key == "Escape" ==> index == old(index) && !active
      ensures old(active) && key == "ArrowRight" ==> index == NextIndex(old(index), |images|) && active
      ensures old(active) && key == "ArrowLeft" ==> index == PrevIndex(old(index), |images|) && active
      ensures old(active) && key != "Escape" && key != "ArrowRight" && key != "ArrowLeft"
        ==> index == old(index) && active
    {
      if !active {
        return;
      }
      if key == "Escape" {
        Close();
      }
      if key == "ArrowRight" {
        ShowNext();
      }
      if key == "ArrowLeft" {
        ShowPrev();
      }
    }
  }
}
