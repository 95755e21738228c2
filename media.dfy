/**
 * The gallery_images column: a comma-joined list of attachment ids. The CSV
 * import writes it from the ids of the images it side-loads; the CSV export
 * and the single project page read it back through wp_get_attachment_url,
 * keeping only ids that resolve to a URL.
 */
module Media {
  import opened Wrappers
  import opened Text
  import opened Records

  /** The decimal text of each id. */
  function IdTexts(ids: seq<int>): (r: seq<string>)
    ensures |r| == |ids|
    ensures forall k :: 0 <= k < |ids| ==> r[k] == IntToString(ids[k])
  {
    seq(|ids|, k requires 0 <= k < |ids| => IntToString(ids[k]))
  }

  /** `implode(',', $gallery_ids)`. */
  function GalleryField(ids: seq<int>): string {
    Join(IdTexts(ids), ',')
  }

  /** `intval` of each piece. */
  function PieceIds(pieces: seq<string>): (r: seq<int>)
    ensures |r| == |pieces|
    ensures forall k :: 0 <= k < |pieces| ==> r[k] == Intval(pieces[k])
  {
    seq(|pieces|, k requires 0 <= k < |pieces| => Intval(pieces[k]))
  }

  /** `wp_get_attachment_url(intval($piece))`, with false read as ''. */
  function UrlOf(host: Host, piece: string): string {
    host.attachmentUrl(Intval(piece)).GetOr("")
  }

  /** The piece names an attachment with a truthy URL. */
  predicate Resolves(host: Host, piece: string) {
    Truthy(UrlOf(host, piece))
  }

  /** The URLs of the pieces that resolve, in the pieces' order. */
  function ResolvedUrls(pieces: seq<string>, host: Host): (r: seq<string>)
    ensures |r| <= |pieces|
    ensures forall k :: 0 <= k < |r| ==> Truthy(r[k])
  {
    if |pieces| == 0 then []
    else
      var last := pieces[|pieces| - 1];
      ResolvedUrls(pieces[..|pieces| - 1], host) + (if Resolves(host, last) then [UrlOf(host, last)] else [])
  }

  /** The gallery URLs of a stored gallery_images value; an empty value has none. */
  function GalleryUrls(field: string, host: Host): seq<string> {
    if Truthy(field) then ResolvedUrls(Split(field, ','), host) else []
  }

  /**
   * The loop of the single project page and of the CSV export: explode the
   * field on ',' and keep each attachment URL that is truthy.
   */
  method ResolveGallery(field: string, host: Host) returns (urls: seq<string>)
    ensures urls == GalleryUrls(field, host)
  {
    urls := [];
    if Truthy(field) {
      var pieces := Split(field, ',');
      var i := 0;
      while i < |pieces|
        invariant 0 <= i <= |pieces|
        invariant urls == ResolvedUrls(pieces[..i], host)
      {
        ResolvedStep(pieces, i, host);
        var url := host.attachmentUrl(Intval(pieces[i]));
        if url.Some? && Truthy(url.value) {
          urls := urls + [url.value];
        }
        i := i + 1;
      }
      assert pieces[..|pieces|] == pieces;
    }
  }

  /** Resolving one more piece appends its URL when it resolves, and nothing otherwise. */
  lemma ResolvedStep(pieces: seq<string>, i: int, host: Host)
    requires 0 <= i < |pieces|
    ensures ResolvedUrls(pieces[..i + 1], host)
      == ResolvedUrls(pieces[..i], host) + (if Resolves(host, pieces[i]) then [UrlOf(host, pieces[i])] else [])
  {
    assert pieces[..i + 1][..i] == pieces[..i];
  }

  /** When every piece resolves nothing is dropped: the k-th URL belongs to the k-th piece. */
  lemma {:induction false} ResolvedAll(pieces: seq<string>, host: Host)
    requires forall k :: 0 <= k < |pieces| ==> Resolves(host, pieces[k])
    ensures |ResolvedUrls(pieces, host)| == |pieces|
    ensures forall k :: 0 <= k < |pieces| ==> ResolvedUrls(pieces, host)[k] == UrlOf(host, pieces[k])
  {
    if |pieces| > 0 {
      ResolvedAll(pieces[..|pieces| - 1], host);
    }
  }

  /** A piece that does not resolve contributes nothing. */
  lemma {:induction false} ResolvedNone(pieces: seq<string>, host: Host)
    requires forall k :: 0 <= k < |pieces| ==> !Resolves(host, pieces[k])
    ensures ResolvedUrls(pieces, host) == []
  {
    if |pieces| > 0 {
      ResolvedNone(pieces[..|pieces| - 1], host);
    }
  }

  /** Reading a stored field back with explode and intval gives the ids that were imploded. */
  lemma GalleryFieldIds(ids: seq<int>)
    requires |ids| >= 1
    ensures PieceIds(Split(GalleryField(ids), ',')) == ids
  {
    var texts := IdTexts(ids);
    forall k | 0 <= k < |texts|
      ensures ',' !in texts[k]
    {
      IntToStringFree(ids[k], ',');
    }
    SplitJoin(texts, ',');
    forall k | 0 <= k < |ids|
      ensures Intval(texts[k]) == ids[k]
    {
      IntvalOfString(ids[k]);
    }
  }
}
