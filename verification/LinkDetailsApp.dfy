/**
 * Display decisions of the web app's `LinkDetails` panel
 * (apps/web/components/LinkDetails.tsx) that the older panel does not
 * make: the preservation status banner, the screenshot's file format, the
 * Wayback Machine link and the gating of the refresh button.
 */
module LinkDetailsApp {
  import opened Js
  import opened Permissions
  import opened LinkDetails

  /** The loading banner under the preserved formats. */
  datatype Banner = InQueue | MoreFormats | NoBanner

  /** The banner belongs to the view-mode formats block;
      `anyFormatAvailable` is `atLeastOneFormatAvailable(link)`. */
  function StatusBanner(mode: Mode, link: Link, owner: CollectionOwner, anyFormatAvailable: bool): (b: Banner)
    ensures b == InQueue <==> mode == View && !IsReady(link, owner) && !anyFormatAvailable
    ensures b == MoreFormats <==> mode == View && StrTruthy(link.url) && !IsReady(link, owner) && anyFormatAvailable
    ensures IsReady(link, owner) || mode == EditMode ==> b == NoBanner
  {
    if mode != View then NoBanner
    else if !IsReady(link, owner) && !anyFormatAvailable then InQueue
    else if StrTruthy(link.url) && !IsReady(link, owner) && anyFormatAvailable then MoreFormats
    else NoBanner
  }

  /** A link without a url that has some format but is not ready shows no banner at all. */
  lemma NoteLinkShowsNoProgress(link: Link, owner: CollectionOwner)
    requires !StrTruthy(link.url)
    ensures StatusBanner(View, link, owner, true) == NoBanner
  {
  }

  datatype ArchivedFormat = Png | Jpeg | Pdf | Readability | Monolith

  /** The screenshot row's format: png exactly when the stored name ends in "png". */
  function ScreenshotFormat(image: Option<string>): (f: ArchivedFormat)
    ensures f == Png <==> image.Some? && EndsWith(image.value, "png")
    ensures f == Png || f == Jpeg
  {
    if image.Some? && EndsWith(image.value, "png") then Png else Jpeg
  }

  /** `\w` in a regular expression. */
  predicate IsWordChar(c: char) {
    ('a' <= c <= 'z') || ('A' <= c <= 'Z') || ('0' <= c <= '9') || c == '_'
  }

  /** The length of the longest run of word characters that starts `s`. */
  function WordRunLength(s: string): (n: nat)
    ensures n <= |s|
    ensures forall i :: 0 <= i < n ==> IsWordChar(s[i])
    ensures n < |s| ==> !IsWordChar(s[n])
    decreases |s|
  {
    if s != [] && IsWordChar(s[0]) then 1 + WordRunLength(s[1..]) else 0
  }

  /** What the pattern `(^\w+:|^)\/\/` matches at the start of a url:
      a scheme of word characters followed by "://", or a bare "//". */
  predicate ProtocolPrefix(p: string) {
    p == "//"
    || (|p| > 3 && EndsWith(p, "://") && forall i :: 0 <= i < |p| - 3 ==> IsWordChar(p[i]))
  }

  /** `url.replace(/(^\w+:|^)\/\//, "")`. */
  function StripProtocol(url: string): (r: string)
    ensures |r| <= |url| && r == url[|url| - |r|..]
  {
    var k := WordRunLength(url);
    if k > 0 && StartsWith(url[k..], "://") then url[k + 3..]
    else if StartsWith(url, "//") then url[2..]
    else url
  }

  const WaybackBase := "https://web.archive.org/web/"

  /** The "view latest snapshot" link, shown in view mode for a link with a url. */
  function WaybackHref(mode: Mode, url: Option<string>): (href: Option<string>)
    ensures href.Some? <==> mode == View && StrTruthy(url)
    ensures href.Some? ==> StartsWith(href.value, WaybackBase)
  {
    if mode == View && StrTruthy(url) then Some(WaybackBase + StripProtocol(url.value)) else None
  }

  /** A word run that stops at a known non-word character has that length. */
  lemma {:induction false} WordRunStopsAt(s: string, m: nat)
    requires m < |s| && !IsWordChar(s[m])
    requires forall i :: 0 <= i < m ==> IsWordChar(s[i])
    ensures WordRunLength(s) == m
    decreases m
  {
    if m > 0 {
      WordRunStopsAt(s[1..], m - 1);
    }
  }

  /** A leading protocol is removed and the rest is kept as it is. */
  lemma StripRemovesProtocol(p: string, rest: string)
    requires ProtocolPrefix(p)
    ensures StripProtocol(p + rest) == rest
  {
    var u := p + rest;
    if p == "//" {
      assert !IsWordChar(u[0]);
      WordRunStopsAt(u, 0);
      assert u[..2] == p;
      assert u[2..] == rest;
    } else {
      var m := |p| - 3;
      assert forall i :: 0 <= i < m ==> u[i] == p[i];
      assert u[m] == p[m] == ':';
      WordRunStopsAt(u, m);
      assert u[m..][..3] == p[m..] == "://";
      assert u[m + 3..] == rest;
    }
  }

  /** A url that does not start with a protocol is kept unchanged. */
  lemma StripKeepsUnprefixed(url: string)
    ensures (forall k :: 0 <= k <= |url| ==> !ProtocolPrefix(url[..k])) ==> StripProtocol(url) == url
  {
    var k := WordRunLength(url);
    if k > 0 && StartsWith(url[k..], "://") {
      var p := url[..k + 3];
      assert EndsWith(p, "://");
      assert forall i :: 0 <= i < |p| - 3 ==> IsWordChar(p[i]);
      assert ProtocolPrefix(p);
    } else if StartsWith(url, "//") {
      assert ProtocolPrefix(url[..2]);
    }
  }

  /** The Wayback link for "https://example.com/a" is the Wayback prefix
      followed by "example.com/a". */
  lemma WaybackDropsScheme(scheme: string, rest: string)
    requires scheme != "" && forall i :: 0 <= i < |scheme| ==> IsWordChar(scheme[i])
    ensures WaybackHref(View, Some(scheme + "://" + rest)) == Some(WaybackBase + rest)
  {
    var p := scheme + "://";
    assert ProtocolPrefix(p) by {
      assert forall i :: 0 <= i < |p| - 3 ==> p[i] == scheme[i];
    }
    StripRemovesProtocol(p, rest);
    assert scheme + "://" + rest == p + rest;
  }

  /** The refresh button, in the view-mode formats block: an
      `onUpdateArchive` handler, update permission, a private route and a
      link with a url. */
  function ShowRefreshButton(mode: Mode, hasOnUpdateArchive: bool, permissions: Permission, pathname: string, link: Link): (show: bool)
    ensures show ==> mode == View && hasOnUpdateArchive && CanUpdate(permissions) && StrTruthy(link.url)
    ensures show ==> !StartsWith(pathname, "/public")
    ensures show <==> mode == View && hasOnUpdateArchive
                      && (permissions.FullAccess? || (permissions.MemberAccess? && permissions.member.canUpdate))
                      && !IsPublicRoute(pathname) && link.url.Some? && link.url.value != ""
  {
    mode == View && hasOnUpdateArchive && CanUpdate(permissions) && !IsPublicRoute(pathname) && StrTruthy(link.url)
  }
}
