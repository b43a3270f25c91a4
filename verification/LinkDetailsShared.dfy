/**
 * The link-details panel: what both versions of the `LinkDetails`
 * component have in common. Both keep an editable copy `link` of the
 * `activeLink` they were given, derive the collection owner's archive
 * preferences, decide whether the link's preservation is complete
 * (`isReady`), and offer the same edit handlers (`submit`,
 * `setCollection`, `setTags`, the icon popover, the banner upload).
 */
module LinkDetails {
  import opened Js
  import opened Permissions

  datatype CollectionRef = CollectionRef(id: Option<int>, name: Option<string>, ownerId: Option<int>)

  datatype Tag = Tag(id: Option<int>, name: string)

  /** A link as the panel holds it. The archive fields hold the stored path
      of each preserved format, or nothing; `preview` may also hold the
      marker "unavailable". `updatedAt` is `None` when the key is absent. */
  datatype Link = Link(
    id: Option<int>,
    name: string,
    url: Option<string>,
    description: string,
    linkType: string,
    collection: CollectionRef,
    tags: seq<Tag>,
    image: Option<string>,
    pdf: Option<string>,
    monolith: Option<string>,
    readable: Option<string>,
    preview: Option<string>,
    color: string,
    icon: string,
    iconWeight: string,
    updatedAt: Option<string>)

  /** The signed-in user, as the session hook returns it. */
  datatype User = User(
    id: int,
    name: Option<string>,
    username: Option<string>,
    image: Option<string>,
    archiveAsScreenshot: bool,
    archiveAsMonolith: bool,
    archiveAsPDF: bool)

  /** The `collectionOwner` state: public data of the collection's owner,
      each archive preference possibly undefined. */
  datatype CollectionOwner = CollectionOwner(
    id: Option<int>,
    name: Option<string>,
    username: Option<string>,
    image: Option<string>,
    archiveAsScreenshot: Option<bool>,
    archiveAsMonolith: Option<bool>,
    archiveAsPDF: Option<bool>)

  /** The state before the owner has been fetched. */
  function InitialOwner(): CollectionOwner {
    CollectionOwner(None, Some(""), Some(""), Some(""), None, None, None)
  }

  function UserIdOf(user: Option<User>): Option<int> {
    if user.Some? then Some(user.value.id) else None
  }

  /** `fetchOwner`: another user's collection takes the fetched public data;
      the viewer's own collection takes the viewer's preferences, with the
      monolith preference copied from the screenshot preference. */
  function ResolveOwner(ownerId: Option<int>, user: Option<User>, publicData: CollectionOwner): (o: CollectionOwner)
    ensures ownerId != UserIdOf(user) ==> o == publicData
    ensures ownerId == UserIdOf(user) ==> o.id == ownerId && o.archiveAsMonolith == o.archiveAsScreenshot
    ensures ownerId == UserIdOf(user) && user.Some? ==>
              o.archiveAsScreenshot == Some(user.value.archiveAsScreenshot)
              && o.archiveAsPDF == Some(user.value.archiveAsPDF)
    ensures ownerId == UserIdOf(user) && user.None? ==>
              o.archiveAsScreenshot.None? && o.archiveAsMonolith.None? && o.archiveAsPDF.None?
  {
    if ownerId != UserIdOf(user) then publicData
    else if user.Some? then
      var u := user.value;
      CollectionOwner(Some(u.id), u.name, u.username, u.image,
                      Some(u.archiveAsScreenshot), Some(u.archiveAsScreenshot), Some(u.archiveAsPDF))
    else CollectionOwner(None, None, None, None, None, None, None)
  }

  /** `isReady()`: every preference that is exactly `true` has its format
      stored, where the screenshot preference looks at the PDF, and the
      readable text is always needed. */
  predicate IsReady(link: Link, owner: CollectionOwner): (ready: bool)
    ensures ready <==> forall f :: f in RequiredFormats(owner) ==> Present(link, f)
  {
    var ready := && (IsTrue(owner.archiveAsScreenshot) ==> StrTruthy(link.pdf))
                 && (IsTrue(owner.archiveAsMonolith) ==> StrTruthy(link.monolith))
                 && (IsTrue(owner.archiveAsPDF) ==> StrTruthy(link.pdf))
                 && StrTruthy(link.readable);
    var req := RequiredFormats(owner);
    assert (forall f :: f in req ==> Present(link, f)) ==>
             && Present(link, Readable)
             && ((IsTrue(owner.archiveAsScreenshot) || IsTrue(owner.archiveAsPDF)) ==> Present(link, Pdf))
             && (IsTrue(owner.archiveAsMonolith) ==> Present(link, Monolith));
    ready
  }

  /** Locally stored preservation formats. */
  datatype StoredFormat = Screenshot | Pdf | Monolith | Readable

  predicate Present(link: Link, f: StoredFormat) {
    match f
    case Screenshot => StrTruthy(link.image)
    case Pdf => StrTruthy(link.pdf)
    case Monolith => StrTruthy(link.monolith)
    case Readable => StrTruthy(link.readable)
  }

  /** The formats `isReady` waits for, given the owner's preferences. */
  function RequiredFormats(owner: CollectionOwner): (r: set<StoredFormat>)
    ensures Readable in r
    ensures Pdf in r <==> IsTrue(owner.archiveAsScreenshot) || IsTrue(owner.archiveAsPDF)
    ensures Monolith in r <==> IsTrue(owner.archiveAsMonolith)
    ensures Screenshot !in r
  {
    {Readable}
      + (if IsTrue(owner.archiveAsScreenshot) || IsTrue(owner.archiveAsPDF) then {Pdf} else {})
      + (if IsTrue(owner.archiveAsMonolith) then {Monolith} else {})
  }

  /** Without readable text a link is never ready, whatever the preferences. */
  lemma NotReadyWithoutReadable(link: Link, owner: CollectionOwner)
    requires !StrTruthy(link.readable)
    ensures !IsReady(link, owner)
  {
  }

  /** The stored screenshot plays no part in readiness: a screenshot
      preference waits for the PDF instead. */
  lemma ReadinessIgnoresScreenshot(link: Link, owner: CollectionOwner, image: Option<string>)
    ensures IsReady(link.(image := image), owner) <==> IsReady(link, owner)
  {
  }

  /** For the viewer's own collection the viewer's monolith preference has
      no effect: the screenshot preference stands in for it. */
  lemma OwnMonolithPreferenceIgnored(link: Link, u: User, publicData: CollectionOwner, b: bool)
    ensures IsReady(link, ResolveOwner(Some(u.id), Some(u), publicData))
            <==> IsReady(link, ResolveOwner(Some(u.id), Some(u.(archiveAsMonolith := b)), publicData))
  {
  }

  /** For the viewer's own collection with screenshots on, readiness needs
      the PDF, the monolith and the readable text. */
  lemma OwnScreenshotNeedsPdfAndMonolith(link: Link, u: User, publicData: CollectionOwner)
    requires u.archiveAsScreenshot
    ensures IsReady(link, ResolveOwner(Some(u.id), Some(u), publicData))
            <==> StrTruthy(link.pdf) && StrTruthy(link.monolith) && StrTruthy(link.readable)
  {
  }

  /** The banner area: the preview image, a blank block when the preview was
      marked unavailable, or a loading skeleton. */
  datatype PreviewArea = PreviewImage | PreviewBlank | PreviewSkeleton

  /** `previewAvailable` is `formatAvailable(link, "preview")`. */
  function PreviewAreaFor(link: Link, previewAvailable: bool): (a: PreviewArea)
    ensures a == PreviewImage <==> previewAvailable
    ensures a == PreviewBlank <==> !previewAvailable && link.preview == Some("unavailable")
    ensures a == PreviewSkeleton <==> !previewAvailable && link.preview != Some("unavailable")
  {
    if previewAvailable then PreviewImage
    else if link.preview == Some("unavailable") then PreviewBlank
    else PreviewSkeleton
  }

  /** `router.pathname.startsWith("/public")`. */
  predicate IsPublicRoute(pathname: string) {
    StartsWith(pathname, "/public")
  }

  /** The banner-upload and icon-editing controls. */
  function ShowEditControls(standalone: bool, permissions: Permission, pathname: string): (show: bool)
    ensures show ==> CanUpdate(permissions)
    ensures show ==> !StartsWith(pathname, "/public")
    ensures show <==> !standalone && (permissions.FullAccess? || (permissions.MemberAccess? && permissions.member.canUpdate))
                      && !IsPublicRoute(pathname)
  {
    !standalone && CanUpdate(permissions) && !IsPublicRoute(pathname)
  }

  /** The link with its `updatedAt` key dropped. */
  function WithoutUpdatedAt(l: Link): Link {
    l.(updatedAt := None)
  }

  /** `submit` sends an update only when the edited copy differs from the
      original in something other than `updatedAt`. */
  predicate Edited(activeLink: Link, link: Link): (edited: bool)
    ensures edited ==> activeLink != link
    ensures edited <==> activeLink.(updatedAt := link.updatedAt) != link
  {
    WithoutUpdatedAt(activeLink) != WithoutUpdatedAt(link)
  }

  /** A change of `updatedAt` alone is not an edit; any other field change is. */
  lemma EditedIffOtherFieldsDiffer(activeLink: Link, link: Link)
    ensures !Edited(activeLink, activeLink.(updatedAt := link.updatedAt))
    ensures Edited(activeLink, link) <==> activeLink.(updatedAt := link.updatedAt) != link
  {
  }

  /** The save button is disabled while the edited copy serialises exactly
      like the original, `updatedAt` included. */
  predicate SaveDisabled(activeLink: Link, link: Link) {
    activeLink == link
  }

  /** A disabled save button means `submit` would send nothing; the converse
      fails: a copy differing only in `updatedAt` enables the button, and
      pressing it sends nothing. */
  lemma SaveButtonAgainstSubmit(activeLink: Link, link: Link)
    ensures SaveDisabled(activeLink, link) ==> !Edited(activeLink, link)
    ensures (!SaveDisabled(activeLink, link) && !Edited(activeLink, link)) <==>
              (activeLink.updatedAt != link.updatedAt && activeLink.(updatedAt := link.updatedAt) == link)
  {
  }

  /** An option of the collection and tag pickers. */
  datatype SelectOption = SelectOption(value: Option<int>, labelText: string, ownerId: Option<int>, isNew: bool)

  /** The collection `setCollection` stores: a newly created option loses its id. */
  function CollectionFromOption(e: Option<SelectOption>): (c: CollectionRef)
    ensures e.None? ==> c == CollectionRef(None, None, None)
    ensures e.Some? ==> c.name == Some(e.value.labelText) && c.ownerId == e.value.ownerId
    ensures e.Some? && e.value.isNew ==> c.id.None?
    ensures e.Some? && !e.value.isNew ==> c.id == e.value.value
  {
    match e
    case None => CollectionRef(None, None, None)
    case Some(o) => CollectionRef(if o.isNew then None else o.value, Some(o.labelText), o.ownerId)
  }

  /** The tags `setTags` stores: one id-less tag per selected label, in order. */
  function TagsFromSelection(selection: seq<SelectOption>): (tags: seq<Tag>)
    ensures |tags| == |selection|
    ensures forall i :: 0 <= i < |tags| ==> tags[i] == Tag(None, selection[i].labelText)
  {
    seq(|selection|, i requires 0 <= i < |selection| => Tag(None, selection[i].labelText))
  }

  /** `{updatedAt: serverValue, ...link}`: the link's own `updatedAt`, when the
      key is present, overrides the value the server answered with. */
  function MergeUploadTimestamp(link: Link, serverUpdatedAt: Option<string>): (merged: Link)
    ensures link.updatedAt.Some? ==> merged == link
    ensures link.updatedAt.None? ==> merged == link.(updatedAt := serverUpdatedAt)
  {
    if link.updatedAt.Some? then link else link.(updatedAt := serverUpdatedAt)
  }

  datatype Mode = View | EditMode

  /** The component's state. */
  class LinkDetailsState {
    var activeLink: Link
    var link: Link
    var collectionOwner: CollectionOwner
    var mode: Mode
    var iconPopover: bool
    /** The links handed to the update mutation, oldest first. */
    var updateRequests: seq<Link>
    /** Whether the parent passed a `setMode` callback. */
    const hasSetMode: bool

    constructor (activeLink: Link, mode: Mode, hasSetMode: bool)
      ensures this.activeLink == activeLink && link == activeLink && this.mode == mode
      ensures collectionOwner == InitialOwner() && !iconPopover && updateRequests == []
      ensures this.hasSetMode == hasSetMode
    {
      this.activeLink := activeLink;
      link := activeLink;
      collectionOwner := InitialOwner();
      this.mode := mode;
      iconPopover := false;
      updateRequests := [];
      this.hasSetMode := hasSetMode;
    }

    /** The effect on a new `activeLink` prop: the edited copy is reset to it. */
    method SetActiveLink(a: Link)
      modifies this`activeLink, this`link
      ensures activeLink == a && link == a
    {
      activeLink := a;
      link := a;
    }

    /** `fetchOwner`, with the answer of `getPublicUserData` given as `publicData`. */
    method FetchOwner(user: Option<User>, publicData: CollectionOwner)
      modifies this`collectionOwner
      ensures collectionOwner == ResolveOwner(link.collection.ownerId, user, publicData)
    {
      if link.collection.ownerId != UserIdOf(user) {
        collectionOwner := publicData;
      } else if user.Some? {
        var u := user.value;
        collectionOwner := CollectionOwner(Some(u.id), u.name, u.username, u.image,
                                           Some(u.archiveAsScreenshot), Some(u.archiveAsScreenshot),
                                           Some(u.archiveAsPDF));
      } else {
        collectionOwner := CollectionOwner(None, None, None, None, None, None, None);
      }
    }

    /** `submit`, with the settlement of the update mutation given as `response`. */
    method Submit(response: Settled<Link>) returns (sent: bool)
      modifies this`link, this`mode, this`updateRequests
      ensures sent <==> Edited(activeLink, old(link))
      ensures updateRequests == old(updateRequests) + (if sent then [old(link)] else [])
      ensures link == (if sent && response.Succeeded? then response.data else old(link))
      ensures mode == (if sent && response.Succeeded? && hasSetMode then View else old(mode))
    {
      if WithoutUpdatedAt(activeLink) == WithoutUpdatedAt(link) {
        return false;
      }
      updateRequests := updateRequests + [link];
      sent := true;
      if response.Succeeded? {
        if hasSetMode {
          mode := View;
        }
        link := response.data;
      }
    }

    method SetCollection(e: Option<SelectOption>)
      modifies this`link
      ensures link == old(link).(collection := CollectionFromOption(e))
    {
      link := link.(collection := CollectionFromOption(e));
    }

    method SetTags(selection: seq<SelectOption>)
      modifies this`link
      ensures link == old(link).(tags := TagsFromSelection(selection))
    {
      link := link.(tags := TagsFromSelection(selection));
    }

    /** The banner upload's settlement; the server's answer carries the new `updatedAt`. */
    method OnBannerUploaded(result: Settled<Option<string>>)
      modifies this`link
      ensures result.Failed? ==> link == old(link)
      ensures result.Succeeded? ==> link == MergeUploadTimestamp(old(link), result.data)
    {
      if result.Succeeded? {
        link := MergeUploadTimestamp(link, result.data);
      }
    }

    method OpenIconPopover()
      modifies this`iconPopover
      ensures iconPopover
    {
      iconPopover := true;
    }

    method SetColor(color: string)
      modifies this`link
      ensures link == old(link).(color := color)
    {
      link := link.(color := color);
    }

    method SetIconWeight(iconWeight: string)
      modifies this`link
      ensures link == old(link).(iconWeight := iconWeight)
    {
      link := link.(iconWeight := iconWeight);
    }

    method SetIconName(icon: string)
      modifies this`link
      ensures link == old(link).(icon := icon)
    {
      link := link.(icon := icon);
    }

    /** The popover's reset: colour, icon and weight are cleared. */
    method ResetIcon()
      modifies this`link
      ensures link == old(link).(color := "", icon := "", iconWeight := "")
    {
      link := link.(color := "", icon := "", iconWeight := "");
    }

    /** Closing the popover hides it and submits the edited link. */
    method CloseIconPopover(response: Settled<Link>) returns (sent: bool)
      modifies this`iconPopover, this`link, this`mode, this`updateRequests
      ensures !iconPopover
      ensures sent <==> Edited(activeLink, old(link))
      ensures updateRequests == old(updateRequests) + (if sent then [old(link)] else [])
      ensures link == (if sent && response.Succeeded? then response.data else old(link))
      ensures mode == (if sent && response.Succeeded? && hasSetMode then View else old(mode))
    {
      iconPopover := false;
      sent := Submit(response);
    }
  }
}
