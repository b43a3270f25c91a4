/**
 * What the older `LinkDetails` panel (components/LinkDetails.tsx) adds to
 * the shared panel logic: while a link's preservation is incomplete it
 * polls the server for the link every 5000 ms, and its refresh button is
 * gated on the link's type instead of its url.
 */
module LinkDetailsRoot {
  import opened Js
  import opened Permissions
  import opened LinkDetails

  /** The refetch period, in milliseconds. */
  const PollPeriodMs := 5000

  /** The refresh button, in the block shown in view mode on a narrow window
      (`narrow` is `width < 640`): an `onUpdateArchive` handler, a link of
      type "url", update permission and a private route. */
  function ShowRefreshButton(mode: Mode, narrow: bool, hasOnUpdateArchive: bool, link: Link,
                             permissions: Permission, pathname: string): (show: bool)
    ensures show ==> mode == View && narrow
    ensures show ==> hasOnUpdateArchive && link.linkType == "url" && CanUpdate(permissions)
    ensures show ==> !StartsWith(pathname, "/public")
    ensures show <==> mode == View && narrow && hasOnUpdateArchive && link.linkType == "url"
                      && (permissions.FullAccess? || (permissions.MemberAccess? && permissions.member.canUpdate))
                      && !IsPublicRoute(pathname)
  {
    mode == View && narrow && hasOnUpdateArchive && link.linkType == "url" && CanUpdate(permissions)
    && !IsPublicRoute(pathname)
  }

  /** The timers the panel's effect has started and not yet cleared, and the
      refetch requests it has issued. */
  class Poller {
    /** Running intervals: handle to period in milliseconds. */
    var intervals: map<nat, int>
    /** The next handle `setInterval` will return. */
    var nextHandle: nat
    /** Links (by id) the effect asked the server for, oldest first. */
    var refetches: seq<Option<int>>

    ghost predicate Valid()
      reads this
    {
      forall h :: h in intervals ==> h < nextHandle
    }

    constructor ()
      ensures Valid() && intervals == map[] && refetches == []
    {
      intervals := map[];
      nextHandle := 0;
      refetches := [];
    }

    /** The effect body: refetch the link once, then start a refetch interval
        only when the link is not ready. The handle is what its cleanup clears. */
    method RunEffect(link: Link, owner: CollectionOwner) returns (interval: Option<nat>)
      requires Valid()
      modifies this
      ensures Valid()
      ensures refetches == old(refetches) + [link.id]
      ensures interval.Some? <==> !IsReady(link, owner)
      ensures interval.Some? ==> interval.value !in old(intervals)
                                 && intervals == old(intervals)[interval.value := PollPeriodMs]
      ensures interval.None? ==> intervals == old(intervals)
    {
      refetches := refetches + [link.id];
      interval := None;
      if !IsReady(link, owner) {
        interval := Some(nextHandle);
        intervals := intervals[nextHandle := PollPeriodMs];
        nextHandle := nextHandle + 1;
      }
      // When the link is ready the effect's clearInterval branch finds its
      // freshly declared local still unset, so it clears nothing.
    }

    /** The effect's cleanup: clear the interval it started, if any. */
    method Cleanup(interval: Option<nat>)
      requires Valid()
      modifies this`intervals
      ensures Valid()
      ensures intervals == if interval.Some? then old(intervals) - {interval.value} else old(intervals)
    {
      if interval.Some? {
        intervals := intervals - {interval.value};
      }
    }

    /** One run of the effect followed by its cleanup leaves no timer behind. */
    method EffectThenCleanup(link: Link, owner: CollectionOwner)
      requires Valid()
      modifies this
      ensures Valid()
      ensures intervals == old(intervals)
      ensures refetches == old(refetches) + [link.id]
    {
      var interval := RunEffect(link, owner);
      Cleanup(interval);
    }
  }
}
