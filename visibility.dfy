/** The privacy switch of the event read handler: which viewers may read an
    event, given its privacy value, its owner and the friend service. */
module Visibility {
  import opened Events

  const OnlyMe := "only-me"
  const Friends := "friends"
  const FriendsOfFriends := "friends-of-friends"

  /** The friend service's two list generators, as functions of the viewer.
      Nothing is known about the lists they return: in particular not whether
      the friends-of-friends list contains the direct friends or the viewer. */
  datatype FriendService = FriendService(
    friendsList: UserId -> seq<UserId>,
    fofList: UserId -> seq<UserId>)

  /** True when the switch lets `viewer` through to an event owned by
      `ownerId` with privacy `privacy`. Only the `only-me` case looks at the
      viewer's identity; a value that matches no case is let through. */
  function CanView(privacy: string, ownerId: UserId, viewer: UserId, service: FriendService): (ok: bool)
    // a refusal comes only from one of the three recognised cases
    ensures !ok ==> privacy == OnlyMe || privacy == Friends || privacy == FriendsOfFriends
    // every grant under a recognised case is backed by that case's test
    ensures ok && privacy == OnlyMe ==> viewer == ownerId
    ensures ok && privacy == Friends ==> ownerId in service.friendsList(viewer)
    ensures ok && privacy == FriendsOfFriends ==> ownerId in service.fofList(viewer)
  {
    if privacy == OnlyMe then
      ownerId == viewer
    else if privacy == Friends then
      ownerId in service.friendsList(viewer)
    else if privacy == FriendsOfFriends then
      ownerId in service.fofList(viewer)
    else
      true
  }

  /** `only-me`: denied exactly when the viewer is not the owner, so the owner
      always gets through, whatever the friend service says. */
  lemma OnlyMeAccess(ownerId: UserId, viewer: UserId, service: FriendService)
    ensures CanView(OnlyMe, ownerId, viewer, service) <==> viewer == ownerId
    ensures CanView(OnlyMe, ownerId, ownerId, service)
  {
  }

  /** `friends`: granted exactly when the owner is in the viewer's friends list. */
  lemma FriendsAccess(ownerId: UserId, viewer: UserId, service: FriendService)
    ensures CanView(Friends, ownerId, viewer, service) <==> ownerId in service.friendsList(viewer)
  {
  }

  /** `friends-of-friends`: granted exactly when the owner is in the viewer's
      friends-of-friends list. */
  lemma FriendsOfFriendsAccess(ownerId: UserId, viewer: UserId, service: FriendService)
    ensures CanView(FriendsOfFriends, ownerId, viewer, service) <==> ownerId in service.fofList(viewer)
  {
  }

  /** The `friends-of-friends` branch never consults the direct-friends list:
      two services that agree on the viewer's friends-of-friends list give the
      same answer. */
  lemma FriendsOfFriendsIgnoresFriendsList(ownerId: UserId, viewer: UserId, s1: FriendService, s2: FriendService)
    requires s1.fofList(viewer) == s2.fofList(viewer)
    ensures CanView(FriendsOfFriends, ownerId, viewer, s1) == CanView(FriendsOfFriends, ownerId, viewer, s2)
  {
  }

  /** The `friends` branch consults only the direct-friends list. */
  lemma FriendsIgnoresFriendsOfFriendsList(ownerId: UserId, viewer: UserId, s1: FriendService, s2: FriendService)
    requires s1.friendsList(viewer) == s2.friendsList(viewer)
    ensures CanView(Friends, ownerId, viewer, s1) == CanView(Friends, ownerId, viewer, s2)
  {
  }

  /** A privacy value that matches none of the three cases falls through the
      switch: every viewer is let through. */
  lemma UnmatchedPrivacyFallsThrough(privacy: string, ownerId: UserId, viewer: UserId, service: FriendService)
    requires privacy != OnlyMe && privacy != Friends && privacy != FriendsOfFriends
    ensures CanView(privacy, ownerId, viewer, service)
  {
  }

  /** The `friends` branch has no owner shortcut: for some friend service the
      owner is refused their own event. */
  lemma FriendsHasNoOwnerShortcut(ownerId: UserId)
    ensures exists service: FriendService :: !CanView(Friends, ownerId, ownerId, service)
  {
    var service := FriendService(_ => [], _ => []);
    assert !CanView(Friends, ownerId, ownerId, service);
  }

  /** The `friends-of-friends` branch has no owner shortcut either. */
  lemma FriendsOfFriendsHasNoOwnerShortcut(ownerId: UserId)
    ensures exists service: FriendService :: !CanView(FriendsOfFriends, ownerId, ownerId, service)
  {
    var service := FriendService(_ => [], _ => []);
    assert !CanView(FriendsOfFriends, ownerId, ownerId, service);
  }

  /** Being the owner's direct friend is not enough for a
      `friends-of-friends` event when the friends-of-friends list leaves the
      owner out. */
  lemma DirectFriendNotEnoughForFriendsOfFriends(ownerId: UserId, viewer: UserId)
    ensures exists service: FriendService ::
      ownerId in service.friendsList(viewer) && !CanView(FriendsOfFriends, ownerId, viewer, service)
  {
    var service := FriendService(_ => [ownerId], _ => []);
    assert ownerId in service.friendsList(viewer) && !CanView(FriendsOfFriends, ownerId, viewer, service);
  }

  /** A viewer unrelated to the owner (in neither list, and not the owner) is
      refused every recognised privacy level. */
  lemma UnrelatedViewerRefused(ownerId: UserId, viewer: UserId, service: FriendService, privacy: string)
    requires viewer != ownerId
    requires ownerId !in service.friendsList(viewer) && ownerId !in service.fofList(viewer)
    requires privacy == OnlyMe || privacy == Friends || privacy == FriendsOfFriends
    ensures !CanView(privacy, ownerId, viewer, service)
  {
  }
}
