/** The user centre page: the profile and the collected poems loaded for the signed-in user, the
    removal of a favourite that updates the profile row and then both lists, and the display
    fallbacks while the profile is missing. */
module UserCenter {
  import opened Common
  import opened JsBuiltins

  /** What the page shows for a missing name or avatar. */
  const LoadingName := "加载中..."
  const DefaultAvatar := "https://api.dicebear.com/7.x/miniavs/svg?seed=1"

  /** A row of the profile table; name, avatar and favourites may each be absent. */
  datatype Profile = Profile(id: string, username: Option<string>, avatar: Option<string>, favorites: Option<seq<int>>)

  /** The update the removal sends: whose row, and its new favourites list. */
  datatype FavoritesUpdate = FavoritesUpdate(userId: string, favorites: seq<int>)

  /** The header card of the page. */
  datatype UserInfo = UserInfo(username: string, avatar: string, joinDate: string, level: string, points: int)

  /** The header card: the profile's name and avatar when it has them, placeholders otherwise,
      so neither is ever blank; the other fields are fixed. */
  function Info(profile: Option<Profile>): (r: UserInfo)
    ensures r.username != "" && r.avatar != ""
    ensures profile.Some? && Truthy(profile.value.username) ==> r.username == profile.value.username.value
    ensures !(profile.Some? && Truthy(profile.value.username)) ==> r.username == LoadingName
    ensures profile.Some? && Truthy(profile.value.avatar) ==> r.avatar == profile.value.avatar.value
    ensures !(profile.Some? && Truthy(profile.value.avatar)) ==> r.avatar == DefaultAvatar
  {
    UserInfo(
      OrElse(if profile.Some? then profile.value.username else None, LoadingName),
      OrElse(if profile.Some? then profile.value.avatar else None, DefaultAvatar),
      "2024-01-01",
      "普通用户",
      0)
  }

  /** `poems.filter(poem => poem.id !== poemId)`: the poems with that id go, the rest stay. */
  function PoemsWithout(poems: seq<Poem>, poemId: int): (r: seq<Poem>)
    ensures forall p :: p in r <==> p in poems && p.id != poemId
    ensures (forall p :: p in poems ==> p.id != poemId) ==> r == poems
    ensures |r| <= |poems|
  {
    if poems == [] then []
    else
      assert poems == [poems[0]] + poems[1..];
      (if poems[0].id == poemId then [] else [poems[0]]) + PoemsWithout(poems[1..], poemId)
  }

  /** The filter distributes over concatenation, so the poems kept stay in their order. */
  lemma {:induction false} PoemsWithoutConcat(a: seq<Poem>, b: seq<Poem>, poemId: int)
    ensures PoemsWithout(a + b, poemId) == PoemsWithout(a, poemId) + PoemsWithout(b, poemId)
  {
    if a == [] {
      assert a + b == b;
    } else {
      assert (a + b)[0] == a[0] && (a + b)[1..] == a[1..] + b;
      PoemsWithoutConcat(a[1..], b, poemId);
    }
  }

  /** Every collected poem is one of the favourites. */
  ghost predicate CollectedAreFavorites(poems: seq<Poem>, favorites: seq<int>) {
    forall p :: p in poems ==> p.id in favorites
  }

  /** Removing an id from both lists drops it from both and keeps the collected poems among the
      favourites. */
  lemma RemovalKeepsListsAligned(poems: seq<Poem>, favorites: seq<int>, poemId: int)
    requires CollectedAreFavorites(poems, favorites)
    ensures CollectedAreFavorites(PoemsWithout(poems, poemId), Without(favorites, poemId))
    ensures poemId !in Without(favorites, poemId)
    ensures forall p :: p in PoemsWithout(poems, poemId) ==> p.id != poemId
  {
    forall p | p in PoemsWithout(poems, poemId)
      ensures p.id in Without(favorites, poemId)
    {
      assert p.id in favorites && p.id != poemId;
      assert multiset(Without(favorites, poemId))[p.id] == multiset(favorites)[p.id];
    }
  }

  /** The component's state cells. The signed-in user's id comes from the session binder;
      remote results are parameters, and each operation returns the requests it issues. */
  class UserCenterView {
    var currentUserId: Option<string>
    var userProfile: Option<Profile>
    var collectedPoems: seq<Poem>
    var loading: bool

    constructor ()
      ensures currentUserId.None? && userProfile.None? && collectedPoems == [] && loading
    {
      currentUserId := None;
      userProfile := None;
      collectedPoems := [];
      loading := true;
    }

    /** The effect run whenever the signed-in user changes. With nobody signed in it only stops
        loading. Otherwise it looks the profile up by the user's id: a failure keeps the page as
        it was; a success stores the profile, and then the collected poems are queried by the
        favourite ids when there are any (a failed query keeps the old poems), or emptied when
        there are none. Loading always ends. */
    method Refresh(currentUser: Option<string>, profileFetched: Outcome<Profile>, poemsFetched: Outcome<seq<Poem>>)
      returns (profileLookup: Option<string>, poemsQuery: Option<seq<int>>)
      modifies this
      ensures currentUserId == currentUser && !loading
      ensures profileLookup == currentUser
      ensures currentUser.None? || profileFetched.Err? ==>
        poemsQuery.None? && userProfile == old(userProfile) && collectedPoems == old(collectedPoems)
      ensures currentUser.Some? && profileFetched.Ok? ==>
        var favorites := profileFetched.value.favorites;
        && userProfile == Some(profileFetched.value)
        && poemsQuery == (if favorites.Some? && |favorites.value| > 0 then favorites else None)
        && collectedPoems == (if poemsQuery.None? then []
                              else if poemsFetched.Ok? then poemsFetched.value
                              else old(collectedPoems))
    {
      currentUserId := currentUser;
      profileLookup := currentUser;
      poemsQuery := None;
      if currentUser.Some? {
        loading := true;
        if profileFetched.Ok? {
          var profile := profileFetched.value;
          userProfile := Some(profile);
          if profile.favorites.Some? && |profile.favorites.value| > 0 {
            poemsQuery := profile.favorites;
            if poemsFetched.Ok? {
              collectedPoems := poemsFetched.value;
            }
          } else {
            collectedPoems := [];
          }
        }
      }
      loading := false;
    }

    /** The confirmed removal of a favourite. With no profile loaded, a profile without a
        favourites list, or nobody signed in, nothing is sent and nothing changes. Otherwise the
        profile's list without the poem is sent; only when the update succeeds do the profile
        and the collected poems both lose the poem. */
    method RemoveFavorite(poemId: int, writeOk: bool) returns (update: Option<FavoritesUpdate>)
      modifies this`userProfile, this`collectedPoems
      ensures update.None? <==>
        old(userProfile).None? || old(userProfile).value.favorites.None? || currentUserId.None?
      ensures update.Some? ==>
        update.value == FavoritesUpdate(currentUserId.value, Without(old(userProfile).value.favorites.value, poemId))
      ensures update.Some? && writeOk ==>
        && userProfile == Some(old(userProfile).value.(favorites := Some(update.value.favorites)))
        && collectedPoems == PoemsWithout(old(collectedPoems), poemId)
      ensures update.None? || !writeOk ==>
        userProfile == old(userProfile) && collectedPoems == old(collectedPoems)
    {
      if userProfile.None? || userProfile.value.favorites.None? || currentUserId.None? {
        update := None;
        return;
      }
      var updated := Without(userProfile.value.favorites.value, poemId);
      update := Some(FavoritesUpdate(currentUserId.value, updated));
      if writeOk {
        userProfile := Some(userProfile.value.(favorites := Some(updated)));
        collectedPoems := PoemsWithout(collectedPoems, poemId);
      }
    }
  }
}
