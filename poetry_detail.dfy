/** The poem detail page: whether the poem is among the user's favourites, the favourite toggle
    that writes the new list and only then updates the page, the like counter, and the comment
    form that prepends non-blank comments. */
module PoetryDetail {
  import opened Common
  import opened JsBuiltins

  /** Author name and avatar of a comment written while nobody is signed in. */
  const GuestName := "当前用户"
  const GuestAvatar := "https://api.dicebear.com/7.x/miniavs/svg?seed=3"

  /** A row of the data store's users collection as the page reads it; `favorites` may be absent. */
  datatype UserRecord = UserRecord(id: int, favorites: Option<seq<int>>)

  /** The signed-in user as the comment form uses it. */
  datatype Author = Author(username: string, avatar: string)

  datatype Comment = Comment(id: int, author: string, avatar: string, content: string, datetime: string)

  /** The PATCH the toggle sends: whose record, and its complete new favourites list. */
  datatype FavoritesPatch = FavoritesPatch(userId: int, favorites: seq<int>)

  // ---------------------------------------------------------------------------------------------
  // Favourites

  /** The user has a favourites list and the poem occurs on it at least once. */
  function IsFavoriteOf(u: UserRecord, poemId: int): (b: bool)
    ensures b <==> u.favorites.Some? && multiset(u.favorites.value)[poemId] > 0
  {
    u.favorites.Some? && poemId in u.favorites.value
  }

  /** The list the toggle writes: without the poem when it is a favourite, else with the poem
      appended. */
  function ToggledFavorites(favorites: seq<int>, isFavorite: bool, poemId: int): (r: seq<int>)
    ensures (poemId in r) == !isFavorite
    ensures forall v :: v != poemId ==> (v in r <==> v in favorites)
  {
    if isFavorite then
      var r := Without(favorites, poemId);
      assert forall v :: v != poemId ==> (v in r <==> multiset(r)[v] > 0) && multiset(r)[v] == multiset(favorites)[v];
      r
    else
      favorites + [poemId]
  }

  /** When the flag is right, toggling flips the poem's membership, and nothing else: removing
      drops every occurrence and keeps every other id with its count; adding puts the poem last. */
  lemma ToggleFlipsMembership(favorites: seq<int>, isFavorite: bool, poemId: int)
    requires isFavorite == (poemId in favorites)
    ensures (poemId in ToggledFavorites(favorites, isFavorite, poemId)) == !isFavorite
    ensures forall v :: v != poemId ==>
      multiset(ToggledFavorites(favorites, isFavorite, poemId))[v] == multiset(favorites)[v]
    ensures !isFavorite ==> ToggledFavorites(favorites, isFavorite, poemId)[..|favorites|] == favorites
  {
    if !isFavorite {
      assert multiset(favorites + [poemId]) == multiset(favorites) + multiset{poemId};
    }
  }

  /** Toggling keeps a duplicate-free list duplicate-free. */
  lemma ToggleKeepsNoDuplicates(favorites: seq<int>, isFavorite: bool, poemId: int)
    requires NoDuplicates(favorites) && isFavorite == (poemId in favorites)
    ensures NoDuplicates(ToggledFavorites(favorites, isFavorite, poemId))
  {
    if isFavorite {
      WithoutKeepsNoDuplicates(favorites, poemId);
    } else {
      AppendFreshKeepsNoDuplicates(favorites, poemId);
    }
  }

  /** Adding a poem and then removing it gives the original list back. */
  lemma ToggleTwiceRestores(favorites: seq<int>, poemId: int)
    requires poemId !in favorites
    ensures ToggledFavorites(ToggledFavorites(favorites, false, poemId), true, poemId) == favorites
  {
    WithoutConcat(favorites, [poemId], poemId);
    assert Without([poemId], poemId) == [] by {
      assert [poemId][1..] == [];
    }
  }

  // ---------------------------------------------------------------------------------------------
  // Likes and comments

  /** The like button: a loaded poem gains one like and nothing else about it changes. */
  function Liked(poetry: Option<Poem>): (r: Option<Poem>)
    ensures r.Some? <==> poetry.Some?
    ensures r.Some? ==> r.value.likes == poetry.value.likes + 1
    ensures r.Some? ==> r.value.(likes := 0) == poetry.value.(likes := 0)
  {
    match poetry
    case None => None
    case Some(p) => Some(p.(likes := p.likes + 1))
  }

  /** The comment a submission adds: numbered one past the current count, signed by the user or
      as the guest, holding the text as typed. */
  function NewComment(comments: seq<Comment>, viewer: Option<Author>, text: string, datetime: string): (c: Comment)
    ensures c.id == |comments| + 1
    ensures c.content == text && c.datetime == datetime
    ensures viewer.Some? ==> c.author == viewer.value.username && c.avatar == viewer.value.avatar
    ensures viewer.None? ==> c.author == GuestName && c.avatar == GuestAvatar
  {
    Comment(
      |comments| + 1,
      if viewer.Some? then viewer.value.username else GuestName,
      if viewer.Some? then viewer.value.avatar else GuestAvatar,
      text,
      datetime)
  }

  /** Comment ids are distinct and run from 1 to the number of comments. */
  ghost predicate NumberedComments(cs: seq<Comment>) {
    && (forall i :: 0 <= i < |cs| ==> 1 <= cs[i].id <= |cs|)
    && (forall i, j :: 0 <= i < j < |cs| ==> cs[i].id != cs[j].id)
  }

  /** Prepending a submitted comment keeps the numbering, so its id is one no comment has. */
  lemma NewCommentKeepsNumbering(cs: seq<Comment>, viewer: Option<Author>, text: string, datetime: string)
    requires NumberedComments(cs)
    ensures forall c :: c in cs ==> c.id != NewComment(cs, viewer, text, datetime).id
    ensures NumberedComments([NewComment(cs, viewer, text, datetime)] + cs)
  {
    var c := NewComment(cs, viewer, text, datetime);
    var next := [c] + cs;
    forall i | 0 <= i < |next|
      ensures 1 <= next[i].id <= |next|
      ensures i > 0 ==> next[i].id < c.id
    {
      if i > 0 {
        assert next[i] == cs[i - 1];
      }
    }
    forall i, j | 0 <= i < j < |next|
      ensures next[i].id != next[j].id
    {
      assert next[j] == cs[j - 1];
      if i > 0 {
        assert next[i] == cs[i - 1];
      }
    }
  }

  // ---------------------------------------------------------------------------------------------
  // The page component

  /** The component's state cells for the poem `poemId`. Remote results are parameters; the
      toggle returns the PATCH it sends, `None` when it sends nothing. */
  class PoetryDetailView {
    const poemId: int
    var poetry: Option<Poem>
    var comments: seq<Comment>
    var loading: bool
    var newComment: string
    var isFavorite: bool
    var user: Option<UserRecord>

    /** The favourite flag says whether the loaded user's list holds the poem. */
    ghost predicate Valid()
      reads this
    {
      isFavorite == (user.Some? && IsFavoriteOf(user.value, poemId))
    }

    constructor (poemId: int)
      ensures this.poemId == poemId && Valid()
      ensures poetry.None? && comments == [] && loading && newComment == ""
      ensures !isFavorite && user.None?
    {
      this.poemId := poemId;
      poetry := None;
      comments := [];
      loading := true;
      newComment := "";
      isFavorite := false;
      user := None;
    }

    /** The poem fetch: the poem, or no poem when the request fails. */
    method LoadPoetry(fetched: Outcome<Poem>)
      modifies this`poetry, this`loading
      ensures poetry == (if fetched.Ok? then Some(fetched.value) else None)
      ensures !loading
    {
      poetry := if fetched.Ok? then Some(fetched.value) else None;
      loading := false;
    }

    /** The comments shown on arrival. */
    method ShowComments(initial: seq<Comment>)
      modifies this`comments
      ensures comments == initial
    {
      comments := initial;
    }

    /** The user fetch: on success the record is kept and the flag computed from it; a failed
        fetch changes nothing. */
    method LoadUser(fetched: Outcome<UserRecord>)
      requires Valid()
      modifies this`user, this`isFavorite
      ensures Valid()
      ensures fetched.Ok? ==> user == Some(fetched.value) && isFavorite == IsFavoriteOf(fetched.value, poemId)
      ensures fetched.Err? ==> user == old(user) && isFavorite == old(isFavorite)
    {
      if fetched.Ok? {
        user := Some(fetched.value);
        isFavorite := IsFavoriteOf(fetched.value, poemId);
      }
    }

    method Like()
      modifies this`poetry
      ensures poetry == Liked(old(poetry))
    {
      poetry := Liked(poetry);
    }

    /** Typing in the comment box. */
    method TypeComment(text: string)
      modifies this`newComment
      ensures newComment == text
    {
      newComment := text;
    }

    /** Submitting the comment box: a blank text is refused and changes nothing; otherwise the
        comment goes first in the list and the box is cleared. */
    method SubmitComment(viewer: Option<Author>, datetime: string) returns (accepted: bool)
      modifies this`comments, this`newComment
      ensures accepted <==> !IsBlank(old(newComment))
      ensures accepted ==> comments == [NewComment(old(comments), viewer, old(newComment), datetime)] + old(comments)
      ensures accepted ==> newComment == ""
      ensures !accepted ==> comments == old(comments) && newComment == old(newComment)
    {
      if Trim(newComment) != "" {
        var comment := NewComment(comments, viewer, newComment, datetime);
        comments := [comment] + comments;
        newComment := "";
        accepted := true;
      } else {
        accepted := false;
      }
    }

    /** The favourite button. With no user, or a user record without a favourites list, nothing
        is sent and nothing changes. Otherwise the new list is sent; only when the write succeeds
        does the flag flip and the user record take the new list. */
    method ToggleFavorite(writeOk: bool) returns (patch: Option<FavoritesPatch>)
      requires Valid()
      modifies this`isFavorite, this`user
      ensures Valid()
      ensures patch.None? <==> old(user).None? || old(user).value.favorites.None?
      ensures patch.None? ==> user == old(user) && isFavorite == old(isFavorite)
      ensures patch.Some? ==>
        patch.value == FavoritesPatch(old(user).value.id,
          ToggledFavorites(old(user).value.favorites.value, old(isFavorite), poemId))
      ensures patch.Some? && writeOk ==>
        isFavorite == !old(isFavorite) && user == Some(old(user).value.(favorites := Some(patch.value.favorites)))
      ensures patch.Some? && !writeOk ==> user == old(user) && isFavorite == old(isFavorite)
    {
      if user.None? || user.value.favorites.None? {
        patch := None;
        return;
      }
      var favorites := user.value.favorites.value;
      var updated := ToggledFavorites(favorites, isFavorite, poemId);
      patch := Some(FavoritesPatch(user.value.id, updated));
      if writeOk {
        isFavorite := !isFavorite;
        user := Some(user.value.(favorites := Some(updated)));
      }
    }
  }

  /** Two successful toggles on a list without the poem put the user record back as it was. */
  method ToggleTwiceOnFreshPoem(view: PoetryDetailView)
    requires view.Valid() && view.user.Some? && view.user.value.favorites.Some?
    requires view.poemId !in view.user.value.favorites.value
    modifies view
    ensures view.Valid() && view.user == old(view.user) && !view.isFavorite
  {
    var first := view.ToggleFavorite(true);
    var second := view.ToggleFavorite(true);
    ToggleTwiceRestores(old(view.user).value.favorites.value, view.poemId);
  }
}
