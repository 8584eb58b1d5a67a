/** The community wall: the public posts newest first with their likes,
    liking and unliking, and writing a post. */
module Wall {
  import opened Common
  import opened Tables
  import Query

  /** The length, in UTF-16 code units, the post input lets the user type. */
  const MaxPostInput: nat := 500

  /** A post as the feed loads it, with the `user_id` of each of its likes. */
  datatype FeedEntry = FeedEntry(post: Post, likers: seq<Option<string>>)

  /** The `user_id`s of a post's like rows. */
  function LikersOf(likes: seq<PostLike>, postId: string): (r: seq<Option<string>>)
    ensures forall u :: u in r <==> PostLike(Some(postId), u) in likes
  {
    var mine := Filter(likes, (l: PostLike) => l.postId == Some(postId));
    var r := seq(|mine|, i requires 0 <= i < |mine| => mine[i].userId);
    assert forall i | 0 <= i < |mine| :: mine[i] in mine;
    assert forall u | PostLike(Some(postId), u) in likes :: u in r by {
      forall u | PostLike(Some(postId), u) in likes ensures u in r {
        var k :| 0 <= k < |mine| && mine[k] == PostLike(Some(postId), u);
        assert r[k] == u;
      }
    }
    r
  }

  /** `.eq('is_private', false).order('created_at', { ascending: false })`:
      the public posts, newest first. */
  function PublicPosts(posts: seq<Post>): (r: seq<Post>)
    ensures forall p :: p in r <==> p in posts && p.isPrivate == Some(false)
    ensures Query.SortedDesc(r, (p: Post) => p.createdAt)
  {
    var public := Filter(posts, (p: Post) => p.isPrivate == Some(false));
    var r := Query.OrderDesc(public, (p: Post) => p.createdAt);
    assert forall p :: p in r <==> p in multiset(public);
    r
  }

  /** The feed: the public posts in that order, each with its likes. */
  function Feed(posts: seq<Post>, likes: seq<PostLike>): (r: seq<FeedEntry>)
    ensures |r| == |PublicPosts(posts)|
    ensures forall i | 0 <= i < |r| :: r[i].post == PublicPosts(posts)[i] && r[i].likers == LikersOf(likes, r[i].post.id)
  {
    var public := PublicPosts(posts);
    seq(|public|, i requires 0 <= i < |public| => FeedEntry(public[i], LikersOf(likes, public[i].id)))
  }

  /** The feed holds the public posts and only those, newest first. */
  lemma FeedIsPublic(posts: seq<Post>, likes: seq<PostLike>)
    ensures forall e | e in Feed(posts, likes) :: e.post in posts && e.post.isPrivate == Some(false)
    ensures forall p | p in posts && p.isPrivate == Some(false) :: exists e | e in Feed(posts, likes) :: e.post == p
    ensures forall i, j | 0 <= i < j < |Feed(posts, likes)| ::
      Feed(posts, likes)[i].post.createdAt >= Feed(posts, likes)[j].post.createdAt
  {
    var r := Feed(posts, likes);
    var public := PublicPosts(posts);
    forall e | e in r ensures e.post in posts && e.post.isPrivate == Some(false) {
      var k :| 0 <= k < |r| && r[k] == e;
      assert e.post == public[k];
    }
    forall p | p in posts && p.isPrivate == Some(false) ensures exists e | e in r :: e.post == p {
      var k :| 0 <= k < |public| && public[k] == p;
      assert r[k] in r;
    }
  }

  /** `post_likes.some(like => like.user_id === user?.id)`: without a user
      nothing is liked. */
  predicate IsLiked(entry: FeedEntry, me: Option<string>) {
    me.Some? && me in entry.likers
  }

  /** A feed post is liked exactly when a like row for that post carries the
      user's id. */
  lemma IsLikedMeaning(posts: seq<Post>, likes: seq<PostLike>, e: FeedEntry, me: string)
    requires e in Feed(posts, likes)
    ensures IsLiked(e, Some(me)) <==> PostLike(Some(e.post.id), Some(me)) in likes
  {
    var r := Feed(posts, likes);
    var k :| 0 <= k < |r| && r[k] == e;
  }

  /** Unliking: every like row for this post and user goes. */
  function Unliked(likes: seq<PostLike>, postId: string, me: string): (r: seq<PostLike>)
    ensures forall l :: l in r <==> l in likes && l != PostLike(Some(postId), Some(me))
    ensures forall l :: multiset(r)[l] == if l == PostLike(Some(postId), Some(me)) then 0 else multiset(likes)[l]
  {
    var p := (l: PostLike) => !(l.postId == Some(postId) && l.userId == Some(me));
    FilterMultiset(likes, p);
    Filter(likes, p)
  }

  /** Liking: one more row for this post and user. */
  function Liked(likes: seq<PostLike>, postId: string, me: string): (r: seq<PostLike>)
    ensures forall l :: l in r <==> l in likes || l == PostLike(Some(postId), Some(me))
    ensures |r| == |likes| + 1
    ensures multiset(r) == multiset(likes) + multiset{PostLike(Some(postId), Some(me))}
  {
    likes + [PostLike(Some(postId), Some(me))]
  }

  /** After unliking, the refreshed feed shows the post unliked even when
      the user had liked it several times; liking makes it liked. Rows of
      other posts and users are untouched either way. */
  lemma LikeRoundTrip(posts: seq<Post>, likes: seq<PostLike>, postId: string, me: string)
    ensures forall e | e in Feed(posts, Unliked(likes, postId, me)) && e.post.id == postId :: !IsLiked(e, Some(me))
    ensures forall e | e in Feed(posts, Liked(likes, postId, me)) && e.post.id == postId :: IsLiked(e, Some(me))
    ensures Unliked(Liked(likes, postId, me), postId, me) == Unliked(likes, postId, me)
  {
    forall e | e in Feed(posts, Unliked(likes, postId, me)) && e.post.id == postId ensures !IsLiked(e, Some(me)) {
      IsLikedMeaning(posts, Unliked(likes, postId, me), e, me);
    }
    forall e | e in Feed(posts, Liked(likes, postId, me)) && e.post.id == postId ensures IsLiked(e, Some(me)) {
      IsLikedMeaning(posts, Liked(likes, postId, me), e, me);
    }
    var p := (l: PostLike) => !(l.postId == Some(postId) && l.userId == Some(me));
    FilterConcat(likes, [PostLike(Some(postId), Some(me))], p);
    assert Filter([PostLike(Some(postId), Some(me))], p) == [];
  }

  /** `createPost`'s guard: non-blank text and a user. */
  predicate CanPost(text: string, user: Option<AuthUser>) {
    !IsBlank(text) && user.Some?
  }

  /** The row `createPost` inserts: the text as typed, public. */
  function NewPost(text: string, me: string, stamp: Stamp): (p: Post)
    ensures p.content == text && p.userId == Some(me) && p.isPrivate == Some(false)
  {
    Post(stamp.id, Some(me), text, Some(false), stamp.at)
  }

  /** A created post is in the refreshed feed. */
  lemma CreatedPostListed(posts: seq<Post>, likes: seq<PostLike>, text: string, me: string, stamp: Stamp)
    ensures exists e | e in Feed(posts + [NewPost(text, me, stamp)], likes) :: e.post == NewPost(text, me, stamp)
  {
    FeedIsPublic(posts + [NewPost(text, me, stamp)], likes);
  }

  class WallPage {
    const db: Database
    const user: Option<AuthUser>
    var posts: seq<FeedEntry>
    var newPost: string
    var loading: bool

    predicate Valid()
      reads this
    {
      Utf16Length(newPost) <= MaxPostInput
    }

    constructor (db: Database, user: Option<AuthUser>)
      ensures Valid() && this.db == db && this.user == user
      ensures posts == [] && newPost == "" && loading
    {
      this.db := db;
      this.user := user;
      posts, newPost, loading := [], "", true;
    }

    method FetchPosts(fetchOk: bool)
      modifies this`posts, this`loading
      ensures !loading
      ensures fetchOk ==> posts == Feed(db.posts, db.postLikes)
      ensures !fetchOk ==> posts == old(posts)
    {
      if fetchOk {
        posts := Feed(db.posts, db.postLikes);
      }
      loading := false;
    }

    /** Typing into the input, which holds at most 500 code units: longer
        text is cut to the longest prefix that fits. */
    method SetNewPost(text: string)
      modifies this`newPost
      ensures Valid()
      ensures newPost == Utf16Prefix(text, MaxPostInput)
      ensures Utf16Length(text) <= MaxPostInput ==> newPost == text
    {
      newPost := Utf16Prefix(text, MaxPostInput);
    }

    /** `isLiked` is what the page showed. The write's error is not looked
        at (`writeOk` says whether it took effect) and the feed is reloaded
        either way. */
    method ToggleLike(postId: string, isLiked: bool, writeOk: bool, fetchOk: bool)
      modifies this`posts, this`loading, db`postLikes
      ensures user.None? ==> db.postLikes == old(db.postLikes) && posts == old(posts) && loading == old(loading)
      ensures user.Some? && writeOk && isLiked ==> db.postLikes == Unliked(old(db.postLikes), postId, user.value.id)
      ensures user.Some? && writeOk && !isLiked ==> db.postLikes == Liked(old(db.postLikes), postId, user.value.id)
      ensures user.Some? && !writeOk ==> db.postLikes == old(db.postLikes)
      ensures user.Some? && fetchOk ==> posts == Feed(db.posts, db.postLikes)
      ensures user.Some? && !fetchOk ==> posts == old(posts)
    {
      if user.None? {
        return;
      }
      if writeOk {
        if isLiked {
          db.postLikes := Unliked(db.postLikes, postId, user.value.id);
        } else {
          db.postLikes := Liked(db.postLikes, postId, user.value.id);
        }
      }
      FetchPosts(fetchOk);
    }

    method CreatePost(insertOk: bool, stamp: Stamp, fetchOk: bool)
      requires Valid()
      modifies this`posts, this`newPost, this`loading, db`posts
      ensures Valid()
      ensures !(CanPost(old(newPost), user) && insertOk) ==>
        db.posts == old(db.posts) && newPost == old(newPost) && posts == old(posts)
      ensures CanPost(old(newPost), user) && insertOk ==>
        && db.posts == old(db.posts) + [NewPost(old(newPost), user.value.id, stamp)]
        && newPost == ""
        && (fetchOk ==> posts == Feed(db.posts, db.postLikes))
        && (!fetchOk ==> posts == old(posts))
    {
      if IsBlank(newPost) || user.None? {
        return;
      }
      if !insertOk {
        return;
      }
      db.posts := db.posts + [NewPost(newPost, user.value.id, stamp)];
      newPost := "";
      FetchPosts(fetchOk);
    }
  }
}
