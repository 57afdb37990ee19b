/** The post interaction engine: creating and deleting posts, toggling a
    like, and adding and deleting comments. Each handler loads one post,
    changes its `likes` or `comments` in place and saves it. */
module Posts {
  import opened Common

  /** What the handlers read from a user record: its name and avatar. */
  datatype User = User(name: string, avatar: string)

  /** A comment subdocument, with a snapshot of its author's name and avatar
      taken when it was written. */
  datatype Comment = Comment(id: Id, user: Id, text: Value, name: string, avatar: string)

  /** Every user id occurs at most once. */
  predicate NoDup(likes: seq<Id>) {
    forall i, j :: 0 <= i < j < |likes| ==> likes[i] != likes[j]
  }

  /** `likes.filter((like) => like.user !== u)`. */
  function Unliked(likes: seq<Id>, u: Id): (r: seq<Id>)
    ensures forall x :: x in r <==> x in likes && x != u
    ensures |r| <= |likes|
  {
    if likes == [] then []
    else if likes[0] == u then Unliked(likes[1..], u)
    else [likes[0]] + Unliked(likes[1..], u)
  }

  /** The like toggle: a user who already likes the post is filtered out,
      any other user is appended. */
  function Toggled(likes: seq<Id>, u: Id): (r: seq<Id>)
    ensures u in r <==> u !in likes
  {
    if u in likes then Unliked(likes, u) else likes + [u]
  }

  lemma {:induction false} UnlikedAbsent(likes: seq<Id>, u: Id)
    requires u !in likes
    ensures Unliked(likes, u) == likes
  {
    if likes != [] {
      UnlikedAbsent(likes[1..], u);
    }
  }

  lemma {:induction false} UnlikedAppend(a: seq<Id>, b: seq<Id>, u: Id)
    ensures Unliked(a + b, u) == Unliked(a, u) + Unliked(b, u)
  {
    if a != [] {
      assert (a + b)[1..] == a[1..] + b;
      UnlikedAppend(a[1..], b, u);
    } else {
      assert a + b == b;
    }
  }

  /** Two toggles by a user who did not like the post restore `likes` exactly. */
  lemma ToggleTwiceRestores(likes: seq<Id>, u: Id)
    requires u !in likes
    ensures Toggled(Toggled(likes, u), u) == likes
  {
    UnlikedAppend(likes, [u], u);
    UnlikedAbsent(likes, u);
  }

  /** Two toggles by a user who liked the post move the like to the end. */
  lemma ToggleTwiceFromLiked(likes: seq<Id>, u: Id)
    requires u in likes
    ensures Toggled(Toggled(likes, u), u) == Unliked(likes, u) + [u]
  {
  }

  /** A toggle leaves the other users' likes, and their order, as they were. */
  lemma ToggleKeepsOthers(likes: seq<Id>, u: Id)
    ensures Unliked(Toggled(likes, u), u) == Unliked(likes, u)
  {
    if u !in likes {
      UnlikedAppend(likes, [u], u);
      UnlikedAbsent(likes, u);
    } else {
      UnlikedAbsent(Unliked(likes, u), u);
    }
  }

  lemma {:induction false} UnlikedKeepsNoDup(likes: seq<Id>, u: Id)
    requires NoDup(likes)
    ensures NoDup(Unliked(likes, u))
  {
    if likes != [] {
      assert NoDup(likes[1..]) by {
        forall i, j | 0 <= i < j < |likes[1..]| ensures likes[1..][i] != likes[1..][j] {
          assert likes[1..][i] == likes[i + 1] && likes[1..][j] == likes[j + 1];
        }
      }
      UnlikedKeepsNoDup(likes[1..], u);
      var rest := Unliked(likes[1..], u);
      assert likes[0] !in likes[1..];
      assert likes[0] !in rest;
    }
  }

  /** If every user likes a post at most once, a toggle keeps it so. */
  lemma ToggleKeepsNoDup(likes: seq<Id>, u: Id)
    requires NoDup(likes)
    ensures NoDup(Toggled(likes, u))
  {
    if u in likes {
      UnlikedKeepsNoDup(likes, u);
    }
  }

  /** With unique likes, unliking removes exactly the caller's one entry. */
  lemma {:induction false} UnlikeRemovesOne(likes: seq<Id>, i: int)
    requires NoDup(likes) && 0 <= i < |likes|
    ensures Unliked(likes, likes[i]) == likes[..i] + likes[i + 1..]
  {
    var u := likes[i];
    assert likes == likes[..i] + [u] + likes[i + 1..];
    UnlikedAppend(likes[..i] + [u], likes[i + 1..], u);
    UnlikedAppend(likes[..i], [u], u);
    assert u !in likes[..i];
    assert u !in likes[i + 1..];
    UnlikedAbsent(likes[..i], u);
    UnlikedAbsent(likes[i + 1..], u);
  }

  predicate HasComment(comments: seq<Comment>, cid: Id) {
    exists i :: 0 <= i < |comments| && comments[i].id == cid
  }

  /** No two comments of a post share an id. */
  predicate UniqueCommentIds(comments: seq<Comment>) {
    forall i, j :: 0 <= i < j < |comments| ==> comments[i].id != comments[j].id
  }

  /** `comments.find((c) => c.id === cid)`: the first comment with that id. */
  function FindComment(comments: seq<Comment>, cid: Id): (r: Option<Comment>)
    ensures r.None? <==> !HasComment(comments, cid)
    ensures r.Some? ==> r.value.id == cid
    ensures r.Some? ==> exists i :: 0 <= i < |comments| && comments[i] == r.value &&
                                    forall j :: 0 <= j < i ==> comments[j].id != cid
  {
    if comments == [] then None
    else if comments[0].id == cid then Some(comments[0])
    else
      var r := FindComment(comments[1..], cid);
      assert forall i :: 0 < i < |comments| ==> comments[i] == comments[1..][i - 1];
      r
  }

  /** `comments.filter((c) => c.id !== cid)`. */
  function WithoutComment(comments: seq<Comment>, cid: Id): (r: seq<Comment>)
    ensures forall c :: c in r <==> c in comments && c.id != cid
    ensures !HasComment(r, cid)
  {
    if comments == [] then []
    else if comments[0].id == cid then WithoutComment(comments[1..], cid)
    else [comments[0]] + WithoutComment(comments[1..], cid)
  }

  lemma {:induction false} WithoutCommentAbsent(comments: seq<Comment>, cid: Id)
    requires !HasComment(comments, cid)
    ensures WithoutComment(comments, cid) == comments
  {
    if comments != [] {
      assert comments[0].id != cid;
      assert !HasComment(comments[1..], cid) by {
        forall i | 0 <= i < |comments[1..]| ensures comments[1..][i].id != cid {
          assert comments[1..][i] == comments[i + 1];
        }
      }
      WithoutCommentAbsent(comments[1..], cid);
    }
  }

  /** Dropping the first comment keeps the ids unique. */
  lemma TailKeepsUnique(comments: seq<Comment>)
    requires UniqueCommentIds(comments) && comments != []
    ensures UniqueCommentIds(comments[1..])
  {
    var tail := comments[1..];
    forall a, b | 0 <= a < b < |tail| ensures tail[a].id != tail[b].id {
      assert tail[a] == comments[a + 1] && tail[b] == comments[b + 1];
    }
  }

  lemma {:induction false} WithoutCommentKeepsUnique(comments: seq<Comment>, cid: Id)
    requires UniqueCommentIds(comments)
    ensures UniqueCommentIds(WithoutComment(comments, cid))
  {
    if comments != [] {
      var tail := comments[1..];
      TailKeepsUnique(comments);
      WithoutCommentKeepsUnique(tail, cid);
      var rest := WithoutComment(tail, cid);
      if comments[0].id != cid {
        assert forall x :: x in rest ==> x.id != comments[0].id by {
          forall x | x in rest ensures x.id != comments[0].id {
            var k :| 0 <= k < |tail| && tail[k] == x;
            assert tail[k] == comments[k + 1];
          }
        }
        var r := [comments[0]] + rest;
        forall a, b | 0 <= a < b < |r| ensures r[a].id != r[b].id {
          assert r[b] == rest[b - 1];
          if a > 0 {
            assert r[a] == rest[a - 1];
          }
        }
      }
    }
  }

  /** With unique ids, deleting a comment removes exactly that one comment
      and the others keep their order. */
  lemma {:induction false} WithoutCommentRemovesOne(comments: seq<Comment>, i: int)
    requires UniqueCommentIds(comments) && 0 <= i < |comments|
    ensures WithoutComment(comments, comments[i].id) == comments[..i] + comments[i + 1..]
  {
    var cid := comments[i].id;
    if i == 0 {
      assert !HasComment(comments[1..], cid) by {
        forall j | 0 <= j < |comments[1..]| ensures comments[1..][j].id != cid {
          assert comments[1..][j] == comments[j + 1];
        }
      }
      WithoutCommentAbsent(comments[1..], cid);
    } else {
      var tail := comments[1..];
      TailKeepsUnique(comments);
      assert tail[i - 1] == comments[i];
      WithoutCommentRemovesOne(tail, i - 1);
      assert comments[0].id != cid;
      assert WithoutComment(comments, cid) == [comments[0]] + WithoutComment(tail, cid);
      assert tail[..i - 1] == comments[1..i] && tail[i..] == comments[i + 1..];
      assert comments[..i] == [comments[0]] + comments[1..i];
    }
  }

  /** A comment may be deleted by the post's author or by the comment's. */
  predicate MayDeleteComment(requester: Id, postAuthor: Id, c: Comment) {
    requester == postAuthor || requester == c.user
  }

  /** A post may be deleted by its author only. */
  predicate MayDeletePost(requester: Id, postAuthor: Id) {
    requester == postAuthor
  }

  /** Deleting a post is the stricter permission: whoever may delete the post
      may delete any comment on it, and a comment's author who is not the
      post's author may delete the comment but not the post. */
  lemma PostPermissionIsStricter(requester: Id, postAuthor: Id, c: Comment)
    ensures MayDeletePost(requester, postAuthor) ==> MayDeleteComment(requester, postAuthor, c)
    ensures requester == c.user && requester != postAuthor ==>
              MayDeleteComment(requester, postAuthor, c) && !MayDeletePost(requester, postAuthor)
  {
  }

  /** A post document as the handlers load it. */
  class Post {
    const id: Id
    const user: Id
    const text: Value
    const name: string
    const avatar: string
    var likes: seq<Id>
    var comments: seq<Comment>

    ghost predicate Valid()
      reads this
    {
      NoDup(likes) && UniqueCommentIds(comments)
    }

    /** `new Post({ text, name, avatar, user })`. */
    constructor (id: Id, user: Id, text: Value, name: string, avatar: string)
      ensures this.id == id && this.user == user && this.text == text
      ensures this.name == name && this.avatar == avatar
      ensures likes == [] && comments == [] && Valid()
    {
      this.id := id;
      this.user := user;
      this.text := text;
      this.name := name;
      this.avatar := avatar;
      likes := [];
      comments := [];
    }
  }

  /** The post collection, keyed by post id. */
  class PostStore {
    var posts: map<Id, Post>

    ghost predicate Valid()
      reads this, posts.Values
    {
      forall p :: p in posts ==> posts[p].id == p && posts[p].Valid()
    }

    constructor ()
      ensures posts == map[] && Valid()
    {
      posts := map[];
    }

    /** The document `Post.findById(pid)` loads, if any. */
    function Owned(pid: Id): set<Post>
      reads this
    {
      if pid in posts then {posts[pid]} else {}
    }

    /** `POST /`: a new post under the new id `pid`, with a snapshot of the
        author's name and avatar. A missing author record makes `user.name`
        throw inside the handler's `try`. */
    method Create(uid: Id, body: Body, users: map<Id, User>, pid: Id) returns (out: Outcome)
      requires Valid() && pid !in posts
      modifies this
      ensures Valid()
      ensures out == if !NotEmpty(body, "text") then ValidationFailed
                     else if uid !in users then ServerError
                     else Ok
      ensures out != Ok ==> posts == old(posts)
      ensures out == Ok ==>
                pid in posts && fresh(posts[pid]) && posts == old(posts)[pid := posts[pid]] &&
                var p := posts[pid];
                && p.user == uid && p.text == body["text"]
                && p.name == users[uid].name && p.avatar == users[uid].avatar
                && p.likes == [] && p.comments == []
    {
      if !NotEmpty(body, "text") {
        return ValidationFailed;
      }
      if uid !in users {
        return ServerError;
      }
      var author := users[uid];
      var p := new Post(pid, uid, body["text"], author.name, author.avatar);
      posts := posts[pid := p];
      out := Ok;
    }

    /** `DELETE /:id`. The requester's user record is read before the post,
        but only dereferenced after the post is found. */
    method Delete(pid: Id, requester: Id, users: map<Id, User>) returns (out: Outcome)
      requires Valid()
      modifies this
      ensures Valid()
      ensures out == if pid !in old(posts) then PostNotFound
                     else if requester !in users then ServerError
                     else if !MayDeletePost(requester, old(posts)[pid].user) then Unauthorized
                     else Ok
      ensures out == Ok ==> posts == old(posts) - {pid}
      ensures out != Ok ==> posts == old(posts)
    {
      if pid !in posts {
        return PostNotFound;
      }
      if requester !in users {
        return ServerError;
      }
      if !MayDeletePost(requester, posts[pid].user) {
        return Unauthorized;
      }
      posts := posts - {pid};
      out := Ok;
    }

    /** `PUT /like/:id`. */
    method ToggleLike(pid: Id, uid: Id) returns (out: Outcome)
      requires Valid()
      modifies Owned(pid)
      ensures Valid()
      ensures out == if pid in posts then Ok else PostNotFound
      ensures out == Ok ==>
                posts[pid].likes == Toggled(old(posts[pid].likes), uid) &&
                posts[pid].comments == old(posts[pid].comments)
    {
      if pid !in posts {
        return PostNotFound;
      }
      var post := posts[pid];
      ToggleKeepsNoDup(post.likes, uid);
      if uid in post.likes {
        post.likes := Unliked(post.likes, uid);
      } else {
        post.likes := post.likes + [uid];
      }
      out := Ok;
    }

    /** `POST /comment/:id`: the new comment, under the new id `cid`, goes to
        the front, with a snapshot of the author's name and avatar. */
    method AddComment(pid: Id, uid: Id, body: Body, users: map<Id, User>, cid: Id) returns (out: Outcome)
      requires Valid()
      requires pid in posts ==> !HasComment(posts[pid].comments, cid)
      modifies Owned(pid)
      ensures Valid()
      ensures out == if !NotEmpty(body, "text") then ValidationFailed
                     else if pid !in posts then PostNotFound
                     else if uid !in users then UserNotFound
                     else Ok
      ensures out != Ok && pid in posts ==> unchanged(posts[pid])
      ensures out == Ok ==>
                posts[pid].comments ==
                  [Comment(cid, uid, body["text"], users[uid].name, users[uid].avatar)] + old(posts[pid].comments) &&
                posts[pid].likes == old(posts[pid].likes)
    {
      if !NotEmpty(body, "text") {
        return ValidationFailed;
      }
      if pid !in posts {
        return PostNotFound;
      }
      if uid !in users {
        return UserNotFound;
      }
      var post := posts[pid];
      var author := users[uid];
      var c := Comment(cid, uid, body["text"], author.name, author.avatar);
      var cs := [c] + post.comments;
      assert UniqueCommentIds(cs) by {
        forall i, j | 0 <= i < j < |cs| ensures cs[i].id != cs[j].id {
          assert cs[j] == post.comments[j - 1];
          if i > 0 {
            assert cs[i] == post.comments[i - 1];
          }
        }
      }
      post.comments := cs;
      out := Ok;
    }

    /** `DELETE /comment/:pid/:cid`: the first comment with that id must exist
        and the requester must be the post's or that comment's author; then
        every comment with that id is filtered out. */
    method DeleteComment(pid: Id, cid: Id, requester: Id) returns (out: Outcome)
      requires Valid()
      modifies Owned(pid)
      ensures Valid()
      ensures out == if pid !in posts then PostNotFound
                     else if FindComment(old(posts[pid].comments), cid).None? then CommentNotFound
                     else if !MayDeleteComment(requester, posts[pid].user,
                                               FindComment(old(posts[pid].comments), cid).value) then Unauthorized
                     else Ok
      ensures out != Ok && pid in posts ==> unchanged(posts[pid])
      ensures out == Ok ==>
                posts[pid].comments == WithoutComment(old(posts[pid].comments), cid) &&
                posts[pid].likes == old(posts[pid].likes)
    {
      if pid !in posts {
        return PostNotFound;
      }
      var post := posts[pid];
      var comment := FindComment(post.comments, cid);
      if comment.None? {
        return CommentNotFound;
      }
      if !MayDeleteComment(requester, post.user, comment.value) {
        return Unauthorized;
      }
      WithoutCommentKeepsUnique(post.comments, cid);
      post.comments := WithoutComment(post.comments, cid);
      out := Ok;
    }
  }

  /** The moderation scenario: A posts, B comments, an unrelated C may not
      delete B's comment, A (the post's author) may. */
  method ModerationScenario(a: Id, b: Id, c: Id, pid: Id, cid: Id)
    returns (byStranger: Outcome, byPostAuthor: Outcome, left: seq<Comment>)
    requires a != b && a != c && b != c
    ensures byStranger == Unauthorized && byPostAuthor == Ok && left == []
  {
    var users := map[a := User("A", "a.png"), b := User("B", "b.png"), c := User("C", "c.png")];
    var store := new PostStore();
    var created := store.Create(a, map["text" := Str("hello")], users, pid);
    var commented := store.AddComment(pid, b, map["text" := Str("hi")], users, cid);
    assert store.posts[pid].comments == [Comment(cid, b, Str("hi"), "B", "b.png")];
    byStranger := store.DeleteComment(pid, cid, c);
    byPostAuthor := store.DeleteComment(pid, cid, a);
    left := store.posts[pid].comments;
  }
}
