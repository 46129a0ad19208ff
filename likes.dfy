/** The like toggle of the `like_post` view, stated on the two tables it
    touches: the like rows and the posts with their cached counters. */
module Likes {
  import opened Models

  /** The like rows together with the posts whose counters they explain. */
  datatype LikeTable = LikeTable(rows: set<LikeRow>, posts: map<PostId, Post>)

  /** The like rows recorded for one post. */
  function LikesOf(rows: set<LikeRow>, postId: PostId): set<LikeRow> {
    set r | r in rows && r.postId == postId
  }

  /** The post exists and its `no_of_likes` equals the number of its rows. */
  predicate CounterMatches(t: LikeTable, postId: PostId) {
    postId in t.posts && t.posts[postId].noOfLikes == |LikesOf(t.rows, postId)|
  }

  /** Every post's counter agrees with its rows. */
  predicate Consistent(t: LikeTable) {
    forall p :: p in t.posts ==> CounterMatches(t, p)
  }

  /** The effect of one `like_post` request by `username` on `postId`: with
      no row for the pair, create one and raise the counter; otherwise
      delete the row and lower the counter. */
  function ToggleLike(t: LikeTable, postId: PostId, username: string): (r: LikeTable)
    requires postId in t.posts
    ensures r.posts.Keys == t.posts.Keys
    ensures LikeRow(postId, username) in r.rows <==> LikeRow(postId, username) !in t.rows
    ensures forall x :: x != LikeRow(postId, username) ==> (x in r.rows <==> x in t.rows)
    ensures r.posts[postId].noOfLikes
         == t.posts[postId].noOfLikes + (if LikeRow(postId, username) in r.rows then 1 else -1)
  {
    var row := LikeRow(postId, username);
    var post := t.posts[postId];
    if row !in t.rows then
      LikeTable(t.rows + {row}, t.posts[postId := post.(noOfLikes := post.noOfLikes + 1)])
    else
      LikeTable(t.rows - {row}, t.posts[postId := post.(noOfLikes := post.noOfLikes - 1)])
  }

  /** An absent row is added and the counter goes up by one; a present row is
      removed and the counter goes down by one. No other row and no other part
      of the post changes. */
  lemma ToggleLikeEffect(t: LikeTable, postId: PostId, username: string)
    requires postId in t.posts
    ensures var r := ToggleLike(t, postId, username);
      var row := LikeRow(postId, username);
      && postId in r.posts
      && r.posts[postId].author == t.posts[postId].author
      && (row !in t.rows ==>
            r.rows == t.rows + {row} && r.posts[postId].noOfLikes == t.posts[postId].noOfLikes + 1)
      && (row in t.rows ==>
            r.rows == t.rows - {row} && r.posts[postId].noOfLikes == t.posts[postId].noOfLikes - 1)
  {
  }

  /** Adding or removing one row moves the count of its own post by one and
      leaves the rows of every other post as they are. */
  lemma LikesOfToggle(rows: set<LikeRow>, row: LikeRow)
    ensures row !in rows ==> |LikesOf(rows + {row}, row.postId)| == |LikesOf(rows, row.postId)| + 1
    ensures row in rows ==> |LikesOf(rows - {row}, row.postId)| == |LikesOf(rows, row.postId)| - 1
    ensures forall q :: q != row.postId ==>
      LikesOf(rows + {row}, q) == LikesOf(rows, q) && LikesOf(rows - {row}, q) == LikesOf(rows, q)
  {
    var p := row.postId;
    if row !in rows {
      assert LikesOf(rows + {row}, p) == LikesOf(rows, p) + {row};
    } else {
      assert LikesOf(rows - {row}, p) == LikesOf(rows, p) - {row};
    }
  }

  /** A post whose counter matched its rows still matches after a toggle on
      it; every other post keeps its rows and its record. */
  lemma ToggleLikeKeepsCounter(t: LikeTable, postId: PostId, username: string)
    requires postId in t.posts
    ensures var r := ToggleLike(t, postId, username);
      && (CounterMatches(t, postId) ==> CounterMatches(r, postId))
      && r.posts.Keys == t.posts.Keys
      && (forall q :: q != postId ==> LikesOf(r.rows, q) == LikesOf(t.rows, q))
      && (forall q :: q in t.posts && q != postId ==> r.posts[q] == t.posts[q])
  {
    LikesOfToggle(t.rows, LikeRow(postId, username));
  }

  /** The counter invariant holds for all posts after a toggle if it held
      for all posts before. */
  lemma ToggleLikeConsistent(t: LikeTable, postId: PostId, username: string)
    requires postId in t.posts
    requires Consistent(t)
    ensures Consistent(ToggleLike(t, postId, username))
  {
    var r := ToggleLike(t, postId, username);
    ToggleLikeKeepsCounter(t, postId, username);
    forall q | q in r.posts ensures CounterMatches(r, q) {
      assert CounterMatches(t, q);
    }
  }

  /** Two toggles of the same like in a row restore the rows and the counter. */
  lemma ToggleLikeTwice(t: LikeTable, postId: PostId, username: string)
    requires postId in t.posts
    ensures postId in ToggleLike(t, postId, username).posts
    ensures ToggleLike(ToggleLike(t, postId, username), postId, username) == t
  {
  }

  /** A like and an unlike from an empty table: the counter goes 0, 1, 0 and
      the row appears and disappears. */
  lemma LikeThenUnlike(postId: PostId, author: nat, username: string)
    ensures var t0 := LikeTable({}, map[postId := Post(author, 0)]);
      var t1 := ToggleLike(t0, postId, username);
      && t1.rows == {LikeRow(postId, username)}
      && t1.posts[postId].noOfLikes == 1
      && ToggleLike(t1, postId, username) == t0
  {
  }
}
