/** The tables the views change, as one object, and the three views that
    change them: `like_post`, `follow` and `signup`. */
module Store {
  import opened Models
  import opened Likes
  import opened Follows
  import opened Accounts

  class Store {
    /** The like table. */
    var likeRows: set<LikeRow>
    /** The post table, by primary key. */
    var posts: map<PostId, Post>
    /** The follow table. */
    var follows: set<FollowEdge>
    /** The account table. */
    var users: set<User>

    /** The like rows and the posts, as one value. */
    function LikeState(): LikeTable
      reads this
    {
      LikeTable(likeRows, posts)
    }

    /** Every post's like counter agrees with its like rows, and no two
        accounts share a username or an email. */
    predicate Valid()
      reads this
    {
      Consistent(LikeState()) && UniqueAccounts(users)
    }

    constructor ()
      ensures Valid()
      ensures likeRows == {} && posts == map[] && follows == {} && users == {}
    {
      likeRows, posts, follows, users := {}, map[], {}, {};
    }

    /** `like_post` for the logged-in `username` on an existing post. */
    method LikePost(postId: PostId, username: string)
      requires postId in posts
      modifies this`likeRows, this`posts
      ensures LikeState() == ToggleLike(old(LikeState()), postId, username)
      ensures old(CounterMatches(LikeState(), postId)) ==> CounterMatches(LikeState(), postId)
      ensures old(Valid()) ==> Valid()
    {
      var row := LikeRow(postId, username);
      var post := posts[postId];
      ghost var before := LikeState();
      if row !in likeRows {
        likeRows := likeRows + {row};
        post := post.(noOfLikes := post.noOfLikes + 1);
      } else {
        likeRows := likeRows - {row};
        post := post.(noOfLikes := post.noOfLikes - 1);
      }
      posts := posts[postId := post];
      ToggleLikeKeepsCounter(before, postId, username);
      if Consistent(before) {
        ToggleLikeConsistent(before, postId, username);
      }
    }

    /** `follow`: a POST toggles the edge from `follower` to `user`; any
        other request changes nothing. */
    method Follow(isPost: bool, follower: string, user: string)
      modifies this`follows
      ensures follows == if isPost then ToggleFollow(old(follows), follower, user) else old(follows)
      ensures old(Valid()) ==> Valid()
    {
      if isPost {
        var edge := FollowEdge(follower, user);
        if edge in follows {
          follows := follows - {edge};
        } else {
          follows := follows + {edge};
        }
      }
    }

    /** `signup`: decide the outcome and create the account when it is
        `SignedUp`. */
    method Signup(authenticated: bool, isPost: bool, email: string, password: string, username: string)
      returns (outcome: SignupOutcome)
      modifies this`users
      ensures outcome == SignupDecision(authenticated, isPost, email, password, username, old(users))
      ensures users == UsersAfter(old(users), outcome)
      ensures old(Valid()) ==> Valid()
    {
      outcome := SignupDecision(authenticated, isPost, email, password, username, users);
      if UniqueAccounts(users) {
        SignupKeepsAccountsUnique(authenticated, isPost, email, password, username, users);
      }
      if outcome.SignedUp? {
        users := users + {outcome.user};
      }
    }
  }
}
