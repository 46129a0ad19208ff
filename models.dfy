/** The records the views read and write. The Django models file is not part
    of this model; each datatype keeps only the fields the views use. */
module Models {

  /** Primary key of a post. */
  type PostId = nat

  /** An account: the views look users up by username and by email. The
      password hash is produced by a library call and is not kept. */
  datatype User = User(username: string, email: string)

  /** A profile page: Django compares two profiles by primary key, and the
      search view matches on the username. */
  datatype Profile = Profile(id: nat, username: string)

  /** A post: the key of its author and its cached like counter
      (`no_of_likes`), modelled as an unbounded int. */
  datatype Post = Post(author: nat, noOfLikes: int)

  /** A row of the like table: `username` likes post `postId`. */
  datatype LikeRow = LikeRow(postId: PostId, username: string)

  /** A row of the follow table: `follower` follows `user`. Both endpoints
      are the raw strings the follow form posts. */
  datatype FollowEdge = FollowEdge(follower: string, user: string)
}
