/** The follow graph: the toggle of the `follow` view and the follower and
    following counts the profile page shows. */
module Follows {
  import opened Models

  /** The edges that point at `key`: the people following it. */
  function Followers(edges: set<FollowEdge>, key: string): set<FollowEdge> {
    set e | e in edges && e.user == key
  }

  /** The edges that start at `key`: the people it follows. */
  function Following(edges: set<FollowEdge>, key: string): set<FollowEdge> {
    set e | e in edges && e.follower == key
  }

  /** The effect of one POST to the `follow` view: delete the edge from
      `follower` to `user` if it exists, create it otherwise. */
  function ToggleFollow(edges: set<FollowEdge>, follower: string, user: string): (r: set<FollowEdge>)
    ensures FollowEdge(follower, user) in r <==> FollowEdge(follower, user) !in edges
    ensures forall e :: e != FollowEdge(follower, user) ==> (e in r <==> e in edges)
  {
    var edge := FollowEdge(follower, user);
    if edge in edges then edges - {edge} else edges + {edge}
  }

  /** Following and unfollowing in a row restores the edge set. */
  lemma ToggleFollowTwice(edges: set<FollowEdge>, follower: string, user: string)
    ensures ToggleFollow(ToggleFollow(edges, follower, user), follower, user) == edges
  {
  }

  /** A toggle moves the follower count of `user` by one, up on a follow
      and down on an unfollow, and no other profile's follower count. */
  lemma FollowersAfterToggle(edges: set<FollowEdge>, follower: string, user: string, key: string)
    ensures |Followers(ToggleFollow(edges, follower, user), key)|
         == |Followers(edges, key)|
            + (if key != user then 0 else if FollowEdge(follower, user) in edges then -1 else 1)
  {
    var edge := FollowEdge(follower, user);
    var r := ToggleFollow(edges, follower, user);
    if key != user {
      assert Followers(r, key) == Followers(edges, key);
    } else if edge in edges {
      assert Followers(r, key) == Followers(edges, key) - {edge};
    } else {
      assert Followers(r, key) == Followers(edges, key) + {edge};
    }
  }

  /** A toggle moves the following count of `follower` by one, up on a
      follow and down on an unfollow, and no other profile's following count. */
  lemma FollowingAfterToggle(edges: set<FollowEdge>, follower: string, user: string, key: string)
    ensures |Following(ToggleFollow(edges, follower, user), key)|
         == |Following(edges, key)|
            + (if key != follower then 0 else if FollowEdge(follower, user) in edges then -1 else 1)
  {
    var edge := FollowEdge(follower, user);
    var r := ToggleFollow(edges, follower, user);
    if key != follower {
      assert Following(r, key) == Following(edges, key);
    } else if edge in edges {
      assert Following(r, key) == Following(edges, key) - {edge};
    } else {
      assert Following(r, key) == Following(edges, key) + {edge};
    }
  }

  /** Following a profile and unfollowing it again leaves every follower
      and following count where it was (the two-toggle scenario, a corollary
      of `ToggleFollowTwice`). */
  lemma FollowUnfollowKeepsCounts(edges: set<FollowEdge>, follower: string, user: string, key: string)
    ensures var twice := ToggleFollow(ToggleFollow(edges, follower, user), follower, user);
      && |Followers(twice, key)| == |Followers(edges, key)|
      && |Following(twice, key)| == |Following(edges, key)|
  {
    ToggleFollowTwice(edges, follower, user);
  }
}
