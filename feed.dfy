/** What the `home` view and the profile page compute from the store. */
module Feed {
  import opened Models
  import opened Seqs
  import opened Follows

  /** The home feed's figures: the number of posts and the profiles offered
      as suggestions, before the view shuffles them. */
  datatype HomeContext = HomeContext(countPosts: nat, suggestions: seq<Profile>)

  /** The profile page's figures for one profile. */
  datatype ProfileContext = ProfileContext(
    posts: set<PostId>, numPosts: nat, buttonText: string, userFollowers: nat, userFollowing: nat)

  /** No two profiles of the list share a primary key, as in the table. */
  predicate DistinctIds(profiles: seq<Profile>) {
    forall i, j :: 0 <= i < j < |profiles| ==> profiles[i].id != profiles[j].id
  }

  /** The `home` view for `viewer`: count the posts and keep every profile
      that is not the viewer's own (profiles compare by primary key). */
  function Home(posts: map<PostId, Post>, profiles: seq<Profile>, viewer: Profile): (r: HomeContext)
    ensures r.countPosts == |posts|
    ensures forall i :: 0 <= i < |r.suggestions| ==>
      r.suggestions[i] in profiles && r.suggestions[i].id != viewer.id
    ensures forall i :: 0 <= i < |profiles| && profiles[i].id != viewer.id ==> profiles[i] in r.suggestions
  {
    HomeContext(|posts|, Filter((p: Profile) => p.id != viewer.id, profiles))
  }

  /** In a list of distinct profiles each member occurs once. */
  lemma {:induction false} DistinctOccursOnce(profiles: seq<Profile>, p: Profile)
    requires DistinctIds(profiles)
    requires p in profiles
    ensures multiset(profiles)[p] == 1
  {
    assert profiles == [profiles[0]] + profiles[1..];
    var rest := profiles[1..];
    assert DistinctIds(rest) by {
      forall i, j | 0 <= i < j < |rest| ensures rest[i].id != rest[j].id {
        assert rest[i] == profiles[i + 1] && rest[j] == profiles[j + 1];
      }
    }
    if p == profiles[0] {
      assert p !in rest by {
        forall k | 0 <= k < |rest| ensures rest[k] != p {
          assert rest[k] == profiles[k + 1];
        }
      }
    } else {
      DistinctOccursOnce(rest, p);
    }
  }

  /** Whatever order the shuffle puts the suggestions in, the list never
      holds the viewer's profile, holds only known profiles, and holds every
      other profile exactly once. */
  lemma ShuffledSuggestions(posts: map<PostId, Post>, profiles: seq<Profile>, viewer: Profile, shown: seq<Profile>)
    requires DistinctIds(profiles)
    requires multiset(shown) == multiset(Home(posts, profiles, viewer).suggestions)
    ensures forall i :: 0 <= i < |shown| ==> shown[i].id != viewer.id && shown[i] in profiles
    ensures forall i :: 0 <= i < |profiles| && profiles[i].id != viewer.id ==>
      multiset(shown)[profiles[i]] == 1
  {
    var keep := (p: Profile) => p.id != viewer.id;
    var pool := Home(posts, profiles, viewer).suggestions;
    forall i | 0 <= i < |shown| ensures shown[i].id != viewer.id && shown[i] in profiles {
      assert shown[i] in multiset(shown);
    }
    forall i | 0 <= i < |profiles| && profiles[i].id != viewer.id
      ensures multiset(shown)[profiles[i]] == 1
    {
      FilterCount(keep, profiles, profiles[i]);
      DistinctOccursOnce(profiles, profiles[i]);
    }
  }

  /** The page owner's posts, compared by the author's key. */
  function PostsBy(posts: map<PostId, Post>, author: nat): set<PostId> {
    set id | id in posts && posts[id].author == author
  }

  /** `ShowProfilePageView.get_context_data` for `page`: its posts, their
      number, the follow button label, and its follower and following counts.
      The label reads "UnFollow" as soon as anyone follows the page, whoever
      is viewing it. */
  function ProfilePage(page: Profile, posts: map<PostId, Post>, edges: set<FollowEdge>): (c: ProfileContext)
    ensures c.buttonText == "UnFollow" <==> c.userFollowers > 0
    ensures c.buttonText == "UnFollow" || c.buttonText == "Follow"
    ensures forall id :: id in c.posts <==> id in posts && posts[id].author == page.id
    ensures c.numPosts == |c.posts|
    ensures c.userFollowers == |set e | e in edges && e.user == page.username|
    ensures c.userFollowing == |set e | e in edges && e.follower == page.username|
  {
    var followed := exists e | e in edges :: e.user == page.username;
    assert followed ==> |Followers(edges, page.username)| > 0 by {
      if followed {
        var e :| e in edges && e.user == page.username;
        assert e in Followers(edges, page.username);
      }
    }
    var mine := PostsBy(posts, page.id);
    ProfileContext(mine, |mine|, if followed then "UnFollow" else "Follow",
                   |Followers(edges, page.username)|, |Following(edges, page.username)|)
  }

  /** The label depends on the followers only: an edge from any follower,
      the viewer or anyone else, turns it to "UnFollow". */
  lemma ButtonTextIgnoresViewer(page: Profile, posts: map<PostId, Post>, edges: set<FollowEdge>, anyone: string)
    ensures ProfilePage(page, posts, edges + {FollowEdge(anyone, page.username)}).buttonText == "UnFollow"
    ensures ProfilePage(page, posts, edges).buttonText == "UnFollow"
        <==> exists e :: e in edges && e.user == page.username
  {
  }
}
