/** The `search` view: profiles whose username contains the query,
    case-insensitively. */
module ProfileSearch {
  import opened Models
  import opened Seqs
  import opened Text

  /** The profile list the view renders: empty unless the request is a
      POST; otherwise the profiles, in store order, whose username contains
      the query when both are lower-cased. */
  function Search(isPost: bool, query: string, profiles: seq<Profile>): (r: seq<Profile>)
    ensures !isPost ==> r == []
    ensures isPost ==> forall i :: 0 <= i < |r| ==> r[i] in profiles && IContains(r[i].username, query)
    ensures isPost ==> forall i :: 0 <= i < |profiles| && IContains(profiles[i].username, query) ==>
      profiles[i] in r
  {
    if isPost then Filter((p: Profile) => IContains(p.username, query), profiles) else []
  }

  /** Each matching profile is listed as often as it occurs in the store,
      and no other profile is listed. */
  lemma SearchCount(query: string, profiles: seq<Profile>, p: Profile)
    ensures multiset(Search(true, query, profiles))[p]
         == if IContains(p.username, query) then multiset(profiles)[p] else 0
  {
    FilterCount((p: Profile) => IContains(p.username, query), profiles, p);
  }

  /** A POST with an empty query lists every profile: the empty string is
      contained in every username. */
  lemma SearchEmptyQuery(profiles: seq<Profile>)
    ensures Search(true, "", profiles) == profiles
  {
    var keep := (p: Profile) => IContains(p.username, "");
    forall p | p in profiles ensures keep(p) {
      ContainsEmpty(LowerString(p.username));
    }
    FilterAll(keep, profiles);
  }

  /** The query's case does not matter. */
  lemma SearchIgnoresQueryCase(isPost: bool, query: string, profiles: seq<Profile>)
    ensures Search(isPost, query, profiles) == Search(isPost, LowerString(query), profiles)
  {
    LowerStringIdempotent(query);
    FilterCongruent((p: Profile) => IContains(p.username, query),
                    (p: Profile) => IContains(p.username, LowerString(query)), profiles);
  }
}
