/**
 * The clan system: a map from clan id to the ordered list of member names.
 * An absent id reads as an empty clan; the only insertion path creates a
 * one-element list, so no stored list is ever empty.
 */
module Clans {
  import opened Wrappers

  /** `id` is a clan whose member list is at least as long as every other clan's. */
  ghost predicate IsLargestClan(clans: map<string, seq<string>>, id: string)
  {
    id in clans && forall other :: other in clans ==> |clans[other]| <= |clans[id]|
  }

  class ClanSystem {
    var clans: map<string, seq<string>>

    /** Every stored member list is non-empty. */
    ghost predicate Valid()
      reads this
    {
      forall id :: id in clans ==> clans[id] != []
    }

    constructor ()
      ensures Valid()
      ensures clans == map[]
    {
      clans := map[];
    }

    /** The member names of `id`, or no names when the id is unknown; never fails. */
    function GetClanMemberNames(id: string): (names: seq<string>)
      reads this
      ensures id in clans ==> names == clans[id]
      ensures id !in clans ==> names == []
      ensures Valid() ==> (names == [] <==> id !in clans)
    {
      if id in clans then clans[id] else []
    }

    /** The number of distinct clan ids. */
    function GetClanCount(): (n: nat)
      reads this
      ensures n == |clans.Keys|
      ensures n == 0 <==> clans == map[]
    {
      |clans|
    }

    /** The length of the member list of `id`, zero for an unknown id. */
    function GetClanMemberCount(id: string): (n: nat)
      reads this
      ensures n == |GetClanMemberNames(id)|
      ensures id !in clans ==> n == 0
      ensures Valid() ==> (n == 0 <==> id !in clans)
    {
      if id in clans then |clans[id]| else 0
    }

    /**
     * Scans the clans, in an order the map does not fix, keeping the first
     * clan whose member count strictly exceeds every count seen before.
     */
    method GetLargestClanId() returns (largestId: Option<string>)
      ensures largestId.None? <==> forall id :: id in clans ==> clans[id] == []
      ensures largestId.Some? ==> IsLargestClan(clans, largestId.value)
      ensures Valid() ==> (largestId.None? <==> clans == map[])
    {
      var largest := 0;
      largestId := None;
      var unseen := clans.Keys;
      while unseen != {}
        invariant unseen <= clans.Keys
        invariant largestId.None? ==> largest == 0
        invariant largestId.Some? ==> largestId.value in clans && largest == |clans[largestId.value]| > 0
        invariant forall id :: id in clans && id !in unseen ==> |clans[id]| <= largest
        decreases unseen
      {
        var id :| id in unseen;
        if |clans[id]| > largest {
          largest := |clans[id]|;
          largestId := Some(id);
        }
        unseen := unseen - {id};
      }
    }

    /** Appends `name` to clan `id`, creating the clan with `[name]` when it is new. */
    method AddMemberToClan(id: string, name: string)
      modifies this
      ensures clans == old(clans)[id := old(GetClanMemberNames(id)) + [name]]
      ensures id in old(clans) ==> clans[id] == old(clans[id]) + [name] && |clans| == old(|clans|)
      ensures id !in old(clans) ==> clans[id] == [name] && |clans| == old(|clans|) + 1
      ensures old(Valid()) ==> Valid()
    {
      if id in clans {
        clans := clans[id := clans[id] + [name]];
      } else {
        assert [] + [name] == [name];
        clans := clans[id := [name]];
      }
    }
  }
}
