/**
 * The beach: an append-only list of crabs together with the clan system it
 * owns. Queries scan the crabs in insertion order; clan membership is
 * forwarded to the clan system; the competition between two clans compares
 * their members' average speeds.
 */
module Beaches {
  import opened Wrappers
  import opened Crabs
  import opened Clans
  import opened BeachSpec

  class Beach {
    var crabs: seq<Crab>
    const clansystem: ClanSystem

    /** The owned clan system keeps its own invariant. */
    ghost predicate Valid()
      reads this, clansystem
    {
      clansystem.Valid()
    }

    constructor ()
      ensures Valid()
      ensures crabs == []
      ensures fresh(clansystem) && clansystem.clans == map[]
    {
      crabs := [];
      clansystem := new ClanSystem();
    }

    /** The number of crabs on the beach. */
    function Size(): (n: nat)
      reads this
      ensures n == |crabs|
      ensures n == 0 <==> crabs == []
    {
      |crabs|
    }

    /** Takes the crab and puts it at the end of the beach. */
    method AddCrab(crab: Crab)
      modifies this
      ensures crabs == old(crabs) + [crab]
      ensures Size() == old(Size()) + 1 && crabs[Size() - 1] == crab
      ensures crabs[..old(Size())] == old(crabs)
      ensures old(Valid()) ==> Valid()
    {
      crabs := crabs + [crab];
    }

    /** The crab at `index`; an index past the end is a panic, so it is excluded. */
    function GetCrab(index: nat): (crab: Crab)
      reads this
      requires index < Size()
      ensures crab == crabs[index]
      ensures crab in crabs
    {
      crabs[index]
    }

    /** The crabs in insertion order (the source hands out an iterator over them). */
    function Crabs(): (cs: seq<Crab>)
      reads this
      ensures |cs| == Size()
      ensures forall i :: 0 <= i < |cs| ==> cs[i] == GetCrab(i)
    {
      crabs
    }

    /** Scans the crabs from speed 0 upwards, moving only to a strictly faster crab. */
    method GetFastestCrab() returns (fastest: Option<Crab>)
      ensures fastest == FastestCrab(crabs)
      ensures fastest.None? <==> AllStill(crabs)
      ensures fastest.Some? ==> exists k: nat :: IsFirstFastest(crabs, k) && crabs[k] == fastest.value
    {
      var highest := 0;
      fastest := None;
      var i := 0;
      while i < |crabs|
        invariant 0 <= i <= |crabs|
        invariant fastest == FastestCrab(crabs[..i])
        invariant highest == if fastest.Some? then fastest.value.speed else 0
      {
        assert crabs[..i + 1][..i] == crabs[..i];
        if crabs[i].speed > highest {
          fastest := Some(crabs[i]);
          highest := crabs[i].speed;
        }
        i := i + 1;
      }
      assert crabs[..i] == crabs;
      FastestIndexSound(crabs);
      if fastest.Some? {
        assert IsFirstFastest(crabs, FastestIndex(crabs).value);
      }
    }

    /** The crabs named `name`, in insertion order. */
    method FindCrabsByName(name: string) returns (found: seq<Crab>)
      ensures found == WithName(crabs, name)
      ensures forall c :: c in found <==> c in crabs && c.name == name
      ensures found == [] <==> forall i :: 0 <= i < |crabs| ==> crabs[i].name != name
    {
      found := [];
      var i := 0;
      while i < |crabs|
        invariant 0 <= i <= |crabs|
        invariant found == WithName(crabs[..i], name)
      {
        assert crabs[..i + 1][..i] == crabs[..i];
        if crabs[i].name == name {
          found := found + [crabs[i]];
        }
        i := i + 1;
      }
      assert crabs[..i] == crabs;
      forall c ensures c in found <==> c in crabs && c.name == name {
        WithNameMembers(crabs, name, c);
      }
      WithNameEmptyIff(crabs, name);
    }

    /**
     * A new crab of speed 1 named `name`, whose colour crosses the colours of
     * crabs `i` and `j` and whose diet is the freshly drawn `diet`. The beach
     * is left as it is.
     */
    function Breed(i: nat, j: nat, name: string, cross: (Color, Color) -> Color, diet: Diet): (child: Crab)
      reads this
      requires i < Size() && j < Size()
      ensures child.name == name && child.speed == 1 && child.diet == diet
      ensures child.color == cross(GetCrab(i).color, GetCrab(j).color)
    {
      Crab(name, 1, cross(GetCrab(i).color, GetCrab(j).color), diet)
    }

    /** Breeds crabs `i` and `j` and adds the child at the end; a bad index is a panic. */
    method BreedCrabs(i: nat, j: nat, name: string, cross: (Color, Color) -> Color, diet: Diet)
      requires i < Size() && j < Size()
      modifies this
      ensures crabs == old(crabs) + [old(Breed(i, j, name, cross, diet))]
      ensures Size() == old(Size()) + 1
      ensures crabs[Size() - 1].speed == 1 && crabs[Size() - 1].name == name
      ensures crabs[Size() - 1].color == cross(old(crabs[i].color), old(crabs[j].color))
      ensures old(Valid()) ==> Valid()
    {
      var child := Breed(i, j, name, cross, diet);
      crabs := crabs + [child];
    }

    /** The clan system the beach owns. */
    function GetClanSystem(): (cs: ClanSystem)
      ensures cs == clansystem
    {
      clansystem
    }

    /** Records `crabName` as a member of clan `clanId`; no check that such a crab exists. */
    method AddMemberToClan(clanId: string, crabName: string)
      modifies clansystem
      ensures crabs == old(crabs)
      ensures clansystem.clans == old(clansystem.clans)[clanId := old(clansystem.GetClanMemberNames(clanId)) + [crabName]]
      ensures old(Valid()) ==> Valid()
    {
      clansystem.AddMemberToClan(clanId, crabName);
    }

    /**
     * The sum, over every name, of the speeds of all crabs carrying it, over
     * the number of names.
     */
    method AverageSpeed(names: seq<string>) returns (mean: Mean)
      ensures mean == MeanSpeed(crabs, names)
      ensures mean.total == Weighted(crabs, names) && mean.count == |names|
    {
      var sum := 0;
      var i := 0;
      while i < |names|
        invariant 0 <= i <= |names|
        invariant sum == TotalSpeed(crabs, names[..i])
      {
        var namesakes := FindCrabsByName(names[i]);
        var k := 0;
        while k < |namesakes|
          invariant 0 <= k <= |namesakes|
          invariant sum == TotalSpeed(crabs, names[..i]) + SumSpeeds(namesakes[..k])
        {
          SumSpeedsStep(namesakes, k);
          sum := sum + namesakes[k].speed;
          k := k + 1;
        }
        assert namesakes[..k] == namesakes;
        TotalSpeedStep(crabs, names, i);
        i := i + 1;
      }
      assert names[..i] == names;
      mean := Mean(sum, |names|);
      TotalSpeedIsWeighted(crabs, names);
    }

    /**
     * The clan with the strictly higher average speed, no winner on equal
     * averages, and an error when either id is not a clan.
     */
    method GetWinnerClan(id1: string, id2: string) returns (winner: Result<Option<string>, string>)
      ensures winner == Competition(crabs, clansystem.clans, id1, id2)
      ensures winner.Err? <==> id1 !in clansystem.clans || id2 !in clansystem.clans
      ensures winner.Ok? && winner.value.Some? ==> winner.value.value in {id1, id2}
      ensures Valid() && id1 in clansystem.clans && id2 in clansystem.clans ==>
                var a1 := Average(MeanSpeed(crabs, clansystem.clans[id1]));
                var a2 := Average(MeanSpeed(crabs, clansystem.clans[id2]));
                winner == if a1 > a2 then Ok(Some(id1)) else if a1 < a2 then Ok(Some(id2)) else Ok(None)
    {
      if id1 in clansystem.clans && id2 in clansystem.clans {
        var names1 := clansystem.GetClanMemberNames(id1);
        var names2 := clansystem.GetClanMemberNames(id2);
        var average1 := AverageSpeed(names1);
        var average2 := AverageSpeed(names2);
        if Below(average2, average1) {
          winner := Ok(Some(id1));
        } else if Below(average1, average2) {
          winner := Ok(Some(id2));
        } else {
          winner := Ok(None);
        }
        if Valid() {
          ValidCompetitionByAverage(this, id1, id2);
        }
      } else {
        winner := Err(InvalidId);
      }
    }
  }

  /**
   * On a valid beach every clan has members, so the competition between two
   * existing clans is decided by their real-valued average speeds.
   */
  lemma ValidCompetitionByAverage(beach: Beach, id1: string, id2: string)
    requires beach.Valid()
    requires id1 in beach.clansystem.clans && id2 in beach.clansystem.clans
    ensures var clans := beach.clansystem.clans;
            var a1 := Average(MeanSpeed(beach.crabs, clans[id1]));
            var a2 := Average(MeanSpeed(beach.crabs, clans[id2]));
            Competition(beach.crabs, clans, id1, id2) ==
              if a1 > a2 then Ok(Some(id1)) else if a1 < a2 then Ok(Some(id2)) else Ok(None)
  {
    CompetitionByAverage(beach.crabs, beach.clansystem.clans, id1, id2);
  }
}
