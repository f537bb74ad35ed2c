/**
 * Concrete beaches and clans on which the specification functions and the
 * operations are evaluated: they pin down the tie-break of the fastest-crab
 * scan, the largest clan and the outcome of a competition.
 */
module Scenarios {
  import opened Wrappers
  import opened Crabs
  import opened Clans
  import opened BeachSpec
  import opened Beaches

  /** Alice (speed 5), Bob (9) and Cara (9), added in that order. */
  function ThreeCrabs(color: Color, diet: Diet): (s: seq<Crab>)
    ensures |s| == 3
  {
    [Crab("Alice", 5, color, diet), Crab("Bob", 9, color, diet), Crab("Cara", 9, color, diet)]
  }

  /** Bob reaches the top speed first, so he is the fastest crab, not Cara. */
  lemma FastestIsFirstOfTie(color: Color, diet: Diet)
    ensures FastestCrab(ThreeCrabs(color, diet)) == Some(Crab("Bob", 9, color, diet))
  {
    var s := ThreeCrabs(color, diet);
    FastestIndexIff(s, 1);
  }

  /** Clan red holds Alice and Bob (mean 7), clan blue holds Cara (mean 9). */
  function RedAndBlue(): (clans: map<string, seq<string>>)
    ensures "red" in clans && "blue" in clans
  {
    map["red" := ["Alice", "Bob"], "blue" := ["Cara"]]
  }

  lemma WithNameOfOne(c: Crab, name: string)
    ensures WithName([c], name) == if c.name == name then [c] else []
  {
    assert [c][..0] == [];
  }

  lemma SumSpeedsOfOne(c: Crab)
    ensures SumSpeeds([c]) == c.speed
  {
    assert [c][..0] == [];
  }

  /** Each of the three crabs is the only crab with its name. */
  lemma ThreeCrabsByName(color: Color, diet: Diet, name: string)
    ensures var s := ThreeCrabs(color, diet);
            WithName(s, name) == WithName([s[0]], name) + WithName([s[1]], name) + WithName([s[2]], name)
  {
    var s := ThreeCrabs(color, diet);
    assert s == [s[0]] + [s[1]] + [s[2]];
    WithNameAppend([s[0]] + [s[1]], [s[2]], name);
    WithNameAppend([s[0]], [s[1]], name);
  }

  /** Every crab of the three is the only one with its name. */
  lemma OnlyNamesake(color: Color, diet: Diet, k: nat)
    requires k < 3
    ensures var s := ThreeCrabs(color, diet);
            WithName(s, s[k].name) == [s[k]]
  {
    var s := ThreeCrabs(color, diet);
    var name := s[k].name;
    ThreeCrabsByName(color, diet, name);
    WithNameOfOne(s[0], name);
    WithNameOfOne(s[1], name);
    WithNameOfOne(s[2], name);
  }

  lemma TotalOfOneName(s: seq<Crab>, a: string)
    ensures TotalSpeed(s, [a]) == SumSpeeds(WithName(s, a))
  {
    assert [a][..0] == [];
  }

  lemma TotalOfTwoNames(s: seq<Crab>, a: string, b: string)
    ensures TotalSpeed(s, [a, b]) == SumSpeeds(WithName(s, a)) + SumSpeeds(WithName(s, b))
  {
    TotalOfOneName(s, a);
    assert [a, b][..1] == [a];
  }

  /** Red totals 5 + 9 over its two members. */
  lemma RedMean(color: Color, diet: Diet)
    ensures MeanSpeed(ThreeCrabs(color, diet), ["Alice", "Bob"]) == Mean(14, 2)
  {
    var s := ThreeCrabs(color, diet);
    OnlyNamesake(color, diet, 0);
    OnlyNamesake(color, diet, 1);
    SumSpeedsOfOne(s[0]);
    SumSpeedsOfOne(s[1]);
    TotalOfTwoNames(s, "Alice", "Bob");
  }

  /** Blue totals 9 over its one member. */
  lemma BlueMean(color: Color, diet: Diet)
    ensures MeanSpeed(ThreeCrabs(color, diet), ["Cara"]) == Mean(9, 1)
  {
    var s := ThreeCrabs(color, diet);
    OnlyNamesake(color, diet, 2);
    SumSpeedsOfOne(s[2]);
    TotalOfOneName(s, "Cara");
  }

  /** Blue wins, and an unknown clan is an error rather than a draw. */
  lemma BlueBeatsRed(color: Color, diet: Diet)
    ensures Competition(ThreeCrabs(color, diet), RedAndBlue(), "red", "blue") == Ok(Some("blue"))
    ensures Competition(ThreeCrabs(color, diet), RedAndBlue(), "red", "unknown") == Err(InvalidId)
  {
    RedMean(color, diet);
    BlueMean(color, diet);
    assert RedAndBlue()["red"] == ["Alice", "Bob"] && RedAndBlue()["blue"] == ["Cara"];
    assert "unknown" !in RedAndBlue();
  }

  /** With clans a = [x] and b = [x, y], b is the only largest clan. */
  lemma LargestOfTwoClans()
    ensures IsLargestClan(map["a" := ["x"], "b" := ["x", "y"]], "b")
    ensures forall id :: IsLargestClan(map["a" := ["x"], "b" := ["x", "y"]], id) ==> id == "b"
  {
  }

  /** The scan over clans a = [x] and b = [x, y], built by adding members one by one, returns b. */
  method LargestOfTwoClansScan() returns (largest: Option<string>)
    ensures largest == Some("b")
  {
    var clans := new ClanSystem();
    clans.AddMemberToClan("a", "x");
    assert clans.clans == map["a" := ["x"]];
    clans.AddMemberToClan("b", "x");
    assert clans.clans == map["a" := ["x"], "b" := ["x"]];
    clans.AddMemberToClan("b", "y");
    assert ["x"] + ["y"] == ["x", "y"];
    assert clans.clans == map["a" := ["x"], "b" := ["x", "y"]];
    LargestOfTwoClans();
    largest := clans.GetLargestClanId();
  }

  /**
   * A beach built by the public operations: Alice, Bob and Cara are added,
   * red gets Alice and Bob, blue gets Cara. Bob is the fastest crab, red is
   * the largest clan, blue wins against red, and an unknown clan is an error.
   */
  method RedAndBlueBeach(color: Color, diet: Diet)
    returns (fastest: Option<Crab>, largest: Option<string>,
             winner: Result<Option<string>, string>, missing: Result<Option<string>, string>)
    ensures fastest == Some(Crab("Bob", 9, color, diet))
    ensures largest == Some("red")
    ensures winner == Ok(Some("blue"))
    ensures missing == Err(InvalidId)
  {
    var beach := new Beach();
    beach.AddCrab(Crab("Alice", 5, color, diet));
    beach.AddCrab(Crab("Bob", 9, color, diet));
    beach.AddCrab(Crab("Cara", 9, color, diet));
    assert beach.crabs == ThreeCrabs(color, diet);
    assert beach.clansystem.clans == map[];
    assert [] + ["Alice"] == ["Alice"];
    beach.AddMemberToClan("red", "Alice");
    assert beach.clansystem.clans == map["red" := ["Alice"]];
    beach.AddMemberToClan("red", "Bob");
    assert ["Alice"] + ["Bob"] == ["Alice", "Bob"];
    assert beach.clansystem.clans == map["red" := ["Alice", "Bob"]];
    assert [] + ["Cara"] == ["Cara"];
    beach.AddMemberToClan("blue", "Cara");
    assert beach.clansystem.clans == RedAndBlue();
    FastestIsFirstOfTie(color, diet);
    BlueBeatsRed(color, diet);
    fastest := beach.GetFastestCrab();
    largest := beach.GetClanSystem().GetLargestClanId();
    winner := beach.GetWinnerClan("red", "blue");
    missing := beach.GetWinnerClan("red", "unknown");
  }
}
