/**
 * Specification functions for the beach's queries, written over the crab
 * sequence in insertion order, and the properties proved about them.
 */
module BeachSpec {
  import opened Wrappers
  import opened Crabs

  // ---------------------------------------------------------------------
  // Fastest crab
  // ---------------------------------------------------------------------

  /**
   * The index of the crab a front-to-back scan ends on when it starts at
   * speed 0 and only moves to a crab that is strictly faster.
   */
  function FastestIndex(s: seq<Crab>): (k: Option<nat>)
    ensures k.Some? ==> k.value < |s| && s[k.value].speed > 0
  {
    if s == [] then None
    else
      var prev := FastestIndex(s[..|s| - 1]);
      var best := if prev.Some? then s[prev.value].speed else 0;
      if s[|s| - 1].speed > best then Some(|s| - 1) else prev
  }

  /** The crab at FastestIndex(s), if any. */
  function FastestCrab(s: seq<Crab>): (r: Option<Crab>)
    ensures r.Some? ==> r.value in s
  {
    match FastestIndex(s)
    case None => None
    case Some(k) => Some(s[k])
  }

  /** Crab `k` is the first crab reaching the highest, non-zero, speed of `s`. */
  ghost predicate IsFirstFastest(s: seq<Crab>, k: nat)
  {
    && k < |s|
    && s[k].speed > 0
    && (forall j :: 0 <= j < |s| ==> s[j].speed <= s[k].speed)
    && (forall j :: 0 <= j < k ==> s[j].speed < s[k].speed)
  }

  /** Every crab of `s` has speed 0 (which includes the empty beach). */
  ghost predicate AllStill(s: seq<Crab>)
  {
    forall j :: 0 <= j < |s| ==> s[j].speed == 0
  }

  lemma {:induction false} FastestIndexSound(s: seq<Crab>)
    ensures FastestIndex(s).None? <==> AllStill(s)
    ensures FastestIndex(s).Some? ==> IsFirstFastest(s, FastestIndex(s).value)
  {
    if s != [] {
      var p := s[..|s| - 1];
      FastestIndexSound(p);
      assert forall j :: 0 <= j < |p| ==> p[j] == s[j];
    }
  }

  /** At most one index is the first fastest crab. */
  lemma FirstFastestUnique(s: seq<Crab>, k1: nat, k2: nat)
    requires IsFirstFastest(s, k1) && IsFirstFastest(s, k2)
    ensures k1 == k2
  {
  }

  /** FastestIndex picks exactly the first crab with the maximum speed. */
  lemma FastestIndexIff(s: seq<Crab>, k: nat)
    ensures FastestIndex(s) == Some(k) <==> IsFirstFastest(s, k)
  {
    FastestIndexSound(s);
    if IsFirstFastest(s, k) {
      assert !AllStill(s);
      FirstFastestUnique(s, k, FastestIndex(s).value);
    }
  }

  // ---------------------------------------------------------------------
  // Crabs by name
  // ---------------------------------------------------------------------

  /** The crabs of `s` whose name is `name`, in insertion order. */
  function WithName(s: seq<Crab>, name: string): (r: seq<Crab>)
    ensures |r| <= |s|
  {
    if s == [] then []
    else WithName(s[..|s| - 1], name) + (if s[|s| - 1].name == name then [s[|s| - 1]] else [])
  }

  /** Filtering by name distributes over concatenation, so it keeps the order of `s`. */
  lemma {:induction false} WithNameAppend(s: seq<Crab>, t: seq<Crab>, name: string)
    ensures WithName(s + t, name) == WithName(s, name) + WithName(t, name)
  {
    if t == [] {
      assert s + t == s;
    } else {
      var t' := t[..|t| - 1];
      assert (s + t)[..|s + t| - 1] == s + t';
      WithNameAppend(s, t', name);
    }
  }

  /** A crab is in the result exactly when it is on the beach and carries the name. */
  lemma {:induction false} WithNameMembers(s: seq<Crab>, name: string, c: Crab)
    ensures c in WithName(s, name) <==> c in s && c.name == name
  {
    if s != [] {
      var p := s[..|s| - 1];
      WithNameMembers(p, name, c);
      assert s == p + [s[|s| - 1]];
    }
  }

  /** The result is empty exactly when no crab carries the name. */
  lemma {:induction false} WithNameEmptyIff(s: seq<Crab>, name: string)
    ensures WithName(s, name) == [] <==> forall j :: 0 <= j < |s| ==> s[j].name != name
  {
    if s != [] {
      var p := s[..|s| - 1];
      WithNameEmptyIff(p, name);
      assert forall j :: 0 <= j < |p| ==> p[j] == s[j];
    }
  }

  // ---------------------------------------------------------------------
  // Average speed of a list of member names
  // ---------------------------------------------------------------------

  /** The sum of the speeds of `cs`. */
  function SumSpeeds(cs: seq<Crab>): (total: nat)
    ensures cs == [] ==> total == 0
  {
    if cs == [] then 0 else SumSpeeds(cs[..|cs| - 1]) + cs[|cs| - 1].speed
  }

  /** For each member name in turn, the speeds of every crab of `s` with that name, summed. */
  function TotalSpeed(s: seq<Crab>, names: seq<string>): (total: nat)
    ensures names == [] ==> total == 0
  {
    if names == [] then 0
    else TotalSpeed(s, names[..|names| - 1]) + SumSpeeds(WithName(s, names[|names| - 1]))
  }

  lemma TotalSpeedStep(s: seq<Crab>, names: seq<string>, i: nat)
    requires i < |names|
    ensures TotalSpeed(s, names[..i + 1]) == TotalSpeed(s, names[..i]) + SumSpeeds(WithName(s, names[i]))
  {
    assert names[..i + 1][..i] == names[..i];
  }

  lemma SumSpeedsStep(cs: seq<Crab>, k: nat)
    requires k < |cs|
    ensures SumSpeeds(cs[..k + 1]) == SumSpeeds(cs[..k]) + cs[k].speed
  {
    assert cs[..k + 1][..k] == cs[..k];
  }

  /** How many times `name` occurs in `names`. */
  function Occurrences(names: seq<string>, name: string): (n: nat)
    ensures n <= |names|
  {
    if names == [] then 0
    else Occurrences(names[..|names| - 1], name) + (if names[|names| - 1] == name then 1 else 0)
  }

  /** Each crab's speed weighted by how often its name occurs in `names`. */
  function Weighted(s: seq<Crab>, names: seq<string>): nat
  {
    if s == [] then 0
    else Weighted(s[..|s| - 1], names) + s[|s| - 1].speed * Occurrences(names, s[|s| - 1].name)
  }

  lemma {:induction false} SumWithNameIsWeighted(s: seq<Crab>, name: string)
    ensures SumSpeeds(WithName(s, name)) == Weighted(s, [name])
  {
    if s != [] {
      var p := s[..|s| - 1];
      var c := s[|s| - 1];
      SumWithNameIsWeighted(p, name);
      assert Occurrences([name], c.name) == if c.name == name then 1 else 0 by {
        assert [name][..0] == [];
      }
      if c.name == name {
        var w := WithName(p, name) + [c];
        assert w[..|w| - 1] == WithName(p, name);
      } else {
        assert WithName(p, name) + [] == WithName(p, name);
      }
    }
  }

  lemma {:induction false} WeightedSnoc(s: seq<Crab>, names: seq<string>, name: string)
    ensures Weighted(s, names + [name]) == Weighted(s, names) + Weighted(s, [name])
  {
    if s != [] {
      var p := s[..|s| - 1];
      var c := s[|s| - 1];
      WeightedSnoc(p, names, name);
      var a := Occurrences(names, c.name);
      var b := Occurrences([name], c.name);
      OccurrencesSnoc(names, name, c.name);
      assert c.speed * (a + b) == c.speed * a + c.speed * b;
    }
  }

  lemma OccurrencesSnoc(names: seq<string>, name: string, x: string)
    ensures Occurrences(names + [name], x) == Occurrences(names, x) + Occurrences([name], x)
  {
    var ns := names + [name];
    assert ns[..|ns| - 1] == names;
    assert [name][..0] == [];
  }

  /**
   * Summing per member name counts every crab whose name is listed, once
   * per listing: a crab is not resolved to the first match of its name.
   */
  lemma {:induction false} TotalSpeedIsWeighted(s: seq<Crab>, names: seq<string>)
    ensures TotalSpeed(s, names) == Weighted(s, names)
  {
    if names == [] {
      WeightedOfNoNames(s);
    } else {
      var ns := names[..|names| - 1];
      var n := names[|names| - 1];
      TotalSpeedIsWeighted(s, ns);
      SumWithNameIsWeighted(s, n);
      WeightedSnoc(s, ns, n);
      assert ns + [n] == names;
    }
  }

  lemma {:induction false} WeightedOfNoNames(s: seq<Crab>)
    ensures Weighted(s, []) == 0
  {
    if s != [] {
      WeightedOfNoNames(s[..|s| - 1]);
    }
  }

  // ---------------------------------------------------------------------
  // Clan competition
  // ---------------------------------------------------------------------

  /**
   * An average speed kept as the exact fraction total / count. A count of 0
   * stands for the quotient 0.0 / 0.0, which compares false with everything.
   */
  datatype Mean = Mean(total: nat, count: nat)

  /** `a` is strictly below `b`, compared exactly by cross-multiplication. */
  predicate Below(a: Mean, b: Mean)
    ensures Below(a, b) ==> a.count > 0 && b.count > 0
  {
    a.count > 0 && b.count > 0 && a.total * b.count < b.total * a.count
  }

  /** The average as a real number. */
  function Average(m: Mean): real
    requires m.count > 0
  {
    m.total as real / m.count as real
  }

  /** Cross-multiplication orders means exactly as their quotients. */
  lemma BelowIsAverageLess(a: Mean, b: Mean)
    requires a.count > 0 && b.count > 0
    ensures Below(a, b) <==> Average(a) < Average(b)
  {
    var x, p := a.total as real, a.count as real;
    var y, q := b.total as real, b.count as real;
    assert Average(a) == x / p && Average(b) == y / q;
    assert x / p * (p * q) == x * q;
    assert y / q * (p * q) == y * p;
    assert (a.total * b.count) as real == x * q;
    assert (b.total * a.count) as real == y * p;
    assert p * q > 0.0;
  }

  /** On means with members, Below is a strict order: irreflexive, asymmetric and transitive. */
  lemma BelowIsStrictOrder(a: Mean, b: Mean, c: Mean)
    ensures !Below(a, a)
    ensures Below(a, b) ==> !Below(b, a)
    ensures Below(a, b) && Below(b, c) ==> Below(a, c)
  {
    if Below(a, b) && Below(b, c) {
      BelowIsAverageLess(a, b);
      BelowIsAverageLess(b, c);
      BelowIsAverageLess(a, c);
    }
  }

  /** The mean speed of the crabs named by `names`. */
  function MeanSpeed(s: seq<Crab>, names: seq<string>): (m: Mean)
    ensures m.count == |names|
  {
    Mean(TotalSpeed(s, names), |names|)
  }

  const InvalidId: string := "invalid id!"

  /** The outcome of the competition between clans `id1` and `id2`. */
  function Competition(s: seq<Crab>, clans: map<string, seq<string>>, id1: string, id2: string)
    : (r: Result<Option<string>, string>)
    ensures r.Err? <==> id1 !in clans || id2 !in clans
    ensures r.Err? ==> r.error == InvalidId
    ensures r.Ok? && r.value.Some? ==> r.value.value == id1 || r.value.value == id2
  {
    if id1 in clans && id2 in clans then
      var m1 := MeanSpeed(s, clans[id1]);
      var m2 := MeanSpeed(s, clans[id2]);
      if Below(m2, m1) then Ok(Some(id1))
      else if Below(m1, m2) then Ok(Some(id2))
      else Ok(None)
    else
      Err(InvalidId)
  }

  /** Swapping the two clans does not change the winner. */
  lemma CompetitionSymmetric(s: seq<Crab>, clans: map<string, seq<string>>, id1: string, id2: string)
    ensures Competition(s, clans, id1, id2) == Competition(s, clans, id2, id1)
  {
  }

  /** A clan competing with itself is a draw. */
  lemma CompetitionWithSelf(s: seq<Crab>, clans: map<string, seq<string>>, id: string)
    requires id in clans
    ensures Competition(s, clans, id, id) == Ok(None)
  {
  }

  /**
   * When both clans exist and have members, the winner is the clan whose
   * average speed is strictly higher, and a draw means equal averages.
   */
  lemma CompetitionByAverage(s: seq<Crab>, clans: map<string, seq<string>>, id1: string, id2: string)
    requires id1 in clans && id2 in clans
    requires clans[id1] != [] && clans[id2] != []
    ensures var a1 := Average(MeanSpeed(s, clans[id1]));
            var a2 := Average(MeanSpeed(s, clans[id2]));
            Competition(s, clans, id1, id2) ==
              if a1 > a2 then Ok(Some(id1)) else if a1 < a2 then Ok(Some(id2)) else Ok(None)
  {
    var m1 := MeanSpeed(s, clans[id1]);
    var m2 := MeanSpeed(s, clans[id2]);
    BelowIsAverageLess(m1, m2);
    BelowIsAverageLess(m2, m1);
  }
}
