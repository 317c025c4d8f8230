/** Access-group configurations and how a group name such as `team-developers` resolves to one
    (internal/controller/common.go). */
module Groups {
  import opened Options
  import opened Text

  /** `maxDuration` is in nanoseconds, as Go's time.Duration. */
  datatype AccessGroupConfig = AccessGroupConfig(name: string, maxDuration: int, reasonRequired: bool)

  /** A group matches a configuration when trimming the configuration's name changes it. */
  predicate Matches(c: AccessGroupConfig, group: string) {
    TrimSuffix(group, c.name) != group
  }

  function GetConfig(configs: seq<AccessGroupConfig>, group: string): Option<AccessGroupConfig> {
    if configs == [] then None
    else if Matches(configs[0], group) then Some(configs[0])
    else GetConfig(configs[1..], group)
  }

  function ToTeam(c: AccessGroupConfig, group: string): string {
    TrimSuffix(TrimSuffix(group, c.name), "-")
  }

  /** No non-empty configuration name is a suffix of the name at another position. */
  ghost predicate SuffixFree(configs: seq<AccessGroupConfig>) {
    forall i, j | 0 <= i < |configs| && 0 <= j < |configs| && i != j && configs[i].name != "" ::
      !HasSuffix(configs[j].name, configs[i].name)
  }

  /** At most one position of the list matches the group. */
  ghost predicate Unambiguous(configs: seq<AccessGroupConfig>, group: string) {
    forall i, j | 0 <= i < |configs| && 0 <= j < |configs| ::
      Matches(configs[i], group) && Matches(configs[j], group) ==> i == j
  }

  lemma MatchesMeansNonEmptySuffix(c: AccessGroupConfig, group: string)
    ensures Matches(c, group) <==> c.name != "" && HasSuffix(group, c.name)
  {
    if HasSuffix(group, c.name) {
      assert TrimSuffix(group, c.name) + c.name == group;
      if c.name != "" { assert |TrimSuffix(group, c.name)| < |group|; }
    }
  }

  /** GetConfig finds the first match, and finds nothing only when nothing matches. */
  lemma {:induction false} GetConfigFindsFirst(configs: seq<AccessGroupConfig>, group: string) returns (k: nat)
    ensures k <= |configs|
    ensures forall i | 0 <= i < k :: !Matches(configs[i], group)
    ensures k < |configs| ==> Matches(configs[k], group) && GetConfig(configs, group) == Some(configs[k])
    ensures k == |configs| ==> GetConfig(configs, group) == None
  {
    if configs == [] {
      k := 0;
    } else if Matches(configs[0], group) {
      k := 0;
    } else {
      var k' := GetConfigFindsFirst(configs[1..], group);
      k := k' + 1;
    }
  }

  /** Two positions that both match have nested names. */
  lemma MatchesNest(c: AccessGroupConfig, d: AccessGroupConfig, group: string)
    requires Matches(c, group) && Matches(d, group)
    ensures c.name != "" && d.name != ""
    ensures HasSuffix(c.name, d.name) || HasSuffix(d.name, c.name)
  {
    MatchesMeansNonEmptySuffix(c, group);
    MatchesMeansNonEmptySuffix(d, group);
    if |c.name| <= |d.name| {
      SuffixesNest(group, c.name, d.name);
    } else {
      SuffixesNest(group, d.name, c.name);
    }
  }

  /** Every group resolves unambiguously exactly when the names are pairwise suffix-free. */
  lemma SuffixFreeIffUnambiguous(configs: seq<AccessGroupConfig>)
    ensures SuffixFree(configs) <==> forall group :: Unambiguous(configs, group)
  {
    if SuffixFree(configs) {
      forall group, i, j | 0 <= i < |configs| && 0 <= j < |configs|
                           && Matches(configs[i], group) && Matches(configs[j], group)
        ensures i == j
      {
        MatchesNest(configs[i], configs[j], group);
      }
    }
    if forall group :: Unambiguous(configs, group) {
      forall i, j | 0 <= i < |configs| && 0 <= j < |configs| && i != j && configs[i].name != ""
        ensures !HasSuffix(configs[j].name, configs[i].name)
      {
        var group := configs[j].name;
        assert Unambiguous(configs, group);
        MatchesMeansNonEmptySuffix(configs[i], group);
        MatchesMeansNonEmptySuffix(configs[j], group);
      }
    }
  }

  /** No two different configurations have nested names; the same one may be listed twice. */
  ghost predicate Unnested(configs: seq<AccessGroupConfig>) {
    forall c, d | c in configs && d in configs && c != d && c.name != "" :: !HasSuffix(d.name, c.name)
  }

  /** Resolution gives the same for every group and every order of the configurations. */
  ghost predicate OrderIrrelevant(configs: seq<AccessGroupConfig>) {
    forall shuffled: seq<AccessGroupConfig>, group | multiset(shuffled) == multiset(configs) ::
      GetConfig(shuffled, group) == GetConfig(configs, group)
  }

  /** The order of the configurations does not matter exactly when different ones have no nested names. */
  lemma OrderIrrelevantIff(configs: seq<AccessGroupConfig>)
    ensures OrderIrrelevant(configs) <==> Unnested(configs)
  {
    if Unnested(configs) {
      forall shuffled: seq<AccessGroupConfig>, group | multiset(shuffled) == multiset(configs)
        ensures GetConfig(shuffled, group) == GetConfig(configs, group)
      {
        ResolutionIgnoresOrder(configs, shuffled, group);
      }
    }
    if OrderIrrelevant(configs) {
      forall c, d | c in configs && d in configs && c != d && c.name != ""
        ensures !HasSuffix(d.name, c.name)
      {
        if HasSuffix(d.name, c.name) {
          MatchesMeansNonEmptySuffix(c, d.name);
          MatchesMeansNonEmptySuffix(d, d.name);
          FrontWins(configs, c, d.name);
          FrontWins(configs, d, d.name);
        }
      }
    }
  }

  /** The list with one of its configurations put first. */
  function MovedToFront(configs: seq<AccessGroupConfig>, c: AccessGroupConfig): (r: seq<AccessGroupConfig>)
    requires c in configs
    ensures multiset(r) == multiset(configs) && r != [] && r[0] == c
  {
    if configs[0] == c then configs
    else
      var rest := MovedToFront(configs[1..], c);
      assert configs == [configs[0]] + configs[1..] && rest == [rest[0]] + rest[1..];
      [c, configs[0]] + rest[1..]
  }

  lemma FrontWins(configs: seq<AccessGroupConfig>, c: AccessGroupConfig, group: string)
    requires c in configs && Matches(c, group)
    ensures GetConfig(MovedToFront(configs, c), group) == Some(c)
  {
  }

  /** Then every order resolves a group to the same configuration. */
  lemma ResolutionIgnoresOrder(configs: seq<AccessGroupConfig>, shuffled: seq<AccessGroupConfig>, group: string)
    requires Unnested(configs)
    requires multiset(shuffled) == multiset(configs)
    ensures GetConfig(shuffled, group) == GetConfig(configs, group)
  {
    assert forall c :: c in configs <==> c in multiset(configs);
    assert forall c :: c in shuffled <==> c in multiset(shuffled);
    var k := GetConfigFindsFirst(configs, group);
    var l := GetConfigFindsFirst(shuffled, group);
    if l < |shuffled| {
      assert shuffled[l] in configs;
      var i :| 0 <= i < |configs| && configs[i] == shuffled[l];
      assert k <= i;
      MatchesNest(configs[k], shuffled[l], group);
    } else {
      assert forall c | c in configs :: c in shuffled && !Matches(c, group);
    }
  }

  /** For every team and every configuration the group `team-name` resolves to that configuration,
      and the team is recovered exactly. */
  lemma TeamGroupResolves(configs: seq<AccessGroupConfig>, i: nat, team: string)
    requires i < |configs| && configs[i].name != ""
    requires SuffixFree(configs)
    ensures GetConfig(configs, team + "-" + configs[i].name) == Some(configs[i])
    ensures ToTeam(configs[i], team + "-" + configs[i].name) == team
  {
    var group := team + "-" + configs[i].name;
    SuffixOfConcat(team + "-", configs[i].name);
    SuffixOfConcat(team, "-");
    MatchesMeansNonEmptySuffix(configs[i], group);
    SuffixFreeIffUnambiguous(configs);
    assert Unambiguous(configs, group);
    var k := GetConfigFindsFirst(configs, group);
  }
}
