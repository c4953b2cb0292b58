/** `players_from_depth_chart` (lambda_function.py:58-80): one depth-chart
    request per team, every relief and starting pitcher's (id, display name)
    pair added to a set that lives across calls. */
module DepthChart {
  import opened Results

  /** An athlete as the scan keeps it: the pair (id, displayName). */
  datatype Pitcher = Pitcher(id: string, displayName: string)

  /** A team's depth-chart response: its status code and, from the first
      depth chart, the athletes of the `rp` and `p` position groups. */
  datatype ChartResponse = ChartResponse(status: int, rp: seq<Pitcher>, p: seq<Pitcher>)

  /** The 30 team abbreviations, in the order they are fetched. */
  const Teams: seq<string> := [
    "ari", "atl", "bal", "bos", "chc", "chw", "cin", "cle", "col", "det", "hou",
    "kc", "laa", "lad", "mia", "mil", "min", "nym", "nyy", "oak", "phi", "pit",
    "sd", "sea", "stl", "sf", "tb", "tex", "tor", "wsh"]

  /** What the depth-chart fetch gives for each team: the response
      `fetch_url` returned, or `None` when it returned nothing. */
  type Charts = string -> Option<ChartResponse>

  /** The pairs a response lists, relief pitchers and pitchers together. */
  function Listed(c: ChartResponse): set<Pitcher>
  {
    set x | x in c.rp + c.p
  }

  /** How a scan ends: all teams done; a non-200 team (the function
      returns None); or no response at all (reading `.status_code` of
      None raises). */
  datatype ScanEnd = Completed | Aborted | Crashed

  datatype Scan = Scan(end: ScanEnd, pitchers: set<Pitcher>)

  /** Reference definition: scanning `teams` in order into `acc`. */
  function ScanTeams(acc: set<Pitcher>, teams: seq<string>, charts: Charts): Scan
    decreases |teams|
  {
    if teams == [] then Scan(Completed, acc)
    else
      match charts(teams[0])
      case None => Scan(Crashed, acc)
      case Some(c) =>
        if c.status != 200 then Scan(Aborted, acc)
        else ScanTeams(acc + Listed(c), teams[1..], charts)
  }

  /** What the Python call produces from a scan: the set, `None`, or an
      escaping exception. */
  function CallResult(s: Scan): Outcome<Option<set<Pitcher>>>
  {
    match s.end
    case Completed => Returned(Some(s.pitchers))
    case Aborted => Returned(None)
    case Crashed => Raised
  }

  /** A Python set object. The default argument `active_pitchers=set()` is
      one such object, made once and shared by every call that omits it. */
  class PitcherSet {
    var elems: set<Pitcher>

    constructor ()
      ensures elems == {}
    {
      elems := {};
    }
  }

  /** The inner loop: adds every listed athlete's pair, one at a time. */
  method AddAll(activePitchers: PitcherSet, athletes: seq<Pitcher>)
    modifies activePitchers
    ensures activePitchers.elems == old(activePitchers.elems) + set x | x in athletes
  {
    var j := 0;
    while j < |athletes|
      invariant 0 <= j <= |athletes|
      invariant activePitchers.elems == old(activePitchers.elems) + set x | x in athletes[..j]
    {
      assert athletes[..j + 1] == athletes[..j] + [athletes[j]];
      activePitchers.elems := activePitchers.elems + {athletes[j]};
      j := j + 1;
    }
    assert athletes[..j] == athletes;
  }

  /** `players_from_depth_chart(active_pitchers)`: adds into the given set
      object, team by team, and stops at the first team without a 200. */
  method PlayersFromDepthChart(activePitchers: PitcherSet, charts: Charts)
      returns (r: Outcome<Option<set<Pitcher>>>)
    modifies activePitchers
    ensures activePitchers.elems == ScanTeams(old(activePitchers.elems), Teams, charts).pitchers
    ensures r == CallResult(ScanTeams(old(activePitchers.elems), Teams, charts))
  {
    var t := 0;
    while t < |Teams|
      invariant 0 <= t <= |Teams|
      invariant ScanTeams(old(activePitchers.elems), Teams, charts)
             == ScanTeams(activePitchers.elems, Teams[t..], charts)
    {
      var response := charts(Teams[t]);
      if response.None? {
        return Raised;
      }
      if response.value.status != 200 {
        return Returned(None);
      }
      AddAll(activePitchers, response.value.rp + response.value.p);
      assert Teams[t..][1..] == Teams[t + 1..];
      t := t + 1;
    }
    return Returned(Some(activePitchers.elems));
  }

  /** Pairs already in the set stay there, however the scan ends; with the
      shared default set, what one call added is still there in the next. */
  lemma {:induction false} ScanKeeps(acc: set<Pitcher>, teams: seq<string>, charts: Charts)
    ensures acc <= ScanTeams(acc, teams, charts).pitchers
    decreases |teams|
  {
    if teams != [] && charts(teams[0]).Some? && charts(teams[0]).value.status == 200 {
      ScanKeeps(acc + Listed(charts(teams[0]).value), teams[1..], charts);
    }
  }

  predicate AllOk(teams: seq<string>, charts: Charts)
  {
    forall t :: t in teams ==> charts(t).Some? && charts(t).value.status == 200
  }

  /** When every team answers 200: the result is the initial set plus every
      pair some team lists, and nothing else. */
  lemma {:induction false} ScanCompleted(acc: set<Pitcher>, teams: seq<string>, charts: Charts)
    requires AllOk(teams, charts)
    ensures ScanTeams(acc, teams, charts).end == Completed
    ensures forall x :: x in ScanTeams(acc, teams, charts).pitchers <==>
      x in acc || exists t :: t in teams && x in Listed(charts(t).value)
    decreases |teams|
  {
    if teams != [] {
      var c := charts(teams[0]).value;
      assert forall t :: t in teams[1..] ==> t in teams;
      ScanCompleted(acc + Listed(c), teams[1..], charts);
      forall x
        ensures (exists t :: t in teams && x in Listed(charts(t).value)) <==>
          x in Listed(c) || exists t :: t in teams[1..] && x in Listed(charts(t).value)
      {
        if exists t :: t in teams && x in Listed(charts(t).value) {
          var t :| t in teams && x in Listed(charts(t).value);
          if t != teams[0] {
            assert t in teams[1..];
          }
        }
      }
    }
  }

  /** At the first team without a 200 the scan aborts: the result holds the
      initial set plus what the teams before it list. */
  lemma {:induction false} ScanAborted(acc: set<Pitcher>, teams: seq<string>, charts: Charts, i: nat)
    requires i < |teams| && AllOk(teams[..i], charts)
    requires charts(teams[i]).Some? && charts(teams[i]).value.status != 200
    ensures ScanTeams(acc, teams, charts).end == Aborted
    ensures forall x :: x in ScanTeams(acc, teams, charts).pitchers <==>
      x in acc || exists t :: t in teams[..i] && x in Listed(charts(t).value)
    decreases |teams|
  {
    if i > 0 {
      var c := charts(teams[0]).value;
      assert teams[0] in teams[..i];
      assert teams[1..][..i - 1] == teams[..i][1..];
      assert forall t :: t in teams[..i][1..] ==> t in teams[..i];
      ScanAborted(acc + Listed(c), teams[1..], charts, i - 1);
      forall x
        ensures (exists t :: t in teams[..i] && x in Listed(charts(t).value)) <==>
          x in Listed(c) || exists t :: t in teams[1..][..i - 1] && x in Listed(charts(t).value)
      {
        if exists t :: t in teams[..i] && x in Listed(charts(t).value) {
          var t :| t in teams[..i] && x in Listed(charts(t).value);
          if t != teams[0] {
            assert t in teams[..i][1..];
          }
        }
        if exists t :: t in teams[1..][..i - 1] && x in Listed(charts(t).value) {
          var t :| t in teams[1..][..i - 1] && x in Listed(charts(t).value);
          assert t in teams[..i];
        }
      }
    }
  }

  /** No team after the first failing one is fetched: the result does not
      depend on what the later teams would answer. */
  lemma {:induction false} ScanIgnoresLaterTeams(acc: set<Pitcher>, teams: seq<string>, charts: Charts,
                                                 charts': Charts, i: nat)
    requires i < |teams|
    requires charts(teams[i]).None? || charts(teams[i]).value.status != 200
    requires forall t :: t in teams[..i + 1] ==> charts'(t) == charts(t)
    ensures ScanTeams(acc, teams, charts') == ScanTeams(acc, teams, charts)
    decreases |teams|
  {
    assert teams[0] in teams[..i + 1];
    if i > 0 && charts(teams[0]).Some? && charts(teams[0]).value.status == 200 {
      assert forall t :: t in teams[1..][..i] ==> t in teams[..i + 1];
      ScanIgnoresLaterTeams(acc + Listed(charts(teams[0]).value), teams[1..], charts, charts', i - 1);
    }
  }

  /** A chart where "ari" lists `a` twice under `rp` and `b` under `p`,
      and every other team lists nobody. */
  function TwoNamesChart(a: Pitcher, b: Pitcher): Charts
  {
    t => Some(ChartResponse(200, if t == "ari" then [a, a] else [], if t == "ari" then [b] else []))
  }

  /** Deduplication is on the pair, not on the id: one id under two display
      names stays in the set twice, a repeated pair once. */
  lemma DedupIsOnPairs(a: Pitcher, b: Pitcher, teams: seq<string>)
    requires a.id == b.id && a != b
    requires "ari" in teams
    ensures ScanTeams({}, teams, TwoNamesChart(a, b)) == Scan(Completed, {a, b})
  {
    var charts := TwoNamesChart(a, b);
    assert Listed(charts("ari").value) == {a, b} by {
      assert charts("ari").value.rp + charts("ari").value.p == [a, a, b];
    }
    forall t | t != "ari" ensures Listed(charts(t).value) == {} {
      assert charts(t).value.rp + charts(t).value.p == [];
    }
    ScanCompleted({}, teams, charts);
  }
}
