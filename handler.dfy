/** `lambda_handler` (lambda_function.py:113-154): scan the depth charts,
    fetch every scanned pitcher's record, and upload a table with the
    16-column header and one row per `player_info` key, in insertion order. */
module Handler {
  import opened Results
  import opened DepthChart
  import opened PlayerData

  const Bucket: string := "mlb-pitcher-data"
  const FileName: string := "dim_mlb_pitcher_df.csv"

  /** The object put into storage: bucket, key, and the rows of the CSV body. */
  datatype Upload = Upload(bucket: string, key: string, table: seq<seq<Json>>)

  /** What `fetch_url` returns for each player id's detail request. */
  type Details = string -> Option<DetailResponse>

  /** The header row: the 16 column names. */
  function HeaderRow(): seq<Json>
  {
    seq(|Header|, i requires 0 <= i < |Header| => JStr(Header[i]))
  }

  /** `player_info.values()`: the rows in key insertion order. */
  function RowsInOrder(keys: seq<string>, rows: map<string, seq<Json>>): seq<seq<Json>>
    requires forall k :: k in keys ==> k in rows
  {
    seq(|keys|, i requires 0 <= i < |keys| => rows[keys[i]])
  }

  /** `get_player_data` raises for this fetch result. */
  predicate Fails(o: Option<DetailResponse>)
  {
    o.None? || (o.value.status == 200 && !Builds(o.value.athlete))
  }

  /** How many scanned pairs carry the id. */
  function IdCount(ps: set<Pitcher>, id: string): nat
  {
    |set p | p in ps && p.id == id|
  }

  /** `n` copies of a record, one after the other. */
  function Repeat(r: seq<Json>, n: nat): (t: seq<Json>)
    ensures |t| == n * |r|
  {
    if n == 0 then [] else Repeat(r, n - 1) + r
  }

  lemma IdCountAdd(ps: set<Pitcher>, p: Pitcher, id: string)
    requires p !in ps
    ensures IdCount(ps + {p}, id) == IdCount(ps, id) + if p.id == id then 1 else 0
  {
    var before := set q | q in ps && q.id == id;
    var after := set q | q in ps + {p} && q.id == id;
    if p.id == id {
      assert after == before + {p};
    } else {
      assert after == before;
    }
  }

  lemma IdCountNone(ps: set<Pitcher>, id: string)
    requires forall q :: q in ps ==> q.id != id
    ensures IdCount(ps, id) == 0
  {
    assert (set q | q in ps && q.id == id) == {};
  }

  /** The rows after fetching the pairs of `visited`, one request per pair:
      a key for each id whose fetch was a 200, holding its record once per
      pair with that id. */
  ghost predicate PerPair(rows: map<string, seq<Json>>, visited: set<Pitcher>, details: Details)
  {
    && (forall k :: k in rows <==> Ok200(details(k)) && exists p :: p in visited && p.id == k)
    && (forall k :: k in rows ==> rows[k] == Repeat(Row(details(k).value.athlete), IdCount(visited, k)))
  }

  lemma PerPairStep(rows: map<string, seq<Json>>, visited: set<Pitcher>, p: Pitcher, details: Details)
    requires PerPair(rows, visited, details) && p !in visited
    ensures PerPair(AfterFetch(rows, p.id, details(p.id)), visited + {p}, details)
  {
    var rows' := AfterFetch(rows, p.id, details(p.id));
    forall k | k in rows'
      ensures rows'[k] == Repeat(Row(details(k).value.athlete), IdCount(visited + {p}, k))
    {
      IdCountAdd(visited, p, k);
      if k == p.id && k !in rows {
        IdCountNone(visited, k);
      }
    }
  }

  lemma FailsIsRaised(o: Option<DetailResponse>)
    ensures DetailResult(o).Raised? <==> Fails(o)
  {
  }

  predicate Distinct(keys: seq<string>)
  {
    forall i, j :: 0 <= i < j < |keys| ==> keys[i] != keys[j]
  }

  /** The upload `lambda_handler` makes from per-pair rows: the header,
      then for each key in insertion order its record repeated once per
      scanned pair with that id. */
  ghost predicate PerPairUpload(u: Upload, keys: seq<string>, pitchers: set<Pitcher>, details: Details)
  {
    && u.bucket == Bucket && u.key == FileName
    && |u.table| == |keys| + 1 && u.table[0] == HeaderRow()
    && Distinct(keys)
    && (forall k :: k in keys <==> Ok200(details(k)) && exists p :: p in pitchers && p.id == k)
    && forall i :: 0 <= i < |keys| ==>
         u.table[i + 1] == Repeat(Row(details(keys[i]).value.athlete), IdCount(pitchers, keys[i]))
  }

  /** With one fetch per scanned pair, the keys are the scanned ids whose fetch was a 200. */
  lemma PerPairKeys(keys: seq<string>, rows: map<string, seq<Json>>, pitchers: set<Pitcher>, details: Details)
    requires forall k :: k in rows <==> k in keys
    requires PerPair(rows, pitchers, details)
    ensures forall k :: k in keys <==> Ok200(details(k)) && exists p :: p in pitchers && p.id == k
  {
    forall k ensures k in keys <==> Ok200(details(k)) && exists p :: p in pitchers && p.id == k {
      assert k in keys <==> k in rows;
    }
  }

  lemma PerPairUploadOf(keys: seq<string>, rows: map<string, seq<Json>>, pitchers: set<Pitcher>, details: Details)
    requires Distinct(keys) && (forall k :: k in rows <==> k in keys)
    requires PerPair(rows, pitchers, details)
    ensures PerPairUpload(Upload(Bucket, FileName, [HeaderRow()] + RowsInOrder(keys, rows)), keys, pitchers, details)
  {
    PerPairKeys(keys, rows, pitchers, details);
    TableOf(keys, rows);
    var table := [HeaderRow()] + RowsInOrder(keys, rows);
    forall i | 0 <= i < |keys|
      ensures table[i + 1] == Repeat(Row(details(keys[i]).value.athlete), IdCount(pitchers, keys[i]))
    {
      assert keys[i] in rows;
    }
  }

  /** `lambda_handler` as written: one detail request per scanned pair, so
      an id scanned under several display names has its record appended
      once per pair. */
  /** The `for` loop of `lambda_handler`: `get_player_data` once per
      scanned (id, name) pair, into a fresh `player_info`; `raised` when
      one of the calls raises, which ends the handler. */
  method FetchEachPair(pitchers: set<Pitcher>, details: Details, info: PlayerInfo) returns (raised: bool)
    requires info.Valid() && info.rows == map[]
    modifies info
    ensures info.Valid()
    ensures raised <==> exists p :: p in pitchers && Fails(details(p.id))
    ensures !raised ==> PerPair(info.rows, pitchers, details)
  {
    var remaining := pitchers;
    ghost var visited: set<Pitcher> := {};
    while remaining != {}
      invariant remaining + visited == pitchers && remaining !! visited
      invariant info.Valid()
      invariant forall p :: p in visited ==> !Fails(details(p.id))
      invariant PerPair(info.rows, visited, details)
      decreases remaining
    {
      var p :| p in remaining;
      ghost var rowsBefore := info.rows;
      var got := GetPlayerData(p.id, details(p.id), info);
      FailsIsRaised(details(p.id));
      if got.Raised? {
        assert p in pitchers && Fails(details(p.id));
        return true;
      }
      PerPairStep(rowsBefore, visited, p, details);
      remaining := remaining - {p};
      visited := visited + {p};
    }
    assert visited == pitchers;
    return false;
  }

  method LambdaHandler(defaultSet: PitcherSet, charts: Charts, details: Details)
      returns (r: Outcome<Upload>, ghost keys: seq<string>)
    modifies defaultSet
    ensures var s := ScanTeams(old(defaultSet.elems), Teams, charts);
      && defaultSet.elems == s.pitchers
      && (s.end != Completed ==> r == Raised)
      && (s.end == Completed ==> (r.Raised? <==> exists p :: p in s.pitchers && Fails(details(p.id))))
      && (r.Returned? ==> PerPairUpload(r.value, keys, s.pitchers, details))
  {
    ghost var s := ScanTeams(defaultSet.elems, Teams, charts);
    var scanned := PlayersFromDepthChart(defaultSet, charts);
    assert scanned == CallResult(s) && defaultSet.elems == s.pitchers;
    if !(scanned.Returned? && scanned.value.Some?) {
      // Iterating over None raises TypeError.
      return Raised, [];
    }
    var pitchers := scanned.value.value;
    assert s.end == Completed && pitchers == s.pitchers;
    var info := new PlayerInfo();
    var raised := FetchEachPair(pitchers, details, info);
    if raised {
      return Raised, [];
    }
    keys := info.keys;
    PerPairUploadOf(keys, info.rows, pitchers, details);
    r := Returned(Upload(Bucket, FileName, [HeaderRow()] + RowsInOrder(info.keys, info.rows)));
  }

  /** The rows after fetching each id of `visitedIds` once. */
  ghost predicate PerId(rows: map<string, seq<Json>>, visitedIds: set<string>, details: Details)
  {
    && (forall k :: k in rows <==> k in visitedIds && Ok200(details(k)))
    && (forall k :: k in rows ==> rows[k] == Row(details(k).value.athlete))
  }

  /** The upload with one row per distinct id: the header, then each
      fetched id's record once, every row as wide as the header. */
  ghost predicate PerIdUpload(u: Upload, keys: seq<string>, pitchers: set<Pitcher>, details: Details)
  {
    && u.bucket == Bucket && u.key == FileName
    && |u.table| == |keys| + 1 && u.table[0] == HeaderRow()
    && Distinct(keys)
    && (forall k :: k in keys <==> Ok200(details(k)) && exists p :: p in pitchers && p.id == k)
    && (forall i :: 0 <= i < |keys| ==> u.table[i + 1] == Row(details(keys[i]).value.athlete))
    && forall i :: 0 <= i < |u.table| ==> |u.table[i]| == |Header|
  }

  /** Fetching a not yet visited id once adds its record once. */
  lemma PerIdStep(rows: map<string, seq<Json>>, visitedIds: set<string>, id: string, details: Details)
    requires PerId(rows, visitedIds, details) && id !in visitedIds
    ensures PerId(AfterFetch(rows, id, details(id)), visitedIds + {id}, details)
  {
    assert id !in rows;
  }

  /** With one fetch per scanned id, the keys are the scanned ids whose fetch was a 200. */
  lemma PerIdKeys(keys: seq<string>, rows: map<string, seq<Json>>, pitchers: set<Pitcher>, details: Details)
    requires forall k :: k in rows <==> k in keys
    requires PerId(rows, set p | p in pitchers :: p.id, details)
    ensures forall k :: k in keys <==> Ok200(details(k)) && exists p :: p in pitchers && p.id == k
  {
    forall k ensures k in keys <==> Ok200(details(k)) && exists p :: p in pitchers && p.id == k {
      if k in keys {
        var p :| p in pitchers && p.id == k;
      }
    }
  }

  /** Each data row is its id's record, as wide as the header. */
  lemma PerIdRows(keys: seq<string>, rows: map<string, seq<Json>>, pitchers: set<Pitcher>, details: Details)
    requires forall k :: k in rows <==> k in keys
    requires PerId(rows, set p | p in pitchers :: p.id, details)
    requires forall p :: p in pitchers ==> !Fails(details(p.id))
    ensures forall i :: 0 <= i < |keys| ==> rows[keys[i]] == Row(details(keys[i]).value.athlete)
    ensures forall i :: 0 <= i < |keys| ==> |rows[keys[i]]| == |Header|
  {
    forall k | k in rows
      ensures |rows[k]| == |Header|
    {
      assert k in set p | p in pitchers :: p.id;
      var p :| p in pitchers && p.id == k;
      assert !Fails(details(k)) && Ok200(details(k));
      RowComplete(details(k).value.athlete);
    }
  }

  lemma PerIdUploadOf(keys: seq<string>, rows: map<string, seq<Json>>, pitchers: set<Pitcher>, details: Details)
    requires Distinct(keys) && (forall k :: k in rows <==> k in keys)
    requires PerId(rows, set p | p in pitchers :: p.id, details)
    requires forall p :: p in pitchers ==> !Fails(details(p.id))
    ensures PerIdUpload(Upload(Bucket, FileName, [HeaderRow()] + RowsInOrder(keys, rows)), keys, pitchers, details)
  {
    PerIdKeys(keys, rows, pitchers, details);
    PerIdRows(keys, rows, pitchers, details);
    TableOf(keys, rows);
    TableWidth(keys, rows);
  }

  /** The uploaded table: the header, then each key's row in key order. */
  lemma TableOf(keys: seq<string>, rows: map<string, seq<Json>>)
    requires forall k :: k in keys ==> k in rows
    ensures var table := [HeaderRow()] + RowsInOrder(keys, rows);
      && |table| == |keys| + 1 && table[0] == HeaderRow()
      && (forall i :: 0 <= i < |keys| ==> table[i + 1] == rows[keys[i]])
  {
  }

  /** When every row is 16 wide, so is every line of the table. */
  lemma TableWidth(keys: seq<string>, rows: map<string, seq<Json>>)
    requires forall k :: k in keys ==> k in rows
    requires forall i :: 0 <= i < |keys| ==> |rows[keys[i]]| == |Header|
    ensures var table := [HeaderRow()] + RowsInOrder(keys, rows);
      forall i :: 0 <= i < |table| ==> |table[i]| == |Header|
  {
    TableOf(keys, rows);
    var table := [HeaderRow()] + RowsInOrder(keys, rows);
    forall i | 0 <= i < |table|
      ensures |table[i]| == |Header|
    {
      if i > 0 {
        assert table[i] == rows[keys[i - 1]];
      }
    }
  }

  /** `lambda_handler` as evidently intended: one detail request per
      distinct player id, so each id gets exactly one 16-value row. */
  /** The corrected loop: `get_player_data` once per distinct id. */
  method FetchEachId(ids: set<string>, details: Details, info: PlayerInfo) returns (raised: bool)
    requires info.Valid() && info.rows == map[]
    modifies info
    ensures info.Valid()
    ensures raised <==> exists id :: id in ids && Fails(details(id))
    ensures !raised ==> PerId(info.rows, ids, details)
  {
    var remaining := ids;
    ghost var visited: set<string> := {};
    while remaining != {}
      invariant remaining + visited == ids && remaining !! visited
      invariant info.Valid()
      invariant forall k :: k in visited ==> !Fails(details(k))
      invariant PerId(info.rows, visited, details)
      decreases remaining
    {
      var id :| id in remaining;
      ghost var rowsBefore := info.rows;
      var got := GetPlayerData(id, details(id), info);
      FailsIsRaised(details(id));
      if got.Raised? {
        return true;
      }
      PerIdStep(rowsBefore, visited, id, details);
      remaining := remaining - {id};
      visited := visited + {id};
    }
    assert visited == ids;
    return false;
  }

  method LambdaHandlerById(defaultSet: PitcherSet, charts: Charts, details: Details)
      returns (r: Outcome<Upload>, ghost keys: seq<string>)
    modifies defaultSet
    ensures var s := ScanTeams(old(defaultSet.elems), Teams, charts);
      && defaultSet.elems == s.pitchers
      && (s.end != Completed ==> r == Raised)
      && (s.end == Completed ==> (r.Raised? <==> exists p :: p in s.pitchers && Fails(details(p.id))))
      && (r.Returned? ==> PerIdUpload(r.value, keys, s.pitchers, details))
  {
    ghost var s := ScanTeams(defaultSet.elems, Teams, charts);
    var scanned := PlayersFromDepthChart(defaultSet, charts);
    assert scanned == CallResult(s) && defaultSet.elems == s.pitchers;
    if !(scanned.Returned? && scanned.value.Some?) {
      return Raised, [];
    }
    var pitchers := scanned.value.value;
    assert s.end == Completed && pitchers == s.pitchers;
    var ids := set p | p in pitchers :: p.id;
    var info := new PlayerInfo();
    var raised := FetchEachId(ids, details, info);
    if raised {
      var id :| id in ids && Fails(details(id));
      var p :| p in pitchers && p.id == id;
      assert p in pitchers && Fails(details(p.id));
      return Raised, [];
    }
    assert forall p :: p in pitchers ==> p.id in ids;
    keys := info.keys;
    PerIdUploadOf(keys, info.rows, pitchers, details);
    assert forall k :: k in info.keys ==> k in info.rows;
    r := Returned(Upload(Bucket, FileName, [HeaderRow()] + RowsInOrder(info.keys, info.rows)));
  }

  // ----------------------------------------------- one id under two names

  /** A detail record for which every conversion succeeds. */
  function SampleAthlete(): Athlete
  {
    Athlete(JStr("7"), JStr("Ann"), JStr("Arm"), JInt(2020), JStr("40"), JStr("Pitcher"), JStr("P"),
            JStr("29"), JStr("ARI"), JStr("Arizona Diamondbacks"), JBool(false),
            JStr("6' 2\""), JStr("210 lbs"), JStr("1/2/1990"), JInt(30), JStr("Rookie"))
  }

  /** Detail responses that are always 200 with the same record. */
  function Always(athlete: Athlete): Details
  {
    id => Some(DetailResponse(200, athlete))
  }

  /** The scan of "ari" listing one id under two display names. */
  lemma TwoNamesScan(a: Pitcher, b: Pitcher)
    requires a.id == b.id && a != b
    ensures ScanTeams({}, Teams, TwoNamesChart(a, b)) == Scan(Completed, {a, b})
  {
    assert "ari" in Teams by { assert Teams[0] == "ari"; }
    DedupIsOnPairs(a, b, Teams);
  }

  /** Two distinct pairs with one id count twice for it. */
  lemma SharedIdCount(a: Pitcher, b: Pitcher)
    requires a.id == b.id && a != b
    ensures IdCount({a, b}, a.id) == 2
  {
    var both := {a, b};
    assert (set p | p in both && p.id == a.id) == both;
    assert |both| == 2;
  }

  /** A sequence without repeats has as many elements as its set. */
  lemma {:induction false} DistinctCard(keys: seq<string>)
    requires Distinct(keys)
    ensures |set k | k in keys| == |keys|
  {
    if keys != [] {
      var rest := keys[1..];
      DistinctCard(rest);
      assert (set k | k in keys) == (set k | k in rest) + {keys[0]};
      assert keys[0] !in rest by {
        assert forall j :: 0 <= j < |rest| ==> rest[j] == keys[j + 1];
      }
    }
  }

  /** The only distinct key sequence holding exactly `x`. */
  lemma SingleKey(keys: seq<string>, x: string)
    requires Distinct(keys) && forall k :: k in keys <==> k == x
    ensures keys == [x]
  {
    DistinctCard(keys);
    assert (set k | k in keys) == {x};
    assert keys[0] in keys;
  }

  /** With every fetch answered 200 and both pairs scanned, the only key is
      their shared id. */
  lemma SharedIdOnlyKey(keys: seq<string>, a: Pitcher, b: Pitcher, athlete: Athlete)
    requires a.id == b.id
    requires Distinct(keys)
    requires forall k :: k in keys <==> Ok200(Always(athlete)(k)) && exists p :: p in {a, b} && p.id == k
    ensures keys == [a.id]
  {
    forall k ensures k in keys <==> k == a.id {
      if k == a.id {
        assert a in {a, b} && a.id == k;
      }
      if k in keys {
        var p :| p in {a, b} && p.id == k;
      }
    }
    SingleKey(keys, a.id);
  }

  /** What the as-written handler's contract gives for two pairs sharing an
      id, every fetch answered 200 with a complete record. */
  lemma PerPairTwoNames(r: Outcome<Upload>, keys: seq<string>, a: Pitcher, b: Pitcher, athlete: Athlete)
    requires a.id == b.id && a != b && Builds(athlete)
    requires r.Raised? <==> exists p :: p in {a, b} && Fails(Always(athlete)(p.id))
    requires r.Returned? ==> PerPairUpload(r.value, keys, {a, b}, Always(athlete))
    ensures r.Returned? && |r.value.table| == 2
    ensures r.value.table[1] == Repeat(Row(athlete), 2) && |r.value.table[1]| == 2 * |Header|
  {
    RowComplete(athlete);
    SharedIdOnlyKey(keys, a, b, athlete);
    SharedIdCount(a, b);
  }

  /** What the corrected handler's contract gives in the same situation. */
  lemma PerIdTwoNames(r: Outcome<Upload>, keys: seq<string>, a: Pitcher, b: Pitcher, athlete: Athlete)
    requires a.id == b.id && a != b && Builds(athlete)
    requires r.Raised? <==> exists p :: p in {a, b} && Fails(Always(athlete)(p.id))
    requires r.Returned? ==> PerIdUpload(r.value, keys, {a, b}, Always(athlete))
    ensures r.Returned? && |r.value.table| == 2
    ensures r.value.table[1] == Row(athlete) && |r.value.table[1]| == |Header|
  {
    RowComplete(athlete);
    SharedIdOnlyKey(keys, a, b, athlete);
  }

  /** As written: when the depth charts list one id under two display
      names and its record converts cleanly, the uploaded row for that id
      holds 32 values under the 16-column header. */
  method DuplicateIdAsWritten(a: Pitcher, b: Pitcher, athlete: Athlete) returns (r: Outcome<Upload>)
    requires a.id == b.id && a != b && Builds(athlete)
    ensures r.Returned? && |r.value.table| == 2
    ensures |r.value.table[1]| == 2 * |Header|
  {
    var defaultSet := new PitcherSet();
    ghost var keys;
    TwoNamesScan(a, b);
    r, keys := LambdaHandler(defaultSet, TwoNamesChart(a, b), Always(athlete));
    PerPairTwoNames(r, keys, a, b, athlete);
  }

  /** Corrected: the same depth charts give one 16-value row for the id. */
  method DuplicateIdCorrected(a: Pitcher, b: Pitcher, athlete: Athlete) returns (r: Outcome<Upload>)
    requires a.id == b.id && a != b && Builds(athlete)
    ensures r.Returned? && |r.value.table| == 2
    ensures r.value.table[1] == Row(athlete) && |r.value.table[1]| == |Header|
  {
    var defaultSet := new PitcherSet();
    ghost var keys;
    TwoNamesScan(a, b);
    r, keys := LambdaHandlerById(defaultSet, TwoNamesChart(a, b), Always(athlete));
    PerIdTwoNames(r, keys, a, b, athlete);
  }

  /** A record for which every conversion succeeds exists, so the two
      methods above describe a reachable situation. */
  lemma SampleBuilds()
    ensures Builds(SampleAthlete()) && |Row(SampleAthlete())| == |Header|
  {
    var a := SampleAthlete();
    Normalise.HeightInchesExamples();
    Normalise.WeightPoundsExamples();
    Text.ParseDecimal(7);
    Text.ParseDecimal(40);
    Text.ParseDecimal(29);
    assert Text.Decimal(7) == a.id.s && Text.Decimal(40) == a.jersey.s && Text.Decimal(29) == a.teamId.s;
    assert Normalise.HeightInches(a.displayHeight.s) == Some(74);
    assert Normalise.WeightPounds(a.displayWeight.s) == Some(210);
    assert Normalise.SeasonsPlayed(a.displayExperience.s) == Some(1);
    assert Builds(a);
    RowComplete(a);
  }
}
