/** `get_player_data` (lambda_function.py:83-110): the 16 values of one
    player's record, appended to `player_info[player_id]`, a
    `defaultdict(list)`. */
module PlayerData {
  import opened Results
  import opened Text
  import opened Normalise

  /** A JSON scalar as the detail API returns it; a missing key reads as null. */
  datatype Json = JNull | JBool(b: bool) | JInt(i: int) | JStr(s: string)

  /** The fields of `athlete` that the record reads (`position` and `team`
      flattened). */
  datatype Athlete = Athlete(
    id: Json, firstName: Json, lastName: Json, debutYear: Json, jersey: Json,
    positionName: Json, positionAbbreviation: Json,
    teamId: Json, teamAbbreviation: Json, teamName: Json, isAllStar: Json,
    displayHeight: Json, displayWeight: Json, displayDOB: Json, age: Json,
    displayExperience: Json)

  datatype DetailResponse = DetailResponse(status: int, athlete: Athlete)

  /** The column names of the CSV file, in order. */
  const Header: seq<string> := [
    "id", "first_name", "last_name", "debut_year", "jersey",
    "position_name", "position_abbreviation", "team_id", "team_abbreviation",
    "team_name", "is_all_star", "height_inches", "weight_lbs",
    "date_of_birth", "age", "seasons_played"]

  /** `int(v)`: an integer stays, a boolean is 0 or 1, a string must be
      digits, null raises `TypeError`. */
  function IntOf(v: Json): Option<int>
  {
    match v
    case JInt(i) => Some(i)
    case JBool(b) => Some(if b then 1 else 0)
    case JStr(s) => (match ParseInt(s) case Some(n) => Some(n) case None => None)
    case JNull => None
  }

  /** A string method (`split`, `replace`) applies only to a string. */
  function TextOf(v: Json): Option<string>
  {
    if v.JStr? then Some(v.s) else None
  }

  /** `v == True` in Python: also true of the integer 1. */
  predicate IsTrue(v: Json)
  {
    v == JBool(true) || v == JInt(1)
  }

  function IntCell(n: Option<int>): Option<Json>
  {
    match n
    case Some(i) => Some(JInt(i))
    case None => None
  }

  /** A cell computed by a normaliser on a string field. */
  function NatCell(v: Json, normalise: string -> Option<nat>): Option<Json>
  {
    match TextOf(v)
    case None => None
    case Some(s) => (match normalise(s) case Some(n) => Some(JInt(n)) case None => None)
  }

  function DateCell(v: Json): Option<Json>
  {
    match TextOf(v)
    case None => None
    case Some(s) => Some(JStr(ReplaceAll(s, '/', '-')))
  }

  /** The 16 values in append order; `None` where computing one raises. */
  function Cells(a: Athlete): (c: seq<Option<Json>>)
    ensures |c| == |Header|
  {
    [ IntCell(IntOf(a.id)), Some(a.firstName), Some(a.lastName), Some(a.debutYear),
      IntCell(IntOf(a.jersey)), Some(a.positionName), Some(a.positionAbbreviation),
      IntCell(IntOf(a.teamId)), Some(a.teamAbbreviation), Some(a.teamName),
      Some(JInt(if IsTrue(a.isAllStar) then 1 else 0)),
      NatCell(a.displayHeight, HeightInches), NatCell(a.displayWeight, WeightPounds),
      DateCell(a.displayDOB), Some(a.age), NatCell(a.displayExperience, SeasonsPlayed) ]
  }

  /** The values appended before the first cell that raises: each append
      runs in turn, and the exception stops the rest. */
  function Appended(cells: seq<Option<Json>>): (vs: seq<Json>)
    ensures |vs| <= |cells|
    ensures forall i :: 0 <= i < |vs| ==> cells[i] == Some(vs[i])
    ensures |vs| < |cells| ==> cells[|vs|].None?
  {
    if cells == [] || cells[0].None? then [] else [cells[0].value] + Appended(cells[1..])
  }

  /** What one successful call appends (or, if a cell raises, the part
      appended before the exception). */
  function Row(a: Athlete): seq<Json>
  {
    Appended(Cells(a))
  }

  /** Every conversion the record needs succeeds: the three `int()` calls,
      and the three normalisers and the date rewrite on string fields. */
  predicate Builds(a: Athlete)
  {
    && IntOf(a.id).Some? && IntOf(a.jersey).Some? && IntOf(a.teamId).Some?
    && a.displayHeight.JStr? && HeightInches(a.displayHeight.s).Some?
    && a.displayWeight.JStr? && WeightPounds(a.displayWeight.s).Some?
    && a.displayDOB.JStr?
    && a.displayExperience.JStr? && SeasonsPlayed(a.displayExperience.s).Some?
  }

  /** A record is complete, one value per header column, exactly when no
      cell raises; otherwise it stops short of the failing cell. */
  lemma RowComplete(a: Athlete)
    ensures |Row(a)| == |Header| <==> Builds(a)
  {
    if Builds(a) {
      BuildsComplete(a);
    }
    if |Row(a)| == |Header| {
      CompleteBuilds(a);
    }
  }

  lemma BuildsComplete(a: Athlete)
    requires Builds(a)
    ensures |Row(a)| == |Header|
  {
    var cells := Cells(a);
    assert forall i :: 0 <= i < |cells| ==> cells[i].Some?;
  }

  lemma CompleteBuilds(a: Athlete)
    requires |Row(a)| == |Header|
    ensures Builds(a)
  {
    var cells := Cells(a);
    assert cells[0].Some? && cells[4].Some? && cells[7].Some?;
    assert cells[11].Some? && cells[12].Some? && cells[13].Some? && cells[15].Some?;
  }

  /** Each value of a complete record sits under its own column name. */
  lemma RowColumns(a: Athlete)
    requires Builds(a)
    ensures |Row(a)| == |Header|
    ensures Header[0] == "id" && Row(a)[0] == JInt(IntOf(a.id).value)
    ensures Header[1] == "first_name" && Row(a)[1] == a.firstName
    ensures Header[2] == "last_name" && Row(a)[2] == a.lastName
    ensures Header[3] == "debut_year" && Row(a)[3] == a.debutYear
    ensures Header[4] == "jersey" && Row(a)[4] == JInt(IntOf(a.jersey).value)
    ensures Header[5] == "position_name" && Row(a)[5] == a.positionName
    ensures Header[6] == "position_abbreviation" && Row(a)[6] == a.positionAbbreviation
    ensures Header[7] == "team_id" && Row(a)[7] == JInt(IntOf(a.teamId).value)
    ensures Header[8] == "team_abbreviation" && Row(a)[8] == a.teamAbbreviation
    ensures Header[9] == "team_name" && Row(a)[9] == a.teamName
    ensures Header[10] == "is_all_star" && Row(a)[10] == JInt(if IsTrue(a.isAllStar) then 1 else 0)
    ensures Header[11] == "height_inches" && Row(a)[11] == JInt(HeightInches(a.displayHeight.s).value)
    ensures Header[12] == "weight_lbs" && Row(a)[12] == JInt(WeightPounds(a.displayWeight.s).value)
    ensures Header[13] == "date_of_birth" && Row(a)[13] == JStr(ReplaceAll(a.displayDOB.s, '/', '-'))
    ensures Header[14] == "age" && Row(a)[14] == a.age
    ensures Header[15] == "seasons_played" && Row(a)[15] == JInt(SeasonsPlayed(a.displayExperience.s).value)
  {
    RowComplete(a);
    var cells, row := Cells(a), Row(a);
    assert cells[0] == Some(row[0]) && cells[1] == Some(row[1]) && cells[2] == Some(row[2]);
    assert cells[3] == Some(row[3]) && cells[4] == Some(row[4]) && cells[5] == Some(row[5]);
    assert cells[6] == Some(row[6]) && cells[7] == Some(row[7]) && cells[8] == Some(row[8]);
    assert cells[9] == Some(row[9]) && cells[10] == Some(row[10]) && cells[11] == Some(row[11]);
    assert cells[12] == Some(row[12]) && cells[13] == Some(row[13]) && cells[14] == Some(row[14]);
    assert cells[15] == Some(row[15]);
  }

  /** `player_info`: a dictionary that remembers the order its keys were
      inserted in, and gives an empty list for a key it does not hold. */
  class PlayerInfo {
    var keys: seq<string>
    var rows: map<string, seq<Json>>

    ghost predicate Valid()
      reads this
    {
      && (forall i, j :: 0 <= i < j < |keys| ==> keys[i] != keys[j])
      && (forall k :: k in rows <==> k in keys)
    }

    constructor ()
      ensures Valid() && keys == [] && rows == map[]
    {
      keys, rows := [], map[];
    }

    /** `player_info[key]` on a `defaultdict(list)`: an absent key is
        inserted, last, with an empty list. */
    method Touch(key: string)
      requires Valid()
      modifies this
      ensures Valid()
      ensures key in old(rows) ==> keys == old(keys) && rows == old(rows)
      ensures key !in old(rows) ==> keys == old(keys) + [key] && rows == old(rows)[key := []]
    {
      if key !in rows {
        keys := keys + [key];
        rows := rows[key := []];
      }
    }

    /** `player_info[key].append(v)` for each `v` in turn. */
    method Extend(key: string, vs: seq<Json>)
      requires Valid() && key in rows
      modifies this
      ensures Valid()
      ensures keys == old(keys) && rows == old(rows)[key := old(rows)[key] + vs]
    {
      rows := rows[key := rows[key] + vs];
    }
  }

  /** What a key reads as before anything is appended to it. */
  function Get(rows: map<string, seq<Json>>, key: string): seq<Json>
  {
    if key in rows then rows[key] else []
  }

  /** The detail request gave a response with status 200. */
  predicate Ok200(o: Option<DetailResponse>)
  {
    o.Some? && o.value.status == 200
  }

  /** What `get_player_data` does to the lists of `player_info`: on a 200
      the player's list (empty if new) gains the record's values; otherwise
      nothing changes. */
  function AfterFetch(rows: map<string, seq<Json>>, id: string, o: Option<DetailResponse>): map<string, seq<Json>>
  {
    if Ok200(o) then rows[id := Get(rows, id) + Row(o.value.athlete)] else rows
  }

  /** What `get_player_data` returns: `None` on a non-200 status, the
      athlete data when every cell is computed, and it raises when
      `fetch_url` gave nothing or a cell raises. */
  function DetailResult(response: Option<DetailResponse>): Outcome<Option<Athlete>>
  {
    match response
    case None => Raised
    case Some(resp) =>
      if resp.status != 200 then Returned(None)
      else if Builds(resp.athlete) then Returned(Some(resp.athlete))
      else Raised
  }

  /** `get_player_data(player_id, player_info)`, given what `fetch_url`
      returned for that player. On a 200 the key is touched first, so it
      exists even when the first cell raises. */
  method GetPlayerData(playerId: string, response: Option<DetailResponse>, info: PlayerInfo)
      returns (r: Outcome<Option<Athlete>>)
    requires info.Valid()
    modifies info
    ensures info.Valid()
    ensures r == DetailResult(response)
    ensures info.rows == AfterFetch(old(info.rows), playerId, response)
    ensures info.keys == if Ok200(response) && playerId !in old(info.rows) then old(info.keys) + [playerId] else old(info.keys)
  {
    if response.None? {
      return Raised;
    }
    var resp := response.value;
    if resp.status != 200 {
      return Returned(None);
    }
    info.Touch(playerId);
    var row := Row(resp.athlete);
    info.Extend(playerId, row);
    RowComplete(resp.athlete);
    if |row| < |Header| {
      return Raised;
    }
    return Returned(Some(resp.athlete));
  }
}
