/**
  The SQLite store of db_utils.py as in-memory tables: players, battles,
  battle_machines, monthly_contests and monthly_scores, plus the read-only
  machines catalog. Each statement is modelled by its effect on the rows.

  Rows are kept in rowid order. Every table uses AUTOINCREMENT, so a new row
  takes the table's last issued id plus one; the `last…Id` counters play the
  part of sqlite_sequence. A `SELECT … fetchone()` without ORDER BY returns the
  first matching row in that order.
 */
module Ledger {
  import opened Wrappers
  import opened Strings
  import opened Ranking
  import opened Collections

  datatype Player = Player(id: nat, name: string, customName: Option<string>, wins: int, losses: int)

  datatype Battle = Battle(id: nat, winnerId: nat, loserId: nat, battleTime: string)

  datatype BattleMachine = BattleMachine(battleId: nat, machineId: int, position: nat)

  datatype MachineRow = MachineRow(id: nat, name: string)

  datatype Contest = Contest(id: nat, month: string, machineId: nat)

  datatype Score = Score(id: nat, contestId: nat, playerId: nat, score: int)

  datatype Tables = Tables(
    players: seq<Player>,
    battles: seq<Battle>,
    battleMachines: seq<BattleMachine>,
    contests: seq<Contest>,
    scores: seq<Score>,
    lastPlayerId: nat,
    lastBattleId: nat,
    lastContestId: nat,
    lastScoreId: nat)

  /** A machine dictionary handed to `save_battle`: its `id` key may be missing, or zero. */
  datatype MachineRef = MachineRef(id: Option<int>, name: string)

  datatype Submission = Submission(player: string, score: int)

  /** The contest dictionary handed to `save_monthly_contest`. */
  datatype ContestData = ContestData(month: string, machineName: string, scores: seq<Submission>)

  /** `UnknownMachine` is the ValueError of the source; `MissingMachineRow` its failing `fetchone()[0]`. */
  datatype LedgerError = UnknownMachine(name: string) | MissingMachineRow(id: nat)

  // ------------------------------------------------------------ consistency

  predicate PlayersOk(ps: seq<Player>, last: nat)
  {
    (forall i, j :: 0 <= i < j < |ps| ==> ps[i].id < ps[j].id && ps[i].name != ps[j].name) &&
    (forall i :: 0 <= i < |ps| ==> ps[i].id <= last)
  }

  predicate BattlesOk(bs: seq<Battle>, last: nat, lastPlayer: nat)
  {
    (forall i, j :: 0 <= i < j < |bs| ==> bs[i].id < bs[j].id) &&
    (forall i :: 0 <= i < |bs| ==> bs[i].id <= last && bs[i].winnerId <= lastPlayer && bs[i].loserId <= lastPlayer)
  }

  /** The primary key (battle_id, machine_id) of battle_machines. */
  predicate LinksOk(links: seq<BattleMachine>, lastBattle: nat)
  {
    (forall i, j :: 0 <= i < j < |links| ==>
       links[i].battleId != links[j].battleId || links[i].machineId != links[j].machineId) &&
    (forall i :: 0 <= i < |links| ==> links[i].battleId <= lastBattle)
  }

  predicate ContestsOk(cs: seq<Contest>, last: nat)
  {
    (forall i, j :: 0 <= i < j < |cs| ==> cs[i].id < cs[j].id) &&
    (forall i :: 0 <= i < |cs| ==> cs[i].id <= last)
  }

  /** At most one score per (contest, player), because scores are only inserted when none exists. */
  predicate ScoresOk(ss: seq<Score>, last: nat, lastPlayer: nat, lastContest: nat)
  {
    (forall i, j :: 0 <= i < j < |ss| ==>
       ss[i].id < ss[j].id && (ss[i].contestId != ss[j].contestId || ss[i].playerId != ss[j].playerId)) &&
    (forall i :: 0 <= i < |ss| ==> ss[i].id <= last && ss[i].playerId <= lastPlayer && ss[i].contestId <= lastContest)
  }

  /** What the schema and the statements of the store keep true. */
  predicate Consistent(t: Tables)
  {
    PlayersOk(t.players, t.lastPlayerId) &&
    BattlesOk(t.battles, t.lastBattleId, t.lastPlayerId) &&
    LinksOk(t.battleMachines, t.lastBattleId) &&
    ContestsOk(t.contests, t.lastContestId) &&
    ScoresOk(t.scores, t.lastScoreId, t.lastPlayerId, t.lastContestId)
  }

  // ---------------------------------------------------------------- players

  /** `SELECT id FROM players WHERE name = ?`. */
  function PlayerIdOf(players: seq<Player>, name: string): Option<nat>
  {
    var i := FirstWhere(players, (p: Player) => p.name == name);
    if i < |players| then Some(players[i].id) else None
  }

  /** `get_or_create_player_id`: the id of the player called `name`, inserting the player first if needed. */
  function GetOrCreate(t: Tables, name: string): (Tables, nat)
  {
    match PlayerIdOf(t.players, name)
    case Some(id) => (t, id)
    case None =>
      var id := t.lastPlayerId + 1;
      (t.(players := t.players + [Player(id, name, None, 0, 0)], lastPlayerId := id), id)
  }

  /** The lookup finds a row exactly when some player has the name, and returns that player's id. */
  lemma PlayerIdOfSpec(players: seq<Player>, name: string)
    ensures PlayerIdOf(players, name).Some? <==> exists i :: 0 <= i < |players| && players[i].name == name
    ensures PlayerIdOf(players, name).Some? ==>
              exists i :: 0 <= i < |players| && players[i].name == name && players[i].id == PlayerIdOf(players, name).value
  {
    var k := FirstWhere(players, (p: Player) => p.name == name);
    if k < |players| {
      assert players[k].name == name;
    }
  }

  /**
    The old rows stay as a prefix; a known name adds no row and yields that
    player's id, an unknown one adds exactly one row, named `name`, with no
    custom name, no wins and no losses, under an id above every earlier one
    when the tables are consistent. Battles, links, contests, scores and the
    other counters stay the same.
   */
  lemma {:induction false} GetOrCreateRows(t: Tables, name: string)
    ensures var (r, id) := GetOrCreate(t, name);
            |t.players| <= |r.players| && r.players[..|t.players|] == t.players &&
            |r.players| == |t.players| + (if PlayerIdOf(t.players, name).Some? then 0 else 1) &&
            r.battles == t.battles && r.battleMachines == t.battleMachines &&
            r.contests == t.contests && r.scores == t.scores &&
            r.lastBattleId == t.lastBattleId && r.lastContestId == t.lastContestId &&
            r.lastScoreId == t.lastScoreId
    ensures var (r, id) := GetOrCreate(t, name);
            PlayerIdOf(t.players, name).Some? ==> id == PlayerIdOf(t.players, name).value && r == t
    ensures var (r, id) := GetOrCreate(t, name);
            PlayerIdOf(t.players, name).None? ==>
              r.players[|t.players|] == Player(id, name, None, 0, 0) &&
              (Consistent(t) ==> forall i :: 0 <= i < |t.players| ==> t.players[i].id < id)
  {
    var (r, id) := GetOrCreate(t, name);
    if PlayerIdOf(t.players, name).None? {
      assert r.players == t.players + [Player(id, name, None, 0, 0)];
      if Consistent(t) {
        forall i | 0 <= i < |t.players| ensures t.players[i].id < id {
          assert t.players[i].id <= t.lastPlayerId;
        }
      }
    }
  }

  /** Names stay unique, the new id is above every existing one, and the name now resolves to the id returned. */
  lemma GetOrCreateSpec(t: Tables, name: string)
    requires Consistent(t)
    ensures var r := GetOrCreate(t, name).0;
            Consistent(r) && PlayerIdOf(r.players, name) == Some(GetOrCreate(t, name).1) &&
            forall i :: 0 <= i < |t.players| && t.players[i].name != name ==> t.players[i].id != GetOrCreate(t, name).1
  {
    var (r, id) := GetOrCreate(t, name);
    var k := FirstWhere(t.players, (p: Player) => p.name == name);
    if k == |t.players| {
      var newRow := Player(id, name, None, 0, 0);
      FirstWhereAppend(t.players, [newRow], (p: Player) => p.name == name);
      assert PlayersOk(r.players, r.lastPlayerId) by {
        forall i, j | 0 <= i < j < |r.players| ensures r.players[i].id < r.players[j].id && r.players[i].name != r.players[j].name {
          if j == |t.players| {
            assert r.players[i] == t.players[i];
          } else {
            assert r.players[i] == t.players[i] && r.players[j] == t.players[j];
          }
        }
      }
    } else {
      assert forall i :: 0 <= i < |t.players| && i != k ==> t.players[i].id != t.players[k].id;
    }
  }

  /** `UPDATE players SET wins = wins + ?, losses = losses + ? WHERE name = ?` over every matching row. */
  function Bumped(players: seq<Player>, name: string, wins: int, losses: int): (r: seq<Player>)
    ensures |r| == |players|
  {
    seq(|players|, i requires 0 <= i < |players| =>
      if players[i].name == name then players[i].(wins := players[i].wins + wins, losses := players[i].losses + losses)
      else players[i])
  }

  /** `DBHelper.update_stats`: make sure both players exist, then count the win and the loss. */
  function UpdateStatsSpec(t: Tables, winner: string, loser: string): Tables
  {
    var t1 := GetOrCreate(t, winner).0;
    var t2 := GetOrCreate(t1, loser).0;
    t2.(players := Bumped(Bumped(t2.players, winner, 1, 0), loser, 0, 1))
  }

  /** Both `INSERT OR IGNORE` statements keep the store consistent and touch only the players. */
  lemma EnrollBothConsistent(t: Tables, winner: string, loser: string)
    requires Consistent(t)
    ensures var r := GetOrCreate(GetOrCreate(t, winner).0, loser).0;
            Consistent(r) &&
            r.battles == t.battles && r.battleMachines == t.battleMachines &&
            r.contests == t.contests && r.scores == t.scores
  {
    GetOrCreateSpec(t, winner);
    GetOrCreateRows(t, winner);
    GetOrCreateSpec(GetOrCreate(t, winner).0, loser);
    GetOrCreateRows(GetOrCreate(t, winner).0, loser);
  }

  /** Both `INSERT OR IGNORE` statements: old rows stay in front, new rows for missing names start at zero. */
  lemma EnrollBothRows(t: Tables, winner: string, loser: string)
    ensures var r := GetOrCreate(GetOrCreate(t, winner).0, loser).0;
            |t.players| <= |r.players| <= |t.players| + 2 && r.players[..|t.players|] == t.players &&
            forall i :: |t.players| <= i < |r.players| ==>
              r.players[i].wins == 0 && r.players[i].losses == 0 && r.players[i].customName == None &&
              (r.players[i].name == winner || r.players[i].name == loser)
  {
    GetOrCreateRows(t, winner);
    var t1 := GetOrCreate(t, winner).0;
    GetOrCreateRows(t1, loser);
    var t2 := GetOrCreate(t1, loser).0;
    if t1 != t {
      assert t1.players[..|t.players|] == t.players;
    }
    if t2 != t1 {
      assert t2.players[..|t1.players|] == t1.players;
      assert t2.players[..|t.players|] == t1.players[..|t.players|];
    }
  }

  /** After both `INSERT OR IGNORE` statements the winner and the loser both have a row. */
  lemma EnrollBothFound(t: Tables, winner: string, loser: string)
    requires Consistent(t)
    ensures var r := GetOrCreate(GetOrCreate(t, winner).0, loser).0;
            PlayerIdOf(r.players, winner).Some? && PlayerIdOf(r.players, loser).Some?
  {
    GetOrCreateSpec(t, winner);
    var t1 := GetOrCreate(t, winner).0;
    GetOrCreateSpec(t1, loser);
    GetOrCreateRows(t1, loser);
    var t2 := GetOrCreate(t1, loser).0;
    if t2 != t1 {
      FirstWhereAppend(t1.players, [t2.players[|t1.players|]], (p: Player) => p.name == winner);
      assert t2.players == t1.players + [t2.players[|t1.players|]];
    }
  }

  /** An UPDATE of the counters changes no id and no name. */
  lemma BumpedKeeps(players: seq<Player>, name: string, wins: int, losses: int, last: nat)
    ensures var r := Bumped(players, name, wins, losses);
            forall i :: 0 <= i < |r| ==> r[i].id == players[i].id && r[i].name == players[i].name &&
                                         r[i].customName == players[i].customName
    ensures PlayersOk(players, last) ==> PlayersOk(Bumped(players, name, wins, losses), last)
  {
  }

  /** `update_stats` keeps the store consistent, leaves every other table alone and gives both players a row. */
  lemma UpdateStatsConsistent(t: Tables, winner: string, loser: string)
    requires Consistent(t)
    ensures var r := UpdateStatsSpec(t, winner, loser);
            Consistent(r) &&
            r.battles == t.battles && r.battleMachines == t.battleMachines &&
            r.contests == t.contests && r.scores == t.scores &&
            (exists i :: 0 <= i < |r.players| && r.players[i].name == winner) &&
            (exists i :: 0 <= i < |r.players| && r.players[i].name == loser)
  {
    EnrollBothConsistent(t, winner, loser);
    EnrollBothFound(t, winner, loser);
    var t2 := GetOrCreate(GetOrCreate(t, winner).0, loser).0;
    PlayerIdOfSpec(t2.players, winner);
    PlayerIdOfSpec(t2.players, loser);
    var once := Bumped(t2.players, winner, 1, 0);
    BumpedKeeps(t2.players, winner, 1, 0, t2.lastPlayerId);
    BumpedKeeps(once, loser, 0, 1, t2.lastPlayerId);
  }

  /**
    After `update_stats` every old player keeps its row with one more win if it
    is the winner and one more loss if it is the loser; a missing winner or
    loser gets one new row, which started at zero.
   */
  lemma UpdateStatsEffect(t: Tables, winner: string, loser: string)
    ensures var r := UpdateStatsSpec(t, winner, loser);
            |t.players| <= |r.players| <= |t.players| + 2 &&
            (forall i :: 0 <= i < |t.players| ==>
               r.players[i] == t.players[i].(wins := t.players[i].wins + (if t.players[i].name == winner then 1 else 0),
                                             losses := t.players[i].losses + (if t.players[i].name == loser then 1 else 0))) &&
            (forall i :: |t.players| <= i < |r.players| ==>
               (r.players[i].name == winner || r.players[i].name == loser) && r.players[i].customName == None &&
               r.players[i].wins == (if r.players[i].name == winner then 1 else 0) &&
               r.players[i].losses == (if r.players[i].name == loser then 1 else 0))
  {
    EnrollBothRows(t, winner, loser);
    var t2 := GetOrCreate(GetOrCreate(t, winner).0, loser).0;
    var r := UpdateStatsSpec(t, winner, loser);
    assert r.players == Bumped(Bumped(t2.players, winner, 1, 0), loser, 0, 1);
    assert |r.players| == |t2.players|;
    forall i | 0 <= i < |r.players|
      ensures r.players[i] == t2.players[i].(wins := t2.players[i].wins + (if t2.players[i].name == winner then 1 else 0),
                                             losses := t2.players[i].losses + (if t2.players[i].name == loser then 1 else 0))
    {
      BumpedTwice(t2.players, winner, loser, i);
    }
    assert forall i :: 0 <= i < |t.players| ==> t2.players[i] == t.players[i];
  }

  lemma BumpedTwice(players: seq<Player>, winner: string, loser: string, i: nat)
    requires i < |players|
    ensures var p := players[i];
            Bumped(Bumped(players, winner, 1, 0), loser, 0, 1)[i] ==
            p.(wins := p.wins + (if p.name == winner then 1 else 0), losses := p.losses + (if p.name == loser then 1 else 0))
  {
  }

  // ---------------------------------------------------------------- battles

  /** `time or datetime.now(...)`: a missing or empty time is replaced by the clock reading `now`. */
  function BattleTime(time: Option<string>, now: string): string
  {
    if time.None? || time.value == "" then now else time.value
  }

  /** `SELECT id FROM machines WHERE name = ?`. */
  function MachineIdOf(machines: seq<MachineRow>, name: string): Option<nat>
  {
    var i := FirstWhere(machines, (m: MachineRow) => m.name == name);
    if i < |machines| then Some(machines[i].id) else None
  }

  /** A falsy `id` (missing or zero) is looked up by the machine's name. */
  function RefId(machines: seq<MachineRow>, ref: MachineRef): Option<int>
  {
    if ref.id.Some? && ref.id.value != 0 then ref.id
    else match MachineIdOf(machines, ref.name)
      case Some(id) => Some(id)
      case None => None
  }

  /** The machine ids of `refs` in order, or the name of the first machine that cannot be resolved. */
  function ResolvedIds(machines: seq<MachineRow>, refs: seq<MachineRef>): Result<seq<int>, string>
    decreases |refs|
  {
    if refs == [] then Success([])
    else match ResolvedIds(machines, refs[..|refs| - 1])
      case Failure(name) => Failure(name)
      case Success(ids) =>
        match RefId(machines, refs[|refs| - 1])
        case None => Failure(refs[|refs| - 1].name)
        case Some(id) => Success(ids + [id])
  }

  /** Resolution succeeds exactly when every machine resolves, and otherwise names the first one that does not. */
  lemma {:induction false} ResolvedIdsSpec(machines: seq<MachineRow>, refs: seq<MachineRef>)
    ensures ResolvedIds(machines, refs).Success? <==> forall k :: 0 <= k < |refs| ==> RefId(machines, refs[k]).Some?
    ensures ResolvedIds(machines, refs).Success? ==>
              var ids := ResolvedIds(machines, refs).value;
              |ids| == |refs| && forall k :: 0 <= k < |refs| ==> RefId(machines, refs[k]) == Some(ids[k])
    ensures ResolvedIds(machines, refs).Failure? ==>
              exists k :: 0 <= k < |refs| && RefId(machines, refs[k]).None? &&
                          ResolvedIds(machines, refs).error == refs[k].name &&
                          forall j :: 0 <= j < k ==> RefId(machines, refs[j]).Some?
    decreases |refs|
  {
    if refs != [] {
      var init := refs[..|refs| - 1];
      ResolvedIdsSpec(machines, init);
      assert forall k :: 0 <= k < |init| ==> init[k] == refs[k];
    }
  }

  /** Resolution of a prefix that already failed fails in the same way for the whole list. */
  lemma {:induction false} ResolvedIdsPrefix(machines: seq<MachineRow>, refs: seq<MachineRef>, n: nat)
    requires n <= |refs| && ResolvedIds(machines, refs[..n]).Failure?
    ensures ResolvedIds(machines, refs) == ResolvedIds(machines, refs[..n])
    decreases |refs| - n
  {
    if n < |refs| {
      assert refs[..|refs| - 1][..n] == refs[..n];
      ResolvedIdsPrefix(machines, refs[..|refs| - 1], n);
    } else {
      assert refs[..n] == refs;
    }
  }

  /**
    The loop of `save_battle` with its `added_machines` set: each distinct
    machine id with the 1-based position of its first occurrence.
   */
  function FirstPositions(ids: seq<int>): seq<(int, nat)>
    decreases |ids|
  {
    if ids == [] then []
    else
      var init := ids[..|ids| - 1];
      var last := ids[|ids| - 1];
      if last in init then FirstPositions(init) else FirstPositions(init) + [(last, |ids|)]
  }

  /** Each row names the machine at its position, and that is the machine's first occurrence. */
  predicate AtFirstOccurrence(ids: seq<int>, fp: seq<(int, nat)>)
  {
    forall k :: 0 <= k < |fp| ==>
      1 <= fp[k].1 <= |ids| && ids[fp[k].1 - 1] == fp[k].0 && fp[k].0 !in ids[..fp[k].1 - 1]
  }

  /** Rows come in order of position and no machine has two of them. */
  predicate InOrderOnce(fp: seq<(int, nat)>)
  {
    forall a, b :: 0 <= a < b < |fp| ==> fp[a].1 < fp[b].1 && fp[a].0 != fp[b].0
  }

  /**
    Every machine id of the input gets exactly one row, whose position is the
    1-based index of the id's first occurrence; rows come in input order.
   */
  lemma FirstPositionsSpec(ids: seq<int>)
    ensures AtFirstOccurrence(ids, FirstPositions(ids))
    ensures forall x :: x in ids <==> exists k :: 0 <= k < |FirstPositions(ids)| && FirstPositions(ids)[k].0 == x
    ensures InOrderOnce(FirstPositions(ids))
  {
    FirstPositionsAt(ids);
    FirstPositionsCover(ids);
    FirstPositionsOrdered(ids);
  }

  lemma {:induction false} FirstPositionsAt(ids: seq<int>)
    ensures AtFirstOccurrence(ids, FirstPositions(ids))
    decreases |ids|
  {
    if ids != [] {
      var init := ids[..|ids| - 1];
      var last := ids[|ids| - 1];
      FirstPositionsAt(init);
      var fp := FirstPositions(init);
      assert ids == init + [last];
      forall k | 0 <= k < |fp| ensures ids[fp[k].1 - 1] == fp[k].0 && fp[k].0 !in ids[..fp[k].1 - 1] {
        assert ids[..fp[k].1 - 1] == init[..fp[k].1 - 1];
      }
      if last !in init {
        var r := fp + [(last, |ids|)];
        assert FirstPositions(ids) == r;
        assert forall k :: 0 <= k < |fp| ==> r[k] == fp[k];
        assert ids[..|ids| - 1] == init;
      }
    }
  }

  lemma {:induction false} FirstPositionsCover(ids: seq<int>)
    ensures forall x :: x in ids <==> exists k :: 0 <= k < |FirstPositions(ids)| && FirstPositions(ids)[k].0 == x
    decreases |ids|
  {
    if ids != [] {
      var init := ids[..|ids| - 1];
      var last := ids[|ids| - 1];
      FirstPositionsCover(init);
      var fp := FirstPositions(init);
      assert ids == init + [last];
      if last !in init {
        var r := fp + [(last, |ids|)];
        assert FirstPositions(ids) == r;
        forall x | x in ids ensures exists k :: 0 <= k < |r| && r[k].0 == x {
          if x == last {
            assert r[|fp|].0 == x;
          } else {
            var k :| 0 <= k < |fp| && fp[k].0 == x;
            assert r[k].0 == x;
          }
        }
        forall x | exists k :: 0 <= k < |r| && r[k].0 == x ensures x in ids {
          var k :| 0 <= k < |r| && r[k].0 == x;
          if k < |fp| {
            assert fp[k].0 == x;
          }
        }
      } else {
        assert FirstPositions(ids) == fp;
        assert forall x :: x in ids <==> x in init;
      }
    }
  }

  lemma {:induction false} FirstPositionsOrdered(ids: seq<int>)
    ensures InOrderOnce(FirstPositions(ids))
    decreases |ids|
  {
    if ids != [] {
      var init := ids[..|ids| - 1];
      var last := ids[|ids| - 1];
      FirstPositionsOrdered(init);
      FirstPositionsAt(init);
      var fp := FirstPositions(init);
      if last !in init {
        var r := fp + [(last, |ids|)];
        assert FirstPositions(ids) == r;
        forall a, b | 0 <= a < b < |r| ensures r[a].1 < r[b].1 && r[a].0 != r[b].0 {
          if b == |fp| {
            assert r[a] == fp[a];
            assert init[fp[a].1 - 1] == fp[a].0;
          } else {
            assert r[a] == fp[a] && r[b] == fp[b];
          }
        }
      }
    }
  }

  /** The battle_machines rows of battle `battleId`. */
  function Links(battleId: nat, fp: seq<(int, nat)>): (r: seq<BattleMachine>)
    ensures |r| == |fp|
  {
    seq(|fp|, k requires 0 <= k < |fp| => BattleMachine(battleId, fp[k].0, fp[k].1))
  }

  /** `SELECT id FROM battles WHERE winner_id = ? AND loser_id = ? AND battle_time = ?`. */
  function FindBattle(battles: seq<Battle>, winnerId: nat, loserId: nat, time: string): nat
  {
    FirstWhere(battles, (b: Battle) => b.winnerId == winnerId && b.loserId == loserId && b.battleTime == time)
  }

  /**
    `save_battle` at battle time `time`. The early return for a battle that is
    already stored commits the player rows created before it; a ValueError
    rolls the whole transaction back.
   */
  function SaveBattleSpec(t: Tables, machines: seq<MachineRow>, winner: string, loser: string,
                          refs: seq<MachineRef>, time: string): (Tables, Result<nat, LedgerError>)
  {
    var (t1, winnerId) := GetOrCreate(t, winner);
    var (t2, loserId) := GetOrCreate(t1, loser);
    var k := FindBattle(t2.battles, winnerId, loserId, time);
    if k < |t2.battles| then (t2, Success(t2.battles[k].id))
    else match ResolvedIds(machines, refs)
      case Failure(name) => (t, Failure(UnknownMachine(name)))
      case Success(ids) => (AddBattle(t2, winnerId, loserId, time, FirstPositions(ids)), Success(t2.lastBattleId + 1))
  }

  /** The INSERT of the battle row under the next id, followed by its machine links. */
  function AddBattle(t: Tables, winnerId: nat, loserId: nat, time: string, fp: seq<(int, nat)>): Tables
  {
    var battleId := t.lastBattleId + 1;
    t.(battles := t.battles + [Battle(battleId, winnerId, loserId, time)],
       battleMachines := t.battleMachines + Links(battleId, fp),
       lastBattleId := battleId)
  }

  /** After `get_or_create_player_id` the name resolves to the id it returned. */
  lemma GetOrCreateResolves(t: Tables, name: string)
    ensures PlayerIdOf(GetOrCreate(t, name).0.players, name) == Some(GetOrCreate(t, name).1)
  {
    var (r, id) := GetOrCreate(t, name);
    if PlayerIdOf(t.players, name).None? {
      FirstWhereAppend(t.players, [Player(id, name, None, 0, 0)], (p: Player) => p.name == name);
    }
  }

  /** `get_or_create_player_id` does not change what an already known name resolves to. */
  lemma GetOrCreateKeeps(t: Tables, name: string, other: string)
    ensures PlayerIdOf(t.players, other).Some? ==>
              PlayerIdOf(GetOrCreate(t, name).0.players, other) == PlayerIdOf(t.players, other)
  {
    var (r, id) := GetOrCreate(t, name);
    if PlayerIdOf(t.players, name).None? {
      FirstWhereAppend(t.players, [Player(id, name, None, 0, 0)], (p: Player) => p.name == other);
    }
  }

  /**
    The ids `save_battle` obtains for the winner and the loser: a known name
    keeps its id, an unknown one gets an id above every id issued so far, and
    when both are known nothing is inserted.
   */
  lemma EnrollIds(t: Tables, winner: string, loser: string)
    ensures var t1 := GetOrCreate(t, winner).0;
            var wid := GetOrCreate(t, winner).1;
            var lid := GetOrCreate(t1, loser).1;
            (PlayerIdOf(t.players, winner).Some? ==> wid == PlayerIdOf(t.players, winner).value) &&
            (PlayerIdOf(t.players, winner).None? ==> wid > t.lastPlayerId) &&
            (PlayerIdOf(t.players, loser).Some? ==> lid == PlayerIdOf(t.players, loser).value) &&
            (PlayerIdOf(t.players, loser).None? ==> lid > t.lastPlayerId) &&
            (PlayerIdOf(t.players, winner).Some? && PlayerIdOf(t.players, loser).Some? ==> GetOrCreate(t1, loser).0 == t)
  {
    var t1 := GetOrCreate(t, winner).0;
    GetOrCreateKeeps(t, winner, loser);
    GetOrCreateResolves(t, winner);
    if PlayerIdOf(t.players, loser).None? && PlayerIdOf(t1.players, loser).Some? {
      // the loser is the winner who was just inserted
      var k := FirstWhere(t1.players, (p: Player) => p.name == loser);
      FirstWhereAppend(t.players, [t1.players[|t.players|]], (p: Player) => p.name == loser);
      assert t1.players == t.players + [t1.players[|t.players|]];
      assert k == |t.players|;
    }
  }

  /** The battle `save_battle` would find before inserting anything: both players known and the triple stored. */
  function ExistingBattle(t: Tables, winner: string, loser: string, time: string): Option<nat>
  {
    match (PlayerIdOf(t.players, winner), PlayerIdOf(t.players, loser))
    case (Some(wid), Some(lid)) =>
      var k := FindBattle(t.battles, wid, lid, time);
      if k < |t.battles| then Some(t.battles[k].id) else None
    case _ => None
  }

  /** No stored battle involves a player id that was never issued. */
  lemma NoBattleForNewcomer(bs: seq<Battle>, last: nat, lastPlayer: nat, wid: nat, lid: nat, time: string)
    requires BattlesOk(bs, last, lastPlayer) && (wid > lastPlayer || lid > lastPlayer)
    ensures FindBattle(bs, wid, lid, time) == |bs|
  {
  }

  /** A battle stored under the same winner, loser and time is returned as is and nothing changes. */
  lemma SaveBattleExisting(t: Tables, machines: seq<MachineRow>, winner: string, loser: string,
                           refs: seq<MachineRef>, time: string)
    requires ExistingBattle(t, winner, loser, time).Some?
    ensures SaveBattleSpec(t, machines, winner, loser, refs, time) ==
            (t, Success(ExistingBattle(t, winner, loser, time).value))
  {
    EnrollIds(t, winner, loser);
  }

  /**
    A battle not yet stored either rolls back completely, naming the first
    machine that cannot be resolved, or inserts the missing players, one
    battle under the next id and one machine link per distinct machine.
   */
  lemma SaveBattleNew(t: Tables, machines: seq<MachineRow>, winner: string, loser: string,
                      refs: seq<MachineRef>, time: string)
    requires Consistent(t) && ExistingBattle(t, winner, loser, time).None?
    ensures ResolvedIds(machines, refs).Failure? ==>
              SaveBattleSpec(t, machines, winner, loser, refs, time) ==
              (t, Failure(UnknownMachine(ResolvedIds(machines, refs).error)))
    ensures ResolvedIds(machines, refs).Success? ==>
              var r := SaveBattleSpec(t, machines, winner, loser, refs, time).0;
              var battleId := t.lastBattleId + 1;
              SaveBattleSpec(t, machines, winner, loser, refs, time).1 == Success(battleId) &&
              r.players == GetOrCreate(GetOrCreate(t, winner).0, loser).0.players &&
              r.battles == t.battles + [Battle(battleId, GetOrCreate(t, winner).1, GetOrCreate(GetOrCreate(t, winner).0, loser).1, time)] &&
              r.battleMachines == t.battleMachines + Links(battleId, FirstPositions(ResolvedIds(machines, refs).value)) &&
              r.contests == t.contests && r.scores == t.scores && r.lastBattleId == battleId
  {
    EnrollIds(t, winner, loser);
    var (t1, wid) := GetOrCreate(t, winner);
    var (t2, lid) := GetOrCreate(t1, loser);
    GetOrCreateResolves(t, winner);
    GetOrCreateResolves(t1, loser);
    GetOrCreateKeeps(t1, loser, winner);
    if wid > t.lastPlayerId || lid > t.lastPlayerId {
      NoBattleForNewcomer(t.battles, t.lastBattleId, t.lastPlayerId, wid, lid, time);
    }
  }

  /** Links of a new battle id to distinct machines keep the (battle, machine) key unique. */
  lemma LinksAppend(links: seq<BattleMachine>, last: nat, fp: seq<(int, nat)>)
    requires LinksOk(links, last) && InOrderOnce(fp)
    ensures LinksOk(links + Links(last + 1, fp), last + 1)
  {
    var r := links + Links(last + 1, fp);
    forall i, j | 0 <= i < j < |r|
      ensures r[i].battleId != r[j].battleId || r[i].machineId != r[j].machineId
    {
      if i >= |links| {
        assert r[i].machineId == fp[i - |links|].0 && r[j].machineId == fp[j - |links|].0;
      } else if j >= |links| {
        assert r[j].battleId == last + 1;
      }
    }
  }

  /** A battle under the next id between issued player ids keeps the battles consistent. */
  lemma BattlesAppend(bs: seq<Battle>, last: nat, lastPlayer: nat, b: Battle)
    requires BattlesOk(bs, last, lastPlayer) && b.id == last + 1 && b.winnerId <= lastPlayer && b.loserId <= lastPlayer
    ensures BattlesOk(bs + [b], last + 1, lastPlayer)
  {
  }

  /** Inserting a battle between issued player ids, with links to distinct machines, keeps the store consistent. */
  lemma AddBattleConsistent(t: Tables, winnerId: nat, loserId: nat, time: string, fp: seq<(int, nat)>)
    requires Consistent(t) && winnerId <= t.lastPlayerId && loserId <= t.lastPlayerId && InOrderOnce(fp)
    ensures Consistent(AddBattle(t, winnerId, loserId, time, fp))
  {
    LinksAppend(t.battleMachines, t.lastBattleId, fp);
    BattlesAppend(t.battles, t.lastBattleId, t.lastPlayerId, Battle(t.lastBattleId + 1, winnerId, loserId, time));
  }

  /** The id `get_or_create_player_id` returns has been issued. */
  lemma GetOrCreateIssued(t: Tables, name: string)
    requires Consistent(t)
    ensures GetOrCreate(t, name).1 <= GetOrCreate(t, name).0.lastPlayerId
    ensures t.lastPlayerId <= GetOrCreate(t, name).0.lastPlayerId
  {
    var k := FirstWhere(t.players, (p: Player) => p.name == name);
    if k < |t.players| {
      assert t.players[k].id <= t.lastPlayerId;
    }
  }

  /** Both players of `save_battle` get issued ids in a consistent store. */
  lemma EnrollIssued(t: Tables, winner: string, loser: string)
    requires Consistent(t)
    ensures var t1 := GetOrCreate(t, winner).0;
            var t2 := GetOrCreate(t1, loser).0;
            Consistent(t2) && GetOrCreate(t, winner).1 <= t2.lastPlayerId && GetOrCreate(t1, loser).1 <= t2.lastPlayerId
  {
    var t1 := GetOrCreate(t, winner).0;
    GetOrCreateSpec(t, winner);
    GetOrCreateSpec(t1, loser);
    GetOrCreateIssued(t, winner);
    GetOrCreateIssued(t1, loser);
  }

  /** `save_battle` keeps the store consistent: fresh battle ids and one link per (battle, machine). */
  lemma SaveBattleConsistent(t: Tables, machines: seq<MachineRow>, winner: string, loser: string,
                             refs: seq<MachineRef>, time: string)
    requires Consistent(t)
    ensures Consistent(SaveBattleSpec(t, machines, winner, loser, refs, time).0)
  {
    var (t1, wid) := GetOrCreate(t, winner);
    var (t2, lid) := GetOrCreate(t1, loser);
    EnrollIssued(t, winner, loser);
    var k := FindBattle(t2.battles, wid, lid, time);
    var res := ResolvedIds(machines, refs);
    if k < |t2.battles| {
      assert SaveBattleSpec(t, machines, winner, loser, refs, time).0 == t2;
    } else if res.Failure? {
      assert SaveBattleSpec(t, machines, winner, loser, refs, time).0 == t;
    } else {
      FirstPositionsOrdered(res.value);
      AddBattleConsistent(t2, wid, lid, time, FirstPositions(res.value));
    }
  }

  /** Saving the same battle again returns the same id and changes nothing. */
  lemma SaveBattleTwice(t: Tables, machines: seq<MachineRow>, winner: string, loser: string,
                        refs: seq<MachineRef>, time: string)
    requires SaveBattleSpec(t, machines, winner, loser, refs, time).1.Success?
    ensures var r := SaveBattleSpec(t, machines, winner, loser, refs, time);
            SaveBattleSpec(r.0, machines, winner, loser, refs, time) == r
  {
    var (t1, wid) := GetOrCreate(t, winner);
    var (t2, lid) := GetOrCreate(t1, loser);
    GetOrCreateResolves(t, winner);
    GetOrCreateResolves(t1, loser);
    GetOrCreateKeeps(t1, loser, winner);
    var r := SaveBattleSpec(t, machines, winner, loser, refs, time).0;
    assert r.players == t2.players;
    assert GetOrCreate(r, winner) == (r, wid);
    assert GetOrCreate(r, loser) == (r, lid);
    var k := FindBattle(t2.battles, wid, lid, time);
    if k == |t2.battles| {
      var b := Battle(t2.lastBattleId + 1, wid, lid, time);
      FirstWhereAppend(t2.battles, [b], (x: Battle) => x.winnerId == wid && x.loserId == lid && x.battleTime == time);
      assert r.battles == t2.battles + [b];
    }
  }

  // ------------------------------------------------------- monthly contests

  /** `SELECT id FROM monthly_contests WHERE month = ? AND machine_id = ?`. */
  function ContestIdOf(contests: seq<Contest>, month: string, machineId: nat): Option<nat>
  {
    var k := FirstWhere(contests, (c: Contest) => c.month == month && c.machineId == machineId);
    if k < |contests| then Some(contests[k].id) else None
  }

  /** The contest of `month` for the machine: the stored one, or a new row under the next id. */
  function OpenContest(t: Tables, month: string, machineId: nat): (Tables, nat)
  {
    match ContestIdOf(t.contests, month, machineId)
    case Some(id) => (t, id)
    case None =>
      var id := t.lastContestId + 1;
      (t.(contests := t.contests + [Contest(id, month, machineId)], lastContestId := id), id)
  }

  /** The contest is reused when stored, or exactly one is appended; either way the pair now resolves to it. */
  lemma OpenContestSpec(t: Tables, month: string, machineId: nat)
    ensures var (r, id) := OpenContest(t, month, machineId);
            ContestIdOf(r.contests, month, machineId) == Some(id) &&
            (ContestIdOf(t.contests, month, machineId).Some? ==> r == t) &&
            (ContestIdOf(t.contests, month, machineId).None? ==>
               id == t.lastContestId + 1 &&
               r == t.(contests := t.contests + [Contest(id, month, machineId)], lastContestId := id))
    ensures Consistent(t) ==> Consistent(OpenContest(t, month, machineId).0)
  {
    var (r, id) := OpenContest(t, month, machineId);
    if ContestIdOf(t.contests, month, machineId).None? {
      FirstWhereAppend(t.contests, [Contest(id, month, machineId)],
                       (c: Contest) => c.month == month && c.machineId == machineId);
    }
  }

  /** The score of player `playerId` in contest `contestId`: `SELECT … WHERE contest_id = ? AND player_id = ?`. */
  function ScoreAt(scores: seq<Score>, contestId: nat, playerId: nat): Option<int>
  {
    var k := FirstWhere(scores, (s: Score) => s.contestId == contestId && s.playerId == playerId);
    if k < |scores| then Some(scores[k].score) else None
  }

  /** The score of the player called `name` in contest `contestId`, if both exist. */
  function ScoreFor(t: Tables, contestId: nat, name: string): Option<int>
  {
    match PlayerIdOf(t.players, name)
    case None => None
    case Some(pid) => ScoreAt(t.scores, contestId, pid)
  }

  /** `SET score = CASE WHEN ? > score THEN ? ELSE score END WHERE contest_id = ? AND player_id = ?`. */
  function Raised(scores: seq<Score>, contestId: nat, playerId: nat, score: int): (r: seq<Score>)
    ensures |r| == |scores|
  {
    seq(|scores|, i requires 0 <= i < |scores| =>
      if scores[i].contestId == contestId && scores[i].playerId == playerId && score > scores[i].score
      then scores[i].(score := score) else scores[i])
  }

  /** The UPDATE or the INSERT of one score, once the player's id is known. */
  function Store(t: Tables, contestId: nat, playerId: nat, score: int): Tables
  {
    if ScoreAt(t.scores, contestId, playerId).Some? then t.(scores := Raised(t.scores, contestId, playerId, score))
    else
      var id := t.lastScoreId + 1;
      t.(scores := t.scores + [Score(id, contestId, playerId, score)], lastScoreId := id)
  }

  /** One iteration of the score loop of `save_monthly_contest`. */
  function Upsert(t: Tables, contestId: nat, sub: Submission): Tables
  {
    var (t1, pid) := GetOrCreate(t, sub.player);
    Store(t1, contestId, pid, sub.score)
  }

  /** The larger of a stored score and a submitted one; a submission alone is kept as it is. */
  function Best(stored: Option<int>, score: int): (r: int)
    ensures r >= score && (stored.Some? ==> r >= stored.value)
    ensures r == score || (stored.Some? && r == stored.value)
  {
    match stored
    case None => score
    case Some(s) => if score > s then score else s
  }

  /** Inserting another player never changes what a different name resolves to. */
  lemma GetOrCreateOther(t: Tables, name: string, other: string)
    requires name != other
    ensures PlayerIdOf(GetOrCreate(t, name).0.players, other) == PlayerIdOf(t.players, other)
  {
    var (r, id) := GetOrCreate(t, name);
    if PlayerIdOf(t.players, name).None? {
      FirstWhereAppend(t.players, [Player(id, name, None, 0, 0)], (p: Player) => p.name == other);
    }
  }

  /** Two names that resolve to the same id in a consistent store are the same name. */
  lemma SameIdSameName(t: Tables, a: string, b: string)
    requires Consistent(t) && PlayerIdOf(t.players, a).Some? && PlayerIdOf(t.players, a) == PlayerIdOf(t.players, b)
    ensures a == b
  {
    PlayerIdOfSpec(t.players, a);
    PlayerIdOfSpec(t.players, b);
    var i :| 0 <= i < |t.players| && t.players[i].name == a && t.players[i].id == PlayerIdOf(t.players, a).value;
    var j :| 0 <= j < |t.players| && t.players[j].name == b && t.players[j].id == PlayerIdOf(t.players, b).value;
    assert i == j;
  }

  /** Creating a player leaves every stored score where it was. */
  lemma GetOrCreateScores(t: Tables, name: string, contestId: nat, other: string)
    requires Consistent(t)
    ensures ScoreFor(GetOrCreate(t, name).0, contestId, other) == ScoreFor(t, contestId, other)
  {
    var (r, id) := GetOrCreate(t, name);
    if name != other {
      GetOrCreateOther(t, name, other);
    } else if PlayerIdOf(t.players, name).None? {
      GetOrCreateResolves(t, name);
    } else {
      GetOrCreateKeeps(t, name, other);
    }
  }

  /** Raised scores keep the ids and keys of the rows, so consistency is kept. */
  lemma RaisedOk(scores: seq<Score>, contestId: nat, playerId: nat, score: int, last: nat, lastPlayer: nat, lastContest: nat)
    requires ScoresOk(scores, last, lastPlayer, lastContest)
    ensures ScoresOk(Raised(scores, contestId, playerId, score), last, lastPlayer, lastContest)
  {
  }

  /**
    Storing a score makes the (contest, player) score the best of the stored
    one and the new one, and leaves the score of every other pair alone.
   */
  lemma StoreScore(t: Tables, contestId: nat, playerId: nat, score: int, c: nat, q: nat)
    ensures ScoreAt(Store(t, contestId, playerId, score).scores, c, q) ==
            if c == contestId && q == playerId then Some(Best(ScoreAt(t.scores, contestId, playerId), score))
            else ScoreAt(t.scores, c, q)
  {
    var r := Store(t, contestId, playerId, score);
    if ScoreAt(t.scores, contestId, playerId).Some? {
      FirstWhereAgree(r.scores, (s: Score) => s.contestId == c && s.playerId == q,
                      t.scores, (s: Score) => s.contestId == c && s.playerId == q);
    } else {
      var row := Score(t.lastScoreId + 1, contestId, playerId, score);
      FirstWhereAppend(t.scores, [row], (s: Score) => s.contestId == c && s.playerId == q);
    }
  }

  /** Storing a score of an issued player keeps the store consistent. */
  lemma StoreConsistent(t: Tables, contestId: nat, playerId: nat, score: int)
    requires Consistent(t) && playerId <= t.lastPlayerId && contestId <= t.lastContestId
    ensures Consistent(Store(t, contestId, playerId, score))
  {
    var r := Store(t, contestId, playerId, score);
    if ScoreAt(t.scores, contestId, playerId).Some? {
      RaisedOk(t.scores, contestId, playerId, score, t.lastScoreId, t.lastPlayerId, t.lastContestId);
    } else {
      forall i, j | 0 <= i < j < |r.scores|
        ensures r.scores[i].id < r.scores[j].id &&
                (r.scores[i].contestId != r.scores[j].contestId || r.scores[i].playerId != r.scores[j].playerId)
      {
        if j == |t.scores| {
          assert r.scores[i] == t.scores[i];
        } else {
          assert r.scores[i] == t.scores[i] && r.scores[j] == t.scores[j];
        }
      }
    }
  }

  /** One iteration of the score loop keeps the store consistent. */
  lemma UpsertConsistent(t: Tables, contestId: nat, sub: Submission)
    requires Consistent(t) && contestId <= t.lastContestId
    ensures Consistent(Upsert(t, contestId, sub))
  {
    GetOrCreateSpec(t, sub.player);
    GetOrCreateIssued(t, sub.player);
    StoreConsistent(GetOrCreate(t, sub.player).0, contestId, GetOrCreate(t, sub.player).1, sub.score);
  }

  /**
    After one iteration the submitting player's score in the contest is the
    best of the stored one and the submission; every other (contest, player)
    score is unchanged.
   */
  lemma UpsertScore(t: Tables, contestId: nat, sub: Submission, c: nat, name: string)
    requires Consistent(t)
    ensures ScoreFor(Upsert(t, contestId, sub), c, name) ==
            if c == contestId && name == sub.player then Some(Best(ScoreFor(t, contestId, name), sub.score))
            else ScoreFor(t, c, name)
  {
    var (t1, pid) := GetOrCreate(t, sub.player);
    GetOrCreateSpec(t, sub.player);
    GetOrCreateScores(t, sub.player, c, name);
    GetOrCreateScores(t, sub.player, contestId, sub.player);
    assert Upsert(t, contestId, sub) == Store(t1, contestId, pid, sub.score);
    match PlayerIdOf(t1.players, name)
    case None =>
    case Some(q) =>
      StoreScore(t1, contestId, pid, sub.score, c, q);
      if c == contestId && q == pid {
        SameIdSameName(t1, name, sub.player);
      }
  }

  /** The score loop of `save_monthly_contest`, submission by submission. */
  function ApplyScores(t: Tables, contestId: nat, subs: seq<Submission>): Tables
    decreases |subs|
  {
    if subs == [] then t
    else Upsert(ApplyScores(t, contestId, subs[..|subs| - 1]), contestId, subs[|subs| - 1])
  }

  /** The best of a stored score and every submission of `name`, if there is any of them. */
  function BestOf(stored: Option<int>, subs: seq<Submission>, name: string): Option<int>
    decreases |subs|
  {
    if subs == [] then stored
    else
      var prev := BestOf(stored, subs[..|subs| - 1], name);
      if subs[|subs| - 1].player == name then Some(Best(prev, subs[|subs| - 1].score)) else prev
  }

  /**
    `BestOf` is the maximum: absent only when nothing was stored or submitted,
    at least every candidate, and equal to one of them.
   */
  lemma {:induction false} BestOfIsMax(stored: Option<int>, subs: seq<Submission>, name: string)
    ensures BestOf(stored, subs, name).None? <==>
            stored.None? && forall k :: 0 <= k < |subs| ==> subs[k].player != name
    ensures BestOf(stored, subs, name).Some? ==>
              var v := BestOf(stored, subs, name).value;
              (stored.Some? ==> v >= stored.value) &&
              (forall k :: 0 <= k < |subs| && subs[k].player == name ==> v >= subs[k].score) &&
              ((stored.Some? && v == stored.value) ||
               exists k :: 0 <= k < |subs| && subs[k].player == name && v == subs[k].score)
    decreases |subs|
  {
    if subs != [] {
      var init := subs[..|subs| - 1];
      BestOfIsMax(stored, init, name);
      assert forall k :: 0 <= k < |init| ==> init[k] == subs[k];
      var prev := BestOf(stored, init, name);
      var last := subs[|subs| - 1];
      if last.player == name {
        var v := Best(prev, last.score);
        if v != last.score {
          assert prev.Some? && v == prev.value;
          if !(stored.Some? && v == stored.value) {
            var k :| 0 <= k < |init| && init[k].player == name && prev.value == init[k].score;
            assert subs[k].player == name && v == subs[k].score;
          }
        } else {
          assert subs[|subs| - 1].player == name && v == subs[|subs| - 1].score;
        }
      }
    }
  }

  /** The score loop keeps the store consistent and touches neither battles nor contests. */
  lemma {:induction false} ApplyScoresConsistent(t: Tables, contestId: nat, subs: seq<Submission>)
    requires Consistent(t) && contestId <= t.lastContestId
    ensures var r := ApplyScores(t, contestId, subs);
            Consistent(r) && r.lastContestId == t.lastContestId &&
            r.battles == t.battles && r.battleMachines == t.battleMachines && r.contests == t.contests
    decreases |subs|
  {
    if subs != [] {
      ApplyScoresConsistent(t, contestId, subs[..|subs| - 1]);
      UpsertConsistent(ApplyScores(t, contestId, subs[..|subs| - 1]), contestId, subs[|subs| - 1]);
    }
  }

  /**
    After the score loop every player's score in the contest is the best of the
    stored one and all of the player's submissions; other contests are untouched.
   */
  lemma {:induction false} ApplyScoresBest(t: Tables, contestId: nat, subs: seq<Submission>, c: nat, name: string)
    requires Consistent(t) && contestId <= t.lastContestId
    ensures ScoreFor(ApplyScores(t, contestId, subs), c, name) ==
            if c == contestId then BestOf(ScoreFor(t, contestId, name), subs, name) else ScoreFor(t, c, name)
    decreases |subs|
  {
    if subs != [] {
      var init := subs[..|subs| - 1];
      ApplyScoresBest(t, contestId, init, c, name);
      ApplyScoresConsistent(t, contestId, init);
      UpsertScore(ApplyScores(t, contestId, init), contestId, subs[|subs| - 1], c, name);
    }
  }

  /**
    `save_monthly_contest`: a ValueError for an unknown machine, raised before
    anything is written; otherwise the contest of the month for the machine,
    reused or created, receives the scores. The contest's id is returned for
    the lemmas; the source returns nothing.
   */
  function SaveContestSpec(t: Tables, machines: seq<MachineRow>, data: ContestData): (Tables, Result<nat, LedgerError>)
  {
    match MachineIdOf(machines, data.machineName)
    case None => (t, Failure(UnknownMachine(data.machineName)))
    case Some(mid) =>
      var (t1, contestId) := OpenContest(t, data.month, mid);
      (ApplyScores(t1, contestId, data.scores), Success(contestId))
  }

  /** Scores of a contest that has not been issued yet do not exist. */
  lemma NoScoreBeforeContest(t: Tables, c: nat, name: string)
    requires Consistent(t) && c > t.lastContestId
    ensures ScoreFor(t, c, name) == None
  {
  }

  /**
    `save_monthly_contest` fails exactly for an unknown machine, and then
    changes nothing. Otherwise the month and machine resolve to the contest
    used, the store stays consistent, battles are untouched, and each player's
    score in that contest is the best of the stored one and every submission
    of the player, while every other contest keeps its scores.
   */
  lemma SaveContestEffect(t: Tables, machines: seq<MachineRow>, data: ContestData, c: nat, name: string)
    requires Consistent(t)
    ensures var (r, res) := SaveContestSpec(t, machines, data);
            (res.Failure? <==> MachineIdOf(machines, data.machineName).None?) &&
            (res.Failure? ==> r == t && res.error == UnknownMachine(data.machineName)) &&
            (res.Success? ==>
               ContestIdOf(r.contests, data.month, MachineIdOf(machines, data.machineName).value) == Some(res.value) &&
               Consistent(r) && r.battles == t.battles && r.battleMachines == t.battleMachines &&
               ScoreFor(r, c, name) ==
                 if c == res.value then BestOf(ScoreFor(t, c, name), data.scores, name) else ScoreFor(t, c, name))
  {
    match MachineIdOf(machines, data.machineName)
    case None =>
    case Some(mid) =>
      var (t1, contestId) := OpenContest(t, data.month, mid);
      OpenContestSpec(t, data.month, mid);
      assert contestId <= t1.lastContestId;
      assert ScoreFor(t1, c, name) == ScoreFor(t, c, name) by {
        assert t1.players == t.players && t1.scores == t.scores;
      }
      if ContestIdOf(t.contests, data.month, mid).None? {
        NoScoreBeforeContest(t, contestId, name);
      }
      ApplyScoresConsistent(t1, contestId, data.scores);
      ApplyScoresBest(t1, contestId, data.scores, c, name);
  }

  // ------------------------------------------------------------- reporting

  /** The player row with id `id`, the join partner of a score row. */
  function PlayerById(players: seq<Player>, id: nat): Option<Player>
  {
    var k := FirstWhere(players, (p: Player) => p.id == id);
    if k < |players| then Some(players[k]) else None
  }

  /** `FROM monthly_scores ms JOIN players p ON ms.player_id = p.id WHERE ms.contest_id = ?`, in rowid order. */
  function JoinedScores(players: seq<Player>, scores: seq<Score>, contestId: nat): seq<Submission>
    decreases |scores|
  {
    if scores == [] then []
    else
      var s := scores[0];
      var here := if s.contestId != contestId then []
                  else match PlayerById(players, s.playerId)
                    case None => []
                    case Some(p) => [Submission(p.name, s.score)];
      here + JoinedScores(players, scores[1..], contestId)
  }

  /** A joined entry is a score row of the contest under the name of the player with that row's id. */
  lemma {:induction false} JoinedScoresSpec(players: seq<Player>, scores: seq<Score>, contestId: nat)
    ensures forall e :: e in JoinedScores(players, scores, contestId) <==>
              exists i, j :: 0 <= i < |scores| && 0 <= j < |players| &&
                             scores[i].contestId == contestId && players[j].id == scores[i].playerId &&
                             e == Submission(players[j].name, scores[i].score) &&
                             forall m :: 0 <= m < j ==> players[m].id != scores[i].playerId
    decreases |scores|
  {
    if scores != [] {
      JoinedScoresSpec(players, scores[1..], contestId);
      assert forall i :: 0 <= i < |scores[1..]| ==> scores[1..][i] == scores[i + 1];
      var s := scores[0];
      var k := FirstWhere(players, (p: Player) => p.id == s.playerId);
      forall e | e in JoinedScores(players, scores, contestId)
        ensures exists i, j :: 0 <= i < |scores| && 0 <= j < |players| &&
                               scores[i].contestId == contestId && players[j].id == scores[i].playerId &&
                               e == Submission(players[j].name, scores[i].score) &&
                               forall m :: 0 <= m < j ==> players[m].id != scores[i].playerId
      {
        if e !in JoinedScores(players, scores[1..], contestId) {
          assert s.contestId == contestId && k < |players| && e == Submission(players[k].name, s.score);
        } else {
          var i, j :| 0 <= i < |scores[1..]| && 0 <= j < |players| &&
                      scores[1..][i].contestId == contestId && players[j].id == scores[1..][i].playerId &&
                      e == Submission(players[j].name, scores[1..][i].score) &&
                      forall m :: 0 <= m < j ==> players[m].id != scores[1..][i].playerId;
          assert scores[i + 1] == scores[1..][i];
        }
      }
      forall e | exists i, j :: 0 <= i < |scores| && 0 <= j < |players| &&
                               scores[i].contestId == contestId && players[j].id == scores[i].playerId &&
                               e == Submission(players[j].name, scores[i].score) &&
                               forall m :: 0 <= m < j ==> players[m].id != scores[i].playerId
        ensures e in JoinedScores(players, scores, contestId)
      {
        var i, j :| 0 <= i < |scores| && 0 <= j < |players| &&
                    scores[i].contestId == contestId && players[j].id == scores[i].playerId &&
                    e == Submission(players[j].name, scores[i].score) &&
                    forall m :: 0 <= m < j ==> players[m].id != scores[i].playerId;
        if i == 0 {
          assert k == j;
        } else {
          assert scores[1..][i - 1] == scores[i];
        }
      }
    }
  }

  /** `SELECT … FROM monthly_contests WHERE month = ? ORDER BY id DESC LIMIT 1`: the position of that row, or -1. */
  function LatestContest(contests: seq<Contest>, month: string): int
  {
    LastWhere(contests, (c: Contest) => c.month == month)
  }

  /** Ids increase with the rows, so the last row of the month is the one with the largest id. */
  lemma LatestContestSpec(contests: seq<Contest>, last: nat, month: string)
    requires ContestsOk(contests, last)
    ensures var k := LatestContest(contests, month);
            (k < 0 <==> forall i :: 0 <= i < |contests| ==> contests[i].month != month) &&
            (0 <= k ==> contests[k].month == month &&
                        forall i :: 0 <= i < |contests| && contests[i].month == month ==> contests[i].id <= contests[k].id)
  {
  }

  /** `ORDER BY ms.score DESC`; ties stay in rowid order. */
  function ByScore(s: Submission): int
  {
    s.score
  }

  /**
    `get_current_month_data` for the month `currentMonth`: no contest gives the
    placeholder answer; a contest whose machine has no row fails like the
    source's `fetchone()[0]` on None.
   */
  function CurrentMonthData(t: Tables, machines: seq<MachineRow>, currentMonth: string): Result<ContestData, LedgerError>
  {
    var k := LatestContest(t.contests, currentMonth);
    if k < 0 then Success(ContestData(currentMonth, "None", []))
    else
      var c := t.contests[k];
      var m := FirstWhere(machines, (row: MachineRow) => row.id == c.machineId);
      if m == |machines| then Failure(MissingMachineRow(c.machineId))
      else Success(ContestData(c.month, machines[m].name, SortDesc(JoinedScores(t.players, t.scores, c.id), ByScore)))
  }

  /**
    Without a contest of the month the answer is the placeholder; otherwise it
    is about the contest of the month with the largest id: it fails exactly
    when that contest's machine has no row, and else names the machine and
    lists the contest's joined scores, best first.
   */
  lemma CurrentMonthDataSpec(t: Tables, machines: seq<MachineRow>, currentMonth: string)
    requires Consistent(t)
    ensures var r := CurrentMonthData(t, machines, currentMonth);
            var k := LatestContest(t.contests, currentMonth);
            (k < 0 ==> r == Success(ContestData(currentMonth, "None", []))) &&
            (0 <= k ==>
               var c := t.contests[k];
               (r.Failure? <==> forall i :: 0 <= i < |machines| ==> machines[i].id != c.machineId) &&
               (r.Success? ==>
                  r.value.month == currentMonth &&
                  MachineRow(c.machineId, r.value.machineName) in machines &&
                  SortedDesc(r.value.scores, ByScore) &&
                  multiset(r.value.scores) == multiset(JoinedScores(t.players, t.scores, c.id))))
  {
    LatestContestSpec(t.contests, t.lastContestId, currentMonth);
    var k := LatestContest(t.contests, currentMonth);
    if 0 <= k {
      var c := t.contests[k];
      var m := FirstWhere(machines, (row: MachineRow) => row.id == c.machineId);
      if m < |machines| {
        assert machines[m] == MachineRow(c.machineId, machines[m].name);
      }
    }
  }

  /** The scope of `load_player_stats`: every battle, or those whose `strftime('%Y-%m', …)` is the current month. */
  function InScope(b: Battle, timeFilter: string, currentMonth: string, monthOf: string -> string): bool
  {
    timeFilter != "current_month" || monthOf(b.battleTime) == currentMonth
  }

  datatype Standing = Standing(wins: nat, losses: nat, customName: Option<string>)

  /** One row of the grouped query: counted wins and losses, and the custom name when it is truthy. */
  function StandingOf(p: Player, battles: seq<Battle>, timeFilter: string, currentMonth: string,
                      monthOf: string -> string): Standing
  {
    Standing(Count(battles, (b: Battle) => b.winnerId == p.id && InScope(b, timeFilter, currentMonth, monthOf)),
             Count(battles, (b: Battle) => b.loserId == p.id && InScope(b, timeFilter, currentMonth, monthOf)),
             if p.customName.Some? && p.customName.value != "" then p.customName else None)
  }

  /** `load_player_stats`: one entry per player row (names are unique). */
  function LoadPlayerStats(players: seq<Player>, battles: seq<Battle>, timeFilter: string, currentMonth: string,
                           monthOf: string -> string): map<string, Standing>
    decreases |players|
  {
    if players == [] then map[]
    else
      var p := players[|players| - 1];
      LoadPlayerStats(players[..|players| - 1], battles, timeFilter, currentMonth, monthOf)
        [p.name := StandingOf(p, battles, timeFilter, currentMonth, monthOf)]
  }

  /** With unique names there is exactly one entry per player, holding that player's counts. */
  lemma {:induction false} LoadPlayerStatsSpec(players: seq<Player>, battles: seq<Battle>, timeFilter: string,
                                               currentMonth: string, monthOf: string -> string)
    requires forall i, j :: 0 <= i < j < |players| ==> players[i].name != players[j].name
    ensures var r := LoadPlayerStats(players, battles, timeFilter, currentMonth, monthOf);
            (forall n :: n in r <==> exists i :: 0 <= i < |players| && players[i].name == n) &&
            forall i :: 0 <= i < |players| ==>
              r[players[i].name] == StandingOf(players[i], battles, timeFilter, currentMonth, monthOf)
    decreases |players|
  {
    if players != [] {
      var init := players[..|players| - 1];
      LoadPlayerStatsSpec(init, battles, timeFilter, currentMonth, monthOf);
      assert forall i :: 0 <= i < |init| ==> init[i] == players[i];
    }
  }

  /** One more battle in scope adds exactly one win for its winner and one loss for its loser. */
  lemma StandingAppend(p: Player, battles: seq<Battle>, b: Battle, timeFilter: string, currentMonth: string,
                       monthOf: string -> string)
    ensures var before := StandingOf(p, battles, timeFilter, currentMonth, monthOf);
            var after := StandingOf(p, battles + [b], timeFilter, currentMonth, monthOf);
            var counted := InScope(b, timeFilter, currentMonth, monthOf);
            after.wins == before.wins + (if counted && b.winnerId == p.id then 1 else 0) &&
            after.losses == before.losses + (if counted && b.loserId == p.id then 1 else 0) &&
            after.customName == before.customName
  {
    CountAppend(battles, [b], (x: Battle) => x.winnerId == p.id && InScope(x, timeFilter, currentMonth, monthOf));
    CountAppend(battles, [b], (x: Battle) => x.loserId == p.id && InScope(x, timeFilter, currentMonth, monthOf));
  }

  /** A player no battle refers to has no wins and no losses, whatever the filter. */
  lemma NoBattlesNoCounts(p: Player, battles: seq<Battle>, timeFilter: string, currentMonth: string,
                          monthOf: string -> string)
    requires forall i :: 0 <= i < |battles| ==> battles[i].winnerId != p.id && battles[i].loserId != p.id
    ensures StandingOf(p, battles, timeFilter, currentMonth, monthOf).wins == 0
    ensures StandingOf(p, battles, timeFilter, currentMonth, monthOf).losses == 0
  {
    CountNone(battles, (b: Battle) => b.winnerId == p.id && InScope(b, timeFilter, currentMonth, monthOf));
    CountNone(battles, (b: Battle) => b.loserId == p.id && InScope(b, timeFilter, currentMonth, monthOf));
  }

  /** The counts of the current month never exceed the all-time counts. */
  lemma MonthWithinAllTime(p: Player, battles: seq<Battle>, currentMonth: string, monthOf: string -> string)
    ensures var month := StandingOf(p, battles, "current_month", currentMonth, monthOf);
            var all := StandingOf(p, battles, "all_time", currentMonth, monthOf);
            month.wins <= all.wins && month.losses <= all.losses
  {
    CountImplies(battles, (b: Battle) => b.winnerId == p.id && InScope(b, "current_month", currentMonth, monthOf),
                 (b: Battle) => b.winnerId == p.id && InScope(b, "all_time", currentMonth, monthOf));
    CountImplies(battles, (b: Battle) => b.loserId == p.id && InScope(b, "current_month", currentMonth, monthOf),
                 (b: Battle) => b.loserId == p.id && InScope(b, "all_time", currentMonth, monthOf));
  }

  // ------------------------------------------------------------------ tags

  /** `[tag.strip() for tag in parts if tag.strip()]`. */
  function CleanTags(parts: seq<string>): seq<string>
    decreases |parts|
  {
    if parts == [] then []
    else
      var tag := Strip(parts[0]);
      (if tag != [] then [tag] else []) + CleanTags(parts[1..])
  }

  /** The `tags` column of `load_machines`: a missing or empty GROUP_CONCAT is no tag at all. */
  function ParseTags(concat: Option<string>): seq<string>
  {
    if concat.None? || concat.value == [] then [] else CleanTags(Split(concat.value, ','))
  }

  /** `GROUP_CONCAT(t.name)` of a machine's tag names: NULL without tags, else the names joined by commas. */
  function GroupConcat(tags: seq<string>): Option<string>
  {
    if tags == [] then None else Some(Join(tags, ','))
  }

  /** A tag name the store can carry through GROUP_CONCAT unchanged: non-empty, comma-free, trimmed. */
  predicate CleanTag(tag: string)
  {
    tag != [] && ',' !in tag && !IsSpace(tag[0]) && !IsSpace(tag[|tag| - 1])
  }

  /** Every parsed tag is non-empty, comma-free and has no surrounding white space. */
  lemma {:induction false} CleanTagsClean(parts: seq<string>)
    requires forall i :: 0 <= i < |parts| ==> ',' !in parts[i]
    ensures forall i :: 0 <= i < |CleanTags(parts)| ==> CleanTag(CleanTags(parts)[i])
    decreases |parts|
  {
    if parts != [] {
      assert forall i :: 0 <= i < |parts[1..]| ==> parts[1..][i] == parts[i + 1];
      CleanTagsClean(parts[1..]);
      StripWithin(parts[0]);
    }
  }

  /** Clean tag names survive the round trip through GROUP_CONCAT and the split in `load_machines`. */
  lemma {:induction false} TagsRoundTrip(tags: seq<string>)
    requires forall i :: 0 <= i < |tags| ==> CleanTag(tags[i])
    ensures ParseTags(GroupConcat(tags)) == tags
  {
    if tags != [] {
      SplitJoin(tags, ',');
      CleanTagsOfClean(tags);
      assert Join(tags, ',') != [] by {
        JoinStarts(tags);
      }
    }
  }

  lemma {:induction false} CleanTagsOfClean(tags: seq<string>)
    requires forall i :: 0 <= i < |tags| ==> CleanTag(tags[i])
    ensures CleanTags(tags) == tags
    decreases |tags|
  {
    if tags != [] {
      TrimStripped(tags[0], IsSpace);
      assert forall i :: 0 <= i < |tags[1..]| ==> tags[1..][i] == tags[i + 1];
      CleanTagsOfClean(tags[1..]);
    }
  }

  lemma JoinStarts(tags: seq<string>)
    requires |tags| >= 1
    ensures tags[0] <= Join(tags, ',')
  {
  }

  // ---------------------------------------------------------------- helper

  /** One more resolved machine either repeats an earlier one or adds its first position. */
  lemma FirstPositionsStep(ids: seq<int>, m: int)
    ensures FirstPositions(ids + [m]) ==
            if m in ids then FirstPositions(ids) else FirstPositions(ids) + [(m, |ids| + 1)]
  {
    assert (ids + [m])[..|ids|] == ids;
  }

  lemma LinksStep(battleId: nat, fp: seq<(int, nat)>, e: (int, nat))
    ensures Links(battleId, fp + [e]) == Links(battleId, fp) + [BattleMachine(battleId, e.0, e.1)]
  {
  }

  lemma ResolvedIdsStep(machines: seq<MachineRow>, refs: seq<MachineRef>, n: nat)
    requires n < |refs|
    ensures ResolvedIds(machines, refs[..n + 1]) ==
            match ResolvedIds(machines, refs[..n])
            case Failure(name) => Failure(name)
            case Success(ids) =>
              match RefId(machines, refs[n])
              case None => Failure(refs[n].name)
              case Some(id) => Success(ids + [id])
  {
    assert refs[..n + 1][..n] == refs[..n];
  }

  /**
    `DBHelper` over one database: the tables are fields that the statements
    update, and every method is one `with conn:` transaction.
   */
  class Ledger {
    var players: seq<Player>
    var battles: seq<Battle>
    var battleMachines: seq<BattleMachine>
    var contests: seq<Contest>
    var scores: seq<Score>
    var lastPlayerId: nat
    var lastBattleId: nat
    var lastContestId: nat
    var lastScoreId: nat
    /** The machines table, which no core statement writes. */
    const machines: seq<MachineRow>

    function Snapshot(): Tables
      reads this
    {
      Tables(players, battles, battleMachines, contests, scores, lastPlayerId, lastBattleId, lastContestId, lastScoreId)
    }

    predicate Valid()
      reads this
    {
      Consistent(Snapshot())
    }

    /** Opens a database whose tables hold `t`. */
    constructor(t: Tables, machines: seq<MachineRow>)
      requires Consistent(t)
      ensures Snapshot() == t && this.machines == machines && Valid()
    {
      players, battles, battleMachines, contests, scores := t.players, t.battles, t.battleMachines, t.contests, t.scores;
      lastPlayerId, lastBattleId, lastContestId, lastScoreId := t.lastPlayerId, t.lastBattleId, t.lastContestId, t.lastScoreId;
      this.machines := machines;
    }

    /** The rollback of a failed transaction: every table as it was when the transaction began. */
    method Restore(t: Tables)
      modifies this
      ensures Snapshot() == t
    {
      players, battles, battleMachines, contests, scores := t.players, t.battles, t.battleMachines, t.contests, t.scores;
      lastPlayerId, lastBattleId, lastContestId, lastScoreId := t.lastPlayerId, t.lastBattleId, t.lastContestId, t.lastScoreId;
    }

    /** `get_or_create_player_id`, inside the caller's transaction. */
    method GetOrCreatePlayerId(name: string) returns (id: nat)
      modifies this
      ensures (Snapshot(), id) == GetOrCreate(old(Snapshot()), name)
    {
      match PlayerIdOf(players, name)
      case Some(known) =>
        id := known;
      case None =>
        id := lastPlayerId + 1;
        players := players + [Player(id, name, None, 0, 0)];
        lastPlayerId := id;
    }

    /** `update_stats`: both `INSERT OR IGNORE` statements, then one UPDATE per player. */
    method UpdateStats(winner: string, loser: string)
      requires Valid()
      modifies this
      ensures Snapshot() == UpdateStatsSpec(old(Snapshot()), winner, loser) && Valid()
    {
      UpdateStatsConsistent(Snapshot(), winner, loser);
      var _ := GetOrCreatePlayerId(winner);
      var _ := GetOrCreatePlayerId(loser);
      players := Bumped(players, winner, 1, 0);
      players := Bumped(players, loser, 0, 1);
    }

    /**
      `save_battle`: the battle row is inserted before the machine loop, whose
      ValueError rolls the whole transaction back.
     */
    method SaveBattle(winner: string, loser: string, refs: seq<MachineRef>, time: Option<string>, now: string)
      returns (r: Result<nat, LedgerError>)
      requires Valid()
      modifies this
      ensures (Snapshot(), r) == SaveBattleSpec(old(Snapshot()), machines, winner, loser, refs, BattleTime(time, now))
      ensures Valid()
    {
      var saved := Snapshot();
      var at := BattleTime(time, now);
      SaveBattleConsistent(saved, machines, winner, loser, refs, at);
      var winnerId := GetOrCreatePlayerId(winner);
      var loserId := GetOrCreatePlayerId(loser);
      var k := FindBattle(battles, winnerId, loserId, at);
      if k < |battles| {
        return Success(battles[k].id);
      }
      var battleId := lastBattleId + 1;
      battles := battles + [Battle(battleId, winnerId, loserId, at)];
      lastBattleId := battleId;
      var failed := LinkMachines(battleId, refs);
      if failed.Some? {
        Restore(saved);
        return Failure(UnknownMachine(failed.value));
      }
      r := Success(battleId);
    }

    /**
      The machine loop of `save_battle`: resolve each machine, skip the ones
      already in `added_machines`, link the others at their 1-based position.
      On a machine that cannot be resolved the caller rolls back, so the
      tables are then left unspecified.
     */
    method LinkMachines(battleId: nat, refs: seq<MachineRef>) returns (failed: Option<string>)
      modifies this
      ensures failed.Some? <==> ResolvedIds(machines, refs).Failure?
      ensures failed.Some? ==> failed.value == ResolvedIds(machines, refs).error
      ensures failed.None? ==>
                Snapshot() == old(Snapshot()).(battleMachines := old(battleMachines) +
                                                 Links(battleId, FirstPositions(ResolvedIds(machines, refs).value)))
    {
      ghost var start := Snapshot();
      var added: set<int> := {};
      ghost var ids: seq<int> := [];
      var position := 0;
      while position < |refs|
        invariant 0 <= position <= |refs| && |ids| == position
        invariant ResolvedIds(machines, refs[..position]) == Success(ids)
        invariant forall x :: x in added <==> x in ids
        invariant Snapshot() == start.(battleMachines := start.battleMachines + Links(battleId, FirstPositions(ids)))
      {
        ResolvedIdsStep(machines, refs, position);
        var ref := refs[position];
        var machineId: int;
        if ref.id.Some? && ref.id.value != 0 {
          machineId := ref.id.value;
        } else {
          var found := MachineIdOf(machines, ref.name);
          if found.None? {
            ResolvedIdsPrefix(machines, refs, position + 1);
            return Some(ref.name);
          }
          machineId := found.value;
        }
        FirstPositionsStep(ids, machineId);
        if machineId !in added {
          LinksStep(battleId, FirstPositions(ids), (machineId, position + 1));
          battleMachines := battleMachines + [BattleMachine(battleId, machineId, position + 1)];
          added := added + {machineId};
        }
        ids := ids + [machineId];
        position := position + 1;
      }
      assert refs[..position] == refs;
      failed := None;
    }

    /** `save_monthly_contest`; the id of the contest that received the scores is returned as well. */
    method SaveMonthlyContest(data: ContestData) returns (r: Result<nat, LedgerError>)
      requires Valid()
      modifies this
      ensures (Snapshot(), r) == SaveContestSpec(old(Snapshot()), machines, data)
      ensures Valid()
    {
      SaveContestEffect(Snapshot(), machines, data, 0, "");
      var found := MachineIdOf(machines, data.machineName);
      if found.None? {
        return Failure(UnknownMachine(data.machineName));
      }
      var contestId := OpenMonthlyContest(data.month, found.value);
      SaveScores(contestId, data.scores);
      r := Success(contestId);
    }

    /** The contest of the month for the machine, inserted when there is none. */
    method OpenMonthlyContest(month: string, machineId: nat) returns (contestId: nat)
      modifies this
      ensures (Snapshot(), contestId) == OpenContest(old(Snapshot()), month, machineId)
    {
      match ContestIdOf(contests, month, machineId) {
        case Some(id) =>
          contestId := id;
        case None =>
          contestId := lastContestId + 1;
          contests := contests + [Contest(contestId, month, machineId)];
          lastContestId := contestId;
      }
    }

    /** The score loop of `save_monthly_contest`. */
    method SaveScores(contestId: nat, subs: seq<Submission>)
      modifies this
      ensures Snapshot() == ApplyScores(old(Snapshot()), contestId, subs)
    {
      ghost var start := Snapshot();
      var k := 0;
      while k < |subs|
        invariant 0 <= k <= |subs|
        invariant Snapshot() == ApplyScores(start, contestId, subs[..k])
      {
        assert subs[..k + 1][..k] == subs[..k];
        SaveScore(contestId, subs[k]);
        k := k + 1;
      }
      assert subs[..k] == subs;
    }

    /** One iteration of the score loop: the player's row, then the UPDATE or the INSERT of the score. */
    method SaveScore(contestId: nat, sub: Submission)
      modifies this
      ensures Snapshot() == Upsert(old(Snapshot()), contestId, sub)
    {
      var playerId := GetOrCreatePlayerId(sub.player);
      if ScoreAt(scores, contestId, playerId).Some? {
        scores := Raised(scores, contestId, playerId, sub.score);
      } else {
        var id := lastScoreId + 1;
        scores := scores + [Score(id, contestId, playerId, sub.score)];
        lastScoreId := id;
      }
    }

    /** `load_player_stats`: the row loop that fills the dictionary. */
    method LoadStats(timeFilter: string, currentMonth: string, monthOf: string -> string)
      returns (stats: map<string, Standing>)
      ensures stats == LoadPlayerStats(players, battles, timeFilter, currentMonth, monthOf)
    {
      stats := map[];
      for i := 0 to |players|
        invariant stats == LoadPlayerStats(players[..i], battles, timeFilter, currentMonth, monthOf)
      {
        assert players[..i + 1][..i] == players[..i];
        var p := players[i];
        stats := stats[p.name := StandingOf(p, battles, timeFilter, currentMonth, monthOf)];
      }
      assert players[..|players|] == players;
    }

    /**
      `get_current_month_data`: the answer computed on the current tables. Its
      row loop keeps the player name and the score of each row, which is what
      the entries of the query already hold.
     */
    method GetCurrentMonthData(currentMonth: string) returns (r: Result<ContestData, LedgerError>)
      ensures r == CurrentMonthData(Snapshot(), machines, currentMonth)
    {
      r := CurrentMonthData(Snapshot(), machines, currentMonth);
    }
  }
}
