/**
  The in-memory state of the bot and the web page: player standings, battle
  history, ongoing battles, the single pending battle awaiting a button click,
  and the machine-of-the-month contest (goblinbattle.py).

  Randomness is a parameter: `random.choice(s)` is `s[k % |s|]` for a caller
  chosen `k`, `random.sample(pool, n)` is `SampleFrom(pool, draw)` for a caller
  chosen sequence of `n` draws. Clock readings are parameters as well.
 */
module Arena {
  import opened Wrappers
  import opened Strings
  import opened Themes
  import opened Ranking
  import opened Collections

  /** A Discord member: two members are the same member when their ids agree. */
  datatype Member = Member(id: int, displayName: string)

  datatype Stats = Stats(wins: int, losses: int)

  datatype HistoryEntry = HistoryEntry(winner: string, loser: string, time: string, machines: seq<Machine>)

  datatype OngoingBattle = OngoingBattle(player1: string, player2: string, machines: seq<Machine>)

  /** `bot.battle_data`: the last battle started, and whether a button click resolved it. */
  datatype PendingBattle = PendingBattle(player1: string, player2: string, machines: seq<Machine>, resolved: bool)

  datatype ScoreEntry = ScoreEntry(player: string, score: int)

  /** The monthly contest document; `month` and `machine` are absent in a missing or empty file. */
  datatype MonthlyData = MonthlyData(month: Option<string>, machine: Option<string>, scores: seq<ScoreEntry>)

  const MaxTries := 10
  const Player1Wins := "player1_wins"
  const Player2Wins := "player2_wins"
  const Organizer := "applesaucesomer"
  const NoMachine := "None"

  // ---------------------------------------------------------------- catalog

  /** `[m['name'] for m in machines if m.get('active', False)]`. */
  function ActiveNames(machines: seq<Machine>): (names: seq<string>)
    ensures |names| <= |machines|
    ensures forall n :: n in names <==> exists m :: m in machines && m.active && m.name == n
  {
    if machines == [] then []
    else (if machines[0].active then [machines[0].name] else []) + ActiveNames(machines[1..])
  }

  /**
    The active names follow the catalog: a catalog split in two contributes
    the names of its first part, then those of its second, so the names come
    in catalog order and with the catalog's repetitions.
   */
  lemma {:induction false} ActiveNamesConcat(a: seq<Machine>, b: seq<Machine>)
    ensures ActiveNames(a + b) == ActiveNames(a) + ActiveNames(b)
    decreases |a|
  {
    if a == [] {
      assert a + b == b;
    } else {
      assert (a + b)[0] == a[0];
      assert (a + b)[1..] == a[1..] + b;
      ActiveNamesConcat(a[1..], b);
    }
  }

  /** One machine contributes its name exactly when it is active. */
  lemma ActiveNamesOne(m: Machine)
    ensures ActiveNames([m]) == if m.active then [m.name] else []
  {
    assert [m][1..] == [];
  }

  /** Position of the first machine called `name`, or `|machines|` if there is none. */
  function FirstNamed(machines: seq<Machine>, name: string): (i: nat)
    ensures i <= |machines|
    ensures i < |machines| ==> machines[i].name == name
    ensures forall j :: 0 <= j < i ==> machines[j].name != name
  {
    if machines == [] || machines[0].name == name then 0
    else 1 + FirstNamed(machines[1..], name)
  }

  /** `get_machine_details(name)`: the first machine in the catalog with that name. */
  function FindMachine(machines: seq<Machine>, name: string): (r: Option<Machine>)
    ensures r.None? <==> forall m :: m in machines ==> m.name != name
    ensures r.Some? ==> r.value == machines[FirstNamed(machines, name)] && r.value.name == name
  {
    var i := FirstNamed(machines, name);
    if i < |machines| then Some(machines[i]) else None
  }

  /** `[get_machine_details(name) for name in names]` for names that all occur in the catalog. */
  function DetailsOf(machines: seq<Machine>, names: seq<string>): (r: seq<Machine>)
    requires forall n :: n in names ==> exists m :: m in machines && m.name == n
    ensures |r| == |names|
    ensures forall i :: 0 <= i < |r| ==> r[i] in machines && r[i].name == names[i] &&
                                         FindMachine(machines, names[i]) == Some(r[i])
  {
    if names == [] then []
    else
      assert names[0] in names && forall n :: n in names[1..] ==> n in names;
      var m := FindMachine(machines, names[0]);
      [m.value] + DetailsOf(machines, names[1..])
  }

  // --------------------------------------------------------------- sampling

  /**
    `random.sample(pool, |draw|)`: each draw picks, modulo the number of
    elements still available, one of the positions not taken yet.
   */
  function SampleFrom<T(==)>(pool: seq<T>, draw: seq<nat>): (r: seq<T>)
    requires |draw| <= |pool|
    ensures |r| == |draw|
    ensures forall j :: 0 <= j < |r| ==> r[j] in pool
    ensures Distinct(pool) ==> Distinct(r)
    decreases |draw|
  {
    if draw == [] then []
    else
      var i := draw[0] % |pool|;
      var rest := pool[..i] + pool[i + 1..];
      RemoveAt(pool, i);
      var tail := SampleFrom(rest, draw[1..]);
      assert Distinct(pool) ==> Distinct([pool[i]] + tail) by {
        if Distinct(pool) {
          ConsDistinct(pool[i], tail);
        }
      }
      [pool[i]] + tail
  }

  /** `random.choice(choices)`. */
  function Choice<T>(choices: seq<T>, k: nat): (r: T)
    requires |choices| > 0
    ensures r in choices
  {
    choices[k % |choices|]
  }

  // ---------------------------------------------------------------- battles

  /** Why a battle command starts nothing; `ThemeTestRaised` is a theme test raising ValueError. */
  datatype Refusal = SelfBattle | TooFewMachines | NoActiveMachines | NoThemeFound | ThemeTestRaised

  /** What a battle command does: refuse, or start a battle on these machines. */
  datatype Selection = Refused(reason: Refusal) | Selected(theme: Option<Theme>, machines: seq<Machine>)

  /** `!goblinbattle @opponent`: three distinct active machine names, then their catalog entries. */
  function SelectUnthemed(author: Member, opponent: Member, machines: seq<Machine>, draw: seq<nat>): (r: Selection)
    requires |draw| == 3
    ensures r.Refused? <==> author.id == opponent.id || |ActiveNames(machines)| < 3
    ensures r.Refused? ==> r.reason == (if author.id == opponent.id then SelfBattle else TooFewMachines)
    ensures r.Selected? ==> (r.theme == None && |r.machines| == 3 &&
              forall i :: 0 <= i < 3 ==> r.machines[i] in machines && r.machines[i].name in ActiveNames(machines))
    ensures r.Selected? && Distinct(ActiveNames(machines)) ==>
              forall i, j :: 0 <= i < j < 3 ==> r.machines[i].name != r.machines[j].name
  {
    var active := ActiveNames(machines);
    if author.id == opponent.id then Refused(SelfBattle)
    else if |active| < 3 then Refused(TooFewMachines)
    else
      var names := SampleFrom(active, draw);
      Selected(None, DetailsOf(machines, names))
  }

  /** The theme picked by one `random.choice(list(THEMES.keys()))`. */
  function ThemeAt(k: nat): Theme
  {
    AllThemes[k % |AllThemes|]
  }

  /**
    `[m for m in machines if m['name'] in active and theme(m)]`, or `None`
    when the comprehension raises: it calls the theme test on every machine
    whose name is active, and Python's `and` skips the test on the others.
   */
  function ThemeFilter(machines: seq<Machine>, active: seq<string>, t: Theme): (r: Option<seq<Machine>>)
    ensures r.Some? ==> |r.value| <= |machines|
  {
    if machines == [] then Some([])
    else
      var m := machines[0];
      if m.name in active && Raises(t, m) then None
      else
        match ThemeFilter(machines[1..], active, t)
        case None => None
        case Some(tail) => Some(if m.name in active && Matches(t, m) then [m] + tail else tail)
  }

  /**
    The filter raises exactly when the test of `t` raises on some machine whose
    name is active; otherwise it keeps exactly the active machines that match,
    each machine at most once when the catalog lists each once.
   */
  lemma {:induction false} ThemeFilterSpec(machines: seq<Machine>, active: seq<string>, t: Theme)
    ensures var r := ThemeFilter(machines, active, t);
            (r.None? <==> exists m :: m in machines && m.name in active && Raises(t, m)) &&
            (r.Some? ==> forall m :: m in r.value <==> m in machines && m.name in active && Matches(t, m)) &&
            (r.Some? && Distinct(machines) ==> Distinct(r.value))
    decreases |machines|
  {
    if machines != [] {
      var m := machines[0];
      assert forall x :: x in machines <==> x == m || x in machines[1..];
      ThemeFilterSpec(machines[1..], active, t);
      var tail := ThemeFilter(machines[1..], active, t);
      if tail.Some? && Distinct(machines) {
        TailDistinct(machines);
        if m.name in active && Matches(t, m) {
          ConsDistinct(m, tail.value);
        }
      }
    }
  }

  /** The filter of theme `t` runs to the end but leaves fewer than three machines. */
  predicate Misses(machines: seq<Machine>, active: seq<string>, t: Theme)
  {
    var f := ThemeFilter(machines, active, t);
    f.Some? && |f.value| < 3
  }

  /** Draw `k` is the first whose filter raises: every draw before it ran and missed. */
  predicate FirstRaise(machines: seq<Machine>, active: seq<string>, draws: seq<nat>, k: int)
  {
    0 <= k < |draws| && ThemeFilter(machines, active, ThemeAt(draws[k])).None? &&
    forall j :: 0 <= j < k ==> Misses(machines, active, ThemeAt(draws[j]))
  }

  /** How the theme search ends: three machines for a theme, no theme at all, or a raising theme test. */
  datatype Search = Found(theme: Theme, chosen: seq<Machine>) | NotFound | Raised(theme: Theme)

  /**
    The themed search: try the drawn themes in order and stop at the first
    whose filter leaves at least three machines, sampling three of them, or
    at the first whose filter raises.
   */
  function ThemedAttempts(machines: seq<Machine>, active: seq<string>, draws: seq<nat>, sample: seq<nat>): Search
    requires |sample| == 3
    decreases |draws|
  {
    if draws == [] then NotFound
    else
      var t := ThemeAt(draws[0]);
      match ThemeFilter(machines, active, t)
      case None => Raised(t)
      case Some(filtered) =>
        if |filtered| >= 3 then Found(t, SampleFrom(filtered, sample))
        else ThemedAttempts(machines, active, draws[1..], sample)
  }

  /**
    A successful search stops at a drawn theme every earlier draw missed, and
    yields three machines of the catalog, active by name and matching that
    theme, whose test raised on no active machine.
   */
  lemma {:induction false} ThemedSuccess(machines: seq<Machine>, active: seq<string>, draws: seq<nat>, sample: seq<nat>)
    requires |sample| == 3
    ensures var r := ThemedAttempts(machines, active, draws, sample);
            r.Found? ==>
              (exists k :: 0 <= k < |draws| && ThemeAt(draws[k]) == r.theme &&
                 forall j :: 0 <= j < k ==> Misses(machines, active, ThemeAt(draws[j]))) &&
              (forall m :: m in machines && m.name in active ==> !Raises(r.theme, m)) &&
              |r.chosen| == 3 &&
              (Distinct(machines) ==> Distinct(r.chosen)) &&
              forall i :: 0 <= i < 3 ==> var m := r.chosen[i];
                m in machines && m.name in active && Matches(r.theme, m)
    decreases |draws|
  {
    if draws != [] {
      var t := ThemeAt(draws[0]);
      var f := ThemeFilter(machines, active, t);
      ThemeFilterSpec(machines, active, t);
      if f.Some? && |f.value| < 3 {
        ThemedSuccess(machines, active, draws[1..], sample);
        var r := ThemedAttempts(machines, active, draws[1..], sample);
        if r.Found? {
          var k :| 0 <= k < |draws[1..]| && ThemeAt(draws[1..][k]) == r.theme &&
                   forall j :: 0 <= j < k ==> Misses(machines, active, ThemeAt(draws[1..][j]));
          assert draws[k + 1] == draws[1..][k];
          forall j | 0 <= j < k + 1 ensures Misses(machines, active, ThemeAt(draws[j])) {
            if j > 0 {
              assert draws[j] == draws[1..][j - 1];
            }
          }
        }
      }
    }
  }

  /** The search finds nothing exactly when every drawn theme runs its filter and misses. */
  lemma {:induction false} ThemedFailure(machines: seq<Machine>, active: seq<string>, draws: seq<nat>, sample: seq<nat>)
    requires |sample| == 3
    ensures ThemedAttempts(machines, active, draws, sample).NotFound? <==>
            forall k :: 0 <= k < |draws| ==> Misses(machines, active, ThemeAt(draws[k]))
    decreases |draws|
  {
    if draws != [] {
      ThemedFailure(machines, active, draws[1..], sample);
      assert forall k :: 1 <= k < |draws| ==> draws[k] == draws[1..][k - 1];
    }
  }

  /** The search raises exactly when some draw's filter raises before any draw fits, and on that draw's theme. */
  lemma {:induction false} ThemedRaised(machines: seq<Machine>, active: seq<string>, draws: seq<nat>, sample: seq<nat>)
    requires |sample| == 3
    ensures ThemedAttempts(machines, active, draws, sample).Raised? <==>
            exists k :: FirstRaise(machines, active, draws, k)
    ensures var r := ThemedAttempts(machines, active, draws, sample);
            r.Raised? ==> exists k :: FirstRaise(machines, active, draws, k) && ThemeAt(draws[k]) == r.theme
    decreases |draws|
  {
    if draws != [] {
      var f := ThemeFilter(machines, active, ThemeAt(draws[0]));
      if f.None? {
        assert FirstRaise(machines, active, draws, 0);
      } else if |f.value| < 3 {
        ThemedRaised(machines, active, draws[1..], sample);
        forall k | FirstRaise(machines, active, draws, k) ensures FirstRaise(machines, active, draws[1..], k - 1) {
          FirstRaiseTail(machines, active, draws, k);
        }
        forall k | FirstRaise(machines, active, draws[1..], k) ensures FirstRaise(machines, active, draws, k + 1) {
          FirstRaiseCons(machines, active, draws, k);
        }
      } else {
        assert !Misses(machines, active, ThemeAt(draws[0]));
      }
    }
  }

  /** A first raise after a missed first draw is a first raise of the remaining draws. */
  lemma FirstRaiseTail(machines: seq<Machine>, active: seq<string>, draws: seq<nat>, k: int)
    requires FirstRaise(machines, active, draws, k)
    requires Misses(machines, active, ThemeAt(draws[0]))
    ensures FirstRaise(machines, active, draws[1..], k - 1) && draws[1..][k - 1] == draws[k]
  {
    forall j | 0 <= j < k - 1 ensures Misses(machines, active, ThemeAt(draws[1..][j])) {
      assert draws[1..][j] == draws[j + 1];
    }
  }

  /** A first raise of the remaining draws after a missed first draw is a first raise of them all. */
  lemma FirstRaiseCons(machines: seq<Machine>, active: seq<string>, draws: seq<nat>, k: int)
    requires draws != [] && Misses(machines, active, ThemeAt(draws[0]))
    requires FirstRaise(machines, active, draws[1..], k)
    ensures FirstRaise(machines, active, draws, k + 1)
  {
    assert draws[1..][k] == draws[k + 1];
    forall j | 0 <= j < k + 1 ensures Misses(machines, active, ThemeAt(draws[j])) {
      if j > 0 {
        assert draws[j] == draws[1..][j - 1];
      }
    }
  }

  /** The loop of `!themebattle`: at most `MaxTries` themes, leaving the loop at the first that fits. */
  method PickThemed(machines: seq<Machine>, active: seq<string>, draws: seq<nat>, sample: seq<nat>) returns (r: Search)
    requires |draws| == MaxTries && |sample| == 3
    ensures r == ThemedAttempts(machines, active, draws, sample)
  {
    r := NotFound;
    for attempt := 0 to MaxTries
      invariant ThemedAttempts(machines, active, draws, sample) == ThemedAttempts(machines, active, draws[attempt..], sample)
    {
      var theme := ThemeAt(draws[attempt]);
      assert draws[attempt..][0] == draws[attempt];
      var filtered := ThemeFilter(machines, active, theme);
      if filtered.None? {
        r := Raised(theme);
        break;
      }
      if |filtered.value| >= 3 {
        r := Found(theme, SampleFrom(filtered.value, sample));
        break;
      }
      assert draws[attempt..][1..] == draws[attempt + 1..];
    }
  }

  /** `!themebattle @opponent`; a theme test that raises ends the command with `ThemeTestRaised`. */
  function SelectThemed(author: Member, opponent: Member, machines: seq<Machine>, draws: seq<nat>, sample: seq<nat>): Selection
    requires |sample| == 3
  {
    var active := ActiveNames(machines);
    if author.id == opponent.id then Refused(SelfBattle)
    else if active == [] then Refused(NoActiveMachines)
    else match ThemedAttempts(machines, active, draws, sample)
      case NotFound => Refused(NoThemeFound)
      case Raised(_) => Refused(ThemeTestRaised)
      case Found(t, chosen) => Selected(Some(t), chosen)
  }

  /** What `!themebattle` can answer, and what a themed battle is played on. */
  lemma ThemedSelection(author: Member, opponent: Member, machines: seq<Machine>, draws: seq<nat>, sample: seq<nat>)
    requires |sample| == 3
    ensures var r := SelectThemed(author, opponent, machines, draws, sample);
            var active := ActiveNames(machines);
            (r == Refused(SelfBattle) <==> author.id == opponent.id) &&
            (r == Refused(NoActiveMachines) <==> author.id != opponent.id && active == []) &&
            (r == Refused(NoThemeFound) <==> (author.id != opponent.id && active != [] &&
               forall k :: 0 <= k < |draws| ==> Misses(machines, active, ThemeAt(draws[k])))) &&
            (r == Refused(ThemeTestRaised) <==> (author.id != opponent.id && active != [] &&
               exists k :: FirstRaise(machines, active, draws, k))) &&
            (r.Selected? ==> (r.theme.Some? && |r.machines| == 3 &&
               (Distinct(machines) ==> Distinct(r.machines)) &&
               (forall m :: m in machines && m.name in active ==> !Raises(r.theme.value, m)) &&
               forall i :: 0 <= i < 3 ==> var m := r.machines[i];
                 m in machines && m.name in active && Matches(r.theme.value, m)))
  {
    ThemedSuccess(machines, ActiveNames(machines), draws, sample);
    ThemedFailure(machines, ActiveNames(machines), draws, sample);
    ThemedRaised(machines, ActiveNames(machines), draws, sample);
  }

  // -------------------------------------------------------------- standings

  /** A player's standing, zero for a player not seen yet. */
  function Prior(stats: map<string, Stats>, p: string): Stats
  {
    if p in stats then stats[p] else Stats(0, 0)
  }

  /** One player's standing after adding `wins` and `losses` to it. */
  function Tallied(stats: map<string, Stats>, p: string, wins: nat, losses: nat): map<string, Stats>
  {
    stats[p := Stats(Prior(stats, p).wins + wins, Prior(stats, p).losses + losses)]
  }

  /** `update_stats(winner, loser)`: one more win for the winner, one more loss for the loser. */
  function Credited(stats: map<string, Stats>, winner: string, loser: string): (r: map<string, Stats>)
    ensures r.Keys == stats.Keys + {winner, loser}
    ensures winner != loser ==>
              r[winner] == Stats(Prior(stats, winner).wins + 1, Prior(stats, winner).losses) &&
              r[loser] == Stats(Prior(stats, loser).wins, Prior(stats, loser).losses + 1)
    ensures winner == loser ==>
              r[winner] == Stats(Prior(stats, winner).wins + 1, Prior(stats, winner).losses + 1)
    ensures forall p :: p in stats && p != winner && p != loser ==> r[p] == stats[p]
  {
    Tallied(Tallied(stats, winner, 1, 0), loser, 0, 1)
  }

  /** A dictionary's key order after assigning to `p`: new keys go last. */
  function Registered(order: seq<string>, p: string): (r: seq<string>)
    ensures Distinct(order) ==> Distinct(r)
    ensures forall q :: q in r <==> q in order || q == p
    ensures order <= r
  {
    if p in order then order else
      assert Distinct(order) ==> Distinct(order + [p]) by {
        if Distinct(order) {
          forall i, j | 0 <= i < j < |order + [p]| ensures (order + [p])[i] != (order + [p])[j] {
            if j == |order| {
              assert (order + [p])[i] == order[i];
            } else {
              assert (order + [p])[i] == order[i] && (order + [p])[j] == order[j];
            }
          }
        }
      }
      order + [p]
  }

  /** The key order of the standings lists each player once, exactly the players with a standing. */
  predicate KeyOrder(order: seq<string>, stats: map<string, Stats>)
  {
    Distinct(order) && (forall p :: p in order ==> p in stats) && (forall p :: p in stats ==> p in order)
  }

  /** Crediting a battle adds one win and one loss in total, and changes nothing else. */
  lemma CreditedTotals(stats: map<string, Stats>, winner: string, loser: string, p: string)
    ensures var r := Credited(stats, winner, loser);
            Prior(r, p).wins == Prior(stats, p).wins + (if p == winner then 1 else 0) &&
            Prior(r, p).losses == Prior(stats, p).losses + (if p == loser then 1 else 0)
  {
  }

  // --------------------------------------------------------- ongoing battles

  predicate SamePair(b: OngoingBattle, winner: string, loser: string)
  {
    (b.player1 == winner && b.player2 == loser) || (b.player1 == loser && b.player2 == winner)
  }

  /** The list comprehension that drops every ongoing battle between the two players, in either order. */
  function WithoutPair(ongoing: seq<OngoingBattle>, winner: string, loser: string): (r: seq<OngoingBattle>)
    ensures |r| <= |ongoing|
    ensures forall b :: b in r <==> b in ongoing && !SamePair(b, winner, loser)
  {
    if ongoing == [] then []
    else (if SamePair(ongoing[0], winner, loser) then [] else [ongoing[0]]) + WithoutPair(ongoing[1..], winner, loser)
  }

  /** Dropping works piecewise, so the kept battles stay in their order. */
  lemma {:induction false} WithoutPairAppend(a: seq<OngoingBattle>, b: seq<OngoingBattle>, winner: string, loser: string)
    ensures WithoutPair(a + b, winner, loser) == WithoutPair(a, winner, loser) + WithoutPair(b, winner, loser)
    decreases |a|
  {
    if a == [] {
      assert a + b == b;
    } else {
      assert (a + b)[0] == a[0];
      assert (a + b)[1..] == a[1..] + b;
      WithoutPairAppend(a[1..], b, winner, loser);
    }
  }

  /** Battles between other players are all kept, in order. */
  lemma {:induction false} WithoutPairKeeps(ongoing: seq<OngoingBattle>, winner: string, loser: string)
    requires forall b :: b in ongoing ==> !SamePair(b, winner, loser)
    ensures WithoutPair(ongoing, winner, loser) == ongoing
    decreases |ongoing|
  {
    if ongoing != [] {
      assert ongoing[0] in ongoing;
      assert forall b :: b in ongoing[1..] ==> b in ongoing;
      WithoutPairKeeps(ongoing[1..], winner, loser);
    }
  }

  /**
    The winner and loser picked by a click on one of the two buttons: the
    winner is the player the button names, the loser the other one, so the
    pair is always the two players of the battle.
   */
  function Decide(p: PendingBattle, customId: string): (r: (string, string))
    ensures r.0 == (if customId == Player1Wins then p.player1 else p.player2)
    ensures multiset{r.0, r.1} == multiset{p.player1, p.player2}
    ensures p.player1 != p.player2 ==> r.0 != r.1
  {
    var winner := if customId == Player1Wins then p.player1 else p.player2;
    var loser := if winner == p.player1 then p.player2 else p.player1;
    (winner, loser)
  }

  // ---------------------------------------------------------- leaderboards

  function Items(order: seq<string>, stats: map<string, Stats>): (r: seq<(string, Stats)>)
    requires forall p :: p in order ==> p in stats
    ensures |r| == |order|
    ensures forall i :: 0 <= i < |r| ==> r[i] == (order[i], stats[order[i]])
  {
    if order == [] then [] else [(order[0], stats[order[0]])] + Items(order[1..], stats)
  }

  function WinsOf(item: (string, Stats)): int
  {
    item.1.wins
  }

  function ScoreOf(entry: ScoreEntry): int
  {
    entry.score
  }

  /** `sorted(player_stats.items(), key=wins, reverse=True)`. */
  function Ranked(order: seq<string>, stats: map<string, Stats>): seq<(string, Stats)>
    requires forall p :: p in order ==> p in stats
  {
    SortDesc(Items(order, stats), WinsOf)
  }

  datatype LeaderRow = LeaderRow(rank: nat, player: string, stats: Stats)

  /** The leaderboard of the page and of `!leaderboard`: ranked standings, names cut at the first `#`. */
  function Leaderboard(order: seq<string>, stats: map<string, Stats>): seq<LeaderRow>
    requires forall p :: p in order ==> p in stats
  {
    var ranked := Ranked(order, stats);
    seq(|ranked|, i requires 0 <= i < |ranked| => LeaderRow(i + 1, Before(ranked[i].0, '#'), ranked[i].1))
  }

  /**
    The board is a reordering of the standings' items, each shown once when the
    keys are distinct; ranks count from one and wins never increase down the board.
   */
  lemma LeaderboardRanked(order: seq<string>, stats: map<string, Stats>)
    requires forall p :: p in order ==> p in stats
    ensures var rows := Leaderboard(order, stats);
            |rows| == |order| &&
            (forall i :: 0 <= i < |rows| ==> rows[i].rank == i + 1 && '#' !in rows[i].player) &&
            (forall i, j :: 0 <= i < j < |rows| ==> rows[i].stats.wins >= rows[j].stats.wins) &&
            (forall p :: p in order ==> exists i :: 0 <= i < |rows| && rows[i] == LeaderRow(i + 1, Before(p, '#'), stats[p]))
    ensures var ranked := Ranked(order, stats);
            multiset(ranked) == multiset(Items(order, stats)) &&
            forall i :: 0 <= i < |ranked| ==> Leaderboard(order, stats)[i] == LeaderRow(i + 1, Before(ranked[i].0, '#'), ranked[i].1)
    ensures var ranked := Ranked(order, stats);
            Distinct(order) ==> forall i, j :: 0 <= i < j < |ranked| ==> ranked[i].0 != ranked[j].0
  {
    LeaderboardShape(order, stats);
    LeaderboardCovers(order, stats);
    if Distinct(order) {
      RankedKeysDistinct(order, stats);
    }
  }

  /** Row `i` shows the `i`-th sorted item: ranks from one, names cut at `#`, wins never increasing. */
  lemma LeaderboardShape(order: seq<string>, stats: map<string, Stats>)
    requires forall p :: p in order ==> p in stats
    ensures var rows := Leaderboard(order, stats);
            var ranked := Ranked(order, stats);
            |rows| == |order| == |ranked| && multiset(ranked) == multiset(Items(order, stats)) &&
            (forall i :: 0 <= i < |rows| ==> rows[i] == LeaderRow(i + 1, Before(ranked[i].0, '#'), ranked[i].1)) &&
            (forall i :: 0 <= i < |rows| ==> rows[i].rank == i + 1 && '#' !in rows[i].player) &&
            (forall i, j :: 0 <= i < j < |rows| ==> rows[i].stats.wins >= rows[j].stats.wins)
  {
    var ranked := Ranked(order, stats);
    var rows := Leaderboard(order, stats);
    forall i, j | 0 <= i < j < |rows| ensures rows[i].stats.wins >= rows[j].stats.wins {
      assert WinsOf(ranked[i]) >= WinsOf(ranked[j]);
    }
  }

  /** Every player of the standings has a row on the board. */
  lemma LeaderboardCovers(order: seq<string>, stats: map<string, Stats>)
    requires forall p :: p in order ==> p in stats
    ensures var rows := Leaderboard(order, stats);
            forall p :: p in order ==> exists i :: 0 <= i < |rows| && rows[i] == LeaderRow(i + 1, Before(p, '#'), stats[p])
  {
    var items := Items(order, stats);
    var ranked := Ranked(order, stats);
    var rows := Leaderboard(order, stats);
    forall p | p in order ensures exists i :: 0 <= i < |rows| && rows[i] == LeaderRow(i + 1, Before(p, '#'), stats[p]) {
      var k :| 0 <= k < |order| && order[k] == p;
      assert items[k] in multiset(items);
      assert items[k] in multiset(ranked);
      var i :| 0 <= i < |ranked| && ranked[i] == items[k];
      assert rows[i] == LeaderRow(i + 1, Before(p, '#'), stats[p]);
    }
  }

  /** Sorting the items of distinct keys leaves every key once. */
  lemma RankedKeysDistinct(order: seq<string>, stats: map<string, Stats>)
    requires forall p :: p in order ==> p in stats
    requires Distinct(order)
    ensures var ranked := Ranked(order, stats);
            forall i, j :: 0 <= i < j < |ranked| ==> ranked[i].0 != ranked[j].0
  {
    var items := Items(order, stats);
    var ranked := Ranked(order, stats);
    assert Distinct(items);
    PermutationDistinct(ranked, items);
    forall i, j | 0 <= i < j < |ranked| ensures ranked[i].0 != ranked[j].0 {
      assert ranked[i] in multiset(items) && ranked[j] in multiset(items);
      var k :| 0 <= k < |items| && items[k] == ranked[i];
      var l :| 0 <= l < |items| && items[l] == ranked[j];
    }
  }

  /** Players tied on wins keep the order in which they first appeared. */
  lemma LeaderboardStable(order: seq<string>, stats: map<string, Stats>, wins: int)
    requires forall p :: p in order ==> p in stats
    ensures WithKey(Ranked(order, stats), WinsOf, wins) == WithKey(Items(order, stats), WinsOf, wins)
  {
    SortStable(Items(order, stats), WinsOf, wins);
  }

  datatype ScoreRow = ScoreRow(rank: nat, player: string, score: int)

  /** The monthly scoreboard of the page: entries by descending score, ranked from one. */
  function Scoreboard(scores: seq<ScoreEntry>): seq<ScoreRow>
  {
    var sorted := SortDesc(scores, ScoreOf);
    seq(|sorted|, i requires 0 <= i < |sorted| => ScoreRow(i + 1, sorted[i].player, sorted[i].score))
  }

  /** The scoreboard shows every submitted entry exactly as often as it was stored, best first. */
  lemma ScoreboardRanked(scores: seq<ScoreEntry>)
    ensures var rows := Scoreboard(scores);
            |rows| == |scores| &&
            (forall i :: 0 <= i < |rows| ==> rows[i].rank == i + 1) &&
            (forall i, j :: 0 <= i < j < |rows| ==> rows[i].score >= rows[j].score) &&
            multiset(seq(|rows|, i requires 0 <= i < |rows| => ScoreEntry(rows[i].player, rows[i].score))) == multiset(scores)
  {
    var sorted := SortDesc(scores, ScoreOf);
    var rows := Scoreboard(scores);
    forall i, j | 0 <= i < j < |rows| ensures rows[i].score >= rows[j].score {
      assert ScoreOf(sorted[i]) >= ScoreOf(sorted[j]);
    }
    assert seq(|rows|, i requires 0 <= i < |rows| => ScoreEntry(rows[i].player, rows[i].score)) == sorted;
  }

  // --------------------------------------------------------- monthly contest

  /** A fresh month: the month stamp, a machine drawn from the active names (or "None"), no scores. */
  function NewMonth(currentMonth: string, active: seq<string>, pick: nat): (r: MonthlyData)
    ensures r.month == Some(currentMonth) && r.scores == [] && r.machine.Some?
    ensures active != [] ==> r.machine.value in active
    ensures active == [] ==> r.machine.value == NoMachine
  {
    MonthlyData(Some(currentMonth), Some(if active != [] then Choice(active, pick) else NoMachine), [])
  }

  /** The month check at startup and in `!monthly`: a stale or missing month starts a new one. */
  function RollOver(data: MonthlyData, currentMonth: string, active: seq<string>, pick: nat): (r: MonthlyData)
    ensures r.month == Some(currentMonth)
    ensures data.month == Some(currentMonth) ==> r == data
    ensures data.month != Some(currentMonth) ==> r == NewMonth(currentMonth, active, pick)
  {
    if data.month != Some(currentMonth) then NewMonth(currentMonth, active, pick) else data
  }

  /** Index of the first entry of `player`, or `|scores|` if there is none. */
  function FirstEntry(scores: seq<ScoreEntry>, player: string): (i: nat)
    ensures i <= |scores|
    ensures i < |scores| ==> scores[i].player == player
    ensures forall j :: 0 <= j < i ==> scores[j].player != player
  {
    if scores == [] then 0
    else if scores[0].player == player then 0
    else 1 + FirstEntry(scores[1..], player)
  }

  /** The score list after `player` submits `score`. */
  function Submitted(scores: seq<ScoreEntry>, player: string, score: int): (r: seq<ScoreEntry>)
    ensures var i := FirstEntry(scores, player);
            if i == |scores| then r == scores + [ScoreEntry(player, score)]
            else |r| == |scores| &&
                 r[i] == ScoreEntry(player, if score > scores[i].score then score else scores[i].score) &&
                 forall j :: 0 <= j < |scores| && j != i ==> r[j] == scores[j]
  {
    if scores == [] then [ScoreEntry(player, score)]
    else if scores[0].player == player then
      [if score > scores[0].score then ScoreEntry(player, score) else scores[0]] + scores[1..]
    else
      [scores[0]] + Submitted(scores[1..], player, score)
  }

  predicate UniquePlayers(scores: seq<ScoreEntry>)
  {
    forall i, j :: 0 <= i < j < |scores| ==> scores[i].player != scores[j].player
  }

  /**
    A submission never creates a second entry for a player, and afterwards the
    player's entry holds the best of the new score and the one stored before.
   */
  lemma SubmittedKeepsBest(scores: seq<ScoreEntry>, player: string, score: int)
    ensures UniquePlayers(scores) ==> UniquePlayers(Submitted(scores, player, score))
    ensures var r := Submitted(scores, player, score);
            var i := FirstEntry(r, player);
            var before := FirstEntry(scores, player);
            i < |r| && r[i].score >= score &&
            (before < |scores| ==> i == before && r[i].score >= scores[before].score)
  {
    var r := Submitted(scores, player, score);
    var i := FirstEntry(scores, player);
    var k := FirstEntry(r, player);
    if i == |scores| {
      assert r[|scores|].player == player;
      assert k == |scores|;
      if UniquePlayers(scores) {
        forall a, b | 0 <= a < b < |r| ensures r[a].player != r[b].player {
          if b == |scores| {
            assert r[a] == scores[a];
          } else {
            assert r[a] == scores[a] && r[b] == scores[b];
          }
        }
      }
    } else {
      assert r[i].player == player;
      assert k == i;
      if UniquePlayers(scores) {
        forall a, b | 0 <= a < b < |r| ensures r[a].player != r[b].player {
          assert r[a].player == scores[a].player && r[b].player == scores[b].player;
        }
      }
    }
  }

  /** The `for entry in scores_list` loop of `!monthly`. */
  method SubmitScore(scores: seq<ScoreEntry>, player: string, score: int) returns (r: seq<ScoreEntry>)
    ensures r == Submitted(scores, player, score)
  {
    r := scores;
    var found := false;
    var k := 0;
    while k < |r|
      invariant 0 <= k <= |r| == |scores| && r == scores && !found
      invariant forall j :: 0 <= j < k ==> scores[j].player != player
    {
      if r[k].player == player {
        if score > r[k].score {
          r := r[k := ScoreEntry(player, score)];
        }
        found := true;
        break;
      }
      k := k + 1;
    }
    if !found {
      r := r + [ScoreEntry(player, score)];
    }
    assert FirstEntry(scores, player) == k;
  }

  // ------------------------------------------------------------ the bot state

  /** The answer to a button click. */
  datatype Interaction = Ignored | NoPendingBattle | AlreadyResolved | Resolved(winner: string, loser: string)

  /** The answer of the web form that reports a battle result. */
  datatype Report = SamePlayer | CreditedThenFailed | Recorded

  predicate IsWinButton(customId: Option<string>)
  {
    customId == Some(Player1Wins) || customId == Some(Player2Wins)
  }

  class Arena {
    /** `player_stats`, with its keys in insertion order in `statsOrder`. */
    var playerStats: map<string, Stats>
    var statsOrder: seq<string>
    var battleHistory: seq<HistoryEntry>
    const machines: seq<Machine>
    const activeNames: seq<string>
    var ongoing: seq<OngoingBattle>
    /** The contest as the web page shows it, and as it is stored on disk. */
    var monthlyData: MonthlyData
    var monthlyFile: MonthlyData
    /** `bot.battle_data`, which does not exist before the first battle starts. */
    var battleData: Option<PendingBattle>

    predicate Valid()
      reads this
    {
      KeyOrder(statsOrder, playerStats) && activeNames == ActiveNames(machines)
    }

    /** Start-up: load the stores, compute the active names, roll the contest over to the current month. */
    constructor (stats: map<string, Stats>, order: seq<string>, history: seq<HistoryEntry>, catalog: seq<Machine>,
                 stored: MonthlyData, currentMonth: string, pick: nat)
      requires KeyOrder(order, stats)
      ensures Valid()
      ensures playerStats == stats && statsOrder == order && battleHistory == history && machines == catalog
      ensures ongoing == [] && battleData == None
      ensures monthlyData == RollOver(stored, currentMonth, ActiveNames(catalog), pick) && monthlyFile == monthlyData
    {
      playerStats := stats;
      statsOrder := order;
      battleHistory := history;
      machines := catalog;
      var active := ActiveNames(catalog);
      activeNames := active;
      ongoing := [];
      battleData := None;
      var data := stored;
      if data.month != Some(currentMonth) {
        var machine := if active != [] then Choice(active, pick) else NoMachine;
        data := MonthlyData(Some(currentMonth), Some(machine), []);
      }
      monthlyData := data;
      monthlyFile := data;
    }

    /** `update_stats(winner, loser)`. */
    method UpdateStats(winner: string, loser: string)
      requires Valid()
      modifies this
      ensures Valid()
      ensures playerStats == Credited(old(playerStats), winner, loser)
      ensures statsOrder == Registered(Registered(old(statsOrder), winner), loser)
      ensures battleHistory == old(battleHistory) && ongoing == old(ongoing) && battleData == old(battleData)
      ensures monthlyData == old(monthlyData) && monthlyFile == old(monthlyFile)
    {
      Tally(winner, 1, 0);
      Tally(loser, 0, 1);
    }

    /** One half of `update_stats`: a player not seen yet starts at zero, then the tally grows. */
    method Tally(p: string, wins: nat, losses: nat)
      requires Valid()
      modifies this
      ensures Valid()
      ensures playerStats == Tallied(old(playerStats), p, wins, losses)
      ensures statsOrder == Registered(old(statsOrder), p)
      ensures battleHistory == old(battleHistory) && ongoing == old(ongoing) && battleData == old(battleData)
      ensures monthlyData == old(monthlyData) && monthlyFile == old(monthlyFile)
    {
      if p !in playerStats {
        playerStats := playerStats[p := Stats(0, 0)];
        statsOrder := statsOrder + [p];
      }
      playerStats := playerStats[p := Stats(playerStats[p].wins + wins, playerStats[p].losses + losses)];
    }

    /** Stores the new pending battle and lists it as ongoing. */
    method Start(player1: string, player2: string, chosen: seq<Machine>)
      modifies this
      ensures battleData == Some(PendingBattle(player1, player2, chosen, false))
      ensures ongoing == old(ongoing) + [OngoingBattle(player1, player2, chosen)]
      ensures playerStats == old(playerStats) && statsOrder == old(statsOrder) && battleHistory == old(battleHistory)
      ensures monthlyData == old(monthlyData) && monthlyFile == old(monthlyFile)
    {
      battleData := Some(PendingBattle(player1, player2, chosen, false));
      ongoing := ongoing + [OngoingBattle(player1, player2, chosen)];
    }

    /** Appends the finished battle to the history and drops the ongoing battles between the two players. */
    method Conclude(winner: string, loser: string, entry: HistoryEntry)
      requires Valid()
      modifies this
      ensures Valid()
      ensures battleHistory == old(battleHistory) + [entry]
      ensures ongoing == WithoutPair(old(ongoing), winner, loser)
      ensures playerStats == old(playerStats) && statsOrder == old(statsOrder) && battleData == old(battleData)
      ensures monthlyData == old(monthlyData) && monthlyFile == old(monthlyFile)
    {
      battleHistory := battleHistory + [entry];
      ongoing := WithoutPair(ongoing, winner, loser);
    }

    /** `!goblinbattle @opponent`. */
    method GoblinBattle(author: Member, opponent: Member, draw: seq<nat>) returns (r: Selection)
      requires Valid() && |draw| == 3
      modifies this
      ensures Valid()
      ensures r == SelectUnthemed(author, opponent, machines, draw)
      ensures r.Refused? ==> battleData == old(battleData) && ongoing == old(ongoing)
      ensures r.Selected? ==>
                battleData == Some(PendingBattle(author.displayName, opponent.displayName, r.machines, false)) &&
                ongoing == old(ongoing) + [OngoingBattle(author.displayName, opponent.displayName, r.machines)]
      ensures playerStats == old(playerStats) && statsOrder == old(statsOrder) && battleHistory == old(battleHistory)
      ensures monthlyData == old(monthlyData) && monthlyFile == old(monthlyFile)
    {
      if author.id == opponent.id {
        return Refused(SelfBattle);
      }
      if |activeNames| < 3 {
        return Refused(TooFewMachines);
      }
      var names := SampleFrom(activeNames, draw);
      assert forall n :: n in names ==> n in activeNames;
      var chosen := DetailsOf(machines, names);
      Start(author.displayName, opponent.displayName, chosen);
      r := Selected(None, chosen);
    }

    /** `!themebattle @opponent`. */
    method ThemeBattle(author: Member, opponent: Member, draws: seq<nat>, sample: seq<nat>) returns (r: Selection)
      requires Valid() && |draws| == MaxTries && |sample| == 3
      modifies this
      ensures Valid()
      ensures r == SelectThemed(author, opponent, machines, draws, sample)
      ensures r.Refused? ==> battleData == old(battleData) && ongoing == old(ongoing)
      ensures r.Selected? ==>
                battleData == Some(PendingBattle(author.displayName, opponent.displayName, r.machines, false)) &&
                ongoing == old(ongoing) + [OngoingBattle(author.displayName, opponent.displayName, r.machines)]
      ensures playerStats == old(playerStats) && statsOrder == old(statsOrder) && battleHistory == old(battleHistory)
      ensures monthlyData == old(monthlyData) && monthlyFile == old(monthlyFile)
    {
      if author.id == opponent.id {
        return Refused(SelfBattle);
      }
      if activeNames == [] {
        return Refused(NoActiveMachines);
      }
      var found := PickThemed(machines, activeNames, draws, sample);
      match found
      case NotFound =>
        return Refused(NoThemeFound);
      case Raised(_) =>
        return Refused(ThemeTestRaised);
      case Found(theme, chosen) =>
        Start(author.displayName, opponent.displayName, chosen);
        r := Selected(Some(theme), chosen);
    }

    /**
      The web form reporting a result: the standings are credited before the
      three machines are sampled, so with fewer than three active machines the
      request fails after the standings changed.
     */
    method SubmitBattle(winner: string, loser: string, time: string, draw: seq<nat>) returns (r: Report)
      requires Valid() && |draw| == 3
      modifies this
      ensures Valid()
      ensures r == SamePlayer <==> winner == loser
      ensures r == CreditedThenFailed <==> winner != loser && |activeNames| < 3
      ensures r == SamePlayer ==> playerStats == old(playerStats) && statsOrder == old(statsOrder)
      ensures r != SamePlayer ==>
                playerStats == Credited(old(playerStats), winner, loser) &&
                statsOrder == Registered(Registered(old(statsOrder), winner), loser)
      ensures r != Recorded ==> battleHistory == old(battleHistory) && ongoing == old(ongoing)
      ensures r == Recorded ==>
                |activeNames| >= 3 &&
                battleHistory == old(battleHistory) +
                  [HistoryEntry(Before(winner, '#'), Before(loser, '#'), time, DetailsOf(machines, SampleFrom(activeNames, draw)))] &&
                ongoing == WithoutPair(old(ongoing), winner, loser)
      ensures battleData == old(battleData) && monthlyData == old(monthlyData) && monthlyFile == old(monthlyFile)
    {
      if winner == loser {
        return SamePlayer;
      }
      UpdateStats(winner, loser);
      if |activeNames| < 3 {
        return CreditedThenFailed;
      }
      var names := SampleFrom(activeNames, draw);
      assert forall n :: n in names ==> n in activeNames;
      var chosen := DetailsOf(machines, names);
      Conclude(winner, loser, HistoryEntry(Before(winner, '#'), Before(loser, '#'), time, chosen));
      r := Recorded;
    }

    /** `on_interaction`: a click on one of the two winner buttons of the pending battle. */
    method OnInteraction(customId: Option<string>, time: string) returns (r: Interaction)
      requires Valid()
      modifies this
      ensures Valid()
      ensures r == Ignored <==> !IsWinButton(customId)
      ensures r == NoPendingBattle <==> IsWinButton(customId) && old(battleData).None?
      ensures r == AlreadyResolved <==> IsWinButton(customId) && old(battleData).Some? && old(battleData).value.resolved
      ensures !r.Resolved? ==>
                playerStats == old(playerStats) && statsOrder == old(statsOrder) && battleHistory == old(battleHistory) &&
                ongoing == old(ongoing) && battleData == old(battleData)
      ensures r.Resolved? ==>
                var p := old(battleData).value;
                customId.Some? && (r.winner, r.loser) == Decide(p, customId.value) &&
                battleData == Some(p.(resolved := true)) &&
                playerStats == Credited(old(playerStats), r.winner, r.loser) &&
                statsOrder == Registered(Registered(old(statsOrder), r.winner), r.loser) &&
                battleHistory == old(battleHistory) + [HistoryEntry(r.winner, r.loser, time, p.machines)] &&
                ongoing == WithoutPair(old(ongoing), r.winner, r.loser)
      ensures monthlyData == old(monthlyData) && monthlyFile == old(monthlyFile)
    {
      if !IsWinButton(customId) {
        return Ignored;
      }
      if battleData.None? {
        return NoPendingBattle;
      }
      var pending := battleData.value;
      if pending.resolved {
        return AlreadyResolved;
      }
      var winner := if customId.value == Player1Wins then pending.player1 else pending.player2;
      var loser := if winner == pending.player1 then pending.player2 else pending.player1;
      UpdateStats(winner, loser);
      battleData := Some(pending.(resolved := true));
      Conclude(winner, loser, HistoryEntry(winner, loser, time, pending.machines));
      r := Resolved(winner, loser);
    }

    /** A pending battle is credited at most once: a second click on either button changes nothing. */
    method ClickTwice(first: Option<string>, second: Option<string>, time: string) returns (r1: Interaction, r2: Interaction)
      requires Valid() && IsWinButton(second)
      modifies this
      ensures r1.Resolved? ==> r2 == AlreadyResolved
      ensures r1.Resolved? ==> playerStats == Credited(old(playerStats), r1.winner, r1.loser) &&
                               |battleHistory| == |old(battleHistory)| + 1
    {
      r1 := OnInteraction(first, time);
      r2 := OnInteraction(second, time);
    }

    /** `!monthly <score>`: re-read the stored contest, roll it over if stale, and submit the score. */
    method Monthly(author: Member, score: int, currentMonth: string, pick: nat) returns (accepted: bool)
      requires Valid()
      modifies this
      ensures Valid()
      ensures accepted <==> score > 0
      ensures !accepted ==> monthlyData == old(monthlyData) && monthlyFile == old(monthlyFile)
      ensures accepted ==>
                var month := RollOver(old(monthlyFile), currentMonth, activeNames, pick);
                monthlyFile == month.(scores := Submitted(month.scores, author.displayName, score)) &&
                monthlyData == monthlyFile
      ensures playerStats == old(playerStats) && statsOrder == old(statsOrder) && battleHistory == old(battleHistory)
      ensures ongoing == old(ongoing) && battleData == old(battleData)
    {
      if score <= 0 {
        return false;
      }
      var current := monthlyFile;
      if current.month != Some(currentMonth) {
        var machine := if activeNames != [] then Choice(activeNames, pick) else NoMachine;
        current := MonthlyData(Some(currentMonth), Some(machine), []);
      }
      var scores := SubmitScore(current.scores, author.displayName, score);
      monthlyFile := current.(scores := scores);
      monthlyData := monthlyFile;
      accepted := true;
    }

    /** `!resetmonth`: only the organizer, compared case-insensitively, may start the month afresh. */
    method ResetMonth(author: Member, currentMonth: string, pick: nat) returns (allowed: bool)
      requires Valid()
      modifies this
      ensures Valid()
      ensures allowed <==> LowerAscii(author.displayName) == Organizer
      ensures allowed ==> monthlyFile == NewMonth(currentMonth, activeNames, pick) && monthlyData == monthlyFile
      ensures !allowed ==> monthlyData == old(monthlyData) && monthlyFile == old(monthlyFile)
      ensures playerStats == old(playerStats) && statsOrder == old(statsOrder) && battleHistory == old(battleHistory)
      ensures ongoing == old(ongoing) && battleData == old(battleData)
    {
      if LowerAscii(author.displayName) != Organizer {
        return false;
      }
      var machine := if activeNames != [] then Choice(activeNames, pick) else NoMachine;
      monthlyFile := MonthlyData(Some(currentMonth), Some(machine), []);
      monthlyData := monthlyFile;
      allowed := true;
    }
  }
}
