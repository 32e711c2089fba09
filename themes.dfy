/**
  The catalog record of one pinball machine and the fixed table of battle themes:
  each theme is a named boolean predicate over a machine's attributes and tags.
 */
module Themes {
  import opened Wrappers
  import opened Strings

  /** `release_count` is either a number of units or a text such as "In production". */
  datatype ReleaseCount = Int(n: int) | Text(s: string)

  /** The attribute bag (`details`) of a machine, one typed field per attribute the themes read. */
  datatype Details = Details(
    releaseDate: string,
    ramps: int,
    flippers: int,
    multiball: int,
    displayType: string,
    machineType: string,
    manufacturer: string,
    generation: string,
    cabinet: string,
    releaseCount: ReleaseCount)

  datatype Machine = Machine(name: string, tags: seq<string>, active: bool, details: Details)

  /** `release_date[-4:]`: the last four characters, or the whole of a shorter date. */
  function YearText(m: Machine): (s: string)
    ensures |s| == if |m.details.releaseDate| >= 4 then 4 else |m.details.releaseDate|
    ensures s == m.details.releaseDate[|m.details.releaseDate| - |s|..]
  {
    var d := m.details.releaseDate;
    if |d| >= 4 then d[|d| - 4..] else d
  }

  /** `int(release_date[-4:])` does not raise ValueError. */
  predicate HasYear(m: Machine)
  {
    ParseInt(YearText(m)).Some?
  }

  /** `lo <= int(release_date[-4:]) <= hi`, false where the year cannot be read. */
  predicate YearIn(m: Machine, lo: int, hi: int)
  {
    var y := ParseInt(YearText(m));
    y.Some? && lo <= y.value <= hi
  }

  /** `int(release_date[-4:]) < bound`, false where the year cannot be read. */
  predicate YearBelow(m: Machine, bound: int)
  {
    var y := ParseInt(YearText(m));
    y.Some? && y.value < bound
  }

  /** At most four characters hold at most four digits, or a sign and three. */
  lemma YearBounds(m: Machine)
    requires HasYear(m)
    ensures -1000 < ParseInt(YearText(m)).value < 10000
  {
    var t := YearText(m);
    ParseIntBound(t);
    Pow10Mono(|t|, 4);
    Pow10Mono(|t| - 1, 3);
  }

  /** A date ending in four ASCII digits has the year those digits spell. */
  lemma FourDigitYear(m: Machine)
    requires var d := m.details.releaseDate;
             |d| >= 4 && IsDigit(d[|d| - 4]) && IsDigit(d[|d| - 3]) && IsDigit(d[|d| - 2]) && IsDigit(d[|d| - 1])
    ensures var d := m.details.releaseDate;
            ParseInt(YearText(m)) == Some(1000 * Digit(d[|d| - 4]) + 100 * Digit(d[|d| - 3]) + 10 * Digit(d[|d| - 2]) + Digit(d[|d| - 1]))
  {
    ParseIntDigits(YearText(m));
  }

  /** `any(tag in wanted for tag in tags)`. */
  predicate AnyTagIn(tags: seq<string>, wanted: seq<string>)
  {
    exists i :: 0 <= i < |tags| && tags[i] in wanted
  }

  /** The themes, one constructor per entry of the table, in the table's order. */
  datatype Theme =
    | SeventiesBattle | NoRamps | EightiesClassics | NinetiesFavorites | ZeroMultiball
    | SixBallMayhem | DotMatrixHeroes | LcdDisplayCrew | MusicAndRock | HorrorAndMonsters
    | TreasureAndAdventure | FantasyRealms | MovieLicensed | MotorSports | SolidStateThrowbacks
    | EmNostalgia | FuturisticSciFi | FourFlipperFrenzy | RampsGalore | AlphanumericRetro
    | ThreeFlipperClub | ActiveSciFi | FoodFrenzy | OutdoorSports | BallyOriginals
    | AmericanPinballAllStars | GottliebGems | WilliamsSystem11 | TvSeriesTies | SmallReleaseRuns
    | DigitalOldSchool | MechanicalReels | FiveBallMultiball | SkyHighAdventures | SpaceExplorers
    | FlipperOverload | MovieMarathon | UnderTwoThousand | Widebodies | BbqAndBrew
    | SwordsAndSorcery | ComedyAndHumor | MythologyMatters | PinballGiants | StillRolling
    | SolidStateStern | LateNinetiesHits | SportsGalore | LessThanThreeFlippers

  /** The table's keys in order: what `list(THEMES.keys())` yields. */
  const AllThemes: seq<Theme> := [
    SeventiesBattle, NoRamps, EightiesClassics, NinetiesFavorites, ZeroMultiball,
    SixBallMayhem, DotMatrixHeroes, LcdDisplayCrew, MusicAndRock, HorrorAndMonsters,
    TreasureAndAdventure, FantasyRealms, MovieLicensed, MotorSports, SolidStateThrowbacks,
    EmNostalgia, FuturisticSciFi, FourFlipperFrenzy, RampsGalore, AlphanumericRetro,
    ThreeFlipperClub, ActiveSciFi, FoodFrenzy, OutdoorSports, BallyOriginals,
    AmericanPinballAllStars, GottliebGems, WilliamsSystem11, TvSeriesTies, SmallReleaseRuns,
    DigitalOldSchool, MechanicalReels, FiveBallMultiball, SkyHighAdventures, SpaceExplorers,
    FlipperOverload, MovieMarathon, UnderTwoThousand, Widebodies, BbqAndBrew,
    SwordsAndSorcery, ComedyAndHumor, MythologyMatters, PinballGiants, StillRolling,
    SolidStateStern, LateNinetiesHits, SportsGalore, LessThanThreeFlippers]

  /** The display name of a theme, as the table spells it. */
  function Name(t: Theme): string
  {
    match t
    case SeventiesBattle => "70s Battle"
    case NoRamps => "Games with No Ramps"
    case EightiesClassics => "80s Classics"
    case NinetiesFavorites => "90s Favorites"
    case ZeroMultiball => "Zero Multiball Madness"
    case SixBallMayhem => "Six-Ball Mayhem (Multiball = 6)"
    case DotMatrixHeroes => "Dot Matrix Heroes"
    case LcdDisplayCrew => "LCD Display Crew"
    case MusicAndRock => "Music & Rock"
    case HorrorAndMonsters => "Horror & Monsters"
    case TreasureAndAdventure => "Treasure & Adventure"
    case FantasyRealms => "Fantasy Realms"
    case MovieLicensed => "Movie Licensed"
    case MotorSports => "Motor Sports"
    case SolidStateThrowbacks => "Solid State Throwbacks"
    case EmNostalgia => "EM Nostalgia"
    case FuturisticSciFi => "Futuristic Sci-Fi"
    case FourFlipperFrenzy => "Four-Flipper Frenzy"
    case RampsGalore => "Ramps Galore (3 or More)"
    case AlphanumericRetro => "Alphanumeric Retro"
    case ThreeFlipperClub => "Three-Flipper Club"
    case ActiveSciFi => "Active Sci-Fi Adventures"
    case FoodFrenzy => "Food Frenzy"
    case OutdoorSports => "Outdoor Sports"
    case BallyOriginals => "Bally Originals"
    case AmericanPinballAllStars => "American Pinball All-Stars"
    case GottliebGems => "Gottlieb Gems"
    case WilliamsSystem11 => "Williams System 11 Showcase"
    case TvSeriesTies => "TV Series Ties"
    case SmallReleaseRuns => "Small Release Runs (\U{2264} 500 units)"
    case DigitalOldSchool => "Digital Old-School (Display = \"Digital\")"
    case MechanicalReels => "Mechanical Reels Throwback"
    case FiveBallMultiball => "5-Ball (or More) Multiball"
    case SkyHighAdventures => "Sky High Adventures"
    case SpaceExplorers => "Space Explorers"
    case FlipperOverload => "Flipper Overload (4 or More)"
    case MovieMarathon => "Movie Marathon"
    case UnderTwoThousand => "Under 2,000 Release Count"
    case Widebodies => "Widebodies"
    case BbqAndBrew => "BBQ & Brew"
    case SwordsAndSorcery => "Swords & Sorcery"
    case ComedyAndHumor => "Comedy & Humor"
    case MythologyMatters => "Mythology Matters"
    case PinballGiants => "Pinball Giants (Over 10,000 Made)"
    case StillRolling => "Still Rolling Off the Line (In Production)"
    case SolidStateStern => "Solid State Stern"
    case LateNinetiesHits => "Late 90s Hits (1995\U{2013}1999)"
    case SportsGalore => "Sports Galore"
    case LessThanThreeFlippers => "Less Than 3 Flippers"
  }

  /** The themes whose predicate reads the release year. */
  predicate UsesYear(t: Theme)
  {
    t.SeventiesBattle? || t.EightiesClassics? || t.NinetiesFavorites? || t.SolidStateThrowbacks? || t.LateNinetiesHits?
  }

  /**
    Whether the test of theme `t` reads the year of `m`. Python's `and`
    leaves it unread for Solid State Throwbacks when `m` is not solid state.
   */
  predicate NeedsYear(t: Theme, m: Machine)
  {
    if t.SolidStateThrowbacks? then m.details.machineType == "Solid state" else UsesYear(t)
  }

  /** The test of theme `t` raises ValueError on `m`: it reads a year that `int()` refuses. */
  predicate Raises(t: Theme, m: Machine)
  {
    NeedsYear(t, m) && !HasYear(m)
  }

  /**
    Whether the test of theme `t` returns true on `m`. A year it cannot read
    makes the test false here; `Raises` says when the source raises instead.
   */
  predicate Matches(t: Theme, m: Machine)
  {
    var d := m.details;
    match t
    case SeventiesBattle => YearIn(m, 1970, 1979)
    case NoRamps => d.ramps == 0
    case EightiesClassics => YearIn(m, 1980, 1989)
    case NinetiesFavorites => YearIn(m, 1990, 1999)
    case ZeroMultiball => d.multiball == 0
    case SixBallMayhem => d.multiball == 6
    case DotMatrixHeroes => d.displayType == "Dot Matrix"
    case LcdDisplayCrew => Contains(d.displayType, "LCD")
    case MusicAndRock => "music" in m.tags || "rock" in m.tags
    case HorrorAndMonsters => "horror" in m.tags || "monsters" in m.tags
    case TreasureAndAdventure => "adventure" in m.tags
    case FantasyRealms => "fantasy" in m.tags
    case MovieLicensed => "movie" in m.tags && "licensed" in m.tags
    case MotorSports => "racing" in m.tags
    case SolidStateThrowbacks => d.machineType == "Solid state" && YearBelow(m, 2000)
    case EmNostalgia => d.machineType == "Electro-mechanical"
    case FuturisticSciFi => "sci-fi" in m.tags
    case FourFlipperFrenzy => d.flippers == 4
    case RampsGalore => d.ramps >= 3
    case AlphanumericRetro => d.displayType == "Alphanumeric"
    case ThreeFlipperClub => d.flippers == 3
    case ActiveSciFi => m.active && "sci-fi" in m.tags
    case FoodFrenzy => AnyTagIn(m.tags, ["food", "BBQ", "festival"])
    case OutdoorSports => AnyTagIn(m.tags, ["outdoor", "sports"])
    case BallyOriginals => Contains(d.manufacturer, "Bally")
    case AmericanPinballAllStars => d.manufacturer == "American Pinball"
    case GottliebGems => Contains(d.manufacturer, "Gottlieb")
    case WilliamsSystem11 => Contains(d.generation, "Williams System 11")
    case TvSeriesTies => "television" in m.tags
    case SmallReleaseRuns => d.releaseCount.Int? && d.releaseCount.n <= 500
    case DigitalOldSchool => d.displayType == "Digital"
    case MechanicalReels => d.displayType == "Mechanical Reels"
    case FiveBallMultiball => d.multiball >= 5
    case SkyHighAdventures => AnyTagIn(m.tags, ["aviation", "skydiving", "hang gliding"])
    case SpaceExplorers => "space" in m.tags
    case FlipperOverload => d.flippers >= 4
    case MovieMarathon => "movie" in m.tags
    case UnderTwoThousand => d.releaseCount.Int? && d.releaseCount.n < 2000
    case Widebodies => Contains(d.cabinet, "Wide")
    case BbqAndBrew => AnyTagIn(m.tags, ["BBQ", "food", "beer", "festival"])
    case SwordsAndSorcery => AnyTagIn(m.tags, ["fantasy", "Norse mythology", "mythology"])
    case ComedyAndHumor => "comedy" in m.tags
    case MythologyMatters => "mythology" in m.tags
    case PinballGiants => d.releaseCount.Int? && d.releaseCount.n > 10000
    case StillRolling => d.releaseCount == Text("In production")
    case SolidStateStern => Contains(d.manufacturer, "Stern") && d.machineType == "Solid state"
    case LateNinetiesHits => YearIn(m, 1995, 1999)
    case SportsGalore => "sports" in m.tags
    case LessThanThreeFlippers => d.flippers < 3
  }

  // ----- Decades -----

  /** The three decade themes pick out the decade of a readable year: 197x, 198x and 199x. */
  lemma DecadeThemes(m: Machine)
    ensures Matches(SeventiesBattle, m) <==> HasYear(m) && ParseInt(YearText(m)).value / 10 == 197
    ensures Matches(EightiesClassics, m) <==> HasYear(m) && ParseInt(YearText(m)).value / 10 == 198
    ensures Matches(NinetiesFavorites, m) <==> HasYear(m) && ParseInt(YearText(m)).value / 10 == 199
  {
  }

  /** At most one decade theme holds for any machine. */
  lemma DecadesExclusive(m: Machine)
    ensures !(Matches(SeventiesBattle, m) && Matches(EightiesClassics, m))
    ensures !(Matches(SeventiesBattle, m) && Matches(NinetiesFavorites, m))
    ensures !(Matches(EightiesClassics, m) && Matches(NinetiesFavorites, m))
  {
    DecadeThemes(m);
  }

  lemma LateNinetiesAreNineties(m: Machine)
    ensures Matches(LateNinetiesHits, m) ==> Matches(NinetiesFavorites, m)
  {
    assert Matches(LateNinetiesHits, m) == YearIn(m, 1995, 1999);
    assert Matches(NinetiesFavorites, m) == YearIn(m, 1990, 1999);
  }

  /** Every year theme raises exactly on a machine whose year `int()` refuses. */
  lemma YearThemesRaise(m: Machine)
    ensures Raises(SeventiesBattle, m) <==> !HasYear(m)
    ensures Raises(EightiesClassics, m) <==> !HasYear(m)
    ensures Raises(NinetiesFavorites, m) <==> !HasYear(m)
    ensures Raises(LateNinetiesHits, m) <==> !HasYear(m)
    ensures forall t :: !UsesYear(t) ==> !Raises(t, m)
  {
  }

  /**
    A solid-state throwback is a solid-state machine from before 2000. Python's
    `and` leaves the year of any other machine unread, so only a solid-state
    machine with an unreadable year raises.
   */
  lemma SolidStateThrowback(m: Machine)
    ensures Matches(SolidStateThrowbacks, m) <==>
              m.details.machineType == "Solid state" && HasYear(m) && ParseInt(YearText(m)).value < 2000
    ensures Raises(SolidStateThrowbacks, m) <==> m.details.machineType == "Solid state" && !HasYear(m)
    ensures m.details.machineType != "Solid state" ==> !Raises(SolidStateThrowbacks, m) && !Matches(SolidStateThrowbacks, m)
  {
  }

  // ----- Flippers, multiball, ramps -----

  lemma FlipperThemes(m: Machine)
    ensures Matches(FourFlipperFrenzy, m) ==> Matches(FlipperOverload, m)
    ensures !(Matches(LessThanThreeFlippers, m) && Matches(ThreeFlipperClub, m))
    ensures !(Matches(LessThanThreeFlippers, m) && Matches(FlipperOverload, m))
    ensures !(Matches(ThreeFlipperClub, m) && Matches(FlipperOverload, m))
  {
    var f := m.details.flippers;
    assert Matches(FourFlipperFrenzy, m) == (f == 4);
    assert Matches(FlipperOverload, m) == (f >= 4);
    assert Matches(ThreeFlipperClub, m) == (f == 3);
    assert Matches(LessThanThreeFlippers, m) == (f < 3);
  }

  /** Every machine has exactly one of: fewer than 3, exactly 3, 4 or more flippers. */
  lemma FlipperThemesCover(m: Machine)
    ensures Matches(LessThanThreeFlippers, m) || Matches(ThreeFlipperClub, m) || Matches(FlipperOverload, m)
  {
  }

  lemma MultiballThemes(m: Machine)
    ensures Matches(SixBallMayhem, m) ==> Matches(FiveBallMultiball, m)
    ensures !(Matches(SixBallMayhem, m) && Matches(ZeroMultiball, m))
    ensures !(Matches(FiveBallMultiball, m) && Matches(ZeroMultiball, m))
  {
  }

  lemma RampThemes(m: Machine)
    ensures !(Matches(NoRamps, m) && Matches(RampsGalore, m))
  {
  }

  // ----- Release counts -----

  /** The themes that compare `release_count` as a number. */
  predicate CountsUnits(t: Theme)
  {
    t.SmallReleaseRuns? || t.UnderTwoThousand? || t.PinballGiants?
  }

  /** The unit-count themes hold only for an integer count, never for "In production". */
  lemma CountThemesNeedNumber(m: Machine, t: Theme)
    requires CountsUnits(t)
    ensures Matches(t, m) ==> m.details.releaseCount.Int?
    ensures Matches(StillRolling, m) ==> !Matches(t, m)
  {
    match t
    case SmallReleaseRuns =>
    case UnderTwoThousand =>
    case PinballGiants =>
  }

  lemma ReleaseCountThemes(m: Machine)
    ensures Matches(SmallReleaseRuns, m) ==> Matches(UnderTwoThousand, m)
    ensures !(Matches(PinballGiants, m) && Matches(UnderTwoThousand, m))
  {
    var c := m.details.releaseCount;
    assert Matches(SmallReleaseRuns, m) == (c.Int? && c.n <= 500);
    assert Matches(UnderTwoThousand, m) == (c.Int? && c.n < 2000);
    assert Matches(PinballGiants, m) == (c.Int? && c.n > 10000);
  }

  // ----- Tags -----

  /** If every wanted tag of `fewer` is also wanted by `more`, matching `fewer` implies matching `more`. */
  lemma AnyTagInWider(tags: seq<string>, fewer: seq<string>, more: seq<string>)
    requires forall x :: x in fewer ==> x in more
    ensures AnyTagIn(tags, fewer) ==> AnyTagIn(tags, more)
  {
  }

  lemma LicensedMovies(m: Machine)
    ensures Matches(MovieLicensed, m) ==> Matches(MovieMarathon, m)
  {
  }

  lemma ActiveSciFiIsSciFi(m: Machine)
    ensures Matches(ActiveSciFi, m) ==> Matches(FuturisticSciFi, m)
  {
  }

  /** Food Frenzy's tag list is a subset of BBQ & Brew's, so the first implies the second. */
  lemma FoodIsBbq(m: Machine)
    ensures Matches(FoodFrenzy, m) ==> Matches(BbqAndBrew, m)
  {
    AnyTagInWider(m.tags, ["food", "BBQ", "festival"], ["BBQ", "food", "beer", "festival"]);
  }
}
