/** The level sidebar of the learning page: one link per level with its
    mastered/total count and progress, a detail panel for the selected level,
    and a footer with the totals over all levels. Everything is computed from
    the `stats` prop and the `level` query parameter. */
module LevelSidebar {

  import opened Wrappers
  import opened Strings
  import opened JsNumbers

  /** A stat's `level`, typed `string | number`. */
  datatype LevelValue = NumberLevel(n: int) | TextLevel(s: string)

  datatype LevelStats = LevelStats(level: LevelValue, total: int, mastered: int, learning: int, newWords: int)

  /** `String(level)`, which is also what a template literal prints. */
  function LevelText(l: LevelValue): string
  {
    match l
    case NumberLevel(n) => NumberToString(n)
    case TextLevel(s) => s
  }

  /** `searchParams.get("level") || "1"`: an absent or empty parameter selects
      level "1". */
  function CurrentLevel(param: Option<string>): (r: string)
    ensures r != ""
    ensures param.Some? && param.value != "" ==> r == param.value
    ensures param.None? || param.value == "" ==> r == "1"
  {
    if param.Some? && param.value != "" then param.value else "1"
  }

  predicate IsActive(stat: LevelStats, currentLevel: string)
  {
    LevelText(stat.level) == currentLevel
  }

  /** The progress bar value: mastered as a percentage of total, and 0 without
      dividing when the total is not positive. */
  function Progress(stat: LevelStats): (r: real)
    ensures stat.total <= 0 ==> r == 0.0
    ensures stat.total > 0 ==> r * (stat.total as real) == (stat.mastered as real) * 100.0
    ensures 0 <= stat.mastered <= stat.total ==> 0.0 <= r <= 100.0
  {
    if stat.total > 0 then (stat.mastered as real / stat.total as real) * 100.0 else 0.0
  }

  /** One level link: its target, its "mastered/total" label, its progress and
      whether it is highlighted. */
  datatype LevelLink = LevelLink(href: string, countLabel: string, progress: real, active: bool)

  function LevelLinkOf(stat: LevelStats, currentLevel: string): LevelLink
  {
    LevelLink("/learn?level=" + LevelText(stat.level),
              NumberToString(stat.mastered) + "/" + NumberToString(stat.total),
              Progress(stat), IsActive(stat, currentLevel))
  }

  /** The list of level links, one per stat, in the stats' order. */
  function LevelLinks(stats: seq<LevelStats>, currentLevel: string): (r: seq<LevelLink>)
    ensures |r| == |stats|
    ensures forall i :: 0 <= i < |r| ==> r[i] == LevelLinkOf(stats[i], currentLevel)
  {
    seq(|stats|, i requires 0 <= i < |stats| => LevelLinkOf(stats[i], currentLevel))
  }

  /** `stats.find(s => String(s.level) === currentLevel)`, as an index. */
  function FindStat(stats: seq<LevelStats>, currentLevel: string): (r: Option<nat>)
    ensures r.Some? ==> r.value < |stats| && IsActive(stats[r.value], currentLevel)
    ensures r.Some? ==> forall j :: 0 <= j < r.value ==> !IsActive(stats[j], currentLevel)
    ensures r.None? ==> forall j :: 0 <= j < |stats| ==> !IsActive(stats[j], currentLevel)
  {
    if stats == [] then None
    else if IsActive(stats[0], currentLevel) then Some(0)
    else match FindStat(stats[1..], currentLevel)
      case None => None
      case Some(k) => Some(k + 1)
  }

  /** The link highlighted in the list is the level the detail panel shows:
      the first active link is the one `find` selects, and no link is active
      when `find` selects nothing. */
  lemma HighlightMatchesDetail(stats: seq<LevelStats>, currentLevel: string)
    ensures var links := LevelLinks(stats, currentLevel);
            match FindStat(stats, currentLevel)
            case None => forall i :: 0 <= i < |links| ==> !links[i].active
            case Some(k) => links[k].active && forall i :: 0 <= i < k ==> !links[i].active
  {
  }

  /** One row of the detail panel. */
  datatype DetailItem = DetailItem(caption: string, status: string, count: int, colorClass: string, href: string)

  /** `/learn/{currentLevel}/flashcards?status={status}` */
  function FlashcardsHref(currentLevel: string, status: string): string
  {
    "/learn/" + currentLevel + "/flashcards?status=" + status
  }

  /** The rows for new, learning and mastered words, in that order. */
  function DetailItems(stat: LevelStats, currentLevel: string): (r: seq<DetailItem>)
    ensures |r| == 3
    ensures r[0].status == "new" && r[1].status == "learning" && r[2].status == "mastered"
    ensures r[0].count == stat.newWords && r[1].count == stat.learning && r[2].count == stat.mastered
    ensures forall i :: 0 <= i < 3 ==> r[i].href == FlashcardsHref(currentLevel, r[i].status)
  {
    [ DetailItem("Chưa biết", "new", stat.newWords, "text-gray-500", FlashcardsHref(currentLevel, "new")),
      DetailItem("Chưa thuộc", "learning", stat.learning, "text-blue-500", FlashcardsHref(currentLevel, "learning")),
      DetailItem("Đã thuộc", "mastered", stat.mastered, "text-green-500", FlashcardsHref(currentLevel, "mastered")) ]
  }

  /** The dot beside a row: its colour class with the first "text" replaced by
      "bg". */
  function DotClass(colorClass: string): string
  {
    ReplaceFirst(colorClass, "text", "bg")
  }

  lemma {:induction false} DotClassOfTextClass(rest: string)
    ensures DotClass("text" + rest) == "bg" + rest
  {
    var s := "text" + rest;
    assert OccursAt(s, "text", 0) by { assert s[0..4] == "text"; }
    assert s[..0] + "bg" + s[4..] == "bg" + rest;
  }

  /** The detail panel: a placeholder while no stat matches the selected
      level, the rows of the first matching stat otherwise. */
  datatype DetailPanel = LoadingPlaceholder | Details(items: seq<DetailItem>)

  function DetailPanelOf(stats: seq<LevelStats>, currentLevel: string): (r: DetailPanel)
    ensures r.LoadingPlaceholder? <==> forall j :: 0 <= j < |stats| ==> !IsActive(stats[j], currentLevel)
  {
    match FindStat(stats, currentLevel)
    case None => LoadingPlaceholder
    case Some(k) => Details(DetailItems(stats[k], currentLevel))
  }

  /** The panel's counts are the new, learning and mastered counts of the
      first stat whose level text is the selected level. */
  lemma DetailPanelShowsFirstMatch(stats: seq<LevelStats>, currentLevel: string, k: nat)
    requires k < |stats| && IsActive(stats[k], currentLevel)
    requires forall j :: 0 <= j < k ==> !IsActive(stats[j], currentLevel)
    ensures DetailPanelOf(stats, currentLevel) == Details(DetailItems(stats[k], currentLevel))
  {
    var r := FindStat(stats, currentLevel);
    assert r.Some?;
  }

  /** `stats.reduce((acc, curr) => acc + curr.mastered, 0)` */
  function SumMastered(stats: seq<LevelStats>): int
  {
    if stats == [] then 0 else SumMastered(stats[..|stats| - 1]) + stats[|stats| - 1].mastered
  }

  /** `stats.reduce((acc, curr) => acc + curr.total, 0)` */
  function SumTotal(stats: seq<LevelStats>): int
  {
    if stats == [] then 0 else SumTotal(stats[..|stats| - 1]) + stats[|stats| - 1].total
  }

  /** When no level claims more mastered words than it has, neither does the
      footer. */
  lemma {:induction false} SumMasteredAtMostSumTotal(stats: seq<LevelStats>)
    requires forall i :: 0 <= i < |stats| ==> stats[i].mastered <= stats[i].total
    ensures SumMastered(stats) <= SumTotal(stats)
  {
    if stats != [] {
      SumMasteredAtMostSumTotal(stats[..|stats| - 1]);
    }
  }
}
