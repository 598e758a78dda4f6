/** The home page's per-level progress summary and the greeting name. The two
    database reads (the signed-in user and the `vocabulary_progress` rows) are
    inputs here: `None` stands for a null result. */
module UserStats {

  import opened Wrappers
  import opened Strings

  /** One `vocabulary_progress` row as selected: `hsk_level` and `mastery_level`,
      each `None` when null. */
  datatype ProgressRow = ProgressRow(hskLevel: Option<int>, masteryLevel: Option<int>)

  /** One level bucket; `newWords` is the field the page calls `new`. */
  datatype LevelStat = LevelStat(level: int, total: int, mastered: int, learning: int, newWords: int)

  /** `mastery_level` as the relational operators see it: null compares as 0. */
  function MasteryValue(row: ProgressRow): int
  {
    match row.masteryLevel
    case None => 0
    case Some(m) => m
  }

  /** The row filters the page applies for one level. `hsk_level === level` is a
      strict comparison, so a null level matches no bucket. */
  datatype RowFilter = AnyMastery | Mastered | Learning | NotStarted

  predicate Matches(f: RowFilter, row: ProgressRow, level: int)
  {
    && row.hskLevel == Some(level)
    && match f
       case AnyMastery => true
       case Mastered => MasteryValue(row) >= 4
       case Learning => 0 < MasteryValue(row) < 4
       case NotStarted => MasteryValue(row) <= 0
  }

  /** `rows.filter(...).length` */
  function Count(rows: seq<ProgressRow>, f: RowFilter, level: int): (r: nat)
    ensures r <= |rows|
    ensures r == 0 <==> forall i :: 0 <= i < |rows| ==> !Matches(f, rows[i], level)
  {
    if rows == [] then 0
    else Count(rows[..|rows| - 1], f, level) + (if Matches(f, rows[|rows| - 1], level) then 1 else 0)
  }

  /** The bucket of one level, over the rows of the query (`[]` for null). */
  function LevelBucket(rows: seq<ProgressRow>, level: int): LevelStat
  {
    LevelStat(level, 100 * level, Count(rows, Mastered, level), Count(rows, Learning, level),
              100 * level - Count(rows, AnyMastery, level))
  }

  function RowsOf(progress: Option<seq<ProgressRow>>): seq<ProgressRow>
  {
    match progress
    case None => []
    case Some(rows) => rows
  }

  /** `getUserStats`: six buckets, levels 1 to 6 in order, each with the
      placeholder total 100 x level whatever the rows hold. */
  function GetUserStats(progress: Option<seq<ProgressRow>>): (r: seq<LevelStat>)
    ensures |r| == 6
    ensures forall i :: 0 <= i < 6 ==> r[i].level == i + 1 && r[i].total == 100 * (i + 1)
    ensures forall i :: 0 <= i < 6 ==>
              && r[i].mastered == Count(RowsOf(progress), Mastered, i + 1)
              && r[i].learning == Count(RowsOf(progress), Learning, i + 1)
  {
    seq(6, i requires 0 <= i < 6 => LevelBucket(RowsOf(progress), i + 1))
  }

  /** Every row at a level is mastered, learning, or has a mastery of 0 or
      less. */
  lemma {:induction false} CountPartition(rows: seq<ProgressRow>, level: int)
    ensures Count(rows, AnyMastery, level) ==
            Count(rows, Mastered, level) + Count(rows, Learning, level) + Count(rows, NotStarted, level)
  {
    if rows != [] {
      CountPartition(rows[..|rows| - 1], level);
    }
  }

  /** `new + learning + mastered` falls short of the total by exactly the rows
      at that level whose mastery is 0 or less (or null); when there are none,
      the three counts add up to the total. */
  lemma BucketSums(progress: Option<seq<ProgressRow>>, i: int)
    requires 0 <= i < 6
    ensures var s := GetUserStats(progress)[i];
            s.newWords + s.learning + s.mastered == s.total - Count(RowsOf(progress), NotStarted, i + 1)
  {
    assert GetUserStats(progress)[i] == LevelBucket(RowsOf(progress), i + 1);
    CountPartition(RowsOf(progress), i + 1);
  }

  /** A row whose level is not 1 to 6 (or is null) changes no bucket. */
  lemma {:induction false} CountIgnoresOtherLevels(rows: seq<ProgressRow>, row: ProgressRow, f: RowFilter, level: int)
    requires row.hskLevel != Some(level)
    ensures Count(rows + [row], f, level) == Count(rows, f, level)
  {
    assert (rows + [row])[..|rows|] == rows;
  }

  lemma RowOutsideLevelsIgnored(rows: seq<ProgressRow>, row: ProgressRow)
    requires forall l :: 1 <= l <= 6 ==> row.hskLevel != Some(l)
    ensures GetUserStats(Some(rows + [row])) == GetUserStats(Some(rows))
  {
    var a, b := GetUserStats(Some(rows + [row])), GetUserStats(Some(rows));
    forall i | 0 <= i < 6 ensures a[i] == b[i] {
      assert a[i] == LevelBucket(rows + [row], i + 1);
      assert b[i] == LevelBucket(rows, i + 1);
      CountIgnoresOtherLevels(rows, row, AnyMastery, i + 1);
      CountIgnoresOtherLevels(rows, row, Mastered, i + 1);
      CountIgnoresOtherLevels(rows, row, Learning, i + 1);
    }
  }

  /** A null progress result counts as no rows. */
  lemma NullProgressIsEmpty()
    ensures GetUserStats(None) == GetUserStats(Some([]))
  {
  }

  /** The page's fallback when the stats come back empty. */
  function FallbackStats(): (r: seq<LevelStat>)
    ensures |r| == 6
  {
    seq(6, i requires 0 <= i < 6 => LevelStat(i + 1, 100 * (i + 1), 0, 0, 100 * (i + 1)))
  }

  /** The fallback is what `getUserStats` gives for a user without progress. */
  lemma FallbackIsEmptyProgress()
    ensures FallbackStats() == GetUserStats(None)
  {
    var a, b := FallbackStats(), GetUserStats(None);
    forall i | 0 <= i < 6 ensures a[i] == b[i] {
      assert b[i] == LevelBucket([], i + 1);
    }
  }

  /** The stats the page renders: the fallback replaces an empty result. */
  function PageStats(progress: Option<seq<ProgressRow>>): (r: seq<LevelStat>)
    ensures r == GetUserStats(progress)
  {
    var stats := GetUserStats(progress);
    if |stats| == 0 then FallbackStats() else stats
  }

  /** The greeting name: `full_name` when it is a non-empty string, otherwise
      the part of the email before the first "@" (the whole email when it has
      none), otherwise undefined (`None`). */
  function DisplayName(fullName: Option<string>, email: Option<string>): (r: Option<string>)
    ensures fullName.Some? && fullName.value != "" ==> r == fullName
    ensures !(fullName.Some? && fullName.value != "") ==> (r.None? <==> email.None?)
    ensures !(fullName.Some? && fullName.value != "") && email.Some? ==>
              && StartsWith(email.value, r.value)
              && '@' !in r.value
              && (|r.value| == |email.value| || email.value[|r.value|] == '@')
  {
    if fullName.Some? && fullName.value != "" then fullName
    else match email
      case None => None
      case Some(e) => Some(BeforeFirst(e, '@'))
  }
}
