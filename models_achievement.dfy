/** The achievement catalogue: the ten kinds, their stored tokens and their display texts. */
module AchievementModel {
  import opened Wrappers

  datatype AchievementType =
    | FirstSession | HourMaster | StreakWeek | StreakMonth
    | TotalHours10 | TotalHours50 | TotalHours100
    | EarlyBird | NightOwl | TaskMaster

  /** Every kind, in declaration order (also the order of the catalogue listing). */
  const AllTypes: seq<AchievementType> :=
    [FirstSession, HourMaster, StreakWeek, StreakMonth, TotalHours10,
     TotalHours50, TotalHours100, EarlyBird, NightOwl, TaskMaster]

  /** The tokens stored in the `achievement_type` column. */
  const Tokens: set<string> :=
    {"first_session", "hour_master", "streak_week", "streak_month", "total_hours_10",
     "total_hours_50", "total_hours_100", "early_bird", "night_owl", "task_master"}

  /** The token written to the database for a kind. */
  function AsStr(t: AchievementType): (s: string)
    ensures s in Tokens
  {
    match t
    case FirstSession => "first_session"
    case HourMaster => "hour_master"
    case StreakWeek => "streak_week"
    case StreakMonth => "streak_month"
    case TotalHours10 => "total_hours_10"
    case TotalHours50 => "total_hours_50"
    case TotalHours100 => "total_hours_100"
    case EarlyBird => "early_bird"
    case NightOwl => "night_owl"
    case TaskMaster => "task_master"
  }

  /** The kind a stored token names, if any. */
  function FromStr(s: string): (r: Option<AchievementType>)
    ensures r.Some? <==> s in Tokens
  {
    match s
    case "first_session" => Some(FirstSession)
    case "hour_master" => Some(HourMaster)
    case "streak_week" => Some(StreakWeek)
    case "streak_month" => Some(StreakMonth)
    case "total_hours_10" => Some(TotalHours10)
    case "total_hours_50" => Some(TotalHours50)
    case "total_hours_100" => Some(TotalHours100)
    case "early_bird" => Some(EarlyBird)
    case "night_owl" => Some(NightOwl)
    case "task_master" => Some(TaskMaster)
    case _ => None
  }

  /** The name each variant carries in JSON. */
  function SerdeName(t: AchievementType): string
  {
    match t
    case FirstSession => "first_session"
    case HourMaster => "hour_master"
    case StreakWeek => "streak_week"
    case StreakMonth => "streak_month"
    case TotalHours10 => "total_hours_10"
    case TotalHours50 => "total_hours_50"
    case TotalHours100 => "total_hours_100"
    case EarlyBird => "early_bird"
    case NightOwl => "night_owl"
    case TaskMaster => "task_master"
  }

  function DisplayName(t: AchievementType): (s: string)
    ensures s != []
  {
    match t
    case FirstSession => "First Focus"
    case HourMaster => "Hour Master"
    case StreakWeek => "Week Warrior"
    case StreakMonth => "Monthly Champion"
    case TotalHours10 => "10 Hours Club"
    case TotalHours50 => "50 Hours Legend"
    case TotalHours100 => "Century Master"
    case EarlyBird => "Early Bird"
    case NightOwl => "Night Owl"
    case TaskMaster => "Task Master"
  }

  function Description(t: AchievementType): (s: string)
    ensures s != []
  {
    match t
    case FirstSession => "Complete your first focus session"
    case HourMaster => "Complete a single session over 1 hour"
    case StreakWeek => "Maintain a 7-day streak"
    case StreakMonth => "Maintain a 30-day streak"
    case TotalHours10 => "Accumulate 10 hours of focus time"
    case TotalHours50 => "Accumulate 50 hours of focus time"
    case TotalHours100 => "Accumulate 100 hours of focus time"
    case EarlyBird => "Start a session before 6 AM"
    case NightOwl => "Complete a session after 11 PM"
    case TaskMaster => "Complete 50 tasks"
  }

  /** Decoding a token written for a kind gives that kind back. */
  lemma FromStrAsStr(t: AchievementType)
    ensures FromStr(AsStr(t)) == Some(t)
  {
  }

  /** A token that decodes is the token of the kind it decodes to. */
  lemma AsStrFromStr(s: string)
    requires FromStr(s).Some?
    ensures AsStr(FromStr(s).value) == s
  {
  }

  /** Distinct kinds are stored under distinct tokens. */
  lemma AsStrInjective(a: AchievementType, b: AchievementType)
    requires AsStr(a) == AsStr(b)
    ensures a == b
  {
    FromStrAsStr(a);
    FromStrAsStr(b);
  }

  /** The JSON names are the stored tokens. */
  lemma SerdeNameIsToken(t: AchievementType)
    ensures SerdeName(t) == AsStr(t)
  {
  }

  /** The catalogue lists every kind exactly once. */
  lemma AllTypesComplete(t: AchievementType)
    ensures t in AllTypes
    ensures |AllTypes| == 10
    ensures forall i, j | 0 <= i < j < |AllTypes| :: AllTypes[i] != AllTypes[j]
  {
  }

  /** A stored achievement (`Achievement`). */
  datatype Achievement = Achievement(
    id: string, userId: string, achievementType: AchievementType,
    unlockedAt: string, metadata: Option<string>)

  /** A catalogue entry as listed for a user (`AchievementInfo`). */
  datatype AchievementInfo = AchievementInfo(
    achievementType: AchievementType, name: string, description: string,
    unlocked: bool, unlockedAt: Option<string>)
}
