/** Record shapes for focus sessions and the statistics derived from them. */
module SessionModel {
  import opened Wrappers

  datatype FocusSession = FocusSession(
    id: string, userId: string, durationSeconds: int, startedAt: string, endedAt: string,
    category: Option<string>, notes: Option<string>, createdAt: string)

  datatype CreateFocusSessionRequest = CreateFocusSessionRequest(
    userId: string, durationSeconds: int, startedAt: string, endedAt: string,
    category: Option<string>, notes: Option<string>)

  datatype DailyStats = DailyStats(date: string, totalFocusSeconds: int, sessionCount: int)

  datatype UserStats = UserStats(
    totalFocusTime: int, totalSessions: int, currentStreak: int, longestStreak: int, tasksCompleted: int)

  datatype HeatmapData = HeatmapData(date: string, value: int)
}
