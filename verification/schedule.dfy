/** The daily timetable: the job fires at 06:55 local time and every mail waits for
    07:00 of the same day. Timestamps are whole seconds of local wall-clock time
    counted from the epoch, so the day of a timestamp is its floor division by the
    length of a day (the zone, Asia/Seoul, has no daylight saving). */
module Schedule {

  const PreparationHour: int := 6
  const PreparationMinute: int := 55
  const ScheduleHour: int := 7
  const ScheduleMinute: int := 0

  const SecondsPerMinute: int := 60
  const MinutesPerDay: int := 24 * 60
  const SecondsPerDay: int := MinutesPerDay * SecondsPerMinute

  /** Minutes since midnight of an hour and minute of the day. */
  function MinuteOfDay(hour: int, minute: int): int
  {
    hour * 60 + minute
  }

  /** When the daily job fires (`gocron ... At("06:55")`). */
  const TriggerMinute: int := MinuteOfDay(PreparationHour, PreparationMinute)

  /** When mails may go out (`todayScheduleDateTime`). */
  const ReleaseMinute: int := MinuteOfDay(ScheduleHour, ScheduleMinute)

  function Day(t: int): int
  {
    t / SecondsPerDay
  }

  function SecondOfDay(t: int): int
  {
    t % SecondsPerDay
  }

  /** `time.Date(now.Year(), now.Month(), now.Day(), scheduleHour, scheduleMinute, 0, 0,
      time.Local)`: 07:00:00 on the calendar day of `now`. */
  function ReleaseTime(now: int): (r: int)
    ensures Day(r) == Day(now)
    ensures SecondOfDay(r) == ReleaseMinute * SecondsPerMinute
  {
    Day(now) * SecondsPerDay + ReleaseMinute * SecondsPerMinute
  }

  /** Fired during its trigger minute, the job computes a release later the same
      morning, at most five minutes ahead. */
  lemma ReleaseAfterTrigger(now: int)
    requires TriggerMinute * SecondsPerMinute <= SecondOfDay(now) < (TriggerMinute + 1) * SecondsPerMinute
    ensures now < ReleaseTime(now) <= now + 5 * SecondsPerMinute
  {
  }

  /** `<-time.After(time.Until(release))`: a timer of non-positive duration fires at
      once, so the wait ends at the later of the two instants. */
  function WaitUntil(now: int, release: int): (t: int)
    ensures t >= now && t >= release
    ensures t == now || t == release
  {
    if now < release then release else now
  }
}
