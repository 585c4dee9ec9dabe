/**
 The forecast cursor of index.js: a calendar day and an hour of that day, and the
 timestamps stamped from it. Days are numbered from 1970-01-01 (day 0), so the
 weekday numbering of `Date.prototype.getDay` (Sunday is 0) is `(day + 4) % 7`.
 */
module Calendar {

  const HoursPerDay := 24
  /** 1970-01-01 was a Thursday. */
  const EpochWeekday := 4
  const Sunday := 0
  /** `new Date("2024-05-01")`, a Wednesday. */
  const DefaultSeedDay := 19844

  type Hour = h: int | 0 <= h < HoursPerDay

  /** `(currentDate, currentHour)`; only the calendar date of `currentDate` is read. */
  datatype Cursor = Cursor(day: int, hour: Hour)

  /** A `Date` broken into the day and the time of day. */
  datatype Timestamp = Timestamp(day: int, hour: Hour, minute: int, second: int, millisecond: int)

  function Weekday(day: int): (w: int)
    ensures 0 <= w < 7
  {
    (day + EpochWeekday) % 7
  }

  /** Hours since 1970-01-01 00:00 of the cursor's position. */
  function AbsoluteHour(c: Cursor): int {
    c.day * HoursPerDay + c.hour
  }

  /** Milliseconds since the epoch, the time value of a `Date`. */
  function TimeValue(t: Timestamp): int {
    ((AbsoluteHour(Cursor(t.day, t.hour)) * 60 + t.minute) * 60 + t.second) * 1000 + t.millisecond
  }

  /** `currentHour++`, and at 24 the hour resets and `setDate(getDate() + 1)`. */
  function Advance(c: Cursor): (next: Cursor)
    ensures AbsoluteHour(next) == AbsoluteHour(c) + 1
    ensures next.day != c.day <==> c.hour == HoursPerDay - 1
    ensures next.day != c.day ==> next.day == c.day + 1 && next.hour == 0
    ensures next.day == c.day ==> next.hour == c.hour + 1
  {
    if c.hour + 1 == HoursPerDay then Cursor(c.day + 1, 0) else Cursor(c.day, c.hour + 1)
  }

  /** The cursor after `i` advances. */
  function CursorAfter(seed: Cursor, i: nat): (c: Cursor)
    ensures AbsoluteHour(c) == AbsoluteHour(seed) + i
  {
    if i == 0 then seed else Advance(CursorAfter(seed, i - 1))
  }

  /** After i advances from (d, h) the cursor is at day d + (h + i) / 24, hour (h + i) % 24. */
  lemma CursorAfterClosedForm(seed: Cursor, i: nat)
    ensures CursorAfter(seed, i).day == seed.day + (seed.hour + i) / HoursPerDay
    ensures CursorAfter(seed, i).hour == (seed.hour + i) % HoursPerDay
  {
  }

  /** Weekdays advance by one per day, modulo the week. */
  lemma WeekdayShift(day: int, k: int)
    ensures Weekday(day + k) == (Weekday(day) + k) % 7
  {
  }

  /** `new Date(d); setHours(currentHour, 0, 0, 0)`: the cursor's day and hour, the rest zeroed. */
  function StampAt(c: Cursor): (t: Timestamp)
    ensures t.minute == 0 && t.second == 0 && t.millisecond == 0
    ensures TimeValue(t) == AbsoluteHour(c) * 3600000
  {
    Timestamp(c.day, c.hour, 0, 0, 0)
  }
}
