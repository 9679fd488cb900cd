/** Calendar arithmetic: the closed formula of `civil_utc` against the Gregorian calendar
    counted off one day at a time. */
module Civil {

  datatype Date = Date(year: int, month: nat, day: nat)

  // ---- The calendar ----

  predicate Leap(y: int) { y % 4 == 0 && (y % 100 != 0 || y % 400 == 0) }

  function MonthDays(y: int, m: nat): nat {
    if m == 2 then (if Leap(y) then 29 else 28)
    else if m == 4 || m == 6 || m == 9 || m == 11 then 30
    else 31
  }

  predicate ValidDate(d: Date) { 1 <= d.month <= 12 && 1 <= d.day <= MonthDays(d.year, d.month) }

  /** The day after. */
  function Tomorrow(d: Date): Date {
    if d.day < MonthDays(d.year, d.month) then d.(day := d.day + 1)
    else if d.month < 12 then Date(d.year, d.month + 1, 1)
    else Date(d.year + 1, 1, 1)
  }

  /** Day `n` after 1970-01-01. */
  function CalendarDay(n: nat): Date {
    if n == 0 then Date(1970, 1, 1) else Tomorrow(CalendarDay(n - 1))
  }

  // ---- The formula ----

  const ERA_DAYS := 146097

  /** Year of the era, counted from March. */
  function YearOfEra(doe: nat): int {
    (doe - doe / 1460 + doe / 36524 - doe / 146096) / 365
  }

  function DayIn(doe: nat): int {
    var yoe := YearOfEra(doe);
    doe - (365 * yoe + yoe / 4 - yoe / 100)
  }

  type DayOfYear = d: int | 0 <= d <= 365

  /** March is month 0; January and February belong to the next civil year. */
  function DateOf(year: int, doy: DayOfYear): Date {
    var mp := (5 * doy + 2) / 153;
    var day := doy - (153 * mp + 2) / 5 + 1;
    var month := if mp < 10 then mp + 3 else mp - 9;
    Date(if month <= 2 then year + 1 else year, month, day)
  }

  type DayOfEra = d: int | 0 <= d < ERA_DAYS

  /** Day `doe` of an era of 400 years. */
  function EraDate(era: int, doe: DayOfEra): Date {
    YearBounds(doe);
    DateOf(YearOfEra(doe) + era * 400, DayIn(doe))
  }

  function CivilFromDays(days: nat): Date {
    var z := days + 719468;
    EraDate(z / ERA_DAYS, z % ERA_DAYS)
  }

  datatype Clock = Clock(date: Date, hour: nat, minute: nat, second: nat)

  function CivilUtc(unix: nat): Clock {
    var rem := unix % 86400;
    Clock(CivilFromDays(unix / 86400), rem / 3600, rem % 3600 / 60, rem % 60)
  }

  // ---- Places in an era ----

  /** A day of the era as centuries, four-year groups and years before it, and the day of its
      March-year. */
  datatype Place = Place(c: nat, q: nat, k: nat, d: nat) {
    function Year(): nat { 100 * c + 4 * q + k }

    function Day(): nat { 36524 * c + 1461 * q + 365 * k + d }

    function Length(): nat { if k == 3 && (q < 24 || c == 3) then 366 else 365 }

    predicate Valid() { c <= 3 && q <= 24 && k <= 3 && d < Length() }
  }

  predicate Located(doe: nat, p: Place) { p.Valid() && doe == p.Day() }

  /** Which place, by division rather than by the formula. */
  lemma FindPlace(doe: nat) returns (p: Place)
    requires doe < ERA_DAYS
    ensures Located(doe, p)
  {
    var c := if doe / 36524 < 3 then doe / 36524 else 3;
    var s := doe - 36524 * c;
    var q := if s / 1461 < 24 then s / 1461 else 24;
    var u := s - 1461 * q;
    var k := if u / 365 < 3 then u / 365 else 3;
    p := Place(c, q, k, u - 365 * k);
  }

  lemma By1460(n: nat, m: nat, r: nat)
    requires n == 1460 * m + r && r < 1460
    ensures n / 1460 == m
  {
  }

  lemma By365(n: nat, m: nat, r: nat)
    requires n == 365 * m + r && r < 365
    ensures n / 365 == m
  {
  }

  /** The formula finds that year. */
  lemma FormulaFinds(doe: nat, p: Place)
    requires Located(doe, p)
    ensures YearOfEra(doe) == p.Year()
  {
    var last := doe == 146096;
    assert doe / 146096 == if last then 1 else 0;
    assert doe / 36524 == if last then 4 else p.c;
    var e := 24 * p.c + 365 * p.k + p.q + p.d;
    assert doe == 1460 * (25 * p.c + p.q) + e;
    var carry := if e >= 1460 then 1 else 0;
    By1460(doe, 25 * p.c + p.q + carry, e - 1460 * carry);
    assert 0 <= p.d - carry < 365;
    By365(365 * p.Year() + p.d - carry, p.Year(), p.d - carry);
  }

  lemma YearQuotients(p: Place)
    requires p.Valid()
    ensures p.Year() / 4 == 25 * p.c + p.q && p.Year() / 100 == p.c
  {
  }

  lemma PlaceIs(doe: nat, p: Place)
    requires Located(doe, p)
    ensures YearOfEra(doe) == p.Year() && DayIn(doe) == p.d
  {
    FormulaFinds(doe, p);
    YearQuotients(p);
  }

  lemma YearBounds(doe: nat)
    requires doe < ERA_DAYS
    ensures 0 <= YearOfEra(doe) < 400 && 0 <= DayIn(doe) <= 365
  {
    var p := FindPlace(doe);
    PlaceIs(doe, p);
  }

  lemma Mod4(y: int, n: int)
    ensures (y + 4 * n) % 4 == y % 4
  {
  }

  lemma Mod100(y: int, n: int)
    ensures (y + 100 * n) % 100 == y % 100
  {
  }

  lemma Mod400(y: int, n: int)
    ensures (y + 400 * n) % 400 == y % 400
  {
  }

  lemma LeapEvery400(y: int, era: int)
    ensures Leap(y + era * 400) == Leap(y)
  {
    Mod4(y, 100 * era);
    Mod100(y, 4 * era);
    Mod400(y, era);
  }

  /** A March-year has a 366th day exactly when the February it ends with has a 29th. */
  lemma YearLength(p: Place, era: int)
    requires p.Valid()
    ensures p.Length() == if Leap(p.Year() + era * 400 + 1) then 366 else 365
  {
    LeapEvery400(p.Year() + 1, era);
    assert p.Year() + 1 == 4 * (25 * p.c + p.q) + p.k + 1;
    assert p.Year() + era * 400 + 1 == p.Year() + 1 + era * 400;
  }

  /** Where the months of a March-year start. */
  function MonthStart(mp: nat): nat {
    if mp == 0 then 0 else if mp == 1 then 31 else if mp == 2 then 61 else if mp == 3 then 92
    else if mp == 4 then 122 else if mp == 5 then 153 else if mp == 6 then 184 else if mp == 7 then 214
    else if mp == 8 then 245 else if mp == 9 then 275 else if mp == 10 then 306 else if mp == 11 then 337
    else 366
  }

  lemma MonthIs(doy: DayOfYear, mp: nat)
    requires mp <= 11 && MonthStart(mp) <= doy < MonthStart(mp + 1)
    ensures (5 * doy + 2) / 153 == mp && (153 * mp + 2) / 5 == MonthStart(mp)
  {
  }

  lemma FindMonth(doy: DayOfYear) returns (mp: nat)
    ensures mp <= 11 && MonthStart(mp) <= doy < MonthStart(mp + 1)
  {
    mp := 0;
    while MonthStart(mp + 1) <= doy
      invariant mp <= 11 && MonthStart(mp) <= doy
      decreases 12 - mp
    {
      mp := mp + 1;
    }
  }

  function MonthDate(year: int, mp: nat, day: nat): Date
    requires mp <= 11
  {
    Date(if mp < 10 then year else year + 1, if mp < 10 then mp + 3 else mp - 9, day)
  }

  lemma DateIs(year: int, doy: DayOfYear, mp: nat)
    requires mp <= 11 && MonthStart(mp) <= doy < MonthStart(mp + 1)
    ensures DateOf(year, doy) == MonthDate(year, mp, doy - MonthStart(mp) + 1)
  {
    MonthIs(doy, mp);
  }

  lemma DatesAdvance(year: int, doy: nat)
    requires doy + 1 < (if Leap(year + 1) then 366 else 365)
    ensures DateOf(year, doy + 1) == Tomorrow(DateOf(year, doy))
  {
    var mp := FindMonth(doy);
    DatesAdvanceIn(year, doy, mp);
  }

  lemma DatesAdvanceIn(year: int, doy: nat, mp: nat)
    requires mp <= 11 && MonthStart(mp) <= doy < MonthStart(mp + 1)
    requires doy + 1 < (if Leap(year + 1) then 366 else 365)
    ensures DateOf(year, doy + 1) == Tomorrow(DateOf(year, doy))
  {
    DateIs(year, doy, mp);
    if doy + 1 < MonthStart(mp + 1) {
      DateIs(year, doy + 1, mp);
      WithinMonth(year, mp, doy - MonthStart(mp) + 1);
    } else {
      DateIs(year, doy + 1, mp + 1);
      MonthEnds(year, mp);
    }
  }

  /** Days of month `mp`; February has what the leap rule gives it. */
  function MonthLength(year: int, mp: nat): nat
    requires mp <= 11
  {
    if mp < 11 then MonthStart(mp + 1) - MonthStart(mp) else if Leap(year + 1) then 29 else 28
  }

  lemma WithinMonth(year: int, mp: nat, day: nat)
    requires mp <= 11 && 1 <= day < MonthLength(year, mp)
    ensures Tomorrow(MonthDate(year, mp, day)) == MonthDate(year, mp, day + 1)
  {
  }

  lemma MonthEnds(year: int, mp: nat)
    requires mp < 11
    ensures Tomorrow(MonthDate(year, mp, MonthLength(year, mp))) == MonthDate(year, mp + 1, 1)
  {
  }

  lemma YearEnds(year: int)
    ensures DateOf(year + 1, 0) == Tomorrow(DateOf(year, if Leap(year + 1) then 365 else 364))
  {
    DateIs(year, if Leap(year + 1) then 365 else 364, 11);
    DateIs(year + 1, 0, 0);
  }

  lemma DateFollows(year: int, d: nat, length: nat, year': int, d': nat)
    requires d < length == if Leap(year + 1) then 366 else 365
    requires d + 1 < length ==> year' == year && d' == d + 1
    requires d + 1 == length ==> year' == year + 1 && d' == 0
    ensures DateOf(year', d') == Tomorrow(DateOf(year, d))
  {
    if d + 1 < length {
      DatesAdvance(year, d);
    } else {
      YearEnds(year);
    }
  }

  /** The place of the next day: in the same year, or the first of the next. */
  predicate PlaceFollows(era: int, p: Place, era': int, p': Place) {
    && p.Valid() && p'.Valid()
    && (p.d + 1 < p.Length() ==> p'.Year() + era' * 400 == p.Year() + era * 400 && p'.d == p.d + 1)
    && (p.d + 1 == p.Length() ==> p'.Year() + era' * 400 == p.Year() + era * 400 + 1 && p'.d == 0)
  }

  lemma FindNext(doe: nat, p: Place) returns (p': Place)
    requires Located(doe, p) && doe + 1 < ERA_DAYS
    ensures Located(doe + 1, p')
    ensures p.d + 1 < p.Length() ==> p'.Year() == p.Year() && p'.d == p.d + 1
    ensures p.d + 1 == p.Length() ==> p'.Year() == p.Year() + 1 && p'.d == 0
  {
    if p.d + 1 < p.Length() {
      p' := p.(d := p.d + 1);
    } else if p.k < 3 {
      p' := Place(p.c, p.q, p.k + 1, 0);
    } else if p.q < 24 {
      p' := Place(p.c, p.q + 1, 0, 0);
    } else {
      p' := Place(p.c + 1, 0, 0, 0);
    }
  }

  /** The day after, in eras. */
  predicate Follows(era: int, doe: DayOfEra, era': int, doe': DayOfEra) {
    if doe + 1 < ERA_DAYS then era' == era && doe' == doe + 1 else era' == era + 1 && doe' == 0
  }

  lemma SameEraFollows(era: int, p: Place, p': Place)
    requires p.Valid() && p'.Valid()
    requires p.d + 1 < p.Length() ==> p'.Year() == p.Year() && p'.d == p.d + 1
    requires p.d + 1 == p.Length() ==> p'.Year() == p.Year() + 1 && p'.d == 0
    ensures PlaceFollows(era, p, era, p')
  {
  }

  lemma NewEraFollows(era: int, p: Place, p': Place)
    requires p.Valid() && p'.Valid() && p.d + 1 == p.Length() && p.Year() == 399 && p'.Year() == 0 && p'.d == 0
    ensures PlaceFollows(era, p, era + 1, p')
  {
  }

  lemma FindPlaces(era: int, doe: DayOfEra, era': int, doe': DayOfEra) returns (p: Place, p': Place)
    requires Follows(era, doe, era', doe')
    ensures Located(doe, p) && Located(doe', p') && PlaceFollows(era, p, era', p')
  {
    p := FindPlace(doe);
    if doe + 1 < ERA_DAYS {
      p' := FindNext(doe, p);
      SameEraFollows(era, p, p');
    } else {
      p' := Place(0, 0, 0, 0);
      LastPlace(p);
      NewEraFollows(era, p, p');
    }
  }

  lemma LastPlace(p: Place)
    requires Located(ERA_DAYS - 1, p)
    ensures p.Year() == 399 && p.d + 1 == p.Length()
  {
    assert p.c == 3;
    assert p.q == 24;
  }

  lemma DatesFollow(era: int, p: Place, era': int, p': Place)
    requires PlaceFollows(era, p, era', p')
    ensures DateOf(p'.Year() + era' * 400, p'.d) == Tomorrow(DateOf(p.Year() + era * 400, p.d))
  {
    YearLength(p, era);
    DateFollows(p.Year() + era * 400, p.d, p.Length(), p'.Year() + era' * 400, p'.d);
  }

  /** Days follow each other in eras as they do in years: `date` by era, `at` by March-year. */
  lemma EraFollows(date: (int, DayOfEra) -> Date, at: (int, DayOfYear) -> Date, next: Date -> Date,
                   era: int, doe: DayOfEra, era': int, doe': DayOfEra)
    requires forall era, doe: DayOfEra, p: Place :: Located(doe, p) ==> date(era, doe) == at(p.Year() + era * 400, p.d)
    requires forall era, p, era', p' ::
               PlaceFollows(era, p, era', p') ==> at(p'.Year() + era' * 400, p'.d) == next(at(p.Year() + era * 400, p.d))
    requires Follows(era, doe, era', doe')
    ensures date(era', doe') == next(date(era, doe))
  {
    var p, p' := FindPlaces(era, doe, era', doe');
  }

  lemma EraNext(era: int, doe: DayOfEra, era': int, doe': DayOfEra)
    requires Follows(era, doe, era', doe')
    ensures EraDate(era', doe') == Tomorrow(EraDate(era, doe))
  {
    forall era, doe: DayOfEra, p: Place | Located(doe, p)
      ensures EraDate(era, doe) == DateOf(p.Year() + era * 400, p.d)
    {
      PlaceIs(doe, p);
    }
    forall era, p, era', p' | PlaceFollows(era, p, era', p')
      ensures DateOf(p'.Year() + era' * 400, p'.d) == Tomorrow(DateOf(p.Year() + era * 400, p.d))
    {
      DatesFollow(era, p, era', p');
    }
    EraFollows(EraDate, DateOf, Tomorrow, era, doe, era', doe');
  }

  lemma NextIsFollowing(z: nat)
    ensures Follows(z / ERA_DAYS, z % ERA_DAYS, (z + 1) / ERA_DAYS, (z + 1) % ERA_DAYS)
  {
  }

  /** Whatever starts on the first day and moves on a day at a time counts the calendar. */
  lemma {:induction false} Counting(f: (int, DayOfEra) -> Date, n: nat)
    requires f(719468 / ERA_DAYS, 719468 % ERA_DAYS) == Date(1970, 1, 1)
    requires forall era, doe: DayOfEra, era', doe': DayOfEra ::
               Follows(era, doe, era', doe') ==> f(era', doe') == Tomorrow(f(era, doe))
    ensures f((n + 719468) / ERA_DAYS, (n + 719468) % ERA_DAYS) == CalendarDay(n)
  {
    if n > 0 {
      Counting(f, n - 1);
      NextIsFollowing(n - 1 + 719468);
    }
  }

  /** The formula counts the calendar: day n + 1 is the successor of day n, across months, years,
      centuries and eras. */
  lemma CivilIsCalendar(n: nat)
    ensures CivilFromDays(n) == CalendarDay(n)
  {
    FirstDay();
    forall era, doe: DayOfEra, era', doe': DayOfEra | Follows(era, doe, era', doe')
      ensures EraDate(era', doe') == Tomorrow(EraDate(era, doe))
    {
      EraNext(era, doe, era', doe');
    }
    Counting(EraDate, n);
  }

  lemma FirstDay()
    ensures CivilFromDays(0) == Date(1970, 1, 1)
  {
    PlaceIs(719468 % ERA_DAYS, Place(3, 17, 1, 306));
  }

  lemma {:induction false} CalendarValid(n: nat)
    ensures ValidDate(CalendarDay(n)) && CalendarDay(n).year >= 1970
  {
    if n > 0 {
      CalendarValid(n - 1);
    }
  }

  /** `civil_utc` is the calendar date of the day, and a time of day that recomposes the seconds. */
  lemma CivilUtcIsCalendar(unix: nat)
    ensures var c := CivilUtc(unix);
            && c.date == CalendarDay(unix / 86400) && ValidDate(c.date)
            && c.hour < 24 && c.minute < 60 && c.second < 60
            && unix == unix / 86400 * 86400 + c.hour * 3600 + c.minute * 60 + c.second
  {
    CivilIsCalendar(unix / 86400);
    CalendarValid(unix / 86400);
    TimeRecomposes(unix % 86400);
  }

  lemma Mod60(b: nat, a: nat)
    ensures (b + 60 * a) % 60 == b % 60
  {
  }

  lemma TimeRecomposes(rem: nat)
    ensures rem == rem / 3600 * 3600 + rem % 3600 / 60 * 60 + rem % 60
  {
    var b := rem % 3600;
    assert rem == b + 60 * (60 * (rem / 3600));
    Mod60(b, 60 * (rem / 3600));
    assert b == b / 60 * 60 + b % 60;
  }
}
