/** The climate scheduler: clock times, editing an event through a draft, and copying a day. */
module Schedule {
  import opened Util
  import opened Text

  // ---- clock times ----

  /** `s.padStart(2, "0")` */
  function Pad(s: string): string {
    if |s| == 0 then "00" else if |s| == 1 then "0" + s else s
  }

  function MinutesToTime(mins: nat): string {
    Pad(Decimal(mins / 60)) + ":" + Pad(Decimal(mins % 60))
  }

  function SplitColon(s: string): (r: seq<string>)
    ensures |r| >= 1
  {
    if s == "" then [""]
    else
      var rest := SplitColon(s[1..]);
      if s[0] == ':' then [""] + rest else [[s[0]] + rest[0]] + rest[1..]
  }

  predicate Digits(s: string) { forall i :: 0 <= i < |s| ==> IsDigit(s[i]) }

  /** `None` stands for not-a-number. */
  function Parse(s: string): Option<nat> { if Digits(s) then Some(Number(s)) else None }

  function TimeToMinutes(t: string): Option<nat> {
    var parts := SplitColon(t);
    var h := Parse(parts[0]);
    var m := if |parts| > 1 then Parse(parts[1]) else Some(0);
    if h.Some? && m.Some? then Some(h.value * 60 + m.value) else None
  }

  lemma {:induction false} SplitDigits(s: string)
    requires Digits(s)
    ensures SplitColon(s) == [s]
  {
    if s != "" {
      SplitDigits(s[1..]);
      assert [s[0]] + s[1..] == s;
    }
  }

  lemma {:induction false} SplitTime(h: string, m: string)
    requires Digits(h) && Digits(m)
    ensures SplitColon(h + ":" + m) == [h, m]
  {
    var t := h + ":" + m;
    if h == "" {
      SplitDigits(m);
      assert t[1..] == m;
    } else {
      SplitTime(h[1..], m);
      assert t[1..] == h[1..] + ":" + m;
      assert [h[0]] + h[1..] == h;
    }
  }

  lemma PadNumber(n: nat)
    ensures Digits(Pad(Decimal(n))) && Number(Pad(Decimal(n))) == n
    ensures n < 100 <==> |Pad(Decimal(n))| == 2
  {
    var s := Decimal(n);
    NumberOfDecimal(n);
    if n < 10 {
      assert ("0" + s)[..1] == "0" && Number("0") == 0 by { assert "0"[..0] == ""; }
    } else if n < 100 {
      assert |Decimal(n / 10)| == 1;
    } else {
      assert |Decimal(n / 10)| >= 2;
    }
  }

  /** Printing and reading a time of day gives the minutes back, past midnight too. */
  lemma TimeBack(mins: nat)
    ensures TimeToMinutes(MinutesToTime(mins)) == Some(mins)
  {
    PadNumber(mins / 60);
    PadNumber(mins % 60);
    SplitTime(Pad(Decimal(mins / 60)), Pad(Decimal(mins % 60)));
  }

  predicate TwoDigits(s: string) { |s| == 2 && IsDigit(s[0]) && IsDigit(s[1]) }

  /** `HH:MM` with minutes below sixty. */
  predicate Clock(t: string) {
    |t| == 5 && TwoDigits(t[..2]) && t[2] == ':' && TwoDigits(t[3..]) && t[3] < '6'
  }

  lemma TwoDigitNumber(s: string)
    requires TwoDigits(s)
    ensures Number(s) == 10 * (s[0] as int - '0' as int) + (s[1] as int - '0' as int) && Pad(Decimal(Number(s))) == s
  {
    assert s[..1][..0] == "" && Number(s[..1]) == s[0] as int - '0' as int;
    var n := Number(s);
    assert n / 10 == s[0] as int - '0' as int && n % 10 == s[1] as int - '0' as int;
    if n < 10 {
      assert s == "0" + Decimal(n);
    } else {
      assert Decimal(n) == Decimal(n / 10) + [Digit(n % 10)];
    }
  }

  lemma ClockBack(t: string)
    requires Clock(t)
    ensures TimeToMinutes(t).Some? && MinutesToTime(TimeToMinutes(t).value) == t
  {
    var h, m := t[..2], t[3..];
    TwoDigitNumber(h);
    TwoDigitNumber(m);
    SplitTime(h, m);
    assert t == h + ":" + m;
    var mins := TimeToMinutes(t).value;
    assert mins == Number(h) * 60 + Number(m) && Number(m) < 60;
    assert mins / 60 == Number(h) && mins % 60 == Number(m);
  }

  lemma PrintedIsClock(mins: nat)
    requires |MinutesToTime(mins)| == 5
    ensures Clock(MinutesToTime(mins))
  {
    var t := MinutesToTime(mins);
    var h, m := Pad(Decimal(mins / 60)), Pad(Decimal(mins % 60));
    PadNumber(mins / 60);
    PadNumber(mins % 60);
    assert t[..2] == h && t[3..] == m && t[2] == ':';
    TwoDigitNumber(m);
  }

  /** A five-character text reads as a time that prints back to it exactly when it is a clock time. */
  lemma ClockBackIff(t: string)
    requires |t| == 5
    ensures TimeToMinutes(t).Some? && MinutesToTime(TimeToMinutes(t).value) == t <==> Clock(t)
  {
    if Clock(t) { ClockBack(t); }
    if TimeToMinutes(t).Some? && MinutesToTime(TimeToMinutes(t).value) == t { PrintedIsClock(TimeToMinutes(t).value); }
  }

  // ---- drafts ----

  type Day = d: nat | d < 7

  datatype Recurrence = Once | Daily | Weekly

  /** What is stored, and what is sent to be stored: an absent optional is `None`. */
  datatype Event = Event(
    id: Option<string>, deviceId: string, enabled: bool, recurrence: Recurrence,
    date: Option<string>, weekdays: Option<seq<Day>>, atMinutes: nat, targetC: real, mode: string,
    fanSpeed: Option<string>, caption: Option<string>)

  datatype Draft = Draft(
    id: Option<string>, recurrence: Recurrence, date: string, weekdays: seq<Day>, time: string,
    targetC: real, mode: string, fanSpeed: string, caption: string, enabled: bool)

  const Workdays: seq<Day> := [1, 2, 3, 4, 5]

  function DraftFromEvent(e: Event, today: string): Draft {
    Draft(e.id, e.recurrence, e.date.GetOr(today), e.weekdays.GetOr(Workdays), MinutesToTime(e.atMinutes),
          e.targetC, e.mode, e.fanSpeed.GetOr(""), e.caption.GetOr(""), e.enabled)
  }

  function NonEmpty(s: string): Option<string> { if s == "" then None else Some(s) }

  /** `None` when the time typed is none. */
  function DraftToInput(d: Draft, deviceId: string): Option<Event> {
    var at := TimeToMinutes(d.time);
    if at.None? then None
    else Some(Event(
      NonEmpty(d.id.GetOr("")), deviceId, d.enabled, d.recurrence,
      if d.recurrence == Once then Some(d.date) else None,
      if d.recurrence == Weekly then Some(d.weekdays) else None,
      at.value, d.targetC, d.mode, NonEmpty(d.fanSpeed), NonEmpty(Trim(d.caption))))
  }

  /** Each optional is there exactly when its recurrence calls for it, and none is blank. */
  predicate Normalised(e: Event) {
    && (e.recurrence == Once <==> e.date.Some?)
    && (e.recurrence == Weekly <==> e.weekdays.Some?)
    && e.id != Some("") && e.fanSpeed != Some("")
    && (e.caption.Some? ==> e.caption.value != "" && Trim(e.caption.value) == e.caption.value)
  }

  /** Except that an undated one-time event is filled in with today, or a weekly one with the workdays. */
  lemma DraftKeepsIff(e: Event, today: string)
    ensures DraftToInput(DraftFromEvent(e, today), e.deviceId) == Some(e) <==> Normalised(e)
  {
    TimeBack(e.atMinutes);
    assert Trim("") == "";
  }

  /** A pass through the editor fills in and leaves out just what the recurrence calls for, and keeps the rest. */
  lemma DraftFills(e: Event, today: string)
    ensures DraftToInput(DraftFromEvent(e, today), e.deviceId).Some?
    ensures var v := DraftToInput(DraftFromEvent(e, today), e.deviceId).value;
            && v.date == (if e.recurrence != Once then None else if e.date.Some? then e.date else Some(today))
            && v.weekdays == (if e.recurrence != Weekly then None
                              else if e.weekdays.Some? then e.weekdays else Some([1, 2, 3, 4, 5]))
            && v.caption == (if e.caption.Some? && Trim(e.caption.value) != "" then Some(Trim(e.caption.value)) else None)
            && v.fanSpeed == (if e.fanSpeed == Some("") then None else e.fanSpeed)
            && v.id == (if e.id == Some("") then None else e.id)
            && v == e.(date := v.date, weekdays := v.weekdays, caption := v.caption, fanSpeed := v.fanSpeed, id := v.id)
  {
    TimeBack(e.atMinutes);
    assert Trim("") == "";
  }

  /** One pass through the editor normalises, so a second one changes nothing. */
  lemma DraftNormalises(e: Event, today: string, tomorrow: string)
    ensures var sent := DraftToInput(DraftFromEvent(e, today), e.deviceId);
            && sent.Some? && Normalised(sent.value) && sent.value.atMinutes == e.atMinutes
            && DraftToInput(DraftFromEvent(sent.value, tomorrow), e.deviceId) == sent
  {
    TimeBack(e.atMinutes);
    var sent := DraftToInput(DraftFromEvent(e, today), e.deviceId).value;
    DraftKeepsIff(sent, tomorrow);
  }

  // ---- copying a day ----

  /** The order `sort()` uses by default: elements compared as text. */
  predicate TextLe(a: string, b: string) {
    a == "" || (b != "" && (a[0] < b[0] || (a[0] == b[0] && TextLe(a[1..], b[1..]))))
  }

  predicate Le(a: nat, b: nat) { TextLe(Decimal(a), Decimal(b)) }

  lemma DaysInOrder(a: Day, b: Day)
    ensures Le(a, b) <==> a <= b
  {
    assert Decimal(a) == [Digit(a)] && Decimal(b) == [Digit(b)];
    assert TextLe(Decimal(a)[1..], Decimal(b)[1..]);
  }

  function Insert(x: Day, s: seq<Day>): seq<Day> {
    if s == [] then [x] else if Le(x, s[0]) then [x] + s else [s[0]] + Insert(x, s[1..])
  }

  function Sort(s: seq<Day>): seq<Day> {
    if s == [] then [] else Insert(s[0], Sort(s[1..]))
  }

  /** `[...new Set(s)]` */
  function Dedup(s: seq<Day>): (r: seq<Day>)
    ensures Distinct(r) && forall x :: x in r <==> x in s
  {
    if s == [] then []
    else
      var n := |s| - 1;
      assert s == s[..n] + [s[n]];
      var before := Dedup(s[..n]);
      if s[n] in before then before else before + [s[n]]
  }

  ghost predicate Ascending(s: seq<Day>) {
    forall i, j :: 0 <= i < j < |s| ==> s[i] < s[j]
  }

  lemma AscendingCons(x: Day, s: seq<Day>)
    requires Ascending(s) && forall y :: y in s ==> x < y
    ensures Ascending([x] + s)
  {
    assert forall j :: 0 < j < |s| + 1 ==> ([x] + s)[j] in s;
  }

  lemma {:induction false} InsertKeeps(x: Day, s: seq<Day>)
    requires Ascending(s) && x !in s
    ensures Ascending(Insert(x, s)) && forall y :: y in Insert(x, s) <==> y == x || y in s
  {
    if s != [] {
      DaysInOrder(x, s[0]);
      if x > s[0] {
        InsertKeeps(x, s[1..]);
        assert forall y :: y in s <==> y == s[0] || y in s[1..];
        assert forall y :: y in s[1..] ==> s[0] < y;
        AscendingCons(s[0], Insert(x, s[1..]));
      } else {
        assert forall y :: y in s ==> x < y;
        AscendingCons(x, s);
      }
    }
  }

  lemma {:induction false} SortKeeps(s: seq<Day>)
    requires Distinct(s)
    ensures Ascending(Sort(s)) && forall x :: x in Sort(s) <==> x in s
  {
    if s != [] {
      SortKeeps(s[1..]);
      assert s[0] !in s[1..];
      InsertKeeps(s[0], Sort(s[1..]));
    }
  }

  /** There is one way to list a set of days in order. */
  lemma {:induction false} AscendingUnique(a: seq<Day>, b: seq<Day>)
    requires Ascending(a) && Ascending(b)
    requires forall x :: x in a <==> x in b
    ensures a == b
  {
    assert a != [] ==> a[0] in a;
    assert b != [] ==> b[0] in b;
    if a != [] && b != [] {
      assert forall x :: x in a[1..] <==> x in a && x != a[0];
      assert forall x :: x in b[1..] <==> x in b && x != b[0];
      assert a[0] == b[0];
      AscendingUnique(a[1..], b[1..]);
    }
  }

  function WithDays(days: seq<Day>, more: seq<Day>): (r: seq<Day>)
    ensures Ascending(r) && forall d :: d in r <==> d in days || d in more
  {
    SortKeeps(Dedup(days + more));
    Sort(Dedup(days + more))
  }

  predicate Matches(e: Event, deviceId: string, from: Day) {
    e.deviceId == deviceId && e.recurrence == Weekly && from in e.weekdays.GetOr([])
  }

  function CopyInto(e: Event, deviceId: string, from: Day, to: seq<Day>): Event {
    if Matches(e, deviceId, from) then e.(weekdays := Some(WithDays(e.weekdays.value, to))) else e
  }

  function CopyDay(events: seq<Event>, deviceId: string, from: Day, to: seq<Day>): seq<Event> {
    if to == [] then events
    else seq(|events|, i requires 0 <= i < |events| => CopyInto(events[i], deviceId, from, to))
  }

  /** The days of the week on which a weekly event fires. */
  predicate FiresOn(e: Event, d: Day) {
    e.recurrence == Weekly && d in e.weekdays.GetOr([])
  }

  /** After copying, an event fires on its old days and, if it was one of the copied day's, on the targets. */
  lemma CopyDayFires(events: seq<Event>, deviceId: string, from: Day, to: seq<Day>, i: nat, d: Day)
    requires i < |events|
    ensures var now := CopyDay(events, deviceId, from, to);
            && |now| == |events|
            && (FiresOn(now[i], d) <==>
                  FiresOn(events[i], d) || (d in to && events[i].deviceId == deviceId && FiresOn(events[i], from)))
            && now[i] == events[i].(weekdays := now[i].weekdays)
            && (!Matches(events[i], deviceId, from) ==> now[i] == events[i])
            && (Matches(events[i], deviceId, from) && to != [] ==> Ascending(now[i].weekdays.value))
  {
  }

  /** Copying the same day again changes nothing. */
  lemma CopyDayIdempotent(events: seq<Event>, deviceId: string, from: Day, to: seq<Day>)
    ensures CopyDay(CopyDay(events, deviceId, from, to), deviceId, from, to) == CopyDay(events, deviceId, from, to)
  {
    forall i | 0 <= i < |events|
      ensures CopyInto(CopyInto(events[i], deviceId, from, to), deviceId, from, to) == CopyInto(events[i], deviceId, from, to)
    {
      if Matches(events[i], deviceId, from) {
        var days := WithDays(events[i].weekdays.value, to);
        AscendingUnique(WithDays(days, to), days);
      }
    }
  }

  /** Two copies of the same day commute, and are one copy to both sets of targets. */
  lemma CopyDaysMerge(events: seq<Event>, deviceId: string, from: Day, a: seq<Day>, b: seq<Day>)
    requires a != [] && b != []
    ensures CopyDay(CopyDay(events, deviceId, from, a), deviceId, from, b) == CopyDay(events, deviceId, from, a + b)
    ensures CopyDay(events, deviceId, from, a + b) == CopyDay(events, deviceId, from, b + a)
  {
    forall e: Event
      ensures CopyInto(CopyInto(e, deviceId, from, a), deviceId, from, b) == CopyInto(e, deviceId, from, a + b)
      ensures CopyInto(e, deviceId, from, a + b) == CopyInto(e, deviceId, from, b + a)
    {
      if Matches(e, deviceId, from) {
        var w := e.weekdays.value;
        AscendingUnique(WithDays(WithDays(w, a), b), WithDays(w, a + b));
        AscendingUnique(WithDays(w, a + b), WithDays(w, b + a));
      }
    }
  }

  // ---- the weekday buttons ----

  function Without(s: seq<Day>, d: Day): seq<Day> {
    if s == [] then [] else (if s[0] == d then [] else [s[0]]) + Without(s[1..], d)
  }

  function ToggleWeekday(days: seq<Day>, d: Day): seq<Day> {
    if d in days then Without(days, d) else Sort(days + [d])
  }

  lemma {:induction false} WithoutHas(s: seq<Day>, d: Day)
    ensures forall x :: x in Without(s, d) <==> x in s && x != d
  {
    if s != [] {
      WithoutHas(s[1..], d);
      assert forall x :: x in s <==> x == s[0] || x in s[1..];
    }
  }

  lemma {:induction false} WithoutKeeps(s: seq<Day>, d: Day)
    requires Ascending(s)
    ensures Ascending(Without(s, d))
  {
    if s != [] {
      WithoutKeeps(s[1..], d);
      WithoutHas(s[1..], d);
      assert forall x :: x in s[1..] ==> s[0] < x;
      if s[0] != d { AscendingCons(s[0], Without(s[1..], d)); }
    }
  }

  /** Pressing a weekday flips just that day, keeps the days in order, and pressing it again undoes it. */
  lemma ToggleFlips(days: seq<Day>, d: Day)
    requires Ascending(days)
    ensures Ascending(ToggleWeekday(days, d))
    ensures forall x :: x in ToggleWeekday(days, d) <==> if x == d then d !in days else x in days
    ensures ToggleWeekday(ToggleWeekday(days, d), d) == days
  {
    var now := ToggleWeekday(days, d);
    if d in days { WithoutKeeps(days, d); WithoutHas(days, d); } else { SortKeeps(days + [d]); }
    if d in now { WithoutKeeps(now, d); WithoutHas(now, d); } else { SortKeeps(now + [d]); }
    AscendingUnique(ToggleWeekday(now, d), days);
  }
}
