/**
 The rotating per-day counter (pkg/util/metric/date_counter.go). A date is
 a calendar day together with the local midnight the code computes first; amounts are
 64-bit integers.
 */
module DateCounter {

  const TWO_63 := 0x8000_0000_0000_0000
  const TWO_64 := 0x1_0000_0000_0000_0000

  /** Two's complement wrap-around of a 64-bit integer. */
  function Wrap(x: int): (w: int)
    ensures -TWO_63 <= w < TWO_63
    ensures -TWO_63 <= x < TWO_63 ==> w == x
  {
    (x + TWO_63) % TWO_64 - TWO_63
  }

  lemma WrapAdd(a: int, b: int)
    ensures Wrap(Wrap(a) + b) == Wrap(a + b)
  {
    assert (Wrap(a) + b + TWO_63) % TWO_64 == (a + b + TWO_63) % TWO_64;
  }

  const DAY := 86_400

  /** A calendar day, by its number, and when it starts, in seconds. */
  datatype Date = Date(day: int, midnight: int)

  /** int(now.Sub(last).Hours() / 24): whole days of 24 hours, truncated toward zero. */
  function DaysBetween(last: Date, now: Date): int
  {
    if now.midnight >= last.midnight then (now.midnight - last.midnight) / DAY
    else -((last.midnight - now.midnight) / DAY)
  }

  /** An amount recorded on a calendar day. */
  datatype Entry = Entry(day: int, amount: int)

  ghost function Net(history: seq<Entry>, day: int): int
  {
    if history == [] then 0
    else
      var n := |history| - 1;
      Net(history[..n], day) + if history[n].day == day then history[n].amount else 0
  }

  lemma {:induction false} NetOfLater(history: seq<Entry>, day: int)
    requires forall i :: 0 <= i < |history| ==> history[i].day < day
    ensures Net(history, day) == 0
  {
    if history != [] {
      NetOfLater(history[..|history| - 1], day);
    }
  }

  lemma NetSnoc(history: seq<Entry>, e: Entry, day: int)
    ensures Net(history + [e], day) == Net(history, day) + if e.day == day then e.amount else 0
  {
    assert (history + [e])[..|history|] == history;
  }

  lemma NetOfOne(e: Entry, day: int)
    ensures Net([e], day) == if e.day == day then e.amount else 0
  {
    assert [e] == [] + [e];
    NetSnoc([], e, day);
  }

  /** Slot i holds the net amount recorded exactly i calendar days before today. */
  ghost predicate SlotsRight(counts: seq<int>, today: int, history: seq<Entry>)
  {
    forall i :: 0 <= i < |counts| ==> counts[i] == Wrap(Net(history, today - i))
  }

  /** The slots are right, and nothing is recorded for a later day. */
  ghost predicate Tracks(counts: seq<int>, today: int, history: seq<Entry>)
  {
    && SlotsRight(counts, today, history)
    && (forall i :: 0 <= i < |history| ==> history[i].day <= today)
  }

  /** What rotate leaves in the slots. */
  function Rotated(counts: seq<int>, days: int): seq<int>
  {
    if days <= 0 then counts
    else seq(|counts|, i requires 0 <= i < |counts| => if i < days then 0 else counts[i - days])
  }

  lemma RotateTracks(counts: seq<int>, today: int, history: seq<Entry>, days: nat)
    requires Tracks(counts, today, history)
    ensures Tracks(Rotated(counts, days), today + days, history)
  {
    var counts', today' := Rotated(counts, days), today + days;
    forall i | 0 <= i < |counts'| ensures counts'[i] == Wrap(Net(history, today' - i)) {
      if i < days {
        NetOfLater(history, today' - i);
      } else {
        assert today' - i == today - (i - days);
      }
    }
  }

  lemma RecordTracks(counts: seq<int>, today: int, history: seq<Entry>, amount: int)
    requires counts != [] && Tracks(counts, today, history)
    ensures Tracks(counts[0 := Wrap(counts[0] + amount)], today, history + [Entry(today, amount)])
  {
    var e := Entry(today, amount);
    var counts' := counts[0 := Wrap(counts[0] + amount)];
    forall i | 0 <= i < |counts'| ensures counts'[i] == Wrap(Net(history + [e], today - i)) {
      NetSnoc(history, e, today - i);
      if i == 0 { WrapAdd(Net(history, today), amount); }
    }
  }

  /**
   The code counts as many days as the calendar, or both count so many that nothing is kept; on one
   and the same day it only must not count any.
   */
  predicate RightStep(reserveDays: int, last: Date, now: Date)
  {
    var passed := DaysBetween(last, now);
    || (now.day >= last.day && (passed == now.day - last.day || (passed >= reserveDays && now.day - last.day >= reserveDays)))
    || (now.day == last.day && passed <= 0)
  }

  lemma RightStepTracks(counts: seq<int>, last: Date, history: seq<Entry>, now: Date)
    requires Tracks(counts, last.day, history) && RightStep(|counts|, last, now)
    ensures Tracks(Rotated(counts, DaysBetween(last, now)), now.day, history)
  {
    var passed := DaysBetween(last, now);
    if passed == now.day - last.day {
      RotateTracks(counts, last.day, history, passed);
    } else if passed > 0 {
      var moved := Rotated(counts, passed);
      forall i | 0 <= i < |moved| ensures moved[i] == Wrap(Net(history, now.day - i)) {
        NetOfLater(history, now.day - i);
      }
    }
  }

  /** One unit, recorded on the last day, is enough to see a wrong step. */
  lemma WrongStep(counts: seq<int>, last: Date, now: Date)
    requires |counts| > 0 && counts[0] == 1 && (forall i :: 0 < i < |counts| ==> counts[i] == 0)
    requires !RightStep(|counts|, last, now)
    ensures !Tracks(Rotated(counts, DaysBetween(last, now)), now.day, [Entry(last.day, 1)])
  {
    var e := Entry(last.day, 1);
    var passed, between := DaysBetween(last, now), now.day - last.day;
    var moved := Rotated(counts, passed);
    if between < 0 {
      assert [e][0].day > now.day;
    } else {
      var i := if passed <= 0 then 0 else if passed < |counts| then passed else between;
      NetOfOne(e, now.day - i);
      assert moved[i] != Wrap(Net([e], now.day - i));
    }
  }

  /** Zero everywhere but in the first slot: what one unit recorded today looks like. */
  lemma OneUnit(reserveDays: int, today: int) returns (counts: seq<int>)
    requires reserveDays > 0
    ensures |counts| == reserveDays && counts[0] == 1 && forall i :: 0 < i < |counts| ==> counts[i] == 0
    ensures Tracks(counts, today, [Entry(today, 1)])
  {
    counts := seq(reserveDays, i => if i == 0 then 1 else 0);
    forall i | 0 <= i < |counts| ensures counts[i] == Wrap(Net([Entry(today, 1)], today - i)) {
      NetOfOne(Entry(today, 1), today - i);
    }
  }

  ghost predicate StepAlwaysRight(reserveDays: int, last: Date, now: Date)
  {
    forall counts: seq<int>, history :: |counts| == reserveDays && Tracks(counts, last.day, history) ==>
      Tracks(Rotated(counts, DaysBetween(last, now)), now.day, history)
  }

  /** Rotating keeps the slots right, for every history, if and only if the step is a right one. */
  lemma RotateRightIff(reserveDays: int, last: Date, now: Date)
    requires reserveDays > 0
    ensures StepAlwaysRight(reserveDays, last, now) <==> RightStep(reserveDays, last, now)
  {
    if RightStep(reserveDays, last, now) {
      forall counts: seq<int>, history | |counts| == reserveDays && Tracks(counts, last.day, history)
        ensures Tracks(Rotated(counts, DaysBetween(last, now)), now.day, history)
      {
        RightStepTracks(counts, last, history, now);
      }
    } else {
      var counts := OneUnit(reserveDays, last.day);
      WrongStep(counts, last, now);
    }
  }

  /**
   Where clocks change, midnights are not whole days apart. A step to a later date, off by less
   than a day, is right if and only if the time was not short, or nothing is kept that long.
   */
  lemma ClockChange(reserveDays: int, last: Date, now: Date)
    requires reserveDays > 0 && now.day > last.day
    requires -86_400 < now.midnight - last.midnight - 86_400 * (now.day - last.day) < 86_400
    ensures RightStep(reserveDays, last, now) <==>
              now.midnight - last.midnight >= 86_400 * (now.day - last.day) || now.day - last.day > reserveDays
  {
    var days := now.day - last.day;
    var shift := now.midnight - last.midnight - DAY * days;
    if shift >= 0 {
      assert DAY * days + shift == now.midnight - last.midnight;
      assert DaysBetween(last, now) == days;
    } else {
      assert DAY * (days - 1) + (DAY + shift) == now.midnight - last.midnight;
      assert DaysBetween(last, now) == days - 1;
    }
  }

  /** A snapshot is right for every history exactly when it is taken on the day of the last operation. */
  lemma SnapshotFaithfulIff(reserveDays: int, last: Date, now: Date)
    requires reserveDays > 0
    ensures now.day == last.day <==>
            forall counts: seq<int>, history :: |counts| == reserveDays && Tracks(counts, last.day, history) ==>
              Tracks(counts, now.day, history)
  {
    if now.day != last.day {
      var counts := OneUnit(reserveDays, last.day);
      NetOfOne(Entry(last.day, 1), now.day - 0);
      assert [Entry(last.day, 1)][0].day == last.day;
      assert !Tracks(counts, now.day, [Entry(last.day, 1)]);
    }
  }

  class StandardDateCounter {
    const reserveDays: int
    var counts: seq<int>
    var lastUpdate: Date
    ghost var history: seq<Entry>  // everything recorded since the last Clear

    ghost predicate Full()
      reads this
    {
      |counts| == reserveDays && reserveDays > 0
    }

    /** The slots are right: each holds the net amount of its day. */
    ghost predicate Valid()
      reads this
    {
      Full() && Tracks(counts, lastUpdate.day, history)
    }

    /** NewDateCounter: at least one day is kept. */
    constructor (reserveDays: int, now: Date)
      ensures Valid() && history == [] && lastUpdate == now
      ensures this.reserveDays == Kept(reserveDays) && counts == seq(Kept(reserveDays), _ => 0)
    {
      var days := if reserveDays <= 0 then 1 else reserveDays;
      this.reserveDays := days;
      counts := seq(days, _ => 0);
      lastUpdate := now;
      history := [];
    }

    /** rotate, on any clock: the slots move by the whole days the code computes. */
    method Rotate(now: Date)
      requires Full()
      modifies this`counts, this`lastUpdate
      ensures Full() && counts == Rotated(old(counts), DaysBetween(old(lastUpdate), now)) && lastUpdate == now
      ensures old(Valid()) && RightStep(reserveDays, old(lastUpdate), now) ==> Valid()
    {
      if Valid() && RightStep(reserveDays, lastUpdate, now) {
        RightStepTracks(counts, lastUpdate, history, now);
      }
      var days := DaysBetween(lastUpdate, now);
      lastUpdate := now;
      if days <= 0 {
        return;
      } else if days >= reserveDays {
        counts := seq(reserveDays, _ => 0);
        return;
      }
      var newCounts := seq(reserveDays, _ => 0);
      for i := days to reserveDays
        invariant |newCounts| == reserveDays
        invariant forall j :: 0 <= j < days ==> newCounts[j] == 0
        invariant forall j :: days <= j < i ==> newCounts[j] == counts[j - days]
      {
        newCounts := newCounts[i := counts[i - days]];
      }
      assert newCounts == Rotated(counts, days);
      counts := newCounts;
    }

    method Inc(amount: int, now: Date)
      requires Full()
      modifies this
      ensures Full() && lastUpdate == now && history == old(history) + [Entry(now.day, amount)]
      ensures counts == Booked(old(counts), DaysBetween(old(lastUpdate), now), amount)
      ensures old(Valid()) && RightStep(reserveDays, old(lastUpdate), now) ==> Valid()
    {
      Rotate(now);
      if Valid() { RecordTracks(counts, lastUpdate.day, history, amount); }
      counts := counts[0 := Wrap(counts[0] + amount)];
      history := history + [Entry(now.day, amount)];
    }

    method Dec(amount: int, now: Date)
      requires Full()
      modifies this
      ensures Full() && lastUpdate == now && history == old(history) + [Entry(now.day, -amount)]
      ensures counts == Booked(old(counts), DaysBetween(old(lastUpdate), now), -amount)
      ensures old(Valid()) && RightStep(reserveDays, old(lastUpdate), now) ==> Valid()
    {
      Rotate(now);
      if Valid() { RecordTracks(counts, lastUpdate.day, history, -amount); }
      counts := counts[0 := Wrap(counts[0] - amount)];
      history := history + [Entry(now.day, -amount)];
    }

    method TodayCount(now: Date) returns (count: int)
      requires Full()
      modifies this`counts, this`lastUpdate
      ensures Full() && counts == Rotated(old(counts), DaysBetween(old(lastUpdate), now)) && lastUpdate == now
      ensures count == counts[0]
      ensures old(Valid()) && RightStep(reserveDays, old(lastUpdate), now) ==> Valid() && count == Wrap(Net(history, now.day))
    {
      Rotate(now);
      assert Valid() ==> counts[0] == Wrap(Net(history, now.day - 0));
      return counts[0];
    }

    method GetLastDaysCount(lastDays: nat, now: Date) returns (result: seq<int>)
      requires Full()
      modifies this`counts, this`lastUpdate
      ensures Full() && counts == Rotated(old(counts), DaysBetween(old(lastUpdate), now)) && lastUpdate == now
      ensures result == counts[..if lastDays > reserveDays then reserveDays else lastDays]
      ensures old(Valid()) && RightStep(reserveDays, old(lastUpdate), now) ==> Valid() && SlotsRight(result, now.day, history)
    {
      var n := if lastDays > reserveDays then reserveDays else lastDays;
      Rotate(now);
      result := [];
      for i := 0 to n
        invariant result == counts[..i]
      {
        result := result + [counts[i]];
      }
    }

    /** Snapshot copies the slots as they stand but dates the copy today, without rotating. */
    method Snapshot(now: Date) returns (tmp: StandardDateCounter)
      requires Full()
      ensures fresh(tmp) && tmp.reserveDays == reserveDays
      ensures tmp.counts == counts && tmp.lastUpdate == now
      ensures tmp.history == history && (Valid() && now.day == lastUpdate.day ==> tmp.Valid())
    {
      tmp := new StandardDateCounter(reserveDays, now);
      tmp.counts := counts;
      tmp.history := history;
    }

    method Clear()
      requires Full()
      modifies this
      ensures Valid() && history == [] && lastUpdate == old(lastUpdate)
    {
      var cleared := counts;
      for i := 0 to reserveDays
        invariant |cleared| == reserveDays
        invariant forall j :: 0 <= j < i ==> cleared[j] == 0
      {
        cleared := cleared[i := 0];
      }
      counts := cleared;
      history := [];
    }
  }

  // ----- whole runs, on any clock

  /** One operation on the counter on a given date. */
  datatype Op = Record(date: Date, amount: int) | Read(date: Date)

  function Kept(reserveDays: int): (n: nat)
    ensures n > 0
  {
    if reserveDays <= 0 then 1 else reserveDays
  }

  /** The slots after moving them and adding to the first. */
  function Booked(counts: seq<int>, days: int, amount: int): seq<int>
    requires counts != []
  {
    Rotated(counts, days)[0 := Wrap(Rotated(counts, days)[0] + amount)]
  }

  function Last(start: Date, ops: seq<Op>): Date
  {
    if ops == [] then start else ops[|ops| - 1].date
  }

  /** What the code leaves in its slots. */
  ghost function Slots(n: nat, start: Date, ops: seq<Op>): (counts: seq<int>)
    requires n > 0
    ensures |counts| == n
  {
    if ops == [] then seq(n, _ => 0)
    else
      var before, op := ops[..|ops| - 1], ops[|ops| - 1];
      var passed := DaysBetween(Last(start, before), op.date);
      if op.Record? then Booked(Slots(n, start, before), passed, op.amount) else Rotated(Slots(n, start, before), passed)
  }

  /** What was recorded, by calendar day. */
  ghost function History(ops: seq<Op>): seq<Entry>
  {
    if ops == [] then []
    else
      var before, op := ops[..|ops| - 1], ops[|ops| - 1];
      if op.Record? then History(before) + [Entry(op.date.day, op.amount)] else History(before)
  }

  function Forward(passed: int): nat
  {
    if passed <= 0 then 0 else passed
  }

  lemma MovedTracks(counts: seq<int>, today: int, history: seq<Entry>, passed: int)
    requires Tracks(counts, today, history)
    ensures Tracks(Rotated(counts, passed), today + Forward(passed), history)
  {
    RotateTracks(counts, today, history, Forward(passed));
  }

  lemma BookedTracks(counts: seq<int>, today: int, history: seq<Entry>, passed: int, amount: int)
    requires counts != [] && Tracks(counts, today, history)
    ensures Tracks(Booked(counts, passed, amount), today + Forward(passed), history + [Entry(today + Forward(passed), amount)])
  {
    MovedTracks(counts, today, history, passed);
    RecordTracks(Rotated(counts, passed), today + Forward(passed), history, amount);
  }

  /** The days the code has counted, up to and with the last operation. */
  ghost function Counted(start: Date, ops: seq<Op>): nat
  {
    if ops == [] then 0
    else
      var before, op := ops[..|ops| - 1], ops[|ops| - 1];
      Counted(start, before) + Forward(DaysBetween(Last(start, before), op.date))
  }

  /** The same by the days the code has counted. */
  ghost function OwnHistory(start: Date, ops: seq<Op>): seq<Entry>
  {
    if ops == [] then []
    else
      var before, op := ops[..|ops| - 1], ops[|ops| - 1];
      if op.Record? then OwnHistory(start, before) + [Entry(Counted(start, ops), op.amount)] else OwnHistory(start, before)
  }

  /** On any clock the slots are right by the days the code has counted. */
  lemma {:induction false} RightByOwnDays(n: nat, start: Date, ops: seq<Op>)
    requires n > 0
    ensures Tracks(Slots(n, start, ops), Counted(start, ops), OwnHistory(start, ops))
  {
    if ops != [] {
      RightByOwnDays(n, start, ops[..|ops| - 1]);
      OneMoreIsRight(n, start, ops);
    }
  }

  lemma OneMoreIsRight(n: nat, start: Date, ops: seq<Op>)
    requires n > 0 && ops != []
    requires var before := ops[..|ops| - 1]; Tracks(Slots(n, start, before), Counted(start, before), OwnHistory(start, before))
    ensures Tracks(Slots(n, start, ops), Counted(start, ops), OwnHistory(start, ops))
  {
    var before, op := ops[..|ops| - 1], ops[|ops| - 1];
    var counts, today, history := Slots(n, start, before), Counted(start, before), OwnHistory(start, before);
    var passed := DaysBetween(Last(start, before), op.date);
    MovedTracks(counts, today, history, passed);
    if op.Record? {
      BookedTracks(counts, today, history, passed, op.amount);
    }
  }

  /** Of the days from operation j to the last, code and calendar count the same number, or neither count is kept. */
  ghost predicate InPlace(n: nat, start: Date, ops: seq<Op>, j: nat)
    requires j < |ops|
  {
    var code := Counted(start, ops) - Counted(start, ops[..j + 1]);
    var calendar := Last(start, ops).day - ops[j].date.day;
    code == calendar || (code >= n && (calendar >= n || calendar < 0))
  }

  ghost predicate AllInPlace(n: nat, start: Date, ops: seq<Op>)
  {
    forall j :: 0 <= j < |ops| && ops[j].Record? ==> InPlace(n, start, ops, j)
  }

  /** The same operations on the same dates, with any amounts. */
  ghost predicate SameSteps(ops: seq<Op>, other: seq<Op>)
  {
    |other| == |ops| && forall j :: 0 <= j < |ops| ==> SameStep(ops[j], other[j])
  }

  predicate SameStep(a: Op, b: Op)
  {
    a.date == b.date && a.Record? == b.Record?
  }

  ghost predicate RightForAllAmounts(n: nat, start: Date, ops: seq<Op>)
    requires n > 0
  {
    forall other :: SameSteps(ops, other) ==> SlotsRight(Slots(n, start, other), Last(start, other).day, History(other))
  }

  lemma {:induction false} CountedGrows(start: Date, ops: seq<Op>, j: nat)
    requires j <= |ops|
    ensures Counted(start, ops[..j]) <= Counted(start, ops)
  {
    if j < |ops| {
      CountedGrows(start, ops[..|ops| - 1], j);
      assert ops[..|ops| - 1][..j] == ops[..j];
    } else {
      assert ops[..j] == ops;
    }
  }

  lemma {:induction false} CountedByDates(start: Date, ops: seq<Op>, other: seq<Op>)
    requires SameSteps(ops, other)
    ensures Counted(start, ops) == Counted(start, other) && Last(start, ops) == Last(start, other)
  {
    if ops != [] {
      assert SameStep(ops[|ops| - 1], other[|ops| - 1]);
      PrefixSameSteps(ops, other, |ops| - 1);
      CountedByDates(start, ops[..|ops| - 1], other[..|ops| - 1]);
    }
  }

  lemma PrefixSameSteps(ops: seq<Op>, other: seq<Op>, j: nat)
    requires SameSteps(ops, other) && j <= |ops|
    ensures SameSteps(ops[..j], other[..j])
  {
    forall m | 0 <= m < j ensures SameStep(ops[..j][m], other[..j][m]) {
      assert SameStep(ops[m], other[m]);
    }
  }

  lemma InPlaceByDates(n: nat, start: Date, ops: seq<Op>, other: seq<Op>, j: nat)
    requires SameSteps(ops, other) && j < |ops|
    ensures InPlace(n, start, ops, j) <==> InPlace(n, start, other, j)
  {
    assert SameStep(ops[j], other[j]);
    CountedByDates(start, ops, other);
    PrefixSameSteps(ops, other, j + 1);
    CountedByDates(start, ops[..j + 1], other[..j + 1]);
  }

  // an amount counts for a day by the code's count exactly if it does by the calendar

  ghost predicate Agree(start: Date, ops: seq<Op>, own: int, day: int)
  {
    forall j :: 0 <= j < |ops| && ops[j].Record? ==> (OwnDay(start, ops, j) == own <==> ops[j].date.day == day)
  }

  ghost function OwnDay(start: Date, ops: seq<Op>, j: nat): nat
    requires j < |ops|
  {
    Counted(start, ops[..j + 1])
  }

  lemma OwnDayOfPrefix(start: Date, ops: seq<Op>, j: nat)
    requires j < |ops| - 1
    ensures OwnDay(start, ops[..|ops| - 1], j) == OwnDay(start, ops, j)
  {
    assert ops[..|ops| - 1][..j + 1] == ops[..j + 1];
  }

  lemma SameNetSnoc(h: seq<Entry>, e: Entry, own: int, history: seq<Entry>, f: Entry, day: int)
    requires Net(h, own) == Net(history, day) && e.amount == f.amount && (e.day == own <==> f.day == day)
    ensures Net(h + [e], own) == Net(history + [f], day)
  {
    NetSnoc(h, e, own);
    NetSnoc(history, f, day);
  }

  lemma {:induction false} SameNet(start: Date, ops: seq<Op>, own: int, day: int)
    requires Agree(start, ops, own, day)
    ensures Net(OwnHistory(start, ops), own) == Net(History(ops), day)
  {
    if ops != [] {
      var last := |ops| - 1;
      var before, op := ops[..last], ops[last];
      forall j | 0 <= j < |before| && before[j].Record?
        ensures OwnDay(start, before, j) == own <==> before[j].date.day == day
      {
        OwnDayOfPrefix(start, ops, j);
        assert ops[j].Record?;
      }
      SameNet(start, before, own, day);
      if op.Record? {
        assert ops[..last + 1] == ops && OwnDay(start, ops, last) == Counted(start, ops);
        SameNetSnoc(OwnHistory(start, before), Entry(Counted(start, ops), op.amount), own,
                    History(before), Entry(op.date.day, op.amount), day);
      }
    }
  }

  lemma InPlaceAgrees(n: nat, start: Date, ops: seq<Op>, i: nat)
    requires AllInPlace(n, start, ops) && i < n
    ensures Agree(start, ops, Counted(start, ops) - i, Last(start, ops).day - i)
  {
    forall j | 0 <= j < |ops| && ops[j].Record?
      ensures OwnDay(start, ops, j) == Counted(start, ops) - i <==> ops[j].date.day == Last(start, ops).day - i
    {
      assert InPlace(n, start, ops, j);
    }
  }

  ghost predicate NetsAgree(h: seq<Entry>, own: int, history: seq<Entry>, day: int, i: int)
  {
    Net(h, own - i) == Net(history, day - i)
  }

  lemma SlotsAgree(counts: seq<int>, h: seq<Entry>, own: int, history: seq<Entry>, day: int)
    requires SlotsRight(counts, own, h) && forall i :: 0 <= i < |counts| ==> NetsAgree(h, own, history, day, i)
    ensures SlotsRight(counts, day, history)
  {
    forall i | 0 <= i < |counts| ensures counts[i] == Wrap(Net(history, day - i)) {
      assert NetsAgree(h, own, history, day, i);
    }
  }

  lemma InPlaceIsRight(n: nat, start: Date, ops: seq<Op>)
    requires n > 0 && AllInPlace(n, start, ops)
    ensures SlotsRight(Slots(n, start, ops), Last(start, ops).day, History(ops))
  {
    var own, day := Counted(start, ops), Last(start, ops).day;
    assert SlotsRight(Slots(n, start, ops), own, OwnHistory(start, ops)) by { RightByOwnDays(n, start, ops); }
    forall i | 0 <= i < n ensures NetsAgree(OwnHistory(start, ops), own, History(ops), day, i) {
      InPlaceAgrees(n, start, ops, i);
      SameNet(start, ops, own - i, day - i);
    }
    SlotsAgree(Slots(n, start, ops), OwnHistory(start, ops), own, History(ops), day);
  }

  // one unit out of place

  ghost predicate ZeroBut(ops: seq<Op>, j: nat)
  {
    forall m :: 0 <= m < |ops| && m != j && ops[m].Record? ==> ops[m].amount == 0
  }

  /** Whatever else is recorded is zero. */
  lemma {:induction false} OnlyOne(start: Date, ops: seq<Op>, j: nat, own: int, day: int)
    requires ZeroBut(ops, j) && (j < |ops| ==> ops[j].Record? && ops[j].amount == 1)
    ensures Net(OwnHistory(start, ops), own) == if j < |ops| && OwnDay(start, ops, j) == own then 1 else 0
    ensures Net(History(ops), day) == if j < |ops| && ops[j].date.day == day then 1 else 0
  {
    if ops != [] {
      var last := |ops| - 1;
      var before, op := ops[..last], ops[last];
      OnlyOne(start, before, j, own, day);
      if op.Record? {
        NetSnoc(OwnHistory(start, before), Entry(Counted(start, ops), op.amount), own);
        NetSnoc(History(before), Entry(op.date.day, op.amount), day);
      }
      if j < last { OwnDayOfPrefix(start, ops, j); } else { assert ops[..last + 1] == ops; }
    }
  }

  ghost function JustOne(ops: seq<Op>, j: nat): (other: seq<Op>)
    ensures SameSteps(ops, other)
    ensures ZeroBut(other, j) && (j < |ops| && ops[j].Record? ==> other[j].amount == 1)
  {
    seq(|ops|, m requires 0 <= m < |ops| =>
      if ops[m].Read? then ops[m] else Record(ops[m].date, if m == j then 1 else 0))
  }

  lemma SlotDiffers(counts: seq<int>, h: seq<Entry>, own: int, history: seq<Entry>, day: int, i: nat)
    requires SlotsRight(counts, own, h) && i < |counts|
    requires Net(h, own - i) + Net(history, day - i) == 1 && 0 <= Net(h, own - i) <= 1
    ensures !SlotsRight(counts, day, history)
  {
    assert counts[i] == Wrap(Net(h, own - i)) != Wrap(Net(history, day - i));
  }

  /** A slot for which code and calendar disagree about operation j. */
  lemma DisputedSlot(n: nat, start: Date, ops: seq<Op>, j: nat) returns (i: nat)
    requires n > 0 && j < |ops| && !InPlace(n, start, ops, j)
    ensures i < n
    ensures (OwnDay(start, ops, j) == Counted(start, ops) - i) != (ops[j].date.day == Last(start, ops).day - i)
  {
    CountedGrows(start, ops, j + 1);
    var code := Counted(start, ops) - OwnDay(start, ops, j);
    i := if code < n then code else Last(start, ops).day - ops[j].date.day;
  }

  lemma NetsDiffer(start: Date, ops: seq<Op>, j: nat, own: int, day: int)
    requires j < |ops| && ops[j].Record? && ops[j].amount == 1 && ZeroBut(ops, j)
    requires (OwnDay(start, ops, j) == own) != (ops[j].date.day == day)
    ensures 0 <= Net(OwnHistory(start, ops), own) <= 1
    ensures Net(OwnHistory(start, ops), own) + Net(History(ops), day) == 1
  {
    OnlyOne(start, ops, j, own, day);
  }

  lemma OutOfPlaceIsWrong(n: nat, start: Date, ops: seq<Op>, j: nat)
    requires n > 0 && j < |ops| && ops[j].Record? && ops[j].amount == 1 && ZeroBut(ops, j)
    requires !InPlace(n, start, ops, j)
    ensures !SlotsRight(Slots(n, start, ops), Last(start, ops).day, History(ops))
  {
    var own: int, day: int := Counted(start, ops), Last(start, ops).day;
    var i := DisputedSlot(n, start, ops, j);
    NetsDiffer(start, ops, j, own - i, day - i);
    assert SlotsRight(Slots(n, start, ops), own, OwnHistory(start, ops)) by { RightByOwnDays(n, start, ops); }
    SlotDiffers(Slots(n, start, ops), OwnHistory(start, ops), own, History(ops), day, i);
  }

  /**
   After any run of operations on any clock the slots are right, whatever amounts were recorded, if and only
   if every operation that recorded one is in place.
   */
  lemma RightAtTheEndIff(n: nat, start: Date, ops: seq<Op>)
    requires n > 0
    ensures RightForAllAmounts(n, start, ops) <==> AllInPlace(n, start, ops)
  {
    if AllInPlace(n, start, ops) {
      forall other: seq<Op> | SameSteps(ops, other)
        ensures SlotsRight(Slots(n, start, other), Last(start, other).day, History(other))
      {
        forall j | 0 <= j < |other| && other[j].Record? ensures InPlace(n, start, other, j) {
          assert SameStep(ops[j], other[j]);
          InPlaceByDates(n, start, ops, other, j);
        }
        InPlaceIsRight(n, start, other);
      }
    } else {
      var j :| 0 <= j < |ops| && ops[j].Record? && !InPlace(n, start, ops, j);
      var other := JustOne(ops, j);
      assert SameStep(ops[j], other[j]);
      InPlaceByDates(n, start, ops, other, j);
      OutOfPlaceIsWrong(n, start, other, j);
    }
  }

  /** Each operation comes a right step after the one before: for instance, wherever no day is short. */
  ghost predicate RightSteps(n: nat, start: Date, ops: seq<Op>)
  {
    forall i :: 0 <= i < |ops| ==> RightNext(n, start, ops, i)
  }

  ghost predicate RightNext(n: nat, start: Date, ops: seq<Op>, i: nat)
    requires i < |ops|
  {
    RightStep(n, Last(start, ops[..i]), ops[i].date)
  }

  lemma {:induction false} RightStepsInPlace(n: nat, start: Date, ops: seq<Op>, j: nat)
    requires RightSteps(n, start, ops) && j < |ops|
    ensures InPlace(n, start, ops, j) && ops[j].date.day <= Last(start, ops).day
  {
    var last := |ops| - 1;
    var before := ops[..last];
    if j < last {
      forall i | 0 <= i < |before| ensures RightNext(n, start, before, i) {
        assert RightNext(n, start, ops, i);
        assert before[..i] == ops[..i];
      }
      RightStepsInPlace(n, start, before, j);
      assert before[..j + 1] == ops[..j + 1];
      assert RightNext(n, start, ops, last);
    } else {
      assert ops[..j + 1] == ops;
    }
  }

  /** Any sequence of increments, decrements and reads, on any dates, on the counter itself. */
  method AnyHistory(reserveDays: int, start: Date, ops: seq<Op>) returns (c: StandardDateCounter)
    ensures c.Full() && c.reserveDays == Kept(reserveDays)
    ensures c.counts == Slots(c.reserveDays, start, ops) && c.history == History(ops) && c.lastUpdate == Last(start, ops)
    ensures AllInPlace(c.reserveDays, start, ops) ==> SlotsRight(c.counts, c.lastUpdate.day, History(ops))
  {
    c := new StandardDateCounter(reserveDays, start);
    for i := 0 to |ops|
      invariant c.Full() && fresh(c) && c.reserveDays == Kept(reserveDays)
      invariant c.counts == Slots(c.reserveDays, start, ops[..i])
      invariant c.history == History(ops[..i]) && c.lastUpdate == Last(start, ops[..i])
    {
      var op := ops[i];
      assert ops[..i + 1][..i] == ops[..i];
      match op {
        case Record(date, amount) =>
          if amount >= 0 { c.Inc(amount, date); } else { c.Dec(-amount, date); }
        case Read(date) =>
          var _ := c.TodayCount(date);
      }
    }
    assert ops[..|ops|] == ops;
    if AllInPlace(c.reserveDays, start, ops) { InPlaceIsRight(c.reserveDays, start, ops); }
  }
}
