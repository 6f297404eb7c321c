/**
 * The daily rotation: pick the day's words, lay them out as time slots inside
 * the user's window, decide which day a schedule belongs to, and tell which
 * word is current at a given instant.
 */
module Scheduler {
  import opened Common
  import opened Calendar
  import opened Words
  import opened ScheduleSettings
  import opened WordStore

  /** `max(0, min(m, 24 * 60))`. */
  function ClampMinutes(m: int): (r: int)
    ensures 0 <= r <= MinutesPerDay
    ensures 0 <= m <= MinutesPerDay ==> r == m
    ensures m < 0 ==> r == 0
    ensures m > MinutesPerDay ==> r == MinutesPerDay
  {
    Max(0, Min(m, MinutesPerDay))
  }

  /**
   * The length in minutes of the window from `start` forward to `end`, going
   * past midnight when `end <= start`; equal bounds mean a whole day.
   */
  function WindowMinutes(start: int, end: int): (t: int)
    requires 0 <= start <= MinutesPerDay && 0 <= end <= MinutesPerDay
    ensures 0 <= t <= MinutesPerDay
    ensures (start + t) % MinutesPerDay == end % MinutesPerDay
    ensures start < end ==> t == end - start
    ensures start == end ==> t == MinutesPerDay
    ensures t == 0 <==> start == MinutesPerDay && end == 0
  {
    if end <= start then (MinutesPerDay - start) + end else end - start
  }

  /** The instant the window opens on the day starting at `day`. */
  function WindowOpens(day: int, startMinutes: int): (r: int)
    ensures day <= r <= day + SecondsPerDay
    ensures 0 <= startMinutes <= MinutesPerDay ==> r == day + startMinutes * 60
  {
    day + ClampMinutes(startMinutes) * 60
  }

  /** The window's length in seconds, never less than one minute. */
  function WindowSeconds(startMinutes: int, endMinutes: int): (w: int)
    ensures w >= 60
  {
    Max(1, WindowMinutes(ClampMinutes(startMinutes), ClampMinutes(endMinutes))) * 60
  }

  /** Where slot `index` starts: the window split evenly into `slotsPerDay` parts, rounded down to a second. */
  function SlotStart(day: int, slotsPerDay: int, startMinutes: int, endMinutes: int, index: nat): int {
    WindowOpens(day, startMinutes) + (index * WindowSeconds(startMinutes, endMinutes)) / Max(1, slotsPerDay)
  }

  lemma MulMonotone(i: int, j: int, w: int)
    requires 0 <= i <= j && w >= 0
    ensures 0 <= i * w <= j * w
  {
    assert j * w == i * w + (j - i) * w;
  }

  lemma DivMonotone(a: int, b: int, n: int)
    requires 0 <= a <= b && n > 0
    ensures a / n <= b / n
  {
    var qa, qb := a / n, b / n;
    assert a == qa * n + a % n && b == qb * n + b % n;
    assert qa * n - qb * n < n;
    assert (qa - qb) * n < 1 * n;
    MulCancel(qa - qb, 1, n);
  }

  lemma MulCancel(x: int, y: int, n: int)
    requires n > 0 && x * n < y * n
    ensures x < y
  {
  }

  lemma MulDivBelow(i: int, w: int, n: int)
    requires 0 <= i < n && w >= 1
    ensures 0 <= (i * w) / n < w
  {
    var q := (i * w) / n;
    assert q * n <= i * w;
    assert i * w < n * w;
  }

  /** Offsets `(k * w) / n` of slots `i <= j` within a window of `w` seconds split into `n` parts. */
  lemma SlotOffsets(i: nat, j: nat, w: int, n: int)
    requires i <= j < n && w >= 1
    ensures (0 * w) / n == 0
    ensures (i * w) / n <= (j * w) / n
    ensures 0 <= (j * w) / n < w
  {
    MulMonotone(i, j, w);
    DivMonotone(i * w, j * w, n);
    MulDivBelow(j, w, n);
  }

  /**
   * The first slot opens with the window, later slots never start earlier,
   * and every slot starts before the window closes.
   */
  lemma SlotStartsInWindow(day: int, slotsPerDay: int, startMinutes: int, endMinutes: int, i: nat, j: nat)
    requires i <= j < slotsPerDay
    ensures SlotStart(day, slotsPerDay, startMinutes, endMinutes, 0) == WindowOpens(day, startMinutes)
    ensures SlotStart(day, slotsPerDay, startMinutes, endMinutes, i) <= SlotStart(day, slotsPerDay, startMinutes, endMinutes, j)
    ensures WindowOpens(day, startMinutes) <= SlotStart(day, slotsPerDay, startMinutes, endMinutes, j)
              < WindowOpens(day, startMinutes) + WindowSeconds(startMinutes, endMinutes)
  {
    SlotOffsets(i, j, WindowSeconds(startMinutes, endMinutes), Max(1, slotsPerDay));
  }

  ghost predicate SortedByStart(s: seq<WordSlot>) {
    forall i, j :: 0 <= i < j < |s| ==> s[i].start <= s[j].start
  }

  /** Inserts `x` before the first slot that does not start earlier. */
  function InsertByStart(x: WordSlot, s: seq<WordSlot>): (r: seq<WordSlot>)
    ensures multiset(r) == multiset(s) + multiset{x}
  {
    if s == [] then [x]
    else if x.start <= s[0].start then [x] + s
    else
      assert s == [s[0]] + s[1..];
      [s[0]] + InsertByStart(x, s[1..])
  }

  /** A slot starting no later than every slot of a sorted arrangement can lead it. */
  lemma SortedCons(a: WordSlot, s: seq<WordSlot>)
    requires SortedByStart(s)
    requires forall k :: 0 <= k < |s| ==> a.start <= s[k].start
    ensures SortedByStart([a] + s)
  {
    var t := [a] + s;
    forall i, j | 0 <= i < j < |t|
      ensures t[i].start <= t[j].start
    {
      assert t[j] == s[j - 1];
      if i > 0 {
        assert t[i] == s[i - 1];
      }
    }
  }

  /** A lower bound on the starts of `x` and of `s` bounds every start after insertion. */
  lemma {:induction false} InsertByStartBound(x: WordSlot, s: seq<WordSlot>, b: int)
    requires b <= x.start
    requires forall k :: 0 <= k < |s| ==> b <= s[k].start
    ensures forall k :: 0 <= k < |InsertByStart(x, s)| ==> b <= InsertByStart(x, s)[k].start
  {
    if s != [] && x.start > s[0].start {
      InsertByStartBound(x, s[1..], b);
      var rest := InsertByStart(x, s[1..]);
      assert InsertByStart(x, s) == [s[0]] + rest;
    }
  }

  /** Inserting into a sorted arrangement keeps it sorted. */
  lemma {:induction false} InsertByStartSorted(x: WordSlot, s: seq<WordSlot>)
    requires SortedByStart(s)
    ensures SortedByStart(InsertByStart(x, s))
  {
    if s == [] {
    } else if x.start <= s[0].start {
      SortedCons(x, s);
    } else {
      InsertByStartSorted(x, s[1..]);
      InsertByStartBound(x, s[1..], s[0].start);
      SortedCons(s[0], InsertByStart(x, s[1..]));
    }
  }

  function SortByStart(s: seq<WordSlot>): (r: seq<WordSlot>)
    ensures multiset(r) == multiset(s)
    ensures SortedByStart(r)
  {
    if s == [] then []
    else
      assert s == [s[0]] + s[1..];
      InsertByStartSorted(s[0], SortByStart(s[1..]));
      InsertByStart(s[0], SortByStart(s[1..]))
  }

  /** Slot `k` is one that has started by `now`, and no slot started by `now` starts later. */
  ghost predicate IsLatestStarted(slots: seq<WordSlot>, k: int, now: int) {
    && 0 <= k < |slots|
    && slots[k].start <= now
    && forall j :: 0 <= j < |slots| && slots[j].start <= now ==> slots[j].start <= slots[k].start
  }

  /** The latest started slot of a sorted arrangement is the latest started slot of the original. */
  lemma LatestOfSorted(slots: seq<WordSlot>, sorted: seq<WordSlot>, i: int, now: int)
    requires multiset(sorted) == multiset(slots) && SortedByStart(sorted)
    requires 0 < i <= |sorted|
    requires forall k :: 0 <= k < i ==> sorted[k].start <= now
    requires forall k :: i <= k < |sorted| ==> now < sorted[k].start
    ensures exists k :: IsLatestStarted(slots, k, now) && slots[k] == sorted[i - 1]
  {
    assert sorted[i - 1] in multiset(slots);
    var k :| 0 <= k < |slots| && slots[k] == sorted[i - 1];
    forall j | 0 <= j < |slots| && slots[j].start <= now
      ensures slots[j].start <= slots[k].start
    {
      assert slots[j] in multiset(sorted);
      var p :| 0 <= p < |sorted| && sorted[p] == slots[j];
      assert p < i;
    }
    assert IsLatestStarted(slots, k, now);
  }

  /** A permutation of `0 .. n-1`: the order in which `shuffled()` arranges `n` entries. */
  predicate IsShuffleOrder(order: seq<int>, n: int) {
    && |order| == n
    && (forall i :: 0 <= i < |order| ==> 0 <= order[i] < n)
    && (forall i, j :: 0 <= i < j < |order| ==> order[i] != order[j])
  }

  /** The day the schedule shown at `now` belongs to: yesterday while a window that crosses midnight is still open. */
  function ScheduleAnchorDate(now: int, settings: WordScheduleSettings): (r: int)
    ensures StartOfDay(r) == r
    ensures r == StartOfDay(now) || r == StartOfDay(now) - SecondsPerDay
    ensures r < StartOfDay(now) <==> CrossesMidnight(settings) && MinutesSinceStartOfDay(now) < settings.endMinutes
  {
    var startOfDay := StartOfDay(now);
    StartOfDayIdempotent(now);
    if !CrossesMidnight(settings) then startOfDay
    else
      var minutesNow := MinutesSinceStartOfDay(now);
      if minutesNow < settings.endMinutes then PreviousDay(startOfDay) else startOfDay
  }

  /** When the anchor is yesterday, `now` still lies before the end of yesterday's window. */
  lemma AnchorYesterdayMeansWindowStillOpen(now: int, settings: WordScheduleSettings)
    requires ScheduleAnchorDate(now, settings) < StartOfDay(now)
    ensures now < ScheduleAnchorDate(now, settings) + SecondsPerDay + settings.endMinutes * 60
  {
    var m := MinutesSinceStartOfDay(now);
    assert m + 1 <= settings.endMinutes;
    assert now < StartOfDay(now) + (m + 1) * 60;
  }

  class WordScheduler {
    /** The words the scheduler chooses from. */
    const words: seq<WordEntry>

    constructor (words: seq<WordEntry>)
      ensures this.words == words
    {
      this.words := words;
    }

    /**
     * `uniqueWordIDs(limit:)`: the ids of the first `min(limit, words.count)`
     * words of a random arrangement, so no word is picked twice. The
     * arrangement is returned as `order`.
     */
    method UniqueWordIDs(limit: int) returns (ids: seq<string>, ghost order: seq<int>)
      requires words == [] || limit >= 0
      ensures words == [] ==> ids == []
      ensures words != [] ==> |ids| == Min(limit, |words|)
      ensures IsShuffleOrder(order, |words|) && |ids| <= |order|
      ensures forall i :: 0 <= i < |ids| ==> ids[i] == words[order[i]].id
      ensures forall i :: 0 <= i < |ids| ==> ids[i] in Ids(words)
      ensures UniqueIds(words) ==> Distinct(ids)
    {
      if words == [] {
        return [], [];
      }
      var uniqueCount := Min(limit, |words|);
      ghost var identity := seq(|words|, i => i);
      assert IsShuffleOrder(identity, |words|);
      var shuffle: seq<int> :| IsShuffleOrder(shuffle, |words|);
      assert IsShuffleOrder(shuffle, |words|);
      var shuffled := seq(|words|, i requires 0 <= i < |words| => words[shuffle[i]]);
      ids := Ids(shuffled[..uniqueCount]);
      order := shuffle;
      assert forall i :: 0 <= i < |ids| ==> ids[i] == Ids(words)[order[i]];
    }

    /** `buildSlots`: one slot per id, up to `slotsPerDay`, spread evenly over the window. */
    method BuildSlots(date: int, slotsPerDay: int, startMinutes: int, endMinutes: int, wordIDs: seq<string>)
      returns (slots: seq<WordSlot>)
      ensures slotsPerDay <= 0 ==> slots == []
      ensures slotsPerDay > 0 ==> |slots| == Min(slotsPerDay, |wordIDs|)
      ensures forall i :: 0 <= i < |slots| ==>
        slots[i] == WordSlot(SlotStart(date, slotsPerDay, startMinutes, endMinutes, i), wordIDs[i])
      ensures slots != [] ==> slots[0].start == date + ClampMinutes(startMinutes) * 60
      ensures forall i, j :: 0 <= i <= j < |slots| ==> slots[i].start <= slots[j].start
      ensures forall i :: 0 <= i < |slots| ==>
        WindowOpens(date, startMinutes) <= slots[i].start < WindowOpens(date, startMinutes) + WindowSeconds(startMinutes, endMinutes)
    {
      if slotsPerDay <= 0 {
        return [];
      }
      var start := ClampMinutes(startMinutes);
      var end := ClampMinutes(endMinutes);
      var totalMinutes := WindowMinutes(start, end);
      var intervalSeconds := Max(1, totalMinutes) * 60;

      slots := [];
      for index := 0 to Min(slotsPerDay, |wordIDs|)
        invariant |slots| == index
        invariant forall i :: 0 <= i < index ==>
          slots[i] == WordSlot(SlotStart(date, slotsPerDay, startMinutes, endMinutes, i), wordIDs[i])
      {
        var offsetSeconds := (index * intervalSeconds) / Max(1, slotsPerDay);
        var startDate := date + start * 60;
        var slotStart := startDate + offsetSeconds;
        slots := slots + [WordSlot(slotStart, wordIDs[index])];
      }

      forall i, j | 0 <= i <= j < |slots|
        ensures slots[i].start <= slots[j].start
        ensures WindowOpens(date, startMinutes) <= slots[j].start < WindowOpens(date, startMinutes) + WindowSeconds(startMinutes, endMinutes)
      {
        SlotStartsInWindow(date, slotsPerDay, startMinutes, endMinutes, i, j);
      }
      if slots != [] {
        SlotStartsInWindow(date, slotsPerDay, startMinutes, endMinutes, 0, 0);
      }
    }

    /**
     * `currentWordID(for:schedule:)`: the word of the latest slot that has
     * started by `now`, or none when no slot has started yet.
     */
    method CurrentWordID(now: int, schedule: DailyWordSchedule) returns (r: Option<string>)
      ensures r.None? <==> forall k :: 0 <= k < |schedule.slots| ==> now < schedule.slots[k].start
      ensures r.Some? ==> exists k :: IsLatestStarted(schedule.slots, k, now) && schedule.slots[k].wordID == r.value
    {
      if schedule.slots == [] {
        return None;
      }

      var sortedSlots := SortByStart(schedule.slots);
      var current: Option<WordSlot> := None;

      var i := 0;
      while i < |sortedSlots|
        invariant 0 <= i <= |sortedSlots|
        invariant forall k :: 0 <= k < i ==> sortedSlots[k].start <= now
        invariant current == if i == 0 then None else Some(sortedSlots[i - 1])
      {
        if now >= sortedSlots[i].start {
          current := Some(sortedSlots[i]);
        } else {
          break;
        }
        i := i + 1;
      }
      assert forall k :: i <= k < |sortedSlots| ==> now < sortedSlots[k].start;

      if current.Some? {
        LatestOfSorted(schedule.slots, sortedSlots, i, now);
        r := Some(current.value.wordID);
      } else {
        forall k | 0 <= k < |schedule.slots|
          ensures now < schedule.slots[k].start
        {
          assert schedule.slots[k] in multiset(sortedSlots);
        }
        r := None;
      }
    }

    /**
     * `loadOrCreateSchedule`: the stored schedule when it belongs to the anchor
     * day; otherwise a fresh schedule for that day, which is also saved.
     */
    method LoadOrCreateSchedule(store: SharedWordStore, settings: WordScheduleSettings, now: int)
      returns (schedule: DailyWordSchedule)
      requires || settings.wordsPerDay >= 0 || words == []
               || (store.LoadSchedule().Some?
                   && IsSameDay(store.LoadSchedule().value.date, ScheduleAnchorDate(now, settings)))
      modifies store
      ensures var anchor := ScheduleAnchorDate(now, settings);
        var existing := old(store.LoadSchedule());
        if existing.Some? && IsSameDay(existing.value.date, anchor) then
          schedule == existing.value && store.defaults == old(store.defaults)
        else
          && schedule.date == StartOfDay(anchor)
          && store.defaults == old(store.defaults)[DailyScheduleKey := ScheduleValue(schedule)]
          && store.LoadSchedule() == Some(schedule)
          && |schedule.slots| == Max(0, Min(settings.wordsPerDay, |words|))
          && (forall i :: 0 <= i < |schedule.slots| ==>
                schedule.slots[i].start == SlotStart(schedule.date, settings.wordsPerDay, settings.startMinutes, settings.endMinutes, i)
                && schedule.slots[i].wordID in Ids(words))
          && (UniqueIds(words) ==> Distinct(SlotWordIDs(schedule.slots)))
    {
      var anchorDate := ScheduleAnchorDate(now, settings);

      var stored := store.LoadSchedule();
      if stored.Some? && IsSameDay(stored.value.date, anchorDate) {
        return stored.value;
      }

      var startOfDay := StartOfDay(anchorDate);
      var wordIDs, order := UniqueWordIDs(settings.wordsPerDay);
      var slots := BuildSlots(startOfDay, settings.wordsPerDay, settings.startMinutes, settings.endMinutes, wordIDs);
      assert SlotWordIDs(slots) == wordIDs[..|slots|];

      schedule := DailyWordSchedule(startOfDay, slots);
      store.SaveSchedule(Some(schedule));
    }
  }

  /** The word ids of `slots`, in slot order. */
  function SlotWordIDs(slots: seq<WordSlot>): (ids: seq<string>)
    ensures |ids| == |slots|
    ensures forall i :: 0 <= i < |slots| ==> ids[i] == slots[i].wordID
  {
    seq(|slots|, i requires 0 <= i < |slots| => slots[i].wordID)
  }
}
