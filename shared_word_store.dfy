/**
 * The key-value store shared by the app and the widget: the set of words seen,
 * the current word, the recent history, today's schedule and the schedule
 * settings, each under its own key.
 */
module WordStore {
  import opened Common
  import opened ScheduleSettings

  /** One word of the day and the instant (in seconds) from which it is shown. */
  datatype WordSlot = WordSlot(start: int, wordID: string)

  /** The slots of one day; `date` is the start of the day they belong to. */
  datatype DailyWordSchedule = DailyWordSchedule(date: int, slots: seq<WordSlot>)

  /** What the store keeps under a key, held as a typed value rather than encoded. */
  datatype StoredValue =
    | Strings(strings: seq<string>)
    | Text(text: string)
    | ScheduleValue(schedule: DailyWordSchedule)
    | SettingsValue(settings: WordScheduleSettings)

  const SeenWordIDsKey: string := "seenWordIDs"
  const CurrentWordIDKey: string := "currentWordID"
  const HistoryWordIDsKey: string := "historyWordIDs"
  const DailyScheduleKey: string := "dailySchedule"
  const ScheduleSettingsKey: string := "scheduleSettings"

  /** The default history bound of `appendHistory`. */
  const DefaultHistoryLimit: nat := 50

  lemma KeysDistinct()
    ensures |{SeenWordIDsKey, CurrentWordIDKey, HistoryWordIDsKey, DailyScheduleKey, ScheduleSettingsKey}| == 5
  {
  }

  /** `stringArray(forKey:) ?? []`. */
  function StringsAt(m: map<string, StoredValue>, key: string): (r: seq<string>)
    ensures key !in m ==> r == []
    ensures key in m && m[key].Strings? ==> r == m[key].strings
  {
    if key in m && m[key].Strings? then m[key].strings else []
  }

  /** `string(forKey:)`. */
  function TextAt(m: map<string, StoredValue>, key: string): (r: Option<string>)
    ensures r.Some? <==> key in m && m[key].Text?
    ensures r.Some? ==> m[key] == Text(r.value)
  {
    if key in m && m[key].Text? then Some(m[key].text) else None
  }

  /** `loadCodable(forKey:)` for a schedule. */
  function ScheduleAt(m: map<string, StoredValue>, key: string): (r: Option<DailyWordSchedule>)
    ensures r.Some? <==> key in m && m[key].ScheduleValue?
    ensures r.Some? ==> m[key] == ScheduleValue(r.value)
  {
    if key in m && m[key].ScheduleValue? then Some(m[key].schedule) else None
  }

  /** `loadCodable(forKey:)` for schedule settings. */
  function SettingsAt(m: map<string, StoredValue>, key: string): (r: Option<WordScheduleSettings>)
    ensures r.Some? <==> key in m && m[key].SettingsValue?
    ensures r.Some? ==> m[key] == SettingsValue(r.value)
  {
    if key in m && m[key].SettingsValue? then Some(m[key].settings) else None
  }

  /** `filter { $0 != x }`. */
  function Without(s: seq<string>, x: string): (r: seq<string>)
    ensures x !in r
    ensures |r| == |s| - Count(s, x)
  {
    if s == [] then []
    else if s[0] == x then Without(s[1..], x)
    else [s[0]] + Without(s[1..], x)
  }

  /** Filtering keeps exactly the entries different from `x`. */
  lemma {:induction false} WithoutMembers(s: seq<string>, x: string)
    ensures forall y :: y in Without(s, x) <==> y in s && y != x
  {
    if s != [] {
      WithoutMembers(s[1..], x);
      assert s == [s[0]] + s[1..];
    }
  }

  /** Every entry other than `x` survives as often as it occurs. */
  lemma {:induction false} WithoutCount(s: seq<string>, x: string, y: string)
    requires y != x
    ensures Count(Without(s, x), y) == Count(s, y)
  {
    if s != [] {
      WithoutCount(s[1..], x, y);
      if s[0] != x {
        assert ([s[0]] + Without(s[1..], x))[1..] == Without(s[1..], x);
      }
    }
  }

  /** Filtering keeps the order of what it keeps. */
  lemma {:induction false} WithoutIsSubsequence(s: seq<string>, x: string)
    ensures IsSubsequence(Without(s, x), s)
  {
    if s != [] {
      WithoutIsSubsequence(s[1..], x);
      if s[0] == x {
        SubsequenceOfLonger(Without(s[1..], x), s[0], s[1..]);
        assert [s[0]] + s[1..] == s;
      } else {
        var r := Without(s, x);
        assert r[0] == s[0] && r[1..] == Without(s[1..], x);
      }
    }
  }

  /** The history list after `appendHistory(id, limit:)`: move `id` to the end, keep the newest `limit`. */
  function AppendedHistory(history: seq<string>, id: string, limit: nat): (r: seq<string>)
    ensures |r| <= limit
    ensures limit >= 1 ==> r != [] && r[|r| - 1] == id
  {
    var ids := Without(history, id) + [id];
    if |ids| > limit then ids[|ids| - limit..] else ids
  }

  /** With room for at least one entry, the new history is the newest `limit - 1` others followed by `id`. */
  lemma AppendedHistoryShape(history: seq<string>, id: string, limit: nat)
    requires limit >= 1
    ensures var rest := Without(history, id); var m := Min(limit - 1, |rest|);
      AppendedHistory(history, id, limit) == rest[|rest| - m..] + [id]
  {
    var rest := Without(history, id);
    var ids := rest + [id];
    var m := Min(limit - 1, |rest|);
    assert |ids| - (m + 1) == |rest| - m;
    SliceOfAppended(rest, id, |rest| - m);
    if |ids| > limit {
      assert m + 1 == limit;
      assert AppendedHistory(history, id, limit) == ids[|ids| - limit..];
    } else {
      assert m == |rest| && ids[|rest| - m..] == ids;
      assert AppendedHistory(history, id, limit) == ids;
    }
  }

  /** Dropping a prefix of `s + [x]` within `s` keeps `x` at the end. */
  lemma SliceOfAppended(s: seq<string>, x: string, k: nat)
    requires k <= |s|
    ensures (s + [x])[k..] == s[k..] + [x]
  {
  }

  /**
   * With room for at least one entry, the new history ends with `id`, holds it
   * once, respects the bound, and what precedes it is the newest part of the
   * old history with `id` taken out, in the old order.
   */
  lemma AppendedHistoryProperties(history: seq<string>, id: string, limit: nat)
    requires limit >= 1
    ensures var r := AppendedHistory(history, id, limit);
      var rest := Without(history, id); var m := Min(limit - 1, |rest|);
      && r == rest[|rest| - m..] + [id]
      && |r| == m + 1 <= limit
      && multiset(r)[id] == 1
  {
    var rest := Without(history, id);
    var m := Min(limit - 1, |rest|);
    AppendedHistoryShape(history, id, limit);
    SuffixAvoids(rest, m, id);
    EndsWithOnce(rest[|rest| - m..], id);
  }

  lemma SuffixAvoids(s: seq<string>, m: nat, x: string)
    requires m <= |s| && x !in s
    ensures x !in s[|s| - m..]
  {
  }

  lemma EndsWithOnce(older: seq<string>, x: string)
    requires x !in older
    ensures multiset(older + [x])[x] == 1
  {
    assert multiset(older + [x]) == multiset(older) + multiset{x};
  }

  /** Surviving older entries keep their relative order from the old history. */
  lemma AppendedHistoryKeepsOrder(history: seq<string>, id: string, limit: nat)
    requires limit >= 1
    ensures var r := AppendedHistory(history, id, limit);
      IsSubsequence(r[..|r| - 1], history)
  {
    var rest := Without(history, id);
    var m := Min(limit - 1, |rest|);
    var r := AppendedHistory(history, id, limit);
    AppendedHistoryProperties(history, id, limit);
    assert r[..|r| - 1] == rest[|rest| - m..];
    WithoutIsSubsequence(history, id);
    SuffixIsSubsequence(rest, |rest| - m, history);
  }

  /** A suffix of a subsequence of `b` is a subsequence of `b`. */
  lemma {:induction false} SuffixIsSubsequence(a: seq<string>, k: nat, b: seq<string>)
    requires k <= |a| && IsSubsequence(a, b)
    ensures IsSubsequence(a[k..], b)
    decreases k
  {
    if k > 0 {
      SubsequenceTail(a, b);
      SuffixIsSubsequence(a[1..], k - 1, b);
      assert a[1..][k - 1..] == a[k..];
    }
  }

  /** With no room at all, the history is emptied. */
  lemma AppendedHistoryZeroLimit(history: seq<string>, id: string)
    ensures AppendedHistory(history, id, 0) == []
  {
  }

  /** `Array(Set(...))`: the members of `s` once each, in an order the set does not fix. */
  method ArrayOfSet(s: set<string>) returns (r: seq<string>)
    ensures Distinct(r)
    ensures forall x :: x in r <==> x in s
    ensures |r| == |s|
  {
    r := [];
    var rest := s;
    while rest != {}
      invariant rest <= s
      invariant forall x :: x in r <==> x in s && x !in rest
      invariant Distinct(r)
      invariant |r| + |rest| == |s|
      decreases |rest|
    {
      var x :| x in rest;
      r := r + [x];
      rest := rest - {x};
    }
  }

  class SharedWordStore {
    /** The underlying `UserDefaults`, one typed value per key. */
    var defaults: map<string, StoredValue>

    /** A store over whatever the shared defaults already hold. */
    constructor (initial: map<string, StoredValue>)
      ensures defaults == initial
    {
      defaults := initial;
    }

    function LoadSeenWordIDs(): (r: seq<string>)
      reads this
      ensures SeenWordIDsKey !in defaults ==> r == []
    {
      StringsAt(defaults, SeenWordIDsKey)
    }

    method SaveSeenWordIDs(ids: seq<string>)
      modifies this
      ensures defaults == old(defaults)[SeenWordIDsKey := Strings(ids)]
      ensures LoadSeenWordIDs() == ids
      ensures defaults - {SeenWordIDsKey} == old(defaults) - {SeenWordIDsKey}
    {
      defaults := defaults[SeenWordIDsKey := Strings(ids)];
    }

    /** Adds `id` to the seen set; the stored list has no duplicates afterwards. */
    method MarkSeen(id: string)
      modifies this
      ensures id in LoadSeenWordIDs()
      ensures forall x :: x in LoadSeenWordIDs() <==> x in old(LoadSeenWordIDs()) || x == id
      ensures Distinct(LoadSeenWordIDs())
      ensures SeenWordIDsKey in defaults && defaults[SeenWordIDsKey].Strings?
      ensures defaults - {SeenWordIDsKey} == old(defaults) - {SeenWordIDsKey}
    {
      var ids := set x | x in LoadSeenWordIDs();
      ids := ids + {id};
      var list := ArrayOfSet(ids);
      SaveSeenWordIDs(list);
    }

    function LoadCurrentWordID(): (r: Option<string>)
      reads this
      ensures CurrentWordIDKey !in defaults ==> r == None
    {
      TextAt(defaults, CurrentWordIDKey)
    }

    /** Storing `nil` removes the key. */
    method SaveCurrentWordID(id: Option<string>)
      modifies this
      ensures defaults == if id.Some? then old(defaults)[CurrentWordIDKey := Text(id.value)]
                          else old(defaults) - {CurrentWordIDKey}
      ensures LoadCurrentWordID() == id
      ensures defaults - {CurrentWordIDKey} == old(defaults) - {CurrentWordIDKey}
    {
      match id
      case Some(s) => defaults := defaults[CurrentWordIDKey := Text(s)];
      case None => defaults := defaults - {CurrentWordIDKey};
    }

    function LoadHistoryIDs(): (r: seq<string>)
      reads this
      ensures HistoryWordIDsKey !in defaults ==> r == []
    {
      StringsAt(defaults, HistoryWordIDsKey)
    }

    method SaveHistoryIDs(ids: seq<string>)
      modifies this
      ensures defaults == old(defaults)[HistoryWordIDsKey := Strings(ids)]
      ensures LoadHistoryIDs() == ids
      ensures defaults - {HistoryWordIDsKey} == old(defaults) - {HistoryWordIDsKey}
    {
      defaults := defaults[HistoryWordIDsKey := Strings(ids)];
    }

    /** Moves `id` to the newest end of the history and keeps at most `limit` entries. */
    method AppendHistory(id: string, limit: nat := DefaultHistoryLimit)
      modifies this
      ensures LoadHistoryIDs() == AppendedHistory(old(LoadHistoryIDs()), id, limit)
      ensures defaults == old(defaults)[HistoryWordIDsKey := Strings(LoadHistoryIDs())]
    {
      var ids := Without(LoadHistoryIDs(), id);
      ids := ids + [id];
      if |ids| > limit {
        ids := ids[|ids| - limit..];
      }
      SaveHistoryIDs(ids);
    }

    function LoadSchedule(): (r: Option<DailyWordSchedule>)
      reads this
      ensures DailyScheduleKey !in defaults ==> r == None
    {
      ScheduleAt(defaults, DailyScheduleKey)
    }

    /** Saving `nil` removes the key. */
    method SaveSchedule(schedule: Option<DailyWordSchedule>)
      modifies this
      ensures defaults == if schedule.Some? then old(defaults)[DailyScheduleKey := ScheduleValue(schedule.value)]
                          else old(defaults) - {DailyScheduleKey}
      ensures LoadSchedule() == schedule
      ensures defaults - {DailyScheduleKey} == old(defaults) - {DailyScheduleKey}
    {
      match schedule
      case Some(s) => defaults := defaults[DailyScheduleKey := ScheduleValue(s)];
      case None => defaults := defaults - {DailyScheduleKey};
    }

    function LoadScheduleSettings(): (r: Option<WordScheduleSettings>)
      reads this
      ensures ScheduleSettingsKey !in defaults ==> r == None
    {
      SettingsAt(defaults, ScheduleSettingsKey)
    }

    method SaveScheduleSettings(settings: WordScheduleSettings)
      modifies this
      ensures defaults == old(defaults)[ScheduleSettingsKey := SettingsValue(settings)]
      ensures LoadScheduleSettings() == Some(settings)
      ensures defaults - {ScheduleSettingsKey} == old(defaults) - {ScheduleSettingsKey}
    {
      defaults := defaults[ScheduleSettingsKey := SettingsValue(settings)];
    }
  }

  /** A save under one key leaves what is loaded from every other key as it was. */
  lemma SavesAreIndependent(m: map<string, StoredValue>, key: string, v: StoredValue, other: string)
    requires other != key
    ensures StringsAt(m[key := v], other) == StringsAt(m, other)
    ensures TextAt(m[key := v], other) == TextAt(m, other)
    ensures ScheduleAt(m[key := v], other) == ScheduleAt(m, other)
    ensures SettingsAt(m[key := v], other) == SettingsAt(m, other)
    ensures StringsAt(m - {key}, other) == StringsAt(m, other)
    ensures TextAt(m - {key}, other) == TextAt(m, other)
    ensures ScheduleAt(m - {key}, other) == ScheduleAt(m, other)
    ensures SettingsAt(m - {key}, other) == SettingsAt(m, other)
  {
  }
}
