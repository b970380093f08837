/** The daily-search streak and achievement tracker of the `useStreak` hook.
    Dates are day numbers (UTC calendar days, the days `toISOString` names);
    `Dates.IsoDateOrder` shows that the hook's string comparisons of
    `YYYY-MM-DD` dates agree with comparisons of day numbers. */
module Streak {
  import opened Common

  /** The record stored under `nano-weather-streak`. */
  datatype StreakData = StreakData(
    currentStreak: nat,
    longestStreak: nat,
    lastCheckDate: Option<int>,
    totalSearches: nat,
    achievements: seq<string>)

  /** What `loadStreakData` returns when nothing usable is stored. */
  const Default := StreakData(0, 0, None, 0, [])

  datatype Metric = Searches | Streak

  datatype Achievement = Achievement(id: string, name: string, metric: Metric, threshold: nat)

  /** The achievement table, in the order `recordSearch` checks it. */
  const Checklist: seq<Achievement> := [
    Achievement("first_search", "First Steps", Searches, 1),
    Achievement("streak_3", "Getting Hooked", Streak, 3),
    Achievement("streak_7", "Weather Watcher", Streak, 7),
    Achievement("streak_14", "Meteorologist", Streak, 14),
    Achievement("streak_30", "Weather Wizard", Streak, 30),
    Achievement("searches_10", "Explorer", Searches, 10),
    Achievement("searches_50", "Globetrotter", Searches, 50),
    Achievement("searches_100", "World Traveler", Searches, 100)
  ]

  /** `loadStreakData`: the stored record, or the default when storage is empty or unreadable. */
  function Load(stored: Option<StreakData>): (d: StreakData)
    ensures stored.None? ==> d == Default
    ensures stored.Some? ==> d == stored.value
  {
    match stored
    case Some(s) => s
    case None => Default
  }

  predicate Reached(a: Achievement, total: nat, streak: nat)
  {
    match a.metric
    case Searches => total >= a.threshold
    case Streak => streak >= a.threshold
  }

  /** The date rule of `recordSearch`: count the search, and on a new day extend,
      restart or keep the streak, stamp today and raise the longest streak. */
  function CountSearch(d: StreakData, today: int): StreakData
  {
    var counted := d.(totalSearches := d.totalSearches + 1);
    if d.lastCheckDate == Some(today) then counted
    else
      var streak :=
        if d.lastCheckDate == Some(today - 1) then d.currentStreak + 1
        else if d.lastCheckDate.None? || d.lastCheckDate.value < today - 1 then 1
        else d.currentStreak;
      counted.(currentStreak := streak,
               lastCheckDate := Some(today),
               longestStreak := if streak > d.longestStreak then streak else d.longestStreak)
  }

  datatype Unlocks = Unlocks(ids: seq<string>, names: seq<string>)

  /** Runs the checks of `items` in order against `ids`: each reached achievement
      not yet held is appended to the ids, and its name to the newly unlocked names. */
  function CheckAll(ids: seq<string>, total: nat, streak: nat, items: seq<Achievement>): Unlocks
    decreases |items|
  {
    if items == [] then Unlocks(ids, [])
    else
      var u := CheckAll(ids, total, streak, items[..|items| - 1]);
      var a := items[|items| - 1];
      if Reached(a, total, streak) && a.id !in u.ids then Unlocks(u.ids + [a.id], u.names + [a.name])
      else u
  }

  /** One more check: the item at `i` is checked against what the earlier ones left. */
  lemma CheckAllStep(ids: seq<string>, total: nat, streak: nat, items: seq<Achievement>, i: nat)
    requires i < |items|
    ensures var u := CheckAll(ids, total, streak, items[..i]);
      var a := items[i];
      CheckAll(ids, total, streak, items[..i + 1])
        == if Reached(a, total, streak) && a.id !in u.ids then Unlocks(u.ids + [a.id], u.names + [a.name]) else u
  {
    assert items[..i + 1][..i] == items[..i];
  }

  datatype SearchOutcome = SearchOutcome(data: StreakData, unlocked: seq<string>)

  /** The record `recordSearch` saves, with the names it unlocked in checklist order. */
  function AfterSearch(d: StreakData, today: int): SearchOutcome
  {
    var c := CountSearch(d, today);
    var u := CheckAll(c.achievements, c.totalSearches, c.currentStreak, Checklist);
    SearchOutcome(c.(achievements := u.ids), u.names)
  }

  /** The mount check: a streak whose last day is before yesterday drops to zero. */
  function Decay(d: StreakData, today: int): StreakData
  {
    if d.lastCheckDate.Some? && d.lastCheckDate.value < today - 1 then d.(currentStreak := 0) else d
  }

  /** The hook: the storage cell, the React state it shows, and the surfaced achievement. */
  class StreakHook {
    var stored: Option<StreakData>
    var state: StreakData
    var newAchievement: Option<string>

    constructor (initial: Option<StreakData>)
      ensures stored == initial && state == Load(initial) && newAchievement == None
    {
      stored := initial;
      state := Load(initial);
      newAchievement := None;
    }

    /** The effect run on mount: re-reads storage, applies the decay, and does not write back. */
    method CheckOnMount(today: int)
      modifies this
      ensures stored == old(stored) && newAchievement == old(newAchievement)
      ensures state == Decay(Load(stored), today)
    {
      var data := Load(stored);
      if data.lastCheckDate.Some? {
        var yesterday := today - 1;
        if data.lastCheckDate.value < yesterday {
          data := data.(currentStreak := 0);
        }
      }
      state := data;
    }

    /** `recordSearch`: `saved` says whether the best-effort write to storage succeeded. */
    method RecordSearch(today: int, saved: bool) returns (data: StreakData)
      modifies this
      ensures data == AfterSearch(Load(old(stored)), today).data
      ensures state == data
      ensures stored == if saved then Some(data) else old(stored)
      ensures newAchievement == (var names := AfterSearch(Load(old(stored)), today).unlocked;
                                 if names == [] then old(newAchievement) else Some(names[0]))
    {
      data := Load(stored);
      var newAchievements: seq<string> := [];
      data := data.(totalSearches := data.totalSearches + 1);
      if data.lastCheckDate != Some(today) {
        var yesterday := today - 1;
        if data.lastCheckDate == Some(yesterday) {
          data := data.(currentStreak := data.currentStreak + 1);
        } else if data.lastCheckDate.None? || data.lastCheckDate.value < yesterday {
          data := data.(currentStreak := 1);
        }
        data := data.(lastCheckDate := Some(today));
        if data.currentStreak > data.longestStreak {
          data := data.(longestStreak := data.currentStreak);
        }
      }
      ghost var counted := CountSearch(Load(old(stored)), today);
      assert data == counted;
      var i := 0;
      while i < |Checklist|
        invariant 0 <= i <= |Checklist|
        invariant data == counted.(achievements := data.achievements)
        invariant Unlocks(data.achievements, newAchievements)
                  == CheckAll(counted.achievements, counted.totalSearches, counted.currentStreak, Checklist[..i])
      {
        var a := Checklist[i];
        ghost var before := CheckAll(counted.achievements, counted.totalSearches, counted.currentStreak, Checklist[..i]);
        assert CheckAll(counted.achievements, counted.totalSearches, counted.currentStreak, Checklist[..i + 1])
          == if Reached(a, counted.totalSearches, counted.currentStreak) && a.id !in before.ids
             then Unlocks(before.ids + [a.id], before.names + [a.name]) else before by {
          CheckAllStep(counted.achievements, counted.totalSearches, counted.currentStreak, Checklist, i);
        }
        if Reached(a, data.totalSearches, data.currentStreak) && a.id !in data.achievements {
          data := data.(achievements := data.achievements + [a.id]);
          newAchievements := newAchievements + [a.name];
        }
        i := i + 1;
      }
      assert Checklist[..i] == Checklist;
      if saved {
        stored := Some(data);
      }
      state := data;
      if |newAchievements| > 0 {
        newAchievement := Some(newAchievements[0]);
      }
    }

    /** The timer (or the user) dismissing the notification. */
    method ClearNewAchievement()
      modifies this`newAchievement
      ensures newAchievement == None
    {
      newAchievement := None;
    }
  }

  // ---------------------------------------------------------------------------
  // Properties of the date rule

  /** Every recorded search counts, whatever the date. */
  lemma SearchAlwaysCounted(d: StreakData, today: int)
    ensures AfterSearch(d, today).data.totalSearches == d.totalSearches + 1
  {
  }

  /** A second search on the same day leaves the streak, the longest streak and the date alone. */
  lemma SameDayKeepsStreak(d: StreakData, today: int)
    requires d.lastCheckDate == Some(today)
    ensures var r := AfterSearch(d, today).data;
            r.currentStreak == d.currentStreak && r.longestStreak == d.longestStreak
            && r.lastCheckDate == d.lastCheckDate
  {
  }

  /** On a new day the streak grows by one after yesterday, restarts at one after a gap
      or on the first search, the date becomes today and the longest streak is the maximum. */
  lemma NewDayStreakRule(d: StreakData, today: int)
    requires d.lastCheckDate != Some(today)
    ensures var r := AfterSearch(d, today).data;
            && r.lastCheckDate == Some(today)
            && (d.lastCheckDate == Some(today - 1) ==> r.currentStreak == d.currentStreak + 1)
            && (d.lastCheckDate.None? || d.lastCheckDate.value < today - 1 ==> r.currentStreak == 1)
            && r.longestStreak == (if r.currentStreak > d.longestStreak then r.currentStreak else d.longestStreak)
            && r.currentStreak <= r.longestStreak
  {
  }

  /** `currentStreak <= longestStreak` survives a search and the mount check. */
  lemma StreakWithinLongest(d: StreakData, today: int)
    requires d.currentStreak <= d.longestStreak
    ensures AfterSearch(d, today).data.currentStreak <= AfterSearch(d, today).data.longestStreak
    ensures Decay(d, today).currentStreak <= Decay(d, today).longestStreak
  {
  }

  /** The mount check zeroes the streak exactly when the last day is before yesterday,
      and touches nothing else. */
  lemma DecayOnlyResetsStale(d: StreakData, today: int)
    ensures var r := Decay(d, today);
            && r == d.(currentStreak := r.currentStreak)
            && (r.currentStreak == 0 <==> d.currentStreak == 0 || (d.lastCheckDate.Some? && d.lastCheckDate.value < today - 1))
            && (r.currentStreak != d.currentStreak ==> d.lastCheckDate.Some? && d.lastCheckDate.value < today - 1)
  {
  }

  // ---------------------------------------------------------------------------
  // Properties of the achievement checklist

  predicate NoDuplicates(s: seq<string>)
  {
    forall i, j :: 0 <= i < j < |s| ==> s[i] != s[j]
  }

  predicate DistinctIds(items: seq<Achievement>)
  {
    forall i, j :: 0 <= i < j < |items| ==> items[i].id != items[j].id
  }

  function Ids(items: seq<Achievement>): (r: seq<string>)
    ensures |r| == |items| && forall k :: 0 <= k < |items| ==> r[k] == items[k].id
  {
    if items == [] then [] else [items[0].id] + Ids(items[1..])
  }

  function Names(items: seq<Achievement>): (r: seq<string>)
    ensures |r| == |items| && forall k :: 0 <= k < |items| ==> r[k] == items[k].name
  {
    if items == [] then [] else [items[0].name] + Names(items[1..])
  }

  /** Reference definition: the items, in order, that are reached and not already held. */
  function Fresh(ids: seq<string>, total: nat, streak: nat, items: seq<Achievement>): seq<Achievement>
  {
    if items == [] then []
    else (if Reached(items[0], total, streak) && items[0].id !in ids then [items[0]] else [])
         + Fresh(ids, total, streak, items[1..])
  }

  lemma {:induction false} FreshSnoc(ids: seq<string>, total: nat, streak: nat, items: seq<Achievement>)
    requires items != []
    ensures var a := items[|items| - 1];
            Fresh(ids, total, streak, items)
            == Fresh(ids, total, streak, items[..|items| - 1])
               + (if Reached(a, total, streak) && a.id !in ids then [a] else [])
  {
    if |items| > 1 {
      assert items[1..][..|items[1..]| - 1] == items[..|items| - 1][1..];
      FreshSnoc(ids, total, streak, items[1..]);
    }
  }

  lemma {:induction false} FreshMembers(ids: seq<string>, total: nat, streak: nat, items: seq<Achievement>)
    ensures forall a :: a in Fresh(ids, total, streak, items) <==> a in items && Reached(a, total, streak) && a.id !in ids
  {
    if items != [] {
      FreshMembers(ids, total, streak, items[1..]);
      assert items == [items[0]] + items[1..];
    }
  }

  lemma IdsAppend(a: seq<Achievement>, b: seq<Achievement>)
    ensures Ids(a + b) == Ids(a) + Ids(b) && Names(a + b) == Names(a) + Names(b)
  {
  }

  /** Dropping the last item keeps the ids distinct. */
  lemma DistinctInit(items: seq<Achievement>)
    requires items != [] && DistinctIds(items)
    ensures DistinctIds(items[..|items| - 1])
  {
    var init := items[..|items| - 1];
    forall i, j | 0 <= i < j < |init|
      ensures init[i].id != init[j].id
    {
      assert init[i] == items[i] && init[j] == items[j];
    }
  }

  /** The last item's id is not among those the earlier items contribute. */
  lemma FreshAvoidsLast(ids: seq<string>, total: nat, streak: nat, items: seq<Achievement>)
    requires items != [] && DistinctIds(items)
    ensures items[|items| - 1].id !in Ids(Fresh(ids, total, streak, items[..|items| - 1]))
  {
    var init := items[..|items| - 1];
    var f0 := Fresh(ids, total, streak, init);
    FreshMembers(ids, total, streak, init);
    forall k | 0 <= k < |f0|
      ensures Ids(f0)[k] != items[|items| - 1].id
    {
      assert f0[k] in init;
      var m :| 0 <= m < |init| && init[m] == f0[k];
      assert items[m] == f0[k];
    }
  }

  /** The checklist appends exactly the reached, not yet held items, in checklist order:
      ids get their ids and the unlocked names are their names. */
  lemma {:induction false} CheckAllIsFresh(ids: seq<string>, total: nat, streak: nat, items: seq<Achievement>)
    requires DistinctIds(items)
    ensures var u := CheckAll(ids, total, streak, items);
            var f := Fresh(ids, total, streak, items);
            u.ids == ids + Ids(f) && u.names == Names(f)
  {
    if items != [] {
      var init := items[..|items| - 1];
      var a := items[|items| - 1];
      DistinctInit(items);
      CheckAllIsFresh(ids, total, streak, init);
      var u0 := CheckAll(ids, total, streak, init);
      var f0 := Fresh(ids, total, streak, init);
      FreshSnoc(ids, total, streak, items);
      FreshAvoidsLast(ids, total, streak, items);
      assert a.id in u0.ids <==> a.id in ids;
      var isNew := Reached(a, total, streak) && a.id !in ids;
      IdsAppend(f0, if isNew then [a] else []);
    }
  }

  lemma ChecklistDistinct()
    ensures DistinctIds(Checklist)
  {
  }

  /** Achievements never shrink: the old list is a prefix of the new one. */
  lemma AchievementsOnlyGrow(d: StreakData, today: int)
    ensures var r := AfterSearch(d, today).data;
            |r.achievements| >= |d.achievements| && r.achievements[..|d.achievements|] == d.achievements
  {
    var c := CountSearch(d, today);
    ChecklistDistinct();
    CheckAllIsFresh(c.achievements, c.totalSearches, c.currentStreak, Checklist);
  }

  /** Appending distinct ids, none already present, keeps a list free of duplicates. */
  lemma AppendDistinct(ids: seq<string>, more: seq<string>)
    requires NoDuplicates(ids) && NoDuplicates(more)
    requires forall k :: 0 <= k < |more| ==> more[k] !in ids
    ensures NoDuplicates(ids + more)
  {
    var r := ids + more;
    forall i, j | 0 <= i < j < |r|
      ensures r[i] != r[j]
    {
      if i >= |ids| {
        assert r[i] == more[i - |ids|] && r[j] == more[j - |ids|];
      } else if j >= |ids| {
        assert r[i] in ids && r[j] == more[j - |ids|];
      }
    }
  }

  /** The checklist never adds an id twice, given ids without duplicates. */
  lemma CheckAllKeepsDistinct(ids: seq<string>, total: nat, streak: nat, items: seq<Achievement>)
    requires DistinctIds(items) && NoDuplicates(ids)
    ensures NoDuplicates(CheckAll(ids, total, streak, items).ids)
  {
    CheckAllIsFresh(ids, total, streak, items);
    var f := Fresh(ids, total, streak, items);
    FreshMembers(ids, total, streak, items);
    forall i, j | 0 <= i < j < |f|
      ensures Ids(f)[i] != Ids(f)[j]
    {
      FreshIsSubsequence(ids, total, streak, items, i, j);
    }
    forall k | 0 <= k < |f|
      ensures Ids(f)[k] !in ids
    {
      assert f[k] in f;
    }
    AppendDistinct(ids, Ids(f));
  }

  /** No id is ever held twice. */
  lemma AchievementsStayDistinct(d: StreakData, today: int)
    requires NoDuplicates(d.achievements)
    ensures NoDuplicates(AfterSearch(d, today).data.achievements)
  {
    var c := CountSearch(d, today);
    ChecklistDistinct();
    CheckAllKeepsDistinct(c.achievements, c.totalSearches, c.currentStreak, Checklist);
  }

  /** Dropping the first item keeps the ids distinct. */
  lemma DistinctTail(items: seq<Achievement>)
    requires items != [] && DistinctIds(items)
    ensures DistinctIds(items[1..])
  {
    var tail := items[1..];
    forall i, j | 0 <= i < j < |tail|
      ensures tail[i].id != tail[j].id
    {
      assert tail[i] == items[i + 1] && tail[j] == items[j + 1];
    }
  }

  /** Two different positions of `Fresh` hold items with different ids when the items do. */
  lemma {:induction false} FreshIsSubsequence(ids: seq<string>, total: nat, streak: nat, items: seq<Achievement>, i: nat, j: nat)
    requires DistinctIds(items)
    requires i < j < |Fresh(ids, total, streak, items)|
    ensures Fresh(ids, total, streak, items)[i].id != Fresh(ids, total, streak, items)[j].id
  {
    assert items != [];
    var tail := items[1..];
    var rest := Fresh(ids, total, streak, tail);
    DistinctTail(items);
    var keep := Reached(items[0], total, streak) && items[0].id !in ids;
    assert Fresh(ids, total, streak, items) == (if keep then [items[0]] else []) + rest;
    if keep {
      if i == 0 {
        FreshMembers(ids, total, streak, tail);
        assert rest[j - 1] in rest;
        var m :| 0 <= m < |tail| && tail[m] == rest[j - 1];
        assert items[m + 1] == rest[j - 1];
      } else {
        FreshIsSubsequence(ids, total, streak, tail, i - 1, j - 1);
      }
    } else {
      FreshIsSubsequence(ids, total, streak, tail, i, j);
    }
  }

  /** After the checklist every reached item is held, and every appended id belongs to
      a reached item that was not held before. */
  lemma CheckAllUnlocksReached(ids: seq<string>, total: nat, streak: nat, items: seq<Achievement>)
    requires DistinctIds(items)
    ensures var u := CheckAll(ids, total, streak, items);
            && (forall a :: a in items && Reached(a, total, streak) ==> a.id in u.ids)
            && (forall k :: |ids| <= k < |u.ids| ==>
                  exists a :: a in items && a.id == u.ids[k] && Reached(a, total, streak) && a.id !in ids)
  {
    CheckAllIsFresh(ids, total, streak, items);
    var f := Fresh(ids, total, streak, items);
    FreshMembers(ids, total, streak, items);
    var u := CheckAll(ids, total, streak, items);
    assert u.ids == ids + Ids(f);
    forall a | a in items && Reached(a, total, streak)
      ensures a.id in u.ids
    {
      if a.id !in ids {
        assert a in f;
        var k :| 0 <= k < |f| && f[k] == a;
        assert u.ids[|ids| + k] == Ids(f)[k] == a.id;
      }
    }
    forall k | |ids| <= k < |u.ids|
      ensures exists a :: a in items && a.id == u.ids[k] && Reached(a, total, streak) && a.id !in ids
    {
      var a := f[k - |ids|];
      assert a in f;
      assert u.ids[k] == Ids(f)[k - |ids|] == a.id;
    }
  }

  /** Each achievement is held as soon as its threshold is met, and every new id
      belongs to a reached achievement that was not held before. */
  lemma UnlockedExactlyWhenReached(d: StreakData, today: int)
    ensures var r := AfterSearch(d, today).data;
            && (forall a :: a in Checklist && Reached(a, r.totalSearches, r.currentStreak) ==> a.id in r.achievements)
            && (forall k :: |d.achievements| <= k < |r.achievements| ==>
                  exists a :: a in Checklist && a.id == r.achievements[k]
                              && Reached(a, r.totalSearches, r.currentStreak) && a.id !in d.achievements)
  {
    var c := CountSearch(d, today);
    var u := CheckAll(c.achievements, c.totalSearches, c.currentStreak, Checklist);
    assert AfterSearch(d, today).data == c.(achievements := u.ids);
    assert c.achievements == d.achievements;
    ChecklistDistinct();
    CheckAllUnlocksReached(c.achievements, c.totalSearches, c.currentStreak, Checklist);
  }

  /** The surfaced notification is the name of the first newly unlocked achievement
      in checklist order, and there is none when nothing new was unlocked. */
  lemma SurfacedIsFirstUnlocked(d: StreakData, today: int)
    ensures var c := CountSearch(d, today);
            var f := Fresh(d.achievements, c.totalSearches, c.currentStreak, Checklist);
            var names := AfterSearch(d, today).unlocked;
            (names == [] <==> f == []) && (f != [] ==> names[0] == f[0].name)
  {
    var c := CountSearch(d, today);
    ChecklistDistinct();
    CheckAllIsFresh(c.achievements, c.totalSearches, c.currentStreak, Checklist);
  }

  /** From the default state one search yields streak 1, longest 1, one search,
      the first-search achievement, and surfaces "First Steps". */
  lemma FirstSearchFromDefault(today: int)
    ensures AfterSearch(Default, today)
            == SearchOutcome(StreakData(1, 1, Some(today), 1, ["first_search"]), ["First Steps"])
  {
    FirstCount(today);
    FirstChecks();
  }

  lemma FirstCount(today: int)
    ensures CountSearch(Default, today) == StreakData(1, 1, Some(today), 1, [])
  {
  }

  /** At one search and a streak of one only the first entry of the checklist is reached. */
  lemma FirstChecks()
    ensures CheckAll([], 1, 1, Checklist) == Unlocks(["first_search"], ["First Steps"])
  {
    assert Fresh([], 1, 1, Checklist) == [Checklist[0]] by {
      LaterThresholds();
      FreshNoneReached([], 1, 1, Checklist[1..]);
    }
    ChecklistDistinct();
    CheckAllIsFresh([], 1, 1, Checklist);
  }

  lemma LaterThresholds()
    ensures forall k :: 0 <= k < |Checklist[1..]| ==> Checklist[1..][k].threshold > 1
  {
  }

  /** Nothing reached, nothing fresh. */
  lemma {:induction false} FreshNoneReached(ids: seq<string>, total: nat, streak: nat, items: seq<Achievement>)
    requires forall k :: 0 <= k < |items| ==> !Reached(items[k], total, streak)
    ensures Fresh(ids, total, streak, items) == []
  {
    if items != [] {
      assert !Reached(items[0], total, streak);
      FreshNoneReached(ids, total, streak, items[1..]);
    }
  }
}
