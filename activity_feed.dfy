/** The live activity feed: the "time ago" caption, the bounded most-recent-first
    list fed by realtime inserts, the running total, and the fluctuating live count. */
module ActivityFeed {
  import opened Common

  datatype ActivityItem = ActivityItem(
    id: string,
    city: string,
    country: string,
    temperature: int,
    condition: string,
    searchedAt: string)

  // ---------------------------------------------------------------------------
  // Time ago

  const Minute := 60
  const Hour := 3600
  const DaySeconds := 86400

  /** `Math.floor((now - then) / 1000)`; Dafny's `/` by a positive divisor is the floor. */
  function ElapsedSeconds(nowMs: int, thenMs: int): int
  {
    (nowMs - thenMs) / 1000
  }

  /** `getTimeAgo`: `thenMs` is `new Date(timestamp).getTime()`, absent for an invalid
      date, whose NaN fails every comparison and prints as "NaN". */
  function TimeAgo(nowMs: int, thenMs: Option<int>): string
  {
    match thenMs
    case None => "NaNd ago"
    case Some(t) =>
      var s := ElapsedSeconds(nowMs, t);
      if s < Minute then "just now"
      else if s < Hour then NatToString(s / Minute) + "m ago"
      else if s < DaySeconds then NatToString(s / Hour) + "h ago"
      else NatToString(s / DaySeconds) + "d ago"
  }

  /** The unit a caption counts in, by its suffix. */
  function UnitOf(suffix: string): nat
  {
    if suffix == "m ago" then Minute else if suffix == "h ago" then Hour else DaySeconds
  }

  lemma FloorBounds(s: int, unit: int)
    requires s >= 0 && unit > 0
    ensures (s / unit) * unit <= s < (s / unit + 1) * unit
  {
  }

  /** Anything under a minute, including a time in the future, is "just now"; otherwise
      the caption is a number and a unit (the largest unit that fits, up to days), and
      reading the number back gives the whole units elapsed. */
  lemma TimeAgoMeaning(nowMs: int, thenMs: int)
    ensures var s := ElapsedSeconds(nowMs, thenMs);
            var r := TimeAgo(nowMs, Some(thenMs));
            && (s < Minute <==> r == "just now")
            && (s >= Minute ==> exists digits, suffix ::
                  && r == digits + suffix && AllDigits(digits)
                  && suffix in {"m ago", "h ago", "d ago"}
                  && (suffix == "m ago" <==> s < Hour)
                  && (suffix == "h ago" <==> Hour <= s < DaySeconds)
                  && DigitsValue(digits) * UnitOf(suffix) <= s < (DigitsValue(digits) + 1) * UnitOf(suffix))
  {
    var s := ElapsedSeconds(nowMs, thenMs);
    var r := TimeAgo(nowMs, Some(thenMs));
    if s >= Minute {
      var suffix := if s < Hour then "m ago" else if s < DaySeconds then "h ago" else "d ago";
      var unit := UnitOf(suffix);
      var digits := NatToString(s / unit);
      DigitsValueOfNatToString(s / unit);
      FloorBounds(s, unit);
      assert r == digits + suffix;
      assert r[0] == digits[0] && IsDigit(r[0]);
      assert "just now"[0] == 'j';
      assert suffix in {"m ago", "h ago", "d ago"};
      assert DigitsValue(digits) * UnitOf(suffix) <= s < (DigitsValue(digits) + 1) * UnitOf(suffix);
    } else {
      assert r == "just now";
    }
  }

  // ---------------------------------------------------------------------------
  // The list and the counters

  const MaxItems := 10
  const BaseTotal := 750
  const MinLive := 8
  const MaxLive := 25

  /** `[newItem, ...prev.slice(0, 9)]`. */
  function Prepend(item: ActivityItem, prev: seq<ActivityItem>): seq<ActivityItem>
  {
    [item] + prev[..if |prev| < MaxItems - 1 then |prev| else MaxItems - 1]
  }

  /** The new item comes first, followed by the newest older items in their order; the
      list never exceeds ten. */
  lemma PrependKeepsNewest(item: ActivityItem, prev: seq<ActivityItem>)
    ensures var r := Prepend(item, prev);
            && r[0] == item
            && |r| == (if |prev| + 1 < MaxItems then |prev| + 1 else MaxItems)
            && r[1..] == prev[..|r| - 1]
  {
  }

  /** One interval tick: `Math.max(8, Math.min(25, prev + change))`. */
  function LiveTick(prev: int, change: int): int
  {
    var m := if prev + change < MaxLive then prev + change else MaxLive;
    if m > MinLive then m else MinLive
  }

  /** A tick lands in [8, 25] and, from a value already there, moves by at most one. */
  lemma LiveTickBounded(prev: int, change: int)
    requires -1 <= change <= 1
    ensures MinLive <= LiveTick(prev, change) <= MaxLive
    ensures MinLive <= prev <= MaxLive ==> -1 <= LiveTick(prev, change) - prev <= 1
    ensures MinLive < prev + change < MaxLive ==> LiveTick(prev, change) == prev + change
  {
  }

  /** The result of the initial fetch: the newest rows and the exact row count, either
      of which the client may report as null, or a rejection. */
  datatype FetchOutcome = Fetched(rows: Option<seq<ActivityItem>>, count: Option<nat>) | Failed

  class Feed {
    /** Whether a database client is configured; without one there is no fetch and no subscription. */
    const hasClient: bool
    var activities: seq<ActivityItem>
    var loading: bool
    var liveCount: int
    var totalCount: int

    predicate Valid()
      reads this
    {
      |activities| <= MaxItems && MinLive <= liveCount <= MaxLive && totalCount >= BaseTotal
    }

    /** Mounting: `initialLive` is `Math.floor(Math.random() * 8) + 12`. */
    constructor (hasClient: bool, initialLive: int)
      requires 12 <= initialLive < 20
      ensures this.hasClient == hasClient && Valid()
      ensures activities == [] && loading && liveCount == initialLive && totalCount == BaseTotal
    {
      this.hasClient := hasClient;
      activities := [];
      loading := true;
      liveCount := initialLive;
      totalCount := BaseTotal;
    }

    /** `fetchRealData` settles: only a non-empty result replaces the list, a known count
      sets the total, and loading ends whatever happened. The query asks for at most ten rows. */
    method FinishLoad(outcome: FetchOutcome)
      requires Valid()
      requires outcome.Fetched? && outcome.rows.Some? ==> |outcome.rows.value| <= MaxItems
      modifies this
      ensures Valid() && !loading && liveCount == old(liveCount)
      ensures activities == (if hasClient && outcome.Fetched? && outcome.rows.Some? && outcome.rows.value != []
                             then outcome.rows.value else old(activities))
      ensures totalCount == (if hasClient && outcome.Fetched? && outcome.count.Some?
                             then BaseTotal + outcome.count.value else old(totalCount))
    {
      if hasClient {
        match outcome
        case Failed =>
        case Fetched(rows, count) =>
          if rows.Some? && |rows.value| > 0 {
            activities := rows.value;
          }
          if count.Some? {
            totalCount := BaseTotal + count.value;
          }
      }
      loading := false;
    }

    /** A realtime insert, delivered only through the client's subscription. */
    method Insert(item: ActivityItem)
      requires Valid() && hasClient
      modifies this
      ensures Valid()
      ensures activities == Prepend(item, old(activities))
      ensures totalCount == old(totalCount) + 1
      ensures loading == old(loading) && liveCount == old(liveCount)
    {
      PrependKeepsNewest(item, activities);
      activities := Prepend(item, activities);
      totalCount := totalCount + 1;
    }

    /** The five-second interval: `change` is `Math.floor(Math.random() * 3) - 1`. */
    method Tick(change: int)
      requires Valid() && -1 <= change <= 1
      modifies this
      ensures Valid()
      ensures liveCount == LiveTick(old(liveCount), change)
      ensures activities == old(activities) && totalCount == old(totalCount) && loading == old(loading)
    {
      LiveTickBounded(liveCount, change);
      liveCount := LiveTick(liveCount, change);
    }

    /** The render guard: nothing without a client, nor once loading ended with no activity. */
    predicate Renders()
      reads this
    {
      hasClient && (loading || |activities| > 0)
    }
  }

  /** Without a client, the feed never renders: loading ends and the list stays empty. */
  method NoClientNeverRenders(initialLive: int, outcome: FetchOutcome) returns (f: Feed)
    requires 12 <= initialLive < 20
    requires outcome.Fetched? && outcome.rows.Some? ==> |outcome.rows.value| <= MaxItems
    ensures !f.Renders() && !f.loading && f.activities == []
  {
    f := new Feed(false, initialLive);
    f.FinishLoad(outcome);
  }
}
