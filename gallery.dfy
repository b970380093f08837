/** The recent-images gallery: the merged list of the latest local entry and the
    remote rows, the timestamp caption, and the full-screen viewer's index with its
    circular navigation, clamp and keyboard handling. */
module Gallery {
  import opened Common
  import opened WeatherTypes

  /** `formatTimestamp`: `parse` is `new Date(ts).getTime()` (None for an invalid
      date) and `format` is the locale formatter. */
  function FormatTimestamp(timestamp: Option<string>, parse: string -> Option<int>,
                           format: int -> string): (r: string)
    ensures !Truthy(timestamp) ==> r == "Just now"
    ensures Truthy(timestamp) && parse(timestamp.value).None? ==> r == "Just now"
    ensures Truthy(timestamp) && parse(timestamp.value).Some? ==> r == format(parse(timestamp.value).value)
  {
    if !Truthy(timestamp) then "Just now"
    else match parse(timestamp.value)
      case None => "Just now"
      case Some(ms) => format(ms)
  }

  // ---------------------------------------------------------------------------
  // The merged list

  const LocalLatestId := "local-latest"

  /** `items.filter(item => item.id !== id)`; two absent ids compare equal. */
  function Without(items: seq<SearchEntry>, id: Option<string>): seq<SearchEntry>
  {
    if items == [] then []
    else (if items[0].id == id then [] else [items[0]]) + Without(items[1..], id)
  }

  /** `mergedItems`. */
  function Merged(current: Option<SearchEntry>, items: seq<SearchEntry>): seq<SearchEntry>
  {
    match current
    case None => items
    case Some(c) =>
      [c.(id := Some(if c.id.Some? then c.id.value else LocalLatestId))] + Without(items, c.id)
  }

  /** Filtering distributes over concatenation, so it keeps the relative order of what it keeps. */
  lemma {:induction false} WithoutAppend(a: seq<SearchEntry>, b: seq<SearchEntry>, id: Option<string>)
    ensures Without(a + b, id) == Without(a, id) + Without(b, id)
  {
    if a != [] {
      var head := if a[0].id == id then [] else [a[0]];
      var rest, tail := Without(a[1..], id), Without(b, id);
      assert Without(a + b, id) == head + (rest + tail) by {
        assert (a + b)[0] == a[0];
        assert (a + b)[1..] == a[1..] + b;
        WithoutAppend(a[1..], b, id);
      }
      assert head + (rest + tail) == (head + rest) + tail;
    } else {
      assert a + b == b;
    }
  }

  /** An item survives exactly when its id differs from the dropped one; nothing is added. */
  lemma {:induction false} WithoutMembers(items: seq<SearchEntry>, id: Option<string>)
    ensures |Without(items, id)| <= |items|
    ensures forall x :: x in Without(items, id) <==> x in items && x.id != id
  {
    if items != [] {
      WithoutMembers(items[1..], id);
      assert items == [items[0]] + items[1..];
    }
  }

  /** With a current entry the list starts with it, its id defaulting to "local-latest",
      followed by the remote rows with another id in their order; without one it is the
      remote list. */
  lemma MergedShape(current: Option<SearchEntry>, items: seq<SearchEntry>)
    ensures current.None? ==> Merged(current, items) == items
    ensures current.Some? ==> var m := Merged(current, items);
      && m != []
      && m[0] == current.value.(id := Some(if current.value.id.Some? then current.value.id.value else LocalLatestId))
      && m[1..] == Without(items, current.value.id)
      && |m| <= |items| + 1
      && (forall x :: x in m[1..] <==> x in items && x.id != current.value.id)
  {
    if current.Some? {
      WithoutMembers(items, current.value.id);
    }
  }

  // ---------------------------------------------------------------------------
  // Circular navigation and the clamp

  /** `goToNext` on a list of `n` items. */
  function NextIndex(prev: Option<int>, n: int): Option<int>
    requires prev.Some? ==> n > 0
  {
    match prev
    case None => None
    case Some(i) => Some((i + 1) % n)
  }

  /** `goToPrevious` on a list of `n` items. */
  function PrevIndex(prev: Option<int>, n: int): Option<int>
    requires prev.Some? ==> n > 0
  {
    match prev
    case None => None
    case Some(i) => Some((i - 1 + n) % n)
  }

  predicate InRange(index: Option<int>, n: int)
  {
    index.Some? ==> 0 <= index.value < n
  }

  lemma ModBelow(x: int, n: int)
    requires 0 <= x < n
    ensures x % n == x
  {
  }

  lemma ModOnce(x: int, n: int)
    requires n <= x < 2 * n
    ensures x % n == x - n
  {
  }

  /** Both moves keep an index in range, leave no index absent, and undo each other. */
  lemma NavigationWraps(prev: Option<int>, n: int)
    requires prev.Some? ==> n > 0
    requires InRange(prev, n)
    ensures prev.None? ==> NextIndex(prev, n).None? && PrevIndex(prev, n).None?
    ensures InRange(NextIndex(prev, n), n) && InRange(PrevIndex(prev, n), n)
    ensures PrevIndex(NextIndex(prev, n), n) == prev
    ensures NextIndex(PrevIndex(prev, n), n) == prev
    ensures prev.Some? && prev.value + 1 < n ==> NextIndex(prev, n) == Some(prev.value + 1)
    ensures prev.Some? && prev.value == n - 1 ==> NextIndex(prev, n) == Some(0)
    ensures prev.Some? && prev.value == 0 ==> PrevIndex(prev, n) == Some(n - 1)
  {
    if prev.Some? {
      var i := prev.value;
      if i + 1 < n {
        ModBelow(i + 1, n);
        ModOnce(i + n, n);
      } else {
        ModOnce(i + 1, n);
        ModBelow(i, n);
      }
      if i > 0 {
        ModOnce(i - 1 + n, n);
        ModBelow(i, n);
      } else {
        ModBelow(n - 1, n);
        ModOnce(n, n);
      }
    }
  }

  /** The clamp effect after the list changes to `n` items. */
  function ClampIndex(index: Option<int>, n: int): (r: Option<int>)
    ensures index.None? ==> r.None?
    ensures index.Some? && n <= 0 ==> r.None?
    ensures index.Some? && n > 0 && index.value > n - 1 ==> r == Some(n - 1)
    ensures index.Some? && n > 0 && index.value <= n - 1 ==> r == index
  {
    if index.None? then index
    else if n <= 0 then None
    else if index.value > n - 1 then Some(n - 1)
    else index
  }

  /** A clamped index that was not negative is in range. */
  lemma ClampInRange(index: Option<int>, n: int)
    requires index.Some? ==> index.value >= 0
    ensures InRange(ClampIndex(index, n), n)
  {
  }

  // ---------------------------------------------------------------------------
  // The viewer

  datatype Key = Escape | ArrowRight | ArrowLeft | Other(name: string)

  /** The gallery's state: the remote rows, the current entry it was given, and the
      index of the image open in the viewer. */
  class Viewer {
    var remote: seq<SearchEntry>
    var current: Option<SearchEntry>
    var activeIndex: Option<int>

    function Items(): seq<SearchEntry>
      reads this
    {
      Merged(current, remote)
    }

    /** The open index always names an item. */
    predicate Valid()
      reads this
    {
      InRange(activeIndex, |Items()|)
    }

    constructor (current: Option<SearchEntry>)
      ensures this.current == current && remote == [] && activeIndex.None?
      ensures Valid()
    {
      this.current := current;
      remote := [];
      activeIndex := None;
    }

    /** `openViewer`: only an index holding an item opens the viewer. */
    method Open(index: int)
      requires Valid()
      modifies this
      ensures Valid()
      ensures remote == old(remote) && current == old(current)
      ensures 0 <= index < |Items()| ==> activeIndex == Some(index)
      ensures !(0 <= index < |Items()|) ==> activeIndex == old(activeIndex)
    {
      if 0 <= index < |Items()| {
        activeIndex := Some(index);
      }
    }

    /** `closeViewer`. */
    method Close()
      modifies this
      ensures Valid()
      ensures remote == old(remote) && current == old(current) && activeIndex.None?
    {
      activeIndex := None;
    }

    method Next()
      requires Valid()
      modifies this
      ensures Valid()
      ensures remote == old(remote) && current == old(current)
      ensures activeIndex == NextIndex(old(activeIndex), |Items()|)
    {
      NavigationWraps(activeIndex, |Items()|);
      activeIndex := NextIndex(activeIndex, |Items()|);
    }

    method Previous()
      requires Valid()
      modifies this
      ensures Valid()
      ensures remote == old(remote) && current == old(current)
      ensures activeIndex == PrevIndex(old(activeIndex), |Items()|)
    {
      NavigationWraps(activeIndex, |Items()|);
      activeIndex := PrevIndex(activeIndex, |Items()|);
    }

    /** The keydown handler, installed while the viewer is open. */
    method HandleKey(key: Key)
      requires Valid() && activeIndex.Some?
      modifies this
      ensures Valid()
      ensures remote == old(remote) && current == old(current)
      ensures key == Escape ==> activeIndex.None?
      ensures key == ArrowRight ==> activeIndex == NextIndex(old(activeIndex), |Items()|)
      ensures key == ArrowLeft ==> activeIndex == PrevIndex(old(activeIndex), |Items()|)
      ensures key.Other? ==> activeIndex == old(activeIndex)
    {
      match key
      case Escape => Close();
      case ArrowRight => Next();
      case ArrowLeft => Previous();
      case Other(_) =>
    }

    /** New remote rows arrive, then the clamp effect runs. */
    method SetRemote(rows: seq<SearchEntry>)
      requires Valid()
      modifies this
      ensures Valid()
      ensures remote == rows && current == old(current)
      ensures activeIndex == ClampIndex(old(activeIndex), |Items()|)
    {
      remote := rows;
      ClampInRange(activeIndex, |Items()|);
      activeIndex := ClampIndex(activeIndex, |Items()|);
    }

    /** A new current entry is passed in, then the clamp effect runs. */
    method SetCurrent(entry: Option<SearchEntry>)
      requires Valid()
      modifies this
      ensures Valid()
      ensures remote == old(remote) && current == entry
      ensures activeIndex == ClampIndex(old(activeIndex), |Items()|)
    {
      current := entry;
      ClampInRange(activeIndex, |Items()|);
      activeIndex := ClampIndex(activeIndex, |Items()|);
    }
  }
}
