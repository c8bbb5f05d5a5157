/** The order of tabs: pinned tabs come first, and tabs move next to other tabs. */
module TabOrder {
  import opened Text

  datatype Tab = Tab(id: nat, pinned: bool)

  datatype Position = Before(target: nat) | After(target: nat) | Outside

  datatype Direction = Left | Right

  // ----- Operations on the order

  /** The first tab with this id. */
  function IndexOf(tabs: seq<Tab>, id: nat): (r: Option<nat>)
    ensures r.Some? ==> r.value < |tabs| && tabs[r.value].id == id && forall j | 0 <= j < r.value :: tabs[j].id != id
    ensures r.None? ==> forall j | 0 <= j < |tabs| :: tabs[j].id != id
  {
    if tabs == [] then None
    else if tabs[0].id == id then Some(0)
    else
      var r := IndexOf(tabs[1..], id);
      assert forall j | 0 < j < |tabs| :: tabs[j] == tabs[1..][j - 1];
      if r.None? then None else Some(r.value + 1)
  }

  function RemovedAt<T>(s: seq<T>, i: nat): (r: seq<T>)
    requires i < |s|
    ensures |r| == |s| - 1
  {
    s[..i] + s[i + 1..]
  }

  function InsertedAt<T>(s: seq<T>, i: nat, x: T): (r: seq<T>)
    requires i <= |s|
    ensures |r| == |s| + 1
  {
    s[..i] + [x] + s[i..]
  }

  lemma {:induction false} RemovedIs<T>(s: seq<T>, i: nat)
    requires i < |s|
    ensures forall j | 0 <= j < |s| - 1 :: RemovedAt(s, i)[j] == s[if j < i then j else j + 1]
  {
  }

  lemma {:induction false} InsertedIs<T>(s: seq<T>, i: nat, x: T)
    requires i <= |s|
    ensures forall j {:trigger InsertedAt(s, i, x)[j]} | 0 <= j <= |s| ::
      InsertedAt(s, i, x)[j] == (if j < i then s[j] else if j == i then x else s[j - 1])
  {
  }

  /** Where a tab is put back after it was taken from `source`, to be next to `target`. */
  function Insertion(source: nat, target: nat, after: bool): nat
    requires source != target
  {
    (if source < target then target - 1 else target) + (if after then 1 else 0)
  }

  /** The order after moving a tab next to another, or `None` if nothing moves. */
  function Reordered(tabs: seq<Tab>, sourceId: nat, position: Position, activeId: nat): Option<seq<Tab>> {
    if position.Outside? then None
    else
      var source, target := IndexOf(tabs, sourceId), IndexOf(tabs, position.target);
      if source.None? || target.None? || IndexOf(tabs, activeId).None? || source == target then None
      else
        var at := Insertion(source.value, target.value, position.After?);
        if at == source.value then None
        else Some(InsertedAt(RemovedAt(tabs, source.value), at, tabs[source.value]))
  }

  function Neighbour(tabs: seq<Tab>, id: nat, direction: Direction): Option<Tab> {
    var i := IndexOf(tabs, id);
    if i.None? then None
    else if direction.Left? then (if i.value == 0 then None else Some(tabs[i.value - 1]))
    else if i.value + 1 == |tabs| then None
    else Some(tabs[i.value + 1])
  }

  function Moved(tabs: seq<Tab>, id: nat, direction: Direction, activeId: nat): Option<seq<Tab>> {
    var n := Neighbour(tabs, id, direction);
    if n.None? then None
    else Reordered(tabs, id, if direction.Left? then Before(n.value.id) else After(n.value.id), activeId)
  }

  /** The number of pinned tabs before the first that is not. */
  function PinnedCount(tabs: seq<Tab>): (n: nat)
    ensures n <= |tabs| && (n < |tabs| ==> !tabs[n].pinned) && forall i | 0 <= i < n :: tabs[i].pinned
  {
    if tabs == [] || !tabs[0].pinned then 0
    else
      assert forall i | 0 < i < |tabs| :: tabs[i] == tabs[1..][i - 1];
      1 + PinnedCount(tabs[1..])
  }

  predicate DropPreservesPinning(tabs: seq<Tab>, sourceId: nat, position: Position) {
    var source := IndexOf(tabs, sourceId);
    source.Some? && !position.Outside? &&
    var target := IndexOf(tabs, position.target);
    target.Some? && tabs[target.value].pinned == tabs[source.value].pinned
  }

  predicate MovePreservesPinning(tabs: seq<Tab>, index: nat, direction: Direction) {
    if direction.Left? then 0 < index < |tabs| && tabs[index - 1].pinned == tabs[index].pinned
    else index + 1 < |tabs| && tabs[index + 1].pinned == tabs[index].pinned
  }

  function InsertedTab(tabs: seq<Tab>, tab: Tab): seq<Tab> {
    InsertedAt(tabs, if tab.pinned then PinnedCount(tabs) else |tabs|, tab)
  }

  function Toggled(tabs: seq<Tab>, index: nat): seq<Tab>
    requires index < |tabs|
  {
    var rest := RemovedAt(tabs, index);
    InsertedAt(rest, PinnedCount(rest), tabs[index].(pinned := !tabs[index].pinned))
  }

  // ----- The tab bar as the program keeps it

  class TabBar {
    var tabs: seq<Tab>
    var active: nat

    constructor (tabs: seq<Tab>, active: nat)
      ensures this.tabs == tabs && this.active == active
    {
      this.tabs, this.active := tabs, active;
    }

    method ReorderItemsById(sourceId: nat, position: Position, activeId: nat) returns (index: Option<nat>)
      modifies this`tabs
      ensures var r := Reordered(old(tabs), sourceId, position, activeId);
        if r.None? then index == None && tabs == old(tabs)
        else tabs == r.value && index == IndexOf(tabs, activeId)
    {
      hide RemovedAt, InsertedAt, IndexOf;
      var targetId, insertAfter;
      match position {
        case Before(id) => targetId, insertAfter := id, false;
        case After(id) => targetId, insertAfter := id, true;
        case Outside => return None;
      }
      var source := IndexOf(tabs, sourceId);
      var target := IndexOf(tabs, targetId);
      if source.None? || target.None? || IndexOf(tabs, activeId).None? || source.value == target.value {
        return None;
      }
      var afterRemoval := if source.value < target.value then target.value - 1 else target.value;
      var insertion := if insertAfter then afterRemoval + 1 else afterRemoval;
      if insertion == source.value {
        return None;
      }
      var item := tabs[source.value];
      tabs := RemovedAt(tabs, source.value);
      tabs := InsertedAt(tabs, insertion, item);
      index := IndexOf(tabs, activeId);
    }

    method MoveItemById(sourceId: nat, direction: Direction, activeId: nat, enabled: bool) returns (index: Option<nat>)
      modifies this`tabs
      ensures var r := if enabled then Moved(old(tabs), sourceId, direction, activeId) else None;
        if r.None? then index == None && tabs == old(tabs)
        else tabs == r.value && index == IndexOf(tabs, activeId)
    {
      if !enabled {
        return None;
      }
      var target := Neighbour(tabs, sourceId, direction);
      if target.None? {
        return None;
      }
      var position := if direction.Left? then Before(target.value.id) else After(target.value.id);
      index := ReorderItemsById(sourceId, position, activeId);
    }

    method InsertTabInPinOrder(tab: Tab) returns (index: nat)
      modifies this`tabs
      ensures tabs == InsertedTab(old(tabs), tab) && index < |tabs| && tabs[index] == tab
    {
      index := if tab.pinned then PinnedCount(tabs) else |tabs|;
      tabs := InsertedAt(tabs, index, tab);
    }

    method ToggleTabPinningInOrder(index: nat) returns (insertion: Option<nat>)
      modifies this`tabs
      ensures insertion.None? <==> index >= |old(tabs)|
      ensures insertion.None? ==> tabs == old(tabs)
      ensures insertion.Some? ==>
        && tabs == Toggled(old(tabs), index) && insertion.value < |tabs|
        && tabs[insertion.value] == old(tabs)[index].(pinned := !old(tabs)[index].pinned)
    {
      if index >= |tabs| {
        return None;
      }
      var tab := tabs[index];
      tabs := RemovedAt(tabs, index);
      tab := tab.(pinned := !tab.pinned);
      var at := PinnedCount(tabs);
      tabs := InsertedAt(tabs, at, tab);
      insertion := Some(at);
    }
  }

  // ----- Orders that are kept

  ghost predicate PinnedFirst(tabs: seq<Tab>) {
    forall i, j | 0 <= i < j < |tabs| && tabs[j].pinned :: tabs[i].pinned
  }

  ghost predicate Distinct(tabs: seq<Tab>) {
    forall i, j | 0 <= i < j < |tabs| :: tabs[i].id != tabs[j].id
  }

  /** All tabs but one, in order. */
  function Others(tabs: seq<Tab>, id: nat): seq<Tab> {
    if tabs == [] then []
    else (if tabs[0].id == id then [] else [tabs[0]]) + Others(tabs[1..], id)
  }

  lemma {:induction false} OthersSum(a: seq<Tab>, b: seq<Tab>, id: nat)
    ensures Others(a + b, id) == Others(a, id) + Others(b, id)
    decreases |a|
  {
    if a == [] {
      assert a + b == b;
    } else {
      assert (a + b)[1..] == a[1..] + b;
      OthersSum(a[1..], b, id);
    }
  }

  lemma {:induction false} OthersOfInserted(s: seq<Tab>, i: nat, x: Tab)
    requires i <= |s|
    ensures Others(InsertedAt(s, i, x), x.id) == Others(s, x.id)
  {
    OthersSum(s[..i] + [x], s[i..], x.id);
    OthersSum(s[..i], [x], x.id);
    OthersSum(s[..i], s[i..], x.id);
    assert s[..i] + s[i..] == s && [x][1..] == [];
  }

  lemma {:induction false} PutBack<T>(s: seq<T>, i: nat)
    requires i < |s|
    ensures InsertedAt(RemovedAt(s, i), i, s[i]) == s
  {
  }

  lemma {:induction false} OthersOfRemoved(s: seq<Tab>, i: nat)
    requires i < |s|
    ensures Others(RemovedAt(s, i), s[i].id) == Others(s, s[i].id)
  {
    PutBack(s, i);
    hide RemovedAt, InsertedAt;
    OthersOfInserted(RemovedAt(s, i), i, s[i]);
  }

  lemma {:induction false} IndexIs(tabs: seq<Tab>, i: nat)
    requires Distinct(tabs) && i < |tabs|
    ensures IndexOf(tabs, tabs[i].id) == Some(i)
  {
  }

  /** The order after moving one item. */
  function MovedTo<T>(s: seq<T>, i: nat, at: nat): (r: seq<T>)
    requires i < |s| && at < |s|
    ensures |r| == |s|
  {
    InsertedAt(RemovedAt(s, i), at, s[i])
  }

  /** Where the item at `j` comes from. */
  function Origin(i: nat, at: nat, j: nat): nat {
    if j == at then i else if i <= j < at then j + 1 else if at < j <= i then j - 1 else j
  }

  lemma {:induction false} MovedIs<T>(s: seq<T>, i: nat, at: nat, j: nat)
    requires i < |s| && at < |s| && j < |s|
    ensures Origin(i, at, j) < |s| && MovedTo(s, i, at)[j] == s[Origin(i, at, j)]
  {
    hide RemovedAt, InsertedAt;
    RemovedIs(s, i);
    InsertedIs(RemovedAt(s, i), at, s[i]);
  }

  lemma {:induction false} SameItems<T>(s: seq<T>, i: nat, at: nat)
    requires i < |s| && at < |s|
    ensures multiset(MovedTo(s, i, at)) == multiset(s)
  {
    var rest := RemovedAt(s, i);
    PutBack(s, i);
    hide RemovedAt, InsertedAt;
    WithOne(rest, at, s[i]);
    WithOne(rest, i, s[i]);
  }

  lemma {:induction false} WithOne<T>(s: seq<T>, at: nat, x: T)
    requires at <= |s|
    ensures multiset(InsertedAt(s, at, x)) == multiset(s) + multiset{x}
  {
    assert s == s[..at] + s[at..];
  }

  /** What a reorder does, by index. */
  lemma {:induction false} ReorderedIs(tabs: seq<Tab>, sourceId: nat, position: Position, activeId: nat)
      returns (s: nat, t: nat, at: nat)
    requires Reordered(tabs, sourceId, position, activeId).Some?
    ensures s < |tabs| && t < |tabs| && at < |tabs| && s != t && s != at
    ensures IndexOf(tabs, sourceId) == Some(s) && IndexOf(tabs, position.target) == Some(t)
    ensures at == Insertion(s, t, position.After?)
    ensures Reordered(tabs, sourceId, position, activeId) == Some(MovedTo(tabs, s, at))
    ensures IndexOf(tabs, activeId).Some?
  {
    hide RemovedAt, InsertedAt;
    s, t := IndexOf(tabs, sourceId).value, IndexOf(tabs, position.target).value;
    at := Insertion(s, t, position.After?);
  }

  /** A reorder permutes the tabs and changes their order. */
  lemma {:induction false} ReorderPermutes(tabs: seq<Tab>, sourceId: nat, position: Position, activeId: nat)
    requires Distinct(tabs) && Reordered(tabs, sourceId, position, activeId).Some?
    ensures var out := Reordered(tabs, sourceId, position, activeId).value;
      multiset(out) == multiset(tabs) && Distinct(out) && out != tabs && IndexOf(out, activeId).Some?
  {
    var s, t, at := ReorderedIs(tabs, sourceId, position, activeId);
    var a := IndexOf(tabs, activeId).value;
    MovedIsDistinct(tabs, s, at);
    MovedIs(tabs, s, at, at);
    SameItems(tabs, s, at);
    assert tabs[s].id != tabs[at].id;
    hide Reordered, MovedTo, Insertion, Distinct;
    assert tabs[a] in multiset(MovedTo(tabs, s, at));
  }

  lemma {:induction false} MovedIsDistinct(tabs: seq<Tab>, i: nat, at: nat)
    requires Distinct(tabs) && i < |tabs| && at < |tabs|
    ensures Distinct(MovedTo(tabs, i, at))
  {
    hide MovedTo;
    forall j, k | 0 <= j < k < |tabs|
      ensures MovedTo(tabs, i, at)[j].id != MovedTo(tabs, i, at)[k].id
    {
      MovedIs(tabs, i, at, j);
      MovedIs(tabs, i, at, k);
    }
  }

  /** A reorder puts a tab next to its target, on the side asked for, and keeps the
      order of all others. */
  lemma {:induction false} ReorderLandsNextTo(tabs: seq<Tab>, sourceId: nat, position: Position, activeId: nat)
    requires Distinct(tabs) && Reordered(tabs, sourceId, position, activeId).Some?
    ensures var out := Reordered(tabs, sourceId, position, activeId).value;
      && Others(out, sourceId) == Others(tabs, sourceId)
      && IndexOf(out, sourceId).Some? && IndexOf(out, position.target).Some?
      && IndexOf(out, sourceId).value ==
           IndexOf(out, position.target).value + (if position.After? then 1 else -1)
  {
    var s, t, at := ReorderedIs(tabs, sourceId, position, activeId);
    OthersOfRemoved(tabs, s);
    OthersOfInserted(RemovedAt(tabs, s), at, tabs[s]);
    assert Others(MovedTo(tabs, s, at), sourceId) == Others(tabs, sourceId);
    MovedIsDistinct(tabs, s, at);
    hide Reordered, MovedTo, Others, Distinct, IndexOf;
    var t' := if position.After? then at - 1 else at + 1;
    MovedIs(tabs, s, at, at);
    MovedIs(tabs, s, at, t');
    IndexIs(MovedTo(tabs, s, at), at);
    IndexIs(MovedTo(tabs, s, at), t');
  }

  /** A reorder reports no change exactly when there is nothing to move: a tab is
      missing, or the source already is where it is asked to be. */
  lemma {:induction false} NothingToReorder(tabs: seq<Tab>, sourceId: nat, position: Position, activeId: nat)
    requires Distinct(tabs)
    ensures Reordered(tabs, sourceId, position, activeId).None? <==>
      || position.Outside? || IndexOf(tabs, sourceId).None? || IndexOf(tabs, position.target).None?
      || IndexOf(tabs, activeId).None? || position.target == sourceId
      || IndexOf(tabs, sourceId).value == IndexOf(tabs, position.target).value + (if position.After? then 1 else -1)
  {
  }

  // ----- Pinned tabs stay first

  lemma {:induction false} InsertKeepsPinned(tabs: seq<Tab>, tab: Tab)
    requires PinnedFirst(tabs)
    ensures PinnedFirst(InsertedTab(tabs, tab))
  {
    hide InsertedAt, PinnedCount;
    InsertedIs(tabs, if tab.pinned then PinnedCount(tabs) else |tabs|, tab);
  }

  lemma {:induction false} RemoveKeepsPinned(tabs: seq<Tab>, i: nat)
    requires PinnedFirst(tabs) && i < |tabs|
    ensures PinnedFirst(RemovedAt(tabs, i))
  {
    hide RemovedAt;
    RemovedIs(tabs, i);
  }

  lemma {:induction false} InsertAtCountKeepsPinned(tabs: seq<Tab>, tab: Tab)
    requires PinnedFirst(tabs)
    ensures PinnedFirst(InsertedAt(tabs, PinnedCount(tabs), tab))
  {
    hide InsertedAt, PinnedCount;
    InsertedIs(tabs, PinnedCount(tabs), tab);
  }

  /** Toggling keeps pinned tabs first, changes one tab, and keeps all others in order. */
  lemma {:induction false} ToggleKeepsPinned(tabs: seq<Tab>, i: nat)
    requires PinnedFirst(tabs) && i < |tabs|
    ensures PinnedFirst(Toggled(tabs, i))
    ensures Others(Toggled(tabs, i), tabs[i].id) == Others(tabs, tabs[i].id)
    ensures multiset(Toggled(tabs, i)) ==
      multiset(tabs) - multiset{tabs[i]} + multiset{tabs[i].(pinned := !tabs[i].pinned)}
  {
    var rest := RemovedAt(tabs, i);
    var x := tabs[i].(pinned := !tabs[i].pinned);
    RemoveKeepsPinned(tabs, i);
    InsertAtCountKeepsPinned(rest, x);
    OthersOfRemoved(tabs, i);
    OthersOfInserted(rest, PinnedCount(rest), x);
    WithOne(rest, PinnedCount(rest), x);
    WithOne(rest, i, tabs[i]);
    PutBack(tabs, i);
  }

  /** Where pinned tabs come first they end at the first tab that is not pinned. */
  ghost predicate PinnedUpTo(tabs: seq<Tab>, n: nat) {
    && n <= |tabs| && (forall i | 0 <= i < n :: tabs[i].pinned)
    && forall i | n <= i < |tabs| :: !tabs[i].pinned
  }

  lemma {:induction false} PinnedCountIs(tabs: seq<Tab>, n: nat)
    requires PinnedUpTo(tabs, n)
    ensures PinnedCount(tabs) == n
    decreases n
  {
    if n > 0 {
      PinnedCountIs(tabs[1..], n - 1);
    }
  }

  /** A new tab that is pinned goes right after the other pinned ones, any other last. */
  lemma {:induction false} InsertPlaces(tabs: seq<Tab>, tab: Tab, n: nat)
    requires PinnedUpTo(tabs, n)
    ensures InsertedTab(tabs, tab) == if tab.pinned then tabs[..n] + [tab] + tabs[n..] else tabs + [tab]
  {
    PinnedCountIs(tabs, n);
    hide PinnedCount;
    assert tabs[..|tabs|] == tabs && tabs[|tabs|..] == [];
  }

  /** A toggled tab goes right after the other pinned ones: newly pinned it is the last of
      them, and no longer pinned it is the first of the rest. */
  lemma {:induction false} TogglePlaces(tabs: seq<Tab>, i: nat, n: nat)
    requires i < |tabs| && PinnedUpTo(tabs[..i] + tabs[i + 1..], n)
    ensures var rest := tabs[..i] + tabs[i + 1..];
      Toggled(tabs, i) == rest[..n] + [Tab(tabs[i].id, !tabs[i].pinned)] + rest[n..]
  {
    PinnedCountIs(RemovedAt(tabs, i), n);
    hide PinnedCount;
  }

  lemma {:induction false} BetweenAlike(tabs: seq<Tab>, s: nat, t: nat, j: nat)
    requires PinnedFirst(tabs) && s < |tabs| && t < |tabs| && tabs[s].pinned == tabs[t].pinned
    ensures j < |tabs| && (s <= j <= t || t <= j <= s) ==> tabs[j].pinned == tabs[s].pinned
  {
  }

  /** A guarded drop keeps pinned tabs first. */
  lemma {:induction false} DropKeepsPinned(tabs: seq<Tab>, sourceId: nat, position: Position, activeId: nat)
    requires PinnedFirst(tabs) && DropPreservesPinning(tabs, sourceId, position)
    ensures var r := Reordered(tabs, sourceId, position, activeId); r.Some? ==> PinnedFirst(r.value)
  {
    if Reordered(tabs, sourceId, position, activeId).Some? {
      var s, t, at := ReorderedIs(tabs, sourceId, position, activeId);
      hide Reordered, MovedTo, IndexOf;
      var out := MovedTo(tabs, s, at);
      forall j | 0 <= j < |tabs|
        ensures out[j].pinned == tabs[j].pinned
      {
        MovedIs(tabs, s, at, j);
        BetweenAlike(tabs, s, t, j);
        BetweenAlike(tabs, s, t, Origin(s, at, j));
      }
      hide Origin, Insertion;
    }
  }

  /** A guarded move keeps pinned tabs first. */
  lemma {:induction false} MoveKeepsPinned(tabs: seq<Tab>, i: nat, direction: Direction, activeId: nat)
    requires PinnedFirst(tabs) && Distinct(tabs) && i < |tabs| && MovePreservesPinning(tabs, i, direction)
    ensures var r := Moved(tabs, tabs[i].id, direction, activeId); r.Some? ==> PinnedFirst(r.value)
  {
    hide RemovedAt, InsertedAt, PinnedFirst;
    IndexIs(tabs, i);
    var n: nat := if direction.Left? then i - 1 else i + 1;
    IndexIs(tabs, n);
    hide Distinct, IndexOf;
    DropKeepsPinned(tabs, tabs[i].id, if direction.Left? then Before(tabs[n].id) else After(tabs[n].id), activeId);
  }

  function Opposite(direction: Direction): Direction {
    if direction.Left? then Right else Left
  }

  /** A move exchanges two neighbours. */
  lemma {:induction false} MoveExchanges(tabs: seq<Tab>, i: nat, n: nat, direction: Direction, activeId: nat)
    requires Distinct(tabs) && i < |tabs| && n < |tabs| && IndexOf(tabs, activeId).Some?
    requires n == if direction.Left? then i - 1 else i + 1
    ensures Moved(tabs, tabs[i].id, direction, activeId) == Some(tabs[i := tabs[n]][n := tabs[i]])
  {
    IndexIs(tabs, i);
    IndexIs(tabs, n);
    Exchanged(tabs, i, n);
    hide RemovedAt, InsertedAt, Distinct, IndexOf;
  }

  lemma {:induction false} Exchanged<T>(s: seq<T>, i: nat, n: nat)
    requires i < |s| && n < |s| && (n == i - 1 || n == i + 1)
    ensures InsertedAt(RemovedAt(s, i), n, s[i]) == s[i := s[n]][n := s[i]]
  {
  }

  lemma {:induction false} MovedMeans(tabs: seq<Tab>, i: nat, direction: Direction, activeId: nat) returns (n: nat)
    requires Distinct(tabs) && i < |tabs| && Moved(tabs, tabs[i].id, direction, activeId).Some?
    ensures n < |tabs| && n == if direction.Left? then i - 1 else i + 1
    ensures IndexOf(tabs, activeId).Some?
    ensures var out := tabs[i := tabs[n]][n := tabs[i]]; Distinct(out) && IndexOf(out, activeId).Some?
  {
    IndexIs(tabs, i);
    hide RemovedAt, InsertedAt;
    n := if direction.Left? then i - 1 else i + 1;
    var out := tabs[i := tabs[n]][n := tabs[i]];
    var a := IndexOf(tabs, activeId).value;
    assert out[if a == i then n else if a == n then i else a] == tabs[a];
  }

  /** Moving a tab one way and then the other restores the order. */
  lemma {:induction false} MoveBack(tabs: seq<Tab>, i: nat, direction: Direction, activeId: nat)
    requires Distinct(tabs) && i < |tabs| && Moved(tabs, tabs[i].id, direction, activeId).Some?
    ensures var moved := Moved(tabs, tabs[i].id, direction, activeId).value;
      Moved(moved, tabs[i].id, Opposite(direction), activeId) == Some(tabs)
  {
    var n := MovedMeans(tabs, i, direction, activeId);
    hide Moved, IndexOf, Distinct;
    MoveExchanges(tabs, i, n, direction, activeId);
    var out := tabs[i := tabs[n]][n := tabs[i]];
    ExchangedBack(tabs, i, n);
    MoveExchanges(out, n, i, Opposite(direction), activeId);
  }

  lemma {:induction false} ExchangedBack<T>(s: seq<T>, i: nat, n: nat)
    requires i < |s| && n < |s|
    ensures var out := s[i := s[n]][n := s[i]];
      out[n] == s[i] && out[n := out[i]][i := out[n]] == s
  {
  }

  // ----- Runs

  /** Tabs and the active one; `Close` removes a tab and makes tab `next` active. */
  datatype Bar = Bar(tabs: seq<Tab>, active: nat)

  datatype Step =
    | Insert(tab: Tab)
    | Toggle
    | Drop(sourceId: nat, position: Position)
    | Move(direction: Direction)
    | Select(index: nat)
    | Close(index: nat, next: nat)

  predicate Enabled(b: Bar, step: Step) {
    match step
    case Insert(tab) => IndexOf(b.tabs, tab.id).None?
    case Select(index) => index < |b.tabs|
    case Close(index, next) => index < |b.tabs| && (|b.tabs| > 1 ==> next < |b.tabs| - 1)
    case _ => true
  }

  /** The tabs moved to `tabs`; the tab that was active still is. */
  function Following(b: Bar, tabs: Option<seq<Tab>>): Bar
    requires b.active < |b.tabs|
  {
    if tabs.None? then b
    else
      var index := IndexOf(tabs.value, b.tabs[b.active].id);
      if index.None? then b else Bar(tabs.value, index.value)
  }

  function Next(b: Bar, step: Step): Bar
    requires Enabled(b, step)
  {
    match step
    case Insert(tab) => Bar(InsertedTab(b.tabs, tab), if tab.pinned then PinnedCount(b.tabs) else |b.tabs|)
    case Toggle =>
      if b.active >= |b.tabs| then b
      else Bar(Toggled(b.tabs, b.active), PinnedCount(RemovedAt(b.tabs, b.active)))
    case Drop(sourceId, position) =>
      if b.active >= |b.tabs| || !DropPreservesPinning(b.tabs, sourceId, position) then b
      else Following(b, Reordered(b.tabs, sourceId, position, b.tabs[b.active].id))
    case Move(direction) =>
      if b.active >= |b.tabs| || !MovePreservesPinning(b.tabs, b.active, direction) then b
      else Following(b, Moved(b.tabs, b.tabs[b.active].id, direction, b.tabs[b.active].id))
    case Select(index) => b.(active := index)
    case Close(index, next) => Bar(RemovedAt(b.tabs, index), if |b.tabs| == 1 then 0 else next)
  }

  ghost predicate Inv(b: Bar) {
    PinnedFirst(b.tabs) && Distinct(b.tabs) && (b.tabs != [] ==> b.active < |b.tabs|)
  }

  lemma {:induction false} MovedIsReordered(tabs: seq<Tab>, i: nat, direction: Direction, activeId: nat)
    requires Distinct(tabs) && i < |tabs| && Moved(tabs, tabs[i].id, direction, activeId).Some?
    ensures Distinct(Moved(tabs, tabs[i].id, direction, activeId).value)
    ensures IndexOf(Moved(tabs, tabs[i].id, direction, activeId).value, activeId).Some?
  {
    var n := MovedMeans(tabs, i, direction, activeId);
    hide Moved, IndexOf, Distinct;
    MoveExchanges(tabs, i, n, direction, activeId);
  }

  lemma {:induction false} InsertKeepsDistinct(tabs: seq<Tab>, at: nat, tab: Tab)
    requires Distinct(tabs) && at <= |tabs| && forall j | 0 <= j < |tabs| :: tabs[j].id != tab.id
    ensures Distinct(InsertedAt(tabs, at, tab))
  {
    hide InsertedAt;
    InsertedIs(tabs, at, tab);
  }

  lemma {:induction false} RemoveKeepsDistinct(tabs: seq<Tab>, i: nat)
    requires Distinct(tabs) && i < |tabs|
    ensures Distinct(RemovedAt(tabs, i)) && forall j | 0 <= j < |tabs| - 1 :: RemovedAt(tabs, i)[j].id != tabs[i].id
  {
    hide RemovedAt;
    RemovedIs(tabs, i);
  }

  /** Every step keeps pinned tabs first and ids distinct, and unless it selects, opens
      or closes a tab, the tab that was active stays active. */
  lemma {:induction false} StepKeepsInv(b: Bar, step: Step)
    requires Inv(b) && Enabled(b, step)
    ensures Inv(Next(b, step))
    ensures (step.Toggle? || step.Drop? || step.Move?) && b.tabs != [] ==>
      Next(b, step).tabs[Next(b, step).active].id == b.tabs[b.active].id
  {
    var tabs := b.tabs;
    match step
    case Insert(tab) =>
      InsertKeepsPinned(tabs, tab);
      InsertKeepsDistinct(tabs, if tab.pinned then PinnedCount(tabs) else |tabs|, tab);
    case Toggle =>
      if b.active < |tabs| {
        ToggleKeepsPinned(tabs, b.active);
        RemoveKeepsDistinct(tabs, b.active);
        hide PinnedFirst, Distinct, RemovedAt, InsertedAt;
        var rest := RemovedAt(tabs, b.active);
        InsertKeepsDistinct(rest, PinnedCount(rest), tabs[b.active].(pinned := !tabs[b.active].pinned));
      }
    case Drop(sourceId, position) =>
      hide PinnedFirst, Distinct, Reordered;
      if b.active < |tabs| && DropPreservesPinning(tabs, sourceId, position)
         && Reordered(tabs, sourceId, position, tabs[b.active].id).Some? {
        DropKeepsPinned(tabs, sourceId, position, tabs[b.active].id);
        ReorderPermutes(tabs, sourceId, position, tabs[b.active].id);
      }
    case Move(direction) =>
      hide PinnedFirst, Distinct, Moved;
      if b.active < |tabs| && MovePreservesPinning(tabs, b.active, direction)
         && Moved(tabs, tabs[b.active].id, direction, tabs[b.active].id).Some? {
        MoveKeepsPinned(tabs, b.active, direction, tabs[b.active].id);
        MovedIsReordered(tabs, b.active, direction, tabs[b.active].id);
      }
    case Select(index) =>
    case Close(index, next) =>
      RemoveKeepsPinned(tabs, index);
      RemoveKeepsDistinct(tabs, index);
  }

  function Beside(target: Tab, after: bool): Position {
    if after then After(target.id) else Before(target.id)
  }

  lemma {:induction false} DropReorders(b: Bar, s: nat, t: nat, after: bool)
    requires Inv(b) && s < |b.tabs| && t < |b.tabs| && s != t && b.tabs[s].pinned == b.tabs[t].pinned
    requires s != t + (if after then 1 else -1)
    ensures var r := Reordered(b.tabs, b.tabs[s].id, Beside(b.tabs[t], after), b.tabs[b.active].id);
      r.Some? && Next(b, Drop(b.tabs[s].id, Beside(b.tabs[t], after))).tabs == r.value
  {
    IndexIs(b.tabs, s);
    IndexIs(b.tabs, t);
    IndexIs(b.tabs, b.active);
    var source, active, position := b.tabs[s].id, b.tabs[b.active].id, Beside(b.tabs[t], after);
    NothingToReorder(b.tabs, source, position, active);
    hide Reordered, IndexOf;
    ReorderPermutes(b.tabs, source, position, active);
  }

  /** A drop between tabs that are both pinned or both not, when there is something to
      move, puts the tab next to its target and changes the order of no others. */
  lemma {:induction false} DropMoves(b: Bar, s: nat, t: nat, after: bool)
    requires Inv(b) && s < |b.tabs| && t < |b.tabs| && s != t && b.tabs[s].pinned == b.tabs[t].pinned
    requires s != t + (if after then 1 else -1)
    ensures var source, target := b.tabs[s].id, b.tabs[t].id;
      var out := Next(b, Drop(source, Beside(b.tabs[t], after))).tabs;
      && Others(out, source) == Others(b.tabs, source)
      && IndexOf(out, source).Some? && IndexOf(out, target).Some?
      && IndexOf(out, source).value == IndexOf(out, target).value + (if after then 1 else -1)
  {
    hide Reordered, IndexOf, Others, Next, PinnedFirst;
    DropReorders(b, s, t, after);
    ReorderLandsNextTo(b.tabs, b.tabs[s].id, Beside(b.tabs[t], after), b.tabs[b.active].id);
  }

  /** Any other drop changes nothing. */
  lemma {:induction false} DropsNothing(b: Bar, s: nat, t: nat, after: bool)
    requires Inv(b) && s < |b.tabs| && t < |b.tabs|
    requires b.tabs[s].pinned != b.tabs[t].pinned || s == t || s == t + (if after then 1 else -1)
    ensures Next(b, Drop(b.tabs[s].id, Beside(b.tabs[t], after))) == b
  {
    IndexIs(b.tabs, s);
    IndexIs(b.tabs, t);
    NothingToReorder(b.tabs, b.tabs[s].id, Beside(b.tabs[t], after), b.tabs[b.active].id);
    hide Reordered, IndexOf;
  }

  /** Moving the active tab exchanges it with its neighbour, where both are pinned or both
      are not, and does nothing elsewhere. */
  lemma {:induction false} MoveMoves(b: Bar, direction: Direction)
    requires Inv(b) && b.tabs != []
    ensures var i, n := b.active, if direction.Left? then b.active - 1 else b.active + 1;
      Next(b, Move(direction)) ==
        if 0 <= n < |b.tabs| && b.tabs[n].pinned == b.tabs[i].pinned
        then Bar(b.tabs[i := b.tabs[n]][n := b.tabs[i]], n) else b
  {
    var i, n := b.active, if direction.Left? then b.active - 1 else b.active + 1;
    if 0 <= n < |b.tabs| && b.tabs[n].pinned == b.tabs[i].pinned {
      IndexIs(b.tabs, i);
      MoveExchanges(b.tabs, i, n, direction, b.tabs[i].id);
      MovedIsReordered(b.tabs, i, direction, b.tabs[i].id);
      IndexIs(b.tabs[i := b.tabs[n]][n := b.tabs[i]], n);
      hide Moved, IndexOf;
    }
  }

  /** A new tab becomes the active one. */
  lemma {:induction false} InsertActivates(b: Bar, tab: Tab)
    requires Inv(b) && Enabled(b, Insert(tab))
    ensures var c := Next(b, Insert(tab)); c.active < |c.tabs| && c.tabs[c.active] == tab
  {
    hide PinnedCount, InsertedAt, Inv, IndexOf;
    InsertedIs(b.tabs, if tab.pinned then PinnedCount(b.tabs) else |b.tabs|, tab);
  }

  ghost predicate Steps(run: seq<Bar>, steps: seq<Step>) {
    && |run| == |steps| + 1
    && forall k | 0 <= k < |steps| :: Enabled(run[k], steps[k]) && run[k + 1] == Next(run[k], steps[k])
  }

  /** Pinned tabs stay first over every run. */
  lemma {:induction false} PinnedStayFirst(run: seq<Bar>, steps: seq<Step>, k: nat)
    requires Steps(run, steps) && k < |run| && Inv(run[0])
    ensures Inv(run[k])
    decreases k
  {
    if k > 0 {
      hide Inv, Next, Enabled;
      PinnedStayFirst(run, steps, k - 1);
      StepKeepsInv(run[k - 1], steps[k - 1]);
    }
  }
}
