/** Rewriting a document that holds two managed blocks, each between a begin and an
    end marker line, and one main line before its first heading.  Lines are of any
    type; `Kinds` says which lines are markers, headings and main lines. */
module ManagedBlocks {
  import opened Text

  datatype Marker = ActionsBegin | ActionsEnd | GroupsBegin | GroupsEnd

  datatype Kinds<!T> = Kinds(marker: (T, Marker) -> bool, heading: T -> bool, main: T -> bool)

  /** What a document is rewritten to: its two blocks, whether the second block
      holds headings, and the main line. */
  datatype Content<T> = Content(actions: seq<T>, groups: seq<T>, headings: bool, main: T)

  // ----- The rewriting

  /** The first line at or after `i` that is the marker, or the number of lines. */
  function NextMarker<T>(k: Kinds<T>, lines: seq<T>, m: Marker, i: nat): (n: nat)
    requires i <= |lines|
    ensures i <= n <= |lines|
    ensures n < |lines| ==> k.marker(lines[n], m)
    ensures forall j | i <= j < n :: !k.marker(lines[j], m)
    decreases |lines| - i
  {
    if i == |lines| || k.marker(lines[i], m) then i else NextMarker(k, lines, m, i + 1)
  }

  /** The only line that is the marker, if there is exactly one. */
  function MarkerLine<T>(k: Kinds<T>, lines: seq<T>, m: Marker): (r: Option<nat>)
    ensures r.Some? ==>
      && r.value < |lines| && k.marker(lines[r.value], m)
      && forall j | 0 <= j < |lines| && k.marker(lines[j], m) :: j == r.value
    ensures r.None? ==> forall i | 0 <= i < |lines| && k.marker(lines[i], m) ::
      exists j | 0 <= j < |lines| :: j != i && k.marker(lines[j], m)
  {
    var i := NextMarker(k, lines, m, 0);
    if i < |lines| && NextMarker(k, lines, m, i + 1) == |lines| then Some(i) else None
  }

  /** Replace everything from the begin marker to the end marker. */
  function ReplaceBlock<T>(k: Kinds<T>, lines: seq<T>, begin: Marker, end: Marker, block: seq<T>): Option<seq<T>> {
    var i, j := MarkerLine(k, lines, begin), MarkerLine(k, lines, end);
    if i.Some? && j.Some? && i.value < j.value
    then Some(lines[..i.value] + (block + lines[j.value + 1..]))
    else None
  }

  function ReplaceBlocks<T>(k: Kinds<T>, lines: seq<T>, c: Content<T>): Option<seq<T>> {
    var actions := ReplaceBlock(k, lines, ActionsBegin, ActionsEnd, c.actions);
    if actions.None? then None else ReplaceBlock(k, actions.value, GroupsBegin, GroupsEnd, c.groups)
  }

  /** Replace the only main line before the first heading.  `started` says whether a
      line precedes these, `found` whether the main line was replaced already. */
  function ReplaceMain<T>(k: Kinds<T>, lines: seq<T>, started: bool, found: bool, main: T): Option<seq<T>> {
    if |lines| == 0 then None
    else if started && k.heading(lines[0]) then (if found then Some(lines) else None)
    else if k.main(lines[0]) then
      if found then None
      else
        var rest := ReplaceMain(k, lines[1..], true, true, main);
        if rest.None? then None else Some([main] + rest.value)
    else
      var rest := ReplaceMain(k, lines[1..], true, found, main);
      if rest.None? then None else Some([lines[0]] + rest.value)
  }

  function Rewrite<T>(k: Kinds<T>, lines: seq<T>, c: Content<T>): Option<seq<T>> {
    var replaced := ReplaceBlocks(k, lines, c);
    if replaced.None? then None else ReplaceMain(k, replaced.value, false, false, c.main)
  }

  // ----- Exactly which documents are accepted

  /** Line `i` is the only one that is the marker. */
  ghost predicate OnlyAt<T>(k: Kinds<T>, lines: seq<T>, m: Marker, i: nat) {
    i < |lines| && k.marker(lines[i], m) && forall j | 0 <= j < |lines| && k.marker(lines[j], m) :: j == i
  }

  /** A block is replaced exactly where each of its markers stands once, in order. */
  lemma {:induction false} ReplaceBlockExactly<T>(k: Kinds<T>, lines: seq<T>, begin: Marker, end: Marker, block: seq<T>)
    ensures var r := ReplaceBlock(k, lines, begin, end, block);
      && (r.None? <==> !exists i: nat, j: nat :: i < j && OnlyAt(k, lines, begin, i) && OnlyAt(k, lines, end, j))
      && forall i: nat, j: nat | i < j && OnlyAt(k, lines, begin, i) && OnlyAt(k, lines, end, j) ::
           r == Some(lines[..i] + (block + lines[j + 1..]))
  {
    var i, j := MarkerLine(k, lines, begin), MarkerLine(k, lines, end);
    assert i.Some? ==> OnlyAt(k, lines, begin, i.value);
    assert j.Some? ==> OnlyAt(k, lines, end, j.value);
  }

  /** Line `h` is the first heading, not counting the first line of the document. */
  ghost predicate FirstHeading<T>(k: Kinds<T>, lines: seq<T>, started: bool, h: nat) {
    && h < |lines| && (started || h > 0) && k.heading(lines[h])
    && forall j | 0 <= j < h && (started || j > 0) :: !k.heading(lines[j])
  }

  /** Line `i` is the only main line before the first heading `h`. */
  ghost predicate MainAt<T>(k: Kinds<T>, lines: seq<T>, started: bool, h: nat, i: nat) {
    && FirstHeading(k, lines, started, h) && i < h && k.main(lines[i])
    && forall j | 0 <= j < h && k.main(lines[j]) :: j == i
  }

  lemma {:induction false} HeadingLater<T>(k: Kinds<T>, lines: seq<T>, started: bool, h: nat)
    requires lines != [] && (started ==> !k.heading(lines[0]))
    ensures FirstHeading(k, lines[1..], true, h) <==> FirstHeading(k, lines, started, h + 1)
  {
    assert forall j | 0 < j < |lines| :: lines[j] == lines[1..][j - 1];
  }

  lemma {:induction false} FoundExactly<T>(k: Kinds<T>, lines: seq<T>, started: bool, x: T)
    ensures var r := ReplaceMain(k, lines, started, true, x);
      && (r.Some? ==> r.value == lines && exists h: nat :: FirstHeading(k, lines, started, h) && NoMain(k, lines, h))
      && forall h: nat | FirstHeading(k, lines, started, h) && NoMain(k, lines, h) :: r.Some?
    decreases |lines|
  {
    if lines != [] {
      if started && k.heading(lines[0]) {
        assert FirstHeading(k, lines, started, 0) && NoMain(k, lines, 0);
      } else {
        var rest := lines[1..];
        FoundExactly(k, rest, true, x);
        var r := ReplaceMain(k, lines, started, true, x);
        if r.Some? {
          var h: nat :| FirstHeading(k, rest, true, h) && NoMain(k, rest, h);
          HeadingLater(k, lines, started, h);
          NoMainLater(k, lines, h);
          assert NoMain(k, lines, h + 1);
        }
        forall h: nat | FirstHeading(k, lines, started, h) && NoMain(k, lines, h)
          ensures r.Some?
        {
          HeadingLater(k, lines, started, h - 1);
          NoMainLater(k, lines, h - 1);
        }
      }
    }
  }

  ghost predicate NoMain<T>(k: Kinds<T>, lines: seq<T>, h: nat) {
    forall j | 0 <= j < h && j < |lines| :: !k.main(lines[j])
  }

  lemma {:induction false} NoMainLater<T>(k: Kinds<T>, lines: seq<T>, h: nat)
    requires lines != []
    ensures NoMain(k, lines, h + 1) <==> !k.main(lines[0]) && NoMain(k, lines[1..], h)
  {
    assert forall j | 0 < j < |lines| :: lines[j] == lines[1..][j - 1];
  }

  lemma {:induction false} MainLater<T>(k: Kinds<T>, lines: seq<T>, started: bool, h: nat, i: nat)
    requires lines != [] && (started ==> !k.heading(lines[0])) && !k.main(lines[0])
    ensures MainAt(k, lines[1..], true, h, i) <==> MainAt(k, lines, started, h + 1, i + 1)
  {
    HeadingLater(k, lines, started, h);
    assert forall j | 0 < j < |lines| :: lines[j] == lines[1..][j - 1];
    hide FirstHeading;
    if MainAt(k, lines, started, h + 1, i + 1) {
      forall j | 0 <= j < h && k.main(lines[1..][j])
        ensures j == i
      {
        assert lines[j + 1] == lines[1..][j];
      }
    }
  }

  lemma {:induction false} MainFirst<T>(k: Kinds<T>, lines: seq<T>, started: bool, h: nat)
    requires lines != [] && (started ==> !k.heading(lines[0])) && k.main(lines[0])
    ensures MainAt(k, lines, started, h + 1, 0) <==> FirstHeading(k, lines[1..], true, h) && NoMain(k, lines[1..], h)
  {
    HeadingLater(k, lines, started, h);
    assert forall j | 0 < j < |lines| :: lines[j] == lines[1..][j - 1];
    hide FirstHeading;
    if MainAt(k, lines, started, h + 1, 0) {
      forall j | 0 <= j < h && j < |lines[1..]|
        ensures !k.main(lines[1..][j])
      {
        assert lines[j + 1] == lines[1..][j];
      }
    }
  }

  /** The main line is replaced exactly in documents with a heading after their first line
      and one main line before the first such heading; nothing else changes. */
  lemma {:induction false} ReplaceMainExactly<T>(k: Kinds<T>, lines: seq<T>, started: bool, x: T)
    ensures var r := ReplaceMain(k, lines, started, false, x);
      && (r.Some? ==> exists h: nat, i: nat :: MainAt(k, lines, started, h, i))
      && forall h: nat, i: nat | MainAt(k, lines, started, h, i) :: r == Some(lines[i := x])
    decreases |lines|
  {
    if lines != [] && !(started && k.heading(lines[0])) {
      var rest, r := lines[1..], ReplaceMain(k, lines, started, false, x);
      if k.main(lines[0]) {
        FoundExactly(k, rest, true, x);
        assert lines[0 := x] == [x] + rest;
        if r.Some? {
          var h: nat :| FirstHeading(k, rest, true, h) && NoMain(k, rest, h);
          MainFirst(k, lines, started, h);
        }
        forall h: nat, i: nat | MainAt(k, lines, started, h, i)
          ensures r == Some(lines[i := x])
        {
          assert i == 0;
          MainFirst(k, lines, started, h - 1);
        }
      } else {
        ReplaceMainExactly(k, rest, true, x);
        if r.Some? {
          var h: nat, i: nat :| MainAt(k, rest, true, h, i);
          MainLater(k, lines, started, h, i);
        }
        forall h: nat, i: nat | MainAt(k, lines, started, h, i)
          ensures r == Some(lines[i := x])
        {
          assert i > 0;
          MainLater(k, lines, started, h - 1, i - 1);
          assert lines[i := x] == [lines[0]] + rest[i - 1 := x];
        }
      }
    }
  }

  // ----- Well-formed contents

  ghost predicate Lacks<T>(k: Kinds<T>, lines: seq<T>, m: Marker) {
    forall i | 0 <= i < |lines| :: !k.marker(lines[i], m)
  }

  ghost predicate Unmarked<T>(k: Kinds<T>, line: T) {
    forall m: Marker :: !k.marker(line, m)
  }

  ghost predicate Clean<T>(k: Kinds<T>, lines: seq<T>) {
    forall i | 0 <= i < |lines| :: Unmarked(k, lines[i])
  }

  ghost predicate Plain<T>(k: Kinds<T>, line: T) {
    !k.heading(line) && !k.main(line)
  }

  /** The line is this marker and no other. */
  ghost predicate Only<T>(k: Kinds<T>, line: T, m: Marker) {
    k.marker(line, m) && forall n: Marker | n != m :: !k.marker(line, n)
  }

  /** `block` runs from its begin marker to its end marker and holds no other. */
  ghost predicate IsBlock<T>(k: Kinds<T>, block: seq<T>, begin: Marker, end: Marker) {
    && |block| >= 2 && Only(k, block[0], begin) && Only(k, block[|block| - 1], end)
    && (forall i | 0 < i < |block| - 1 :: Unmarked(k, block[i]))
  }

  /** `block` starts with its begin marker and ends with its end marker. */
  ghost predicate Delimited<T>(k: Kinds<T>, block: seq<T>, begin: Marker, end: Marker) {
    |block| >= 2 && k.marker(block[0], begin) && k.marker(block[|block| - 1], end)
  }

  ghost predicate Proper<T>(k: Kinds<T>, c: Content<T>) {
    && |c.actions| == 3 && IsBlock(k, c.actions, ActionsBegin, ActionsEnd)
    && (forall i | 0 <= i < 3 :: Plain(k, c.actions[i]))
    && IsBlock(k, c.groups, GroupsBegin, GroupsEnd)
    && Plain(k, c.groups[0]) && Plain(k, c.groups[1])
    && (if c.headings then |c.groups| >= 3 && k.heading(c.groups[2]) else |c.groups| == 2)
    && k.main(c.main) && !k.heading(c.main) && Unmarked(k, c.main)
  }

  // ----- The main line, seen part by part

  /** What reading one part of a document does: fail, reach the first heading with
      the main line replaced, or go on. */
  datatype Passed<T> = Fail | Stop(out: seq<T>) | Through(out: seq<T>, found: bool)

  function Before<T>(line: T, p: Passed<T>): Passed<T> {
    match p
    case Fail => Fail
    case Stop(out) => Stop([line] + out)
    case Through(out, found) => Through([line] + out, found)
  }

  function Pass<T>(k: Kinds<T>, lines: seq<T>, started: bool, found: bool, main: T): Passed<T> {
    if |lines| == 0 then Through([], found)
    else if started && k.heading(lines[0]) then (if found then Stop(lines) else Fail)
    else if k.main(lines[0]) then
      if found then Fail else Before(main, Pass(k, lines[1..], true, true, main))
    else Before(lines[0], Pass(k, lines[1..], true, found, main))
  }

  lemma {:induction false} PassThen<T>(k: Kinds<T>, a: seq<T>, b: seq<T>, started: bool, found: bool, main: T)
    ensures ReplaceMain(k, a + b, started, found, main) ==
      match Pass(k, a, started, found, main)
      case Fail => None
      case Stop(out) => Some(out + b)
      case Through(out, found') =>
        var rest := ReplaceMain(k, b, started || a != [], found', main);
        if rest.None? then None else Some(out + rest.value)
    decreases |a|
  {
    if a == [] {
      assert a + b == b;
      var rest := ReplaceMain(k, b, started, found, main);
      assert rest.Some? ==> [] + rest.value == rest.value;
    } else {
      assert (a + b)[1..] == a[1..] + b && (a + b)[0] == a[0];
      if !(started && k.heading(a[0])) {
        var line := if k.main(a[0]) then main else a[0];
        var r := Pass(k, a[1..], true, found || k.main(a[0]), main);
        PassThen(k, a[1..], b, true, found || k.main(a[0]), main);
        match r
        case Fail =>
        case Stop(out) =>
          assert [line] + (out + b) == ([line] + out) + b;
        case Through(out, found') =>
          var rest := ReplaceMain(k, b, true, found', main);
          if rest.Some? {
            assert [line] + (out + rest.value) == ([line] + out) + rest.value;
          }
      }
    }
  }

  /** A part once rewritten is read as the original was. */
  lemma {:induction false} PassAgain<T>(k: Kinds<T>, u: seq<T>, started: bool, found: bool, x: T, y: T)
    requires k.main(x) && !k.heading(x)
    ensures match Pass(k, u, started, found, x)
      case Fail => true
      case Stop(out) => |out| == |u| && Pass(k, out, started, found, y) == Pass(k, u, started, found, y)
      case Through(out, _) => |out| == |u| && Pass(k, out, started, found, y) == Pass(k, u, started, found, y)
    decreases |u|
  {
    if u != [] && !(started && k.heading(u[0])) {
      PassAgain(k, u[1..], true, found || k.main(u[0]), x, y);
    }
  }

  /** Once the main line is replaced, nothing else changes. */
  lemma {:induction false} PassFound<T>(k: Kinds<T>, u: seq<T>, started: bool, x: T)
    ensures match Pass(k, u, started, true, x)
      case Fail => true
      case Stop(out) => out == u
      case Through(out, found) => out == u && found
    decreases |u|
  {
    if u != [] && !(started && k.heading(u[0])) {
      PassFound(k, u[1..], true, x);
    }
  }

  /** How a part is read does not depend on the new line. */
  lemma {:induction false} PassAlike<T>(k: Kinds<T>, u: seq<T>, started: bool, found: bool, x: T, y: T)
    ensures Pass(k, u, started, found, x).Fail? <==> Pass(k, u, started, found, y).Fail?
    ensures Pass(k, u, started, found, x).Through? <==> Pass(k, u, started, found, y).Through?
    ensures Pass(k, u, started, found, x).Through? ==>
      Pass(k, u, started, found, x).found == Pass(k, u, started, found, y).found
    decreases |u|
  {
    if u != [] && !(started && k.heading(u[0])) {
      PassAlike(k, u[1..], true, found || k.main(u[0]), x, y);
    }
  }

  ghost predicate OneReplaced<T>(k: Kinds<T>, u: seq<T>, out: seq<T>, x: T) {
    exists i | 0 <= i < |u| :: k.main(u[i]) && out == u[i := x]
  }

  lemma {:induction false} OneAfter<T>(k: Kinds<T>, u: seq<T>, out: seq<T>, x: T)
    requires u != []
    ensures OneReplaced(k, u[1..], out, x) ==> OneReplaced(k, u, [u[0]] + out, x)
  {
    if OneReplaced(k, u[1..], out, x) {
      var i :| 0 <= i < |u| - 1 && k.main(u[1..][i]) && out == u[1..][i := x];
      assert k.main(u[i + 1]) && [u[0]] + out == u[i + 1 := x];
    }
  }

  /** A part changes exactly when it replaces the main line, and then in one line. */
  lemma {:induction false} PassReplacesOne<T>(k: Kinds<T>, u: seq<T>, started: bool, found: bool, x: T)
    ensures match Pass(k, u, started, found, x)
      case Fail => true
      case Stop(out) => if found then out == u else OneReplaced(k, u, out, x)
      case Through(out, found') => if found == found' then out == u else OneReplaced(k, u, out, x)
    decreases |u|
  {
    if u != [] && !(started && k.heading(u[0])) {
      if k.main(u[0]) {
        PassFound(k, u[1..], true, x);
        assert u[0 := x] == [x] + u[1..];
        assert OneReplaced(k, u, [x] + u[1..], x);
      } else {
        PassReplacesOne(k, u[1..], true, found, x);
        hide OneReplaced;
        var r := Pass(k, u[1..], true, found, x);
        if !r.Fail? {
          OneAfter(k, u, r.out, x);
        }
      }
    }
  }

  lemma {:induction false} OneInSum<T>(k: Kinds<T>, a: seq<T>, b: seq<T>, b': seq<T>, c: seq<T>, x: T)
    requires OneReplaced(k, b, b', x)
    ensures OneReplaced(k, a + (b + c), a + (b' + c), x)
  {
    var i :| 0 <= i < |b| && k.main(b[i]) && b' == b[i := x];
    assert (a + (b + c))[|a| + i] == b[i];
    assert a + (b' + c) == (a + (b + c))[|a| + i := x];
  }

  // ----- A document as two managed blocks and the text around them

  datatype Doc<T> = Doc(head: seq<T>, actionsFirst: bool, middle: seq<T>, tail: seq<T>)

  function Assemble<T>(d: Doc<T>, actions: seq<T>, groups: seq<T>): seq<T> {
    if d.actionsFirst then d.head + (actions + (d.middle + (groups + d.tail)))
    else d.head + (groups + (d.middle + (actions + d.tail)))
  }

  function With<T>(d: Doc<T>, c: Content<T>): seq<T> {
    Assemble(d, c.actions, c.groups)
  }

  /** A document without its two managed blocks. */
  function Rest<T>(d: Doc<T>): seq<T> {
    d.head + (d.middle + d.tail)
  }

  ghost predicate CleanDoc<T>(k: Kinds<T>, d: Doc<T>) {
    Clean(k, d.head) && Clean(k, d.middle) && Clean(k, d.tail)
  }

  /** The replacement of the main line on a document. */
  function MainDoc<T>(k: Kinds<T>, d: Doc<T>, headings: bool, main: T): Option<Doc<T>> {
    match Pass(k, d.head, false, false, main)
    case Fail => None
    case Stop(out) => Some(d.(head := out))
    case Through(head, found) =>
      if headings && !d.actionsFirst then (if found then Some(d.(head := head)) else None)
      else
        match Pass(k, d.middle, true, found, main)
        case Fail => None
        case Stop(out) => Some(d.(head := head, middle := out))
        case Through(middle, found') =>
          if headings && d.actionsFirst then (if found' then Some(d.(head := head, middle := middle)) else None)
          else
            match Pass(k, d.tail, true, found', main)
            case Fail => None
            case Stop(out) => Some(Doc(head, d.actionsFirst, middle, out))
            case Through(_, _) => None
  }

  /** Replacing the main line for one content, then for another, is replacing it for
      the other, although the two may find their first headings in different places. */
  lemma {:induction false} MainDocAgain<T>(k: Kinds<T>, d: Doc<T>, h1: bool, h2: bool, x: T, y: T)
    requires k.main(x) && !k.heading(x) && MainDoc(k, d, h1, x).Some?
    ensures MainDoc(k, MainDoc(k, d, h1, x).value, h2, y) == MainDoc(k, d, h2, y)
  {
    hide Pass;
    PassAgain(k, d.head, false, false, x, y);
    var head := Pass(k, d.head, false, false, x);
    if head.Through? {
      PassAgain(k, d.middle, true, head.found, x, y);
      PassAlike(k, d.head, false, false, x, y);
      if head.found {
        PassFound(k, d.middle, true, x);
      }
      var middle := Pass(k, d.middle, true, head.found, x);
      if middle.Through? {
        PassAgain(k, d.tail, true, middle.found, x, y);
        PassAlike(k, d.middle, true, head.found, x, y);
        if middle.found {
          PassFound(k, d.tail, true, x);
        }
      }
    }
  }

  lemma {:induction false} ReplacedIsClean<T>(k: Kinds<T>, u: seq<T>, out: seq<T>, x: T)
    requires Clean(k, u) && Unmarked(k, x) && (out == u || OneReplaced(k, u, out, x))
    ensures Clean(k, out)
  {
  }

  lemma {:induction false} MainDocIsClean<T>(k: Kinds<T>, d: Doc<T>, headings: bool, main: T)
    requires CleanDoc(k, d) && Unmarked(k, main) && MainDoc(k, d, headings, main).Some?
    ensures CleanDoc(k, MainDoc(k, d, headings, main).value)
  {
    hide Pass, Clean, OneReplaced, Unmarked;
    var head := Pass(k, d.head, false, false, main);
    PassReplacesOne(k, d.head, false, false, main);
    ReplacedIsClean(k, d.head, head.out, main);
    if head.Through? {
      var middle := Pass(k, d.middle, true, head.found, main);
      PassReplacesOne(k, d.middle, true, head.found, main);
      if !middle.Fail? {
        ReplacedIsClean(k, d.middle, middle.out, main);
      }
      if middle.Through? {
        var tail := Pass(k, d.tail, true, middle.found, main);
        PassReplacesOne(k, d.tail, true, middle.found, main);
        if !tail.Fail? {
          ReplacedIsClean(k, d.tail, tail.out, main);
        }
      }
    }
  }

  lemma {:induction false} MainDocChangesOneLine<T>(k: Kinds<T>, d: Doc<T>, headings: bool, main: T)
    requires MainDoc(k, d, headings, main).Some?
    ensures MainDoc(k, d, headings, main).value.actionsFirst == d.actionsFirst
    ensures OneReplaced(k, Rest(d), Rest(MainDoc(k, d, headings, main).value), main)
  {
    hide Pass, OneReplaced;
    var head := Pass(k, d.head, false, false, main);
    PassReplacesOne(k, d.head, false, false, main);
    if head.Stop? || (head.Through? && head.found) {
      OneInSum(k, [], d.head, head.out, d.middle + d.tail, main);
      assert forall s: seq<T> :: [] + s == s;
    }
    if head.Through? {
      PassReplacesOne(k, d.middle, true, head.found, main);
      var middle := Pass(k, d.middle, true, head.found, main);
      if !head.found && (middle.Stop? || (middle.Through? && middle.found)) {
        OneInSum(k, d.head, d.middle, middle.out, d.tail, main);
      }
      if middle.Through? {
        PassReplacesOne(k, d.tail, true, middle.found, main);
        if head.found {
          PassFound(k, d.middle, true, main);
        }
        var tail := Pass(k, d.tail, true, middle.found, main);
        if !middle.found && tail.Stop? {
          OneInSum(k, d.head + d.middle, d.tail, tail.out, [], main);
          assert (d.head + d.middle) + (d.tail + []) == Rest(d);
          assert (d.head + d.middle) + (tail.out + []) == d.head + (d.middle + tail.out);
        }
      }
    }
  }

  // ----- Reading an assembled document

  lemma {:induction false} PassPlain<T>(k: Kinds<T>, block: seq<T>, started: bool, found: bool, main: T)
    requires forall i | 0 <= i < |block| :: Plain(k, block[i])
    ensures Pass(k, block, started, found, main) == Through(block, found)
    decreases |block|
  {
    if block != [] {
      PassPlain(k, block[1..], true, found, main);
    }
  }

  lemma {:induction false} ReadHeading<T>(k: Kinds<T>, lines: seq<T>, started: bool, found: bool, main: T)
    requires |lines| >= 3 && Plain(k, lines[0]) && Plain(k, lines[1]) && k.heading(lines[2])
    ensures ReplaceMain(k, lines, started, found, main) == if found then Some(lines) else None
  {
    assert lines[1..][0] == lines[1] && lines[1..][1..] == lines[2..] && lines[2..][0] == lines[2];
    assert ReplaceMain(k, lines[2..], true, found, main) == if found then Some(lines[2..]) else None;
    assert [lines[1]] + lines[2..] == lines[1..];
    assert ReplaceMain(k, lines[1..], true, found, main) == if found then Some(lines[1..]) else None;
    assert [lines[0]] + lines[1..] == lines;
  }

  /** The groups block lets reading go on when it is empty, and ends it otherwise. */
  lemma {:induction false} ReadGroups<T>(k: Kinds<T>, c: Content<T>, rest: seq<T>, started: bool, found: bool, main: T)
    requires Proper(k, c)
    ensures ReplaceMain(k, c.groups + rest, started, found, main) ==
      if c.headings then (if found then Some(c.groups + rest) else None)
      else
        var r := ReplaceMain(k, rest, true, found, main);
        if r.None? then None else Some(c.groups + r.value)
  {
    if c.headings {
      ReadHeading(k, c.groups + rest, started, found, main);
    } else {
      PassPlain(k, c.groups, started, found, main);
      PassThen(k, c.groups, rest, started, found, main);
    }
  }

  lemma {:induction false} ReadToEnd<T>(k: Kinds<T>, lines: seq<T>, found: bool, main: T)
    ensures ReplaceMain(k, lines, true, found, main) ==
      match Pass(k, lines, true, found, main)
      case Stop(out) => Some(out)
      case _ => None
  {
    PassThen(k, lines, [], true, found, main);
    assert lines + [] == lines;
    var r := Pass(k, lines, true, found, main);
    assert r.Stop? ==> r.out + [] == r.out;
  }

  /** Replacing the main line of an assembled document is replacing it in the document. */
  lemma {:induction false} MainOnDoc<T>(k: Kinds<T>, d: Doc<T>, c: Content<T>)
    requires Proper(k, c)
    ensures ReplaceMain(k, With(d, c), false, false, c.main) ==
      var r := MainDoc(k, d, c.headings, c.main);
      if r.None? then None else Some(With(r.value, c))
  {
    var a, g, main := c.actions, c.groups, c.main;
    assert |a| == 3 && forall i | 0 <= i < 3 :: Plain(k, a[i]);
    hide Pass, Proper;
    var head := Pass(k, d.head, false, false, main);
    if d.actionsFirst {
      PassThen(k, d.head, a + (d.middle + (g + d.tail)), false, false, main);
      if head.Through? {
        PassPlain(k, a, d.head != [], head.found, main);
        PassThen(k, a, d.middle + (g + d.tail), d.head != [], head.found, main);
        PassThen(k, d.middle, g + d.tail, true, head.found, main);
        var middle := Pass(k, d.middle, true, head.found, main);
        if middle.Through? {
          ReadGroups(k, c, d.tail, true, middle.found, main);
          ReadToEnd(k, d.tail, middle.found, main);
        }
      }
    } else {
      PassThen(k, d.head, g + (d.middle + (a + d.tail)), false, false, main);
      if head.Through? {
        ReadGroups(k, c, d.middle + (a + d.tail), d.head != [], head.found, main);
        PassThen(k, d.middle, a + d.tail, true, head.found, main);
        var middle := Pass(k, d.middle, true, head.found, main);
        if middle.Through? {
          PassPlain(k, a, true, middle.found, main);
          PassThen(k, a, d.tail, true, middle.found, main);
          ReadToEnd(k, d.tail, middle.found, main);
        }
      }
    }
  }

  // ----- Finding the blocks

  lemma {:induction false} MarkerIs<T>(k: Kinds<T>, lines: seq<T>, m: Marker, i: nat)
    requires i < |lines| && k.marker(lines[i], m)
    requires forall j | 0 <= j < |lines| && k.marker(lines[j], m) :: j == i
    ensures MarkerLine(k, lines, m) == Some(i)
  {
  }

  lemma {:induction false} Parts<T>(u: seq<T>, x: seq<T>, v: seq<T>)
    ensures var s := u + (x + v);
      && |s| == |u| + |x| + |v|
      && (forall i | 0 <= i < |u| :: s[i] == u[i])
      && (forall i | 0 <= i < |x| :: s[|u| + i] == x[i])
      && (forall i | |u| <= i < |u| + |x| :: s[i] == x[i - |u|])
      && (forall i | |u| + |x| <= i < |s| :: s[i] == v[i - |u| - |x|])
      && s[..|u|] == u && s[|u| + |x|..] == v
  {
  }

  lemma {:induction false} Regroup<T>(a: seq<T>, b: seq<T>, c: seq<T>, d: seq<T>)
    ensures a + (b + (c + d)) == (a + (b + c)) + d
  {
  }

  lemma {:induction false} LacksAround<T>(k: Kinds<T>, a: seq<T>, b: seq<T>, c: seq<T>, m: Marker)
    requires Lacks(k, a, m) && Lacks(k, b, m) && Lacks(k, c, m)
    ensures Lacks(k, a + (b + c), m)
  {
  }

  lemma {:induction false} BlockLacks<T>(k: Kinds<T>, block: seq<T>, begin: Marker, end: Marker, m: Marker)
    requires IsBlock(k, block, begin, end) && m != begin && m != end
    ensures Lacks(k, block, m)
  {
  }

  lemma {:induction false} ReplaceBlockAt<T>(k: Kinds<T>, u: seq<T>, block: seq<T>, v: seq<T>, begin: Marker,
                                             end: Marker,
                                             replacement: seq<T>)
    requires begin != end && IsBlock(k, block, begin, end)
    requires Lacks(k, u, begin) && Lacks(k, v, begin) && Lacks(k, u, end) && Lacks(k, v, end)
    ensures ReplaceBlock(k, u + (block + v), begin, end, replacement) == Some(u + (replacement + v))
  {
    var lines := u + (block + v);
    var i, j := |u|, |u| + |block| - 1;
    Parts(u, block, v);
    MarkerIs(k, lines, begin, i);
    MarkerIs(k, lines, end, j);
  }

  /** Replacing the blocks of an assembled document assembles it anew. */
  lemma {:induction false} BlocksOnDoc<T>(k: Kinds<T>, d: Doc<T>, c: Content<T>, c': Content<T>)
    requires CleanDoc(k, d) && Proper(k, c) && Proper(k, c')
    ensures ReplaceBlocks(k, With(d, c), c') == Some(With(d, c'))
  {
    var a, g, a', g' := c.actions, c.groups, c'.actions, c'.groups;
    assert IsBlock(k, a, ActionsBegin, ActionsEnd) && IsBlock(k, g, GroupsBegin, GroupsEnd);
    assert forall m: Marker :: Lacks(k, d.head, m) && Lacks(k, d.middle, m) && Lacks(k, d.tail, m);
    assert IsBlock(k, a', ActionsBegin, ActionsEnd);
    hide ReplaceBlock, IsBlock, Lacks, CleanDoc, Proper;
    BlockLacks(k, g, GroupsBegin, GroupsEnd, ActionsBegin);
    BlockLacks(k, g, GroupsBegin, GroupsEnd, ActionsEnd);
    BlockLacks(k, a', ActionsBegin, ActionsEnd, GroupsBegin);
    BlockLacks(k, a', ActionsBegin, ActionsEnd, GroupsEnd);
    if d.actionsFirst {
      LacksAround(k, d.middle, g, d.tail, ActionsBegin);
      LacksAround(k, d.middle, g, d.tail, ActionsEnd);
      ReplaceBlockAt(k, d.head, a, d.middle + (g + d.tail), ActionsBegin, ActionsEnd, a');
      LacksAround(k, d.head, a', d.middle, GroupsBegin);
      LacksAround(k, d.head, a', d.middle, GroupsEnd);
      ReplaceBlockAt(k, d.head + (a' + d.middle), g, d.tail, GroupsBegin, GroupsEnd, g');
      Regroup(d.head, a', d.middle, g + d.tail);
      Regroup(d.head, a', d.middle, g' + d.tail);
    } else {
      LacksAround(k, d.head, g, d.middle, ActionsBegin);
      LacksAround(k, d.head, g, d.middle, ActionsEnd);
      ReplaceBlockAt(k, d.head + (g + d.middle), a, d.tail, ActionsBegin, ActionsEnd, a');
      Regroup(d.head, g, d.middle, a + d.tail);
      Regroup(d.head, g, d.middle, a' + d.tail);
      LacksAround(k, d.middle, a', d.tail, GroupsBegin);
      LacksAround(k, d.middle, a', d.tail, GroupsEnd);
      ReplaceBlockAt(k, d.head, g, d.middle + (a' + d.tail), GroupsBegin, GroupsEnd, g');
    }
  }

  // ----- Taking a document apart

  /** The actions block lies between a begin and an end marker of the groups block. */
  ghost predicate Nested<T>(k: Kinds<T>, lines: seq<T>) {
    var a, b := MarkerLine(k, lines, ActionsBegin), MarkerLine(k, lines, ActionsEnd);
    && a.Some? && b.Some?
    && (exists i | 0 <= i < |lines| :: i < a.value && k.marker(lines[i], GroupsBegin))
    && (exists j | 0 <= j < |lines| :: b.value < j && k.marker(lines[j], GroupsEnd))
  }

  /** `lines` is `u`, then its only actions block `was`, then `v`. */
  ghost predicate Around<T>(k: Kinds<T>, lines: seq<T>, u: seq<T>, was: seq<T>, v: seq<T>) {
    && lines == u + (was + v) && |was| >= 2
    && MarkerLine(k, lines, ActionsBegin) == Some(|u|)
    && MarkerLine(k, lines, ActionsEnd) == Some(|u| + |was| - 1)
  }

  /** The groups block of `u + (block + v)`, for any `block` of `n` lines without its
      markers, starts at `g` and ends at `h`; nothing else in `u` and `v` is a marker. */
  ghost predicate MarkersAt<T>(k: Kinds<T>, u: seq<T>, n: nat, v: seq<T>, g: nat, h: nat) {
    && g < h < |u| + n + |v|
    && (g < |u| || |u| + n <= g) && (h < |u| || |u| + n <= h)
    && k.marker(if g < |u| then u[g] else v[g - |u| - n], GroupsBegin)
    && k.marker(if h < |u| then u[h] else v[h - |u| - n], GroupsEnd)
    && (forall i | 0 <= i < |u| && i != g && i != h :: Unmarked(k, u[i]))
    && (forall i | 0 <= i < |v| && |u| + n + i != g && |u| + n + i != h :: Unmarked(k, v[i]))
  }

  lemma {:induction false} SplitAround<T>(k: Kinds<T>, lines: seq<T>, a: nat, b: nat)
    requires MarkerLine(k, lines, ActionsBegin) == Some(a) && MarkerLine(k, lines, ActionsEnd) == Some(b) && a < b
    ensures Around(k, lines, lines[..a], lines[a..b + 1], lines[b + 1..])
    ensures Delimited(k, lines[a..b + 1], ActionsBegin, ActionsEnd)
  {
    hide NextMarker;
    assert lines == lines[..a] + (lines[a..b + 1] + lines[b + 1..]);
  }

  lemma {:induction false} UnmarkedAt<T>(k: Kinds<T>, lines: seq<T>, i: nat, mid: seq<T>, j: nat,
                                         a: nat, b: nat, g: nat, h: nat)
    requires i < |lines| && j < |mid| && lines[i] == mid[j]
    requires MarkerLine(k, lines, ActionsBegin) == Some(a) && MarkerLine(k, lines, ActionsEnd) == Some(b)
    requires MarkerLine(k, mid, GroupsBegin) == Some(g) && MarkerLine(k, mid, GroupsEnd) == Some(h)
    requires i != a && i != b && j != g && j != h
    ensures Unmarked(k, mid[j])
  {
    forall m: Marker
      ensures !k.marker(mid[j], m)
    {
      match m
      case ActionsBegin => assert !k.marker(lines[i], ActionsBegin);
      case ActionsEnd => assert !k.marker(lines[i], ActionsEnd);
      case GroupsBegin =>
      case GroupsEnd =>
    }
  }

  lemma {:induction false} LocateMarkers<T>(k: Kinds<T>, lines: seq<T>, u: seq<T>, was: seq<T>, v: seq<T>,
                                            block: seq<T>,
                                            g: nat, h: nat)
    requires Around(k, lines, u, was, v) && g < h
    requires Lacks(k, block, GroupsBegin) && Lacks(k, block, GroupsEnd)
    requires MarkerLine(k, u + (block + v), GroupsBegin) == Some(g)
    requires MarkerLine(k, u + (block + v), GroupsEnd) == Some(h)
    ensures MarkersAt(k, u, |block|, v, g, h)
  {
    var n := |block|;
    Parts(u, block, v);
    hide Unmarked, Around, MarkerLine;
    forall i | 0 <= i < |u| && i != g && i != h
      ensures Unmarked(k, u[i])
    {
      UnmarkedBefore(k, lines, u, was, v, block, g, h, i);
    }
    forall i | 0 <= i < |v| && |u| + n + i != g && |u| + n + i != h
      ensures Unmarked(k, v[i])
    {
      UnmarkedAfter(k, lines, u, was, v, block, g, h, i);
    }
  }

  lemma {:induction false} UnmarkedBefore<T>(k: Kinds<T>, lines: seq<T>, u: seq<T>, was: seq<T>, v: seq<T>,
                                             block: seq<T>,
                                             g: nat, h: nat, i: nat)
    requires Around(k, lines, u, was, v)
    requires MarkerLine(k, u + (block + v), GroupsBegin) == Some(g)
    requires MarkerLine(k, u + (block + v), GroupsEnd) == Some(h)
    requires i < |u| && i != g && i != h
    ensures Unmarked(k, u[i])
  {
    UnmarkedAt(k, lines, i, u + (block + v), i, |u|, |u| + |was| - 1, g, h);
  }

  lemma {:induction false} UnmarkedAfter<T>(k: Kinds<T>, lines: seq<T>, u: seq<T>, was: seq<T>, v: seq<T>,
                                            block: seq<T>,
                                            g: nat, h: nat, i: nat)
    requires Around(k, lines, u, was, v)
    requires MarkerLine(k, u + (block + v), GroupsBegin) == Some(g)
    requires MarkerLine(k, u + (block + v), GroupsEnd) == Some(h)
    requires i < |v| && |u| + |block| + i != g && |u| + |block| + i != h
    ensures Unmarked(k, v[i])
  {
    var mid := u + (block + v);
    assert lines[|u| + |was| + i] == (was + v)[|was| + i] == v[i];
    assert mid[|u| + |block| + i] == (block + v)[|block| + i] == v[i];
    UnmarkedAt(k, lines, |u| + |was| + i, mid, |u| + |block| + i, |u|, |u| + |was| - 1, g, h);
  }

  /** A marker outside a block stays where it is when a block of that size replaces it. */
  lemma {:induction false} SameMarkerLine<T>(k: Kinds<T>, u: seq<T>, x: seq<T>, y: seq<T>, v: seq<T>, m: Marker, g: nat)
    requires |x| == |y| && Lacks(k, x, m) && Lacks(k, y, m) && MarkerLine(k, u + (x + v), m) == Some(g)
    ensures MarkerLine(k, u + (y + v), m) == Some(g)
  {
    var a, b := u + (x + v), u + (y + v);
    Parts(u, x, v);
    Parts(u, y, v);
    assert forall j | 0 <= j < |b| && (j < |u| || |u| + |y| <= j) :: a[j] == b[j];
    MarkerIs(k, b, m, g);
  }

  ghost predicate ReplacesAt<T>(k: Kinds<T>, lines: seq<T>, u: seq<T>, v: seq<T>, g: nat, h: nat, c: Content<T>) {
    var mid := u + (c.actions + v);
    g < h < |mid| && ReplaceBlocks(k, lines, c) == Some(mid[..g] + (c.groups + mid[h + 1..]))
  }

  lemma {:induction false} BlocksAround<T>(k: Kinds<T>, lines: seq<T>, u: seq<T>, was: seq<T>, v: seq<T>, c: Content<T>,
                                           g: nat, h: nat)
    requires Around(k, lines, u, was, v) && g < h
    requires MarkerLine(k, u + (c.actions + v), GroupsBegin) == Some(g)
    requires MarkerLine(k, u + (c.actions + v), GroupsEnd) == Some(h)
    ensures ReplacesAt(k, lines, u, v, g, h, c)
  {
    var mid := u + (c.actions + v);
    assert h < |mid|;
    hide MarkerLine;
    Parts(u, was, v);
    assert ReplaceBlock(k, lines, ActionsBegin, ActionsEnd, c.actions) == Some(mid);
  }

  /** A document whose blocks can be replaced, cut around its actions block; the
      groups block lies in the same place whatever the new content. */
  lemma {:induction false} Locate<T>(k: Kinds<T>, lines: seq<T>, c: Content<T>, c': Content<T>)
      returns (u: seq<T>, was: seq<T>, v: seq<T>, g: nat, h: nat)
    requires ReplaceBlocks(k, lines, c).Some? && Proper(k, c) && Proper(k, c')
    ensures Around(k, lines, u, was, v)
    ensures Delimited(k, was, ActionsBegin, ActionsEnd)
    ensures MarkersAt(k, u, 3, v, g, h)
    ensures ReplacesAt(k, lines, u, v, g, h, c) && ReplacesAt(k, lines, u, v, g, h, c')
  {
    hide Around, MarkersAt, ReplacesAt, Lacks, Proper, Delimited;
    ProperActions(k, c);
    ProperActions(k, c');
    u, was, v, g, h := FindMarkers(k, lines, c);
    hide MarkerLine, ReplaceBlocks;
    LocateMarkers(k, lines, u, was, v, c.actions, g, h);
    SameMarkerLine(k, u, c.actions, c'.actions, v, GroupsBegin, g);
    SameMarkerLine(k, u, c.actions, c'.actions, v, GroupsEnd, h);
    BlocksAround(k, lines, u, was, v, c, g, h);
    BlocksAround(k, lines, u, was, v, c', g, h);
  }

  lemma {:induction false} FindMarkers<T>(k: Kinds<T>, lines: seq<T>, c: Content<T>)
      returns (u: seq<T>, was: seq<T>, v: seq<T>, g: nat, h: nat)
    requires ReplaceBlocks(k, lines, c).Some?
    ensures Around(k, lines, u, was, v) && Delimited(k, was, ActionsBegin, ActionsEnd)
    ensures g < h && MarkerLine(k, u + (c.actions + v), GroupsBegin) == Some(g)
    ensures MarkerLine(k, u + (c.actions + v), GroupsEnd) == Some(h)
  {
    hide Around, Delimited;
    var a, b := BlockFound(k, lines, ActionsBegin, ActionsEnd, c.actions);
    u, was, v := lines[..a], lines[a..b + 1], lines[b + 1..];
    SplitAround(k, lines, a, b);
    hide MarkerLine;
    g, h := BlockFound(k, u + (c.actions + v), GroupsBegin, GroupsEnd, c.groups);
  }

  lemma {:induction false} BlockFound<T>(k: Kinds<T>, lines: seq<T>, begin: Marker, end: Marker, block: seq<T>)
      returns (i: nat, j: nat)
    requires ReplaceBlock(k, lines, begin, end, block).Some?
    ensures i < j < |lines| && MarkerLine(k, lines, begin) == Some(i) && MarkerLine(k, lines, end) == Some(j)
    ensures ReplaceBlock(k, lines, begin, end, block) == Some(lines[..i] + (block + lines[j + 1..]))
  {
    i, j := MarkerLine(k, lines, begin).value, MarkerLine(k, lines, end).value;
  }

  lemma {:induction false} ProperActions<T>(k: Kinds<T>, c: Content<T>)
    requires Proper(k, c)
    ensures |c.actions| == 3 && Lacks(k, c.actions, GroupsBegin) && Lacks(k, c.actions, GroupsEnd)
    ensures Lacks(k, c.groups, ActionsBegin) && Lacks(k, c.groups, ActionsEnd)
  {
    BlockLacks(k, c.actions, ActionsBegin, ActionsEnd, GroupsBegin);
    BlockLacks(k, c.actions, ActionsBegin, ActionsEnd, GroupsEnd);
    BlockLacks(k, c.groups, GroupsBegin, GroupsEnd, ActionsBegin);
    BlockLacks(k, c.groups, GroupsBegin, GroupsEnd, ActionsEnd);
  }

  /** The groups block found before the actions block, as a document. */
  lemma {:induction false} GroupsBefore<T>(u: seq<T>, x: seq<T>, v: seq<T>, g: nat, h: nat, content: seq<T>)
    requires g < h < |u|
    ensures var mid, d := u + (x + v), Doc(u[..g], false, u[h + 1..], v);
      && |mid| == |u| + |x| + |v|
      && mid[..g] + (content + mid[h + 1..]) == Assemble(d, x, content)
      && mid == Assemble(d, x, u[g..h + 1])
  {
    var mid := u + (x + v);
    assert mid[..g] == u[..g];
    assert mid[h + 1..] == u[h + 1..] + (x + v);
    assert u == u[..g] + (u[g..h + 1] + u[h + 1..]);
    Regroup(u[..g], u[g..h + 1], u[h + 1..], x + v);
  }

  /** The groups block found after the actions block, as a document. */
  lemma {:induction false} GroupsAfter<T>(u: seq<T>, x: seq<T>, v: seq<T>, g: nat, h: nat, content: seq<T>)
    requires g < h < |v|
    ensures var mid, d := u + (x + v), Doc(u, true, v[..g], v[h + 1..]);
      var from := |u| + |x|;
      && |mid| == from + |v|
      && mid[..from + g] + (content + mid[from + h + 1..]) == Assemble(d, x, content)
      && mid == Assemble(d, x, v[g..h + 1])
  {
    var mid := u + (x + v);
    var from := |u| + |x|;
    assert mid[..from + g] == u + (x + v[..g]);
    assert mid[from + h + 1..] == v[h + 1..];
    assert v == v[..g] + (v[g..h + 1] + v[h + 1..]);
    Regroup(u, x, v[..g], content + v[h + 1..]);
  }

  lemma {:induction false} BeforeIsDoc<T>(k: Kinds<T>, u: seq<T>, n: nat, v: seq<T>, g: nat, h: nat)
    requires MarkersAt(k, u, n, v, g, h) && h < |u|
    ensures CleanDoc(k, Doc(u[..g], false, u[h + 1..], v))
    ensures Delimited(k, u[g..h + 1], GroupsBegin, GroupsEnd)
  {
  }

  lemma {:induction false} AfterIsDoc<T>(k: Kinds<T>, u: seq<T>, n: nat, v: seq<T>, g: nat, h: nat)
    requires MarkersAt(k, u, n, v, g + |u| + n, h + |u| + n)
    ensures g < h < |v| && CleanDoc(k, Doc(u, true, v[..g], v[h + 1..]))
    ensures Delimited(k, v[g..h + 1], GroupsBegin, GroupsEnd)
  {
  }

  lemma {:induction false} StraddlingIsNested<T>(k: Kinds<T>, lines: seq<T>, u: seq<T>, was: seq<T>, v: seq<T>,
                                                 n: nat, g: nat, h: nat)
    requires Around(k, lines, u, was, v) && MarkersAt(k, u, n, v, g, h) && g < |u| <= h
    ensures Nested(k, lines)
  {
    Parts(u, was, v);
    assert lines[g] == u[g] && lines[|u| + |was| + (h - |u| - n)] == v[h - |u| - n];
  }

  lemma {:induction false} NestedStraddles<T>(k: Kinds<T>, lines: seq<T>, u: seq<T>, was: seq<T>, v: seq<T>,
                                              n: nat, g: nat, h: nat)
    requires Around(k, lines, u, was, v) && MarkersAt(k, u, n, v, g, h) && Nested(k, lines)
    ensures g < |u| && |u| + n <= h
  {
    Parts(u, was, v);
    var i :| 0 <= i < |lines| && i < |u| && k.marker(lines[i], GroupsBegin);
    var j :| 0 <= j < |lines| && |u| + |was| - 1 < j && k.marker(lines[j], GroupsEnd);
    assert u[i] == lines[i] && v[j - |u| - |was|] == lines[j];
    assert !Unmarked(k, u[i]) && !Unmarked(k, v[j - |u| - |was|]);
  }

  lemma {:induction false} ReplacedBefore<T>(k: Kinds<T>, lines: seq<T>, u: seq<T>, v: seq<T>, g: nat, h: nat,
                                             c: Content<T>)
    requires ReplacesAt(k, lines, u, v, g, h, c) && h < |u|
    ensures ReplaceBlocks(k, lines, c) == Some(With(Doc(u[..g], false, u[h + 1..], v), c))
  {
    hide ReplaceBlocks, Assemble;
    GroupsBefore(u, c.actions, v, g, h, c.groups);
  }

  lemma {:induction false} ReplacedAfter<T>(k: Kinds<T>, lines: seq<T>, u: seq<T>, v: seq<T>, g: nat, h: nat,
                                            c: Content<T>)
    requires |c.actions| == 3 && ReplacesAt(k, lines, u, v, g + |u| + 3, h + |u| + 3, c)
    ensures g < h < |v| && ReplaceBlocks(k, lines, c) == Some(With(Doc(u, true, v[..g], v[h + 1..]), c))
  {
    hide ReplaceBlocks, Assemble;
    GroupsAfter(u, c.actions, v, g, h, c.groups);
  }

  /** `lines` is the clean text `d` around two blocks, and replacing the blocks by
      those of either content keeps that text. */
  ghost predicate TakenApart<T>(k: Kinds<T>, lines: seq<T>, c: Content<T>, c': Content<T>,
                                d: Doc<T>, actions: seq<T>, groups: seq<T>) {
    && CleanDoc(k, d) && lines == Assemble(d, actions, groups)
    && Delimited(k, actions, ActionsBegin, ActionsEnd) && Delimited(k, groups, GroupsBegin, GroupsEnd)
    && ReplaceBlocks(k, lines, c) == Some(With(d, c))
    && ReplaceBlocks(k, lines, c') == Some(With(d, c'))
  }

  /** A document whose blocks can be replaced can be taken apart, unless its actions
      block is nested in its groups block. */
  lemma {:induction false} Decompose<T>(k: Kinds<T>, lines: seq<T>, c: Content<T>, c': Content<T>)
      returns (d: Doc<T>, actions: seq<T>, groups: seq<T>)
    requires ReplaceBlocks(k, lines, c).Some? && !Nested(k, lines) && Proper(k, c) && Proper(k, c')
    ensures TakenApart(k, lines, c, c', d, actions, groups)
  {
    hide *;
    ProperActions(k, c);
    ProperActions(k, c');
    var u, was, v, g, h := Locate(k, lines, c, c');
    Bounds(k, lines, u, was, v, 3, g, h);
    actions := was;
    if h < |u| {
      d, groups := DecomposeBefore(k, lines, u, was, v, g, h, c, c');
    } else {
      d, groups := DecomposeAfter(k, lines, u, was, v, g - |u| - 3, h - |u| - 3, c, c');
    }
  }

  lemma {:induction false} Bounds<T>(k: Kinds<T>, lines: seq<T>, u: seq<T>, was: seq<T>, v: seq<T>, n: nat, g: nat,
                                     h: nat)
    requires Around(k, lines, u, was, v) && MarkersAt(k, u, n, v, g, h) && !Nested(k, lines)
    ensures g < h && (h < |u| || |u| + n <= g)
  {
    if g < |u| <= h {
      StraddlingIsNested(k, lines, u, was, v, n, g, h);
      assert false;
    }
  }

  lemma {:induction false} DecomposeBefore<T>(k: Kinds<T>, lines: seq<T>, u: seq<T>, was: seq<T>, v: seq<T>, g: nat,
                                              h: nat,
                                              c: Content<T>, c': Content<T>)
      returns (d: Doc<T>, groups: seq<T>)
    requires Around(k, lines, u, was, v) && MarkersAt(k, u, 3, v, g, h) && g < h < |u|
    requires Delimited(k, was, ActionsBegin, ActionsEnd)
    requires ReplacesAt(k, lines, u, v, g, h, c) && ReplacesAt(k, lines, u, v, g, h, c')
    ensures TakenApart(k, lines, c, c', d, was, groups)
  {
    hide ReplaceBlocks, MarkersAt, CleanDoc, Assemble, ReplacesAt, With, Delimited;
    d, groups := Doc(u[..g], false, u[h + 1..], v), u[g..h + 1];
    BeforeIsDoc(k, u, 3, v, g, h);
    GroupsBefore(u, was, v, g, h, []);
    ReplacedBefore(k, lines, u, v, g, h, c);
    ReplacedBefore(k, lines, u, v, g, h, c');
  }

  lemma {:induction false} DecomposeAfter<T>(k: Kinds<T>, lines: seq<T>, u: seq<T>, was: seq<T>, v: seq<T>, g: nat,
                                             h: nat,
                                             c: Content<T>, c': Content<T>)
      returns (d: Doc<T>, groups: seq<T>)
    requires MarkersAt(k, u, 3, v, g + |u| + 3, h + |u| + 3) && |c.actions| == 3 && |c'.actions| == 3
    requires Around(k, lines, u, was, v) && Delimited(k, was, ActionsBegin, ActionsEnd)
    requires ReplacesAt(k, lines, u, v, g + |u| + 3, h + |u| + 3, c)
    requires ReplacesAt(k, lines, u, v, g + |u| + 3, h + |u| + 3, c')
    ensures TakenApart(k, lines, c, c', d, was, groups)
  {
    hide ReplaceBlocks, MarkersAt, CleanDoc, Assemble, ReplacesAt, With, Delimited;
    AfterIsDoc(k, u, 3, v, g, h);
    d, groups := Doc(u, true, v[..g], v[h + 1..]), v[g..h + 1];
    GroupsAfter(u, was, v, g, h, []);
    ReplacedAfter(k, lines, u, v, g, h, c);
    ReplacedAfter(k, lines, u, v, g, h, c');
  }

  // ----- Nested documents

  lemma {:induction false} MainKeepsLacking<T>(k: Kinds<T>, lines: seq<T>, started: bool, found: bool, main: T,
                                               m: Marker)
    requires Lacks(k, lines, m) && !k.marker(main, m)
    ensures var r := ReplaceMain(k, lines, started, found, main);
      r.Some? ==> Lacks(k, r.value, m)
    decreases |lines|
  {
    if lines != [] && !(started && k.heading(lines[0])) {
      MainKeepsLacking(k, lines[1..], true, found || k.main(lines[0]), main, m);
    }
  }

  lemma {:induction false} SidesLack<T>(k: Kinds<T>, u: seq<T>, v: seq<T>, g: nat, h: nat)
    requires MarkersAt(k, u, 3, v, g, h) && g < |u| && |u| + 3 <= h
    ensures Lacks(k, u[..g], ActionsBegin) && h - |u| - 2 <= |v| && Lacks(k, v[h - |u| - 2..], ActionsBegin)
  {
    assert forall i | 0 <= i < g :: Unmarked(k, u[i]);
    assert forall i | h - |u| - 3 < i < |v| :: Unmarked(k, v[i]);
  }

  /** Replacing the blocks of a nested document leaves it without an actions block. */
  lemma {:induction false} NestedLosesActions<T>(k: Kinds<T>, lines: seq<T>, c: Content<T>)
    requires Nested(k, lines) && Proper(k, c) && ReplaceBlocks(k, lines, c).Some?
    ensures Lacks(k, ReplaceBlocks(k, lines, c).value, ActionsBegin)
  {
    hide MarkersAt, Around, Nested, Proper, Lacks, ReplaceBlocks;
    var u, was, v, g, h := Locate(k, lines, c, c);
    NestedStraddles(k, lines, u, was, v, 3, g, h);
    SidesLack(k, u, v, g, h);
    ProperActions(k, c);
    var front, back := u[..g], v[h - |u| - 2..];
    var mid := u + (c.actions + v);
    assert mid[..g] == front;
    assert mid[h + 1..] == back;
    LacksAround(k, front, c.groups, back, ActionsBegin);
  }

  // ----- What surrounds the groups block of a nested document

  /** The number of lines up to the last one that is the marker. */
  function LastMarker<T>(k: Kinds<T>, lines: seq<T>, m: Marker): (n: nat)
    ensures n <= |lines| && (n > 0 ==> k.marker(lines[n - 1], m))
    ensures forall j | n <= j < |lines| :: !k.marker(lines[j], m)
  {
    if lines == [] || k.marker(lines[|lines| - 1], m) then |lines| else LastMarker(k, lines[..|lines| - 1], m)
  }

  /** The lines before the first line that begins the groups block, and those after the
      last line that ends it, as a document. */
  function Outer<T>(k: Kinds<T>, lines: seq<T>): Doc<T> {
    Doc(lines[..NextMarker(k, lines, GroupsBegin, 0)], false, lines[LastMarker(k, lines, GroupsEnd)..], [])
  }

  lemma {:induction false} FirstOfNested<T>(k: Kinds<T>, lines: seq<T>, u: seq<T>, was: seq<T>, v: seq<T>, g: nat,
                                            h: nat)
    requires Around(k, lines, u, was, v) && MarkersAt(k, u, 3, v, g, h) && g < |u| && |u| + 3 <= h
    ensures g < |lines| && NextMarker(k, lines, GroupsBegin, 0) == g && lines[..g] == u[..g]
  {
    Parts(u, was, v);
    assert lines[g] == u[g];
    assert forall j | 0 <= j < g :: lines[j] == u[j] && Unmarked(k, u[j]);
  }

  lemma {:induction false} LastOfNested<T>(k: Kinds<T>, lines: seq<T>, u: seq<T>, was: seq<T>, v: seq<T>, g: nat,
                                           h: nat)
    requires Around(k, lines, u, was, v) && MarkersAt(k, u, 3, v, g, h) && g < |u| && |u| + 3 <= h
    ensures h - |u| - 2 <= |v| && LastMarker(k, lines, GroupsEnd) == h + |was| - 2 <= |lines|
    ensures lines[h + |was| - 2..] == v[h - |u| - 2..]
  {
    Parts(u, was, v);
    var end := h + |was| - 3;
    assert lines[end] == v[h - |u| - 3];
    assert forall j | end < j < |lines| :: lines[j] == v[j - |u| - |was|] && Unmarked(k, v[j - |u| - |was|]);
    hide Around, MarkersAt;
    assert lines[end + 1..] == (was + v)[end + 1 - |u|..] == v[h - |u| - 2..];
  }

  lemma {:induction false} OuterIs<T>(k: Kinds<T>, lines: seq<T>, u: seq<T>, was: seq<T>, v: seq<T>, g: nat, h: nat)
    requires Around(k, lines, u, was, v) && MarkersAt(k, u, 3, v, g, h) && g < |u| && |u| + 3 <= h
    ensures h - |u| - 2 <= |v| && Outer(k, lines) == Doc(u[..g], false, v[h - |u| - 2..], [])
  {
    hide Around, MarkersAt;
    FirstOfNested(k, lines, u, was, v, g, h);
    LastOfNested(k, lines, u, was, v, g, h);
  }

  /** A nested document is its outer lines around one groups block, and replacing its
      blocks replaces that one, with the actions block in it. */
  lemma {:induction false} NestedBlocks<T>(k: Kinds<T>, lines: seq<T>, c: Content<T>, c': Content<T>)
      returns (groups: seq<T>)
    requires Nested(k, lines) && Proper(k, c) && Proper(k, c') && ReplaceBlocks(k, lines, c).Some?
    ensures lines == Assemble(Outer(k, lines), [], groups) && Delimited(k, groups, GroupsBegin, GroupsEnd)
    ensures ReplaceBlocks(k, lines, c) == Some(Assemble(Outer(k, lines), [], c.groups))
    ensures ReplaceBlocks(k, lines, c') == Some(Assemble(Outer(k, lines), [], c'.groups))
  {
    hide MarkersAt, Around, Nested, Proper, ReplaceBlocks, Outer, Delimited;
    var u, was, v, g, h := Locate(k, lines, c, c');
    NestedStraddles(k, lines, u, was, v, 3, g, h);
    OuterIs(k, lines, u, was, v, g, h);
    ProperActions(k, c);
    ProperActions(k, c');
    CutOut(k, u, c.actions, v, g, h, c.groups);
    CutOut(k, u, c'.actions, v, g, h, c'.groups);
    groups := Straddling(k, lines, u, was, v, g, h);
  }

  lemma {:induction false} CutOut<T>(k: Kinds<T>, u: seq<T>, actions: seq<T>, v: seq<T>, g: nat, h: nat, groups: seq<T>)
    requires |actions| == 3 && g < |u| && |u| + 3 <= h < |u| + 3 + |v|
    ensures var mid := u + (actions + v);
      mid[..g] + (groups + mid[h + 1..]) == Assemble(Doc(u[..g], false, v[h - |u| - 2..], []), [], groups)
  {
    var mid := u + (actions + v);
    assert mid[..g] == u[..g] && mid[h + 1..] == v[h - |u| - 2..];
    assert v[h - |u| - 2..] + ([] + []) == v[h - |u| - 2..];
  }

  lemma {:induction false} Straddling<T>(k: Kinds<T>, lines: seq<T>, u: seq<T>, was: seq<T>, v: seq<T>, g: nat, h: nat)
      returns (groups: seq<T>)
    requires Around(k, lines, u, was, v) && MarkersAt(k, u, 3, v, g, h) && g < |u| && |u| + 3 <= h
    ensures h - |u| - 2 <= |v| && lines == Assemble(Doc(u[..g], false, v[h - |u| - 2..], []), [], groups)
    ensures Delimited(k, groups, GroupsBegin, GroupsEnd)
  {
    var inner, back := v[..h - |u| - 2], v[h - |u| - 2..];
    groups := u[g..] + (was + inner);
    assert groups[0] == u[g] && groups[|groups| - 1] == v[h - |u| - 3];
    hide MarkersAt;
    assert u == u[..g] + u[g..] && v == inner + back;
    assert back + ([] + []) == back;
    assert u[..g] + ((u[g..] + (was + inner)) + back) == (u[..g] + u[g..]) + (was + (inner + back));
  }

  /** Replacing the main line around a groups block. */
  lemma {:induction false} MainOnOuter<T>(k: Kinds<T>, d: Doc<T>, c: Content<T>)
    requires Proper(k, c) && !d.actionsFirst && d.tail == []
    ensures var r := MainDoc(k, d, c.headings, c.main);
      && ReplaceMain(k, Assemble(d, [], c.groups), false, false, c.main) ==
           (if r.None? then None else Some(Assemble(r.value, [], c.groups)))
      && (r.Some? ==> !r.value.actionsFirst && r.value.tail == [])
  {
    var g, main := c.groups, c.main;
    assert Assemble(d, [], g) == d.head + (g + d.middle);
    hide Proper;
    PassThen(k, d.head, g + d.middle, false, false, main);
    var head := Pass(k, d.head, false, false, main);
    if head.Through? {
      ReadGroups(k, c, d.middle, d.head != [], head.found, main);
      ReadToEnd(k, d.middle, head.found, main);
    }
    assert forall s: seq<T> :: s + ([] + []) == s;
  }

  /** Whether a nested document can be rewritten is a matter of its outer lines: they
      must hold one main line before their first heading. */
  lemma {:induction false} RewriteOfNested<T>(k: Kinds<T>, lines: seq<T>, c: Content<T>, c': Content<T>)
    requires Nested(k, lines) && Proper(k, c) && Proper(k, c') && ReplaceBlocks(k, lines, c).Some?
    ensures var r := MainDoc(k, Outer(k, lines), c'.headings, c'.main);
      Rewrite(k, lines, c') == if r.None? then None else Some(Assemble(r.value, [], c'.groups))
  {
    var groups := NestedBlocks(k, lines, c, c');
    hide ReplaceBlocks, MainDoc, Assemble, Proper, Nested;
    MainOnOuter(k, Outer(k, lines), c');
  }

  // ----- Main results

  lemma {:induction false} RewriteOfDoc<T>(k: Kinds<T>, lines: seq<T>, d: Doc<T>, c: Content<T>)
    requires Proper(k, c) && ReplaceBlocks(k, lines, c) == Some(With(d, c))
    ensures var r := MainDoc(k, d, c.headings, c.main);
      Rewrite(k, lines, c) == if r.None? then None else Some(With(r.value, c))
  {
    MainOnDoc(k, d, c);
  }

  /** A nested document is rewritten once and never again. */
  lemma {:induction false} NestedIsLost<T>(k: Kinds<T>, lines: seq<T>, c: Content<T>, c': Content<T>, result: seq<T>)
    requires Proper(k, c) && Nested(k, lines) && Rewrite(k, lines, c) == Some(result)
    ensures Rewrite(k, result, c').None?
  {
    NestedLosesActions(k, lines, c);
    MainKeepsLacking(k, ReplaceBlocks(k, lines, c).value, false, false, c.main, ActionsBegin);
    assert Lacks(k, result, ActionsBegin);
    assert MarkerLine(k, result, ActionsBegin).None?;
  }

  lemma {:induction false} LastWinsUnnested<T>(k: Kinds<T>, lines: seq<T>, c: Content<T>, c': Content<T>,
                                               result: seq<T>)
    requires Proper(k, c) && Proper(k, c') && !Nested(k, lines) && Rewrite(k, lines, c) == Some(result)
    ensures Rewrite(k, result, c') == Rewrite(k, lines, c')
  {
    assert k.main(c.main) && !k.heading(c.main) && Unmarked(k, c.main);
    hide ReplaceBlocks, MainDoc, CleanDoc, With, Proper, Delimited, Nested, Unmarked;
    var d, actions, groups := Decompose(k, lines, c, c');
    RewriteOfDoc(k, lines, d, c);
    RewriteOfDoc(k, lines, d, c');
    var after := MainDoc(k, d, c.headings, c.main).value;
    MainDocIsClean(k, d, c.headings, c.main);
    BlocksOnDoc(k, after, c, c');
    RewriteOfDoc(k, result, after, c');
    MainDocAgain(k, d, c.headings, c'.headings, c.main, c'.main);
  }

  /** The last writer wins, exactly when the actions block is not nested in the groups
      block or the outer lines refuse the last writer too: rewriting to `c`, then to
      `c'`, is rewriting to `c'`, failure included. */
  lemma {:induction false} LastWriterWins<T>(k: Kinds<T>, lines: seq<T>, c: Content<T>, c': Content<T>, result: seq<T>)
    requires Proper(k, c) && Proper(k, c') && Rewrite(k, lines, c) == Some(result)
    ensures Rewrite(k, result, c') == Rewrite(k, lines, c') <==>
      !Nested(k, lines) || MainDoc(k, Outer(k, lines), c'.headings, c'.main).None?
  {
    if Nested(k, lines) {
      NestedIsLost(k, lines, c, c', result);
      hide Outer, Nested, Proper, MainDoc;
      RewriteOfNested(k, lines, c, c');
    } else {
      LastWinsUnnested(k, lines, c, c', result);
    }
  }

  /** Whether a document's lines around its blocks are read alike does not depend on the
      new main line. */
  lemma {:induction false} MainDocAlike<T>(k: Kinds<T>, d: Doc<T>, headings: bool, x: T, y: T)
    ensures MainDoc(k, d, headings, x).None? <==> MainDoc(k, d, headings, y).None?
  {
    hide Pass;
    PassAlike(k, d.head, false, false, x, y);
    var head := Pass(k, d.head, false, false, x);
    if head.Through? {
      PassAlike(k, d.middle, true, head.found, x, y);
      var middle := Pass(k, d.middle, true, head.found, x);
      if middle.Through? {
        PassAlike(k, d.tail, true, middle.found, x, y);
      }
    }
  }

  /** Of two writers that both write headings, or both none, the last wins exactly when
      the actions block is not nested in the groups block. */
  lemma {:induction false} LastAlikeWins<T>(k: Kinds<T>, lines: seq<T>, c: Content<T>, c': Content<T>, result: seq<T>)
    requires Proper(k, c) && Proper(k, c') && Rewrite(k, lines, c) == Some(result) && c.headings == c'.headings
    ensures Rewrite(k, result, c') == Rewrite(k, lines, c') <==> !Nested(k, lines)
  {
    LastWriterWins(k, lines, c, c', result);
    if Nested(k, lines) {
      hide Outer, Nested, Proper, MainDoc;
      RewriteOfNested(k, lines, c, c);
      MainDocAlike(k, Outer(k, lines), c.headings, c.main, c'.main);
    }
  }

  /** Outside its blocks a document changes in one line, from one main line to the new
      one.  A nested document loses its actions block, which lies in the groups block. */
  lemma {:induction false} RewriteKeepsTheRest<T>(k: Kinds<T>, lines: seq<T>, c: Content<T>, result: seq<T>)
      returns (before: Doc<T>, after: Doc<T>, actions: seq<T>, groups: seq<T>)
    requires Proper(k, c) && Rewrite(k, lines, c) == Some(result)
    ensures lines == Assemble(before, actions, groups)
    ensures result == Assemble(after, if Nested(k, lines) then [] else c.actions, c.groups)
    ensures if Nested(k, lines) then actions == [] else Delimited(k, actions, ActionsBegin, ActionsEnd)
    ensures Delimited(k, groups, GroupsBegin, GroupsEnd)
    ensures before.actionsFirst == after.actionsFirst
    ensures OneReplaced(k, Rest(before), Rest(after), c.main)
  {
    hide ReplaceBlocks, CleanDoc, Assemble, OneReplaced, Proper, Delimited, Nested, Outer;
    if Nested(k, lines) {
      before, actions := Outer(k, lines), [];
      groups := NestedBlocks(k, lines, c, c);
      RewriteOfNested(k, lines, c, c);
    } else {
      before, actions, groups := Decompose(k, lines, c, c);
      RewriteOfDoc(k, lines, before, c);
    }
    after := MainDoc(k, before, c.headings, c.main).value;
    MainDocChangesOneLine(k, before, c.headings, c.main);
  }

  /** A smallest nested document: it is accepted once, and its result is refused. */
  lemma {:induction false} SmallestNested<T>(k: Kinds<T>, lines: seq<T>, c: Content<T>)
    requires Proper(k, c) && !c.headings && |lines| == 6
    requires k.main(lines[0]) && !k.heading(lines[0]) && Unmarked(k, lines[0])
    requires Only(k, lines[1], GroupsBegin) && Only(k, lines[2], ActionsBegin)
    requires Only(k, lines[3], ActionsEnd) && Only(k, lines[4], GroupsEnd)
    requires k.heading(lines[5]) && Unmarked(k, lines[5])
    ensures Nested(k, lines) && Rewrite(k, lines, c).Some?
    ensures Rewrite(k, Rewrite(k, lines, c).value, c).None?
  {
    MarkerIs(k, lines, ActionsBegin, 2);
    MarkerIs(k, lines, ActionsEnd, 3);
    assert Nested(k, lines);
    var a := c.actions;
    assert |a| == 3 && IsBlock(k, a, ActionsBegin, ActionsEnd);
    var mid := lines[..2] + (a + lines[4..]);
    assert mid == [lines[0], lines[1], a[0], a[1], a[2], lines[4], lines[5]];
    MarkerIs(k, mid, GroupsBegin, 1);
    MarkerIs(k, mid, GroupsEnd, 5);
    assert lines[..2] + (a + lines[3 + 1..]) == mid && mid[..1] == [lines[0]] && mid[5 + 1..] == [lines[5]];
    assert ReplaceBlocks(k, lines, c) == Some([lines[0]] + (c.groups + [lines[5]]));
    ReadOne(k, lines[0], c, [lines[5]]);
    NestedIsLost(k, lines, c, c, Rewrite(k, lines, c).value);
  }

  /** A main line before an empty groups block is the one replaced. */
  lemma {:induction false} ReadOne<T>(k: Kinds<T>, line: T, c: Content<T>, rest: seq<T>)
    requires k.main(line) && !k.heading(line) && Proper(k, c) && !c.headings
    requires rest != [] && k.heading(rest[0])
    ensures ReplaceMain(k, [line] + (c.groups + rest), false, false, c.main) == Some([c.main] + (c.groups + rest))
  {
    var lines := [line] + (c.groups + rest);
    assert lines[1..] == c.groups + rest;
    ReadGroups(k, c, rest, true, true, c.main);
  }

  // ----- What replacing the main line means

  ghost predicate NoHeadings<T>(k: Kinds<T>, lines: seq<T>, started: bool) {
    forall j | 0 <= j < |lines| && (started || j > 0) :: !k.heading(lines[j])
  }

  lemma {:induction false} PassNone<T>(k: Kinds<T>, u: seq<T>, started: bool, found: bool, main: T)
    requires NoHeadings(k, u, started) && forall j | 0 <= j < |u| :: !k.main(u[j])
    ensures Pass(k, u, started, found, main) == Through(u, found)
    decreases |u|
  {
    if u != [] {
      PassNone(k, u[1..], true, found, main);
    }
  }

  lemma {:induction false} PassOne<T>(k: Kinds<T>, u: seq<T>, started: bool, e: nat, main: T)
    requires NoHeadings(k, u, started) && e < |u| && k.main(u[e])
    requires forall j | 0 <= j < |u| && j != e :: !k.main(u[j])
    ensures Pass(k, u, started, false, main) == Through(u[e := main], true)
    decreases |u|
  {
    if e == 0 {
      PassNone(k, u[1..], true, true, main);
    } else {
      PassOne(k, u[1..], true, e - 1, main);
      assert u[e := main] == [u[0]] + u[1..][e - 1 := main];
    }
  }

  lemma {:induction false} PassMany<T>(k: Kinds<T>, u: seq<T>, started: bool, found: bool, e: nat, f: nat, main: T)
    requires NoHeadings(k, u, started) && e < |u| && k.main(u[e])
    requires found || (e < f < |u| && k.main(u[f]))
    ensures Pass(k, u, started, found, main) == Fail
    decreases |u|
  {
    if !k.main(u[0]) {
      PassMany(k, u[1..], true, found, e - 1, if found then f else f - 1, main);
    } else if !found {
      PassMany(k, u[1..], true, true, f - 1, f, main);
    }
  }

  /** With the first heading at line `n`, the main line is replaced exactly when it
      is the only one before. */
  lemma {:induction false} ReplaceMainBefore<T>(k: Kinds<T>, lines: seq<T>, n: nat, main: T)
    requires 0 < n < |lines| && k.heading(lines[n]) && NoHeadings(k, lines[..n], false)
    ensures ReplaceMain(k, lines, false, false, main) ==
      match Pass(k, lines[..n], false, false, main)
      case Through(out, true) => Some(out + lines[n..])
      case _ => None
  {
    assert lines == lines[..n] + lines[n..] && lines[n..][0] == lines[n];
    PassThen(k, lines[..n], lines[n..], false, false, main);
    NoStop(k, lines[..n], false, false, main);
  }

  lemma {:induction false} NoStop<T>(k: Kinds<T>, u: seq<T>, started: bool, found: bool, main: T)
    requires NoHeadings(k, u, started)
    ensures !Pass(k, u, started, found, main).Stop?
    decreases |u|
  {
    if u != [] {
      NoStop(k, u[1..], true, found || k.main(u[0]), main);
    }
  }

  /** Without a heading that has a line before it, nothing is replaced. */
  lemma {:induction false} NoHeadingNoMain<T>(k: Kinds<T>, lines: seq<T>, started: bool, found: bool, main: T)
    requires NoHeadings(k, lines, started)
    ensures ReplaceMain(k, lines, started, found, main).None?
    decreases |lines|
  {
    if lines != [] {
      NoHeadingNoMain(k, lines[1..], true, found || k.main(lines[0]), main);
    }
  }
}
