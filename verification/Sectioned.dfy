/** Texts whose lines are divided into sections by heading lines. */
module Sectioned {

  datatype Section<T> = Section(heading: T, body: seq<T>)

  /** What precedes the first heading, and the sections. */
  datatype Document<T> = Document(preamble: seq<T>, sections: seq<Section<T>>)

  predicate Plain<T>(h: T -> bool, lines: seq<T>) {
    forall i | 0 <= i < |lines| :: !h(lines[i])
  }

  predicate WellFormed<T>(h: T -> bool, d: Document<T>) {
    Plain(h, d.preamble) && AreSections(h, d.sections)
  }

  predicate AreSections<T>(h: T -> bool, sections: seq<Section<T>>) {
    forall i | 0 <= i < |sections| :: h(sections[i].heading) && Plain(h, sections[i].body)
  }

  /** The number of lines before the first heading. */
  function BodyLength<T>(h: T -> bool, lines: seq<T>): (n: nat)
    ensures n <= |lines| && Plain(h, lines[..n]) && (n < |lines| ==> h(lines[n]))
  {
    if lines == [] || h(lines[0]) then 0
    else
      var n := BodyLength(h, lines[1..]);
      assert forall i | 0 < i <= n :: lines[i] == lines[1..][..n][i - 1];
      n + 1
  }

  function Sections<T>(h: T -> bool, lines: seq<T>): seq<Section<T>>
    decreases |lines|
  {
    if lines == [] then []
    else
      var n := BodyLength(h, lines[1..]);
      [Section(lines[0], lines[1..][..n])] + Sections(h, lines[1..][n..])
  }

  function Parse<T>(h: T -> bool, lines: seq<T>): Document<T> {
    var n := BodyLength(h, lines);
    Document(lines[..n], Sections(h, lines[n..]))
  }

  function LinesOf<T>(sections: seq<Section<T>>): seq<T> {
    if sections == [] then [] else [sections[0].heading] + sections[0].body + LinesOf(sections[1..])
  }

  function Unparse<T>(d: Document<T>): seq<T> {
    d.preamble + LinesOf(d.sections)
  }

  lemma {:induction false} SectionsWith<T>(h: T -> bool, s: Section<T>, rest: seq<Section<T>>)
    requires h(s.heading) && Plain(h, s.body) && AreSections(h, rest)
    ensures AreSections(h, [s] + rest) && LinesOf([s] + rest) == [s.heading] + s.body + LinesOf(rest)
  {
    hide Plain;
    assert ([s] + rest)[1..] == rest;
  }

  lemma {:induction false} SectionsParse<T>(h: T -> bool, lines: seq<T>)
    requires lines == [] || h(lines[0])
    ensures LinesOf(Sections(h, lines)) == lines && AreSections(h, Sections(h, lines))
    decreases |lines|
  {
    if lines != [] {
      var n := BodyLength(h, lines[1..]);
      var body, rest := lines[1..][..n], lines[1..][n..];
      SectionsParse(h, rest);
      hide Plain, BodyLength;
      assert lines == [lines[0]] + body + rest;
      SectionsWith(h, Section(lines[0], body), Sections(h, rest));
    }
  }

  /** Every text is one document. */
  lemma {:induction false} ParseIs<T>(h: T -> bool, lines: seq<T>)
    ensures WellFormed(h, Parse(h, lines)) && Unparse(Parse(h, lines)) == lines
  {
    var n := BodyLength(h, lines);
    hide Plain, AreSections, Sections;
    SectionsParse(h, lines[n..]);
    assert lines == lines[..n] + lines[n..];
  }

  lemma {:induction false} BodyLengthIs<T>(h: T -> bool, body: seq<T>, rest: seq<T>)
    requires Plain(h, body) && (rest == [] || h(rest[0]))
    ensures BodyLength(h, body + rest) == |body|
    decreases |body|
  {
    if body == [] {
      assert body + rest == rest;
    } else {
      assert (body + rest)[1..] == body[1..] + rest && (body + rest)[0] == body[0];
      BodyLengthIs(h, body[1..], rest);
    }
  }

  lemma {:induction false} CutAt<T>(a: seq<T>, b: seq<T>)
    ensures (a + b)[..|a|] == a && (a + b)[|a|..] == b
  {
  }

  lemma {:induction false} SectionsOf<T>(h: T -> bool, sections: seq<Section<T>>)
    requires AreSections(h, sections)
    ensures Sections(h, LinesOf(sections)) == sections
    ensures LinesOf(sections) == [] || h(LinesOf(sections)[0])
    decreases |sections|
  {
    if sections != [] {
      var s, rest := sections[0], LinesOf(sections[1..]);
      SectionsOf(h, sections[1..]);
      hide AreSections;
      BodyLengthIs(h, s.body, rest);
      CutAt(s.body, rest);
      CutAt([s.heading], s.body + rest);
      assert LinesOf(sections) == [s.heading] + (s.body + rest);
      assert sections == [s] + sections[1..];
    }
  }

  /** Every document is the document of its lines. */
  lemma {:induction false} ParseOf<T>(h: T -> bool, d: Document<T>)
    requires WellFormed(h, d)
    ensures Parse(h, Unparse(d)) == d
  {
    SectionsOf(h, d.sections);
    hide AreSections, Sections, LinesOf;
    BodyLengthIs(h, d.preamble, LinesOf(d.sections));
    CutAt(d.preamble, LinesOf(d.sections));
  }

  lemma {:induction false} LinesOfSum<T>(a: seq<Section<T>>, b: seq<Section<T>>)
    ensures LinesOf(a + b) == LinesOf(a) + LinesOf(b)
    decreases |a|
  {
    if a == [] {
      assert a + b == b;
    } else {
      assert (a + b)[1..] == a[1..] + b;
      LinesOfSum(a[1..], b);
    }
  }

  // ----- Setting rows in some of the sections

  /** `rows` are set in the target sections: there, row `i` replaces each line whose
      match is `i`, and is added at the end of a section without such a line. */
  datatype Rules<!T> = Rules(heading: T -> bool, target: T -> bool, find: T -> nat, rows: seq<T>)

  function Unseen<T>(rows: seq<T>, seen: seq<bool>): seq<T>
    requires |seen| == |rows|
  {
    if rows == [] then [] else (if seen[0] then [] else [rows[0]]) + Unseen(rows[1..], seen[1..])
  }

  function NothingSeen(n: nat): (r: seq<bool>)
    ensures |r| == n
  {
    seq(n, _ => false)
  }

  function Rewritten<T>(r: Rules<T>, line: T): T {
    var i := r.find(line);
    if i < |r.rows| then r.rows[i] else line
  }

  function Marked<T>(r: Rules<T>, line: T, seen: seq<bool>): (marked: seq<bool>)
    requires |seen| == |r.rows|
    ensures |marked| == |seen|
  {
    var i := r.find(line);
    if i < |r.rows| then seen[i := true] else seen
  }

  /** What is written for `lines`, when the lines before end inside a target section or
      not and have set the rows `seen` there. */
  function UpdateFrom<T>(r: Rules<T>, lines: seq<T>, inside: bool, seen: seq<bool>): seq<T>
    requires |seen| == |r.rows|
  {
    if lines == [] then (if inside then Unseen(r.rows, seen) else [])
    else if r.heading(lines[0]) then
      (if inside then Unseen(r.rows, seen) else []) + [lines[0]] +
      var enters := r.target(lines[0]);
      UpdateFrom(r, lines[1..], enters, if enters then NothingSeen(|r.rows|) else seen)
    else if inside then
      [Rewritten(r, lines[0])] + UpdateFrom(r, lines[1..], inside, Marked(r, lines[0], seen))
    else [lines[0]] + UpdateFrom(r, lines[1..], inside, seen)
  }

  function Update<T>(r: Rules<T>, lines: seq<T>): seq<T> {
    UpdateFrom(r, lines, false, NothingSeen(|r.rows|))
  }

  // ----- The update section by section

  function SeenIn<T>(r: Rules<T>, body: seq<T>, seen: seq<bool>): (marked: seq<bool>)
    requires |seen| == |r.rows|
    ensures |marked| == |seen|
  {
    if body == [] then seen else SeenIn(r, body[1..], Marked(r, body[0], seen))
  }

  function RewrittenAll<T>(r: Rules<T>, body: seq<T>): seq<T> {
    seq(|body|, i requires 0 <= i < |body| => Rewritten(r, body[i]))
  }

  function UpdatedBody<T>(r: Rules<T>, body: seq<T>): seq<T> {
    RewrittenAll(r, body) + Unseen(r.rows, SeenIn(r, body, NothingSeen(|r.rows|)))
  }

  function UpdatedSection<T>(r: Rules<T>, s: Section<T>): Section<T> {
    if r.target(s.heading) then s.(body := UpdatedBody(r, s.body)) else s
  }

  function UpdatedSections<T>(r: Rules<T>, sections: seq<Section<T>>): (updated: seq<Section<T>>)
    ensures |updated| == |sections|
  {
    seq(|sections|, i requires 0 <= i < |sections| => UpdatedSection(r, sections[i]))
  }

  lemma {:induction false} UpdateOutside<T>(r: Rules<T>, body: seq<T>, rest: seq<T>, seen: seq<bool>)
    requires |seen| == |r.rows| && Plain(r.heading, body)
    ensures UpdateFrom(r, body + rest, false, seen) == body + UpdateFrom(r, rest, false, seen)
    decreases |body|
  {
    if body == [] {
      assert body + rest == rest;
    } else {
      assert (body + rest)[1..] == body[1..] + rest && (body + rest)[0] == body[0];
      UpdateOutside(r, body[1..], rest, seen);
      assert body == [body[0]] + body[1..];
    }
  }

  lemma {:induction false} UpdateInside<T>(r: Rules<T>, body: seq<T>, rest: seq<T>, seen: seq<bool>)
    requires |seen| == |r.rows| && Plain(r.heading, body)
    ensures UpdateFrom(r, body + rest, true, seen) ==
      RewrittenAll(r, body) + UpdateFrom(r, rest, true, SeenIn(r, body, seen))
    decreases |body|
  {
    hide Rewritten, Marked, Unseen;
    if body == [] {
      assert body + rest == rest;
    } else {
      assert (body + rest)[1..] == body[1..] + rest && (body + rest)[0] == body[0];
      UpdateInside(r, body[1..], rest, Marked(r, body[0], seen));
      assert RewrittenAll(r, body) == [Rewritten(r, body[0])] + RewrittenAll(r, body[1..]);
    }
  }

  lemma {:induction false} UpdateSection<T>(r: Rules<T>, s: Section<T>, rest: seq<T>, inside: bool, seen: seq<bool>)
    requires |seen| == |r.rows| && r.heading(s.heading) && Plain(r.heading, s.body)
    ensures var enters := r.target(s.heading);
      var start := if enters then NothingSeen(|r.rows|) else seen;
      UpdateFrom(r, [s.heading] + s.body + rest, inside, seen) ==
        (if inside then Unseen(r.rows, seen) else []) + [s.heading] +
        (if enters then RewrittenAll(r, s.body) + UpdateFrom(r, rest, true, SeenIn(r, s.body, start))
         else s.body + UpdateFrom(r, rest, false, start))
  {
    hide Unseen, SeenIn, RewrittenAll;
    var lines := [s.heading] + s.body + rest;
    assert lines[1..] == s.body + rest;
    if r.target(s.heading) {
      UpdateInside(r, s.body, rest, NothingSeen(|r.rows|));
    } else {
      UpdateOutside(r, s.body, rest, seen);
    }
  }

  lemma {:induction false} UpdateSections<T>(r: Rules<T>, sections: seq<Section<T>>, inside: bool, seen: seq<bool>)
    requires |seen| == |r.rows| && AreSections(r.heading, sections)
    ensures UpdateFrom(r, LinesOf(sections), inside, seen) ==
      (if inside then Unseen(r.rows, seen) else []) + LinesOf(UpdatedSections(r, sections))
    decreases |sections|
  {
    if sections != [] {
      var s, more := sections[0], sections[1..];
      assert AreSections(r.heading, more);
      UpdatedFirst(r, sections);
      hide Unseen, SeenIn, RewrittenAll, UpdateFrom, UpdatedSections, AreSections, Plain;
      var enters := r.target(s.heading);
      var start := if enters then NothingSeen(|r.rows|) else seen;
      var after := if enters then SeenIn(r, s.body, start) else start;
      UpdateSection(r, s, LinesOf(more), inside, seen);
      UpdateSections(r, more, enters, after);
      var last := if inside then Unseen(r.rows, seen) else [];
      var body := if enters then RewrittenAll(r, s.body) else s.body;
      var end := if enters then Unseen(r.rows, after) else [];
      Regroup(last, [s.heading], body, end, LinesOf(UpdatedSections(r, more)));
      assert !enters ==> s.body + [] == s.body;
    }
  }

  lemma {:induction false} Regroup<T>(a: seq<T>, b: seq<T>, c: seq<T>, d: seq<T>, e: seq<T>)
    ensures a + b + (c + (d + e)) == a + (b + (c + d) + e)
  {
  }

  lemma {:induction false} UpdatedFirst<T>(r: Rules<T>, sections: seq<Section<T>>)
    requires sections != []
    ensures LinesOf(UpdatedSections(r, sections)) ==
      [sections[0].heading] + UpdatedSection(r, sections[0]).body + LinesOf(UpdatedSections(r, sections[1..]))
  {
    hide UpdatedBody;
    assert UpdatedSections(r, sections)[1..] == UpdatedSections(r, sections[1..]);
  }

  /** Updating the lines updates each target section and nothing else. */
  lemma {:induction false} UpdateIsBySection<T>(r: Rules<T>, lines: seq<T>)
    ensures var d := Parse(r.heading, lines);
      Update(r, lines) == Unparse(Document(d.preamble, UpdatedSections(r, d.sections)))
  {
    hide UpdateFrom, UpdatedSections, Parse, AreSections, Plain, LinesOf, Unseen;
    var d := Parse(r.heading, lines);
    ParseIs(r.heading, lines);
    UpdateOutside(r, d.preamble, LinesOf(d.sections), NothingSeen(|r.rows|));
    UpdateSections(r, d.sections, false, NothingSeen(|r.rows|));
  }

  // ----- Lawful rules

  /** Rows match themselves and are no headings. */
  ghost predicate Lawful<T>(r: Rules<T>) {
    forall i | 0 <= i < |r.rows| :: r.find(r.rows[i]) == i && !r.heading(r.rows[i])
  }

  /** The lines that no row replaces. */
  function Unmatched<T>(r: Rules<T>, lines: seq<T>): seq<T> {
    if lines == [] then []
    else (if r.find(lines[0]) < |r.rows| then [] else [lines[0]]) + Unmatched(r, lines[1..])
  }

  predicate Sets<T>(r: Rules<T>, body: seq<T>, i: nat) {
    exists k :: 0 <= k < |body| && r.find(body[k]) == i
  }

  lemma {:induction false} SetsFirst<T>(r: Rules<T>, body: seq<T>, i: nat)
    requires body != []
    ensures Sets(r, body, i) <==> r.find(body[0]) == i || Sets(r, body[1..], i)
  {
    if k :| 0 <= k < |body| && r.find(body[k]) == i {
      assert k > 0 ==> r.find(body[1..][k - 1]) == i;
    }
    if j :| 0 <= j < |body| - 1 && r.find(body[1..][j]) == i {
      assert r.find(body[j + 1]) == i;
    }
  }

  lemma {:induction false} SetsSum<T>(r: Rules<T>, a: seq<T>, b: seq<T>, i: nat)
    ensures Sets(r, a + b, i) <==> Sets(r, a, i) || Sets(r, b, i)
  {
    if k :| 0 <= k < |a| && r.find(a[k]) == i {
      assert r.find((a + b)[k]) == i;
    }
    if k :| 0 <= k < |b| && r.find(b[k]) == i {
      assert r.find((a + b)[|a| + k]) == i;
    }
    if k :| 0 <= k < |a + b| && r.find((a + b)[k]) == i {
      assert if k < |a| then r.find(a[k]) == i else r.find(b[k - |a|]) == i;
    }
  }

  /** The keys seen are those that some line sets. */
  lemma {:induction false} SeenMeans<T>(r: Rules<T>, body: seq<T>, seen: seq<bool>, i: nat)
    requires |seen| == |r.rows| && i < |seen|
    ensures SeenIn(r, body, seen)[i] <==> seen[i] || Sets(r, body, i)
    decreases |body|
  {
    hide Sets;
    if body != [] {
      SeenMeans(r, body[1..], Marked(r, body[0], seen), i);
      SetsFirst(r, body, i);
    } else {
      SetsNothing(r, i);
    }
  }

  lemma {:induction false} SetsNothing<T>(r: Rules<T>, i: nat)
    ensures !Sets(r, [], i)
  {
  }

  /** A line sets row `i` among the rows added exactly when the row was not seen. */
  lemma {:induction false} UnseenSets<T>(r: Rules<T>, from: nat, seen: seq<bool>, i: nat)
    requires Lawful(r) && from <= |r.rows| && |seen| == |r.rows| - from && i < |r.rows|
    ensures Sets(r, Unseen(r.rows[from..], seen), i) <==> from <= i && !seen[i - from]
    decreases |seen|
  {
    hide Sets;
    if from == |r.rows| {
      SetsNothing(r, i);
    } else {
      var row, rest := r.rows[from], Unseen(r.rows[from..][1..], seen[1..]);
      assert r.rows[from..][1..] == r.rows[from + 1..];
      UnseenSets(r, from + 1, seen[1..], i);
      SetsSum(r, if seen[0] then [] else [row], rest, i);
      SetsFirst(r, [row], i);
      SetsNothing(r, i);
      assert [row][1..] == [];
    }
  }

  /** Rewriting keeps which rows are set. */
  lemma {:induction false} RewrittenSets<T>(r: Rules<T>, body: seq<T>, i: nat)
    requires Lawful(r) && i < |r.rows|
    ensures Sets(r, RewrittenAll(r, body), i) <==> Sets(r, body, i)
  {
    var all := RewrittenAll(r, body);
    forall k | 0 <= k < |body|
      ensures r.find(all[k]) < |r.rows| || r.find(body[k]) < |r.rows| ==> r.find(all[k]) == r.find(body[k])
    {
      var m := r.find(body[k]);
      assert m < |r.rows| ==> r.find(r.rows[m]) == m;
    }
    assert |all| == |body|;
  }

  /** In an updated section every row is set. */
  lemma {:induction false} EveryRowSet<T>(r: Rules<T>, body: seq<T>, i: nat)
    requires Lawful(r) && i < |r.rows|
    ensures Sets(r, UpdatedBody(r, body), i)
  {
    hide Sets, Lawful, RewrittenAll, Unseen, SeenIn;
    var seen := SeenIn(r, body, NothingSeen(|r.rows|));
    assert r.rows[0..] == r.rows;
    UnseenSets(r, 0, seen, i);
    SeenMeans(r, body, NothingSeen(|r.rows|), i);
    RewrittenSets(r, body, i);
    SetsSum(r, RewrittenAll(r, body), Unseen(r.rows, seen), i);
  }

  /** Every line that sets a row is that row. */
  ghost predicate Settled<T>(r: Rules<T>, body: seq<T>) {
    forall k | 0 <= k < |body| && r.find(body[k]) < |r.rows| :: body[k] == r.rows[r.find(body[k])]
  }

  lemma {:induction false} UnseenSettled<T>(r: Rules<T>, from: nat, seen: seq<bool>)
    requires Lawful(r) && from <= |r.rows| && |seen| == |r.rows| - from
    ensures Settled(r, Unseen(r.rows[from..], seen)) && Unmatched(r, Unseen(r.rows[from..], seen)) == []
    ensures Plain(r.heading, Unseen(r.rows[from..], seen))
    decreases |seen|
  {
    if from < |r.rows| {
      assert r.rows[from..][1..] == r.rows[from + 1..];
      UnseenSettled(r, from + 1, seen[1..]);
      var rest := Unseen(r.rows[from + 1..], seen[1..]);
      assert ([r.rows[from]] + rest)[1..] == rest && [] + rest == rest;
    }
  }

  lemma {:induction false} UnmatchedSum<T>(r: Rules<T>, a: seq<T>, b: seq<T>)
    ensures Unmatched(r, a + b) == Unmatched(r, a) + Unmatched(r, b)
    decreases |a|
  {
    if a == [] {
      assert a + b == b;
    } else {
      assert (a + b)[1..] == a[1..] + b;
      UnmatchedSum(r, a[1..], b);
    }
  }

  lemma {:induction false} RewrittenUnmatched<T>(r: Rules<T>, body: seq<T>)
    requires Lawful(r)
    ensures Unmatched(r, RewrittenAll(r, body)) == Unmatched(r, body)
    decreases |body|
  {
    if body != [] {
      assert RewrittenAll(r, body)[1..] == RewrittenAll(r, body[1..]);
      RewrittenUnmatched(r, body[1..]);
      var m := r.find(body[0]);
      assert m < |r.rows| ==> r.find(r.rows[m]) == m;
    }
  }

  /** In an updated section every line that sets a row is that row, and the lines that
      set none are those of the section, in order. */
  lemma {:induction false} UpdatedBodyIs<T>(r: Rules<T>, body: seq<T>)
    requires Lawful(r)
    ensures Settled(r, UpdatedBody(r, body))
    ensures Unmatched(r, UpdatedBody(r, body)) == Unmatched(r, body)
  {
    var seen := SeenIn(r, body, NothingSeen(|r.rows|));
    assert r.rows[0..] == r.rows;
    UnseenSettled(r, 0, seen);
    RewrittenUnmatched(r, body);
    UnmatchedSum(r, RewrittenAll(r, body), Unseen(r.rows, seen));
    var all := RewrittenAll(r, body);
    forall k | 0 <= k < |body| && r.find(all[k]) < |r.rows|
      ensures all[k] == r.rows[r.find(all[k])]
    {
      var m := r.find(body[k]);
      assert m < |r.rows| ==> r.find(r.rows[m]) == m;
    }
    hide Unseen, SeenIn, RewrittenAll, Unmatched;
    assert Settled(r, all);
    SettledSum(r, all, Unseen(r.rows, seen));
  }

  lemma {:induction false} SettledSum<T>(r: Rules<T>, a: seq<T>, b: seq<T>)
    requires Settled(r, a) && Settled(r, b)
    ensures Settled(r, a + b)
  {
  }

  lemma {:induction false} UnseenNone<T>(rows: seq<T>, seen: seq<bool>)
    requires |seen| == |rows| && forall i | 0 <= i < |seen| :: seen[i]
    ensures Unseen(rows, seen) == []
    decreases |rows|
  {
    if rows != [] {
      UnseenNone(rows[1..], seen[1..]);
    }
  }

  /** Updating a section again changes nothing. */
  lemma {:induction false} UpdatedBodyTwice<T>(r: Rules<T>, body: seq<T>)
    requires Lawful(r)
    ensures UpdatedBody(r, UpdatedBody(r, body)) == UpdatedBody(r, body)
  {
    var b := UpdatedBody(r, body);
    UpdatedBodyIs(r, body);
    assert RewrittenAll(r, b) == b;
    var seen := SeenIn(r, b, NothingSeen(|r.rows|));
    forall i | 0 <= i < |seen|
      ensures seen[i]
    {
      EveryRowSet(r, body, i);
      SeenMeans(r, b, NothingSeen(|r.rows|), i);
    }
    UnseenNone(r.rows, seen);
  }

  lemma {:induction false} UpdatedBodyPlain<T>(r: Rules<T>, body: seq<T>)
    requires Lawful(r) && Plain(r.heading, body)
    ensures Plain(r.heading, UpdatedBody(r, body))
  {
    var seen := SeenIn(r, body, NothingSeen(|r.rows|));
    assert r.rows[0..] == r.rows;
    UnseenSettled(r, 0, seen);
    hide Unseen, SeenIn;
    assert Plain(r.heading, RewrittenAll(r, body));
  }

  lemma {:induction false} UpdatedAreSections<T>(r: Rules<T>, sections: seq<Section<T>>)
    requires Lawful(r) && AreSections(r.heading, sections)
    ensures AreSections(r.heading, UpdatedSections(r, sections))
  {
    hide Lawful, Plain, UpdatedBody;
    forall i | 0 <= i < |sections|
      ensures Plain(r.heading, UpdatedSections(r, sections)[i].body)
    {
      UpdatedBodyPlain(r, sections[i].body);
    }
  }

  /** The document of the updated lines is the document with its target sections
      updated. */
  lemma {:induction false} UpdateParsed<T>(r: Rules<T>, lines: seq<T>)
    requires Lawful(r)
    ensures var d := Parse(r.heading, lines);
      Parse(r.heading, Update(r, lines)) == Document(d.preamble, UpdatedSections(r, d.sections))
  {
    hide Update, Parse, UpdatedSections, Lawful, AreSections;
    var d := Parse(r.heading, lines);
    UpdateIsBySection(r, lines);
    ParseIs(r.heading, lines);
    UpdatedAreSections(r, d.sections);
    ParseOf(r.heading, Document(d.preamble, UpdatedSections(r, d.sections)));
  }

  /** Updating again changes nothing. */
  lemma {:induction false} UpdateTwice<T>(r: Rules<T>, lines: seq<T>)
    requires Lawful(r)
    ensures Update(r, Update(r, lines)) == Update(r, lines)
  {
    var d := Parse(r.heading, lines);
    var updated := UpdatedSections(r, d.sections);
    UpdateParsed(r, lines);
    UpdateIsBySection(r, lines);
    UpdateIsBySection(r, Update(r, lines));
    hide UpdatedBody, Update, Lawful;
    forall i | 0 <= i < |updated| {
      UpdatedBodyTwice(r, d.sections[i].body);
    }
    assert UpdatedSections(r, updated) == updated;
  }

  // ----- A section added at the end

  /** The document with some plain lines and a section at its end. */
  function Extended<T>(d: Document<T>, more: seq<T>, added: Section<T>): Document<T> {
    if d.sections == [] then Document(d.preamble + more, [added])
    else
      var n := |d.sections| - 1;
      d.(sections := d.sections[..n] + [d.sections[n].(body := d.sections[n].body + more), added])
  }

  lemma {:induction false} ExtendedLines<T>(d: Document<T>, more: seq<T>, added: Section<T>)
    ensures Unparse(Extended(d, more, added)) == Unparse(d) + more + ([added.heading] + added.body)
  {
    if d.sections == [] {
      LinesOfOne(added);
    } else {
      var n := |d.sections| - 1;
      var last := d.sections[n];
      var longer := last.(body := last.body + more);
      assert d.sections == d.sections[..n] + [last];
      LinesOfSum(d.sections[..n], [last]);
      LinesOfSum(d.sections[..n], [longer, added]);
      assert [longer, added] == [longer] + [added];
      LinesOfSum([longer], [added]);
      LinesOfOne(last);
      LinesOfOne(longer);
      LinesOfOne(added);
      hide LinesOf;
      var front := LinesOf(d.sections[..n]);
      RegroupEnd(d.preamble, front, [last.heading], last.body, more, [added.heading] + added.body);
    }
  }

  lemma {:induction false} RegroupEnd<T>(a: seq<T>, b: seq<T>, h: seq<T>, c: seq<T>, d: seq<T>, e: seq<T>)
    ensures a + (b + ((h + (c + d)) + e)) == (a + (b + (h + c))) + d + e
  {
  }

  lemma {:induction false} LinesOfOne<T>(s: Section<T>)
    ensures LinesOf([s]) == [s.heading] + s.body
  {
    assert [s][1..] == [];
  }

  lemma {:induction false} ExtendedWellFormed<T>(h: T -> bool, d: Document<T>, more: seq<T>, added: Section<T>)
    requires WellFormed(h, d) && Plain(h, more) && h(added.heading) && Plain(h, added.body)
    ensures WellFormed(h, Extended(d, more, added))
  {
  }

  lemma {:induction false} ExtendedParsed<T>(h: T -> bool, lines: seq<T>, more: seq<T>, heading: T, body: seq<T>)
    requires Plain(h, more) && h(heading) && Plain(h, body)
    ensures Parse(h, lines + (more + [heading] + body)) == Extended(Parse(h, lines), more, Section(heading, body))
  {
    hide Parse, Plain, Extended, Unparse;
    var d, added := Parse(h, lines), Section(heading, body);
    ParseIs(h, lines);
    ExtendedLines(d, more, added);
    ExtendedWellFormed(h, d, more, added);
    ParseOf(h, Extended(d, more, added));
    assert lines + (more + [heading] + body) == lines + more + ([heading] + body);
  }

  // ----- Which headings a text has

  ghost predicate Targets<T>(r: Rules<T>, sections: seq<Section<T>>) {
    exists j :: 0 <= j < |sections| && r.target(sections[j].heading)
  }

  ghost predicate TargetsLine<T>(r: Rules<T>, lines: seq<T>) {
    exists i :: 0 <= i < |lines| && r.target(lines[i])
  }

  lemma {:induction false} TargetsLineSum<T>(r: Rules<T>, a: seq<T>, b: seq<T>)
    ensures TargetsLine(r, a + b) <==> TargetsLine(r, a) || TargetsLine(r, b)
  {
    if i :| 0 <= i < |a| && r.target(a[i]) {
      assert r.target((a + b)[i]);
    }
    if i :| 0 <= i < |b| && r.target(b[i]) {
      assert r.target((a + b)[|a| + i]);
    }
    if i :| 0 <= i < |a + b| && r.target((a + b)[i]) {
      assert if i < |a| then r.target(a[i]) else r.target(b[i - |a|]);
    }
  }

  lemma {:induction false} PlainHasNoTarget<T>(r: Rules<T>, lines: seq<T>)
    requires Plain(r.heading, lines) && forall line :: r.target(line) ==> r.heading(line)
    ensures !TargetsLine(r, lines)
  {
  }

  lemma {:induction false} TargetsOfLines<T>(r: Rules<T>, sections: seq<Section<T>>)
    requires AreSections(r.heading, sections) && forall line :: r.target(line) ==> r.heading(line)
    ensures TargetsLine(r, LinesOf(sections)) <==> Targets(r, sections)
    decreases |sections|
  {
    if sections != [] {
      var s, rest := sections[0], sections[1..];
      assert AreSections(r.heading, rest);
      TargetsOfLines(r, rest);
      PlainHasNoTarget(r, s.body);
      TargetsLineSum(r, [s.heading], s.body);
      TargetsLineSum(r, [s.heading] + s.body, LinesOf(rest));
      hide AreSections;
      TargetsFirst(r, sections);
      assert TargetsLine(r, [s.heading]) <==> r.target(s.heading) by { assert [s.heading][0] == s.heading; }
    }
  }

  lemma {:induction false} TargetsFirst<T>(r: Rules<T>, sections: seq<Section<T>>)
    requires sections != []
    ensures Targets(r, sections) <==> r.target(sections[0].heading) || Targets(r, sections[1..])
  {
    if j :| 0 <= j < |sections| && r.target(sections[j].heading) {
      assert j > 0 ==> r.target(sections[1..][j - 1].heading);
    }
    if j :| 0 <= j < |sections| - 1 && r.target(sections[1..][j].heading) {
      assert r.target(sections[j + 1].heading);
    }
  }

  /** A text has a target line exactly when its document has a target section. */
  lemma {:induction false} TargetsParsed<T>(r: Rules<T>, lines: seq<T>)
    requires forall line :: r.target(line) ==> r.heading(line)
    ensures TargetsLine(r, lines) <==> Targets(r, Parse(r.heading, lines).sections)
  {
    hide TargetsLine, Targets, LinesOf, Parse;
    var d := Parse(r.heading, lines);
    ParseIs(r.heading, lines);
    PlainHasNoTarget(r, d.preamble);
    TargetsOfLines(r, d.sections);
    TargetsLineSum(r, d.preamble, LinesOf(d.sections));
  }

  /** The rows themselves are an updated section. */
  lemma {:induction false} RowsAreUpdated<T>(r: Rules<T>)
    requires Lawful(r)
    ensures UpdatedBody(r, r.rows) == r.rows
  {
    assert RewrittenAll(r, r.rows) == r.rows;
    var seen := SeenIn(r, r.rows, NothingSeen(|r.rows|));
    forall i | 0 <= i < |seen|
      ensures seen[i]
    {
      assert r.find(r.rows[i]) == i;
      SeenMeans(r, r.rows, NothingSeen(|r.rows|), i);
    }
    UnseenNone(r.rows, seen);
  }

  // ----- Which lines an update writes

  lemma {:induction false} UnseenAreRows<T>(rows: seq<T>, seen: seq<bool>)
    requires |seen| == |rows|
    ensures forall x | x in Unseen(rows, seen) :: x in rows
    decreases |rows|
  {
    if rows != [] {
      UnseenAreRows(rows[1..], seen[1..]);
      assert forall x | x in rows[1..] :: x in rows;
    }
  }

  /** `out` consists of lines and rows, and ends with the last line or a row. */
  ghost predicate Writes<T>(rows: seq<T>, lines: seq<T>, out: seq<T>) {
    && (forall x | x in out :: x in lines || x in rows)
    && |out| >= |lines|
    && (lines != [] ==> out[|out| - 1] == lines[|lines| - 1] || out[|out| - 1] in rows)
  }

  lemma {:induction false} WritesFirst<T>(rows: seq<T>, lines: seq<T>, added: seq<T>, x: T, out: seq<T>)
    requires lines != [] && (x == lines[0] || x in rows) && Writes(rows, lines[1..], out)
    requires forall y | y in added :: y in rows
    ensures Writes(rows, lines, added + [x] + out)
  {
    assert forall y | y in lines[1..] :: y in lines;
    assert lines[0] in lines;
  }

  /** What an update writes. */
  lemma {:induction false} UpdateWrites<T>(r: Rules<T>, lines: seq<T>, inside: bool, seen: seq<bool>)
    requires |seen| == |r.rows|
    ensures Writes(r.rows, lines, UpdateFrom(r, lines, inside, seen))
    decreases |lines|
  {
    UnseenAreRows(r.rows, seen);
    if lines != [] {
      hide Unseen, NothingSeen, Writes;
      if r.heading(lines[0]) {
        var enters := r.target(lines[0]);
        var start := if enters then NothingSeen(|r.rows|) else seen;
        UpdateWrites(r, lines[1..], enters, start);
        WritesFirst(r.rows, lines, if inside then Unseen(r.rows, seen) else [], lines[0],
                    UpdateFrom(r, lines[1..], enters, start));
      } else {
        var marked := if inside then Marked(r, lines[0], seen) else seen;
        var written := if inside then Rewritten(r, lines[0]) else lines[0];
        UpdateWrites(r, lines[1..], inside, marked);
        WritesFirst(r.rows, lines, [], written, UpdateFrom(r, lines[1..], inside, marked));
        assert [] + [written] == [written];
      }
    }
  }

  lemma {:induction false} UnseenHas<T>(rows: seq<T>, seen: seq<bool>, j: nat)
    requires |seen| == |rows| && j < |rows| && !seen[j]
    ensures rows[j] in Unseen(rows, seen)
    decreases |rows|
  {
    if j > 0 {
      UnseenHas(rows[1..], seen[1..], j - 1);
    }
  }

  /** In a target section every row is written, whatever the rules. */
  lemma {:induction false} RowIsWritten<T>(r: Rules<T>, lines: seq<T>, inside: bool, seen: seq<bool>, j: nat)
    requires |seen| == |r.rows| && j < |r.rows| && forall line :: r.target(line) ==> r.heading(line)
    requires (inside && !seen[j]) || TargetsLine(r, lines)
    ensures r.rows[j] in UpdateFrom(r, lines, inside, seen)
    decreases |lines|
  {
    if inside && !seen[j] {
      UnseenHas(r.rows, seen, j);
    }
    if lines != [] {
      TargetsLineSum(r, [lines[0]], lines[1..]);
      assert lines == [lines[0]] + lines[1..];
      assert TargetsLine(r, [lines[0]]) ==> r.target(lines[0]);
      hide Unseen, TargetsLine;
      var enters := r.target(lines[0]);
      if r.heading(lines[0]) {
        if enters || TargetsLine(r, lines[1..]) {
          RowIsWritten(r, lines[1..], enters, if enters then NothingSeen(|r.rows|) else seen, j);
        }
      } else {
        var marked := if inside then Marked(r, lines[0], seen) else seen;
        if (inside && !marked[j]) || TargetsLine(r, lines[1..]) {
          RowIsWritten(r, lines[1..], inside, marked, j);
        }
      }
    }
  }

  // ----- Rules that are not lawful

  /** No line of a target section sets row `j`. */
  predicate Missing<T>(r: Rules<T>, lines: seq<T>, inside: bool, j: nat) {
    lines == [] ||
    if r.heading(lines[0]) then Missing(r, lines[1..], r.target(lines[0]), j)
    else (inside ==> r.find(lines[0]) != j) && Missing(r, lines[1..], inside, j)
  }

  /** If no line of a target section sets row `j`, an update makes the text longer. */
  lemma {:induction false} MissingGrows<T>(r: Rules<T>, lines: seq<T>, inside: bool, seen: seq<bool>, j: nat)
    requires |seen| == |r.rows| && j < |r.rows| && (inside ==> !seen[j]) && Missing(r, lines, inside, j)
    requires forall line :: r.target(line) ==> r.heading(line)
    ensures |UpdateFrom(r, lines, inside, seen)| >= |lines|
    ensures inside || TargetsLine(r, lines) ==> |UpdateFrom(r, lines, inside, seen)| > |lines|
    decreases |lines|
  {
    if inside {
      UnseenHas(r.rows, seen, j);
    }
    if lines != [] {
      TargetsLineSum(r, [lines[0]], lines[1..]);
      assert lines == [lines[0]] + lines[1..];
      assert TargetsLine(r, [lines[0]]) ==> r.target(lines[0]);
      hide Unseen, TargetsLine;
      var enters := r.target(lines[0]);
      if r.heading(lines[0]) {
        MissingGrows(r, lines[1..], enters, if enters then NothingSeen(|r.rows|) else seen, j);
      } else {
        MissingGrows(r, lines[1..], inside, if inside then Marked(r, lines[0], seen) else seen, j);
      }
    }
  }

  /** The line does not set row `j` where it stands in a section. */
  predicate Avoids<T>(r: Rules<T>, line: T, j: nat) {
    r.heading(line) || r.find(line) != j
  }

  /** No row, not even row `j`, sets row `j` when it is read again. */
  ghost predicate Unfindable<T>(r: Rules<T>, j: nat) {
    j < |r.rows| && forall x | x in r.rows :: Avoids(r, x, j)
  }

  lemma {:induction false} MissingOutside<T>(r: Rules<T>, lines: seq<T>, inside: bool, j: nat)
    requires Missing(r, lines, true, j)
    ensures Missing(r, lines, inside, j)
    decreases |lines|
  {
    if lines != [] && !r.heading(lines[0]) {
      MissingOutside(r, lines[1..], inside, j);
    }
  }

  lemma {:induction false} MissingSum<T>(r: Rules<T>, a: seq<T>, b: seq<T>, inside: bool, j: nat)
    requires (forall x | x in a :: Avoids(r, x, j)) && Missing(r, b, true, j)
    ensures Missing(r, a + b, inside, j)
    decreases |a|
  {
    if a == [] {
      assert a + b == b;
      MissingOutside(r, b, inside, j);
    } else {
      assert (a + b)[1..] == a[1..] + b && (a + b)[0] == a[0] && a[0] in a;
      MissingSum(r, a[1..], b, if r.heading(a[0]) then r.target(a[0]) else inside, j);
    }
  }

  /** Lines without a target leave the rest as it is. */
  lemma {:induction false} MissingAfter<T>(r: Rules<T>, a: seq<T>, b: seq<T>, j: nat)
    requires !TargetsLine(r, a) && Missing(r, b, false, j)
    ensures Missing(r, a + b, false, j)
    decreases |a|
  {
    if a == [] {
      assert a + b == b;
    } else {
      assert (a + b)[1..] == a[1..] + b && (a + b)[0] == a[0];
      assert forall i | 0 <= i < |a| - 1 :: a[1..][i] == a[i + 1];
      assert !r.target(a[0]);
      MissingAfter(r, a[1..], b, j);
    }
  }

  lemma {:induction false} RewrittenAvoids<T>(r: Rules<T>, line: T, j: nat)
    requires Unfindable(r, j) && !r.heading(line)
    ensures Avoids(r, Rewritten(r, line), j)
  {
  }

  /** After an update no line of a target section sets an unfindable row. */
  lemma {:induction false} UpdateMisses<T>(r: Rules<T>, lines: seq<T>, inside: bool, seen: seq<bool>, j: nat)
    requires |seen| == |r.rows| && Unfindable(r, j)
    ensures Missing(r, UpdateFrom(r, lines, inside, seen), inside, j)
    decreases |lines|
  {
    UnseenAreRows(r.rows, seen);
    var added := Unseen(r.rows, seen);
    assert forall x | x in added :: Avoids(r, x, j);
    if lines == [] {
      if inside {
        MissingSum(r, added, [], inside, j);
        assert added + [] == added;
      }
    } else if r.heading(lines[0]) {
      var enters := r.target(lines[0]);
      var start := if enters then NothingSeen(|r.rows|) else seen;
      UpdateMisses(r, lines[1..], enters, start, j);
      var rest := UpdateFrom(r, lines[1..], enters, start);
      hide Unseen, Unfindable;
      HeadingMisses(r, if inside then added else [], lines[0], rest, inside, j);
    } else if inside {
      var marked := Marked(r, lines[0], seen);
      UpdateMisses(r, lines[1..], true, marked, j);
      RewrittenAvoids(r, lines[0], j);
      hide Unfindable, Unseen;
      MissingSum(r, [Rewritten(r, lines[0])], UpdateFrom(r, lines[1..], true, marked), inside, j);
    } else {
      UpdateMisses(r, lines[1..], false, seen, j);
      hide Unfindable, Unseen;
      assert ([lines[0]] + UpdateFrom(r, lines[1..], false, seen))[1..] == UpdateFrom(r, lines[1..], false, seen);
    }
  }

  lemma {:induction false} HeadingMisses<T>(r: Rules<T>, added: seq<T>, heading: T, rest: seq<T>, inside: bool, j: nat)
    requires (forall x | x in added :: Avoids(r, x, j)) && r.heading(heading)
    requires Missing(r, rest, r.target(heading), j)
    ensures Missing(r, added + [heading] + rest, inside, j)
  {
    assert ([heading] + rest)[1..] == rest;
    MissingSum(r, added, [heading] + rest, inside, j);
    assert added + [heading] + rest == added + ([heading] + rest);
  }

  lemma {:induction false} UpdateKeepsTargets<T>(r: Rules<T>, lines: seq<T>, inside: bool, seen: seq<bool>)
    requires |seen| == |r.rows| && forall line :: r.target(line) ==> r.heading(line)
    ensures TargetsLine(r, lines) ==> TargetsLine(r, UpdateFrom(r, lines, inside, seen))
    decreases |lines|
  {
    if lines != [] {
      var x, rest := lines[0], lines[1..];
      TargetsLineSum(r, [x], rest);
      assert lines == [x] + rest;
      assert TargetsLine(r, [x]) ==> r.target(x);
      assert r.target(x) ==> TargetsLine(r, [x]) by { assert [x][0] == x; }
      var enters := r.target(x);
      var added := if inside then Unseen(r.rows, seen) else [];
      hide TargetsLine, Unseen;
      if r.heading(x) {
        var start := if enters then NothingSeen(|r.rows|) else seen;
        UpdateKeepsTargets(r, rest, enters, start);
        TargetsLineSum(r, added, [x]);
        TargetsLineSum(r, added + [x], UpdateFrom(r, rest, enters, start));
      } else {
        var marked := if inside then Marked(r, x, seen) else seen;
        UpdateKeepsTargets(r, rest, inside, marked);
        TargetsLineSum(r, [if inside then Rewritten(r, x) else x], UpdateFrom(r, rest, inside, marked));
      }
    }
  }

  /** With an unfindable row every update of an updated text makes it longer. */
  lemma {:induction false} UnfindableGrows<T>(r: Rules<T>, lines: seq<T>, j: nat)
    requires Unfindable(r, j) && TargetsLine(r, lines) && forall line :: r.target(line) ==> r.heading(line)
    ensures |Update(r, Update(r, lines))| > |Update(r, lines)| && TargetsLine(r, Update(r, lines))
  {
    var start := NothingSeen(|r.rows|);
    UpdateMisses(r, lines, false, start, j);
    UpdateKeepsTargets(r, lines, false, start);
    hide TargetsLine, UpdateFrom, Missing;
    MissingGrows(r, Update(r, lines), false, start, j);
  }

  /** The same for a text that got its first target section at its end. */
  lemma {:induction false} NewSectionGrows<T>(r: Rules<T>, lines: seq<T>, more: seq<T>, heading: T, j: nat)
    requires Unfindable(r, j) && !TargetsLine(r, lines) && Plain(r.heading, more) && r.target(heading)
    requires forall line :: r.target(line) ==> r.heading(line)
    ensures var once := lines + (more + [heading] + r.rows);
      TargetsLine(r, once) && |Update(r, once)| > |once|
  {
    var once := lines + (more + [heading] + r.rows);
    MissingSum(r, r.rows, [], true, j);
    assert r.rows + [] == r.rows;
    PlainHasNoTarget(r, more);
    assert ([heading] + r.rows)[1..] == r.rows;
    MissingAfter(r, more, [heading] + r.rows, j);
    assert more + [heading] + r.rows == more + ([heading] + r.rows);
    MissingAfter(r, lines, more + [heading] + r.rows, j);
    assert r.target(once[|lines| + |more|]);
    hide UpdateFrom, Missing;
    MissingGrows(r, once, false, NothingSeen(|r.rows|), j);
  }
}
