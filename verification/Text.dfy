/** Vocabulary shared by the models: optional values, and the few string
    operations of the standard library that the modelled code calls.

    A text is a sequence of Unicode scalar values.  Positions count scalar values
    where the program counts bytes; every delimiter it looks for is ASCII, so a
    position here and the program's byte offset denote the same boundary. */
module Text {

  datatype Option<+T> = None | Some(value: T)

  datatype Result<+T, +E> = Ok(value: T) | Err(error: E)

  /** The number of bytes of the UTF-8 form of one scalar value. */
  function CharBytes(c: char): nat {
    if c < '\U{0080}' then 1
    else if c < '\U{0800}' then 2
    else if c < '\U{10000}' then 3
    else 4
  }

  /** The number of bytes of the UTF-8 form of `s`. */
  function ByteLength(s: string): nat {
    if s == "" then 0 else CharBytes(s[0]) + ByteLength(s[1..])
  }

  /** The Unicode White_Space property. */
  predicate IsWhitespace(c: char) {
    || '\U{0009}' <= c <= '\U{000D}'
    || c == ' ' || c == '\U{0085}' || c == '\U{00A0}' || c == '\U{1680}'
    || '\U{2000}' <= c <= '\U{200A}'
    || c == '\U{2028}' || c == '\U{2029}' || c == '\U{202F}'
    || c == '\U{205F}' || c == '\U{3000}'
  }

  function TrimStart(s: string): string {
    if s != "" && IsWhitespace(s[0]) then TrimStart(s[1..]) else s
  }

  function TrimEnd(s: string): string {
    if s != "" && IsWhitespace(s[|s| - 1]) then TrimEnd(s[..|s| - 1]) else s
  }

  function Trim(s: string): string {
    TrimEnd(TrimStart(s))
  }

  function Join(parts: seq<string>, separator: string): string {
    if parts == [] then ""
    else if |parts| == 1 then parts[0]
    else parts[0] + separator + Join(parts[1..], separator)
  }

  function Flatten<T>(parts: seq<seq<T>>): seq<T> {
    if parts == [] then [] else parts[0] + Flatten(parts[1..])
  }

  // ----- Trimming

  /** Nothing but whitespace. */
  predicate AllWhitespace(s: string) {
    forall i | 0 <= i < |s| :: IsWhitespace(s[i])
  }

  /** Neither starts nor ends with whitespace. */
  predicate Tight(s: string) {
    s != "" ==> !IsWhitespace(s[0]) && !IsWhitespace(s[|s| - 1])
  }

  lemma {:induction false} TightIsTrimmed(s: string)
    requires Tight(s)
    ensures Trim(s) == s
  {
    hide IsWhitespace;
  }

  lemma {:induction false} TrimIsTight(s: string)
    ensures Tight(Trim(s)) && Trim(Trim(s)) == Trim(s)
    ensures forall c | c in Trim(s) :: c in s
  {
    TrimStartIs(s);
    TrimEndIs(TrimStart(s));
    hide IsWhitespace, TrimStart, TrimEnd;
    TightIsTrimmed(Trim(s));
  }

  lemma {:induction false} TrimStartIs(s: string)
    ensures TrimStart(s) != "" ==> !IsWhitespace(TrimStart(s)[0])
    ensures forall c | c in TrimStart(s) :: c in s
    decreases |s|
  {
    hide IsWhitespace;
    if s != "" && IsWhitespace(s[0]) {
      TrimStartIs(s[1..]);
    }
  }

  lemma {:induction false} TrimEndIs(s: string)
    ensures var t := TrimEnd(s);
      && (t != "" ==> !IsWhitespace(t[|t| - 1]) && s != "" && t[0] == s[0])
      && forall c | c in t :: c in s
    decreases |s|
  {
    hide IsWhitespace;
    if s != "" && IsWhitespace(s[|s| - 1]) {
      TrimEndIs(s[..|s| - 1]);
    }
  }

  lemma {:induction false} TrimEndAfter(a: string, b: string)
    requires a != "" && !IsWhitespace(a[|a| - 1])
    ensures TrimEnd(a + b) == a + TrimEnd(b)
    decreases |b|
  {
    hide IsWhitespace;
    if b == "" {
      assert a + b == a;
    } else if IsWhitespace(b[|b| - 1]) {
      assert (a + b)[..|a + b| - 1] == a + b[..|b| - 1];
      TrimEndAfter(a, b[..|b| - 1]);
    }
  }

  lemma {:induction false} TrimStartBefore(s: string, c: char)
    requires IsWhitespace(c)
    ensures TrimStart(s + [c]) == if TrimStart(s) == "" then "" else TrimStart(s) + [c]
    decreases |s|
  {
    hide IsWhitespace;
    if s == "" {
      assert s + [c] == [c] && [c][1..] == "";
    } else if IsWhitespace(s[0]) {
      assert (s + [c])[1..] == s[1..] + [c];
      TrimStartBefore(s[1..], c);
    }
  }

  lemma {:induction false} TrimAfterTrimEnd(s: string)
    ensures Trim(TrimEnd(s)) == Trim(s)
    decreases |s|
  {
    hide IsWhitespace;
    if s != "" && IsWhitespace(s[|s| - 1]) {
      var front, c := s[..|s| - 1], s[|s| - 1];
      assert s == front + [c];
      TrimAfterTrimEnd(front);
      TrimStartBefore(front, c);
      var t := TrimStart(front);
      assert t != "" ==> (t + [c])[..|t + [c]| - 1] == t;
    }
  }

  lemma {:induction false} TrimStartSplits(s: string) returns (before: string)
    ensures s == before + TrimStart(s) && AllWhitespace(before)
    decreases |s|
  {
    hide IsWhitespace;
    if s != "" && IsWhitespace(s[0]) {
      before := TrimStartSplits(s[1..]);
      before := [s[0]] + before;
    } else {
      before := "";
    }
  }

  lemma {:induction false} TrimEndSplits(s: string) returns (after: string)
    ensures s == TrimEnd(s) + after && AllWhitespace(after)
    decreases |s|
  {
    hide IsWhitespace;
    if s != "" && IsWhitespace(s[|s| - 1]) {
      after := TrimEndSplits(s[..|s| - 1]);
      after := after + [s[|s| - 1]];
    } else {
      after := "";
    }
  }

  lemma {:induction false} TrimParts(s: string) returns (before: string, after: string)
    ensures s == before + Trim(s) + after && AllWhitespace(before) && AllWhitespace(after)
  {
    before := TrimStartSplits(s);
    after := TrimEndSplits(TrimStart(s));
    hide AllWhitespace, TrimStart, TrimEnd;
    assert s == before + Trim(s) + after;
  }

  /** A text is its trimmed form with whitespace around it, and that is all whitespace
      exactly when it is empty. */
  lemma {:induction false} TrimSplits(s: string)
    ensures exists before, after :: s == before + Trim(s) + after && AllWhitespace(before) && AllWhitespace(after)
    ensures Tight(Trim(s)) && (Trim(s) == "" <==> AllWhitespace(s))
  {
    TrimIsTight(s);
    var before, after := TrimParts(s);
    hide IsWhitespace, Trim;
    if Trim(s) == "" {
      assert s == before + after;
      forall i | 0 <= i < |s|
        ensures IsWhitespace(s[i])
      {
        assert s[i] == if i < |before| then before[i] else after[i - |before|];
      }
    } else {
      assert s[|before|] == Trim(s)[0];
    }
  }

  // ----- Filtered sequences

  /** `out` consists of the items of `s` that `keep` accepts, in order; `places` says where
      they stand. */
  ghost predicate Selects<T(!new)>(s: seq<T>, out: seq<T>, keep: T -> bool, places: seq<nat>) {
    && |places| == |out|
    && (forall k | 0 <= k < |out| :: places[k] < |s| && out[k] == s[places[k]] && keep(out[k]))
    && (forall k, l | 0 <= k < l < |places| :: places[k] < places[l])
    && (forall i | 0 <= i < |s| && keep(s[i]) :: i in places)
  }

  function Shifted(places: seq<nat>): (r: seq<nat>)
    ensures |r| == |places| && forall k | 0 <= k < |places| :: r[k] == places[k] + 1
  {
    seq(|places|, k requires 0 <= k < |places| => places[k] + 1)
  }

  function WithFirst(places: seq<nat>): (r: seq<nat>)
    ensures |r| == |places| + 1 && r[0] == 0 && forall k | 0 < k < |r| :: r[k] == places[k - 1] + 1
  {
    [0] + Shifted(places)
  }

  lemma {:induction false} SelectsLater<T(!new)>(s: seq<T>, out: seq<T>, keep: T -> bool, places: seq<nat>)
    requires s != [] && Selects(s[1..], out, keep, places) && !keep(s[0])
    ensures Selects(s, out, keep, Shifted(places))
  {
    var later := Shifted(places);
    forall i | 0 <= i < |s| && keep(s[i])
      ensures i in later
    {
      assert s[1..][i - 1] == s[i];
      var k :| 0 <= k < |places| && places[k] == i - 1;
      assert later[k] == i;
    }
  }

  lemma {:induction false} FirstIsSelected<T(!new)>(s: seq<T>, out: seq<T>, keep: T -> bool, places: seq<nat>, i: nat)
    requires s != [] && Selects(s[1..], out, keep, places) && i < |s| && keep(s[i])
    ensures i in WithFirst(places)
  {
    hide WithFirst;
    var all := WithFirst(places);
    if i == 0 {
      assert all[0] == 0;
    } else {
      assert s[1..][i - 1] == s[i];
      var k :| 0 <= k < |places| && places[k] == i - 1;
      assert all[k + 1] == i;
    }
  }

  lemma {:induction false} SelectsFirst<T(!new)>(s: seq<T>, out: seq<T>, keep: T -> bool, places: seq<nat>)
    requires s != [] && Selects(s[1..], out, keep, places) && keep(s[0])
    ensures Selects(s, [s[0]] + out, keep, WithFirst(places))
  {
    hide WithFirst;
    var all, more := WithFirst(places), [s[0]] + out;
    forall k | 0 <= k < |more|
      ensures all[k] < |s| && more[k] == s[all[k]] && keep(more[k])
    {
      if k > 0 {
        assert all[k] == places[k - 1] + 1 && more[k] == out[k - 1];
        assert s[1..][places[k - 1]] == s[places[k - 1] + 1];
      }
    }
    forall i | 0 <= i < |s| && keep(s[i])
      ensures i in all
    {
      FirstIsSelected(s, out, keep, places, i);
    }
  }

  /** `out` consists of the items of `s` that `keep` accepts, in order. */
  ghost predicate Filtered<T(!new)>(s: seq<T>, out: seq<T>, keep: T -> bool) {
    exists places :: Selects(s, out, keep, places)
  }

  lemma {:induction false} FilteredNone<T(!new)>(keep: T -> bool)
    ensures Filtered([], [], keep)
  {
    assert Selects([], [], keep, []);
  }

  lemma {:induction false} FilteredNext<T(!new)>(s: seq<T>, out: seq<T>, keep: T -> bool)
    requires s != [] && Filtered(s[1..], out, keep)
    ensures Filtered(s, if keep(s[0]) then [s[0]] + out else out, keep)
  {
    hide Selects;
    var places :| Selects(s[1..], out, keep, places);
    if keep(s[0]) {
      SelectsFirst(s, out, keep, places);
    } else {
      SelectsLater(s, out, keep, places);
    }
  }
}
