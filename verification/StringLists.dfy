/** Lists of strings, trimmed and without repeats (desktop/tabs.go:3002-3053). */
module StringLists {
  import opened Common

  // ---------------------------------------------------------------------------- trimming

  /** The white space that Go's strings.TrimSpace removes. */
  predicate IsSpace(c: char) {
    || '\t' <= c <= '\r' || c == ' ' || c == '\U{85}' || c == '\U{A0}' || c == '\U{1680}'
    || '\U{2000}' <= c <= '\U{200A}' || c == '\U{2028}' || c == '\U{2029}' || c == '\U{202F}'
    || c == '\U{205F}' || c == '\U{3000}'
  }

  function TrimLeft(s: string): string {
    if s != "" && IsSpace(s[0]) then TrimLeft(s[1..]) else s
  }

  function TrimRight(s: string): string {
    if s != "" && IsSpace(s[|s| - 1]) then TrimRight(s[..|s| - 1]) else s
  }

  function Trim(s: string): string {
    TrimRight(TrimLeft(s))
  }

  predicate IsTrimmed(s: string) {
    s == "" || (!IsSpace(s[0]) && !IsSpace(s[|s| - 1]))
  }

  lemma {:induction false} TrimLeftEnds(s: string)
    ensures var r := TrimLeft(s); r == "" || !IsSpace(r[0])
  {
    if s != "" && IsSpace(s[0]) {
      TrimLeftEnds(s[1..]);
    }
  }

  lemma {:induction false} TrimRightEnds(s: string)
    ensures var r := TrimRight(s); r <= s && (r == "" || !IsSpace(r[|r| - 1]))
  {
    if s != "" && IsSpace(s[|s| - 1]) {
      TrimRightEnds(s[..|s| - 1]);
    }
  }

  lemma TrimIsTrimmed(s: string)
    ensures IsTrimmed(Trim(s))
  {
    TrimLeftEnds(s);
    TrimRightEnds(TrimLeft(s));
  }

  /** Trimming takes white space off both ends, and nothing else. */
  lemma TrimIsMiddle(s: string)
    ensures exists i, j :: 0 <= i <= j <= |s| && Trim(s) == s[i..j] && AllSpace(s[..i]) && AllSpace(s[j..])
  {
    TrimLeftIsRest(s);
    TrimRightIsFirst(TrimLeft(s));
    var i, j := |s| - |TrimLeft(s)|, |s| - |TrimLeft(s)| + |Trim(s)|;
    assert s[j..] == TrimLeft(s)[|Trim(s)|..] && s[i..j] == TrimLeft(s)[..|Trim(s)|];
    assert AllSpace(s[..i]) && AllSpace(s[j..]);
  }

  predicate AllSpace(s: string) {
    forall k :: 0 <= k < |s| ==> IsSpace(s[k])
  }

  lemma {:induction false} TrimLeftIsRest(s: string)
    ensures var i := |s| - |TrimLeft(s)|; 0 <= i && TrimLeft(s) == s[i..] && AllSpace(s[..i])
  {
    if s != "" && IsSpace(s[0]) {
      var i := |s| - |TrimLeft(s)|;
      TrimLeftIsRest(s[1..]);
      assert s[..i] == [s[0]] + s[1..][..i - 1];
    }
  }

  lemma {:induction false} TrimRightIsFirst(s: string)
    ensures var j := |TrimRight(s)|; j <= |s| && TrimRight(s) == s[..j] && AllSpace(s[j..])
  {
    if s != "" && IsSpace(s[|s| - 1]) {
      var rest, j := s[..|s| - 1], |TrimRight(s)|;
      TrimRightIsFirst(rest);
      assert s[j..] == rest[j..] + [s[|s| - 1]];
    }
  }

  lemma TrimmedStays(s: string)
    requires IsTrimmed(s)
    ensures Trim(s) == s
  {}

  // ------------------------------------------------------------------ collecting values

  /** What each value stands for, in the order of first appearance; values that stand for
      nothing are skipped. */
  function Collected(values: seq<string>, f: string -> Option<string>): seq<string> {
    if values == [] then []
    else
      var n := |values| - 1;
      Extend(Collected(values[..n], f), f(values[n]))
  }

  function Extend(out: seq<string>, x: Option<string>): seq<string> {
    if x.Some? && x.value !in out then out + [x.value] else out
  }

  lemma CollectedNext(values: seq<string>, f: string -> Option<string>, i: nat)
    requires i < |values|
    ensures Collected(values[..i + 1], f) == Extend(Collected(values[..i], f), f(values[i]))
  {
    assert values[..i + 1][..i] == values[..i];
  }

  predicate Names(values: seq<string>, f: string -> Option<string>, x: string) {
    exists i :: 0 <= i < |values| && f(values[i]) == Some(x)
  }

  lemma NamesAppend(a: seq<string>, b: seq<string>, f: string -> Option<string>, x: string)
    ensures Names(a + b, f, x) <==> Names(a, f, x) || Names(b, f, x)
  {
    var both := a + b;
    if i :| 0 <= i < |both| && f(both[i]) == Some(x) {
      assert if i < |a| then f(a[i]) == Some(x) else f(b[i - |a|]) == Some(x);
    }
    if i :| 0 <= i < |a| && f(a[i]) == Some(x) {
      assert f(both[i]) == Some(x);
    }
    if i :| 0 <= i < |b| && f(b[i]) == Some(x) {
      assert f(both[|a| + i]) == Some(x);
    }
  }

  /** A collection has no repeats and exactly the things the values stand for. */
  lemma {:induction false} CollectedMembers(values: seq<string>, f: string -> Option<string>)
    ensures Distinct(Collected(values, f))
    ensures forall x :: (x in Collected(values, f)) <==> Names(values, f, x)
  {
    if values != [] {
      var n := |values| - 1;
      CollectedMembers(values[..n], f);
      assert values == values[..n] + [values[n]];
      forall x ensures Names(values, f, x) <==> Names(values[..n], f, x) || f(values[n]) == Some(x) {
        NamesAppend(values[..n], [values[n]], f, x);
        assert f([values[n]][0]) == f(values[n]);
      }
    }
  }

  /** Values that stand for themselves, without repeats, are collected as they are. */
  lemma {:induction false} CollectedFixed(values: seq<string>, f: string -> Option<string>)
    requires Distinct(values) && forall x :: x in values ==> f(x) == Some(x)
    ensures Collected(values, f) == values
  {
    if values != [] {
      var n := |values| - 1;
      assert values == values[..n] + [values[n]];
      DistinctConcat(values[..n], [values[n]]);
      CollectedFixed(values[..n], f);
    }
  }

  /** Collecting twice is collecting once, when what a value stands for stands for itself. */
  lemma CollectedTwice(values: seq<string>, f: string -> Option<string>)
    requires forall v, x :: f(v) == Some(x) ==> f(x) == Some(x)
    ensures Collected(Collected(values, f), f) == Collected(values, f)
  {
    CollectedMembers(values, f);
    CollectedFixed(Collected(values, f), f);
  }

  /** Collecting from a collection is collecting from the values, for what depends only on what
      they were collected as. */
  lemma {:induction false} CollectedThrough(values: seq<string>, f: string -> Option<string>, g: string -> Option<string>)
    requires forall v :: g(v) == if f(v).Some? then g(f(v).value) else None
    ensures Collected(Collected(values, f), g) == Collected(values, g)
  {
    if values != [] {
      var n := |values| - 1;
      var before, x := Collected(values[..n], f), f(values[n]);
      CollectedThrough(values[..n], f, g);
      if x.Some? && x.value !in before {
        assert (before + [x.value])[..|before|] == before;
      } else if x.Some? {
        CollectedMembers(before, g);
        var i :| 0 <= i < |before| && before[i] == x.value;
        assert g(x.value).Some? ==> Names(before, g, g(x.value).value);
      }
    }
  }

  // -------------------------------------------------------------------- first appearances

  /** Where each thing that came out was first said: of the things that are alike, the first
      one stays, and they keep their order. */
  ghost predicate FirstPlaces<T(!new)>(
    values: seq<T>, says: T -> Option<string>, alike: string -> string, out: seq<string>, places: seq<nat>)
  {
    && |places| == |out|
    && (forall k :: 0 <= k < |out| ==> places[k] < |values| && says(values[places[k]]) == Some(out[k]))
    && (forall k, l :: 0 <= k < l < |out| ==> places[k] < places[l] && alike(out[k]) != alike(out[l]))
    && (forall i :: 0 <= i < |values| && says(values[i]).Some? ==> SaidBy(says(values[i]).value, alike, out, places, i))
  }

  /** Something alike came out, said at the place or before it. */
  ghost predicate SaidBy(x: string, alike: string -> string, out: seq<string>, places: seq<nat>, i: nat)
    requires |places| == |out|
  {
    exists k :: 0 <= k < |out| && places[k] <= i && alike(out[k]) == alike(x)
  }

  /** What came out is what the values say, the first of those alike, in the order in which
      they are first said. */
  ghost predicate FirstsOf<T(!new)>(values: seq<T>, says: T -> Option<string>, alike: string -> string, out: seq<string>) {
    exists places :: FirstPlaces(values, says, alike, out, places)
  }

  ghost predicate NewTo(x: string, alike: string -> string, out: seq<string>) {
    forall y :: y in out ==> alike(y) != alike(x)
  }

  /** A value that says nothing, or something like what has come out already, adds nothing. */
  lemma FirstsSame<T(!new)>(values: seq<T>, v: T, says: T -> Option<string>, alike: string -> string, out: seq<string>)
    requires FirstsOf(values, says, alike, out)
    requires says(v).Some? ==> !NewTo(says(v).value, alike, out)
    ensures FirstsOf(values + [v], says, alike, out)
  {
    var places: seq<nat> :| FirstPlaces(values, says, alike, out, places);
    var all := values + [v];
    forall i | 0 <= i < |all| && says(all[i]).Some? ensures SaidBy(says(all[i]).value, alike, out, places, i) {
      if i < |values| {
        assert SaidBy(says(values[i]).value, alike, out, places, i);
      } else {
        var y :| y in out && alike(y) == alike(says(v).value);
        var k :| 0 <= k < |out| && out[k] == y;
        assert places[k] <= i;
      }
    }
    assert FirstPlaces(all, says, alike, out, places);
  }

  lemma FirstsMore<T(!new)>(values: seq<T>, v: T, says: T -> Option<string>, alike: string -> string, out: seq<string>)
    requires FirstsOf(values, says, alike, out)
    requires says(v).Some? && NewTo(says(v).value, alike, out)
    ensures FirstsOf(values + [v], says, alike, out + [says(v).value])
  {
    var places: seq<nat> :| FirstPlaces(values, says, alike, out, places);
    PlaceAdded(values, v, says, alike, out, places, says(v).value, places + [|values|]);
  }

  /** One value more: what it says is added unless something like it has come out. */
  lemma FirstsNext<T(!new)>(values: seq<T>, says: T -> Option<string>, alike: string -> string, out: seq<string>, next: seq<string>)
    requires values != [] && FirstsOf(values[..|values| - 1], says, alike, out)
    requires var x := says(values[|values| - 1]);
             next == if x.Some? && NewTo(x.value, alike, out) then out + [x.value] else out
    ensures FirstsOf(values, says, alike, next)
  {
    var before, v := values[..|values| - 1], values[|values| - 1];
    if says(v).Some? && NewTo(says(v).value, alike, out) {
      FirstsMore(before, v, says, alike, out);
    } else {
      FirstsSame(before, v, says, alike, out);
    }
    LastApart(values);
  }

  lemma LastApart<T>(values: seq<T>)
    requires values != []
    ensures values[..|values| - 1] + [values[|values| - 1]] == values
  {}

  lemma PlaceAdded<T(!new)>(
    values: seq<T>, v: T, says: T -> Option<string>, alike: string -> string, out: seq<string>, places: seq<nat>,
    x: string, at: seq<nat>)
    requires FirstPlaces(values, says, alike, out, places) && at == places + [|values|]
    requires says(v) == Some(x) && NewTo(x, alike, out)
    ensures FirstPlaces(values + [v], says, alike, out + [x], at)
  {
    var all := values + [v];
    forall i | 0 <= i < |all| && says(all[i]).Some? ensures SaidBy(says(all[i]).value, alike, out + [x], at, i) {
      if i < |values| {
        SaidStill(says(values[i]).value, alike, out, places, x, |values|, i);
      } else {
        assert (out + [x])[|out|] == x && at[|out|] == i;
      }
    }
    PlacesGrow(|values|, alike, out, places, x, at);
  }

  lemma PlacesGrow(n: nat, alike: string -> string, out: seq<string>, places: seq<nat>, x: string, at: seq<nat>)
    requires |places| == |out| && at == places + [n] && NewTo(x, alike, out)
    requires forall k :: 0 <= k < |out| ==> places[k] < n
    requires forall k, l :: 0 <= k < l < |out| ==> places[k] < places[l] && alike(out[k]) != alike(out[l])
    ensures var more := out + [x];
            forall k, l :: 0 <= k < l < |more| ==> at[k] < at[l] && alike(more[k]) != alike(more[l])
  {
    forall k | 0 <= k < |out| ensures alike(out[k]) != alike(x) {
      assert out[k] in out;
    }
  }

  lemma SaidStill(x: string, alike: string -> string, out: seq<string>, places: seq<nat>, next: string, place: nat, i: nat)
    requires |places| == |out| && SaidBy(x, alike, out, places, i)
    ensures SaidBy(x, alike, out + [next], places + [place], i)
  {
    var k :| 0 <= k < |out| && places[k] <= i && alike(out[k]) == alike(x);
    assert (out + [next])[k] == out[k] && (places + [place])[k] == places[k];
  }

  /** What comes out is what some value says, and whatever a value says comes out in some
      spelling. */
  lemma FirstsHold<T(!new)>(values: seq<T>, says: T -> Option<string>, alike: string -> string, out: seq<string>)
    requires FirstsOf(values, says, alike, out)
    ensures forall x :: x in out ==> exists i :: 0 <= i < |values| && says(values[i]) == Some(x)
    ensures forall i :: 0 <= i < |values| && says(values[i]).Some? ==> exists y :: y in out && alike(y) == alike(says(values[i]).value)
  {
    var places: seq<nat> :| FirstPlaces(values, says, alike, out, places);
    forall x | x in out ensures exists i :: 0 <= i < |values| && says(values[i]) == Some(x) {
      var k :| 0 <= k < |out| && out[k] == x;
      assert says(values[places[k]]) == Some(x);
    }
    forall i | 0 <= i < |values| && says(values[i]).Some?
      ensures exists y :: y in out && alike(y) == alike(says(values[i]).value)
    {
      assert SaidBy(says(values[i]).value, alike, out, places, i);
      var k :| 0 <= k < |out| && places[k] <= i && alike(out[k]) == alike(says(values[i]).value);
      assert out[k] in out;
    }
  }

  function Same(x: string): string {
    x
  }

  /** A collection is the first appearances of what the values stand for. */
  lemma {:induction false} CollectedFirsts(values: seq<string>, f: string -> Option<string>, says: string -> Option<string>)
    requires forall v :: f(v) == says(v)
    ensures FirstsOf(values, says, Same, Collected(values, f))
  {
    if values == [] {
      assert FirstPlaces(values, says, Same, [], []);
    } else {
      var n := |values| - 1;
      CollectedFirsts(values[..n], f, says);
      FirstsNext(values, says, Same, Collected(values[..n], f), Collected(values, f));
    }
  }

  // -------------------------------------------------------------------------- uniqueStrings

  function NonEmptyTrim(value: string): Option<string> {
    if Trim(value) == "" then None else Some(Trim(value))
  }

  function Unique(values: seq<string>): seq<string> {
    Collected(values, NonEmptyTrim)
  }

  lemma NonEmptyTrimStays()
    ensures forall v, x :: NonEmptyTrim(v) == Some(x) ==> NonEmptyTrim(x) == Some(x)
  {
    forall v, x | NonEmptyTrim(v) == Some(x) ensures NonEmptyTrim(x) == Some(x) {
      TrimIsTrimmed(v);
      TrimmedStays(x);
    }
  }

  /** What comes out of a list is the trimmed values that are not blank, once each, in the
      order in which they first appear. */
  lemma UniqueIsFirsts(values: seq<string>)
    ensures FirstsOf(values, v => if Trim(v) == "" then None else Some(Trim(v)), Same, Unique(values))
  {
    CollectedFirsts(values, NonEmptyTrim, v => if Trim(v) == "" then None else Some(Trim(v)));
  }

  lemma LastOfJoined(a: seq<string>, b: seq<string>)
    requires b != []
    ensures var both := a + b; both[..|both| - 1] == a + b[..|b| - 1] && both[|both| - 1] == b[|b| - 1]
  {}

  lemma CollectedLast(a: seq<string>, b: seq<string>, f: string -> Option<string>)
    requires b != []
    ensures Collected(a + b, f) == Extend(Collected(a + b[..|b| - 1], f), f(b[|b| - 1]))
  {
    LastOfJoined(a, b);
  }

  lemma {:induction false} CollectedResumed(a: seq<string>, b: seq<string>, more: seq<string>, f: string -> Option<string>)
    requires Collected(a, f) == Collected(b, f)
    ensures Collected(a + more, f) == Collected(b + more, f)
  {
    if more == [] {
      assert a + more == a && b + more == b;
    } else {
      CollectedResumed(a, b, more[..|more| - 1], f);
      CollectedLast(a, more, f);
      CollectedLast(b, more, f);
    }
  }

  lemma {:induction false} UniqueRight(a: seq<string>, b: seq<string>)
    ensures Unique(a + Unique(b)) == Unique(a + b)
  {
    if b != [] {
      var k := |b| - 1;
      UniqueRight(a, b[..k]);
      UniqueTwice(b[..k]);
      UniqueAfter(a, Unique(b[..k]), b[k]);
      CollectedLast(a, b, NonEmptyTrim);
    }
  }

  lemma UniqueAfter(a: seq<string>, before: seq<string>, v: string)
    requires Unique(before) == before
    ensures Unique(a + Extend(before, NonEmptyTrim(v))) == Extend(Unique(a + before), NonEmptyTrim(v))
  {
    var x := NonEmptyTrim(v);
    NonEmptyTrimStays();
    if x.Some? && x.value in before {
      CollectedMembers(a + before, NonEmptyTrim);
      CollectedMembers(before, NonEmptyTrim);
      NamesAppend(a, before, NonEmptyTrim, x.value);
    } else if x.Some? {
      CollectedLast(a, before + [x.value], NonEmptyTrim);
    }
  }

  /** Joining two lists that were made unique, and once more, is joining them as given. */
  lemma UniqueJoined(a: seq<string>, b: seq<string>)
    ensures Unique(Unique(a) + Unique(b)) == Unique(a + b)
  {
    UniqueTwice(a);
    CollectedResumed(Unique(a), a, Unique(b), NonEmptyTrim);
    UniqueRight(a, b);
  }

  lemma UniqueTwice(values: seq<string>)
    ensures Unique(Unique(values)) == Unique(values)
  {
    NonEmptyTrimStays();
    CollectedTwice(values, NonEmptyTrim);
  }

  method UniqueStrings(values: seq<string>) returns (out: seq<string>)
    ensures out == Unique(values)
  {
    var seen: set<string> := {};
    out := [];
    var i := 0;
    while i < |values|
      invariant 0 <= i <= |values| && out == Unique(values[..i])
      invariant forall x :: (x in seen) <==> (x in out)
    {
      assert values[..i + 1][..i] == values[..i];
      var value := Trim(values[i]);
      if value != "" && value !in seen {
        seen := seen + {value};
        out := out + [value];
      }
      i := i + 1;
    }
    assert values[..i] == values;
  }

  method ContainsString(values: seq<string>, value: string) returns (r: bool)
    ensures r <==> Trim(value) != "" && Trim(value) in Unique(values)
  {
    var trimmed := Trim(value);
    if trimmed == "" {
      return false;
    }
    var unique := UniqueStrings(values);
    var i := 0;
    while i < |unique|
      invariant 0 <= i <= |unique| && trimmed !in unique[..i]
    {
      if unique[i] == trimmed {
        return true;
      }
      i := i + 1;
    }
    assert unique[..i] == unique;
    return false;
  }
}
