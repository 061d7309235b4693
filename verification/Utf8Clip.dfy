/** Cutting UTF-8 text on character boundaries (desktop/app.go:3444-3455, 6867-6881),
    against the syntax of section 4 of RFC 3629. */
module Utf8Clip {
  import opened Common

  predicate Within(b: Byte, lo: int, hi: int) {
    lo <= b <= hi
  }

  predicate IsTail(b: Byte) {
    Within(b, 0x80, 0xBF)
  }

  predicate AllTails(s: seq<Byte>) {
    forall i :: 0 <= i < |s| ==> IsTail(s[i])
  }

  // ---------------------------------------------------- the standard: UTF8-char, UTF8-octets

  predicate IsChar(s: seq<Byte>) {
    match |s|
    case 1 => Within(s[0], 0x00, 0x7F)
    case 2 => Within(s[0], 0xC2, 0xDF) && IsTail(s[1])
    case 3 =>
      || (s[0] == 0xE0 && Within(s[1], 0xA0, 0xBF) && IsTail(s[2]))
      || (Within(s[0], 0xE1, 0xEC) && IsTail(s[1]) && IsTail(s[2]))
      || (s[0] == 0xED && Within(s[1], 0x80, 0x9F) && IsTail(s[2]))
      || (Within(s[0], 0xEE, 0xEF) && IsTail(s[1]) && IsTail(s[2]))
    case 4 =>
      || (s[0] == 0xF0 && Within(s[1], 0x90, 0xBF) && IsTail(s[2]) && IsTail(s[3]))
      || (Within(s[0], 0xF1, 0xF3) && IsTail(s[1]) && IsTail(s[2]) && IsTail(s[3]))
      || (s[0] == 0xF4 && Within(s[1], 0x80, 0x8F) && IsTail(s[2]) && IsTail(s[3]))
    case _ => false
  }

  predicate IsCharOf(s: seq<Byte>, n: nat) {
    n <= |s| && IsChar(s[..n])
  }

  /** A sequence of characters. */
  predicate Valid(s: seq<Byte>)
    decreases |s|
  {
    || s == []
    || (IsCharOf(s, 1) && Valid(s[1..]))
    || (IsCharOf(s, 2) && Valid(s[2..]))
    || (IsCharOf(s, 3) && Valid(s[3..]))
    || (IsCharOf(s, 4) && Valid(s[4..]))
  }

  /** A character that lacks its last bytes. */
  ghost predicate IsPartial(s: seq<Byte>) {
    s != [] && exists rest: seq<Byte> :: rest != [] && IsChar(s + rest)
  }

  // ------------------------------------------------------- Go's unicode/utf8, as its tables

  predicate RuneStart(b: Byte) {
    !Within(b, 0x80, 0xBF)
  }

  /** The size a first byte announces; 1 for a byte that starts nothing. */
  function SizeOf(first: Byte): nat {
    if Within(first, 0xC2, 0xDF) then 2
    else if Within(first, 0xE0, 0xEF) then 3
    else if Within(first, 0xF0, 0xF4) then 4
    else 1
  }

  predicate AcceptsSecond(first: Byte, second: Byte) {
    Within(second,
           if first == 0xE0 then 0xA0 else if first == 0xF0 then 0x90 else 0x80,
           if first == 0xED then 0x9F else if first == 0xF4 then 0x8F else 0xBF)
  }

  /** Does `s` begin with a whole character, or with something no more bytes can mend? */
  predicate FullRune(s: seq<Byte>) {
    s != [] &&
    (|s| >= SizeOf(s[0]) || (|s| > 1 && !AcceptsSecond(s[0], s[1])) || (|s| > 2 && !IsTail(s[2])))
  }

  // ------------------------------------------------------------------- texts of a prefix code

  /** A character code in which the first byte decides the size, as it does in UTF-8. */
  datatype Code = Code(isChar: seq<Byte> -> bool, sizeOf: Byte -> nat)

  predicate IsText(code: Code, s: seq<Byte>)
    decreases |s|
  {
    s == [] ||
    (var n := code.sizeOf(s[0]);
     1 <= n <= |s| && code.isChar(s[..n]) && IsText(code, s[n..]))
  }

  /** A text stays one exactly when what follows it is one. */
  lemma {:induction false} TextAppend(code: Code, a: seq<Byte>, b: seq<Byte>)
    requires IsText(code, a)
    ensures IsText(code, a + b) <==> IsText(code, b)
    decreases |a|
  {
    if a == [] {
      assert a + b == b;
    } else {
      var n := code.sizeOf(a[0]);
      TextAppend(code, a[n..], b);
      assert (a + b)[n..] == a[n..] + b && (a + b)[..n] == a[..n];
    }
  }

  /** Where the character that position `n` of a text lies in begins. */
  function CharStart(code: Code, s: seq<Byte>, n: nat): (k: nat)
    requires IsText(code, s) && n <= |s|
    ensures k <= n
    decreases |s|
  {
    if s == [] || n < code.sizeOf(s[0]) then 0
    else code.sizeOf(s[0]) + CharStart(code, s[code.sizeOf(s[0])..], n - code.sizeOf(s[0]))
  }

  /** A whole character begins at `k`. */
  predicate CharAt(code: Code, s: seq<Byte>, k: nat)
    requires k < |s|
  {
    k + code.sizeOf(s[k]) <= |s| && code.isChar(s[k..k + code.sizeOf(s[k])])
  }

  lemma CharAtShift(code: Code, s: seq<Byte>, d: nat, k: nat)
    requires d + k < |s|
    ensures CharAt(code, s, d + k) <==> CharAt(code, s[d..], k)
  {
    var size := code.sizeOf(s[d + k]);
    if d + k + size <= |s| {
      assert s[d..][k..k + size] == s[d + k..d + k + size];
    }
  }

  lemma {:induction false} TextBeforeCut(code: Code, s: seq<Byte>, n: nat)
    requires IsText(code, s) && n <= |s|
    ensures IsText(code, s[..CharStart(code, s, n)])
    decreases |s|
  {
    if s != [] && n >= code.sizeOf(s[0]) {
      var size := code.sizeOf(s[0]);
      var k := CharStart(code, s[size..], n - size);
      TextBeforeCut(code, s[size..], n - size);
      assert s[..size + k][size..] == s[size..][..k] && s[..size + k][..size] == s[..size];
    }
  }

  lemma {:induction false} CharAtCut(code: Code, s: seq<Byte>, n: nat)
    requires IsText(code, s) && n <= |s|
    ensures var k := CharStart(code, s, n);
            k == n == |s| || (k < |s| && CharAt(code, s, k) && n < k + code.sizeOf(s[k]))
    decreases |s|
  {
    if s == [] {
    } else if n < code.sizeOf(s[0]) {
      assert s[0..code.sizeOf(s[0])] == s[..code.sizeOf(s[0])];
    } else {
      var size := code.sizeOf(s[0]);
      var k := CharStart(code, s[size..], n - size);
      CharAtCut(code, s[size..], n - size);
      if k < |s[size..]| {
        CharAtShift(code, s, size, k);
      }
    }
  }

  // ------------------------------------------------------------- UTF-8 as a prefix code

  const UTF8 := Code(IsChar, SizeOf)

  lemma CharShape(s: seq<Byte>)
    requires IsChar(s)
    ensures 1 <= |s| <= 4 && |s| == SizeOf(s[0]) && RuneStart(s[0])
    ensures forall i :: 1 <= i < |s| ==> IsTail(s[i])
    ensures |s| > 1 ==> AcceptsSecond(s[0], s[1])
  {}

  /** The standard's sequences of characters are the texts of the code. */
  lemma {:induction false} ValidIsText(s: seq<Byte>)
    ensures Valid(s) <==> IsText(UTF8, s)
    decreases |s|
  {
    if s != [] {
      forall n | 1 <= n <= 4 && IsCharOf(s, n) ensures n == SizeOf(s[0]) {
        CharShape(s[..n]);
      }
      var n := SizeOf(s[0]);
      if n <= |s| {
        ValidIsText(s[n..]);
      }
    }
  }

  lemma ValidAppend(a: seq<Byte>, b: seq<Byte>)
    requires Valid(a)
    ensures Valid(a + b) <==> Valid(b)
  {
    ValidIsText(a);
    ValidIsText(b);
    ValidIsText(a + b);
    TextAppend(UTF8, a, b);
  }

  lemma ValidNeedsSize(s: seq<Byte>)
    requires Valid(s) && s != []
    ensures |s| >= SizeOf(s[0])
  {
    ValidIsText(s);
  }

  /** Some bytes could complete `s` to a character exactly when Go calls it not full. */
  lemma PartialIsNotFull(s: seq<Byte>)
    requires s != []
    ensures IsPartial(s) <==> !FullRune(s)
  {
    if IsPartial(s) {
      PartialShape(s);
    } else if !FullRune(s) {
      NotFullCompletes(s);
    }
  }

  function SomeSecond(first: Byte): (b: Byte)
    ensures AcceptsSecond(first, b)
  {
    if first == 0xE0 then 0xA0 else if first == 0xF0 then 0x90 else 0x80
  }

  lemma NotFullCompletes(s: seq<Byte>)
    requires s != [] && !FullRune(s)
    ensures IsPartial(s)
  {
    var size := SizeOf(s[0]);
    var second := if |s| > 1 then s[1] else SomeSecond(s[0]);
    var third: Byte := if |s| > 2 then s[2] else 0x80;
    var whole: seq<Byte> := if size == 2 then [s[0], second] else if size == 3 then [s[0], second, third] else [s[0], second, third, 0x80];
    AcceptedIsChar(whole);
    assert whole == s + whole[|s|..];
  }

  lemma AcceptedIsChar(s: seq<Byte>)
    requires 2 <= |s| == SizeOf(s[0]) && AcceptsSecond(s[0], s[1])
    requires forall i :: 2 <= i < |s| ==> IsTail(s[i])
    ensures IsChar(s)
  {}

  lemma PartialShape(s: seq<Byte>)
    requires IsPartial(s)
    ensures 1 <= |s| <= 3 && |s| < SizeOf(s[0]) && RuneStart(s[0])
    ensures forall i :: 1 <= i < |s| ==> IsTail(s[i])
    ensures |s| > 1 ==> AcceptsSecond(s[0], s[1])
  {
    var rest: seq<Byte> :| rest != [] && IsChar(s + rest);
    CharShape(s + rest);
    assert forall i :: 0 <= i < |s| ==> (s + rest)[i] == s[i];
  }

  lemma PartialOfChar(s: seq<Byte>, c: seq<Byte>)
    requires IsChar(c) && s < c && s != []
    ensures IsPartial(s)
  {
    assert c == s + c[|s|..];
  }

  lemma InsideChar(s: seq<Byte>, k: nat, n: nat, size: nat)
    requires k <= n < k + size <= |s| && IsChar(s[k..k + size])
    ensures RuneStart(s[k]) && forall i :: k < i <= n ==> IsTail(s[i])
    ensures k < n ==> IsPartial(s[k..n])
  {
    var c := s[k..k + size];
    CharShape(c);
    assert forall i :: k <= i <= n ==> s[i] == c[i - k];
    if k < n {
      PartialOfChar(s[k..n], c);
    }
  }

  /** Every cut of valid text leaves valid text, and then part of the character it hits. */
  lemma CutOfValid(s: seq<Byte>, n: nat) returns (k: nat)
    requires Valid(s) && n <= |s|
    ensures k <= n && Valid(s[..k]) && (k < |s| ==> RuneStart(s[k]))
    ensures k == n || (n < |s| && IsPartial(s[k..n]) && forall i :: k < i <= n ==> IsTail(s[i]))
  {
    ValidIsText(s);
    k := CharStart(UTF8, s, n);
    TextBeforeCut(UTF8, s, n);
    CharAtCut(UTF8, s, n);
    ValidIsText(s[..k]);
    if k < |s| {
      InsideChar(s, k, n, SizeOf(s[k]));
    }
  }

  /** `r` is the longest valid prefix of `s` of at most `max` bytes. */
  ghost predicate IsLongestValidPrefix(s: seq<Byte>, max: int, r: seq<Byte>) {
    && r <= s && |r| <= max && Valid(r)
    && forall p: seq<Byte> :: p <= s && |p| <= max && Valid(p) ==> |p| <= |r|
  }

  /** A valid prefix followed by nothing or by a partial character is the longest. */
  lemma LongestBeforePartial(s: seq<Byte>, max: nat, k: nat)
    requires k <= max <= |s| && Valid(s[..k]) && (k == max || IsPartial(s[k..max]))
    ensures IsLongestValidPrefix(s, max, s[..k])
  {
    forall p: seq<Byte> | p <= s && |p| <= max && Valid(p) ensures |p| <= k {
      if |p| > k {
        PartialShape(s[k..max]);
        assert p == s[..k] + s[k..|p|];
        ValidAppend(s[..k], s[k..|p|]);
        ValidNeedsSize(s[k..|p|]);
      }
    }
  }

  // ------------------------------------------------------------------------ the functions

  /** Backs up from the limit to the start of the character there. */
  method ClipStringBytes(s: seq<Byte>, max: int) returns (r: seq<Byte>)
    ensures r <= s && |r| <= (if max < 0 then 0 else max)
    ensures max >= |s| ==> r == s
    ensures 0 < max < |s| && |r| > 0 ==> RuneStart(s[|r|])
    ensures 0 < max < |s| ==> forall i :: |r| < i <= max ==> IsTail(s[i])
    ensures Valid(s) ==> IsLongestValidPrefix(s, if max < 0 then 0 else max, r)
  {
    if max <= 0 {
      assert forall p: seq<Byte> :: |p| <= 0 ==> p == [];
      return [];
    }
    if |s| <= max {
      return s;
    }
    var n := max;
    while n > 0 && !RuneStart(s[n])
      invariant 0 <= n <= max
      invariant forall i :: n < i <= max ==> IsTail(s[i])
    {
      n := n - 1;
    }
    if Valid(s) {
      ClipStopsAtChar(s, max, n);
    }
    return s[..n];
  }

  lemma ClipStopsAtChar(s: seq<Byte>, max: nat, n: nat)
    requires Valid(s) && n <= max < |s| && (n == 0 || RuneStart(s[n]))
    requires forall i :: n < i <= max ==> IsTail(s[i])
    ensures IsLongestValidPrefix(s, max, s[..n])
  {
    var k := CutOfValid(s, max);
    assert n == k;
    LongestBeforePartial(s, max, k);
  }

  /** What trimming is for: valid text followed by a partial character loses the partial
      character, and anything else is left alone. */
  ghost predicate TrimsTo(data: seq<Byte>, r: seq<Byte>) {
    if exists k :: 0 <= k < |data| && Valid(data[..k]) && IsPartial(data[k..])
    then r <= data && Valid(r) && IsPartial(data[|r|..])
    else r == data
  }

  method TrimUTF8PartialSuffix(data: seq<Byte>) returns (r: seq<Byte>)
    ensures TrimsTo(data, r)
  {
    if Valid(data) {
      NothingToTrim(data);
      return data;
    }
    var i := |data| - 1;
    while i >= 0 && |data| - i <= 4
      invariant -1 <= i < |data|
      invariant AllTails(data[i + 1..])
    {
      if RuneStart(data[i]) {
        OnlySplit(data, i);
        PartialIsNotFull(data[i..]);
        if !Valid(data[..i]) || FullRune(data[i..]) {
          return data;
        }
        return data[..i];
      }
      assert data[i..] == [data[i]] + data[i + 1..];
      i := i - 1;
    }
    forall k | 0 <= k < |data| ensures !IsPartial(data[k..]) {
      NoSplitBelow(data, i, k);
    }
    return data;
  }

  lemma NothingToTrim(data: seq<Byte>)
    requires Valid(data)
    ensures forall k :: 0 <= k < |data| && Valid(data[..k]) ==> !IsPartial(data[k..])
  {
    forall k | 0 <= k < |data| && Valid(data[..k]) ensures !IsPartial(data[k..]) {
      assert data == data[..k] + data[k..];
      ValidAppend(data[..k], data[k..]);
      ValidNeedsSize(data[k..]);
      if IsPartial(data[k..]) {
        PartialShape(data[k..]);
        assert false;
      }
    }
  }

  /** Only the last start byte can begin a partial character at the end. */
  lemma OnlySplit(data: seq<Byte>, i: nat)
    requires i < |data| && RuneStart(data[i]) && AllTails(data[i + 1..])
    ensures forall k :: 0 <= k < |data| && IsPartial(data[k..]) ==> k == i
  {
    forall k | 0 <= k < |data| && IsPartial(data[k..]) ensures k == i {
      assert k < i ==> data[i] == data[k..][i - k];
      assert i < k ==> data[k] == data[i + 1..][k - i - 1];
      PartialShape(data[k..]);
    }
  }

  lemma NoSplitBelow(data: seq<Byte>, i: int, k: nat)
    requires k < |data| && -1 <= i < |data| && AllTails(data[i + 1..]) && (i < 0 || |data| - i > 4)
    ensures !IsPartial(data[k..])
  {
    assert k > i ==> data[k] == data[i + 1..][k - i - 1];
    if IsPartial(data[k..]) {
      PartialShape(data[k..]);
      assert false;
    }
  }

  /** Valid text cut anywhere trims to its longest valid prefix, losing at most three bytes. */
  lemma TrimMendsAnyCut(s: seq<Byte>, n: nat, r: seq<Byte>)
    requires Valid(s) && n <= |s| && TrimsTo(s[..n], r)
    ensures IsLongestValidPrefix(s[..n], n, r) && n - |r| <= 3
  {
    var k := CutOfValid(s, n);
    var data := s[..n];
    assert data[..k] == s[..k] && data[k..] == s[k..n] && data[..n] == data;
    if k == n {
      NothingToTrim(data);
      LongestBeforePartial(data, n, n);
    } else {
      assert Valid(data[..k]) && IsPartial(data[k..]);
      PartialShape(data[|r|..]);
      assert data[|r|..n] == data[|r|..] && r == data[..|r|];
      LongestBeforePartial(data, n, |r|);
    }
  }
}
