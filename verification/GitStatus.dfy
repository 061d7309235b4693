/** Parsing the NUL-separated output of git status (desktop/workspace_changes.go:180-198),
    against printing it. */
module GitStatus {
  import opened Common

  type Bytes = seq<Byte>

  const NUL: Byte := 0
  const SPACE: Byte := 32
  const LETTER_C: Byte := 67
  const LETTER_R: Byte := 82

  datatype Entry = Entry(path: Bytes, status: Bytes, oldPath: Bytes)

  function Split(raw: Bytes): (parts: seq<Bytes>)
    ensures parts != []
  {
    if raw == [] then [[]]
    else if raw[0] == NUL then [[]] + Split(raw[1..])
    else
      var rest := Split(raw[1..]);
      [[raw[0]] + rest[0]] + rest[1..]
  }

  predicate IsSpace(b: Byte) {
    9 <= b <= 13 || b == SPACE
  }

  /** White space trimmed off a two-byte status; the two bytes may also be the encoding of
      one of the wider spaces. */
  function TrimStatus(s: Bytes): Bytes
    requires |s| == 2
  {
    if s == [0xC2, 0x85] || s == [0xC2, 0xA0] then []
    else if IsSpace(s[0]) then (if IsSpace(s[1]) then [] else s[1..])
    else if IsSpace(s[1]) then s[..1]
    else s
  }

  /** Renames and copies carry a second path. */
  predicate HasOldPath(status: Bytes) {
    LETTER_R in status || LETTER_C in status
  }

  /** Letter by letter: a status keeps its letters in their order and loses its blanks, and
      carries a second path if and only if one of its letters is R or C. */
  lemma StatusLetters(x: Byte, y: Byte)
    requires x < 128 && y < 128
    ensures TrimStatus([x, y]) == (if x == 32 || 9 <= x <= 13 then [] else [x]) + (if y == 32 || 9 <= y <= 13 then [] else [y])
    ensures HasOldPath([x, y]) <==> x as char in ['R', 'C'] || y as char in ['R', 'C']
  {
    assert [x, y][0] == x && [x, y][1] == y && [x, y][..1] == [x] && [x, y][1..] == [y];
    assert 'R' as int == 82 && 'C' as int == 67;
  }

  function Parse(parts: seq<Bytes>): seq<Entry>
    decreases |parts|
  {
    if parts == [] then []
    else if |parts[0]| < 4 then Parse(parts[1..])
    else
      var status, path := parts[0][..2], parts[0][3..];
      if HasOldPath(status) && |parts| > 1 then [Entry(path, TrimStatus(status), parts[1])] + Parse(parts[2..])
      else [Entry(path, TrimStatus(status), [])] + Parse(parts[1..])
  }

  method ParseGitStatusPorcelainZ(raw: Bytes) returns (out: seq<Entry>)
    ensures out == Parse(Split(raw))
  {
    var parts := Split(raw);
    out := [];
    var i := 0;
    while i < |parts|
      invariant 0 <= i <= |parts|
      invariant out + Parse(parts[i..]) == Parse(parts)
    {
      var part := parts[i];
      ghost var before, from := out, i;
      if |part| >= 4 {
        var status, path := part[..2], part[3..];
        var entry := Entry(path, TrimStatus(status), []);
        if HasOldPath(status) && i + 1 < |parts| {
          i := i + 1;
          entry := entry.(oldPath := parts[i]);
        }
        out := out + [entry];
        assert parts[from..][1..] == parts[from + 1..];
        assert i > from ==> parts[from..][2..] == parts[from + 2..];
        assert Parse(parts[from..]) == [entry] + Parse(parts[i + 1..]);
        assert before + ([entry] + Parse(parts[i + 1..])) == (before + [entry]) + Parse(parts[i + 1..]);
      } else {
        assert parts[from..][1..] == parts[from + 1..];
      }
      i := i + 1;
    }
    assert parts[i..] == [] && out + [] == out;
  }

  // --------------------------------------------------------------------- the printed form

  datatype Record = Record(status: Bytes, path: Bytes, oldPath: Option<Bytes>)

  predicate WellFormed(r: Record) {
    && |r.status| == 2 && NUL !in r.status
    && r.path != [] && NUL !in r.path
    && (r.oldPath.Some? <==> HasOldPath(r.status))
    && (r.oldPath.Some? ==> NUL !in r.oldPath.value)
  }

  function Print(r: Record): Bytes {
    r.status + [SPACE] + r.path + [NUL] + (match r.oldPath case Some(old_) => old_ + [NUL] case None => [])
  }

  function PrintAll(rs: seq<Record>): Bytes {
    if rs == [] then [] else Print(rs[0]) + PrintAll(rs[1..])
  }

  function EntryOf(r: Record): Entry
    requires WellFormed(r)
  {
    Entry(r.path, TrimStatus(r.status), if r.oldPath.Some? then r.oldPath.value else [])
  }

  lemma {:induction false} SplitField(x: Bytes, rest: Bytes)
    requires NUL !in x
    ensures Split(x + [NUL] + rest) == [x] + Split(rest)
  {
    var raw := x + [NUL] + rest;
    if x == [] {
      assert raw[1..] == rest;
    } else {
      SplitField(x[1..], rest);
      assert raw[1..] == x[1..] + [NUL] + rest;
      assert [x[0]] + x[1..] == x;
    }
  }

  /** The fields of a printed record. */
  function Fields(r: Record): seq<Bytes> {
    [r.status + [SPACE] + r.path] + if r.oldPath.Some? then [r.oldPath.value] else []
  }

  lemma SplitPrinted(r: Record, rest: Bytes)
    requires WellFormed(r)
    ensures Split(Print(r) + rest) == Fields(r) + Split(rest)
  {
    var line := r.status + [SPACE] + r.path;
    match r.oldPath {
      case None =>
        assert Print(r) + rest == line + [NUL] + rest;
        SplitField(line, rest);
      case Some(path) =>
        assert Print(r) + rest == line + [NUL] + (path + [NUL] + rest);
        SplitField(line, path + [NUL] + rest);
        SplitField(path, rest);
        assert [line] + ([path] + Split(rest)) == Fields(r) + Split(rest);
    }
  }

  lemma ParseFields(r: Record, rest: seq<Bytes>)
    requires WellFormed(r) && rest != []
    ensures Parse(Fields(r) + rest) == [EntryOf(r)] + Parse(rest)
  {
    var line, parts := r.status + [SPACE] + r.path, Fields(r) + rest;
    assert line[..2] == r.status && line[3..] == r.path && parts[0] == line;
    if r.oldPath.Some? {
      assert parts[2..] == rest;
    } else {
      assert parts[1..] == rest;
    }
  }

  function Entries(rs: seq<Record>): seq<Entry>
    requires forall i :: 0 <= i < |rs| ==> WellFormed(rs[i])
  {
    if rs == [] then [] else [EntryOf(rs[0])] + Entries(rs[1..])
  }

  /** Parsing what was printed gives the records back, with their statuses trimmed. */
  lemma {:induction false} ParseInvertsPrint(rs: seq<Record>)
    requires forall i :: 0 <= i < |rs| ==> WellFormed(rs[i])
    ensures Parse(Split(PrintAll(rs))) == Entries(rs)
  {
    if rs == [] {
      assert Split([])[1..] == [];
    } else {
      var rest := PrintAll(rs[1..]);
      ParseInvertsPrint(rs[1..]);
      SplitPrinted(rs[0], rest);
      ParseFields(rs[0], Split(rest));
    }
  }
}
