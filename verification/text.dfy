/** The few Python string operations the test harness relies on:
    `str.split(sep)` with an explicit one-character separator, its inverse
    `sep.join(parts)`, indexing the last piece, and `str.encode()` (UTF-8).
 */
module Text {
  import opened Outcomes

  /** `sep.join(parts)`; Python's split never yields an empty list, so
      neither does anything this model joins. */
  function Join(parts: seq<string>, sep: char): string
    requires |parts| >= 1
  {
    if |parts| == 1 then parts[0] else parts[0] + [sep] + Join(parts[1..], sep)
  }

  /** `s.split(sep)`: the maximal separator-free pieces of `s`, in order. */
  function Split(s: string, sep: char): (parts: seq<string>)
    ensures |parts| >= 1
    ensures forall k :: 0 <= k < |parts| ==> sep !in parts[k]
    ensures Join(parts, sep) == s
    decreases |s|
  {
    if |s| == 0 then
      [""]
    else
      var rest := Split(s[1..], sep);
      if s[0] == sep then
        assert ([""] + rest)[1..] == rest;
        [""] + rest
      else
        var parts := [[s[0]] + rest[0]] + rest[1..];
        assert parts[1..] == rest[1..];
        assert s == [s[0]] + s[1..];
        parts
  }

  /** `s.split(sep)[-1]`: the text after the last separator, or all of `s`
      when it has none. The suffix starts at the beginning or right after a
      separator, and holds no separator, so it is the longest such suffix. */
  function LastPiece(s: string, sep: char): (r: string)
    ensures sep !in r
    ensures exists k :: 0 <= k <= |s| && s[k..] == r && (k == 0 || s[k - 1] == sep)
  {
    var parts := Split(s, sep);
    SuffixOfJoin(parts, sep);
    parts[|parts| - 1]
  }

  /** The last piece of a join is a suffix of the joined text. */
  lemma {:induction false} SuffixOfJoin(parts: seq<string>, sep: char)
    requires |parts| >= 1
    ensures exists k :: 0 <= k <= |Join(parts, sep)| && Join(parts, sep)[k..] == parts[|parts| - 1]
                        && (k == 0 || Join(parts, sep)[k - 1] == sep)
    decreases |parts|
  {
    var j := Join(parts, sep);
    if |parts| == 1 {
      assert j[0..] == parts[0];
    } else {
      var tail := Join(parts[1..], sep);
      SuffixOfJoin(parts[1..], sep);
      var k :| 0 <= k <= |tail| && tail[k..] == parts[1..][|parts[1..]| - 1] && (k == 0 || tail[k - 1] == sep);
      var off := |parts[0]| + 1;
      assert j == parts[0] + [sep] + tail;
      assert j[off + k..] == tail[k..];
      assert j[off + k - 1] == if k == 0 then sep else tail[k - 1];
    }
  }

  /** Splitting text whose first `sep` follows a separator-free prefix `x`:
      the prefix opens the first piece, the rest is split as if alone. */
  lemma {:induction false} SplitPrefix(x: string, y: string, sep: char)
    requires sep !in x
    ensures Split(x + y, sep)[0] == x + Split(y, sep)[0]
    ensures Split(x + y, sep)[1..] == Split(y, sep)[1..]
    decreases |x|
  {
    if |x| == 0 {
      assert x + y == y;
    } else {
      assert (x + y)[0] == x[0];
      assert (x + y)[1..] == x[1..] + y;
      SplitPrefix(x[1..], y, sep);
      assert x == [x[0]] + x[1..];
    }
  }

  /** Splitting `x + sep + y` with `x` separator-free yields `x` followed by
      the pieces of `y`. */
  lemma SplitAtFirst(x: string, y: string, sep: char)
    requires sep !in x
    ensures Split(x + [sep] + y, sep) == [x] + Split(y, sep)
  {
    var z := [sep] + y;
    assert x + [sep] + y == x + z;
    assert z[0] == sep && z[1..] == y;
    assert Split(z, sep) == [""] + Split(y, sep);
    SplitPrefix(x, z, sep);
    var parts := Split(x + z, sep);
    assert parts[0] == x;
    assert parts[1..] == Split(y, sep);
    assert parts == [parts[0]] + parts[1..];
  }

  /** Round trip the other way: separator-free pieces are recovered by
      splitting their join. */
  lemma {:induction false} SplitJoin(parts: seq<string>, sep: char)
    requires |parts| >= 1
    requires forall k :: 0 <= k < |parts| ==> sep !in parts[k]
    ensures Split(Join(parts, sep), sep) == parts
    decreases |parts|
  {
    if |parts| == 1 {
      SplitPrefix(parts[0], "", sep);
      assert parts[0] + "" == parts[0];
    } else {
      SplitJoin(parts[1..], sep);
      SplitAtFirst(parts[0], Join(parts[1..], sep), sep);
      assert parts == [parts[0]] + parts[1..];
    }
  }

  /** A split yields more than one piece exactly when the separator occurs. */
  lemma SplitFindsSeparator(s: string, sep: char)
    ensures |Split(s, sep)| > 1 <==> sep in s
  {
    var parts := Split(s, sep);
    if |parts| > 1 {
      assert s == parts[0] + [sep] + Join(parts[1..], sep);
      assert s[|parts[0]|] == sep;
    } else {
      assert s == parts[0];
    }
  }

  /** Joining two lists of pieces puts one separator between their joins. */
  lemma {:induction false} JoinAppend(a: seq<string>, b: seq<string>, sep: char)
    requires |a| >= 1 && |b| >= 1
    ensures Join(a + b, sep) == Join(a, sep) + [sep] + Join(b, sep)
    decreases |a|
  {
    if |a| == 1 {
      assert (a + b)[1..] == b;
    } else {
      JoinAppend(a[1..], b, sep);
      assert (a + b)[1..] == a[1..] + b;
    }
  }

  /** Splitting at any occurrence of the separator: the pieces of the text
      before it followed by the pieces of the text after it. */
  lemma SplitAround(x: string, y: string, sep: char)
    ensures Split(x + [sep] + y, sep) == Split(x, sep) + Split(y, sep)
  {
    var px, py := Split(x, sep), Split(y, sep);
    JoinAppend(px, py, sep);
    assert forall k :: 0 <= k < |px + py| ==> sep !in (px + py)[k] by {
      forall k | 0 <= k < |px + py| ensures sep !in (px + py)[k] {
        if k < |px| { assert (px + py)[k] == px[k]; } else { assert (px + py)[k] == py[k - |px|]; }
      }
    }
    SplitJoin(px + py, sep);
  }

  /** The last piece of text ending in a separator-free `y` after a
      separator is `y`. */
  lemma LastPieceAfter(x: string, y: string, sep: char)
    requires sep !in y
    ensures LastPiece(x + [sep] + y, sep) == y
  {
    SplitAround(x, y, sep);
    SplitJoin([y], sep);
  }

  /** `s.split(sep)[0]` is the text up to the first separator: what follows
      it in `s` is empty or starts with the separator. */
  lemma FirstPiecePrefix(s: string, sep: char) returns (rest: string)
    ensures s == Split(s, sep)[0] + rest
    ensures rest == "" || rest[0] == sep
  {
    var parts := Split(s, sep);
    if |parts| == 1 {
      rest := "";
    } else {
      rest := [sep] + Join(parts[1..], sep);
    }
  }

  /** `s.split(sep)[1]` sits right after the first separator and runs up to
      the end or the next separator. */
  lemma SecondPiecePrefix(s: string, sep: char) returns (rest: string)
    requires |Split(s, sep)| >= 2
    ensures s == Split(s, sep)[0] + [sep] + (Split(s, sep)[1] + rest)
    ensures rest == "" || rest[0] == sep
  {
    var parts := Split(s, sep);
    var tail := Join(parts[1..], sep);
    SplitJoin(parts[1..], sep);
    rest := FirstPiecePrefix(tail, sep);
  }

  /** Conversely, a separator-free `x` followed by nothing or by a separator
      is the first piece. */
  lemma FirstPieceOf(x: string, rest: string, sep: char)
    requires sep !in x
    requires rest == "" || rest[0] == sep
    ensures Split(x + rest, sep)[0] == x
  {
    SplitPrefix(x, rest, sep);
    assert Split(rest, sep)[0] == "";
    assert x + "" == x;
  }

  /** The first piece of text that does not open with the separator opens
      with the text's first character. */
  lemma FirstPieceStart(s: string, sep: char)
    requires |s| > 0 && s[0] != sep
    ensures |Split(s, sep)[0]| > 0 && Split(s, sep)[0][0] == s[0]
  {
  }

  /** Text without the separator is its own last piece. */
  lemma LastPieceWhole(s: string, sep: char)
    requires sep !in s
    ensures LastPiece(s, sep) == s
  {
    var k :| 0 <= k <= |s| && s[k..] == LastPiece(s, sep) && (k == 0 || s[k - 1] == sep);
    assert k == 0;
  }

  /** An octet of a Python `bytes` value. */
  newtype byte = b: int | 0 <= b < 0x100

  /** The number of bytes UTF-8 spends on a scalar value (table 3-6 of the
      Unicode standard): one below U+0080, two below U+0800, three below
      U+10000, four above. */
  function Utf8Length(c: char): nat
  {
    if c as int < 0x80 then 1 else if c as int < 0x800 then 2 else if c as int < 0x1_0000 then 3 else 4
  }

  /** The sequence length a UTF-8 lead byte announces; 0 for a byte that
      cannot start a sequence. */
  function LeadLength(b: byte): nat
  {
    if b < 0x80 then 1 else if b < 0xC0 then 0 else if b < 0xE0 then 2 else if b < 0xF0 then 3 else if b < 0xF8 then 4 else 0
  }

  predicate IsContinuationByte(b: byte)
  {
    0x80 <= b < 0xC0
  }

  /** The scalar value carried by a lead byte and its continuation bytes:
      the lead's payload bits followed by six bits per continuation byte. */
  function DecodeChar(r: seq<byte>): int
    requires 1 <= |r| <= 4
  {
    if |r| == 1 then r[0] as int
    else if |r| == 2 then Append6(r[0] as int - 0xC0, r[1])
    else if |r| == 3 then Append6(Append6(r[0] as int - 0xE0, r[1]), r[2])
    else Append6(Append6(Append6(r[0] as int - 0xF0, r[1]), r[2]), r[3])
  }

  /** The bits read so far followed by a continuation byte's six bits. */
  function Append6(bits: int, b: byte): int
  {
    bits * 0x40 + (b as int - 0x80)
  }

  /** The UTF-8 encoding of one Unicode scalar value: as many bytes as the
      table says, a lead byte announcing that length, continuation bytes
      after it, and the scalar value recovered by decoding. */
  function EncodeChar(c: char): (r: seq<byte>)
    ensures |r| == Utf8Length(c)
    ensures LeadLength(r[0]) == |r|
    ensures forall i :: 1 <= i < |r| ==> IsContinuationByte(r[i])
    ensures DecodeChar(r) == c as int
  {
    var cp := c as int;
    if cp < 0x80 then
      [cp as byte]
    else if cp < 0x800 then
      SixBitGroups(cp);
      [(0xC0 + cp / 0x40) as byte, Continuation(cp)]
    else if cp < 0x1_0000 then
      SixBitGroups(cp);
      [(0xE0 + cp / 0x1000) as byte, Continuation(cp / 0x40), Continuation(cp)]
    else
      SixBitGroups(cp);
      [(0xF0 + cp / 0x4_0000) as byte, Continuation(cp / 0x1000), Continuation(cp / 0x40), Continuation(cp)]
  }

  /** A UTF-8 continuation byte carrying the low six bits of `bits`. */
  function Continuation(bits: int): (b: byte)
    ensures IsContinuationByte(b) && b as int - 0x80 == bits % 0x40
  {
    (0x80 + bits % 0x40) as byte
  }

  /** A code point read as groups of six bits. */
  lemma SixBitGroups(cp: int)
    requires 0 <= cp
    ensures cp == (cp / 0x40) * 0x40 + cp % 0x40
    ensures cp / 0x40 == (cp / 0x1000) * 0x40 + (cp / 0x40) % 0x40
    ensures cp / 0x1000 == (cp / 0x4_0000) * 0x40 + (cp / 0x1000) % 0x40
    ensures cp / 0x1000 == (cp / 0x40) / 0x40 && cp / 0x4_0000 == (cp / 0x1000) / 0x40
  {
  }

  predicate IsAscii(s: string)
  {
    forall i :: 0 <= i < |s| ==> s[i] as int < 0x80
  }

  /** The number of bytes UTF-8 spends on the whole text. */
  function Utf8Size(s: string): nat
  {
    if |s| == 0 then 0 else Utf8Length(s[0]) + Utf8Size(s[1..])
  }

  /** `s.encode()`: Python's default codec is UTF-8. */
  function Encode(s: string): (r: seq<byte>)
    ensures |r| == Utf8Size(s) >= |s|
    ensures IsAscii(s) ==> |r| == |s| && forall i :: 0 <= i < |s| ==> r[i] as int == s[i] as int
    ensures !IsAscii(s) ==> |r| > |s|
  {
    if |s| == 0 then [] else EncodeChar(s[0]) + Encode(s[1..])
  }

  function CodePoints(s: string): (cps: seq<int>)
    ensures |cps| == |s|
  {
    if |s| == 0 then [] else [s[0] as int] + CodePoints(s[1..])
  }

  /** A reference UTF-8 decoder: each lead byte announces its sequence
      length and is followed by that many continuation bytes. It accepts
      overlong forms and encoded surrogates, which the encoder never
      produces; it is here as the inverse that pins the encoding down. */
  function Decode(bytes: seq<byte>): Option<seq<int>>
    decreases |bytes|
  {
    if |bytes| == 0 then
      Some([])
    else
      var n := LeadLength(bytes[0]);
      if n == 0 || n > |bytes| || exists i :: 1 <= i < n && !IsContinuationByte(bytes[i]) then
        None
      else
        match Decode(bytes[n..])
        case None => None
        case Some(rest) => Some([DecodeChar(bytes[..n])] + rest)
  }

  /** Decoding an encoding gives back the text's scalar values. */
  lemma {:induction false} DecodeEncode(s: string)
    ensures Decode(Encode(s)) == Some(CodePoints(s))
    decreases |s|
  {
    if |s| > 0 {
      var head, tail := EncodeChar(s[0]), Encode(s[1..]);
      var bytes := head + tail;
      assert bytes[0] == head[0];
      assert bytes[..|head|] == head;
      assert bytes[|head|..] == tail;
      assert forall i :: 1 <= i < |head| ==> bytes[i] == head[i];
      DecodeEncode(s[1..]);
    }
  }
}
