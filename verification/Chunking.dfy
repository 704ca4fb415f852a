/** How text is cut into chunks: at every newline, and else where no further character fits. */
module Chunking {
  import opened Utf8

  function Join(parts: seq<string>): string {
    if parts == [] then "" else parts[0] + Join(parts[1..])
  }

  /** A line with its newline. */
  predicate IsLine(c: string) {
    c != "" && c[|c| - 1] == '\n' && '\n' !in c[..|c| - 1]
  }

  /** A part that no newline ends, before text without newlines: as long as fits, or a single character. */
  predicate IsFull(c: string, next: string, limit: int) {
    && c != "" && '\n' !in c && '\n' !in next
    && (Size(c) <= limit || |c| == 1)
    && (Size(c) >= limit || (next != "" && Size(c) + Width(next[0]) > limit))
  }

  /** A part that is cut off before the text that follows it. */
  predicate Due(c: string, next: string, limit: int) {
    IsLine(c) || IsFull(c, next, limit)
  }

  /** The text is these parts, each of them due, and a rest. */
  predicate CutInto(text: string, limit: int, parts: seq<string>, rest: string) {
    && Join(parts) + rest == text
    && forall k | 0 <= k < |parts| :: Due(parts[k], Join(parts[k + 1..]) + rest, limit)
  }

  /** The rest can wait. */
  predicate Waits(rest: string, limit: int) {
    '\n' !in rest && Size(rest) < limit
  }

  predicate IsChunking(text: string, limit: int, parts: seq<string>, rest: string) {
    CutInto(text, limit, parts, rest) && Waits(rest, limit)
  }

  // ---------------------------------------------------------------- building a chunking

  lemma {:induction false} JoinMore(a: seq<string>, b: seq<string>)
    ensures Join(a + b) == Join(a) + Join(b)
  {
    if a == [] {
      assert a + b == b;
    } else {
      JoinMore(a[1..], b);
      assert (a + b)[1..] == a[1..] + b;
      assert a[0] + (Join(a[1..]) + Join(b)) == a[0] + Join(a[1..]) + Join(b);
    }
  }

  lemma JoinOne(part: string)
    ensures Join([part]) == part
  {
    assert [part][1..] == [] && part + "" == part;
  }

  lemma OnePart(part: string, rest: string, limit: int)
    requires Due(part, rest, limit)
    ensures CutInto(part + rest, limit, [part], rest)
  {
    hide Due;
    JoinOne(part);
    assert [part][1..] == [] && Join([]) + rest == rest;
  }

  /** Cutting the rest further. */
  lemma CutMore(text: string, limit: int, a: seq<string>, middle: string, b: seq<string>, rest: string)
    requires CutInto(text, limit, a, middle) && CutInto(middle, limit, b, rest)
    ensures CutInto(text, limit, a + b, rest)
  {
    hide Due, Join;
    var parts := a + b;
    JoinMore(a, b);
    assert Join(a) + Join(b) + rest == Join(a) + (Join(b) + rest);
    forall k | 0 <= k < |parts| ensures Due(parts[k], Join(parts[k + 1..]) + rest, limit) {
      if k < |a| {
        assert parts[k + 1..] == a[k + 1..] + b;
        JoinMore(a[k + 1..], b);
        assert Join(a[k + 1..]) + Join(b) + rest == Join(a[k + 1..]) + (Join(b) + rest);
      } else {
        assert parts[k + 1..] == b[k - |a| + 1..];
      }
    }
  }

  // ---------------------------------------------------------------- there is only one

  lemma SizeOfPrefix(a: string, b: string)
    requires a <= b
    ensures Size(a) <= Size(b)
    ensures |a| < |b| ==> Size(a) + Width(b[|a|]) <= Size(b)
  {
    assert b == a + b[|a|..];
    SizeJoin(a, b[|a|..]);
    if |a| < |b| { assert b[|a|..][0] == b[|a|]; }
  }

  /** The part that is due at the front of a text is determined. */
  lemma FrontIsUnique(text: string, limit: int, c: string, next: string, d: string, after: string)
    requires c + next == text == d + after && Due(c, next, limit) && Due(d, after, limit)
    ensures c == d && next == after
  {
    hide Size, Width;
    if |c| < |d| { FrontIsNotShorter(limit, c, next, d, after); }
    if |d| < |c| { FrontIsNotShorter(limit, d, after, c, next); }
    assert c == text[..|c|] && next == text[|c|..] && d == text[..|d|] && after == text[|d|..];
  }

  lemma FrontIsNotShorter(limit: int, c: string, next: string, d: string, after: string)
    requires c + next == d + after && Due(c, next, limit) && Due(d, after, limit)
    ensures |c| >= |d|
  {
    hide Size, Width;
    if |c| < |d| {
      assert d[..|c|] == (d + after)[..|c|] == c;
      assert d[|c|] == (d + after)[|c|] == next[0];
      SizeOfPrefix(c, d);
      if IsLine(c) { LineInside(c, d); } else if IsLine(d) { LineAhead(c, next, d, after); }
    }
  }

  /** A line cannot be the beginning of a longer part. */
  lemma LineInside(c: string, d: string)
    requires IsLine(c) && c <= d && |c| < |d|
    ensures '\n' in d && !IsLine(d)
  {
    assert d[|c| - 1] == '\n' && d[..|d| - 1][|c| - 1] == d[|c| - 1];
  }

  lemma LineAhead(c: string, next: string, d: string, after: string)
    requires c + next == d + after && IsLine(d) && |c| < |d|
    ensures '\n' in next
  {
    assert (d + after)[|d| - 1] == '\n' && (c + next)[|d| - 1] == next[|d| - 1 - |c|];
  }

  /** Nothing is due at the front of a text that can wait. */
  lemma NothingDue(text: string, limit: int, c: string, next: string)
    requires Waits(text, limit) && c + next == text
    ensures !Due(c, next, limit)
  {
    hide Size, Width;
    SizeOfPrefix(c, text);
    assert next != "" ==> text[|c|] == next[0];
    if c != "" { assert c[|c| - 1] == text[|c| - 1]; }
  }

  /** Every text has at most one chunking. */
  lemma {:induction false} ChunkingIsUnique(text: string, limit: int, a: seq<string>, s: string, b: seq<string>, t: string)
    requires IsChunking(text, limit, a, s) && IsChunking(text, limit, b, t)
    ensures a == b && s == t
    decreases |a| + |b|
  {
    hide Due, Waits;
    if a != [] && b != [] {
      Front(text, limit, a, s);
      Front(text, limit, b, t);
      FrontIsUnique(text, limit, a[0], Join(a[1..]) + s, b[0], Join(b[1..]) + t);
      ChunkingIsUnique(Join(a[1..]) + s, limit, a[1..], s, b[1..], t);
      assert a == [a[0]] + a[1..] && b == [b[0]] + b[1..];
    } else if a != [] {
      NoParts(text, limit, t);
      Front(text, limit, a, s);
      NothingDue(text, limit, a[0], Join(a[1..]) + s);
    } else if b != [] {
      NoParts(text, limit, s);
      Front(text, limit, b, t);
      NothingDue(text, limit, b[0], Join(b[1..]) + t);
    } else {
      NoParts(text, limit, s);
      NoParts(text, limit, t);
    }
  }

  lemma NoParts(text: string, limit: int, rest: string)
    ensures CutInto(text, limit, [], rest) <==> rest == text
  {
    assert Join([]) + rest == rest;
  }

  lemma Front(text: string, limit: int, parts: seq<string>, rest: string)
    requires parts != [] && CutInto(text, limit, parts, rest)
    ensures Due(parts[0], Join(parts[1..]) + rest, limit)
    ensures parts[0] + (Join(parts[1..]) + rest) == text
    ensures CutInto(Join(parts[1..]) + rest, limit, parts[1..], rest)
  {
    hide Due;
    assert parts[0] + Join(parts[1..]) + rest == parts[0] + (Join(parts[1..]) + rest);
    assert forall k | 0 <= k < |parts| - 1 :: parts[1..][k] == parts[k + 1] && parts[1..][k + 1..] == parts[k + 2..];
  }

  /** Short text without a newline just waits. */
  lemma ShortTextWaits(text: string, limit: int, parts: seq<string>, rest: string)
    requires Waits(text, limit) && IsChunking(text, limit, parts, rest)
    ensures parts == [] && rest == text
  {
    NoParts(text, limit, text);
    ChunkingIsUnique(text, limit, parts, rest, [], text);
  }
}
