/** Ordering of identifiers and the PascalCase rule used for protobuf names. */
module Names {
  import opened Prelude

  /** Code-point order, the order in which Python sorts strings. */
  predicate Before(a: string, b: string) {
    if b == "" then false
    else if a == "" then true
    else a[0] < b[0] || (a[0] == b[0] && Before(a[1..], b[1..]))
  }

  lemma {:induction false} BeforeTotal(a: string, b: string)
    ensures Before(a, b) || a == b || Before(b, a)
    ensures !(Before(a, b) && Before(b, a)) && !(Before(a, b) && a == b)
  {
    if a != "" && b != "" && a[0] == b[0] {
      BeforeTotal(a[1..], b[1..]);
      assert a == [a[0]] + a[1..] && b == [b[0]] + b[1..];
    }
  }

  lemma {:induction false} BeforeTransitive(a: string, b: string, c: string)
    requires Before(a, b) && Before(b, c)
    ensures Before(a, c)
  {
    if a != "" && a[0] == b[0] && b[0] == c[0] {
      BeforeTransitive(a[1..], b[1..], c[1..]);
    }
  }

  predicate IsUpper(c: char) { 'A' <= c <= 'Z' }

  predicate IsLower(c: char) { 'a' <= c <= 'z' }

  predicate IsDigit(c: char) { '0' <= c <= '9' }

  predicate IsAlnum(c: char) { IsUpper(c) || IsLower(c) || IsDigit(c) }

  function ToUpper(c: char): char {
    if IsLower(c) then (c as int - 'a' as int + 'A' as int) as char else c
  }

  const DIGITS := "0123456789"
  const UPPER_CASE := "ABCDEFGHIJKLMNOPQRSTUVWXYZ"
  const LOWER_CASE := "abcdefghijklmnopqrstuvwxyz"

  /** The classes written out. */
  lemma DigitsExactly(c: char)
    ensures IsDigit(c) <==> c in DIGITS
  {
    if IsDigit(c) { assert DIGITS[c as int - '0' as int] == c; }
  }

  lemma UpperAt(i: nat)
    requires i < 26
    ensures UPPER_CASE[i] as int == 'A' as int + i
  {
  }

  lemma LowerAt(i: nat)
    requires i < 26
    ensures LOWER_CASE[i] as int == 'a' as int + i
  {
  }

  lemma UpperExactly(c: char)
    ensures IsUpper(c) <==> c in UPPER_CASE
  {
    forall i: nat | i < 26 ensures UPPER_CASE[i] as int == 'A' as int + i { UpperAt(i); }
    if IsUpper(c) { assert UPPER_CASE[c as int - 'A' as int] == c; }
  }

  lemma LowerExactly(c: char)
    ensures IsLower(c) <==> c in LOWER_CASE
  {
    forall i: nat | i < 26 ensures LOWER_CASE[i] as int == 'a' as int + i { LowerAt(i); }
    if IsLower(c) { assert LOWER_CASE[c as int - 'a' as int] == c; }
  }

  /** A lower-case letter is raised to the upper-case one at its place, and nothing else is. */
  lemma RaisedExactly(c: char)
    ensures IsLower(c) ==> exists i | 0 <= i < 26 :: LOWER_CASE[i] == c && UPPER_CASE[i] == ToUpper(c)
    ensures !IsLower(c) ==> ToUpper(c) == c
  {
    if IsLower(c) {
      var i := c as int - 'a' as int;
      LowerAt(i);
      UpperAt(i);
      assert LOWER_CASE[i] == c && UPPER_CASE[i] == ToUpper(c);
    }
  }

  predicate AlnumOnly(value: string) {
    forall c | c in value :: IsAlnum(c)
  }

  /** The letters and digits of a name, in order and with case ignored. */
  function Folded(value: string): string {
    if value == "" then ""
    else (if IsAlnum(value[0]) then [ToUpper(value[0])] else []) + Folded(value[1..])
  }

  /** Drops every run of separators and raises the letter that follows one. */
  function Camel(value: string, startOfPart: bool): (r: string)
    ensures r != "" && startOfPart ==> IsUpper(r[0]) || IsDigit(r[0])
    ensures AlnumOnly(r) && Folded(r) == Folded(value)
  {
    if value == "" then ""
    else if !IsAlnum(value[0]) then Camel(value[1..], true)
    else [if startOfPart then ToUpper(value[0]) else value[0]] + Camel(value[1..], false)
  }

  /**
   The protobuf name derived from an identifier: its letters and digits, in
   order, behind an N if the first is a digit; None when there are none.
   */
  function Pascal(value: string): (r: Option<string>)
    ensures r.None? <==> Folded(value) == ""
    ensures r.Some? ==> r.value != "" && IsUpper(r.value[0]) && AlnumOnly(r.value)
    ensures r.Some? ==> Folded(r.value) == (if IsDigit(Folded(value)[0]) then "N" else "") + Folded(value)
  {
    var joined := Camel(value, true);
    assert joined != "" ==> Folded(joined)[0] == ToUpper(joined[0]);
    if joined == "" then None
    else if IsDigit(joined[0]) then
      assert ("N" + joined)[1..] == joined;
      Some("N" + joined)
    else Some(joined)
  }

  /** The parts between separators are derived one by one and joined. */
  lemma {:induction false} PartsAreJoined(a: string, separator: char, b: string, startOfPart: bool)
    requires !IsAlnum(separator)
    ensures Camel(a + [separator] + b, startOfPart) == Camel(a, startOfPart) + Camel(b, true)
  {
    var whole := a + [separator] + b;
    if a == "" {
      assert whole[1..] == b;
    } else {
      assert whole[0] == a[0] && whole[1..] == a[1..] + [separator] + b;
      PartsAreJoined(a[1..], separator, b, !IsAlnum(a[0]));
    }
  }

  /** A part keeps its letters and digits; only its first letter is raised. */
  lemma {:induction false} PartIsCapitalised(part: string)
    requires AlnumOnly(part) && part != ""
    ensures Camel(part, true) == [ToUpper(part[0])] + part[1..]
  {
    RestIsKept(part[1..]);
  }

  lemma {:induction false} RestIsKept(rest: string)
    requires AlnumOnly(rest)
    ensures Camel(rest, false) == rest
  {
    if rest != "" { RestIsKept(rest[1..]); }
  }

  // ---------------------------------------------------------------- default JSON names

  /** protoc's default JSON name: underscores go, and a letter that follows one is raised. */
  function JsonName(name: string, raised: bool): string {
    if name == "" then ""
    else if name[0] == '_' then JsonName(name[1..], true)
    else [if raised then ToUpper(name[0]) else name[0]] + JsonName(name[1..], false)
  }

  /** No two of the names share a JSON name, as proto3 demands of the fields of a message. */
  predicate JsonApart(names: set<string>) {
    forall a, b | a in names && b in names && JsonName(a, false) == JsonName(b, false) :: a == b
  }

  /** The identifiers accepted as protobuf field names. */
  predicate IsIdentifier(value: string) {
    && value != ""
    && (IsUpper(value[0]) || IsLower(value[0]) || value[0] == '_')
    && forall i | 1 <= i < |value| :: IsAlnum(value[i]) || value[i] == '_'
  }

  // ---------------------------------------------------------------- sorting a set of names

  predicate IsFirst(k: string, names: set<string>) {
    k in names && forall j | j in names :: j == k || Before(k, j)
  }

  lemma {:induction false} FirstExists(names: set<string>) returns (k: string)
    requires names != {}
    ensures IsFirst(k, names)
  {
    var x :| x in names;
    if names == {x} {
      k := x;
    } else {
      k := FirstExists(names - {x});
      BeforeTotal(x, k);
      forall j | j in names && Before(x, k) ensures j == x || Before(x, j) {
        if j != x {
          assert j in names - {x};
          if j != k { BeforeTransitive(x, k, j); }
        }
      }
      if Before(x, k) { k := x; }
    }
  }

  lemma FirstUnique(a: string, b: string, names: set<string>)
    requires IsFirst(a, names) && IsFirst(b, names)
    ensures a == b
  {
    BeforeTotal(a, b);
  }

  function First(names: set<string>): (k: string)
    requires names != {}
    ensures IsFirst(k, names)
  {
    assert exists k :: IsFirst(k, names) by { var k := FirstExists(names); }
    assert forall a, b | IsFirst(a, names) && IsFirst(b, names) :: a == b by {
      forall a, b | IsFirst(a, names) && IsFirst(b, names) ensures a == b { FirstUnique(a, b, names); }
    }
    var k :| IsFirst(k, names); k
  }

  /** `sorted(names)`. */
  function Sorted(names: set<string>): (r: seq<string>)
    ensures forall k :: k in r <==> k in names
    ensures forall i, j | 0 <= i < j < |r| :: Before(r[i], r[j]) && r[i] != r[j]
  {
    if names == {} then []
    else
      var k := First(names);
      var rest := Sorted(names - {k});
      assert forall i | 0 <= i < |rest| :: rest[i] in names - {k};
      [k] + rest
  }
}
