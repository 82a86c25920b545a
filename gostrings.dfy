/**
 * The parts of Go's `strings` and `strconv` packages that the two request
 * handlers rely on, restricted to ASCII: white space, case folding and title
 * casing are those of the ASCII range only.
 */
module GoStrings {
  import opened Wrappers

  // ---------------------------------------------------------------------------
  // White space and strings.TrimSpace
  // ---------------------------------------------------------------------------

  /** The ASCII white space characters of Go's unicode.IsSpace. */
  predicate IsSpace(c: char) {
    c == ' ' || c == '\t' || c == '\n' || c == '\r' || c == '\U{0B}' || c == '\U{0C}'
  }

  predicate AllSpace(s: string) {
    forall i :: 0 <= i < |s| ==> IsSpace(s[i])
  }

  /** A string with no white space at either end. */
  predicate Trimmed(s: string) {
    s == [] || (!IsSpace(s[0]) && !IsSpace(s[|s| - 1]))
  }

  /** `r` sits at offset `i` of `s`, with only white space around it. */
  predicate TrimAt(s: string, r: string, i: int) {
    0 <= i <= |s| - |r| && AllSpace(s[..i]) && s[i..i + |r|] == r && AllSpace(s[i + |r|..])
  }

  /** Length of the longest all-space prefix. */
  function LeadingSpace(s: string): (n: nat)
    ensures n <= |s|
    ensures AllSpace(s[..n])
    ensures n < |s| ==> !IsSpace(s[n])
  {
    if s != [] && IsSpace(s[0]) then
      var k := LeadingSpace(s[1..]);
      assert s[..k + 1] == [s[0]] + s[1..][..k];
      k + 1
    else
      0
  }

  /** Length of the longest all-space suffix. */
  function TrailingSpace(s: string): (n: nat)
    ensures n <= |s|
    ensures forall j :: |s| - n <= j < |s| ==> IsSpace(s[j])
    ensures n < |s| ==> !IsSpace(s[|s| - 1 - n])
  {
    if s != [] && IsSpace(s[|s| - 1]) then
      TrailingSpace(s[..|s| - 1]) + 1
    else
      0
  }

  /** strings.TrimSpace: the string without its surrounding white space. */
  function TrimSpace(s: string): (r: string)
    ensures Trimmed(r)
    ensures TrimAt(s, r, LeadingSpace(s))
    ensures r == [] <==> AllSpace(s)
  {
    var i := LeadingSpace(s);
    if i == |s| then
      assert s[..i] == s;
      []
    else
      var t := TrailingSpace(s);
      assert AllSpace(s[|s| - t..]);
      s[i..|s| - t]
  }

  lemma {:induction false} LeadingSpaceIs(s: string, i: nat)
    requires i <= |s| && AllSpace(s[..i])
    requires i < |s| ==> !IsSpace(s[i])
    ensures LeadingSpace(s) == i
  {
    if i > 0 {
      assert IsSpace(s[..i][0]);
      assert s[1..][..i - 1] == s[..i][1..];
      LeadingSpaceIs(s[1..], i - 1);
    }
  }

  lemma {:induction false} TrailingSpaceIs(s: string, n: nat)
    requires n <= |s| && AllSpace(s[|s| - n..])
    requires n < |s| ==> !IsSpace(s[|s| - 1 - n])
    ensures TrailingSpace(s) == n
  {
    if n > 0 {
      var p := s[..|s| - 1];
      assert IsSpace(s[|s| - n..][n - 1]);
      assert p[|p| - (n - 1)..] == s[|s| - n..][..n - 1];
      TrailingSpaceIs(p, n - 1);
    }
  }

  /** TrimSpace is determined by its contract: a trimmed middle with white space around it. */
  lemma TrimSpaceUnique(s: string, m: string, i: int)
    requires Trimmed(m) && TrimAt(s, m, i)
    ensures TrimSpace(s) == m
  {
    if m == [] {
      assert s == s[..i] + s[i..];
      assert AllSpace(s);
    } else {
      assert s[i] == m[0];
      LeadingSpaceIs(s, i);
      var n := |s| - i - |m|;
      assert s[|s| - 1 - n] == m[|m| - 1];
      TrailingSpaceIs(s, n);
    }
  }

  lemma TrimSpaceIdempotent(s: string)
    ensures TrimSpace(TrimSpace(s)) == TrimSpace(s)
  {
    var r := TrimSpace(s);
    assert TrimAt(r, r, 0);
    TrimSpaceUnique(r, r, 0);
  }

  /** Trimming a string that is already trimmed changes nothing. */
  lemma TrimSpaceOfTrimmed(s: string)
    requires Trimmed(s)
    ensures TrimSpace(s) == s
  {
    assert TrimAt(s, s, 0);
    TrimSpaceUnique(s, s, 0);
  }

  // ---------------------------------------------------------------------------
  // Prefixes: strings.HasPrefix and strings.TrimPrefix
  // ---------------------------------------------------------------------------

  predicate HasPrefix(s: string, p: string) {
    |p| <= |s| && s[..|p|] == p
  }

  function TrimPrefix(s: string, p: string): (r: string)
    ensures HasPrefix(s, p) ==> p + r == s
    ensures !HasPrefix(s, p) ==> r == s
  {
    if HasPrefix(s, p) then
      assert s == s[..|p|] + s[|p|..];
      s[|p|..]
    else
      s
  }

  // ---------------------------------------------------------------------------
  // ASCII case: strings.EqualFold and unicode.ToUpper
  // ---------------------------------------------------------------------------

  predicate IsUpper(c: char) { 'A' <= c <= 'Z' }

  predicate IsLower(c: char) { 'a' <= c <= 'z' }

  function ToLower(c: char): (r: char)
    ensures !IsUpper(r)
    ensures IsUpper(c) ==> r as int == c as int + 32
    ensures !IsUpper(c) ==> r == c
  {
    if IsUpper(c) then (c as int + 32) as char else c
  }

  function ToUpper(c: char): (r: char)
    ensures !IsLower(r)
    ensures IsLower(c) ==> r as int == c as int - 32
    ensures !IsLower(c) ==> r == c
  {
    if IsLower(c) then (c as int - 32) as char else c
  }

  /** strings.EqualFold restricted to ASCII case folding. */
  predicate EqualFold(a: string, b: string) {
    |a| == |b| && forall i :: 0 <= i < |a| ==> ToLower(a[i]) == ToLower(b[i])
  }

  // ---------------------------------------------------------------------------
  // strings.Split on a one-character separator, and its inverse strings.Join
  // ---------------------------------------------------------------------------

  /** strings.Split(s, [sep]): the pieces between separators; "" gives [""]. */
  function Split(s: string, sep: char): (r: seq<string>)
    ensures |r| >= 1
    ensures forall k :: 0 <= k < |r| ==> sep !in r[k]
  {
    if s == [] then
      [""]
    else
      var rest := Split(s[1..], sep);
      assert s == [s[0]] + s[1..];
      if s[0] == sep then [""] + rest else [[s[0]] + rest[0]] + rest[1..]
  }

  /** strings.Join(parts, [sep]). */
  function Join(parts: seq<string>, sep: char): string
    requires |parts| >= 1
  {
    if |parts| == 1 then parts[0] else parts[0] + [sep] + Join(parts[1..], sep)
  }

  lemma {:induction false} JoinSplit(s: string, sep: char)
    ensures Join(Split(s, sep), sep) == s
  {
    if s != [] {
      var rest := Split(s[1..], sep);
      JoinSplit(s[1..], sep);
      if s[0] == sep {
        assert Split(s, sep)[1..] == rest;
      } else {
        var parts := Split(s, sep);
        if |rest| == 1 {
          assert parts == [[s[0]] + rest[0]];
        } else {
          assert parts[1..] == rest[1..];
          assert Join(rest, sep) == rest[0] + [sep] + Join(rest[1..], sep);
        }
      }
    }
  }

  lemma {:induction false} SplitJoin(parts: seq<string>, sep: char)
    requires |parts| >= 1
    requires forall k :: 0 <= k < |parts| ==> sep !in parts[k]
    ensures Split(Join(parts, sep), sep) == parts
    decreases |parts|, |parts[0]|
  {
    var head := parts[0];
    if head == [] {
      if |parts| > 1 {
        SplitJoin(parts[1..], sep);
        assert Join(parts, sep) == [sep] + Join(parts[1..], sep);
        assert ([sep] + Join(parts[1..], sep))[1..] == Join(parts[1..], sep);
        assert parts == [""] + parts[1..];
      }
    } else {
      var shorter := [head[1..]] + parts[1..];
      assert shorter[1..] == parts[1..];
      assert sep !in head[1..] by {
        assert forall c :: c in head[1..] ==> c in head;
      }
      SplitJoin(shorter, sep);
      var j := Join(parts, sep);
      assert j == [head[0]] + Join(shorter, sep);
      assert j[1..] == Join(shorter, sep);
      assert [head[0]] + head[1..] == head;
      assert parts == [[head[0]] + shorter[0]] + shorter[1..];
    }
  }

  /** A piece free of the separator, then the separator: that piece is split off first. */
  lemma {:induction false} SplitAt(a: string, b: string, sep: char)
    requires sep !in a
    ensures Split(a + [sep] + b, sep) == [a] + Split(b, sep)
  {
    var s := a + [sep] + b;
    if a == [] {
      assert s[1..] == b;
    } else {
      assert s[1..] == a[1..] + [sep] + b;
      assert sep !in a[1..] by {
        assert forall c :: c in a[1..] ==> c in a;
      }
      SplitAt(a[1..], b, sep);
      assert [a[0]] + a[1..] == a;
    }
  }

  /** Without a separator there is one piece. */
  lemma {:induction false} SplitWhole(s: string, sep: char)
    requires sep !in s
    ensures Split(s, sep) == [s]
  {
    if s != [] {
      assert sep !in s[1..] by {
        assert forall c :: c in s[1..] ==> c in s;
      }
      SplitWhole(s[1..], sep);
      assert [s[0]] + s[1..] == s;
    }
  }

  /** strings.SplitN(s, [sep], 2): cut at the first separator, or the whole string when there is none. */
  function SplitOnce(s: string, sep: char): (r: seq<string>)
    ensures 1 <= |r| <= 2
    ensures |r| == 1 <==> sep !in s
    ensures |r| == 1 ==> r[0] == s
    ensures |r| == 2 ==> r[0] + [sep] + r[1] == s && sep !in r[0]
  {
    if s == [] then
      [s]
    else if s[0] == sep then
      assert s == [] + [sep] + s[1..];
      ["", s[1..]]
    else
      var rest := SplitOnce(s[1..], sep);
      assert s == [s[0]] + s[1..];
      if |rest| == 1 then [s] else [[s[0]] + rest[0], rest[1]]
  }

  /** The cut is at the first separator: a prefix free of `sep` is the first part. */
  lemma {:induction false} SplitOnceAt(a: string, b: string, sep: char)
    requires sep !in a
    ensures SplitOnce(a + [sep] + b, sep) == [a, b]
  {
    var s := a + [sep] + b;
    if a != [] {
      assert s[1..] == a[1..] + [sep] + b;
      assert sep !in a[1..] by {
        assert forall c :: c in a[1..] ==> c in a;
      }
      SplitOnceAt(a[1..], b, sep);
      assert [a[0]] + a[1..] == a;
    } else {
      assert s[1..] == b;
    }
  }

  // ---------------------------------------------------------------------------
  // strings.Title on ASCII
  // ---------------------------------------------------------------------------

  /** Between words: ASCII other than letters, digits and underscore. */
  predicate IsSeparator(c: char) {
    c < '\U{80}' && !(IsUpper(c) || IsLower(c) || ('0' <= c <= '9') || c == '_')
  }

  /** Title-casing of `s` when the character before it is `prev`. */
  function TitleFrom(prev: char, s: string): (r: string)
    ensures |r| == |s|
    ensures |s| > 0 ==> r[0] == if IsSeparator(prev) then ToUpper(s[0]) else s[0]
    ensures forall i :: 0 < i < |s| ==> r[i] == if IsSeparator(s[i - 1]) then ToUpper(s[i]) else s[i]
    decreases s
  {
    if s == [] then
      []
    else
      [if IsSeparator(prev) then ToUpper(s[0]) else s[0]] + TitleFrom(s[0], s[1..])
  }

  /** strings.Title: every letter that begins a word is upper-cased, nothing else changes. */
  function Title(s: string): (r: string)
    ensures |r| == |s|
    ensures forall i :: 0 <= i < |s| ==>
      r[i] == if i == 0 || IsSeparator(s[i - 1]) then ToUpper(s[i]) else s[i]
  {
    TitleFrom(' ', s)
  }

  // ---------------------------------------------------------------------------
  // Go's 64-bit int: strconv.Atoi and wrap-around
  // ---------------------------------------------------------------------------

  const MinInt64: int := -0x8000_0000_0000_0000
  const MaxInt64: int := 0x7FFF_FFFF_FFFF_FFFF

  predicate InInt64(x: int) { MinInt64 <= x <= MaxInt64 }

  /** Two's-complement wrap-around of a mathematical integer into int64. */
  function WrapInt64(x: int): (r: int)
    ensures InInt64(r)
    ensures (x - r) % 0x1_0000_0000_0000_0000 == 0
    ensures InInt64(x) ==> r == x
  {
    (x - MinInt64) % 0x1_0000_0000_0000_0000 + MinInt64
  }

  predicate IsDigit(c: char) { '0' <= c <= '9' }

  predicate AllDigits(s: string) {
    forall i :: 0 <= i < |s| ==> IsDigit(s[i])
  }

  /** The value of a string of decimal digits, most significant first. */
  function DigitsValue(s: string): nat
    requires AllDigits(s)
  {
    if s == [] then 0 else 10 * DigitsValue(s[..|s| - 1]) + (s[|s| - 1] as int - '0' as int)
  }

  /** One more digit on the right: ten times the value, plus that digit. */
  lemma DigitsValueAppend(s: string, c: char)
    requires AllDigits(s) && IsDigit(c)
    ensures AllDigits(s + [c])
    ensures DigitsValue(s + [c]) == 10 * DigitsValue(s) + (c as int - '0' as int)
  {
    assert (s + [c])[..|s|] == s;
  }

  /** Syntax accepted by strconv.Atoi in base 10: an optional sign and at least one digit. */
  predicate IsDecimal(s: string) {
    var body := if s != [] && (s[0] == '+' || s[0] == '-') then s[1..] else s;
    body != [] && AllDigits(body)
  }

  /** strconv.Atoi on a 64-bit platform: None for bad syntax and for values out of range. */
  function Atoi(s: string): (r: Option<int>)
    ensures r.Some? ==> IsDecimal(s) && InInt64(r.value)
    ensures IsDecimal(s) && s[0] != '-' && s[0] != '+' && InInt64(DigitsValue(s)) ==> r == Some(DigitsValue(s))
    ensures IsDecimal(s) && s[0] != '-' && s[0] != '+' && !InInt64(DigitsValue(s)) ==> r.None?
    ensures IsDecimal(s) && s[0] == '+' ==>
      r == if InInt64(DigitsValue(s[1..])) then Some(DigitsValue(s[1..])) else None
    ensures IsDecimal(s) && s[0] == '-' ==> r.Some? == InInt64(-(DigitsValue(s[1..]) as int))
    ensures IsDecimal(s) && s[0] == '-' && r.Some? ==> r.value == -(DigitsValue(s[1..]) as int)
  {
    if s == [] then
      None
    else
      var negative := s[0] == '-';
      var body := if s[0] == '+' || s[0] == '-' then s[1..] else s;
      if body == [] || !AllDigits(body) then
        None
      else
        var v := if negative then -(DigitsValue(body) as int) else DigitsValue(body);
        if InInt64(v) then Some(v) else None
  }

  /** A sign is accepted on either side; a lone sign or a stray character is not a number. */
  lemma AtoiSignExamples()
    ensures Atoi("-5") == Some(-5)
    ensures Atoi("+5") == Some(5)
    ensures Atoi("-") == None && Atoi("5x") == None
  {
    DigitsValueAppend("", '5');
    assert "" + ['5'] == "5";
    assert "-5"[1..] == "5" && "+5"[1..] == "5";
    assert !IsDigit("5x"[1]);
  }
}
