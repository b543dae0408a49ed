/** Byte strings and the handful of operations of Go's `strings` package that the
    client relies on. A `string` stands for a Go string: each `char` is one byte. */
module Text {

  datatype Option<+T> = None | Some(value: T) {
    function GetOr(default: T): T {
      match this
      case Some(v) => v
      case None => default
    }
  }

  // ---------------------------------------------------------------- searching

  predicate OccursAt(s: string, sep: string, i: int) {
    0 <= i <= |s| - |sep| && s[i..i + |sep|] == sep
  }

  /** The position of the leftmost occurrence, or -1. */
  function Index(s: string, sep: string): (i: int)
    requires sep != ""
    ensures -1 <= i
    ensures i >= 0 ==> OccursAt(s, sep, i)
    ensures forall j :: OccursAt(s, sep, j) ==> 0 <= i <= j
  {
    if |s| < |sep| then -1
    else if s[..|sep|] == sep then 0
    else
      var r := Index(s[1..], sep);
      OccursLater(s, sep);
      if r < 0 then -1 else r + 1
  }

  /** An occurrence that is not at the start is one in the rest, and the other way round. */
  lemma OccursLater(s: string, sep: string)
    requires 0 < |sep| <= |s| && s[..|sep|] != sep
    ensures forall j :: OccursAt(s, sep, j) ==> OccursAt(s[1..], sep, j - 1)
    ensures forall j :: OccursAt(s[1..], sep, j) ==> OccursAt(s, sep, j + 1)
  {
    forall j | OccursAt(s, sep, j) ensures OccursAt(s[1..], sep, j - 1) {
      assert j != 0;
      assert s[1..][j - 1..j - 1 + |sep|] == s[j..j + |sep|];
    }
    forall j | OccursAt(s[1..], sep, j) ensures OccursAt(s, sep, j + 1) {
      assert s[1..][j..j + |sep|] == s[j + 1..j + 1 + |sep|];
    }
  }

  lemma IndexIs(s: string, sep: string, i: nat)
    requires sep != "" && OccursAt(s, sep, i)
    requires forall j :: 0 <= j < i ==> !OccursAt(s, sep, j)
    ensures Index(s, sep) == i
  {
  }

  /** Appending never moves the leftmost occurrence. */
  lemma IndexStable(s: string, t: string, sep: string)
    requires sep != "" && Index(s, sep) >= 0
    ensures Index(s + t, sep) == Index(s, sep)
  {
    var i := Index(s, sep);
    assert (s + t)[i..i + |sep|] == s[i..i + |sep|];
    forall j | 0 <= j < i ensures !OccursAt(s + t, sep, j) {
      assert (s + t)[j..j + |sep|] == s[j..j + |sep|];
      assert !OccursAt(s, sep, j);
    }
    IndexIs(s + t, sep, i);
  }

  function TrimPrefix(s: string, p: string): string {
    if p <= s then s[|p|..] else s
  }

  // ------------------------------------------------------------------- lines

  predicate OneLine(s: string) {
    '\n' !in s
  }

  /** strings.Split(s, "\n"): always at least one line. */
  function Lines(s: string): (ls: seq<string>)
    ensures |ls| > 0
    ensures forall l :: l in ls ==> OneLine(l)
  {
    var i := Index(s, "\n");
    if i < 0 then
      assert OneLine(s) by {
        if !OneLine(s) {
          var k :| 0 <= k < |s| && s[k] == '\n';
          assert OccursAt(s, "\n", k);
        }
      }
      [s]
    else
      assert OneLine(s[..i]) by {
        if !OneLine(s[..i]) {
          var k :| 0 <= k < i && s[k] == '\n';
          assert OccursAt(s, "\n", k);
        }
      }
      [s[..i]] + Lines(s[i + 1..])
  }

  /** strings.Join(ls, "\n"). */
  function Join(ls: seq<string>): string {
    if ls == [] then "" else if |ls| == 1 then ls[0] else ls[0] + "\n" + Join(ls[1..])
  }

  lemma LinesOfOne(l: string)
    requires OneLine(l)
    ensures Lines(l) == [l]
  {
    forall j | 0 <= j <= |l| - 1 ensures !OccursAt(l, "\n", j) {
      assert l[j..j + 1][0] == l[j] && l[j] in l;
    }
  }

  lemma LinesCons(l: string, rest: string)
    requires OneLine(l)
    ensures Lines(l + "\n" + rest) == [l] + Lines(rest)
  {
    var s := l + "\n" + rest;
    assert s[|l|..|l| + 1] == "\n";
    forall j | 0 <= j < |l| ensures !OccursAt(s, "\n", j) {
      assert s[j] == l[j] && l[j] in l;
      assert s[j..j + 1][0] == l[j];
    }
    IndexIs(s, "\n", |l|);
    assert s[..|l|] == l && s[|l| + 1..] == rest;
  }

  lemma {:induction false} LinesOfJoin(ls: seq<string>)
    requires ls != [] && forall l :: l in ls ==> OneLine(l)
    ensures Lines(Join(ls)) == ls
  {
    assert OneLine(ls[0]);
    if |ls| == 1 {
      LinesOfOne(ls[0]);
    } else {
      LinesOfJoin(ls[1..]);
      LinesCons(ls[0], Join(ls[1..]));
    }
  }

  lemma Append(l: string, r: seq<string>, b: seq<string>)
    ensures [l] + (r + b) == ([l] + r) + b
  {
  }

  lemma NoBreak(a: string)
    requires Index(a, "\n") < 0
    ensures Lines(a) == [a] && OneLine(a)
  {
    assert a in Lines(a) by { assert Lines(a)[0] == a; }
  }

  lemma SplitAtBreak(a: string, i: nat)
    requires Index(a, "\n") == i
    ensures OneLine(a[..i]) && Lines(a) == [a[..i]] + Lines(a[i + 1..])
  {
    assert a[..i] in Lines(a) by { assert Lines(a)[0] == a[..i]; }
  }

  lemma Regroup(a: string, i: nat, b: string)
    requires OccursAt(a, "\n", i)
    ensures a + "\n" + b == a[..i] + "\n" + (a[i + 1..] + "\n" + b)
  {
    assert a == a[..i] + a[i..i + 1] + a[i + 1..];
  }

  /** Splitting across a line break splits the two sides separately. */
  lemma {:induction false} LinesConcat(a: string, b: string)
    ensures Lines(a + "\n" + b) == Lines(a) + Lines(b)
    decreases |a|
  {
    hide Lines, Index, OneLine;
    var i := Index(a, "\n");
    if i < 0 {
      NoBreak(a);
      LinesCons(a, b);
    } else {
      var l, r := a[..i], a[i + 1..];
      LinesConcat(r, b);
      SplitAtBreak(a, i);
      Regroup(a, i, b);
      LinesCons(l, r + "\n" + b);
      Append(l, Lines(r), Lines(b));
    }
  }

  // -------------------------------------------------------------- white space

  predicate AsciiSpace(c: char) {
    c == ' ' || 9 as char <= c <= 13 as char
  }

  /** UTF-8 encodings of U+0085 and U+00A0. */
  predicate TwoByteSpace(a: char, b: char) {
    a == 0xC2 as char && (b == 0x85 as char || b == 0xA0 as char)
  }

  /** UTF-8 encodings of U+1680, U+2000-200A, U+2028, U+2029, U+202F, U+205F, U+3000. */
  predicate ThreeByteSpace(a: char, b: char, c: char) {
    || (a == 0xE1 as char && b == 0x9A as char && c == 0x80 as char)
    || (a == 0xE2 as char && b == 0x80 as char &&
        (0x80 as char <= c <= 0x8A as char || c == 0xA8 as char || c == 0xA9 as char || c == 0xAF as char))
    || (a == 0xE2 as char && b == 0x81 as char && c == 0x9F as char)
    || (a == 0xE3 as char && b == 0x80 as char && c == 0x80 as char)
  }

  /** How many bytes of white space the string starts with: 0, or one character's worth. */
  function LeadingSpace(s: string): (k: nat)
    ensures k <= |s|
  {
    if |s| >= 1 && AsciiSpace(s[0]) then 1
    else if |s| >= 2 && TwoByteSpace(s[0], s[1]) then 2
    else if |s| >= 3 && ThreeByteSpace(s[0], s[1], s[2]) then 3
    else 0
  }

  function TrailingSpace(s: string): (k: nat)
    ensures k <= |s|
  {
    var n := |s|;
    if n >= 1 && AsciiSpace(s[n - 1]) then 1
    else if n >= 2 && TwoByteSpace(s[n - 2], s[n - 1]) then 2
    else if n >= 3 && ThreeByteSpace(s[n - 3], s[n - 2], s[n - 1]) then 3
    else 0
  }

  function TrimLeft(s: string): (t: string)
    ensures LeadingSpace(t) == 0
    decreases |s|
  {
    var k := LeadingSpace(s);
    if k == 0 then s else TrimLeft(s[k..])
  }

  function TrimRight(s: string): (t: string)
    ensures TrailingSpace(t) == 0
    ensures t <= s
    decreases |s|
  {
    var k := TrailingSpace(s);
    if k == 0 then s else TrimRight(s[..|s| - k])
  }

  /** strings.TrimSpace. */
  function TrimSpace(s: string): string {
    TrimRight(TrimLeft(s))
  }

  /** strings.TrimRight(s, " \t"). */
  function TrimBlanksRight(s: string): (t: string)
    ensures t <= s
  {
    if s != "" && (s[|s| - 1] == ' ' || s[|s| - 1] == '\t') then TrimBlanksRight(s[..|s| - 1]) else s
  }

  /** A string with no white space at either end is its own trimming. */
  predicate Trimmed(s: string) {
    LeadingSpace(s) == 0 && TrailingSpace(s) == 0
  }

  /** ASCII white space without the line break. */
  predicate Blanks(s: string) {
    forall c :: c in s ==> c == ' ' || c == '\t' || c == '\r' || c == 11 as char || c == 12 as char
  }

  lemma BlanksAreOneLine(s: string)
    requires Blanks(s)
    ensures OneLine(s)
  {
  }

  lemma {:induction false} BlanksBefore(blanks: string, rest: string)
    requires Blanks(blanks)
    ensures TrimLeft(blanks + rest) == TrimLeft(rest)
  {
    if blanks == "" {
      assert blanks + rest == rest;
    } else {
      assert blanks[0] in blanks && forall c :: c in blanks[1..] ==> c in blanks;
      BlanksBefore(blanks[1..], rest);
      assert (blanks + rest)[1..] == blanks[1..] + rest;
    }
  }

  lemma {:induction false} BlanksAfter(rest: string, blanks: string)
    requires Blanks(blanks)
    ensures TrimRight(rest + blanks) == TrimRight(rest)
    decreases |blanks|
  {
    hide TwoByteSpace, ThreeByteSpace;
    var n := |blanks| - 1;
    if blanks == "" {
      assert rest + blanks == rest;
    } else {
      assert blanks[n] in blanks && forall c :: c in blanks[..n] ==> c in blanks;
      BlanksAfter(rest, blanks[..n]);
      assert (rest + blanks)[..|rest| + n] == rest + blanks[..n];
    }
  }

  lemma TrimmedStart(s: string, blanks: string)
    requires s != "" && LeadingSpace(s) == 0 && Blanks(blanks)
    ensures LeadingSpace(s + blanks) == 0
  {
    assert forall i :: 0 <= i < |blanks| ==> blanks[i] in blanks;
  }

  /** Blanks around a trimmed string are trimmed off. */
  lemma BlanksAreTrimmed(before: string, s: string, after: string)
    requires Blanks(before) && Trimmed(s) && Blanks(after)
    ensures TrimSpace(before + s + after) == s
  {
    hide LeadingSpace, TrailingSpace, Blanks;
    BlanksBefore(before, s + after);
    assert before + s + after == before + (s + after);
    if s == "" {
      BlanksBefore(after, "");
      assert after + "" == after && "" + after == after;
      NothingTrimmed();
    } else {
      TrimmedStart(s, after);
      BlanksAfter(s, after);
    }
  }

  lemma NothingTrimmed()
    ensures TrimLeft("") == "" && TrimRight("") == ""
  {
  }

  /** Printable ASCII other than the space. */
  predicate Visible(c: char) { 0x21 as char <= c <= 0x7E as char }

  /** Text between two visible characters has nothing to trim. */
  lemma VisibleIsTrimmed(s: string)
    requires s != "" && Visible(s[0]) && Visible(s[|s| - 1])
    ensures Trimmed(s)
  {
  }

  // ------------------------------------------------- trimming the end of a line

  predicate Ascii(c: char) { c < 0x80 as char }

  lemma TrimStep(s: string)
    ensures TrimRight(s) == if TrailingSpace(s) == 0 then s else TrimRight(s[..|s| - TrailingSpace(s)])
    ensures TrimRight("") == ""
  {
    hide TrailingSpace;
  }

  /** Behind an ASCII character, trimming cannot reach. */
  lemma {:induction false} TrimAfter(front: string, s: string)
    requires front != "" && Ascii(front[|front| - 1]) && TrimRight(s) != ""
    ensures TrimRight(front + s) == front + TrimRight(s)
    decreases |s|
  {
    hide TrailingSpace, TrimRight;
    SameTrailing(front, s);
    TrimStep(s);
    TrimStep(front + s);
    var k := TrailingSpace(s);
    if k > 0 {
      TrimAfter(front, s[..|s| - k]);
      assert (front + s)[..|front + s| - k] == front + s[..|s| - k];
    }
  }

  lemma SameTrailing(front: string, s: string)
    requires front != "" && Ascii(front[|front| - 1]) && s != ""
    ensures TrailingSpace(front + s) == TrailingSpace(s)
  {
    var whole, n := front + s, |s|;
    assert forall i :: 0 <= i < n ==> whole[|front| + i] == s[i];
    assert whole[|front| - 1] == front[|front| - 1];
  }

  /** An ASCII character is not part of a longer white space before it. */
  lemma SameLeading(s: string, rest: string)
    requires s != "" && (rest == "" || Ascii(rest[0])) && LeadingSpace(s) == 0
    ensures LeadingSpace(s + rest) == 0
  {
    var whole := s + rest;
    assert forall i :: 0 <= i < |s| ==> whole[i] == s[i];
    assert rest != "" ==> whole[|s|] == rest[0];
  }

  lemma {:induction false} VisibleStays(s: string)
    requires s != "" && Visible(s[0])
    ensures LeadingSpace(s) == 0 && TrimRight(s) != "" && TrimRight(s)[0] == s[0]
    decreases |s|
  {
    var k := TrailingSpace(s);
    if k > 0 {
      VisibleStays(s[..|s| - k]);
    }
  }

  lemma NoTrailing(s: string)
    requires TrailingSpace(s) == 0
    ensures TrimRight(s) == s
  {
  }
}
