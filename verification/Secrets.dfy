/** Private values of one invocation: which maps are accepted, whatever order they are
    visited in. */
module Secrets {
  const MAX_ENTRIES := 256
  const MAX_VALUE := 32768
  const MAX_TOTAL := 131072

  // ----------------------------------------------------------------------- UTF-8

  predicate Continuation(c: char) { 0x80 as char <= c <= 0xBF as char }

  /** The length of the well-formed UTF-8 sequence a string starts with, or 0. */
  function RuneLength(s: string): (n: nat)
    ensures n <= |s|
  {
    if s == "" then 0
    else if s[0] < 0x80 as char then 1
    else if |s| >= 2 && 0xC2 as char <= s[0] <= 0xDF as char && Continuation(s[1]) then 2
    else if |s| >= 3 && 0xE0 as char <= s[0] <= 0xEF as char && Continuation(s[1]) && Continuation(s[2])
      && (s[0] == 0xE0 as char ==> s[1] >= 0xA0 as char) && (s[0] == 0xED as char ==> s[1] <= 0x9F as char) then 3
    else if |s| >= 4 && 0xF0 as char <= s[0] <= 0xF4 as char && Continuation(s[1]) && Continuation(s[2]) && Continuation(s[3])
      && (s[0] == 0xF0 as char ==> s[1] >= 0x90 as char) && (s[0] == 0xF4 as char ==> s[1] <= 0x8F as char) then 4
    else 0
  }

  predicate ValidUtf8(s: string)
    decreases |s|
  {
    s == "" || (RuneLength(s) > 0 && ValidUtf8(s[RuneLength(s)..]))
  }

  lemma RuneInPrefix(a: string, b: string)
    requires RuneLength(a) > 0
    ensures RuneLength(a + b) == RuneLength(a)
  {
    assert forall i :: 0 <= i < |a| ==> (a + b)[i] == a[i];
  }

  lemma {:induction false} Utf8Concat(a: string, b: string)
    requires ValidUtf8(a) && ValidUtf8(b)
    ensures ValidUtf8(a + b)
    decreases |a|
  {
    hide RuneLength;
    if a == "" {
      assert a + b == b;
    } else {
      var n := RuneLength(a);
      RuneInPrefix(a, b);
      Utf8Concat(a[n..], b);
      assert (a + b)[n..] == a[n..] + b;
    }
  }

  // ------------------------------------------------------------------ one entry

  predicate Letter(c: char) { 'A' <= c <= 'Z' || 'a' <= c <= 'z' || c == '_' }

  predicate KeyChar(c: char) { Letter(c) || '0' <= c <= '9' }

  predicate KeyShape(key: string) {
    1 <= |key| <= 64 && Letter(key[0]) && forall c :: c in key ==> KeyChar(c)
  }

  predicate GoodEntry(key: string, value: string) {
    && KeyShape(key) && !("MOSAIC_" <= key)
    && value != "" && '\0' !in value && ValidUtf8(value) && |value| <= MAX_VALUE
  }

  // -------------------------------------------------------------------- the map

  function EntrySize(m: map<string, string>, key: string): nat
    requires key in m
  {
    |key| + |m[key]|
  }

  /** The bytes of all keys and values. */
  ghost function Total(m: map<string, string>): nat
    decreases |m|
  {
    if m == map[] then 0 else
      var key :| key in m;
      Smaller(m, key);
      EntrySize(m, key) + Total(m - {key})
  }

  lemma Smaller(m: map<string, string>, key: string)
    requires key in m
    ensures |m - {key}| == |m| - 1
  {
    assert (m - {key}).Keys == m.Keys - {key};
  }

  /** The total can be counted from any key. */
  lemma {:induction false} TotalFrom(m: map<string, string>, key: string)
    requires key in m
    ensures Total(m) == EntrySize(m, key) + Total(m - {key})
    ensures EntrySize(m, key) == |key| + |m[key]|
    decreases |m|
  {
    assert m != map[];
    var first :| first in m && Total(m) == EntrySize(m, first) + Total(m - {first});
    if first != key {
      Smaller(m, first);
      Smaller(m, key);
      TotalFrom(m - {first}, key);
      TotalFrom(m - {key}, first);
      assert (m - {first}) - {key} == (m - {key}) - {first};
      assert EntrySize(m - {first}, key) == EntrySize(m, key);
      assert EntrySize(m - {key}, first) == EntrySize(m, first);
    }
  }

  datatype Verdict = Accepted(values: map<string, string>) | Invalid | TooLarge | Unreadable | Malformed

  /** The verdict on a map; no order is involved. */
  ghost function Judged(m: map<string, string>): Verdict {
    if m == map[] || |m| > MAX_ENTRIES || exists key :: key in m && !GoodEntry(key, m[key]) then Invalid
    else if Total(m) > MAX_TOTAL then TooLarge
    else Accepted(m)
  }

  /** The validation loop. The entries come in an arbitrary order, chosen anew at every
      step; the verdict, and which error it is, does not depend on it. */
  method NewInvocationSecrets(values: map<string, string>) returns (r: Verdict)
    ensures r == Judged(values)
  {
    if |values| == 0 || |values| > MAX_ENTRIES {
      return Invalid;
    }
    var total := 0;
    var left := values;
    while left != map[]
      invariant left.Keys <= values.Keys && forall key :: key in left ==> left[key] == values[key]
      invariant forall key :: key in values && key !in left ==> GoodEntry(key, values[key])
      invariant total + Total(left) == Total(values)
      decreases |left|
    {
      var key :| key in left;
      var value := left[key];
      if !KeyShape(key) || "MOSAIC_" <= key || value == "" || '\0' in value || !ValidUtf8(value) || |value| > MAX_VALUE {
        assert !GoodEntry(key, values[key]);
        return Invalid;
      }
      TotalFrom(left, key);
      Smaller(left, key);
      total := total + (|key| + |value|);
      left := left - {key};
    }
    if total > MAX_TOTAL {
      return TooLarge;
    }
    return Accepted(values);
  }

  /** Corollary: the bounds a caller may rely on once a map is accepted. */
  lemma {:induction false} AcceptedIsBounded(m: map<string, string>)
    requires Judged(m).Accepted?
    ensures Judged(m).values == m && 1 <= |m| <= MAX_ENTRIES && Total(m) <= MAX_TOTAL
    ensures forall key :: key in m ==> GoodEntry(key, m[key])
    ensures forall key :: key in m ==> EntrySize(m, key) <= 64 + MAX_VALUE && EntrySize(m, key) <= MAX_TOTAL
  {
    forall key | key in m ensures EntrySize(m, key) <= MAX_TOTAL {
      TotalFrom(m, key);
    }
  }
}
