/** Which private values are accepted, spelled out. */
module Verdicts {
  import opened Secrets
  import opened Utf8
  import opened Text
  import opened Dotenv

  /** A letter or underscore, then letters, digits and underscores, 64 in all at most, not
      reserved; and 1 to 32768 bytes of characters other than NUL. */
  ghost predicate Acceptable(key: string, value: string) {
    && 1 <= |key| <= 64 && !('0' <= key[0] <= '9')
    && (forall i :: 0 <= i < |key| ==> 'a' <= key[i] <= 'z' || 'A' <= key[i] <= 'Z' || '0' <= key[i] <= '9' || key[i] == '_')
    && !(|key| >= 7 && key[..7] == "MOSAIC_")
    && 1 <= |value| <= 32768 && (forall i :: 0 <= i < |value| ==> value[i] != '\0')
    && exists cs :: Spells(value, cs)
  }

  lemma KeyShapeExactly(key: string)
    ensures KeyShape(key) <==>
      && 1 <= |key| <= 64 && !('0' <= key[0] <= '9')
      && forall i :: 0 <= i < |key| ==> 'a' <= key[i] <= 'z' || 'A' <= key[i] <= 'Z' || '0' <= key[i] <= '9' || key[i] == '_'
  {
    if KeyShape(key) {
      forall i | 0 <= i < |key| ensures KeyChar(key[i]) {
        assert key[i] in key;
      }
    }
  }

  /** An entry is good exactly when it is acceptable. */
  lemma GoodExactly(key: string, value: string)
    ensures GoodEntry(key, value) <==> Acceptable(key, value)
  {
    hide KeyShape, ValidUtf8, Spells;
    KeyShapeExactly(key);
    ValidExactly(value);
    assert "MOSAIC_" <= key <==> |key| >= 7 && key[..7] == "MOSAIC_";
    assert '\0' in value <==> exists i :: 0 <= i < |value| && value[i] == '\0';
  }

  /** The verdict on a map, error by error. */
  lemma VerdictExactly(m: map<string, string>)
    ensures Judged(m).Invalid? <==> |m| == 0 || |m| > 256 || exists key :: key in m && !Acceptable(key, m[key])
    ensures Judged(m).TooLarge? <==> 1 <= |m| <= 256 && (forall key :: key in m ==> Acceptable(key, m[key])) && Total(m) > 131072
    ensures Judged(m).Accepted? <==> 1 <= |m| <= 256 && (forall key :: key in m ==> Acceptable(key, m[key])) && Total(m) <= 131072
    ensures Judged(m).Accepted? ==> Judged(m).values == m
  {
    hide GoodEntry, Acceptable, Total;
    forall key | key in m ensures GoodEntry(key, m[key]) <==> Acceptable(key, m[key]) {
      GoodExactly(key, m[key]);
    }
    assert m == map[] <==> |m| == 0;
  }

  /** Dotenv text is read at all exactly when its source can be read, it has at most a
      mebibyte, and it spells characters. */
  lemma UnreadableExactly(data: string, unreadable: bool, json: string -> Option<string>)
    ensures Meaning(data, unreadable, json).Unreadable? <==> unreadable || |data| > 1_048_576 || !exists cs :: Spells(data, cs)
  {
    hide ValidUtf8, Gather, Lines, Spells, Total, GoodEntry;
    ValidExactly(data);
  }
}
