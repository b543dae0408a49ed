/** Reading private values from dotenv text. */
module Dotenv {
  import opened Text
  import opened Secrets

  const MAX_INPUT := 1024 * 1024

  /** What one line says. */
  datatype Said = Nothing | Nonsense | Entry(key: string, value: string)

  /** A value as written: JSON in double quotes, literal in single quotes, or bare up to a
      comment. `json` decodes a JSON string. */
  function ParseValue(value: string, json: string -> Option<string>): Option<string> {
    if "\"" <= value then json(value)
    else if "'" <= value then
      if |value| < 2 || value[|value| - 1] != '\'' || '\'' in value[1..|value| - 1] then None
      else Some(value[1..|value| - 1])
    else
      var cut := Index(value, " #");
      Some(TrimBlanksRight(if cut < 0 then value else value[..cut]))
  }

  /** An entry, split at its first equals sign. */
  function ParseEntry(entry: string, json: string -> Option<string>): Said {
    var eq := Index(entry, "=");
    if eq < 0 then Nonsense
    else match ParseValue(TrimSpace(entry[eq + 1..]), json)
      case None => Nonsense
      case Some(value) => Entry(TrimSpace(entry[..eq]), value)
  }

  function ParseTrimmed(line: string, json: string -> Option<string>): Said {
    if line == "" || "#" <= line then Nothing
    else ParseEntry(TrimSpace(TrimPrefix(line, "export ")), json)
  }

  function ParseLine(raw: string, json: string -> Option<string>): Said {
    ParseTrimmed(TrimSpace(raw), json)
  }

  /** The map collected from lines, on top of `m`; none if a line makes no sense or a key
      comes twice. */
  function Gather(lines: seq<string>, m: map<string, string>, json: string -> Option<string>): Option<map<string, string>> {
    if lines == [] then Some(m)
    else match ParseLine(lines[0], json)
      case Nothing => Gather(lines[1..], m, json)
      case Nonsense => None
      case Entry(key, value) => if key in m then None else Gather(lines[1..], m[key := value], json)
  }

  lemma GatherStep(lines: seq<string>, i: nat, m: map<string, string>, json: string -> Option<string>)
    requires i < |lines|
    ensures var said := ParseLine(lines[i], json);
      Gather(lines[i..], m, json) ==
        if said.Nothing? then Gather(lines[i + 1..], m, json)
        else if said.Nonsense? || said.key in m then None
        else Gather(lines[i + 1..], m[said.key := said.value], json)
  {
    hide ParseLine;
    assert lines[i..][0] == lines[i] && lines[i..][1..] == lines[i + 1..];
  }

  lemma GatherEnd(lines: seq<string>, m: map<string, string>, json: string -> Option<string>)
    ensures Gather(lines[|lines|..], m, json) == Some(m)
    ensures lines[0..] == lines
  {
  }

  ghost function Meaning(data: string, unreadable: bool, json: string -> Option<string>): Verdict {
    if unreadable || |data| > MAX_INPUT || !ValidUtf8(data) then Unreadable
    else match Gather(Lines(data), map[], json)
      case None => Malformed
      case Some(m) => Judged(m)
  }

  /** The value branch of the line loop. */
  method ReadValue(written: string, json: string -> Option<string>) returns (r: Option<string>)
    ensures r == ParseValue(written, json)
  {
    hide Index, TrimBlanksRight;
    var value := written;
    if "\"" <= value {
      return json(value);
    } else if "'" <= value {
      if |value| < 2 || value[|value| - 1] != '\'' || '\'' in value[1..|value| - 1] {
        return None;
      }
      value := value[1..|value| - 1];
    } else {
      var cut := Index(value, " #");
      value := TrimBlanksRight(if cut < 0 then value else value[..cut]);
    }
    return Some(value);
  }

  /** The body of the line loop, up to the check for a repeated key. */
  method ReadLine(raw: string, json: string -> Option<string>) returns (said: Said)
    ensures said == ParseLine(raw, json)
  {
    hide TrimSpace, TrimPrefix, Index, ParseValue;
    var line := TrimSpace(raw);
    if line == "" || "#" <= line {
      return Nothing;
    }
    line := TrimSpace(TrimPrefix(line, "export "));
    var eq := Index(line, "=");
    if eq < 0 {
      return Nonsense;
    }
    var key, value := TrimSpace(line[..eq]), TrimSpace(line[eq + 1..]);
    var read := ReadValue(value, json);
    return if read == None then Nonsense else Entry(key, read.value);
  }

  /** The line loop. `unreadable` says that the source fails. */
  method InvocationSecretsFromDotenv(data: string, unreadable: bool, json: string -> Option<string>) returns (r: Verdict)
    ensures r == Meaning(data, unreadable, json)
  {
    hide Lines, ValidUtf8, Judged, Gather, ParseLine;
    if unreadable || |data| > MAX_INPUT || !ValidUtf8(data) {
      return Unreadable;
    }
    var values: map<string, string> := map[];
    var lines := Lines(data);
    GatherEnd(lines, values, json);
    for i := 0 to |lines|
      invariant Gather(lines, map[], json) == Gather(lines[i..], values, json)
    {
      GatherStep(lines, i, values, json);
      var said := ReadLine(lines[i], json);
      if said.Nothing? {
        continue;
      }
      if said.Nonsense? || said.key in values {
        return Malformed;
      }
      values := values[said.key := said.value];
    }
    GatherEnd(lines, values, json);
    r := NewInvocationSecrets(values);
  }

  // ------------------------------------------------------------- what is gathered

  predicate Says(lines: seq<string>, i: int, json: string -> Option<string>, key: string) {
    0 <= i < |lines| && ParseLine(lines[i], json).Entry? && ParseLine(lines[i], json).key == key
  }

  /** Every line makes sense, no key is said twice, none is said that `m` has. */
  ghost predicate Consistent(lines: seq<string>, m: map<string, string>, json: string -> Option<string>) {
    && (forall i :: 0 <= i < |lines| ==> !ParseLine(lines[i], json).Nonsense?)
    && (forall i, key :: Says(lines, i, json, key) ==> key !in m)
    && (forall i, j, key :: Says(lines, i, json, key) && Says(lines, j, json, key) ==> i == j)
  }

  /** `r` is `m` and, for every key said, the value its line gives. */
  ghost predicate Collects(lines: seq<string>, m: map<string, string>, json: string -> Option<string>, r: map<string, string>) {
    && (forall key :: key in r <==> key in m || exists i :: Says(lines, i, json, key))
    && (forall key :: key in m ==> key in r && r[key] == m[key])
    && (forall i, key :: Says(lines, i, json, key) ==> key in r && r[key] == ParseLine(lines[i], json).value)
  }

  /** Gathering succeeds exactly on consistent lines, and collects exactly what they say. */
  lemma {:induction false} GatherExactly(lines: seq<string>, m: map<string, string>, json: string -> Option<string>)
    ensures Gather(lines, m, json).Some? <==> Consistent(lines, m, json)
    ensures Gather(lines, m, json).Some? ==> Collects(lines, m, json, Gather(lines, m, json).value)
  {
    hide ParseLine;
    if lines != [] {
      var rest := lines[1..];
      var said := ParseLine(lines[0], json);
      forall i, key ensures Says(rest, i, json, key) <==> i >= 0 && Says(lines, i + 1, json, key) {
        assert 0 <= i < |rest| ==> rest[i] == lines[i + 1];
      }
      assert forall i :: 0 <= i < |rest| ==> rest[i] == lines[i + 1];
      match said {
        case Nothing =>
          GatherExactly(rest, m, json);
          NothingFirst(lines, m, json);
        case Nonsense =>
          assert ParseLine(lines[0], json).Nonsense?;
        case Entry(key, value) =>
          assert Says(lines, 0, json, key);
          if key !in m {
            GatherExactly(rest, m[key := value], json);
            EntryFirst(lines, m, json, key, value);
          }
      }
    }
  }

  lemma NothingFirst(lines: seq<string>, m: map<string, string>, json: string -> Option<string>)
    requires lines != [] && ParseLine(lines[0], json).Nothing?
    ensures Consistent(lines, m, json) <==> Consistent(lines[1..], m, json)
    ensures forall r :: Collects(lines[1..], m, json, r) ==> Collects(lines, m, json, r)
  {
    hide ParseLine;
    Shifted(lines, json);
  }

  lemma Shifted(lines: seq<string>, json: string -> Option<string>)
    requires lines != []
    ensures forall i, key :: Says(lines[1..], i, json, key) ==> Says(lines, i + 1, json, key)
    ensures forall i, key :: Says(lines, i, json, key) && i > 0 ==> Says(lines[1..], i - 1, json, key)
    ensures forall i :: 0 <= i < |lines[1..]| ==> lines[1..][i] == lines[i + 1]
    ensures forall i :: 0 < i < |lines| ==> lines[i] == lines[1..][i - 1]
  {
    hide ParseLine;
  }

  lemma EntryFirst(lines: seq<string>, m: map<string, string>, json: string -> Option<string>, key: string, value: string)
    requires lines != [] && ParseLine(lines[0], json) == Entry(key, value) && key !in m
    ensures Consistent(lines, m, json) <==> Consistent(lines[1..], m[key := value], json)
    ensures forall r :: Collects(lines[1..], m[key := value], json, r) ==> Collects(lines, m, json, r)
  {
    hide ParseLine;
    Shifted(lines, json);
    assert Says(lines, 0, json, key);
  }
}
