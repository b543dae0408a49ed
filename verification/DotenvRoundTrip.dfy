/** Accepted values survive being written as dotenv text and read back. */
module DotenvRoundTrip {
  import opened Text
  import opened Secrets
  import opened Dotenv

  // ------------------------------------------------------------------ the printer

  /** How a value is written: in single quotes, as a JSON string, or bare, perhaps with a
      comment after it. */
  datatype Writing = Single | Double(text: string) | Bare | Remarked(gap: string, comment: string)

  /** A line of the text: blank, a comment, or KEY=VALUE, perhaps after "export " and a gap,
      with blanks around the equals sign and at the end. */
  datatype Item =
    | Blank(indent: string)
    | Comment(indent: string, text: string)
    | Assign(indent: string, export_: Option<string>, key: string, before: string, after: string,
             value: string, writing: Writing, trailing: string)

  /** KEY='VALUE' and nothing else. */
  function Simple(key: string, value: string): Item {
    Assign("", None, key, "", "", value, Single, "")
  }

  predicate Sound(s: string) {
    OneLine(s) && ValidUtf8(s)
  }

  /** Single quotes cannot hold a single quote or a line break. */
  predicate Quotable(value: string) {
    '\'' !in value && Sound(value)
  }

  /** The JSON string decodes to the value; a bare value has no white space at its ends, no
      quote at its start and no comment in it. */
  predicate Faithful(value: string, writing: Writing, json: string -> Option<string>) {
    match writing
    case Single => Quotable(value)
    case Double(text) => |text| >= 2 && text[0] == '"' && text[|text| - 1] == '"' && Sound(text) && json(text) == Some(value)
    case Bare => IsBare(value)
    case Remarked(gap, comment) => IsBare(value) && Gap(gap) && Sound(comment)
  }

  predicate Gap(s: string) {
    forall c :: c in s ==> c == ' ' || c == '\t'
  }

  predicate IsBare(value: string) {
    value != "" && Sound(value) && Trimmed(value) && value[0] != '"' && value[0] != '\'' && Index(value, " #") < 0
  }

  predicate Proper(item: Item, json: string -> Option<string>) {
    && Blanks(item.indent)
    && (item.Comment? ==> Sound(item.text))
    && (item.Assign? ==> ProperKey(item) && Faithful(item.value, item.writing, json))
  }

  /** The one key that needs care is `export` itself, which must not look like the keyword. */
  predicate ProperKey(item: Item)
    requires item.Assign?
  {
    && KeyShape(item.key) && Blanks(item.before) && Blanks(item.after) && Blanks(item.trailing) && Blanks(item.export_.GetOr(""))
    && (item.export_.Some? || item.key != "export" || !(" " <= item.before))
  }

  function Shown(value: string, writing: Writing): string {
    match writing
    case Single => "'" + value + "'"
    case Double(text) => text
    case Bare => value
    case Remarked(gap, comment) => value + gap + " #" + comment
  }

  /** A line up to its value. */
  function Front(export_: Option<string>, key: string, before: string, after: string): string {
    (match export_ case None => "" case Some(gap) => "export " + gap) + (key + before + "=" + after)
  }

  function Render(item: Item): string {
    match item
    case Blank(indent) => indent
    case Comment(indent, text) => indent + "#" + text
    case Assign(indent, export_, key, before, after, value, writing, trailing) =>
      indent + (Front(export_, key, before, after) + Shown(value, writing)) + trailing
  }

  function Rendered(items: seq<Item>): (ls: seq<string>)
    ensures |ls| == |items| && forall i :: 0 <= i < |items| ==> ls[i] == Render(items[i])
  {
    if items == [] then [] else [Render(items[0])] + Rendered(items[1..])
  }

  // ------------------------------------------------------------ what a value says

  lemma KeyIsVisible(key: string)
    requires KeyShape(key)
    ensures forall i :: 0 <= i < |key| ==> Visible(key[i]) && key[i] != '=' && key[i] != '#' && key[i] != ' '
  {
    forall i | 0 <= i < |key| ensures Visible(key[i]) && key[i] != '=' && key[i] != '#' && key[i] != ' ' {
      assert key[i] in key && KeyChar(key[i]);
    }
  }

  lemma NoCommentInGap(value: string, gap: string)
    requires Index(value, " #") < 0 && Gap(gap)
    ensures Index(value + gap, " #") < 0
  {
    var text := value + gap;
    forall j | 0 <= j <= |text| - 2 ensures !OccursAt(text, " #", j) {
      assert text[j..j + 2][1] == text[j + 1];
      if j + 1 < |value| {
        assert text[j..j + 2] == value[j..j + 2];
        assert !OccursAt(value, " #", j);
      } else {
        assert text[j + 1] == gap[j + 1 - |value|] && gap[j + 1 - |value|] in gap;
      }
    }
  }

  lemma CommentStarts(value: string, comment: string)
    requires Index(value, " #") < 0
    ensures Index(value + " #" + comment, " #") == |value|
  {
    var n, text := |value|, value + " #" + comment;
    assert text[n..n + 2] == " #";
    forall j | 0 <= j < n ensures !OccursAt(text, " #", j) {
      assert text[j..j + 2][1] == text[j + 1];
      assert j < n - 1 ==> text[j..j + 2] == value[j..j + 2];
      assert !OccursAt(value, " #", j);
    }
    IndexIs(text, " #", n);
  }

  lemma {:induction false} GapIsTrimmed(value: string, gap: string)
    requires value != "" && Trimmed(value) && Gap(gap)
    ensures TrimBlanksRight(value + gap) == value
    decreases |gap|
  {
    var n := |gap| - 1;
    if gap == "" {
      assert value + gap == value;
    } else {
      assert gap[n] in gap && forall c :: c in gap[..n] ==> c in gap;
      GapIsTrimmed(value, gap[..n]);
      assert (value + gap)[..|value| + n] == value + gap[..n];
    }
  }

  /** A bare value reads as it stands, with or without a gap and a comment after it. */
  lemma BareReads(value: string, gap: string, comment: string, json: string -> Option<string>)
    requires value != "" && Trimmed(value) && value[0] != '"' && value[0] != '\'' && Index(value, " #") < 0 && Gap(gap)
    ensures ParseValue(value, json) == Some(value)
    ensures ParseValue(value + gap + " #" + comment, json) == Some(value)
  {
    hide Index, TrimBlanksRight, Trimmed;
    GapIsTrimmed(value, "");
    GapIsTrimmed(value, gap);
    NoCommentInGap(value, gap);
    CommentStarts(value + gap, comment);
    var text := value + gap + " #" + comment;
    assert text[..|value + gap|] == value + gap && text[0] == value[0] && value + "" == value;
    assert "\""[0] == '"' && "'"[0] == '\'';
  }

  /** A value as the reader sees it: trimmed already. */
  ghost predicate Clean(text: string) {
    text != "" && LeadingSpace(text) == 0 && TrailingSpace(text) == 0
  }

  lemma QuotedReads(value: string, json: string -> Option<string>)
    requires '\'' !in value
    ensures var q := "'" + value + "'";
      Clean(q) && TrimRight(q) == q && ParseValue(q, json) == Some(value)
  {
    var q := "'" + value + "'";
    assert q[0] == '\'' && q[|q| - 1] == '\'' && q[1..|q| - 1] == value;
    VisibleIsTrimmed(q);
    assert q[..1] == "'" && "\""[0] == '"';
  }

  lemma JsonReads(text: string, json: string -> Option<string>)
    requires |text| >= 2 && text[0] == '"' && text[|text| - 1] == '"'
    ensures Clean(text) && TrimRight(text) == text && ParseValue(text, json) == json(text)
  {
    VisibleIsTrimmed(text);
    assert text[..1] == "\"";
  }

  lemma RemarkedReads(value: string, gap: string, comment: string, json: string -> Option<string>)
    requires IsBare(value) && Gap(gap)
    ensures var text := TrimRight(value + gap + " #" + comment);
      Clean(text) && ParseValue(text, json) == Some(value)
  {
    hide Index, ParseValue, LeadingSpace, TrailingSpace, TrimRight;
    VisibleStays("#" + comment);
    TrimAfter(value + gap + " ", "#" + comment);
    var rest := TrimRight("#" + comment);
    assert rest == "#" + rest[1..];
    assert value + gap + " #" + comment == (value + gap + " ") + ("#" + comment);
    assert value + gap + " #" + rest[1..] == (value + gap + " ") + rest == value + (gap + " " + rest);
    assert gap != "" ==> gap[0] in gap;
    SameLeading(value, gap + " " + rest);
    BareReads(value, gap, rest[1..], json);
  }

  /** Trimmed at the end, a value that was written faithfully reads as itself. */
  lemma ShownReads(value: string, writing: Writing, json: string -> Option<string>)
    requires Faithful(value, writing, json)
    ensures var text := TrimRight(Shown(value, writing));
      Clean(text) && ParseValue(text, json) == Some(value)
  {
    hide ParseValue, LeadingSpace, TrailingSpace, TrimRight, ValidUtf8, Index;
    match writing
    case Single => QuotedReads(value, json);
    case Double(text) => JsonReads(text, json);
    case Bare =>
      BareReads(value, "", "", json);
      NoTrailing(value);
    case Remarked(gap, comment) => RemarkedReads(value, gap, comment, json);
  }

  // ------------------------------------------------------------ what a line says

  lemma EntryCut(key: string, before: string, after: string, text: string)
    requires KeyShape(key) && Blanks(before)
    ensures var entry, eq := key + before + "=" + after + text, |key + before|;
      Index(entry, "=") == eq && entry[..eq] == key + before && entry[eq + 1..] == after + text
  {
    var entry, eq := key + before + "=" + after + text, |key + before|;
    KeyIsVisible(key);
    assert OccursAt(entry, "=", eq);
    forall j | 0 <= j < eq ensures !OccursAt(entry, "=", j) {
      assert entry[j..j + 1][0] == entry[j] == (key + before)[j];
      assert j >= |key| ==> before[j - |key|] in before;
    }
    IndexIs(entry, "=", eq);
  }

  /** What an entry says is up to its value; blanks around the equals sign do not matter. */
  lemma EntryReads(key: string, before: string, after: string, text: string, json: string -> Option<string>)
    requires KeyShape(key) && Blanks(before) && Blanks(after) && Clean(text)
    ensures ParseEntry(key + before + "=" + after + text, json) ==
      match ParseValue(text, json) case None => Nonsense case Some(value) => Entry(key, value)
  {
    hide ParseValue, Index, TrimLeft, TrimRight, LeadingSpace, TrailingSpace;
    EntryCut(key, before, after, text);
    KeyIsVisible(key);
    VisibleIsTrimmed(key);
    BlanksAreTrimmed("", key, before);
    assert "" + key + before == key + before;
    BlanksAreTrimmed(after, text, "");
    assert after + text + "" == after + text;
  }

  lemma NotAnExport(key: string, before: string, rest: string)
    requires KeyShape(key) && Blanks(before) && (key != "export" || !(" " <= before))
    ensures !("export " <= key + before + "=" + rest)
  {
    var entry := key + before + "=" + rest;
    KeyIsVisible(key);
    assert forall i :: 0 <= i < |key| ==> entry[i] == key[i];
    assert before != "" ==> entry[|key|] == before[0] && before[0] in before;
    assert before == "" ==> entry[|key|] == '=';
    assert "export "[6] == ' ' && forall i :: 0 <= i < 6 ==> Visible("export "[i]) && "export "[i] != '=';
  }

  /** After the keyword, if there is one, the entry is left. */
  lemma ExportIsOptional(export_: Option<string>, key: string, before: string, after: string, text: string)
    requires KeyShape(key) && Blanks(before) && Blanks(after) && Blanks(export_.GetOr("")) && Clean(text)
    requires export_.Some? || key != "export" || !(" " <= before)
    ensures var entry := key + before + "=" + after + text;
      TrimSpace(TrimPrefix(Front(export_, key, before, after) + text, "export ")) == entry
  {
    hide TrimLeft, TrimRight, LeadingSpace, TrailingSpace;
    var entry := key + before + "=" + after + text;
    EntryIsClean(key, before, after, text);
    match export_
    case None =>
      NotAnExport(key, before, after + text);
      assert Front(export_, key, before, after) + text == entry == key + before + "=" + (after + text);
      BlanksAreTrimmed("", entry, "");
      assert "" + entry + "" == entry;
    case Some(gap) =>
      assert Front(export_, key, before, after) + text == "export " + (gap + entry);
      assert ("export " + (gap + entry))[7..] == gap + entry;
      BlanksAreTrimmed(gap, entry, "");
      assert gap + entry + "" == gap + entry;
  }

  lemma EntryIsClean(key: string, before: string, after: string, text: string)
    requires KeyShape(key) && Blanks(before) && Blanks(after) && Clean(text)
    ensures Trimmed(key + before + "=" + after + text)
  {
    hide TrailingSpace;
    var front := key + before + "=" + after;
    KeyIsVisible(key);
    assert front[|front| - 1] == if after == "" then '=' else after[|after| - 1];
    assert after != "" ==> after[|after| - 1] in after;
    SameTrailing(front, text);
    assert (front + text)[0] == key[0];
  }

  /** A line with its indent and its trailing blanks says what its entry says. */
  lemma LineSays(indent: string, export_: Option<string>, key: string, before: string, after: string, shown: string, trailing: string,
                 json: string -> Option<string>)
    requires KeyShape(key) && Blanks(indent) && Blanks(before) && Blanks(after) && Blanks(trailing) && Blanks(export_.GetOr(""))
    requires export_.Some? || key != "export" || !(" " <= before)
    requires Clean(TrimRight(shown))
    ensures ParseLine(indent + (Front(export_, key, before, after) + shown) + trailing, json) ==
      match ParseValue(TrimRight(shown), json) case None => Nonsense case Some(value) => Entry(key, value)
  {
    hide ParseValue, ParseEntry, TrimLeft, TrimRight, LeadingSpace, TrailingSpace, TrimPrefix;
    var front, text := Front(export_, key, before, after), TrimRight(shown);
    LineIsTrimmed(indent, export_, key, before, after, shown, trailing);
    ExportIsOptional(export_, key, before, after, text);
    EntryReads(key, before, after, text, json);
    var line := front + text;
    FrontStarts(export_, key, before, after);
    assert line[0] == front[0] && "#"[0] == '#';
  }

  lemma FrontStarts(export_: Option<string>, key: string, before: string, after: string)
    requires KeyShape(key) && Blanks(after)
    ensures var front := Front(export_, key, before, after);
      front != "" && Visible(front[0]) && front[0] != '#' && Ascii(front[|front| - 1])
  {
    var front := Front(export_, key, before, after);
    KeyIsVisible(key);
    assert front[0] == if export_.Some? then 'e' else key[0];
    assert front[|front| - 1] == if after == "" then '=' else after[|after| - 1];
    assert after != "" ==> after[|after| - 1] in after;
  }

  lemma LineIsTrimmed(indent: string, export_: Option<string>, key: string, before: string, after: string, shown: string, trailing: string)
    requires KeyShape(key) && Blanks(indent) && Blanks(after) && Blanks(trailing) && TrimRight(shown) != ""
    ensures var front := Front(export_, key, before, after);
      TrimSpace(indent + (front + shown) + trailing) == front + TrimRight(shown)
  {
    hide TrimLeft, TrimRight, LeadingSpace, TrailingSpace, Front;
    var front := Front(export_, key, before, after);
    var body := front + shown;
    FrontStarts(export_, key, before, after);
    assert indent + body + trailing == indent + (body + trailing);
    BlanksBefore(indent, body + trailing);
    VisibleStays(body + trailing);
    StartIsKept(body + trailing);
    BlanksAfter(body, trailing);
    TrimAfter(front, shown);
  }

  lemma StartIsKept(s: string)
    requires LeadingSpace(s) == 0
    ensures TrimLeft(s) == s
  {
  }

  lemma BlankReads(indent: string, json: string -> Option<string>)
    requires Blanks(indent)
    ensures ParseLine(indent, json) == Nothing
  {
    BlanksBefore(indent, "");
    assert indent + "" == indent;
    NothingTrimmed();
  }

  lemma CommentReads(indent: string, text: string, json: string -> Option<string>)
    requires Blanks(indent)
    ensures ParseLine(indent + "#" + text, json) == Nothing
  {
    hide TrimRight, TrimLeft, ParseEntry, TrimPrefix, LeadingSpace;
    assert indent + "#" + text == indent + ("#" + text);
    BlanksBefore(indent, "#" + text);
    VisibleStays("#" + text);
    StartIsKept("#" + text);
    assert "#" <= TrimRight("#" + text);
  }

  /** Every line reads back as what it was written for. */
  lemma LineReads(item: Item, json: string -> Option<string>)
    requires Proper(item, json)
    ensures ParseLine(Render(item), json) == if item.Assign? then Entry(item.key, item.value) else Nothing
  {
    hide ParseLine, Front, Shown, Faithful, ParseValue, TrimRight;
    match item
    case Blank(indent) => BlankReads(indent, json);
    case Comment(indent, text) => CommentReads(indent, text, json);
    case Assign(indent, export_, key, before, after, value, writing, trailing) =>
      ShownReads(value, writing, json);
      LineSays(indent, export_, key, before, after, Shown(value, writing), trailing, json);
  }

  /** Nothing after the equals sign is an empty value, which makes sense but is not accepted. */
  lemma EmptyReads(key: string, json: string -> Option<string>)
    requires KeyShape(key)
    ensures ParseLine(key + "=", json) == Entry(key, "")
  {
    hide TrimLeft, TrimRight, LeadingSpace, TrailingSpace, Index;
    var line := key + "=";
    KeyIsVisible(key);
    EntryCut(key, "", "", "");
    assert key + "" + "=" + "" + "" == line && key + "" == key && "" + "" == "";
    VisibleIsFixed(line);
    VisibleIsFixed(key);
    NotAnExport(key, "", "");
    assert key + "" + "=" + "" == line && line[0] == key[0] && "#"[0] == '#';
    NothingTrimmed();
    assert Index("", " #") < 0;
  }

  // --------------------------------------------------------- lines that make no sense

  /** A single quote that is never closed, or closed too early; a JSON string that does not
      decode. */
  predicate BadValue(text: string, json: string -> Option<string>) {
    && text != "" && Visible(text[|text| - 1])
    && ((text[0] == '\'' && (|text| == 1 || text[|text| - 1] != '\'' || '\'' in text[1..|text| - 1]))
        || (text[0] == '"' && json(text) == None))
  }

  /** A line with a bad value makes no sense, wherever its blanks are. */
  lemma BadValueIsNonsense(indent: string, export_: Option<string>, key: string, before: string, after: string, text: string, trailing: string,
                           json: string -> Option<string>)
    requires KeyShape(key) && Blanks(indent) && Blanks(before) && Blanks(after) && Blanks(trailing) && Blanks(export_.GetOr(""))
    requires export_.Some? || key != "export" || !(" " <= before)
    requires BadValue(text, json)
    ensures ParseLine(indent + (Front(export_, key, before, after) + text) + trailing, json) == Nonsense
  {
    hide ParseLine, Front, TrimRight;
    VisibleIsTrimmed(text);
    NoTrailing(text);
    assert "'" <= text <==> text[0] == '\'';
    assert "\"" <= text <==> text[0] == '"';
    LineSays(indent, export_, key, before, after, text, trailing, json);
  }

  /** So does a line of visible text without an equals sign that is no comment. */
  lemma NoEqualsIsNonsense(indent: string, text: string, trailing: string, json: string -> Option<string>)
    requires Blanks(indent) && Blanks(trailing) && text != "" && Visible(text[0]) && Visible(text[|text| - 1])
    requires text[0] != '#' && '=' !in text
    ensures ParseLine(indent + text + trailing, json) == Nonsense
  {
    hide TrimLeft, TrimRight, LeadingSpace, TrailingSpace;
    VisibleIsTrimmed(text);
    BlanksAreTrimmed(indent, text, trailing);
    var entry := TrimSpace(TrimPrefix(text, "export "));
    TrimmingOnlyRemoves(TrimPrefix(text, "export "), '=');
    NoEquals(entry);
  }

  lemma NoEquals(entry: string)
    requires '=' !in entry
    ensures Index(entry, "=") < 0
  {
    forall j | 0 <= j < |entry| ensures !OccursAt(entry, "=", j) {
      assert entry[j..j + 1][0] == entry[j] && entry[j] in entry;
    }
  }

  lemma {:induction false} TrimLeftOnlyRemoves(s: string, c: char)
    requires c !in s
    ensures c !in TrimLeft(s)
    decreases |s|
  {
    hide LeadingSpace;
    var k := LeadingSpace(s);
    if k > 0 {
      TrimLeftOnlyRemoves(s[k..], c);
    }
  }

  lemma TrimmingOnlyRemoves(s: string, c: char)
    requires c !in s
    ensures c !in TrimSpace(s)
  {
    hide TrimLeft;
    TrimLeftOnlyRemoves(s, c);
  }

  /** One such line makes the whole text malformed. */
  lemma NonsenseIsMalformed(data: string, json: string -> Option<string>, i: nat)
    requires |data| <= 1_048_576 && ValidUtf8(data) && i < |Lines(data)| && ParseLine(Lines(data)[i], json).Nonsense?
    ensures Meaning(data, false, json) == Malformed
  {
    hide ParseLine, Gather, Lines, ValidUtf8;
    GatherExactly(Lines(data), map[], json);
  }

  /** A key `export` with a space before its equals sign is always taken for the keyword:
      the key that is read is empty, and no such text is accepted. */
  lemma ExportKeyIsLost(blanks: string, value: string, json: string -> Option<string>)
    requires Blanks(blanks) && '\'' !in value
    ensures ParseLine("export " + blanks + "='" + value + "'", json) == Entry("", value)
  {
    hide TrimLeft, TrimRight, LeadingSpace, TrailingSpace, ParseValue, ParseEntry, TrimPrefix;
    var line, entry := "export " + blanks + "='" + value + "'", "='" + value + "'";
    assert line[|line| - 1] == '\'' && line[0] == 'e' && "#"[0] == '#';
    VisibleIsFixed(line);
    KeywordIsCut(blanks + "='" + value + "'");
    assert line == "export " + (blanks + "='" + value + "'");
    VisibleIsTrimmed(entry);
    BlanksAreTrimmed(blanks, entry, "");
    assert blanks + entry + "" == blanks + "='" + value + "'";
    KeylessEntry(value, json);
  }

  lemma VisibleIsFixed(s: string)
    requires s != "" && Visible(s[0]) && Visible(s[|s| - 1])
    ensures TrimSpace(s) == s
  {
    hide TrimLeft, TrimRight, LeadingSpace, TrailingSpace;
    VisibleIsTrimmed(s);
    BlanksAreTrimmed("", s, "");
    assert "" + s + "" == s;
  }

  lemma KeywordIsCut(rest: string)
    ensures TrimPrefix("export " + rest, "export ") == rest
  {
    assert ("export " + rest)[7..] == rest;
  }

  lemma KeylessEntry(value: string, json: string -> Option<string>)
    requires '\'' !in value
    ensures ParseEntry("='" + value + "'", json) == Entry("", value)
  {
    hide TrimLeft, TrimRight, LeadingSpace, TrailingSpace, ParseValue;
    var quoted, entry := "'" + value + "'", "='" + value + "'";
    assert entry == "=" + quoted;
    assert entry[..1] == "=" && entry[1..] == quoted && entry[..0] == "";
    IndexIs(entry, "=", 0);
    QuotedReads(value, json);
    VisibleIsFixed(quoted);
    NothingTrimmed();
  }

  // ------------------------------------------------------------- the whole text

  predicate AssignsAt(items: seq<Item>, i: int, key: string) {
    0 <= i < |items| && items[i].Assign? && items[i].key == key
  }

  /** The items write exactly the entries of `m`, each once, in some order. */
  ghost predicate Describes(items: seq<Item>, m: map<string, string>, json: string -> Option<string>) {
    && (forall i :: 0 <= i < |items| ==> Proper(items[i], json))
    && (forall i, key :: AssignsAt(items, i, key) ==> key in m && items[i].value == m[key])
    && (forall key :: key in m ==> exists i :: AssignsAt(items, i, key))
    && (forall i, j, key :: AssignsAt(items, i, key) && AssignsAt(items, j, key) ==> i == j)
  }

  lemma DescribedIsGathered(items: seq<Item>, m: map<string, string>, json: string -> Option<string>)
    requires Describes(items, m, json)
    ensures Gather(Rendered(items), map[], json) == Some(m)
  {
    hide ParseLine, Gather, Render;
    var lines := Rendered(items);
    forall i | 0 <= i < |items|
      ensures ParseLine(lines[i], json) == if items[i].Assign? then Entry(items[i].key, items[i].value) else Nothing
    {
      LineReads(items[i], json);
    }
    forall i, key ensures Says(lines, i, json, key) <==> AssignsAt(items, i, key) {
    }
    GatherExactly(lines, map[], json);
    assert Consistent(lines, map[], json);
    var r := Gather(lines, map[], json).value;
    forall key ensures key in r <==> key in m {
    }
    forall key | key in m ensures r[key] == m[key] {
      var i :| AssignsAt(items, i, key);
      assert Says(lines, i, json, key);
    }
    assert r == m;
  }

  lemma {:induction false} AsciiIsValid(s: string)
    requires forall c :: c in s ==> c < 0x80 as char
    ensures ValidUtf8(s)
  {
    if s != "" {
      assert s[0] in s && forall c :: c in s[1..] ==> c in s;
      AsciiIsValid(s[1..]);
    }
  }

  lemma SoundConcat(a: string, b: string)
    requires Sound(a) && Sound(b)
    ensures Sound(a + b)
  {
    Utf8Concat(a, b);
  }

  lemma AsciiIsSound(s: string)
    requires forall i :: 0 <= i < |s| ==> Ascii(s[i]) && s[i] != '\n'
    ensures Sound(s)
  {
    AsciiIsValid(s);
  }

  lemma BlanksAreSound(s: string)
    requires Blanks(s)
    ensures Sound(s)
  {
    assert forall i :: 0 <= i < |s| ==> s[i] in s;
    AsciiIsSound(s);
  }

  lemma GapIsSound(s: string)
    requires Gap(s)
    ensures Sound(s)
  {
    assert forall i :: 0 <= i < |s| ==> s[i] in s;
    AsciiIsSound(s);
  }

  lemma KeyIsSound(key: string)
    requires KeyShape(key)
    ensures Sound(key)
  {
    KeyIsVisible(key);
    AsciiIsSound(key);
  }

  lemma FrontIsSound(export_: Option<string>, key: string, before: string, after: string)
    requires KeyShape(key) && Blanks(before) && Blanks(after) && Blanks(export_.GetOr(""))
    ensures Sound(Front(export_, key, before, after))
  {
    hide Sound, Blanks, KeyShape;
    KeyIsSound(key);
    BlanksAreSound(before);
    BlanksAreSound(after);
    BlanksAreSound(export_.GetOr(""));
    AsciiIsSound("export ");
    AsciiIsSound("=");
    AsciiIsSound("");
    SoundConcat(key, before);
    SoundConcat(key + before, "=");
    SoundConcat(key + before + "=", after);
    SoundConcat("export ", export_.GetOr(""));
    SoundConcat("export " + export_.GetOr(""), key + before + "=" + after);
    SoundConcat("", key + before + "=" + after);
  }

  lemma ShownIsSound(value: string, writing: Writing, json: string -> Option<string>)
    requires Faithful(value, writing, json)
    ensures Sound(Shown(value, writing))
  {
    hide Sound, Index, Trimmed;
    match writing
    case Single =>
      AsciiIsSound("'");
      SoundConcat("'", value);
      SoundConcat("'" + value, "'");
    case Remarked(gap, comment) =>
      AsciiIsSound(" #");
      GapIsSound(gap);
      SoundConcat(value, gap);
      SoundConcat(value + gap, " #");
      SoundConcat(value + gap + " #", comment);
    case _ =>
  }

  lemma LineIsSound(item: Item, json: string -> Option<string>)
    requires Proper(item, json)
    ensures Sound(Render(item))
  {
    hide Sound, Blanks, KeyShape, Front, Shown, Faithful;
    BlanksAreSound(item.indent);
    match item
    case Blank(_) =>
    case Comment(indent, text) =>
      AsciiIsSound("#");
      SoundConcat(indent, "#");
      SoundConcat(indent + "#", text);
    case Assign(indent, export_, key, before, after, value, writing, trailing) =>
      BlanksAreSound(trailing);
      FrontIsSound(export_, key, before, after);
      ShownIsSound(value, writing, json);
      SoundConcat(Front(export_, key, before, after), Shown(value, writing));
      SoundConcat(indent, Front(export_, key, before, after) + Shown(value, writing));
      SoundConcat(indent + (Front(export_, key, before, after) + Shown(value, writing)), trailing);
  }

  lemma JoinStep(ls: seq<string>)
    requires ls != []
    ensures Join(ls) == if |ls| == 1 then ls[0] else ls[0] + "\n" + Join(ls[1..])
  {
  }

  lemma {:induction false} JoinIsValid(ls: seq<string>)
    requires ls != [] && forall l :: l in ls ==> ValidUtf8(l)
    ensures ValidUtf8(Join(ls))
  {
    hide Join;
    AsciiIsValid("\n");
    hide ValidUtf8;
    JoinStep(ls);
    assert ls[0] in ls && forall l :: l in ls[1..] ==> l in ls;
    if |ls| > 1 {
      JoinIsValid(ls[1..]);
      Utf8Concat(ls[0], "\n");
      Utf8Concat(ls[0] + "\n", Join(ls[1..]));
    }
  }

  /** Any text within the limit that writes an accepted map, in any order, in any mixture of
      quoting, with blanks, comments and exports anywhere, reads back as that map. */
  lemma DotenvRoundTrips(items: seq<Item>, m: map<string, string>, json: string -> Option<string>)
    requires Judged(m).Accepted? && Describes(items, m, json)
    requires |Join(Rendered(items))| <= MAX_INPUT
    ensures Meaning(Join(Rendered(items)), false, json) == Accepted(m)
  {
    hide Gather, ParseLine, Render;
    var lines := Rendered(items);
    forall l | l in lines ensures OneLine(l) && ValidUtf8(l) {
      var i :| 0 <= i < |lines| && lines[i] == l;
      LineIsSound(items[i], json);
    }
    assert lines != [] by {
      var key :| key in m;
      var i :| AssignsAt(items, i, key);
    }
    LinesOfJoin(lines);
    JoinIsValid(lines);
    DescribedIsGathered(items, m, json);
  }

  /** A key on two lines is never accepted. */
  lemma RepeatedKeyIsRejected(data: string, unreadable: bool, json: string -> Option<string>, i: nat, j: nat, key: string)
    requires i < j && Says(Lines(data), i, json, key) && Says(Lines(data), j, json, key)
    ensures !Meaning(data, unreadable, json).Accepted?
  {
    hide ParseLine, Lines, Gather;
    GatherExactly(Lines(data), map[], json);
  }

  // ------------------------------------------------------------ the plain rendering

  /** `order` lists the keys of `m`, each once. */
  ghost predicate Enumerates(order: seq<string>, m: map<string, string>) {
    && (forall key :: key in order <==> key in m)
    && (forall i, j :: 0 <= i < j < |order| ==> order[i] != order[j])
  }

  function Plain(order: seq<string>, m: map<string, string>): (items: seq<Item>)
    requires forall key :: key in order ==> key in m
    ensures |items| == |order|
    ensures forall i :: 0 <= i < |order| ==> items[i] == Simple(order[i], m[order[i]])
  {
    if order == [] then [] else
      assert forall key :: key in order[1..] ==> key in order;
      [Simple(order[0], m[order[0]])] + Plain(order[1..], m)
  }

  lemma {:induction false} PlainSize(order: seq<string>, m: map<string, string>)
    requires Enumerates(order, m)
    ensures |order| == |m|
    ensures |Join(Rendered(Plain(order, m)))| <= Total(m) + 4 * |m|
    decreases |order|
  {
    if order == [] {
      assert m == map[] by { assert forall key :: key !in m; }
    } else {
      hide Rendered, Plain, Render, Join;
      var key, rest := order[0], order[1..];
      RestEnumerates(order, m);
      PlainSize(rest, m - {key});
      Smaller(m, key);
      TotalFrom(m, key);
      OneMoreLine(order, m);
    }
  }

  lemma RestEnumerates(order: seq<string>, m: map<string, string>)
    requires Enumerates(order, m) && order != []
    ensures order[0] in m && Enumerates(order[1..], m - {order[0]})
  {
    var key, rest := order[0], order[1..];
    assert key in order;
    assert forall k :: k in rest ==> k in order;
    assert forall k :: k in order ==> k == key || k in rest;
    assert key !in rest;
  }

  lemma OneMoreLine(order: seq<string>, m: map<string, string>)
    requires Enumerates(order, m) && order != []
    requires order[0] in m && Enumerates(order[1..], m - {order[0]})
    ensures |Join(Rendered(Plain(order, m)))| <= EntrySize(m, order[0]) + 4 + |Join(Rendered(Plain(order[1..], m - {order[0]})))|
  {
    var key, rest := order[0], order[1..];
    SamePlain(rest, m - {key}, m);
    var items := Plain(order, m);
    assert items[1..] == Plain(rest, m);
    var line := Render(items[0]);
    assert |line| == EntrySize(m, key) + 3;
    assert Rendered(items) == [line] + Rendered(items[1..]);
  }

  lemma {:induction false} SamePlain(order: seq<string>, m: map<string, string>, n: map<string, string>)
    requires forall key :: key in order ==> key in m && key in n && m[key] == n[key]
    ensures Plain(order, m) == Plain(order, n)
  {
    forall i | 0 <= i < |order| ensures Plain(order, m)[i] == Plain(order, n)[i] {
      assert order[i] in order;
    }
  }

  /** The plain rendering of an accepted map always fits, and reads back, in every order. */
  lemma PlainRoundTrips(order: seq<string>, m: map<string, string>, json: string -> Option<string>)
    requires Judged(m).Accepted? && Enumerates(order, m)
    requires forall key :: key in m ==> Quotable(m[key])
    ensures |Join(Rendered(Plain(order, m)))| <= MAX_INPUT
    ensures Meaning(Join(Rendered(Plain(order, m))), false, json) == Accepted(m)
  {
    hide Meaning, Rendered, Describes, Judged, Total;
    assert |Join(Rendered(Plain(order, m)))| <= MAX_INPUT by {
      PlainSize(order, m);
      AcceptedIsBounded(m);
    }
    PlainDescribes(order, m, json);
    DotenvRoundTrips(Plain(order, m), m, json);
  }

  lemma PlainDescribes(order: seq<string>, m: map<string, string>, json: string -> Option<string>)
    requires Judged(m).Accepted? && Enumerates(order, m)
    requires forall key :: key in m ==> Quotable(m[key])
    ensures Describes(Plain(order, m), m, json)
  {
    hide Plain, Proper, Judged;
    var items := Plain(order, m);
    forall i | 0 <= i < |items| ensures Proper(items[i], json) && items[i].key in m && items[i].value == m[items[i].key] {
      assert order[i] in order;
      PlainIsProper(m, order[i], json);
    }
    forall key | key in m ensures exists i :: AssignsAt(items, i, key) {
      assert key in order;
      var i :| 0 <= i < |order| && order[i] == key;
      assert AssignsAt(items, i, key);
    }
  }

  lemma PlainIsProper(m: map<string, string>, key: string, json: string -> Option<string>)
    requires Judged(m).Accepted? && key in m && Quotable(m[key])
    ensures Proper(Simple(key, m[key]), json)
  {
    GoodKey(m, key);
  }

  lemma GoodKey(m: map<string, string>, key: string)
    requires Judged(m).Accepted? && key in m
    ensures KeyShape(key)
  {
    assert GoodEntry(key, m[key]);
  }
}
