/** The event format of a streamed execution: what one frame says, and what a whole
    byte stream says, independently of how the bytes are read. */
module EventFormat {
  import opened Text

  const SEP := "\n\n"

  /** An event's name and the text handed to the JSON decoder. */
  datatype Event = Event(name: string, data: string)

  // ------------------------------------------------------------- one frame

  predicate IsName(line: string) { "event:" <= line }

  predicate IsData(line: string) { !IsName(line) && "data:" <= line }

  function NameOf(line: string): string {
    TrimSpace(TrimPrefix(line, "event:"))
  }

  function DataOf(line: string): string {
    TrimPrefix(TrimPrefix(line, "data:"), " ")
  }

  /** The last `event:` line wins. */
  function Name(ls: seq<string>): string {
    if ls == [] then ""
    else if IsName(ls[|ls| - 1]) then NameOf(ls[|ls| - 1])
    else Name(ls[..|ls| - 1])
  }

  /** Every `data:` line counts. */
  function Data(ls: seq<string>): seq<string> {
    if ls == [] then []
    else Data(ls[..|ls| - 1]) + if IsData(ls[|ls| - 1]) then [DataOf(ls[|ls| - 1])] else []
  }

  function Parse(frame: string): Option<Event> {
    var name := Name(Lines(frame));
    if name == "" then None else Some(Event(name, Join(Data(Lines(frame)))))
  }

  /** The event of a frame, as a list of at most one. */
  function Heard(frame: string): seq<Event> {
    match Parse(frame)
    case Some(e) => [e]
    case None => []
  }

  /** The line loop of the frame parser. */
  method ParseSSE(frame: string) returns (event: Event, ok: bool)
    ensures ok == Parse(frame).Some?
    ensures ok ==> Parse(frame) == Some(event)
  {
    var name := "";
    var data: seq<string> := [];
    var lines := Lines(frame);
    for i := 0 to |lines|
      invariant name == Name(lines[..i]) && data == Data(lines[..i])
    {
      var line := lines[i];
      assert lines[..i + 1][..i] == lines[..i];
      if "event:" <= line {
        name := TrimSpace(TrimPrefix(line, "event:"));
      } else if "data:" <= line {
        data := data + [TrimPrefix(TrimPrefix(line, "data:"), " ")];
      }
    }
    assert lines[..|lines|] == lines;
    if name == "" {
      return Event("", ""), false;
    }
    return Event(name, Join(data)), true;
  }

  // ------------------------------------------------------------ whole stream

  /** Where the leftmost frame of `s` ends, or -1. */
  function FrameEnd(s: string): int { Index(s, SEP) }

  /** The events of the terminated frames of `s`. */
  function Complete(s: string): seq<Event> {
    var i := FrameEnd(s);
    if i < 0 then [] else Heard(s[..i]) + Complete(s[i + 2..])
  }

  /** What follows the last terminated frame. */
  function Tail(s: string): (t: string)
    ensures FrameEnd(t) < 0
  {
    var i := FrameEnd(s);
    if i < 0 then s else Tail(s[i + 2..])
  }

  /** All the events of a byte stream: its named terminated frames, then its tail. */
  function Events(s: string): seq<Event> {
    Complete(s) + Heard(Tail(s))
  }

  lemma EventsStep(s: string)
    requires FrameEnd(s) >= 0
    ensures Events(s) == Heard(s[..FrameEnd(s)]) + Events(s[FrameEnd(s) + 2..])
  {
  }

  lemma StepUnder(s: string, d: string)
    requires FrameEnd(s) >= 0
    ensures var i := FrameEnd(s);
      && Complete(s + d) == Heard(s[..i]) + Complete(s[i + 2..] + d)
      && Tail(s + d) == Tail(s[i + 2..] + d)
  {
    hide Heard, Index;
    var i := FrameEnd(s);
    assert FrameEnd(s + d) == i by { IndexStable(s, d, SEP); }
    assert (s + d)[..i] == s[..i];
    assert (s + d)[i + 2..] == s[i + 2..] + d;
  }

  lemma Assoc<T>(a: seq<T>, b: seq<T>, c: seq<T>)
    ensures a + (b + c) == (a + b) + c
  {
  }

  /** Bytes that arrive later only extend the tail. */
  lemma {:induction false} Extend(s: string, d: string)
    ensures Complete(s + d) == Complete(s) + Complete(Tail(s) + d)
    ensures Tail(s + d) == Tail(Tail(s) + d)
    decreases |s|
  {
    hide Heard, Index;
    var i := FrameEnd(s);
    if i < 0 {
      assert Complete(s) == [] && Tail(s) == s;
    } else {
      var rest := s[i + 2..];
      StepUnder(s, d);
      Extend(rest, d);
      Assoc(Heard(s[..i]), Complete(rest), Complete(Tail(rest) + d));
    }
  }

  // -------------------------------------------------------------- the sender

  /** A line of a frame as a sender may write it: the name, with blanks around it or none;
      a line of data, with or without a space after the colon; or a line that is neither. */
  datatype Piece =
    | Naming(before: string, name: string, after: string)
    | Saying(space: bool, text: string)
    | Other(line: string)

  function Written(p: Piece): string {
    match p
    case Naming(before, name, after) => "event:" + before + name + after
    case Saying(space, text) => "data:" + (if space then " " else "") + text
    case Other(line) => line
  }

  /** The space after the colon may be left out where the text does not start with one. */
  predicate Legible(p: Piece) {
    match p
    case Naming(before, name, after) => Blanks(before) && Blanks(after) && Trimmed(name) && OneLine(name)
    case Saying(space, text) => OneLine(text) && (space || !(" " <= text))
    case Other(line) => line != "" && OneLine(line) && !("event:" <= line) && !("data:" <= line)
  }

  function WrittenLines(ps: seq<Piece>): seq<string> {
    if ps == [] then [] else WrittenLines(ps[..|ps| - 1]) + [Written(ps[|ps| - 1])]
  }

  /** The name given last. */
  function GivenName(ps: seq<Piece>): string {
    if ps == [] then "" else
      var last := ps[|ps| - 1];
      if last.Naming? then last.name else GivenName(ps[..|ps| - 1])
  }

  function GivenTexts(ps: seq<Piece>): seq<string> {
    if ps == [] then [] else
      var last := ps[|ps| - 1];
      GivenTexts(ps[..|ps| - 1]) + if last.Saying? then [last.text] else []
  }

  /** The event a frame is meant to be, if it is meant to be one. */
  function Intended(ps: seq<Piece>): seq<Event> {
    if GivenName(ps) == "" then [] else [Event(GivenName(ps), Join(GivenTexts(ps)))]
  }

  /** A frame that can be sent. */
  predicate Sendable(ps: seq<Piece>) {
    ps != [] && forall p :: p in ps ==> Legible(p)
  }

  /** Frames on the wire, each ended by a blank line. */
  function Sent(frames: seq<seq<Piece>>): string {
    if frames == [] then "" else Join(WrittenLines(frames[0])) + SEP + Sent(frames[1..])
  }

  function AllIntended(frames: seq<seq<Piece>>): seq<Event> {
    if frames == [] then [] else Intended(frames[0]) + AllIntended(frames[1..])
  }

  // ------------------------------------------------------------- the printer

  /** What a sender wants to say: a name and some lines of data. */
  datatype Message = Message(name: string, data: seq<string>)

  predicate Printable(m: Message) {
    m.name != "" && Trimmed(m.name) && OneLine(m.name) && forall l :: l in m.data ==> OneLine(l)
  }

  /** The usual way to write a message. */
  function Usual(m: Message): (ps: seq<Piece>)
    ensures |ps| == 1 + |m.data| && ps[0] == Naming(" ", m.name, "")
    ensures forall i :: 0 <= i < |m.data| ==> ps[i + 1] == Saying(true, m.data[i])
  {
    [Naming(" ", m.name, "")] + seq(|m.data|, i requires 0 <= i < |m.data| => Saying(true, m.data[i]))
  }

  function MessageLines(m: Message): seq<string> {
    WrittenLines(Usual(m))
  }

  function Print(ms: seq<Message>): string {
    if ms == [] then "" else Join(MessageLines(ms[0])) + SEP + Print(ms[1..])
  }

  function Meant(m: Message): Event { Event(m.name, Join(m.data)) }

  predicate Solid(ls: seq<string>) {
    ls != [] && forall l :: l in ls ==> l != "" && OneLine(l)
  }

  /** A blank line is the only thing that ends a frame of solid lines. */
  lemma {:induction false} SolidFrameEnds(ls: seq<string>, rest: string)
    requires Solid(ls)
    ensures FrameEnd(Join(ls) + SEP + rest) == |Join(ls)|
  {
    var s := Join(ls) + SEP + rest;
    assert s[|Join(ls)|..|Join(ls)| + 2] == SEP;
    forall j | 0 <= j < |Join(ls)| ensures !OccursAt(s, SEP, j) {
      NoInnerBreak(ls, rest, j);
    }
    IndexIs(s, SEP, |Join(ls)|);
  }

  lemma {:induction false} NoInnerBreak(ls: seq<string>, rest: string, j: nat)
    requires Solid(ls) && j < |Join(ls)|
    ensures !OccursAt(Join(ls) + SEP + rest, SEP, j)
  {
    var s := Join(ls) + SEP + rest;
    var l := ls[0];
    assert l in ls;
    if j < |l| {
      assert s[j] == l[j] && l[j] in l;
      assert s[j..j + 2][0] == l[j];
    } else {
      var more := Join(ls[1..]);
      assert forall x :: x in ls[1..] ==> x in ls;
      var s' := more + SEP + rest;
      assert s == l + "\n" + s';
      if j == |l| {
        assert ls[1] in ls;
        assert s'[0] == ls[1][0] && ls[1][0] in ls[1];
        assert s[j..j + 2][1] == s'[0];
      } else {
        var k := j - |l| - 1;
        NoInnerBreak(ls[1..], rest, k);
        assert s'[k..k + 2] == s[j..j + 2];
      }
    }
  }

  lemma Snoc(ls: seq<string>, l: string)
    ensures Name(ls + [l]) == if IsName(l) then NameOf(l) else Name(ls)
    ensures Data(ls + [l]) == Data(ls) + if IsData(l) then [DataOf(l)] else []
  {
    assert (ls + [l])[..|ls|] == ls;
  }

  lemma NamingReads(before: string, name: string, after: string)
    requires Blanks(before) && Blanks(after) && Trimmed(name) && OneLine(name)
    ensures var line := "event:" + before + name + after;
      OneLine(line) && line != "" && IsName(line) && NameOf(line) == name
  {
    var line := "event:" + before + name + after;
    assert line[..6] == "event:" && line[6..] == before + name + after;
    BlanksAreTrimmed(before, name, after);
    BlanksAreOneLine(before);
    BlanksAreOneLine(after);
  }

  lemma SayingReads(space: bool, text: string)
    requires OneLine(text) && (space || !(" " <= text))
    ensures var line := "data:" + (if space then " " else "") + text;
      OneLine(line) && line != "" && !IsName(line) && IsData(line) && DataOf(line) == text
  {
    var line := "data:" + (if space then " " else "") + text;
    assert line[0] == 'd' && "event:"[0] == 'e';
    assert line[..5] == "data:" && line[5..] == (if space then " " else "") + text;
    assert (" " + text)[1..] == text && "" + text == text;
  }

  /** Whatever the sender chooses, the parser sees what was meant. */
  lemma PieceReads(p: Piece)
    requires Legible(p)
    ensures var line := Written(p);
      && line != "" && OneLine(line)
      && (IsName(line) <==> p.Naming?) && (p.Naming? ==> NameOf(line) == p.name)
      && (IsData(line) <==> p.Saying?) && (p.Saying? ==> DataOf(line) == p.text)
  {
    hide NameOf, DataOf, Trimmed, OneLine;
    match p
    case Naming(before, name, after) => NamingReads(before, name, after);
    case Saying(space, text) => SayingReads(space, text);
    case Other(line) =>
  }

  lemma {:induction false} PiecesRead(ps: seq<Piece>)
    requires forall p :: p in ps ==> Legible(p)
    ensures var ls := WrittenLines(ps);
      && |ls| == |ps| && (forall l :: l in ls ==> l != "" && OneLine(l))
      && Name(ls) == GivenName(ps) && Data(ls) == GivenTexts(ps)
  {
    hide Legible, Written, OneLine, NameOf, DataOf, Name, Data, IsName, IsData;
    if ps == [] {
      assert Name([]) == "" && Data([]) == [] by { NothingSaid(); }
    } else {
      var init, p := ps[..|ps| - 1], ps[|ps| - 1];
      assert p in ps && forall x :: x in init ==> x in ps;
      PiecesRead(init);
      PieceReads(p);
      Snoc(WrittenLines(init), Written(p));
    }
  }

  lemma NothingSaid()
    ensures Name([]) == "" && Data([]) == []
  {
  }

  /** A sent frame is the first frame of what it starts, and is what it is meant to be. */
  lemma SentFrameEnds(ps: seq<Piece>, rest: string)
    requires Sendable(ps)
    ensures var frame := Join(WrittenLines(ps));
      var s := frame + SEP + rest;
      FrameEnd(s) == |frame| && s[..|frame|] == frame && s[|frame| + 2..] == rest && Heard(frame) == Intended(ps)
  {
    hide Index, Join, Name, Data, GivenName, GivenTexts, OneLine, Written, Legible;
    var ls := WrittenLines(ps);
    var frame := Join(ls);
    var s := frame + SEP + rest;
    PiecesRead(ps);
    LinesOfJoin(ls);
    assert FrameEnd(s) == |frame| by { SolidFrameEnds(ls, rest); }
    assert s[..|frame|] == frame && s[|frame| + 2..] == rest;
  }

  /** Send frames in any wording, read them as one stream: the events meant come back, in
      order, and nothing else. */
  lemma {:induction false} SentIsUnderstood(frames: seq<seq<Piece>>)
    requires forall ps :: ps in frames ==> Sendable(ps)
    ensures Events(Sent(frames)) == AllIntended(frames)
    ensures Complete(Sent(frames)) == AllIntended(frames) && Tail(Sent(frames)) == ""
  {
    hide Heard, Index, Join, WrittenLines, Intended, Sendable;
    if frames == [] {
      assert FrameEnd("") < 0;
      assert Heard("") == [] by { NothingHeardInNothing(); }
    } else {
      assert frames[0] in frames && forall ps :: ps in frames[1..] ==> ps in frames;
      SentFrameEnds(frames[0], Sent(frames[1..]));
      SentIsUnderstood(frames[1..]);
      assert Sent(frames) == Join(WrittenLines(frames[0])) + SEP + Sent(frames[1..]);
    }
  }

  lemma NothingHeardInNothing()
    ensures Heard("") == []
  {
    LinesOfOne("");
    Snoc([], "");
    assert [] + [""] == [""];
  }

  function Meanings(ms: seq<Message>): seq<Event> {
    if ms == [] then [] else [Meant(ms[0])] + Meanings(ms[1..])
  }

  lemma {:induction false} UsualIntends(ps: seq<Piece>, m: Message)
    requires 1 <= |ps| <= 1 + |m.data| && ps == Usual(m)[..|ps|]
    ensures GivenName(ps) == m.name && GivenTexts(ps) == m.data[..|ps| - 1]
  {
    var init := ps[..|ps| - 1];
    if |ps| > 1 {
      UsualIntends(init, m);
      assert m.data[..|ps| - 1] == m.data[..|init| - 1] + [m.data[|ps| - 2]];
    } else {
      assert ps == [Naming(" ", m.name, "")];
    }
  }

  /** The usual wording can be sent, and means the message. */
  lemma UsualIsSendable(m: Message)
    requires Printable(m)
    ensures Sendable(Usual(m)) && Intended(Usual(m)) == [Meant(m)]
  {
    var ps := Usual(m);
    forall p | p in ps ensures Legible(p) {
      var i :| 0 <= i < |ps| && ps[i] == p;
      if i > 0 {
        assert m.data[i - 1] in m.data;
      }
    }
    assert ps[..|ps|] == ps && m.data[..|m.data|] == m.data;
    UsualIntends(ps, m);
  }

  lemma PrintedFrame(m: Message, rest: string)
    requires Printable(m)
    ensures Events(Join(MessageLines(m)) + SEP + rest) == [Meant(m)] + Events(rest)
  {
    hide Parse, Index, Join, WrittenLines, Events, Intended, Sendable;
    UsualIsSendable(m);
    SentFrameEnds(Usual(m), rest);
    EventsStep(Join(MessageLines(m)) + SEP + rest);
  }

  function Usually(ms: seq<Message>): (frames: seq<seq<Piece>>)
    ensures |frames| == |ms| && forall i :: 0 <= i < |ms| ==> frames[i] == Usual(ms[i])
  {
    if ms == [] then [] else [Usual(ms[0])] + Usually(ms[1..])
  }

  lemma {:induction false} UsuallySent(ms: seq<Message>)
    requires forall m :: m in ms ==> Printable(m)
    ensures Print(ms) == Sent(Usually(ms)) && AllIntended(Usually(ms)) == Meanings(ms)
    ensures forall ps :: ps in Usually(ms) ==> Sendable(ps)
  {
    hide Usual, Printable, Intended, Join, Sendable;
    if ms != [] {
      assert ms[0] in ms && forall m :: m in ms[1..] ==> m in ms;
      UsualIsSendable(ms[0]);
      UsuallySent(ms[1..]);
      assert Usually(ms)[1..] == Usually(ms[1..]);
    }
  }

  /** Messages in the usual wording come back, in order. */
  lemma PrintedIsUnderstood(ms: seq<Message>)
    requires forall m :: m in ms ==> Printable(m)
    ensures Events(Print(ms)) == Meanings(ms)
    ensures Complete(Print(ms)) == Meanings(ms) && Tail(Print(ms)) == ""
  {
    hide Events, Complete, Tail, Print, Sent;
    UsuallySent(ms);
    SentIsUnderstood(Usually(ms));
  }
}
