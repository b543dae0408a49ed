/** Readers may return their last bytes together with io.EOF. The decoder then looks at
    one frame only before it reads all that is left as a single frame. This module says
    exactly when that loses nothing. */
module EagerEof {
  import opened Text
  import opened EventFormat
  import opened EventStream

  /** The last read carries data and EOF; all the earlier ones carry data only. */
  ghost predicate Eager(script: seq<Turn>) {
    && script != []
    && (forall i :: 0 <= i < |script| - 1 ==> script[i].Got? && script[i].ending.More?)
    && script[|script| - 1].Got? && script[|script| - 1].ending.Eof?
  }

  /** What the EOF branch sees: the unfinished frame and the bytes of the last read. */
  function AtTheEnd(script: seq<Turn>): string
    requires script != []
  {
    Tail(Read(script, |script| - 1)) + DataAt(script, |script| - 1)
  }

  /** The frames of a stream, its tail included. */
  function Frames(s: string): (fs: seq<string>)
    ensures fs != []
  {
    var i := FrameEnd(s);
    if i < 0 then [s] else [s[..i]] + Frames(s[i + 2..])
  }

  predicate Named(frame: string) { Parse(frame).Some? }

  function LinesIn(fs: seq<string>): seq<string> {
    if fs == [] then [] else Lines(fs[0]) + LinesIn(fs[1..])
  }

  predicate Speaks(ls: seq<string>) { exists l :: l in ls && IsName(l) }

  /** Frame `i` is the only named one of `fs`, no later frame has an `event:` line, and
      the other frames add no data. */
  predicate SpeaksAlone(fs: seq<string>, i: nat)
    requires i < |fs|
  {
    var before, after := fs[..i], fs[i + 1..];
    var extra := Data(LinesIn(before)) + Data(LinesIn(after));
    && Named(fs[i]) && (forall f :: f in before + after ==> !Named(f))
    && !Speaks(LinesIn(after))
    && (extra == [] || (extra == [""] && Data(Lines(fs[i])) == []))
  }

  /** Reading these frames as one frame makes no difference. */
  predicate MergeIsHarmless(fs: seq<string>) {
    (forall f :: f in fs ==> !Named(f)) || exists i :: 0 <= i < |fs| && SpeaksAlone(fs, i)
  }

  /** The EOF branch loses nothing: there is at most one frame, or the first one is
      named, or merging the others is harmless. */
  predicate Faithful(b: string) {
    var i := FrameEnd(b);
    i < 0 || Named(b[..i]) || MergeIsHarmless(Frames(b[i + 2..]))
  }

  // ------------------------------------------------------------- names and data

  lemma {:induction false} NameConcat(a: seq<string>, b: seq<string>)
    ensures Name(a + b) == if Speaks(b) then Name(b) else Name(a)
    ensures Data(a + b) == Data(a) + Data(b)
  {
    hide NameOf, DataOf, IsName, IsData, Name, Data, Speaks;
    if b == [] {
      assert a + b == a;
      NoLines();
    } else {
      var init, l := b[..|b| - 1], b[|b| - 1];
      NameConcat(a, init);
      Snoc(a + init, l);
      Snoc(init, l);
      SpeaksSnoc(init, l);
      assert init + [l] == b && a + b == (a + init) + [l];
      var last := if IsData(l) then [DataOf(l)] else [];
      Assoc(Data(a), Data(init), last);
    }
  }

  lemma NoLines()
    ensures !Speaks([]) && forall ls: seq<string> :: Data(ls) + Data([]) == Data(ls)
  {
  }

  lemma SpeaksSnoc(ls: seq<string>, l: string)
    ensures Speaks(ls + [l]) <==> Speaks(ls) || IsName(l)
  {
    hide IsName;
    assert l in ls + [l] && forall x :: x in ls + [l] <==> x in ls || x == l;
  }

  /** A stream read as one frame has the lines of its frames, and blank lines. */
  lemma {:induction false} WholeIsFrames(s: string)
    ensures Name(Lines(s)) == Name(LinesIn(Frames(s)))
    ensures Data(Lines(s)) == Data(LinesIn(Frames(s)))
    ensures Speaks(Lines(s)) == Speaks(LinesIn(Frames(s)))
  {
    hide NameOf, DataOf, Index, Lines, Name, Data;
    var i := FrameEnd(s);
    if i < 0 {
      assert Frames(s)[1..] == [];
      assert LinesIn(Frames(s)) == Lines(s) + [] == Lines(s);
    } else {
      var f, rest := s[..i], s[i + 2..];
      WholeIsFrames(rest);
      assert Lines(s) == Lines(f) + ([""] + Lines(rest)) by { BlankLineBetween(s, i); }
      assert Frames(s)[1..] == Frames(rest);
      assert LinesIn(Frames(s)) == Lines(f) + LinesIn(Frames(rest));
      NameConcat(Lines(f), [""] + Lines(rest));
      NameConcat([""], Lines(rest));
      NameConcat(Lines(f), LinesIn(Frames(rest)));
      BlankLine();
    }
  }

  lemma BlankLine()
    ensures !IsName("") && Name([""]) == "" && Data([""]) == []
  {
    hide NameOf, DataOf;
    Snoc([], "");
    assert [] + [""] == [""];
  }

  lemma BlankLineBetween(s: string, i: nat)
    requires FrameEnd(s) == i
    ensures Lines(s) == Lines(s[..i]) + ([""] + Lines(s[i + 2..]))
  {
    hide Index, Lines;
    var f, rest := s[..i], s[i + 2..];
    assert s == f + "\n" + ("" + "\n" + rest) by { assert s == f + s[i..i + 2] + rest; }
    LinesConcat(f, "" + "\n" + rest);
    LinesConcat("", rest);
    LinesOfOne("");
  }

  lemma {:induction false} NamelessTogether(fs: seq<string>)
    requires forall f :: f in fs ==> !Named(f)
    ensures Name(LinesIn(fs)) == ""
  {
    hide NameOf, DataOf, Index, Lines;
    if fs != [] {
      assert fs[0] in fs && forall f :: f in fs[1..] ==> f in fs;
      assert !Named(fs[0]);
      NamelessTogether(fs[1..]);
      NameConcat(Lines(fs[0]), LinesIn(fs[1..]));
    }
  }

  lemma {:induction false} LinesAround(fs: seq<string>, i: nat)
    requires i < |fs|
    ensures LinesIn(fs) == LinesIn(fs[..i]) + (Lines(fs[i]) + LinesIn(fs[i + 1..]))
  {
    hide Lines;
    if i == 0 {
      assert [] + (Lines(fs[0]) + LinesIn(fs[1..])) == LinesIn(fs);
    } else {
      var rest := fs[1..];
      LinesAround(rest, i - 1);
      assert rest[..i - 1] == fs[..i][1..] && rest[i..] == fs[i + 1..];
      Assoc(Lines(fs[0]), LinesIn(rest[..i - 1]), Lines(fs[i]) + LinesIn(fs[i + 1..]));
    }
  }

  // --------------------------------------------------------- joining data lines

  function Size(ls: seq<string>): nat {
    if ls == [] then 0 else |ls[0]| + 1 + Size(ls[1..])
  }

  lemma {:induction false} JoinSize(ls: seq<string>)
    ensures |Join(ls)| == if ls == [] then 0 else Size(ls) - 1
  {
    if |ls| > 1 {
      JoinSize(ls[1..]);
    }
  }

  lemma {:induction false} SizeConcat(a: seq<string>, b: seq<string>)
    ensures Size(a + b) == Size(a) + Size(b)
  {
    if a == [] {
      assert a + b == b;
    } else {
      SizeConcat(a[1..], b);
      assert (a + b)[1..] == a[1..] + b;
    }
  }

  lemma SmallSize(ls: seq<string>)
    ensures Size(ls) == 0 <==> ls == []
    ensures Size(ls) == 1 <==> ls == [""]
  {
    if ls != [] && Size(ls) == 1 {
      assert ls[0] == "" && Size(ls[1..]) == 0;
      assert ls == [""];
    }
  }

  /** Extra data lines go unnoticed only if there are none, or one empty line is added
      to no data at all. */
  lemma ExtraData(a: seq<string>, d: seq<string>, b: seq<string>)
    ensures Join(a + (d + b)) == Join(d) <==> a + b == [] || (a + b == [""] && d == [])
  {
    SizeConcat(a, d + b);
    SizeConcat(d, b);
    SizeConcat(a, b);
    JoinSize(a + (d + b));
    JoinSize(d);
    SmallSize(a + b);
    SmallSize(d);
    SmallSize(a + (d + b));
    if a + b == [] {
      assert a == [] && b == [] && a + (d + b) == d;
    } else if a + b == [""] && d == [] {
      assert d + b == b;
      assert a + (d + b) == [""];
    }
  }

  // ------------------------------------------------------------------ the answer

  function HeardIn(fs: seq<string>): seq<Event> {
    if fs == [] then [] else Heard(fs[0]) + HeardIn(fs[1..])
  }

  lemma {:induction false} EventsAreHeard(s: string)
    ensures Events(s) == HeardIn(Frames(s))
  {
    hide Parse, Index;
    var i := FrameEnd(s);
    if i < 0 {
      assert Frames(s)[1..] == [];
      assert Events(s) == [] + Heard(s) == Heard(s) + [];
    } else {
      EventsAreHeard(s[i + 2..]);
      EventsStep(s);
      assert Frames(s)[1..] == Frames(s[i + 2..]);
    }
  }

  lemma {:induction false} HeardAround(fs: seq<string>, i: nat)
    requires i < |fs|
    ensures HeardIn(fs) == HeardIn(fs[..i]) + (Heard(fs[i]) + HeardIn(fs[i + 1..]))
  {
    hide Heard;
    if i == 0 {
      assert [] + (Heard(fs[0]) + HeardIn(fs[1..])) == HeardIn(fs);
    } else {
      var rest := fs[1..];
      HeardAround(rest, i - 1);
      assert rest[..i - 1] == fs[..i][1..] && rest[i..] == fs[i + 1..];
      Assoc(Heard(fs[0]), HeardIn(rest[..i - 1]), Heard(fs[i]) + HeardIn(fs[i + 1..]));
    }
  }

  lemma {:induction false} NothingHeard(fs: seq<string>)
    ensures HeardIn(fs) == [] <==> forall f :: f in fs ==> !Named(f)
  {
    hide Parse;
    if fs != [] {
      NothingHeard(fs[1..]);
      assert |HeardIn(fs)| == |Heard(fs[0])| + |HeardIn(fs[1..])|;
      assert fs[0] in fs && forall f :: f in fs <==> f == fs[0] || f in fs[1..];
    }
  }

  /** Reading a stream as one frame is right exactly when the merge is harmless. */
  lemma MergeExactly(s: string)
    ensures Heard(s) == Events(s) <==> MergeIsHarmless(Frames(s))
  {
    hide Index, Lines, NameOf, DataOf, Data, Name, LinesIn, HeardIn, Frames;
    var fs := Frames(s);
    EventsAreHeard(s);
    WholeIsFrames(s);
    NothingHeard(fs);
    if forall f :: f in fs ==> !Named(f) {
      NamelessTogether(fs);
    } else {
      var i :| 0 <= i < |fs| && Named(fs[i]);
      OneNamed(s, i);
      forall j | 0 <= j < |fs| && SpeaksAlone(fs, j) ensures Heard(s) == Events(s) {
        OneNamed(s, j);
      }
    }
  }

  /** With a named frame at `i`, the merged reading is right iff that frame speaks alone. */
  lemma OneNamed(s: string, i: nat)
    requires i < |Frames(s)| && Named(Frames(s)[i])
    ensures Heard(s) == HeardIn(Frames(s)) <==> SpeaksAlone(Frames(s), i)
  {
    hide Index, Lines, NameOf, DataOf, Data, Name, LinesIn, HeardIn, Frames;
    var fs := Frames(s);
    var before, f, after := fs[..i], fs[i], fs[i + 1..];
    WholeIsFrames(s);
    HeardAround(fs, i);
    NothingHeard(before);
    NothingHeard(after);
    assert forall x :: x in before + after <==> x in before || x in after;
    if (forall x :: x in before + after ==> !Named(x)) {
      LinesAround(fs, i);
      NameConcat(LinesIn(before), Lines(f) + LinesIn(after));
      NameConcat(Lines(f), LinesIn(after));
      NamelessTogether(before);
      NamelessTogether(after);
      ExtraData(Data(LinesIn(before)), Data(Lines(f)), Data(LinesIn(after)));
      assert Speaks(Lines(f)) by { SilentHasNoName(Lines(f)); }
      assert HeardIn(fs) == Heard(f);
      assert Speaks(LinesIn(after)) ==> Speaks(Lines(f) + LinesIn(after)) by {
        assert forall l :: l in LinesIn(after) ==> l in Lines(f) + LinesIn(after);
      }
      assert Speaks(Lines(f) + LinesIn(after)) by {
        assert forall l :: l in Lines(f) ==> l in Lines(f) + LinesIn(after);
      }
    } else {
      assert |HeardIn(fs)| >= 2;
    }
  }

  lemma {:induction false} SilentHasNoName(ls: seq<string>)
    requires Name(ls) != ""
    ensures Speaks(ls)
  {
    hide NameOf;
    if !IsName(ls[|ls| - 1]) {
      SilentHasNoName(ls[..|ls| - 1]);
    }
  }

  /** Data together with EOF: the decoder agrees with the bytes exactly when the EOF
      branch is faithful on what it sees. */
  lemma EagerEofExactly(script: seq<Turn>)
    requires Eager(script)
    ensures Future(false, "", script, 0) == Events(Read(script, |script|)) <==> Faithful(AtTheEnd(script))
  {
    hide Future, Events, Complete, Tail, Faithful, AtEof, Parse, Index;
    var n := |script| - 1;
    var read, b := Read(script, n), AtTheEnd(script);
    NothingRead();
    UpToTheEnd(script, "", 0);
    EventsSoFar(read, DataAt(script, n));
    EofBranchExactly(b, script, |script|);
    assert Read(script, |script|) == read + DataAt(script, n);
    SamePrefix(Complete(read), AtEof(b, script, |script|), Events(b));
    assert [] + Future(false, "", script, 0) == Future(false, "", script, 0);
  }

  lemma SamePrefix<T>(p: seq<T>, a: seq<T>, b: seq<T>)
    ensures p + a == p + b <==> a == b
  {
    assert (p + a)[|p|..] == a && (p + b)[|p|..] == b;
  }

  lemma NothingRead()
    ensures Tail("") == "" && Complete("") == [] && Events("") == []
  {
    SilentFrame();
    assert FrameEnd("") < 0;
  }

  lemma EventsSoFar(read: string, d: string)
    ensures Events(read + d) == Complete(read) + Events(Tail(read) + d)
  {
    hide Parse, Index, Complete, Tail;
    Extend(read, d);
    Assoc(Complete(read), Complete(Tail(read) + d), Heard(Tail(read + d)));
  }

  lemma EofBranchExactly(b: string, script: seq<Turn>, k: nat)
    requires k >= |script|
    ensures AtEof(b, script, k) == Events(b) <==> Faithful(b)
  {
    hide Parse, Index, Frames, MergeIsHarmless;
    var i := FrameEnd(b);
    if i >= 0 {
      var rest := b[i + 2..];
      EventsStep(b);
      MergeExactly(rest);
      CuttingDoesNotMatter(true, rest, script, k);
      assert rest + Unread(script, k) == rest;
      NothingRead();
    }
  }

  lemma {:induction false} UpToTheEnd(script: seq<Turn>, tail: string, k: nat)
    requires Eager(script) && k < |script|
    requires tail == Tail(Read(script, k))
    ensures Complete(Read(script, k)) + Future(false, tail, script, k) ==
            Complete(Read(script, |script| - 1)) + AtEof(AtTheEnd(script), script, |script|)
    decreases |script| - k
  {
    hide Parse, Index, AtEof;
    FirstTurn(false, tail, script, k);
    if k < |script| - 1 {
      var d := script[k].data;
      Extend(Read(script, k), d);
      UpToTheEnd(script, Tail(tail + d), k + 1);
      FramesFirst(tail + d, script, k + 1);
      Assoc(Complete(Read(script, k)), Complete(tail + d), Future(false, Tail(tail + d), script, k + 1));
    }
  }

  // ------------------------------------------------------------------- witnesses

  /** A blank line, then any two or more messages, all in one read that also reports
      EOF: at most one event comes out. */
  lemma MergeLosesMessages(ms: seq<Message>)
    requires |ms| >= 2 && forall m :: m in ms ==> Printable(m)
    ensures var script := [Got(SEP + Print(ms), Eof)];
      && Events(SEP + Print(ms)) == Meanings(ms) && |Meanings(ms)| == |ms|
      && |Future(false, "", script, 0)| <= 1
  {
    hide Parse, Index, Print;
    LeadingBlank(Print(ms));
    PrintedIsUnderstood(ms);
    MeaningsCount(ms);
    var script := [Got(SEP + Print(ms), Eof)];
    assert "" + script[0].data == SEP + Print(ms);
    FirstTurnOnNothing(script);
  }

  lemma {:induction false} MeaningsCount(ms: seq<Message>)
    ensures |Meanings(ms)| == |ms|
  {
    if ms != [] {
      MeaningsCount(ms[1..]);
    }
  }

  lemma LeadingBlank(rest: string)
    ensures FrameEnd(SEP + rest) == 0 && (SEP + rest)[2..] == rest && Parse((SEP + rest)[..0]) == None
    ensures Events(SEP + rest) == Events(rest)
  {
    var s := SEP + rest;
    assert s[0..2] == SEP;
    IndexIs(s, SEP, 0);
    SilentFrame();
    EventsStep(s);
    assert Heard(s[..0]) == [];
  }

  lemma FirstTurnOnNothing(script: seq<Turn>)
    requires script != [] && script[0].Got? && script[0].ending.Eof?
    ensures FrameEnd("") < 0
    ensures Future(false, "", script, 0) == AtEof(script[0].data, script, 1)
  {
    assert FrameEnd("") < 0;
    FirstTurn(false, "", script, 0);
    assert "" + script[0].data == script[0].data;
  }

  // ------------------------------------------------------- when the first no is final

  /** What the EOF branch leaves in the buffer when it says no. */
  function LeftInBuffer(b: string): string {
    if FrameEnd(b) < 0 then b else b[FrameEnd(b) + 2..]
  }

  /** A no of the EOF branch is final exactly when nothing named is left behind. */
  lemma EofNoIsFinalExactly(b: string, script: seq<Turn>, k: nat)
    requires k >= |script| && AtEof(b, script, k) == []
    ensures Resume(true, LeftInBuffer(b), script, k) == [] <==>
      FrameEnd(b) < 0 || forall f :: f in Frames(LeftInBuffer(b)) ==> !Named(f)
  {
    hide Parse, Index, Frames, HeardIn, Future;
    LeftIsPending(LeftInBuffer(b), script, k);
    if FrameEnd(b) < 0 {
      assert Events(b) == [] + Heard(b);
    }
  }

  lemma LeftIsPending(left: string, script: seq<Turn>, k: nat)
    requires k >= |script|
    ensures Resume(true, left, script, k) == Events(left)
    ensures Events(left) == [] <==> forall f :: f in Frames(left) ==> !Named(f)
  {
    hide Parse, Index, Frames, Heard, HeardIn, Future, Complete, Events;
    NothingRead();
    CuttingDoesNotMatter(true, left, script, k);
    assert left + Unread(script, k) == left;
    EventsAreHeard(left);
    NothingHeard(Frames(left));
  }

  /** The first no of a decoder whose EOF branch sees `b` is final: unless the first frame
      is nameless, what follows it is nameless as one frame, and a frame of it is named. */
  predicate FirstNoIsFinal(b: string) {
    var i := FrameEnd(b);
    i < 0 || Named(b[..i]) || Named(b[i + 2..]) || forall f :: f in Frames(b[i + 2..]) ==> !Named(f)
  }

  lemma FinalLeavesExactly(left: string, script: seq<Turn>, k: nat)
    requires k >= |script|
    ensures LeftoverAtFinal(left, script, k) == [] <==> Named(left) || forall f :: f in Frames(left) ==> !Named(f)
  {
    hide Parse, Frames, Resume, Events;
    LeftIsPending(left, script, k);
  }

  lemma OneFrame(b: string)
    requires FrameEnd(b) < 0
    ensures Named(b) || forall f :: f in Frames(b) ==> !Named(f)
  {
    hide Parse, Index;
  }

  lemma EofLeavesExactly(b: string, script: seq<Turn>, k: nat)
    requires k >= |script|
    ensures LeftoverAtEof(b, script, k) == [] <==> FirstNoIsFinal(b)
  {
    hide Parse, Index, Frames, Leftover, LeftoverAtFinal, Resume, Complete, Tail;
    var i := FrameEnd(b);
    if i < 0 {
      FinalLeavesExactly(b, script, k);
      OneFrame(b);
    } else {
      FinalLeavesExactly(b[i + 2..], script, k);
      TidyFalseIsFinal(true, b[i + 2..], script, k);
    }
  }

  lemma {:induction false} LeftAfterFrames(buffer: string, script: seq<Turn>, k: nat)
    ensures Leftover(false, buffer, script, k) == Leftover(false, Tail(buffer), script, k)
    decreases |buffer|
  {
    hide Parse, Index, Leftover;
    if FrameEnd(buffer) >= 0 {
      LeftoverFrame(false, buffer, script, k);
      LeftAfterFrames(buffer[FrameEnd(buffer) + 2..], script, k);
    }
  }

  lemma {:induction false} LeftUpToTheEnd(script: seq<Turn>, tail: string, k: nat)
    requires Eager(script) && k < |script| && tail == Tail(Read(script, k))
    ensures Leftover(false, tail, script, k) == LeftoverAtEof(AtTheEnd(script), script, |script|)
    decreases |script| - k
  {
    hide Parse, Index, Leftover, LeftoverAtEof;
    LeftoverTurn(false, tail, script, k);
    if k < |script| - 1 {
      var d := script[k].data;
      Extend(Read(script, k), d);
      LeftAfterFrames(tail + d, script, k + 1);
      LeftUpToTheEnd(script, Tail(tail + d), k + 1);
    }
  }

  /** Data together with EOF: nothing is left after the first no exactly when the first no
      is final on what the EOF branch sees. */
  lemma FirstNoExactly(script: seq<Turn>)
    requires Eager(script)
    ensures Leftover(false, "", script, 0) == [] <==> FirstNoIsFinal(AtTheEnd(script))
  {
    hide Leftover, LeftoverAtEof, FirstNoIsFinal, Tail;
    NothingRead();
    LeftUpToTheEnd(script, "", 0);
    EofLeavesExactly(AtTheEnd(script), script, |script|);
  }

  /** A decoder that has said no may still hold events: with an empty `event:` line at
      the end of such a read, Next says no at once, and yes when asked again. */
  lemma FalseNeedNotBeFinal(ms: seq<Message>)
    requires ms != [] && forall m :: m in ms ==> Printable(m)
    ensures var rest := Print(ms) + "event:";
      var script := [Got(SEP + rest, Eof)];
      && Future(false, "", script, 0) == []
      && Resume(true, rest, script, 1) == Leftover(false, "", script, 0) == Meanings(ms) != []
  {
    hide Parse, Index, Print, Lines, NameOf;
    var rest := Print(ms) + "event:";
    var script := [Got(SEP + rest, Eof)];
    LeadingBlank(rest);
    FirstTurnOnNothing(script);
    LeftoverTurn(false, "", script, 0);
    assert "" + script[0].data == SEP + rest;
    EmptyNameLast(ms);
    MeaningsCount(ms);
    CuttingDoesNotMatter(true, rest, script, 1);
    assert rest + Unread(script, 1) == rest;
  }

  lemma EmptyNameLine()
    ensures Parse("event:") == None && NameOf("event:") == "" && OneLine("event:")
  {
    LinesOfOne("event:");
    Snoc([], "event:");
    assert [] + ["event:"] == ["event:"];
    assert "event:"[6..] == "";
  }

  lemma PrintThen(ms: seq<Message>, t: string)
    ensures Print(ms) + t == if ms == [] then t else Join(MessageLines(ms[0])) + SEP + (Print(ms[1..]) + t)
  {
    hide Join, MessageLines;
  }

  lemma {:induction false} EmptyNameLast(ms: seq<Message>)
    requires forall m :: m in ms ==> Printable(m)
    ensures Heard(Print(ms) + "event:") == []
    ensures Speaks(Lines(Print(ms) + "event:"))
    ensures Events(Print(ms) + "event:") == Meanings(ms)
  {
    hide Index, Lines, NameOf, Parse, Events, MessageLines, Speaks, Print, Join;
    PrintThen(ms, "event:");
    if ms == [] {
      EmptyNameLine();
      NoBreakInOneLine("event:");
      assert Speaks(Lines("event:")) && Events("event:") == [] by { EmptyNameAlone(); }
    } else {
      assert ms[0] in ms && forall m :: m in ms[1..] ==> m in ms;
      var text, rest := Join(MessageLines(ms[0])), Print(ms[1..]) + "event:";
      EmptyNameLast(ms[1..]);
      PrintedFrame(ms[0], rest);
      EndsNameless(text, rest);
    }
  }

  lemma EmptyNameAlone()
    ensures Speaks(Lines("event:")) && Events("event:") == []
  {
    EmptyNameLine();
    LinesOfOne("event:");
    NoBreakInOneLine("event:");
    assert "event:" in Lines("event:") && IsName("event:");
  }

  lemma NoBreakInOneLine(s: string)
    requires OneLine(s)
    ensures FrameEnd(s) < 0
  {
    forall j | 0 <= j <= |s| - 2 ensures !OccursAt(s, SEP, j) {
      assert s[j..j + 2][0] == s[j] && s[j] in s;
    }
  }

  /** The last `event:` line decides, so a nameless end makes a nameless whole. */
  lemma EndsNameless(text: string, rest: string)
    requires Parse(rest) == None && Speaks(Lines(rest))
    ensures Parse(text + SEP + rest) == None && Speaks(Lines(text + SEP + rest))
  {
    hide Index, Lines, NameOf, DataOf;
    assert text + SEP + rest == text + "\n" + ("" + "\n" + rest);
    LinesConcat(text, "" + "\n" + rest);
    LinesConcat("", rest);
    NameConcat(Lines(text) + Lines(""), Lines(rest));
    Assoc(Lines(text), Lines(""), Lines(rest));
    assert forall l :: l in Lines(rest) ==> l in (Lines(text) + Lines("")) + Lines(rest);
  }
}
