/** The incremental decoder behind a streamed execution: frames are recovered from
    reads that may cut the byte stream anywhere. */
module EventStream {
  import opened Text
  import opened EventFormat

  datatype Ending = More | Eof | Fail(reason: string)

  /** One turn of the read loop: the context is found done, or a read returns `data`
      together with nothing, io.EOF or another error. */
  datatype Turn = Cancelled(reason: string) | Got(data: string, ending: Ending)

  /** A reader whose script is over keeps reporting EOF without data. */
  function TurnAt(script: seq<Turn>, k: nat): Turn {
    if k < |script| then script[k] else Got("", Eof)
  }

  function DataAt(script: seq<Turn>, k: nat): string {
    var turn := TurnAt(script, k);
    if turn.Got? then turn.data else ""
  }

  /** The bytes of the first `n` turns. */
  function Read(script: seq<Turn>, n: nat): string {
    if n == 0 then "" else Read(script, n - 1) + DataAt(script, n - 1)
  }

  /** The bytes still to come at turn `k`. */
  function Unread(script: seq<Turn>, k: nat): string
    decreases |script| - k
  {
    if k >= |script| then "" else DataAt(script, k) + Unread(script, k + 1)
  }

  // ----------------------------------------------- the future of a decoder

  /** The events still to come from a decoder that is about to look at its buffer. */
  function Future(done: bool, buffer: string, script: seq<Turn>, k: nat): seq<Event>
    decreases |script| - k, |buffer|, 0
  {
    var i := FrameEnd(buffer);
    if i >= 0 then
      var rest := buffer[i + 2..];
      if Parse(buffer[..i]).Some? then Heard(buffer[..i]) + Resume(done, rest, script, k) else Future(done, rest, script, k)
    else if k >= |script| then Heard(buffer)
    else match script[k]
      case Got(d, More) => Future(done, buffer + d, script, k + 1)
      case Got(d, Eof) => AtEof(buffer + d, script, k + 1)
      case _ => []
  }

  /** A finished decoder with an empty buffer is never asked again. */
  function Resume(done: bool, buffer: string, script: seq<Turn>, k: nat): seq<Event>
    decreases |script| - k, |buffer|, 1
  {
    if done && buffer == "" then [] else Future(done, buffer, script, k)
  }

  /** EOF: the first frame of the buffer is looked at; if it says nothing, all that
      follows it is read as a single frame. */
  function AtEof(buffer: string, script: seq<Turn>, k: nat): seq<Event>
    decreases |script| - k, |buffer|, 1
  {
    var i := FrameEnd(buffer);
    if i < 0 then Heard(buffer)
    else if Parse(buffer[..i]).Some? then Heard(buffer[..i]) + Resume(true, buffer[i + 2..], script, k)
    else Heard(buffer[i + 2..])
  }

  // ------------------------------------------- what is left after the first no

  /** The events that would still come if a decoder that is about to look at its buffer
      were asked again after it has first said no. */
  function Leftover(done: bool, buffer: string, script: seq<Turn>, k: nat): seq<Event>
    decreases |script| - k, |buffer|, 0
  {
    var i := FrameEnd(buffer);
    if i >= 0 then
      var rest := buffer[i + 2..];
      if Parse(buffer[..i]).Some? then LeftoverOnResume(done, rest, script, k) else Leftover(done, rest, script, k)
    else if k >= |script| then LeftoverAtFinal(buffer, script, k + 1)
    else match script[k]
      case Got(d, More) => Leftover(done, buffer + d, script, k + 1)
      case Got(d, Eof) => LeftoverAtEof(buffer + d, script, k + 1)
      case _ => []
  }

  function LeftoverOnResume(done: bool, buffer: string, script: seq<Turn>, k: nat): seq<Event>
    decreases |script| - k, |buffer|, 1
  {
    if done && buffer == "" then [] else Leftover(done, buffer, script, k)
  }

  function LeftoverAtEof(buffer: string, script: seq<Turn>, k: nat): seq<Event>
    decreases |script| - k, |buffer|, 1
  {
    var i := FrameEnd(buffer);
    if i < 0 then LeftoverAtFinal(buffer, script, k)
    else if Parse(buffer[..i]).Some? then LeftoverOnResume(true, buffer[i + 2..], script, k)
    else LeftoverAtFinal(buffer[i + 2..], script, k)
  }

  /** A buffer taken as the final frame leaves nothing; one that says nothing stays. */
  function LeftoverAtFinal(buffer: string, script: seq<Turn>, k: nat): seq<Event> {
    if Parse(buffer).Some? then [] else Resume(true, buffer, script, k)
  }

  lemma NothingToResume(script: seq<Turn>, k: nat)
    ensures Resume(true, "", script, k) == LeftoverOnResume(true, "", script, k) == []
  {
  }

  // ------------------------------------------------------------ conservation

  /** The bytes received are those taken and those still buffered, and the events
      handed out are exactly the events of the bytes taken: `framed` by whole frames,
      `final` as one unterminated frame. */
  ghost predicate Conserved(received: string, framed: string, final: string, buffer: string, delivered: seq<Event>) {
    && received == framed + final + buffer
    && Tail(framed) == ""
    && delivered == Complete(framed) + Heard(final)
  }

  lemma TakeConserves(received: string, framed: string, buffer: string, delivered: seq<Event>, i: nat)
    requires Conserved(received, framed, "", buffer, delivered) && FrameEnd(buffer) == i
    ensures Conserved(received, framed + buffer[..i + 2], "", buffer[i + 2..], delivered + Heard(buffer[..i]))
  {
    hide Parse, Index;
    var taken := buffer[..i + 2];
    assert framed + "" + buffer == (framed + taken) + "" + buffer[i + 2..] by {
      assert buffer == taken + buffer[i + 2..];
    }
    TakenEvents(framed, buffer, i);
    assert Heard("") == [] by { SilentFrame(); }
  }

  lemma TakenEvents(framed: string, buffer: string, i: nat)
    requires Tail(framed) == "" && FrameEnd(buffer) == i
    ensures Complete(framed + buffer[..i + 2]) == Complete(framed) + Heard(buffer[..i])
    ensures Tail(framed + buffer[..i + 2]) == ""
  {
    hide Parse, Index;
    var taken := buffer[..i + 2];
    assert "" + taken == taken;
    Extend(framed, taken);
    OneFrame(buffer, i);
  }

  lemma OneFrame(buffer: string, i: nat)
    requires FrameEnd(buffer) == i
    ensures Complete(buffer[..i + 2]) == Heard(buffer[..i]) && Tail(buffer[..i + 2]) == ""
  {
    hide Parse, Index;
    var taken := buffer[..i + 2];
    NoEarlierFrame(buffer, i);
    assert taken[i..i + 2] == buffer[i..i + 2];
    forall j | 0 <= j < i ensures !OccursAt(taken, SEP, j) {
      assert taken[j..j + 2] == buffer[j..j + 2];
      assert !OccursAt(buffer, SEP, j);
    }
    IndexIs(taken, SEP, i);
    assert taken[..i] == buffer[..i] && taken[i + 2..] == "";
  }

  lemma ReadConserves(received: string, framed: string, buffer: string, delivered: seq<Event>, d: string)
    requires Conserved(received, framed, "", buffer, delivered)
    ensures Conserved(received + d, framed, "", buffer + d, delivered)
  {
    hide Parse, Index;
    assert framed + "" + buffer + d == framed + "" + (buffer + d);
  }

  lemma FinalConserves(received: string, framed: string, buffer: string, delivered: seq<Event>)
    requires Conserved(received, framed, "", buffer, delivered)
    ensures Conserved(received, framed, buffer, "", delivered + Heard(buffer))
  {
    hide Parse, Index;
    SilentFrame();
    assert framed + "" + buffer == framed + buffer + "";
  }

  lemma NoEarlierFrame(s: string, i: nat)
    requires FrameEnd(s) == i
    ensures FrameEnd(s[..i]) < 0
  {
    var k := FrameEnd(s[..i]);
    if k >= 0 {
      assert s[..i][k..k + 2] == s[k..k + 2];
      assert OccursAt(s, SEP, k);
    }
  }

  lemma SilentFrame()
    ensures Parse("") == None
  {
    LinesOfOne("");
    assert [""][..0] == [];
    assert Name([""]) == Name([]);
  }

  // ------------------------------------------------------------- the decoder

  class ExecStream {
    const script: seq<Turn>      // what the context and the body will do
    var turns: nat               // how much of it has happened
    var closed: bool             // the body has been closed
    var buffer: string
    var event: Event
    var err: Option<string>
    var done: bool

    ghost var framed: string           // whole frames taken out of the buffer
    ghost var final: string            // the unterminated final frame, once taken
    ghost var delivered: seq<Event>    // events handed out so far
    ghost var eof: nat                 // the turn at which `done` was set
    ghost var failure: nat             // the turn at which `err` was set

    ghost predicate Valid()
      reads this
    {
      && Conserved(Read(script, turns), framed, final, buffer, delivered)
      && (final != "" ==> done && buffer == "")
      && (done ==> eof < turns && EndsAt(script, eof))
      && Explained(script, turns, err, failure)
    }

    ghost function Pending(): seq<Event>
      reads this
    {
      if err.Some? then [] else Resume(done, buffer, script, turns)
    }

    /** What will be pending once Next has first said no. */
    ghost function Afterwards(): seq<Event>
      reads this
    {
      if err.Some? then [] else LeftoverOnResume(done, buffer, script, turns)
    }

    constructor (script: seq<Turn>)
      ensures Valid() && Pending() == Future(false, "", script, 0)
      ensures Afterwards() == Leftover(false, "", script, 0)
      ensures this.script == script && turns == 0 && delivered == []
      ensures err.None? && !done && !closed && buffer == ""
    {
      this.script, turns, closed := script, 0, false;
      buffer, event, err, done := "", Event("", ""), None, false;
      framed, final, delivered, eof, failure := "", "", [], 0, 0;
      SilentFrame();
    }

    /** Takes the leftmost frame off the buffer. */
    method TakeFrame(i: nat) returns (e: Event, ok: bool)
      requires Valid() && final == "" && FrameEnd(buffer) == i
      modifies this`buffer, this`framed, this`delivered
      ensures Valid()
      ensures buffer == old(buffer)[i + 2..]
      ensures delivered == old(delivered) + Heard(old(buffer)[..i])
      ensures Parse(old(buffer)[..i]) == if ok then Some(e) else None
    {
      hide Parse, Index;
      TakeConserves(Read(script, turns), framed, buffer, delivered, i);
      var frame := buffer[..i];
      framed := framed + buffer[..i + 2];
      buffer := buffer[i + 2..];
      e, ok := ParseSSE(frame);
      delivered := delivered + Heard(frame);
    }

    /** Takes the whole buffer as the final frame, if it says anything. */
    method TakeFinal() returns (ok: bool)
      requires Valid() && final == "" && done
      modifies this`buffer, this`final, this`delivered, this`event
      ensures Valid()
      ensures ok == Parse(old(buffer)).Some?
      ensures ok ==> Parse(old(buffer)) == Some(event) && buffer == ""
      ensures delivered == old(delivered) + Heard(old(buffer))
      ensures !ok ==> buffer == old(buffer) && final == ""
    {
      hide Parse, Index;
      var e;
      e, ok := ParseSSE(buffer);
      if ok {
        FinalConserves(Read(script, turns), framed, buffer, delivered);
        final, delivered := buffer, delivered + Heard(buffer);
        buffer := "";
        event := e;
      }
    }

    /** The EOF branch: one more frame, or else the whole buffer as one frame. */
    method Finish() returns (more: bool)
      requires Valid() && err.None? && final == "" && done
      modifies this`buffer, this`event, this`closed, this`framed, this`final, this`delivered
      ensures Valid()
      ensures more ==> old(AtEof(buffer, script, turns)) == [event] + Pending() && delivered == old(delivered) + [event]
      ensures !more ==> old(AtEof(buffer, script, turns)) == [] && delivered == old(delivered)
      ensures closed == (old(closed) || !more)
      ensures old(FrameEnd(buffer)) < 0 && !more ==> Quiet(buffer)
      ensures old(LeftoverAtEof(buffer, script, turns)) == if more then Afterwards() else Pending()
    {
      hide Parse, Index, Conserved, Resume, LeftoverOnResume, Explained;
      NothingToResume(script, turns);
      var index := Index(buffer, SEP);
      if index >= 0 {
        var e, ok := TakeFrame(index);
        if ok {
          event := e;
          return true;
        }
      }
      more := TakeFinal();
      closed := closed || !more;
    }

    /** One turn of the read loop, on a buffer without a whole frame. */
    method Turn() returns (more: bool, again: bool)
      requires Valid() && err.None? && final == "" && FrameEnd(buffer) < 0
      modifies this
      ensures Valid() && turns == old(turns) + 1
      ensures again ==> err.None? && final == "" && closed == old(closed) && !more && turns <= |script|
      ensures again ==> Future(done, buffer, script, turns) == old(Future(done, buffer, script, turns))
      ensures !again && more ==> old(Future(done, buffer, script, turns)) == [event] + Pending() && err.None?
      ensures !again && !more ==> old(Future(done, buffer, script, turns)) == []
      ensures delivered == old(delivered) + if more then [event] else []
      ensures !again ==> closed == (old(closed) || !more)
      ensures old(done) ==> done
      ensures !again && !more ==> err.Some? || (done && (DataAt(script, turns - 1) == "" ==> Quiet(buffer)))
      ensures old(Leftover(done, buffer, script, turns)) ==
                if again then Leftover(done, buffer, script, turns) else if more then Afterwards() else Pending()
    {
      hide Parse, Index, Conserved, Future, AtEof, Leftover, LeftoverAtEof, Explained;
      OneMoreTurn(script, turns, failure);
      var turn := TurnAt(script, turns);
      ReadConserves(Read(script, turns), framed, buffer, delivered, DataAt(script, turns));
      turns := turns + 1;
      if turn.Cancelled? {
        assert buffer + "" == buffer;
        CancelledTurn(done, buffer, script, turns - 1);
        LeftoverTurn(done, buffer, script, turns - 1);
        err, failure := Some(turn.reason), turns - 1;
        closed := true;
        return false, false;
      }
      FirstTurn(done, buffer, script, turns - 1);
      LeftoverTurn(done, buffer, script, turns - 1);
      assert turn.data == "" ==> buffer + turn.data == buffer;
      buffer := buffer + turn.data;
      if turn.ending.More? {
        return false, true;
      }
      if turn.ending.Fail? {
        err, failure := Some(turn.ending.reason), turns - 1;
        closed := true;
        return false, false;
      }
      done, eof := true, turns - 1;
      more := Finish();
      again := false;
    }

    method Next() returns (more: bool)
      requires Valid()
      modifies this
      ensures Valid()
      // what is handed out is the next event of the decoder's future, and nothing else
      ensures more ==> old(Pending()) == [event] + Pending() && delivered == old(delivered) + [event] && err.None?
      ensures !more ==> old(Pending()) == [] && delivered == old(delivered)
      ensures old(turns) <= turns && (old(done) ==> done)
      ensures old(err).Some? ==> err == old(err)
      ensures closed == (old(closed) || (!more && old(err.None? && (!done || buffer != ""))))
      ensures !more ==> err.Some? || (done && (buffer == "" || (DataAt(script, turns - 1) == "" ==> Quiet(buffer))))
      // what is pending after the first no is fixed from the start
      ensures old(Afterwards()) == if more then Afterwards() else Pending()
    {
      hide Parse, Index, Conserved, Future, Leftover, Explained;
      if err.Some? || (done && buffer == "") {
        return false;
      }
      while true
        invariant Valid() && delivered == old(delivered)
        invariant err.None? && closed == old(closed) && final == ""
        invariant Future(done, buffer, script, turns) == old(Pending())
        invariant Leftover(done, buffer, script, turns) == old(Afterwards())
        invariant old(turns) <= turns && (old(done) ==> done)
        decreases |script| - turns, |buffer|
      {
        var index := Index(buffer, SEP);
        if index >= 0 {
          FirstFrame(done, buffer, script, turns);
          LeftoverFrame(done, buffer, script, turns);
          var e, ok := TakeFrame(index);
          if ok {
            event := e;
            return true;
          }
          continue;
        }
        var again;
        more, again := Turn();
        if !again {
          return;
        }
      }
    }
  }

  /** A buffer from which nothing more will come. */
  predicate Quiet(buffer: string) {
    FrameEnd(buffer) < 0 && Parse(buffer).None?
  }

  predicate EndsAt(script: seq<Turn>, k: nat) {
    var turn := TurnAt(script, k);
    turn.Got? && turn.ending.Eof?
  }

  predicate BreaksAt(script: seq<Turn>, k: nat) {
    var turn := TurnAt(script, k);
    turn.Cancelled? || turn.ending.Fail?
  }

  /** Why turn `k` breaks the stream off. */
  function Reason(script: seq<Turn>, k: nat): string
    requires BreaksAt(script, k)
  {
    var turn := TurnAt(script, k);
    if turn.Cancelled? then turn.reason else turn.ending.reason
  }

  /** None of the first `n` turns breaks the stream off. */
  ghost predicate Unbroken(script: seq<Turn>, n: nat) {
    forall i :: 0 <= i < n ==> !BreaksAt(script, i)
  }

  /** After `turns` turns there is an error exactly if a turn broke the stream off; it was
      the first to do so, and the error is its reason. */
  ghost predicate Explained(script: seq<Turn>, turns: nat, err: Option<string>, failure: nat) {
    match err
    case None => Unbroken(script, turns)
    case Some(reason) => failure < turns && Unbroken(script, failure) && BreaksAt(script, failure) && reason == Reason(script, failure)
  }

  lemma OneMoreTurn(script: seq<Turn>, k: nat, failure: nat)
    requires Explained(script, k, None, failure)
    ensures if BreaksAt(script, k) then Explained(script, k + 1, Some(Reason(script, k)), k) else Explained(script, k + 1, None, failure)
  {
  }

  /** What a whole frame in the buffer does to the events still to come. */
  lemma FirstFrame(done: bool, buffer: string, script: seq<Turn>, k: nat)
    requires FrameEnd(buffer) >= 0
    ensures var frame, rest := buffer[..FrameEnd(buffer)], buffer[FrameEnd(buffer) + 2..];
      Future(done, buffer, script, k) ==
        if Parse(frame).Some? then [Parse(frame).value] + Resume(done, rest, script, k)
        else Future(done, rest, script, k)
  {
    hide Parse, Index;
  }

  /** What one turn does to the events still to come. */
  lemma FirstTurn(done: bool, buffer: string, script: seq<Turn>, k: nat)
    requires FrameEnd(buffer) < 0 && TurnAt(script, k).Got?
    ensures var turn := TurnAt(script, k);
      Future(done, buffer, script, k) ==
        match turn.ending
        case Fail(_) => []
        case More => Future(done, buffer + turn.data, script, k + 1)
        case Eof => AtEof(buffer + turn.data, script, k + 1)
  {
    hide Parse, Index;
    if k >= |script| {
      assert buffer + "" == buffer;
    }
  }

  lemma LeftoverFrame(done: bool, buffer: string, script: seq<Turn>, k: nat)
    requires FrameEnd(buffer) >= 0
    ensures var frame, rest := buffer[..FrameEnd(buffer)], buffer[FrameEnd(buffer) + 2..];
      Leftover(done, buffer, script, k) ==
        if Parse(frame).Some? then LeftoverOnResume(done, rest, script, k) else Leftover(done, rest, script, k)
  {
    hide Parse, Index;
  }

  lemma LeftoverTurn(done: bool, buffer: string, script: seq<Turn>, k: nat)
    requires FrameEnd(buffer) < 0
    ensures var turn := TurnAt(script, k);
      Leftover(done, buffer, script, k) ==
        if turn.Cancelled? || turn.ending.Fail? then []
        else if turn.ending.More? then Leftover(done, buffer + turn.data, script, k + 1)
        else LeftoverAtEof(buffer + turn.data, script, k + 1)
  {
    hide Parse, Index;
    assert buffer + "" == buffer;
  }

  lemma CancelledTurn(done: bool, buffer: string, script: seq<Turn>, k: nat)
    requires FrameEnd(buffer) < 0 && TurnAt(script, k).Cancelled?
    ensures Future(done, buffer, script, k) == []
  {
    hide Parse, Index;
  }

  // ------------------------------------------- agreement with the whole stream

  /** Data, then EOF reported on its own and for good. */
  ghost predicate Tidy(done: bool, script: seq<Turn>, k: nat) {
    && (forall i :: k <= i < |script| ==> script[i].Got? && (script[i].ending.More? || script[i] == Got("", Eof)))
    && (done ==> AllEof(script, k))
    && (forall i :: k <= i < |script| && script[i] == Got("", Eof) ==> AllEof(script, i))
  }

  ghost predicate AllEof(script: seq<Turn>, k: nat) {
    forall i :: k <= i < |script| ==> script[i] == Got("", Eof)
  }

  lemma NothingBreaks(script: seq<Turn>, k: nat)
    requires Tidy(false, script, 0)
    ensures !BreaksAt(script, k)
  {
  }

  /** Once Next has said no to a well-behaved body, it says no for ever. */
  lemma FalseIsFinal(s: ExecStream)
    requires s.Valid() && Tidy(false, s.script, 0)
    requires s.err.Some? || (s.done && (s.buffer == "" || (DataAt(s.script, s.turns - 1) == "" ==> Quiet(s.buffer))))
    ensures s.Pending() == [] && s.err.None?
  {
    NothingBreaks(s.script, s.failure);
    SilentFrame();
    if s.turns - 1 < |s.script| {
      assert AllEof(s.script, s.eof);
    }
    StaysQuiet(s.buffer, s.script, s.turns);
  }

  lemma StaysQuiet(buffer: string, script: seq<Turn>, k: nat)
    requires Quiet(buffer) && AllEof(script, k)
    ensures Future(true, buffer, script, k) == []
  {
    FirstTurn(true, buffer, script, k);
    assert buffer + "" == buffer;
  }

  lemma {:induction false} EofBytes(script: seq<Turn>, k: nat)
    requires AllEof(script, k)
    ensures Unread(script, k) == ""
    decreases |script| - k
  {
    if k < |script| {
      EofBytes(script, k + 1);
    }
  }

  /** Every way of cutting the same bytes into reads gives the events of the bytes. */
  lemma {:induction false} CuttingDoesNotMatter(done: bool, buffer: string, script: seq<Turn>, k: nat)
    requires Tidy(done, script, k)
    ensures Future(done, buffer, script, k) == Events(buffer + Unread(script, k))
    decreases |script| - k, |buffer|
  {
    hide Parse, Index;
    var i := FrameEnd(buffer);
    if i >= 0 {
      var rest := buffer[i + 2..];
      CuttingDoesNotMatter(done, rest, script, k);
      FrameFirst(buffer, Unread(script, k));
      if done && rest == "" {
        EofBytes(script, k);
        SilentFrame();
      }
    } else if k >= |script| || script[k] == Got("", Eof) {
      EofBytes(script, k);
      FirstTurn(done, buffer, script, k);
      assert buffer + "" == buffer;
    } else {
      var d := script[k].data;
      CuttingDoesNotMatter(done, buffer + d, script, k + 1);
      assert buffer + d + Unread(script, k + 1) == buffer + Unread(script, k);
    }
  }

  lemma FrameFirst(buffer: string, later: string)
    requires FrameEnd(buffer) >= 0
    ensures var i := FrameEnd(buffer);
      Events(buffer + later) == Heard(buffer[..i]) + Events(buffer[i + 2..] + later)
  {
    hide Parse, Index;
    var i := FrameEnd(buffer);
    IndexStable(buffer, later, SEP);
    assert (buffer + later)[..i] == buffer[..i];
    assert (buffer + later)[i + 2..] == buffer[i + 2..] + later;
    EventsStep(buffer + later);
  }

  /** Calling Next until it says no, as a caller does. */
  method Drain(s: ExecStream) returns (events: seq<Event>)
    requires s.Valid()
    modifies s
    ensures s.Valid()
    ensures events == old(s.Pending()) && s.Pending() == old(s.Afterwards())
    ensures s.err.Some? || s.done
  {
    hide Parse, Index, Conserved, Resume, LeftoverOnResume;
    events := [];
    var more := s.Next();
    while more
      invariant s.Valid()
      invariant old(s.Pending()) == events + (if more then [s.event] + s.Pending() else [])
      invariant old(s.Afterwards()) == if more then s.Afterwards() else s.Pending()
      invariant !more ==> s.err.Some? || s.done
      decreases more, |s.Pending()|
    {
      Assoc(events, [s.event], s.Pending());
      events := events + [s.event];
      more := s.Next();
    }
  }

  /** All the events of a script, and how it ended: an error is the reason of a turn that
      breaks the stream off, and a stream that breaks off always reports one. */
  method Collect(script: seq<Turn>) returns (events: seq<Event>, err: Option<string>)
    ensures events == Future(false, "", script, 0)
    ensures Tidy(false, script, 0) ==> events == Events(Unread(script, 0)) && err.None?
    ensures err.Some? ==> exists n: nat :: BreaksAt(script, n) && err.value == Reason(script, n)
    ensures forall n: nat :: BreaksOff(script, n) ==> events == Complete(Read(script, n)) && err == Some(Reason(script, n))
  {
    hide Parse, Index, Conserved, Future, Events, Tidy;
    var s := new ExecStream(script);
    events := Drain(s);
    err := s.err;
    if Tidy(false, script, 0) {
      assert !BreaksAt(script, s.failure) || err.None? by { NothingBreaks(script, s.failure); }
      CuttingDoesNotMatter(false, "", script, 0);
      assert "" + Unread(script, 0) == Unread(script, 0);
    }
    forall n: nat | BreaksOff(script, n) ensures events == Complete(Read(script, n)) && err == Some(Reason(script, n)) {
      BrokenStream(script, n);
      FirstBreak(s, n);
    }
  }

  /** A decoder that has come to an end of a stream that breaks off says where it broke. */
  lemma FirstBreak(s: ExecStream, n: nat)
    requires s.Valid() && (s.err.Some? || s.done) && BreaksOff(s.script, n)
    ensures s.err == Some(Reason(s.script, n))
  {
    hide Conserved;
    assert BreaksAt(s.script, n);
  }

  /** A caller that goes on asking after the first no gets exactly what is left. */
  method CollectTwice(script: seq<Turn>) returns (events: seq<Event>, more: seq<Event>)
    ensures events == Future(false, "", script, 0)
    ensures more == Leftover(false, "", script, 0)
  {
    hide Parse, Index, Conserved, Future, Leftover;
    var s := new ExecStream(script);
    events := Drain(s);
    more := Drain(s);
  }

  /** For a well-behaved body nothing is left: the first no is final. */
  lemma {:induction false} TidyFalseIsFinal(done: bool, buffer: string, script: seq<Turn>, k: nat)
    requires Tidy(done, script, k)
    ensures Leftover(done, buffer, script, k) == []
    decreases |script| - k, |buffer|
  {
    hide Parse, Index, Future;
    var i := FrameEnd(buffer);
    if i >= 0 {
      TidyFalseIsFinal(done, buffer[i + 2..], script, k);
    } else {
      LeftoverTurn(done, buffer, script, k);
      var turn := TurnAt(script, k);
      assert buffer + "" == buffer;
      if turn.ending.More? {
        TidyFalseIsFinal(done, buffer + turn.data, script, k + 1);
      } else if Quiet(buffer) {
        StaysQuiet(buffer, script, k + 1);
      }
    }
  }

  /** Send frames in any wording, cut the bytes anywhere, decode: the events meant come
      back, in order, and nothing else. */
  lemma RoundTrip(frames: seq<seq<Piece>>, script: seq<Turn>)
    requires forall ps :: ps in frames ==> Sendable(ps)
    requires Tidy(false, script, 0) && Unread(script, 0) == Sent(frames)
    ensures Future(false, "", script, 0) == AllIntended(frames)
  {
    hide Future, Events, Sent;
    CuttingDoesNotMatter(false, "", script, 0);
    SentIsUnderstood(frames);
    assert "" + Sent(frames) == Sent(frames);
  }

  /** Bytes read and bytes to come always make up the same stream. */
  lemma {:induction false} ReadThenUnread(script: seq<Turn>, k: nat)
    ensures Read(script, k) + Unread(script, k) == Unread(script, 0)
  {
    if k == 0 {
      assert Read(script, 0) == "";
    } else {
      ReadThenUnread(script, k - 1);
      var read, d := Read(script, k - 1), DataAt(script, k - 1);
      assert Unread(script, k - 1) == d + Unread(script, k);
      assert Read(script, k) == read + d;
      Assoc(read, d, Unread(script, k));
    }
  }

  /** At every moment the bytes taken, the bytes buffered and the bytes to come are the
      whole stream. */
  lemma WholeStream(s: ExecStream)
    requires s.Valid()
    ensures s.framed + s.final + s.buffer + Unread(s.script, s.turns) == Unread(s.script, 0)
    ensures s.delivered == Complete(s.framed) + Heard(s.final)
  {
    ReadThenUnread(s.script, s.turns);
  }

  // ---------------------------------------------------- streams that break off

  /** Only data before turn `n`, which finds the context ended or fails. */
  ghost predicate BreaksOff(script: seq<Turn>, n: nat) {
    && (forall i :: 0 <= i < n && i < |script| ==> script[i].Got? && script[i].ending.More?)
    && n < |script| && BreaksAt(script, n)
  }

  lemma {:induction false} BreaksOffFrom(script: seq<Turn>, n: nat, k: nat)
    requires BreaksOff(script, n) && k <= n
    ensures Complete(Read(script, k)) + Future(false, Tail(Read(script, k)), script, k) == Complete(Read(script, n))
    decreases n - k
  {
    hide Parse, Index, Future, Complete;
    var tail := Tail(Read(script, k));
    if k == n {
      BrokenTurn(tail, script, n);
    } else {
      var d := script[k].data;
      FirstTurn(false, tail, script, k);
      Extend(Read(script, k), d);
      assert Read(script, k + 1) == Read(script, k) + d;
      BreaksOffFrom(script, n, k + 1);
      FramesFirst(tail + d, script, k + 1);
      Assoc(Complete(Read(script, k)), Complete(tail + d), Future(false, Tail(tail + d), script, k + 1));
    }
  }

  lemma BrokenTurn(tail: string, script: seq<Turn>, n: nat)
    requires FrameEnd(tail) < 0 && n < |script| && BreaksAt(script, n)
    ensures Future(false, tail, script, n) == []
  {
    hide Parse, Index;
    if script[n].Cancelled? {
      CancelledTurn(false, tail, script, n);
    } else {
      FirstTurn(false, tail, script, n);
    }
  }

  /** The whole frames of the buffer are served first, then its tail. */
  lemma {:induction false} FramesFirst(buffer: string, script: seq<Turn>, k: nat)
    ensures Future(false, buffer, script, k) == Complete(buffer) + Future(false, Tail(buffer), script, k)
    decreases |buffer|
  {
    hide Parse, Index, Future;
    if FrameEnd(buffer) >= 0 {
      var i := FrameEnd(buffer);
      FirstFrame(false, buffer, script, k);
      FramesFirst(buffer[i + 2..], script, k);
      Assoc(Heard(buffer[..i]), Complete(buffer[i + 2..]), Future(false, Tail(buffer), script, k));
    }
  }

  /** A stream that breaks off yields the events of the frames completed by the turns
      before. Frames that the failing read itself completes are lost, so nothing that was
      received whole is missing exactly when that read completes no named frame. */
  lemma BrokenStream(script: seq<Turn>, n: nat)
    requires BreaksOff(script, n)
    ensures Future(false, "", script, 0) == Complete(Read(script, n))
    ensures Future(false, "", script, 0) == Complete(Read(script, n + 1)) <==>
      Complete(Tail(Read(script, n)) + DataAt(script, n)) == []
  {
    hide Parse, Index, Future;
    assert Tail("") == "" && Complete("") == [] by { assert FrameEnd("") < 0; }
    BreaksOffFrom(script, n, 0);
    assert [] + Future(false, "", script, 0) == Future(false, "", script, 0);
    Extend(Read(script, n), DataAt(script, n));
  }

  /** Whole messages that the failing read completes are lost, however much came before. */
  lemma FailingReadLosesMessages(script: seq<Turn>, n: nat, ms: seq<Message>)
    requires BreaksOff(script, n) && forall m :: m in ms ==> Printable(m)
    requires Tail(Read(script, n)) + DataAt(script, n) == Print(ms)
    ensures Complete(Read(script, n + 1)) == Future(false, "", script, 0) + Meanings(ms)
  {
    hide Parse, Index, Future, Complete, Tail, Print, Meanings;
    BrokenStream(script, n);
    Extend(Read(script, n), DataAt(script, n));
    PrintedIsUnderstood(ms);
  }

  /** For instance a single read that brings every message together with an error. */
  lemma LostWithTheError(ms: seq<Message>, reason: string)
    requires ms != [] && forall m :: m in ms ==> Printable(m)
    ensures var script := [Got(Print(ms), Fail(reason))];
      && BreaksOff(script, 0) && Future(false, "", script, 0) == []
      && Complete(Read(script, 1)) == Meanings(ms) != []
  {
    hide Parse, Index, Future, Print;
    var script := [Got(Print(ms), Fail(reason))];
    assert Tail("") == "" && Complete("") == [] by { assert FrameEnd("") < 0; }
    assert "" + Print(ms) == Print(ms);
    BrokenStream(script, 0);
    FailingReadLosesMessages(script, 0, ms);
  }
}
