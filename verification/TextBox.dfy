/**
 `TTTextBox` and `TTTextBoxHandler` (textbox/src/): from the lines a user types to the
 callbacks of the engine.
 */
module TextBox {
  import opened Common
  import Words

  const DATA_MAX_LENGTH: nat := 2048
  const DATA_MAX_DIGITS: nat := 4
  const SIZE_OF_ID: nat := 8
  const RECEIVE_TRY_COUNT: nat := 3

  datatype Message = Undefined | Heartbeat | SelectContact(bytes: seq<nat>) | Text(data: string) | Goodbye

  // ------------------------------------------------------------------ identities

  /** The bytes of a `size_t`, least significant first. */
  function ToBytes(id: nat, n: nat): (bytes: seq<nat>)
    ensures |bytes| == n
  {
    if n == 0 then [] else [id % 256] + ToBytes(id / 256, n - 1)
  }

  function FromBytes(bytes: seq<nat>): nat
  {
    if bytes == [] then 0 else bytes[0] + 256 * FromBytes(bytes[1..])
  }

  function Range(n: nat): nat
  {
    if n == 0 then 1 else 256 * Range(n - 1)
  }

  lemma {:induction false} BytesRoundTrip(id: nat, n: nat)
    requires id < Range(n)
    ensures FromBytes(ToBytes(id, n)) == id
    decreases n
  {
    if n > 0 {
      BytesRoundTrip(id / 256, n - 1);
      assert ToBytes(id, n)[1..] == ToBytes(id / 256, n - 1);
    }
  }

  predicate IsDigit(c: char)
  {
    '0' <= c <= '9'
  }

  predicate AllDigits(s: string)
  {
    forall i :: 0 <= i < |s| ==> IsDigit(s[i])
  }

  /** The decimal value of a numeral. */
  function Value(s: string): nat
    requires AllDigits(s)
  {
    if s == "" then 0 else 10 * Value(s[..|s| - 1]) + (s[|s| - 1] as int - '0' as int)
  }

  function Ten(n: nat): nat
  {
    if n == 0 then 1 else 10 * Ten(n - 1)
  }

  lemma {:induction false} ValueIsBounded(s: string)
    requires AllDigits(s)
    ensures Value(s) < Ten(|s|)
  {
    if s != "" { ValueIsBounded(s[..|s| - 1]); }
  }

  // -------------------------------------------------------------------- parsing

  /** The pieces `getline` yields: as a split, but a final delimiter opens no further piece. */
  function Args(s: string): (args: seq<string>)
    decreases |s|
  {
    if s == "" then []
    else
      var p := Words.Find(s, 0);
      if p == |s| then [s] else [s[..p]] + Args(s[p + 1..])
  }

  /** A text cut into pieces that fit a message; nothing is queued for an empty one. */
  function TextPieces(s: string): (pieces: seq<Message>)
    decreases |s|
  {
    if s == "" then []
    else if |s| <= DATA_MAX_LENGTH then [Text(s)]
    else [Text(s[..DATA_MAX_LENGTH])] + TextPieces(s[DATA_MAX_LENGTH..])
  }

  lemma FirstPiece(s: string)
    requires |s| >= DATA_MAX_LENGTH
    ensures TextPieces(s) == [Text(s[..DATA_MAX_LENGTH])] + TextPieces(s[DATA_MAX_LENGTH..])
  {
    if |s| == DATA_MAX_LENGTH {
      assert s[..DATA_MAX_LENGTH] == s && s[DATA_MAX_LENGTH..] == "";
    }
  }

  /** What one line does: the verdict of the parser, the messages queued, and whether to quit. */
  datatype Effect = Effect(ok: bool, queued: seq<Message>, quit: bool)

  const REFUSED := Effect(false, [], false)

  /** `execute` reads a second argument of `select` without asking whether there is one. */
  predicate Executable(args: seq<string>)
  {
    args != ["select"]
  }

  function Execute(args: seq<string>): Effect
    requires Executable(args)
  {
    if args == [] then REFUSED
    else if args[0] == "help" then (if |args| > 1 then REFUSED else Effect(true, [], false))
    else if args[0] == "quit" then (if |args| > 1 then REFUSED else Effect(true, [], true))
    else if args[0] == "select" then
      if |args| > 2 || !AllDigits(args[1]) || |args[1]| > DATA_MAX_DIGITS || args[1] == "" then REFUSED
      else Effect(true, [SelectContact(ToBytes(Value(args[1]), SIZE_OF_ID))], false)
    else REFUSED
  }

  /** A select with one numeral of at most four digits. */
  predicate IsSelection(args: seq<string>)
  {
    |args| == 2 && args[0] == "select" && 1 <= |args[1]| <= 4 && AllDigits(args[1])
  }

  /** Exactly three commands are accepted; only `quit` quits, and only a selection queues anything. */
  lemma ExecuteExactly(args: seq<string>)
    requires Executable(args)
    ensures var e := Execute(args);
            && (e.ok <==> args == ["help"] || args == ["quit"] || IsSelection(args))
            && (e.quit <==> args == ["quit"])
            && (e.queued != [] <==> IsSelection(args))
            && (IsSelection(args) ==> |e.queued| == 1 && CallbackOf(e.queued[0]) == [ContactSelect(Value(args[1]))])
  {
    if |args| == 1 {
      assert args == [args[0]];
    }
    if IsSelection(args) {
      ValueIsBounded(args[1]);
      FourDigits(|args[1]|);
      EightBytes();
      BytesRoundTrip(Value(args[1]), SIZE_OF_ID);
    }
  }

  predicate Parsable(line: string)
  {
    line != "" && line[0] == '#' ==> Executable(Args(line[1..]))
  }

  function Parse(line: string): Effect
    requires Parsable(line)
  {
    if line == "" then REFUSED
    else if line[0] == '#' then Execute(Args(line[1..]))
    else Effect(true, TextPieces(line), false)
  }

  /** An empty line is refused, a command does what it says, and any other line is sent as it is. */
  lemma ParseExactly(line: string)
    requires Parsable(line)
    ensures var e := Parse(line);
            && (line == "" ==> !e.ok && e.queued == [] && !e.quit)
            && (line != "" && line[0] == '#' ==>
                  var args := Args(line[1..]);
                  && (e.ok <==> args == ["help"] || args == ["quit"] || IsSelection(args))
                  && (e.quit <==> args == ["quit"]))
            && (line != "" && line[0] != '#' ==> e.ok && !e.quit && TextOf(e.queued) == line)
  {
    if line != "" && line[0] == '#' { ExecuteExactly(Args(line[1..])); }
    if line != "" && line[0] != '#' { TextPiecesHoldTheText(line); }
  }

  /** The only lines whose second argument is missing. */
  lemma ParsableExactly(line: string)
    ensures Parsable(line) <==> line != "#select" && line != "#select "
  {
    if line != "" && line[0] == '#' {
      var s := line[1..];
      assert line == ['#'] + s;
      ArgsOfSelect(s);
    }
  }

  lemma ArgsStep(s: string, p: nat)
    requires s != "" && p == Words.Find(s, 0)
    ensures Args(s) == if p == |s| then [s] else [s[..p]] + Args(s[p + 1..])
  {
    var q := Words.Find(s, 0);
    assert Args(s) == if q == |s| then [s] else [s[..q]] + Args(s[q + 1..]);
  }

  lemma ArgsOfSelect(s: string)
    ensures Args(s) == ["select"] <==> s == "select" || s == "select "
  {
    if s == "select" || s == "select " {
      assert s[..6] == "select";
      Words.FirstSpace(s, 0, 6);
      ArgsStep(s, 6);
      if s == "select " { assert s[7..] == ""; }
    } else if s != "" {
      OtherArgs(s, Words.Find(s, 0));
    }
  }

  lemma OtherArgs(s: string, p: nat)
    requires s != "" && s != "select" && s != "select " && p == Words.Find(s, 0)
    ensures Args(s) != ["select"]
  {
    ArgsStep(s, p);
    if p < |s| {
      SomeArgs(s[p + 1..]);
      NotSelect(s, p, Args(s[p + 1..]));
    }
  }

  lemma NotSelect(s: string, p: nat, rest: seq<string>)
    requires p < |s| && s[p] == ' ' && s != "select " && (rest == [] ==> s[p + 1..] == "")
    ensures [s[..p]] + rest != ["select"]
  {
    assert ([s[..p]] + rest)[0] == s[..p];
    assert s == s[..p] + [s[p]] + s[p + 1..];
    assert rest != [] ==> |[s[..p]] + rest| > 1;
  }

  lemma SomeArgs(s: string)
    ensures Args(s) == [] <==> s == ""
  {
  }

  lemma SelectArgs(numeral: string)
    requires AllDigits(numeral) && numeral != ""
    ensures Args("select " + numeral) == ["select", numeral]
  {
    var s := "select " + numeral;
    assert s[..6] == "select" && s[6] == ' ' && s[7..] == numeral;
    Words.FirstSpace(s, 0, 6);
    ArgsStep(s, 6);
    assert numeral[..|numeral|] == numeral;
    forall i | 0 <= i < |numeral| ensures numeral[i] != ' ' { assert IsDigit(numeral[i]); }
    Words.FirstSpace(numeral, 0, |numeral|);
    ArgsStep(numeral, |numeral|);
  }

  /** `#select` with any numeral of one to four digits queues exactly its value. */
  lemma SelectNumeral(numeral: string)
    requires AllDigits(numeral) && 1 <= |numeral| <= DATA_MAX_DIGITS
    ensures var line := "#select " + numeral;
            && Parsable(line)
            && Parse(line) == Effect(true, [SelectContact(ToBytes(Value(numeral), SIZE_OF_ID))], false)
            && CallbackOf(Parse(line).queued[0]) == [ContactSelect(Value(numeral))]
  {
    var line := "#select " + numeral;
    assert line[1..] == "select " + numeral;
    SelectArgs(numeral);
    ValueIsBounded(numeral);
    FourDigits(|numeral|);
    EightBytes();
    BytesRoundTrip(Value(numeral), SIZE_OF_ID);
  }

  lemma FourDigits(n: nat)
    requires n <= 4
    ensures Ten(n) <= 10000
  {
    assert Ten(1) == 10;
    assert Ten(2) == 100;
    assert Ten(3) == 1000;
    assert Ten(4) == 10000;
  }

  lemma EightBytes()
    ensures Range(SIZE_OF_ID) >= 10000
  {
    assert Range(2) == 65536;
    assert Range(4) >= Range(2);
    assert Range(6) >= Range(4);
    assert Range(8) >= Range(6);
  }

  // ------------------------------------------------------------------- contents

  /** The text carried by a list of messages. */
  function TextOf(messages: seq<Message>): string
  {
    if messages == [] then "" else (if messages[0].Text? then messages[0].data else "") + TextOf(messages[1..])
  }

  lemma {:induction false} TextOfConcat(a: seq<Message>, b: seq<Message>)
    ensures TextOf(a + b) == TextOf(a) + TextOf(b)
  {
    if a == [] {
      assert a + b == b;
    } else {
      assert (a + b)[1..] == a[1..] + b;
      TextOfConcat(a[1..], b);
    }
  }

  /** The pieces are non-empty, fit a message and hold the text. */
  lemma {:induction false} TextPiecesHoldTheText(s: string)
    ensures TextOf(TextPieces(s)) == s
    ensures forall i :: 0 <= i < |TextPieces(s)| ==>
              TextPieces(s)[i].Text? && 1 <= |TextPieces(s)[i].data| <= DATA_MAX_LENGTH
    decreases |s|
  {
    if s == "" {
    } else if |s| <= DATA_MAX_LENGTH {
      assert TextPieces(s)[1..] == [];
    } else {
      var rest := s[DATA_MAX_LENGTH..];
      TextPiecesHoldTheText(rest);
      assert TextPieces(s)[1..] == TextPieces(rest);
      assert s == s[..DATA_MAX_LENGTH] + rest;
    }
  }

  /** What a line is meant to say to the contact. */
  function Said(line: string): string
  {
    if line != "" && line[0] == '#' then "" else line
  }

  function SaidAll(lines: seq<string>): string
  {
    if lines == [] then "" else SaidAll(lines[..|lines| - 1]) + Said(lines[|lines| - 1])
  }

  lemma ParseKeepsText(line: string)
    requires Parsable(line)
    ensures TextOf(Parse(line).queued) == Said(line)
    ensures AllPayload(Parse(line).queued)
  {
    TextPiecesHoldTheText(line);
    if Parse(line).queued != [] && line[0] == '#' {
      assert Parse(line).queued[1..] == [];
    }
  }

  // --------------------------------------------------------------------- system

  datatype Callback = MessageSent(text: string) | ContactSelect(id: nat)

  function CallbackOf(m: Message): seq<Callback>
  {
    match m
    case SelectContact(bytes) => [ContactSelect(FromBytes(bytes))]
    case Text(data) => [MessageSent(data)]
    case _ => []
  }

  function Ends(m: Message): bool
  {
    m == Goodbye || m == Undefined
  }

  /**
   Both processes and the pipe. `typed` are the lines typed, `queued` all messages ever queued,
   `written` all messages ever written to the pipe, `read` how many the handler has read,
   `tries` the loop counter of the handler, `outcomes` what its calls of `receive` gave.
   */
  datatype System = System(
    typed: seq<string>, queued: seq<Message>, queue: seq<Message>, inHand: seq<Message>,
    boxStopped: bool, boxDone: bool, written: seq<Message>,
    read: nat, tries: nat, handlerDone: bool, callbacks: seq<Callback>,
    handlerStopped: bool, outcomes: seq<Option<Message>>)

  const START := System([], [], [], [], false, false, [], 0, RECEIVE_TRY_COUNT, false, [], false, [])

  datatype Action =
    | TypeLine(line: string)
    | Leave                   // main: the loop condition finds the box stopped
    | Take                    // main: swap the queue; a heartbeat when it is empty
    | Write(success: bool)    // main: the next message, or the way out
    | StopBox
    | Read(success: bool)     // handler: one round of its loop
    | StopHandler

  function TypeStep(s: System, line: string): System
    requires Parsable(line)
  {
    var e := Parse(line);
    s.(typed := s.typed + [line], queued := s.queued + e.queued, queue := s.queue + e.queued,
       boxStopped := s.boxStopped || e.quit)
  }

  function LeaveStep(s: System): System
  {
    if s.boxDone || s.inHand != [] || !s.boxStopped then s
    else s.(boxDone := true, written := s.written + [Goodbye])
  }

  function TakeStep(s: System): System
  {
    if s.boxDone || s.inHand != [] then s
    else if s.queue == [] then s.(inHand := [Heartbeat])
    else s.(inHand := s.queue, queue := [])
  }

  /** A failed write throws; either way out writes a goodbye, which may or may not arrive. */
  function WriteStep(s: System, success: bool): System
  {
    if s.boxDone || s.inHand == [] then s
    else if s.boxStopped then s.(boxDone := true, inHand := [], written := s.written + [Goodbye])
    else if !success then s.(boxDone := true, boxStopped := true, inHand := [], written := s.written + [Goodbye])
    else s.(inHand := s.inHand[1..], written := s.written + [s.inHand[0]])
  }

  /** One round of the handler's loop: a failure costs a try, a message restores all of them. */
  function ReadStep(s: System, success: bool): System
  {
    if s.handlerDone || (success && s.read >= |s.written|) then s
    else if !success then
      var left := if s.tries > 0 then s.tries - 1 else 0;
      s.(tries := left, handlerDone := left == 0, outcomes := s.outcomes + [None])
    else
      var m := s.written[s.read];
      s.(read := s.read + 1, tries := if Ends(m) then s.tries else RECEIVE_TRY_COUNT,
         handlerDone := Ends(m), callbacks := s.callbacks + CallbackOf(m), outcomes := s.outcomes + [Some(m)])
  }

  function Step(s: System, a: Action): System
    requires a.TypeLine? ==> Parsable(a.line)
  {
    match a
    case TypeLine(line) => TypeStep(s, line)
    case Leave => LeaveStep(s)
    case Take => TakeStep(s)
    case Write(success) => WriteStep(s, success)
    case StopBox => s.(boxStopped := true)
    case Read(success) => ReadStep(s, success)
    case StopHandler => if s.handlerDone then s else s.(handlerDone := true, handlerStopped := true)
  }

  /** A run: the actions so far, the latest one outermost. */
  datatype History = Beginning | After(before: History, last: Action)

  predicate Allowed(h: History)
  {
    h.After? ==> Allowed(h.before) && (h.last.TypeLine? ==> Parsable(h.last.line))
  }

  function Run(h: History): System
    requires Allowed(h)
  {
    if h.Beginning? then START else Step(Run(h.before), h.last)
  }

  // ------------------------------------------------------------------- invariant

  predicate Payload(m: Message)
  {
    m.Text? || m.SelectContact?
  }

  /** The messages that came from lines. */
  function PayloadsOf(messages: seq<Message>): seq<Message>
  {
    if messages == [] then []
    else PayloadsOf(messages[..|messages| - 1])
         + if Payload(messages[|messages| - 1]) then [messages[|messages| - 1]] else []
  }

  function CallbacksOf(messages: seq<Message>): seq<Callback>
  {
    if messages == [] then [] else CallbacksOf(messages[..|messages| - 1]) + CallbackOf(messages[|messages| - 1])
  }

  ghost predicate AllPayload(messages: seq<Message>)
  {
    forall i {:trigger Payload(messages[i])} :: 0 <= i < |messages| ==> Payload(messages[i])
  }

  predicate AllParsable(lines: seq<string>)
  {
    forall i {:trigger Parsable(lines[i])} :: 0 <= i < |lines| ==> Parsable(lines[i])
  }

  /** What a list of lines queues, one after the other. */
  function QueuedBy(lines: seq<string>): seq<Message>
    requires AllParsable(lines)
  {
    if lines == [] then []
    else
      var last := |lines| - 1;
      assert Parsable(lines[last]) && forall i :: 0 <= i < last ==> Parsable(lines[i]);
      assert AllParsable(lines[..last]) by {
        forall i | 0 <= i < last ensures Parsable(lines[..last][i]) { assert Parsable(lines[i]); }
      }
      QueuedBy(lines[..last]) + Parse(lines[last]).queued
  }

  /** What was queued is exactly what the lines typed so far queue. */
  ghost predicate TypedInv(s: System)
  {
    AllParsable(s.typed) && s.queued == QueuedBy(s.typed)
  }

  lemma TypeKeepsTyped(s: System, line: string)
    requires TypedInv(s) && Parsable(line)
    ensures TypedInv(TypeStep(s, line))
  {
    var lines := s.typed + [line];
    forall i | 0 <= i < |lines| ensures Parsable(lines[i]) {
      if i < |s.typed| { assert Parsable(s.typed[i]); }
    }
    assert lines[..|s.typed|] == s.typed && lines[|s.typed|] == line;
  }

  ghost predicate BoxInv(s: System)
  {
    && AllPayload(s.queued)
    && TextOf(s.queued) == SaidAll(s.typed)
    && PayloadsOf(s.written) <= s.queued
    && (!s.boxDone ==>
          || PayloadsOf(s.written) + s.inHand + s.queue == s.queued
          || (s.inHand == [Heartbeat] && PayloadsOf(s.written) + s.queue == s.queued))
    && (s.boxDone ==> s.inHand == [])
  }

  ghost predicate HandlerInv(s: System)
  {
    s.read <= |s.written| && s.callbacks == CallbacksOf(s.written[..s.read])
  }

  /** The receive failures since the last message. */
  function Failures(outcomes: seq<Option<Message>>): nat
  {
    if outcomes == [] || outcomes[|outcomes| - 1].Some? then 0 else 1 + Failures(outcomes[..|outcomes| - 1])
  }

  /** Why the receive loop ends by itself: a goodbye, an undefined message, or three failures in a row. */
  ghost predicate Finished(outcomes: seq<Option<Message>>)
  {
    || (outcomes != [] && outcomes[|outcomes| - 1] in {Some(Goodbye), Some(Undefined)})
    || Failures(outcomes) == RECEIVE_TRY_COUNT
  }

  /** No earlier point was a reason to end. */
  ghost predicate Unfinished(outcomes: seq<Option<Message>>)
  {
    forall k :: 0 <= k < |outcomes| ==> !Finished(outcomes[..k])
  }

  ghost predicate LoopInv(s: System)
  {
    && (!s.handlerDone ==>
          !Finished(s.outcomes) && 1 <= s.tries <= RECEIVE_TRY_COUNT && s.tries == RECEIVE_TRY_COUNT - Failures(s.outcomes))
    && (s.handlerDone && !s.handlerStopped ==> Finished(s.outcomes))
    && (s.handlerStopped ==> s.handlerDone && !Finished(s.outcomes))
    && Unfinished(s.outcomes)
  }

  lemma OutcomeSnoc(outcomes: seq<Option<Message>>, o: Option<Message>)
    requires Unfinished(outcomes) && !Finished(outcomes)
    ensures Unfinished(outcomes + [o])
    ensures Failures(outcomes + [o]) == if o.Some? then 0 else 1 + Failures(outcomes)
    ensures Finished(outcomes + [o]) <==>
              (o.Some? && Ends(o.value)) || (o.None? && Failures(outcomes) + 1 == RECEIVE_TRY_COUNT)
  {
    var all := outcomes + [o];
    assert all[..|outcomes|] == outcomes;
    forall k | 0 <= k < |all| ensures !Finished(all[..k]) {
      assert all[..k] == outcomes[..k];
      if k == |outcomes| { assert all[..k] == outcomes; }
    }
  }

  lemma ReadKeepsLoopInv(s: System, success: bool)
    requires LoopInv(s)
    ensures LoopInv(ReadStep(s, success))
  {
    if !s.handlerDone {
      if !success {
        OutcomeSnoc(s.outcomes, None);
      } else if s.read < |s.written| {
        OutcomeSnoc(s.outcomes, Some(s.written[s.read]));
      }
    }
  }

  lemma PayloadsSnoc(messages: seq<Message>, m: Message)
    ensures PayloadsOf(messages + [m]) == PayloadsOf(messages) + if Payload(m) then [m] else []
    ensures CallbacksOf(messages + [m]) == CallbacksOf(messages) + CallbackOf(m)
  {
    assert (messages + [m])[..|messages|] == messages;
  }

  lemma AllPayloadConcat(a: seq<Message>, b: seq<Message>)
    requires AllPayload(a) && AllPayload(b)
    ensures AllPayload(a + b)
  {
    forall i | 0 <= i < |a + b| ensures Payload((a + b)[i]) {
      if i < |a| { assert Payload(a[i]); } else { assert Payload(b[i - |a|]); }
    }
  }

  lemma TypeKeepsInv(s: System, line: string)
    requires BoxInv(s) && Parsable(line)
    ensures BoxInv(TypeStep(s, line))
  {
    var added := Parse(line).queued;
    ParseKeepsText(line);
    TextOfConcat(s.queued, added);
    assert (s.typed + [line])[..|s.typed|] == s.typed;
    AllPayloadConcat(s.queued, added);
    var sent := PayloadsOf(s.written);
    ConcatAssoc(sent + s.inHand, s.queue, added);
    ConcatAssoc(sent, s.queue, added);
  }

  lemma FirstIsNext(sent: seq<Message>, inHand: seq<Message>, queue: seq<Message>, queued: seq<Message>)
    requires sent + inHand + queue == queued && inHand != []
    ensures sent + [inHand[0]] <= queued && inHand[0] in queued
    ensures sent + [inHand[0]] + inHand[1..] + queue == queued
  {
    assert queued[|sent|] == inHand[0];
  }

  lemma LeavingKeepsInv(s: System, t: System)
    requires BoxInv(s)
    requires t.typed == s.typed && t.queued == s.queued
    requires t.boxDone && t.inHand == [] && t.written == s.written + [Goodbye]
    ensures BoxInv(t)
  {
    PayloadsSnoc(s.written, Goodbye);
    assert PayloadsOf(t.written) == PayloadsOf(s.written);
  }

  lemma WritingOneKeepsInv(s: System, t: System)
    requires BoxInv(s) && !s.boxDone && s.inHand != []
    requires t.typed == s.typed && t.queued == s.queued && t.queue == s.queue && !t.boxDone
    requires t.inHand == s.inHand[1..] && t.written == s.written + [s.inHand[0]]
    ensures BoxInv(t)
  {
    var sent := PayloadsOf(s.written);
    PayloadsSnoc(s.written, s.inHand[0]);
    if s.inHand == [Heartbeat] && sent + s.queue == s.queued {
      assert PayloadsOf(t.written) == sent;
      assert sent + t.inHand + t.queue == sent + s.queue;
    } else {
      FirstIsNext(sent, s.inHand, s.queue, s.queued);
      assert PayloadsOf(t.written) == sent + [s.inHand[0]];
    }
  }

  lemma WriteKeepsInv(s: System, success: bool)
    requires BoxInv(s)
    ensures BoxInv(WriteStep(s, success))
  {
    if !s.boxDone && s.inHand != [] {
      if !s.boxStopped && success {
        WritingOneKeepsInv(s, WriteStep(s, success));
      } else {
        LeavingKeepsInv(s, WriteStep(s, success));
      }
    }
  }

  lemma LeaveKeepsInv(s: System)
    requires BoxInv(s)
    ensures BoxInv(LeaveStep(s))
  {
    if LeaveStep(s) != s { LeavingKeepsInv(s, LeaveStep(s)); }
  }

  lemma TakeBeatKeepsInv(s: System)
    requires BoxInv(s) && !s.boxDone && s.inHand == [] && s.queue == []
    ensures BoxInv(s.(inHand := [Heartbeat]))
  {
    var sent := PayloadsOf(s.written);
    assert sent + [] + [] == sent + [];
  }

  lemma TakeQueueKeepsInv(s: System)
    requires BoxInv(s) && !s.boxDone && s.inHand == [] && s.queue != []
    ensures BoxInv(s.(inHand := s.queue, queue := []))
  {
    var sent := PayloadsOf(s.written);
    assert sent + [] == sent;
    assert sent + s.queue + [] == sent + s.queue;
    assert s.queue[0] in s.queued by { assert (sent + s.queue)[|sent|] == s.queue[0]; }
  }

  lemma TakeKeepsInv(s: System)
    requires BoxInv(s)
    ensures BoxInv(TakeStep(s))
  {
    if !s.boxDone && s.inHand == [] {
      if s.queue == [] { TakeBeatKeepsInv(s); } else { TakeQueueKeepsInv(s); }
    }
  }

  lemma ReadKeepsInv(s: System, success: bool)
    requires HandlerInv(s)
    ensures HandlerInv(ReadStep(s, success))
  {
    if success && s.read < |s.written| {
      assert s.written[..s.read + 1] == s.written[..s.read] + [s.written[s.read]];
      PayloadsSnoc(s.written[..s.read], s.written[s.read]);
    }
  }

  lemma WritingKeepsHandlerInv(s: System, t: System)
    requires HandlerInv(s) && s.written <= t.written
    requires t.read == s.read && t.callbacks == s.callbacks
    ensures HandlerInv(t)
  {
    assert t.written[..s.read] == s.written[..s.read];
  }

  lemma StepKeepsBoxInv(s: System, a: Action)
    requires BoxInv(s) && (a.TypeLine? ==> Parsable(a.line))
    ensures BoxInv(Step(s, a))
  {
    match a
    case TypeLine(line) => TypeKeepsInv(s, line);
    case Leave => LeaveKeepsInv(s);
    case Take => TakeKeepsInv(s);
    case Write(success) => WriteKeepsInv(s, success);
    case _ =>
  }

  lemma StepKeepsHandlerInv(s: System, a: Action)
    requires HandlerInv(s) && LoopInv(s) && (a.TypeLine? ==> Parsable(a.line))
    ensures HandlerInv(Step(s, a)) && LoopInv(Step(s, a))
  {
    if a.Read? {
      ReadKeepsInv(s, a.success);
      ReadKeepsLoopInv(s, a.success);
    } else {
      WritingKeepsHandlerInv(s, Step(s, a));
    }
  }

  lemma {:induction false} RunKeepsInv(h: History)
    requires Allowed(h)
    ensures BoxInv(Run(h)) && HandlerInv(Run(h)) && LoopInv(Run(h))
  {
    if h.After? {
      RunKeepsInv(h.before);
      StepKeepsBoxInv(Run(h.before), h.last);
      StepKeepsHandlerInv(Run(h.before), h.last);
    }
  }

  lemma StepKeepsTyped(s: System, a: Action)
    requires TypedInv(s) && (a.TypeLine? ==> Parsable(a.line))
    ensures TypedInv(Step(s, a))
  {
    if a.TypeLine? { TypeKeepsTyped(s, a.line); }
  }

  lemma {:induction false} RunKeepsTyped(h: History)
    requires Allowed(h)
    ensures TypedInv(Run(h))
  {
    if h.After? {
      RunKeepsTyped(h.before);
      StepKeepsTyped(Run(h.before), h.last);
    }
  }

  // -------------------------------------------------------------------- theorems

  /** The text of the message callbacks. */
  function Spoken(callbacks: seq<Callback>): string
  {
    if callbacks == [] then ""
    else Spoken(callbacks[..|callbacks| - 1])
         + if callbacks[|callbacks| - 1].MessageSent? then callbacks[|callbacks| - 1].text else ""
  }

  lemma SpokenSnoc(callbacks: seq<Callback>, m: Message)
    ensures Spoken(callbacks + CallbackOf(m)) == Spoken(callbacks) + if m.Text? then m.data else ""
  {
    var all := callbacks + CallbackOf(m);
    if Payload(m) {
      assert all[..|callbacks|] == callbacks;
    } else {
      assert all == callbacks;
    }
  }

  lemma {:induction false} SpokenIsText(messages: seq<Message>)
    ensures Spoken(CallbacksOf(messages)) == TextOf(PayloadsOf(messages))
  {
    if messages != [] {
      var before, m := messages[..|messages| - 1], messages[|messages| - 1];
      SpokenIsText(before);
      SpokenSnoc(CallbacksOf(before), m);
      TextOfConcat(PayloadsOf(before), [m]);
      assert [m][1..] == [];
      if !Payload(m) { assert PayloadsOf(messages) == PayloadsOf(before); }
    }
  }

  lemma {:induction false} PayloadsOfPrefix(messages: seq<Message>, n: nat)
    requires n <= |messages|
    ensures PayloadsOf(messages[..n]) <= PayloadsOf(messages)
  {
    if n < |messages| {
      PayloadsOfPrefix(messages[..|messages| - 1], n);
      assert messages[..|messages| - 1][..n] == messages[..n];
    } else {
      assert messages[..n] == messages;
    }
  }

  lemma TextOfPrefix(a: seq<Message>, b: seq<Message>)
    requires a <= b
    ensures TextOf(a) <= TextOf(b)
  {
    assert b == a + b[|a|..];
    TextOfConcat(a, b[|a|..]);
  }

  lemma {:induction false} CallbacksConcat(a: seq<Message>, b: seq<Message>)
    ensures CallbacksOf(a + b) == CallbacksOf(a) + CallbacksOf(b)
  {
    if b == [] {
      assert a + b == a;
    } else {
      var last := |b| - 1;
      assert (a + b)[..|a + b| - 1] == a + b[..last];
      CallbacksConcat(a, b[..last]);
    }
  }

  /** Heartbeats and goodbyes call nothing back. */
  lemma {:induction false} OnlyPayloadsCallBack(messages: seq<Message>)
    ensures CallbacksOf(PayloadsOf(messages)) == CallbacksOf(messages)
  {
    if messages != [] {
      var before, m := messages[..|messages| - 1], messages[|messages| - 1];
      OnlyPayloadsCallBack(before);
      if Payload(m) {
        PayloadsSnoc(PayloadsOf(before), m);
      } else {
        assert PayloadsOf(messages) == PayloadsOf(before);
        assert CallbackOf(m) == [];
      }
    }
  }

  lemma CallbacksOfPrefix(a: seq<Message>, b: seq<Message>)
    requires a <= b
    ensures CallbacksOf(a) <= CallbacksOf(b)
  {
    assert b == a + b[|a|..];
    CallbacksConcat(a, b[|a|..]);
  }

  /**
   In every run the callbacks, selections and messages alike, are a beginning of those the typed lines
   call for, in the order of the lines; and all of them once everything was read and no stop cut
   anything off.
   */
  lemma CallbacksFollowTheLines(h: History)
    requires Allowed(h)
    ensures var s := Run(h);
            && AllParsable(s.typed)
            && s.callbacks <= CallbacksOf(QueuedBy(s.typed))
            && (!s.boxDone && s.inHand == [] && s.queue == [] && s.read == |s.written| ==>
                  s.callbacks == CallbacksOf(QueuedBy(s.typed)))
  {
    RunKeepsInv(h);
    RunKeepsTyped(h);
    var s := Run(h);
    var heard := s.written[..s.read];
    OnlyPayloadsCallBack(heard);
    PayloadsOfPrefix(s.written, s.read);
    CallbacksOfPrefix(PayloadsOf(heard), s.queued);
    if !s.boxDone && s.inHand == [] && s.queue == [] && s.read == |s.written| {
      assert heard == s.written;
      assert PayloadsOf(s.written) + [] + [] == PayloadsOf(s.written);
    }
  }

  /**
   In every run the message callbacks say a beginning of what was typed, in order and without
   repetition; and all of it once everything was read and no stop cut anything off.
   */
  lemma CallbacksSayWhatWasTyped(h: History)
    requires Allowed(h)
    ensures var s := Run(h);
            && Spoken(s.callbacks) <= SaidAll(s.typed)
            && (!s.boxDone && s.inHand == [] && s.queue == [] && s.read == |s.written| ==>
                  Spoken(s.callbacks) == SaidAll(s.typed))
  {
    RunKeepsInv(h);
    var s := Run(h);
    var heard := s.written[..s.read];
    SpokenIsText(heard);
    PayloadsOfPrefix(s.written, s.read);
    TextOfPrefix(PayloadsOf(heard), s.queued);
    if !s.boxDone && s.inHand == [] && s.queue == [] && s.read == |s.written| {
      assert heard == s.written;
      assert PayloadsOf(s.written) + [] + [] == PayloadsOf(s.written);
    }
  }

  /**
   In every run the handler's loop is over, unless it was stopped, exactly when what it received
   ends in a goodbye, an undefined message or three failures in a row; it never receives again.
   */
  lemma LoopEndsExactly(h: History)
    requires Allowed(h)
    ensures var s := Run(h);
            && (s.handlerDone <==> s.handlerStopped || Finished(s.outcomes))
            && !(s.handlerStopped && Finished(s.outcomes))
            && Unfinished(s.outcomes)
  {
    RunKeepsInv(h);
  }

  // What single steps do to the state of a run.

  lemma TakeRuns(h: History)
    requires Allowed(h) && !Run(h).boxDone && Run(h).inHand == []
    ensures var s := Run(h);
            Run(After(h, Take)) == s.(inHand := if s.queue == [] then [Heartbeat] else s.queue, queue := [])
  {
  }

  lemma WriteRuns(h: History)
    requires Allowed(h) && !Run(h).boxDone && Run(h).inHand != [] && !Run(h).boxStopped
    ensures var s := Run(h);
            Run(After(h, Write(true))) == s.(inHand := s.inHand[1..], written := s.written + [s.inHand[0]])
  {
  }

  lemma ExitRuns(h: History, a: Action)
    requires Allowed(h) && !Run(h).boxDone
    requires a == if Run(h).inHand == [] then Leave else Write(false)
    requires Run(h).inHand == [] ==> Run(h).boxStopped
    ensures var s := Run(h);
            Run(After(h, a)) == s.(boxDone := true, boxStopped := true, inHand := [], written := s.written + [Goodbye])
  {
  }

  // ------------------------------------------------------------------- the object

  /**
   The writing side. `history` are the steps of the system its methods amount to, so that every
   theorem about runs holds of the object; `hand` is what is left of the loop's list, `life` the number of
   times `isStopped` still answers no, `pipeLife` the number of sends that still succeed.
   */
  class Box {
    var mQueuedMessages: seq<Message>
    var hand: seq<Message>
    var written: seq<Message>
    var done: bool
    var life: nat
    var pipeLife: nat
    ghost var history: History

    ghost predicate Valid()
      reads this
    {
      && Allowed(history)
      && var s := Run(history);
         && s.queue == mQueuedMessages && s.inHand == hand && s.written == written
         && s.boxDone == done && (s.boxStopped ==> life == 0)
    }

    constructor (life: nat, pipeLife: nat)
      requires life > 0
      ensures Valid() && history == Beginning && mQueuedMessages == [] && written == [] && hand == [] && !done
      ensures this.life == life && this.pipeLife == pipeLife
    {
      mQueuedMessages, written, done, hand, history := [], [], false, [], Beginning;
      this.life, this.pipeLife := life, pipeLife;
    }

    /** A stop by another thread is put right before the first read that sees it. */
    method IsStopped() returns (stopped: bool)
      requires Valid()
      modifies `life, `history
      ensures Valid() && Run(history).typed == old(Run(history).typed)
      ensures stopped <==> old(life) == 0
      ensures life == if stopped then 0 else old(life) - 1
      ensures stopped == Run(history).boxStopped
    {
      stopped := life == 0;
      if stopped { history := After(history, StopBox); } else { life := life - 1; }
    }

    /** The splitting loop; the queue gains exactly the pieces of the text. */
    method Send(text: string) returns (ok: bool)
      modifies `mQueuedMessages
      ensures ok && mQueuedMessages == old(mQueuedMessages) + TextPieces(text)
    {
      var begin: nat := 0;
      var i := |text| / DATA_MAX_LENGTH;
      assert text[0..] == text;
      ghost var was := mQueuedMessages;
      while i > 0
        invariant 0 <= i && begin + i * DATA_MAX_LENGTH <= |text| < begin + (i + 1) * DATA_MAX_LENGTH
        invariant mQueuedMessages + TextPieces(text[begin..]) == was + TextPieces(text)
      {
        ghost var rest := text[begin..];
        assert rest[..DATA_MAX_LENGTH] == text[begin..begin + DATA_MAX_LENGTH];
        assert rest[DATA_MAX_LENGTH..] == text[begin + DATA_MAX_LENGTH..];
        FirstPiece(rest);
        mQueuedMessages := mQueuedMessages + [Text(text[begin..begin + DATA_MAX_LENGTH])];
        begin := begin + DATA_MAX_LENGTH;
        i := i - 1;
      }
      if begin != |text| {
        mQueuedMessages := mQueuedMessages + [Text(text[begin..])];
      }
      ok := true;
    }

    method ExecuteCommand(args: seq<string>) returns (ok: bool, quit: bool)
      requires Executable(args)
      modifies `mQueuedMessages
      ensures ok == Execute(args).ok && quit == Execute(args).quit
      ensures (ok <==> args == ["help"] || args == ["quit"] || IsSelection(args)) && (quit <==> args == ["quit"])
      ensures mQueuedMessages == old(mQueuedMessages) + Execute(args).queued
    {
      quit := false;
      ExecuteExactly(args);
      assert mQueuedMessages + [] == mQueuedMessages;
      if args == [] { return false, false; }
      var command := args[0];
      if command == "help" {
        return |args| == 1, false;
      }
      if command == "quit" {
        if |args| > 1 { return false, false; }
        return true, true;
      }
      if command == "select" {
        if |args| > 2 { return false, false; }
        var identity := args[1];
        if !AllDigits(identity) { return false, false; }
        if |identity| > DATA_MAX_DIGITS { return false, false; }
        if identity == "" { return false, false; }
        mQueuedMessages := mQueuedMessages + [SelectContact(ToBytes(Value(identity), SIZE_OF_ID))];
        return true, false;
      }
      return false, false;
    }

    /** The `getline` loop. */
    static method Arguments(input: string) returns (args: seq<string>)
      ensures args == Args(input)
    {
      var rest := input;
      args := [];
      while rest != ""
        invariant args + Args(rest) == Args(input)
        decreases |rest|
      {
        var p := Words.Find(rest, 0);
        if p == |rest| {
          args, rest := args + [rest], "";
        } else {
          args, rest := args + [rest[..p]], rest[p + 1..];
        }
      }
    }

    method ParseLine(line: string) returns (ok: bool)
      requires Valid() && Parsable(line)
      modifies this
      ensures Valid() && history == After(old(history), TypeLine(line))
      ensures ok == Parse(line).ok
      ensures mQueuedMessages == old(mQueuedMessages) + Parse(line).queued
      ensures life == if Parse(line).quit then 0 else old(life)
      ensures hand == old(hand) && written == old(written) && done == old(done) && pipeLife == old(pipeLife)
    {
      ghost var was := mQueuedMessages;
      history := After(history, TypeLine(line));
      if line == "" { assert was + [] == was; return false; }
      if line[0] == '#' {
        var args := Arguments(line[1..]);
        var quit;
        ok, quit := ExecuteCommand(args);
        if quit { life := 0; }
      } else {
        ok := Send(line);
      }
    }

    /** Out of the loop: the goodbye is written and the box is stopped. */
    method Conclude()
      requires Valid() && !done && (hand == [] ==> Run(history).boxStopped)
      modifies this
      ensures Valid() && Run(history).typed == old(Run(history).typed)
      ensures done && hand == [] && written == old(written) + [Goodbye] && mQueuedMessages == old(mQueuedMessages)
    {
      ghost var a := if hand == [] then Leave else Write(false);
      ExitRuns(history, a);
      history := After(history, a);
      life, hand, done, written := 0, [], true, written + [Goodbye];
    }

    /** Under the queue's lock: the whole queue, or a heartbeat when there is nothing. */
    method TakeBatch()
      requires Valid() && !done && hand == []
      modifies `mQueuedMessages, `hand, `history
      ensures Valid() && Run(history).typed == old(Run(history).typed)
      ensures hand == (if old(mQueuedMessages) == [] then [Heartbeat] else old(mQueuedMessages))
      ensures mQueuedMessages == []
    {
      TakeRuns(history);
      history := After(history, Take);
      hand := mQueuedMessages;
      mQueuedMessages := [];
      if hand == [] { hand := [Heartbeat]; }
    }

    /** The body of the sending loop; exactly a stop or a failed send ends it. */
    method WriteNext() returns (exit: bool)
      requires Valid() && !done && hand != []
      modifies this
      ensures Valid() && Run(history).typed == old(Run(history).typed) && mQueuedMessages == old(mQueuedMessages)
      ensures exit == done && (exit <==> old(life) == 0 || old(pipeLife) == 0)
      ensures exit ==> hand == [] && written == old(written) + [Goodbye]
      ensures !exit ==> hand == old(hand)[1..] && written == old(written) + [old(hand)[0]]
      ensures !exit ==> life == old(life) - 1 && pipeLife == old(pipeLife) - 1
    {
      var stopped := IsStopped();
      if stopped || pipeLife == 0 {
        Conclude();
        return true;
      }
      WriteRuns(history);
      history := After(history, Write(true));
      pipeLife, hand, written := pipeLife - 1, hand[1..], written + [hand[0]];
      return false;
    }

    /**
     The sending loop: `n` messages are written, as many as both the stop flag and the pipe allow, and
     the loop is left early exactly when these are not all.
     */
    method WriteBatch() returns (exit: bool, n: nat)
      requires Valid() && !done
      modifies this
      ensures Valid() && hand == [] && Run(history).typed == old(Run(history).typed) && mQueuedMessages == old(mQueuedMessages)
      ensures exit == done && n == Least(|old(hand)|, old(life), old(pipeLife)) && (exit <==> n < |old(hand)|)
      ensures written == old(written) + old(hand)[..n] + if exit then [Goodbye] else []
      ensures !exit ==> life == old(life) - n && pipeLife == old(pipeLife) - n
    {
      ghost var was, all := written, hand;
      exit, n := false, 0;
      while hand != []
        invariant Valid() && !done && !exit && Run(history).typed == old(Run(history).typed)
        invariant mQueuedMessages == old(mQueuedMessages)
        invariant n <= |all| && hand == all[n..] && written == was + all[..n]
        invariant n <= old(life) && n <= old(pipeLife) && life == old(life) - n && pipeLife == old(pipeLife) - n
        decreases |hand|
      {
        exit := WriteNext();
        if exit { return; }
        assert all[..n + 1] == all[..n] + [all[n]];
        n := n + 1;
      }
      assert written == was + all[..n] + [];
    }

    /**
     One round of `main`: what is queued, or a heartbeat, goes to the pipe in order; every way out says
     goodbye, and there is none but a stop and a failed send.
     */
    method Round() returns (exit: bool, n: nat)
      requires Valid() && !done && hand == []
      modifies this
      ensures Valid() && hand == [] && Run(history).typed == old(Run(history).typed)
      ensures var messages := if old(mQueuedMessages) == [] then [Heartbeat] else old(mQueuedMessages);
              && n == (if old(life) == 0 then 0 else Least(|messages|, old(life) - 1, old(pipeLife)))
              && exit == done && (exit <==> n < |messages|)
              && written == old(written) + messages[..n] + (if exit then [Goodbye] else [])
              && mQueuedMessages == (if old(life) == 0 then old(mQueuedMessages) else [])
              && (!exit ==> life == old(life) - 1 - n && pipeLife == old(pipeLife) - n)
    {
      n := 0;
      ghost var batch := if mQueuedMessages == [] then [Heartbeat] else mQueuedMessages;
      var stopped := IsStopped();
      if stopped {
        Conclude();
        assert written == old(written) + batch[..0] + [Goodbye];
        return true, 0;
      }
      TakeBatch();
      exit, n := WriteBatch();
    }
  }

  function Least(a: nat, b: nat, c: nat): (n: nat)
    ensures n <= a && n <= b && n <= c && n in {a, b, c}
  {
    if a <= b && a <= c then a else if b <= c then b else c
  }

  // ------------------------------------------------------------- the receive loop

  /** The messages among the outcomes of `receive`. */
  function Heard(outcomes: seq<Option<Message>>): seq<Message>
  {
    if outcomes == [] then []
    else
      var last := outcomes[|outcomes| - 1];
      Heard(outcomes[..|outcomes| - 1]) + if last.Some? then [last.value] else []
  }

  lemma HeardSnoc(outcomes: seq<Option<Message>>, o: Option<Message>)
    ensures o.None? ==> Heard(outcomes + [o]) == Heard(outcomes)
    ensures o.Some? ==> CallbacksOf(Heard(outcomes + [o])) == CallbacksOf(Heard(outcomes)) + CallbackOf(o.value)
  {
    assert (outcomes + [o])[..|outcomes|] == outcomes;
    if o.Some? {
      PayloadsSnoc(Heard(outcomes), o.value);
    } else {
      assert Heard(outcomes) + [] == Heard(outcomes);
    }
  }

  /** The counter and the callbacks after some outcomes, none of which was a reason to end. */
  ghost predicate LoopState(outcomes: seq<Option<Message>>, i: int, callbacks: seq<Callback>)
  {
    && 0 <= i == RECEIVE_TRY_COUNT - Failures(outcomes) && (i > 0 ==> !Finished(outcomes))
    && Unfinished(outcomes) && callbacks == CallbacksOf(Heard(outcomes))
  }

  lemma LoopStep(outcomes: seq<Option<Message>>, i: int, callbacks: seq<Callback>, o: Option<Message>)
    requires LoopState(outcomes, i, callbacks) && i > 0
    ensures o.None? ==> LoopState(outcomes + [o], i - 1, callbacks)
    ensures o.Some? && !Ends(o.value) ==> LoopState(outcomes + [o], RECEIVE_TRY_COUNT, callbacks + CallbackOf(o.value))
    ensures o.Some? && Ends(o.value) ==>
              && Finished(outcomes + [o]) && Unfinished(outcomes + [o])
              && callbacks + CallbackOf(o.value) == CallbacksOf(Heard(outcomes + [o]))
  {
    OutcomeSnoc(outcomes, o);
    HeardSnoc(outcomes, o);
  }

  /** The switch of the loop. */
  method Dispatch(message: Message, before: seq<Callback>) returns (again: bool, callbacks: seq<Callback>)
    ensures again == !Ends(message) && callbacks == before + CallbackOf(message)
  {
    again, callbacks := true, before;
    match message {
      case Heartbeat =>
      case SelectContact(bytes) => callbacks := callbacks + [ContactSelect(FromBytes(bytes))];
      case Text(data) => callbacks := callbacks + [MessageSent(data)];
      case Goodbye => again := false;
      case Undefined => again := false;
    }
  }

  /**
   `TTTextBoxHandler::main` over what its calls of `receive` will give, with `life` rounds before it
   is stopped: it goes on through exactly the first outcomes that are a reason to end.
   */
  method HandlerLoop(alive: bool, receives: seq<Option<Message>>, life: nat)
    returns (rounds: nat, callbacks: seq<Callback>)
    ensures rounds <= |receives| && rounds <= life
    ensures !alive ==> rounds == 0
    ensures Unfinished(receives[..rounds])
    ensures alive ==> rounds == |receives| || rounds == life || Finished(receives[..rounds])
    ensures callbacks == CallbacksOf(Heard(receives[..rounds]))
  {
    rounds, callbacks := 0, [];
    assert receives[..0] == [];
    if !alive { return; }
    var i: int := RECEIVE_TRY_COUNT;
    while i > 0 && rounds < |receives| && rounds < life
      invariant rounds <= |receives| && rounds <= life
      invariant LoopState(receives[..rounds], i, callbacks)
      decreases |receives| - rounds
    {
      var outcome := receives[rounds];
      assert receives[..rounds + 1] == receives[..rounds] + [outcome];
      LoopStep(receives[..rounds], i, callbacks, outcome);
      rounds := rounds + 1;
      if outcome.None? {
        i := i - 1;
        continue;
      }
      var again;
      again, callbacks := Dispatch(outcome.value, callbacks);
      if !again { return; }
      i := RECEIVE_TRY_COUNT + 1;
      i := i - 1;
    }
  }
}
