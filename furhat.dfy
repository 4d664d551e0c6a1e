/** furhatClass.py: the bridge between the Furhat dialogue server and the
    robots' four serial lines.  `read` turns one received message into an
    event; the main loop reacts to speech events by writing one byte to
    each serial line, and to an interruption by a different burst, until a
    "resume" utterance is displayed.  The socket is replaced by the
    sequence of received messages and the serial lines by a log of the
    bytes written to them. */
module FurhatBridge {
  import opened Wrappers
  import opened PyStrings

  // ---------------------------------------------------------------------
  // read
  // ---------------------------------------------------------------------

  /** What `read` returns: None when no line carries an event, the string
      "No event" when nothing was received, otherwise the pair
      [event name, second line of the message]. */
  datatype Received = Nothing | NoEvent | Event(name: string, payload: string)

  /** The first word of an event line, as the server spells it when the
      start of the line was lost. */
  predicate EventWord(w: string)
  {
    w == "EVENT" || w == "VENT" || w == "ENT"
  }

  /** A line of a message of `lines` announces an event: at least three
      words, the first of them an event word, in a message of more than
      one line. */
  predicate Announces(lines: seq<string>, line: string)
  {
    var c := SplitWords(line);
    |c| > 0 && |lines| > 1 && EventWord(c[0]) && |c| >= 3
  }

  /** The event of the first announcing line at or after i.  The payload
      is always the second line of the message, whichever line announced. */
  function FirstEvent(lines: seq<string>, i: nat): Received
    decreases |lines| - i
  {
    if i >= |lines| then Nothing
    else if Announces(lines, lines[i]) then Event(SplitWords(lines[i])[1], lines[1])
    else FirstEvent(lines, i + 1)
  }

  function ReadSpec(message: Option<string>): Received
  {
    match message
    case None => NoEvent
    case Some(text) => FirstEvent(SplitLines(text), 0)
  }

  /** `read`: scans the lines of the message and returns at the first one
      that announces an event. */
  method Read(message: Option<string>) returns (r: Received)
    ensures r == ReadSpec(message)
  {
    if message.None? {
      return NoEvent;
    }
    var b := SplitLines(message.value);
    var i := 0;
    while i < |b|
      invariant 0 <= i <= |b|
      invariant FirstEvent(b, i) == FirstEvent(b, 0)
    {
      var found, e := ScanLine(b, i);
      if found {
        return e;
      }
      i := i + 1;
    }
    return Nothing;
  }

  /** One pass of the scanning loop of `read`: the words of line i decide
      whether it announces an event. */
  method ScanLine(b: seq<string>, i: nat) returns (found: bool, e: Received)
    requires i < |b|
    ensures found <==> Announces(b, b[i])
    ensures found ==> e == FirstEvent(b, i)
    ensures !found ==> FirstEvent(b, i) == FirstEvent(b, i + 1)
  {
    var c := SplitWords(b[i]);
    found, e := false, Nothing;
    if |c| > 0 && |b| > 1 {
      if EventWord(c[0]) && |c| >= 3 {
        found, e := true, Event(c[1], b[1]);
      }
    }
  }

  /** r is what scanning lines from position `from` should give: an event
      exactly when some line from there on announces one, named by the
      second word of the first such line and carrying the second line of
      the message. */
  ghost predicate FindsFirst(lines: seq<string>, from: nat, r: Received)
  {
    && !r.NoEvent?
    && (r.Event? <==> exists n | from <= n < |lines| :: Announces(lines, lines[n]))
    && (r.Event? ==>
          && |lines| >= 2 && r.payload == lines[1]
          && exists n | from <= n < |lines| :: Announces(lines, lines[n]) && r.name == SplitWords(lines[n])[1]
               && forall m | from <= m < n :: !Announces(lines, lines[m]))
  }

  lemma {:induction false} FirstEventFacts(lines: seq<string>, i: nat)
    ensures FindsFirst(lines, i, FirstEvent(lines, i))
    decreases |lines| - i
  {
    var r := FirstEvent(lines, i);
    if i >= |lines| {
      assert r == Nothing;
    } else if Announces(lines, lines[i]) {
      assert r == Event(SplitWords(lines[i])[1], lines[1]);
      assert Announces(lines, lines[i]) && r.name == SplitWords(lines[i])[1];
    } else {
      FirstEventFacts(lines, i + 1);
      assert r == FirstEvent(lines, i + 1);
      if n :| i <= n < |lines| && Announces(lines, lines[n]) {
        assert i + 1 <= n;
      }
      if r.Event? {
        var n :| i + 1 <= n < |lines| && Announces(lines, lines[n]) && r.name == SplitWords(lines[n])[1]
          && forall m | i + 1 <= m < n :: !Announces(lines, lines[m]);
        assert forall m | i <= m < n :: !Announces(lines, lines[m]);
      }
    }
  }

  /** A received message yields an event exactly when one of its lines
      announces one; the event is named by the second word of the first
      such line and carries the message's second line. */
  lemma ReadFindsFirstEvent(text: string)
    ensures FindsFirst(SplitLines(text), 0, ReadSpec(Some(text)))
  {
    FirstEventFacts(SplitLines(text), 0);
  }

  /** A one-line message never yields an event, whatever it says. */
  lemma OneLineIsNothing(line: string)
    requires line != [] && NoBreaks(line)
    ensures ReadSpec(Some(line)) == Nothing
  {
    SplitLinesSingle(line);
    assert !Announces([line], line);
    assert FirstEvent([line], 1) == Nothing;
  }

  /** "EVENT <name> <id>" followed by a payload line is read as that event. */
  lemma ReadsEventLine(name: string, id: string, payload: string)
    requires name != [] && NoSpaces(name) && NoBreaks(name)
    requires id != [] && NoSpaces(id) && NoBreaks(id)
    requires payload != [] && NoBreaks(payload)
    ensures ReadSpec(Some("EVENT " + name + " " + id + "\n" + payload)) == Event(name, payload)
  {
    var line := "EVENT " + name + " " + id;
    assert SplitLines(line + "\n" + payload) == [line, payload] by {
      EventLineHasNoBreaks(name, id);
      SplitLinesCons(line, payload);
      SplitLinesSingle(payload);
    }
    assert SplitWords(line) == ["EVENT", name, id] by {
      assert "EVENT " + name + " " + id == "EVENT" + " " + name + " " + id;
      ThreeWords("EVENT", name, id);
    }
    assert Announces([line, payload], line);
  }

  lemma EventLineHasNoBreaks(name: string, id: string)
    requires NoBreaks(name) && NoBreaks(id)
    ensures NoBreaks("EVENT " + name + " " + id)
  {
    var line := "EVENT " + name + " " + id;
    assert forall i | 0 <= i < |line| :: line[i] in "EVENT " || line[i] in name || line[i] in id;
  }

  /** Three words separated by single spaces split back into them. */
  lemma ThreeWords(a: string, b: string, c: string)
    requires a != [] && NoSpaces(a) && b != [] && NoSpaces(b) && c != [] && NoSpaces(c)
    ensures SplitWords(a + " " + b + " " + c) == [a, b, c]
  {
    JoinRegroup(a, b, c, " ");
    WordThenTwo(a, b, c);
  }

  lemma WordThenTwo(a: string, b: string, c: string)
    requires a != [] && NoSpaces(a) && b != [] && NoSpaces(b) && c != [] && NoSpaces(c)
    ensures SplitWords(a + " " + (b + " " + c)) == [a, b, c]
  {
    SplitWordsSingle(c);
    SplitWordsCons(b, c);
    SplitWordsCons(a, b + " " + c);
  }

  lemma JoinRegroup(a: string, b: string, c: string, sp: string)
    ensures a + sp + b + sp + c == a + sp + (b + sp + c)
  {
  }

  lemma SplitWordsSingle(word: string)
    requires word != [] && NoSpaces(word)
    ensures SplitWords(word) == [word]
  {
    assert SpaceLength(word) == 0;
    WordLengthOf(word, []);
    assert word + [] == word;
    assert word[|word|..] == [];
  }

  // ---------------------------------------------------------------------
  // The serial lines
  // ---------------------------------------------------------------------

  /** One `serN.write(bytes([byte]))` on the line opened at USB port `port`. */
  datatype SerialWrite = SerialWrite(port: nat, byte: nat)

  /** usbPort1 … usbPort4: the ports of ser1 … ser4. */
  const UsbPorts: seq<nat> := [4, 5, 6, 7]

  /** One byte to each of ser1 … ser4, in that order. */
  function Burst(b1: nat, b2: nat, b3: nat, b4: nat): seq<SerialWrite>
  {
    [SerialWrite(UsbPorts[0], b1), SerialWrite(UsbPorts[1], b2),
     SerialWrite(UsbPorts[2], b3), SerialWrite(UsbPorts[3], b4)]
  }

  /** ASCII '1' '1' '0' '0': agent1 speaks. */
  const Agent1Burst := Burst(49, 49, 48, 48)
  /** ASCII '0' '0' '1' '1': agent2 speaks. */
  const Agent2Burst := Burst(48, 48, 49, 49)
  /** ASCII '2' '2' '0' '0': speech was interrupted. */
  const StopBurst := Burst(50, 50, 48, 48)

  /** The display texts that end an interruption. */
  predicate Resumes(text: string)
  {
    text == " hm what was i saying" || text == " oh what were you saying?"
  }

  // ---------------------------------------------------------------------
  // Reacting to an event
  // ---------------------------------------------------------------------

  /** The effect of handling part of a message: the new `interrupted`
      flag, the bytes written, and whether an IndexError ended it. */
  datatype Outcome = Outcome(interrupted: bool, writes: seq<SerialWrite>, failed: bool)

  /** What one comma-separated item of a speech payload, `"key":"value"`,
      says once its key and value have lost their first and last
      characters (the quotes). */
  datatype Item = AgentItem(agent: string) | DisplayItem(text: string) | MissingValue | OtherItem

  /** An "agent" or "display" key without a value is MissingValue: reading
      the value raises IndexError. */
  function ParseItem(item: string): Item
  {
    var parts := SplitOn(item, ':');
    var key := Unwrap(parts[0]);
    if key == "agent" then
      if |parts| < 2 then MissingValue else AgentItem(Unwrap(parts[1]))
    else if key == "display" then
      if |parts| < 2 then MissingValue else DisplayItem(Unwrap(parts[1]))
    else OtherItem
  }

  /** What an item does: agent1 and agent2 move the robots unless the
      bridge is interrupted, a resume display ends the interruption. */
  function Effect(interrupted: bool, it: Item): (o: Outcome)
    ensures o.failed <==> it.MissingValue?
    ensures o.failed ==> o.interrupted == interrupted && o.writes == []
  {
    match it
    case AgentItem(agent) =>
      if agent == "agent1" && !interrupted then Outcome(interrupted, Agent1Burst, false)
      else if agent == "agent2" && !interrupted then Outcome(interrupted, Agent2Burst, false)
      else Outcome(interrupted, [], false)
    case DisplayItem(text) =>
      if Resumes(text) then Outcome(false, [], false) else Outcome(interrupted, [], false)
    case MissingValue => Outcome(interrupted, [], true)
    case OtherItem => Outcome(interrupted, [], false)
  }

  function ParseItems(items: seq<string>): (its: seq<Item>)
    ensures |its| == |items|
  {
    seq(|items|, n requires 0 <= n < |items| => ParseItem(items[n]))
  }

  /** The items from the n-th on, in order; an IndexError skips the rest
      of the message, keeping what the items before it did. */
  function EffectsFrom(interrupted: bool, its: seq<Item>, n: nat): Outcome
    decreases |its| - n
  {
    if n >= |its| then Outcome(interrupted, [], false)
    else
      var o := Effect(interrupted, its[n]);
      if o.failed then o
      else
        var rest := EffectsFrom(o.interrupted, its, n + 1);
        Outcome(rest.interrupted, o.writes + rest.writes, rest.failed)
  }

  lemma AppendAssociates<T>(a: seq<T>, b: seq<T>, c: seq<T>)
    ensures (a + b) + c == a + (b + c)
  {
  }

  /** What remains of the fold after item n succeeds, leaving the flag
      `now` and writing w, with w moved to the part already done. */
  lemma EffectsStep(start: bool, its: seq<Item>, n: nat, was: bool, done: seq<SerialWrite>, now: bool, w: seq<SerialWrite>)
    requires n < |its| && !its[n].MissingValue?
    requires now == Effect(was, its[n]).interrupted && w == Effect(was, its[n]).writes
    requires EffectsFrom(start, its, 0).interrupted == EffectsFrom(was, its, n).interrupted
    requires EffectsFrom(start, its, 0).failed == EffectsFrom(was, its, n).failed
    requires EffectsFrom(start, its, 0).writes == done + EffectsFrom(was, its, n).writes
    ensures EffectsFrom(start, its, 0).interrupted == EffectsFrom(now, its, n + 1).interrupted
    ensures EffectsFrom(start, its, 0).failed == EffectsFrom(now, its, n + 1).failed
    ensures EffectsFrom(start, its, 0).writes == (done + w) + EffectsFrom(now, its, n + 1).writes
  {
    AppendAssociates(done, w, EffectsFrom(now, its, n + 1).writes);
  }

  /** What a value of `read` asks the main loop to do. */
  datatype Command = Speech(items: seq<Item>) | Stop | Ignore

  /** "action.speech" carries the comma-separated items of its payload,
      "action.speech.stop" stops, and anything else, "No event" and None
      included, is ignored. */
  function ParseEvent(r: Received): Command
  {
    match r
    case Event(name, payload) =>
      if name == "action.speech" then Speech(ParseItems(SplitOn(payload, ',')))
      else if name == "action.speech.stop" then Stop
      else Ignore
    case _ => Ignore
  }

  /** The items of a speech event in order; a stop interrupts and sends its
      burst. */
  function React(interrupted: bool, c: Command): Outcome
  {
    match c
    case Speech(its) => EffectsFrom(interrupted, its, 0)
    case Stop => Outcome(true, StopBurst, false)
    case Ignore => Outcome(interrupted, [], false)
  }

  /** One pass of the main loop on what `read` returned. */
  function Handle(interrupted: bool, r: Received): Outcome
  {
    React(interrupted, ParseEvent(r))
  }

  /** What the main loop is asked to do by each received message. */
  function Commands(messages: seq<Option<string>>): (cs: seq<Command>)
    ensures |cs| == |messages|
  {
    seq(|messages|, k requires 0 <= k < |messages| => ParseEvent(ReadSpec(messages[k])))
  }

  /** The main loop from the n-th command on; an IndexError inside one
      message is swallowed and the loop goes on. */
  function HandleFrom(interrupted: bool, cs: seq<Command>, n: nat): (o: Outcome)
    ensures !o.failed
    decreases |cs| - n
  {
    if n >= |cs| then Outcome(interrupted, [], false)
    else
      var h := React(interrupted, cs[n]);
      var rest := HandleFrom(h.interrupted, cs, n + 1);
      Outcome(rest.interrupted, h.writes + rest.writes, false)
  }

  /** The main loop over a sequence of received messages. */
  function Session(interrupted: bool, messages: seq<Option<string>>): Outcome
  {
    HandleFrom(interrupted, Commands(messages), 0)
  }

  /** The main loop's invariant carried past command n. */
  lemma HandleFromStep(start: bool, cs: seq<Command>, n: nat, was: bool, done: seq<SerialWrite>, now: bool, w: seq<SerialWrite>)
    requires n < |cs|
    requires now == React(was, cs[n]).interrupted && w == React(was, cs[n]).writes
    requires HandleFrom(start, cs, 0).interrupted == HandleFrom(was, cs, n).interrupted
    requires HandleFrom(start, cs, 0).writes == done + HandleFrom(was, cs, n).writes
    ensures HandleFrom(start, cs, 0).interrupted == HandleFrom(now, cs, n + 1).interrupted
    ensures HandleFrom(start, cs, 0).writes == (done + w) + HandleFrom(now, cs, n + 1).writes
  {
    AppendAssociates(done, w, HandleFrom(now, cs, n + 1).writes);
  }

  class Bridge {
    var interrupted: bool
    /** Every byte written to the serial lines, oldest first. */
    var log: seq<SerialWrite>

    /** `interrupted = False`, before anything is written. */
    constructor()
      ensures !interrupted && log == []
    {
      interrupted := false;
      log := [];
    }

    /** `serN.write(bytes([byte]))`. */
    method Write(port: nat, byte: nat)
      modifies this
      ensures log == old(log) + [SerialWrite(port, byte)] && interrupted == old(interrupted)
    {
      log := log + [SerialWrite(port, byte)];
    }

    method WriteBurst(b1: nat, b2: nat, b3: nat, b4: nat)
      modifies this
      ensures log == old(log) + Burst(b1, b2, b3, b4) && interrupted == old(interrupted)
    {
      Write(UsbPorts[0], b1);
      Write(UsbPorts[1], b2);
      Write(UsbPorts[2], b3);
      Write(UsbPorts[3], b4);
    }

    /** One item of a speech payload; `failed` reports the IndexError. */
    method HandleItemOf(item: string) returns (failed: bool)
      modifies this
      ensures var o := Effect(old(interrupted), ParseItem(item));
        interrupted == o.interrupted && log == old(log) + o.writes && failed == o.failed
    {
      var parts := SplitOn(item, ':');
      var key := Unwrap(parts[0]);
      failed := false;
      if key == "agent" {
        if |parts| < 2 {
          return true;
        }
        var agent := Unwrap(parts[1]);
        if agent == "agent1" && !interrupted {
          WriteBurst(49, 49, 48, 48);
        } else if agent == "agent2" && !interrupted {
          WriteBurst(48, 48, 49, 49);
        }
      } else if key == "display" {
        if |parts| < 2 {
          return true;
        }
        if Resumes(Unwrap(parts[1])) {
          interrupted := false;
        }
      }
    }

    /** One pass of the loop of HandleItemList: item n is handled, and what
        it wrote is added to the writes so far; a failure ends the list. */
    method HandleItemAt(items: seq<string>, ghost its: seq<Item>, n: nat,
                        ghost start: bool, ghost log0: seq<SerialWrite>, ghost done: seq<SerialWrite>)
      returns (failed: bool, ghost done': seq<SerialWrite>)
      requires n < |items| == |its|
      requires forall k {:trigger ParseItem(items[k])} | 0 <= k < |items| :: its[k] == ParseItem(items[k])
      requires log == log0 + done
      requires EffectsFrom(start, its, 0).interrupted == EffectsFrom(interrupted, its, n).interrupted
      requires EffectsFrom(start, its, 0).failed == EffectsFrom(interrupted, its, n).failed
      requires EffectsFrom(start, its, 0).writes == done + EffectsFrom(interrupted, its, n).writes
      modifies this
      ensures log == log0 + done'
      ensures failed ==> interrupted == EffectsFrom(start, its, 0).interrupted && done' == EffectsFrom(start, its, 0).writes
      ensures !failed ==> EffectsFrom(start, its, 0).interrupted == EffectsFrom(interrupted, its, n + 1).interrupted
      ensures !failed ==> EffectsFrom(start, its, 0).failed == EffectsFrom(interrupted, its, n + 1).failed
      ensures !failed ==> EffectsFrom(start, its, 0).writes == done' + EffectsFrom(interrupted, its, n + 1).writes
    {
      ghost var was := interrupted;
      failed := HandleItemOf(items[n]);
      assert its[n] == ParseItem(items[n]);
      done' := done;
      if failed {
        return;
      }
      ghost var w := Effect(was, its[n]).writes;
      EffectsStep(start, its, n, was, done, interrupted, w);
      AppendAssociates(log0, done, w);
      done' := done + w;
    }

    /** The items of a speech payload in order, until one raises
        IndexError, which leaves the loop. */
    method HandleItemList(items: seq<string>, ghost its: seq<Item>)
      requires |its| == |items|
      requires forall k {:trigger ParseItem(items[k])} | 0 <= k < |items| :: its[k] == ParseItem(items[k])
      modifies this
      ensures interrupted == EffectsFrom(old(interrupted), its, 0).interrupted
      ensures log == old(log) + EffectsFrom(old(interrupted), its, 0).writes
    {
      ghost var start, log0, done := interrupted, log, [];
      assert done + EffectsFrom(start, its, 0).writes == EffectsFrom(start, its, 0).writes;
      assert log == log0 + done;
      var n := 0;
      while n < |items|
        invariant 0 <= n <= |items|
        invariant log == log0 + done
        invariant EffectsFrom(start, its, 0).interrupted == EffectsFrom(interrupted, its, n).interrupted
        invariant EffectsFrom(start, its, 0).failed == EffectsFrom(interrupted, its, n).failed
        invariant EffectsFrom(start, its, 0).writes == done + EffectsFrom(interrupted, its, n).writes
      {
        var failed;
        failed, done := HandleItemAt(items, its, n, start, log0, done);
        if failed {
          break;
        }
        n := n + 1;
      }
      if n == |items| {
        assert EffectsFrom(interrupted, its, n) == Outcome(interrupted, [], false);
        assert done + [] == done;
      }
    }

    method HandleMessage(r: Received)
      modifies this
      ensures interrupted == Handle(old(interrupted), r).interrupted
      ensures log == old(log) + Handle(old(interrupted), r).writes
    {
      if r.Event? && r.name == "action.speech" {
        var items := SplitOn(r.payload, ',');
        HandleItemList(items, ParseItems(items));
      } else if r.Event? && r.name == "action.speech.stop" {
        interrupted := true;
        WriteBurst(50, 50, 48, 48);
      }
    }

    /** The main loop: read each message in turn and react to it. */
    method Run(messages: seq<Option<string>>)
      modifies this
      ensures interrupted == Session(old(interrupted), messages).interrupted
      ensures log == old(log) + Session(old(interrupted), messages).writes
    {
      RunCommands(messages, Commands(messages));
    }

    /** One pass of the main loop: read a message and react to it. */
    method Step(message: Option<string>, ghost c: Command)
      requires c == ParseEvent(ReadSpec(message))
      modifies this
      ensures interrupted == React(old(interrupted), c).interrupted
      ensures log == old(log) + React(old(interrupted), c).writes
    {
      var r := Read(message);
      HandleMessage(r);
    }

    /** One pass of the loop of RunCommands: message n is handled, and what
        it wrote is added to the writes so far. */
    method Advance(messages: seq<Option<string>>, ghost cs: seq<Command>, n: nat,
                   ghost start: bool, ghost log0: seq<SerialWrite>, ghost done: seq<SerialWrite>)
      returns (ghost done': seq<SerialWrite>)
      requires n < |messages| == |cs|
      requires forall k {:trigger ReadSpec(messages[k])} | 0 <= k < |messages| :: cs[k] == ParseEvent(ReadSpec(messages[k]))
      requires log == log0 + done
      requires HandleFrom(start, cs, 0).interrupted == HandleFrom(interrupted, cs, n).interrupted
      requires HandleFrom(start, cs, 0).writes == done + HandleFrom(interrupted, cs, n).writes
      modifies this
      ensures log == log0 + done'
      ensures HandleFrom(start, cs, 0).interrupted == HandleFrom(interrupted, cs, n + 1).interrupted
      ensures HandleFrom(start, cs, 0).writes == done' + HandleFrom(interrupted, cs, n + 1).writes
    {
      ghost var was := interrupted;
      assert cs[n] == ParseEvent(ReadSpec(messages[n]));
      Step(messages[n], cs[n]);
      ghost var w := React(was, cs[n]).writes;
      HandleFromStep(start, cs, n, was, done, interrupted, w);
      AppendAssociates(log0, done, w);
      done' := done + w;
    }

    /** The loop of Run, with what each message asks for given alongside. */
    method RunCommands(messages: seq<Option<string>>, ghost cs: seq<Command>)
      requires |cs| == |messages|
      requires forall k {:trigger ReadSpec(messages[k])} | 0 <= k < |messages| :: cs[k] == ParseEvent(ReadSpec(messages[k]))
      modifies this
      ensures interrupted == HandleFrom(old(interrupted), cs, 0).interrupted
      ensures log == old(log) + HandleFrom(old(interrupted), cs, 0).writes
    {
      ghost var start, log0, done := interrupted, log, [];
      assert done + HandleFrom(start, cs, 0).writes == HandleFrom(start, cs, 0).writes;
      assert log == log0 + done;
      var n := 0;
      while n < |messages|
        invariant 0 <= n <= |messages|
        invariant log == log0 + done
        invariant HandleFrom(start, cs, 0).interrupted == HandleFrom(interrupted, cs, n).interrupted
        invariant HandleFrom(start, cs, 0).writes == done + HandleFrom(interrupted, cs, n).writes
      {
        done := Advance(messages, cs, n, start, log0, done);
        n := n + 1;
      }
      assert HandleFrom(interrupted, cs, n) == Outcome(interrupted, [], false);
      assert done + [] == done;
    }
  }

  // ---------------------------------------------------------------------
  // Properties of the bridge
  // ---------------------------------------------------------------------

  /** Writes come in whole bursts, one byte to each line in port order,
      and every byte is an ASCII '0', '1' or '2'. */
  ghost predicate Bursts(ws: seq<SerialWrite>)
  {
    && |ws| % 4 == 0
    && (forall k | 0 <= k < |ws| :: ws[k].port == UsbPorts[k % 4])
    && (forall k | 0 <= k < |ws| :: ws[k].byte in {48, 49, 50})
  }

  lemma BurstsAppend(a: seq<SerialWrite>, b: seq<SerialWrite>)
    requires Bursts(a) && Bursts(b)
    ensures Bursts(a + b)
  {
    var ab := a + b;
    var q := |a| / 4;
    assert |a| == 4 * q;
    ModPeriod(|b|, q);
    forall k | 0 <= k < |ab|
      ensures ab[k].port == UsbPorts[k % 4] && ab[k].byte in {48, 49, 50}
    {
      if k < |a| {
        assert ab[k] == a[k];
      } else {
        assert ab[k] == b[k - |a|];
        ModPeriod(k - |a|, q);
      }
    }
  }

  /** Shifting by whole bursts keeps the position within a burst. */
  lemma {:induction false} ModPeriod(x: nat, q: nat)
    ensures (x + 4 * q) % 4 == x % 4
  {
    if q > 0 {
      ModPeriod(x, q - 1);
      assert x + 4 * q == (x + 4 * (q - 1)) + 4;
    }
  }

  lemma EffectBursts(interrupted: bool, it: Item)
    ensures Bursts(Effect(interrupted, it).writes)
  {
    var o := Effect(interrupted, it);
    if o.writes == Agent1Burst {
      BurstIsBurst(49, 49, 48, 48);
    } else if o.writes == Agent2Burst {
      BurstIsBurst(48, 48, 49, 49);
    } else {
      assert o.writes == [];
    }
  }

  /** One write to each line, in port order, is a whole burst. */
  lemma BurstIsBurst(b1: nat, b2: nat, b3: nat, b4: nat)
    requires b1 in {48, 49, 50} && b2 in {48, 49, 50} && b3 in {48, 49, 50} && b4 in {48, 49, 50}
    ensures Bursts(Burst(b1, b2, b3, b4))
  {
    var ws := Burst(b1, b2, b3, b4);
    forall k | 0 <= k < |ws|
      ensures ws[k].port == UsbPorts[k % 4] && ws[k].byte in {48, 49, 50}
    {
      assert k % 4 == k;
    }
  }

  lemma {:induction false} EffectsFromBursts(interrupted: bool, its: seq<Item>, n: nat)
    ensures Bursts(EffectsFrom(interrupted, its, n).writes)
    decreases |its| - n
  {
    if n < |its| {
      var o := Effect(interrupted, its[n]);
      EffectBursts(interrupted, its[n]);
      if !o.failed {
        EffectsFromBursts(o.interrupted, its, n + 1);
        BurstsAppend(o.writes, EffectsFrom(o.interrupted, its, n + 1).writes);
      }
    }
  }

  lemma ReactBursts(interrupted: bool, c: Command)
    ensures Bursts(React(interrupted, c).writes)
  {
    match c
    case Speech(its) => EffectsFromBursts(interrupted, its, 0);
    case Stop => BurstIsBurst(50, 50, 48, 48);
    case Ignore =>
  }

  lemma {:induction false} HandleFromBursts(interrupted: bool, cs: seq<Command>, n: nat)
    ensures Bursts(HandleFrom(interrupted, cs, n).writes)
    decreases |cs| - n
  {
    if n < |cs| {
      var h := React(interrupted, cs[n]);
      ReactBursts(interrupted, cs[n]);
      HandleFromBursts(h.interrupted, cs, n + 1);
      BurstsAppend(h.writes, HandleFrom(h.interrupted, cs, n + 1).writes);
    }
  }

  /** Whatever the server sends, the serial lines only ever receive whole
      bursts of '0', '1' and '2', one byte per line in port order. */
  lemma SessionBursts(interrupted: bool, messages: seq<Option<string>>)
    ensures Bursts(Session(interrupted, messages).writes)
  {
    HandleFromBursts(interrupted, Commands(messages), 0);
  }

  /** While interrupted, no item makes the robots move, and only a resume
      display clears the flag. */
  lemma InterruptedItemIsSilent(it: Item)
    ensures Effect(true, it).writes == []
    ensures !Effect(true, it).interrupted <==> it.DisplayItem? && Resumes(it.text)
  {
  }

  /** A speech message with no resume display writes nothing while
      interrupted, and leaves the bridge interrupted. */
  lemma {:induction false} InterruptedStaysSilent(its: seq<Item>, n: nat)
    requires forall k | 0 <= k < |its| :: !(its[k].DisplayItem? && Resumes(its[k].text))
    ensures EffectsFrom(true, its, n).writes == [] && EffectsFrom(true, its, n).interrupted
    decreases |its| - n
  {
    if n < |its| {
      InterruptedItemIsSilent(its[n]);
      if !Effect(true, its[n]).failed {
        InterruptedStaysSilent(its, n + 1);
      }
    }
  }

  /** The items before the first one that raises IndexError are handled
      as if the message ended there; nothing after it has any effect. */
  lemma {:induction false} FailureSkipsRest(interrupted: bool, its: seq<Item>, bad: nat)
    requires bad < |its| && its[bad].MissingValue?
    requires forall k | 0 <= k < bad :: !its[k].MissingValue?
    ensures var done := EffectsFrom(interrupted, its[..bad], 0);
      !done.failed && EffectsFrom(interrupted, its, 0) == Outcome(done.interrupted, done.writes, true)
  {
    PrefixUpToFailure(interrupted, its, bad, 0);
  }

  lemma {:induction false} PrefixUpToFailure(interrupted: bool, its: seq<Item>, bad: nat, n: nat)
    requires n <= bad < |its| && its[bad].MissingValue?
    requires forall k | n <= k < bad :: !its[k].MissingValue?
    ensures var done := EffectsFrom(interrupted, its[..bad], n);
      !done.failed && EffectsFrom(interrupted, its, n) == Outcome(done.interrupted, done.writes, true)
    decreases bad - n
  {
    if n < bad {
      assert its[..bad][n] == its[n];
      var o := Effect(interrupted, its[n]);
      PrefixUpToFailure(o.interrupted, its, bad, n + 1);
    }
  }

  /** A stop event interrupts and sends '2' '2' '0' '0', whatever the state. */
  lemma StopInterrupts(interrupted: bool, payload: string)
    ensures Handle(interrupted, Event("action.speech.stop", payload)) == Outcome(true, StopBurst, false)
  {
  }

  /** An item `"agent":"<name>"` is read as the agent name. */
  lemma QuotedAgent(agent: string)
    requires ':' !in agent
    ensures ParseItem("\"agent\":\"" + agent + "\"") == AgentItem(agent)
  {
    assert "\"agent\":\"" + agent + "\"" == "\"" + "agent" + "\":\"" + agent + "\"";
    QuotedPair("agent", agent);
  }

  /** An item `"display":"<text>"` is read as the displayed text. */
  lemma QuotedDisplay(text: string)
    requires ':' !in text
    ensures ParseItem("\"display\":\"" + text + "\"") == DisplayItem(text)
  {
    assert "\"display\":\"" + text + "\"" == "\"" + "display" + "\":\"" + text + "\"";
    QuotedPair("display", text);
  }

  /** An item whose value is missing, `"agent"`, raises IndexError. */
  lemma AgentWithoutValue(interrupted: bool)
    ensures ParseItem("\"agent\"") == MissingValue
    ensures Effect(interrupted, ParseItem("\"agent\"")).failed
  {
    var item := "\"agent\"";
    IndexOfAbsent(item, ':');
    UnwrapQuoted("agent", '"', '"');
  }

  /** `"key":"value"` splits into the two quoted halves, which unwrap to
      key and value. */
  lemma QuotedPair(key: string, value: string)
    requires ':' !in key && ':' !in value
    ensures var parts := SplitOn("\"" + key + "\":\"" + value + "\"", ':');
      |parts| == 2 && Unwrap(parts[0]) == key && Unwrap(parts[1]) == value
  {
    QuotedSplit(key, value);
    UnwrapQuoted(key, '"', '"');
    UnwrapQuoted(value, '"', '"');
  }

  lemma QuotedSplit(key: string, value: string)
    requires ':' !in key && ':' !in value
    ensures SplitOn("\"" + key + "\":\"" + value + "\"", ':') == [['"'] + key + ['"'], ['"'] + value + ['"']]
  {
    var k := ['"'] + key + ['"'];
    var v := ['"'] + value + ['"'];
    assert "\"" + key + "\":\"" + value + "\"" == k + [':'] + v;
    SplitPair(k, v, ':');
  }
}
